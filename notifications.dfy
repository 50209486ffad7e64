/**
 * What the service hands to the notification manager. The platform's
 * notification object (channel, icon, pending intent) is not modelled; a
 * notification is its id, its message and the optional `place_name` extra.
 */
module Notifications {
  import opened Optional

  /**
   * The three messages the service sends. The two location messages embed
   * formatted doubles in the source; here they carry the coordinates
   * themselves.
   */
  datatype Message =
    | CurrentPlace(city: string, latitude: real, longitude: real)  // "Ubicación actual: ..."
    | Coordinates(latitude: real, longitude: real)                 // "Ubicación: Latitud: ..."
    | Related(body: string)                                        // "Contenidos relacionados en Wikipedia: ..."

  /** A notification before it is given an id: its message and its place-name payload. */
  datatype Notice = Notice(message: Message, payload: Option<string>)

  /** A notification as posted to the notification manager. */
  datatype Notification = Notification(id: int, notice: Notice)

  /** The id the counter gives the first notification of a service: 2, raised once before use. */
  const FirstId: int := 3

  /** The range of Kotlin's `Int`, the type of the counter. */
  const IntMin: int := -0x8000_0000
  const IntMax: int := 0x7fff_ffff
  const IntRange: int := 0x1_0000_0000

  /** Two's-complement wrap-around of an unbounded integer into `Int`, as `++` does on overflow. */
  function WrapInt(x: int): (r: int)
    ensures IntMin <= r <= IntMax
    ensures IntMin <= x <= IntMax ==> r == x
    decreases if x > IntMax then x - IntMax else if x < IntMin then IntMin - x else 0
  {
    if x > IntMax then WrapInt(x - IntRange)
    else if x < IntMin then WrapInt(x + IntRange)
    else x
  }

  /** Wrapping ignores whole turns of 2^32. */
  lemma WrapTurn(x: int)
    ensures WrapInt(x + IntRange) == WrapInt(x)
    ensures WrapInt(x - IntRange) == WrapInt(x)
  {
  }

  /** Raising a wrapped value by one and wrapping again is wrapping the raised value. */
  lemma {:induction false} WrapSucc(x: int)
    ensures WrapInt(WrapInt(x) + 1) == WrapInt(x + 1)
    decreases if x > IntMax then x - IntMax else if x < IntMin then IntMin - x else 0
  {
    if x > IntMax {
      WrapSucc(x - IntRange);
      WrapTurn(x + 1 - IntRange);
      assert x + 1 - IntRange + IntRange == x + 1;
    } else if x < IntMin {
      WrapSucc(x + IntRange);
      WrapTurn(x + 1);
    }
  }

  lemma ModShift(a: int, q: int)
    ensures (a + q * IntRange) % IntRange == a % IntRange
  {
  }

  /** A wrapped value differs from the original by whole turns of 2^32. */
  lemma {:induction false} WrapCongruent(x: int)
    ensures (x - WrapInt(x)) % IntRange == 0
    decreases if x > IntMax then x - IntMax else if x < IntMin then IntMin - x else 0
  {
    if x > IntMax {
      WrapCongruent(x - IntRange);
      ModShift(x - IntRange - WrapInt(x), 1);
    } else if x < IntMin {
      WrapCongruent(x + IntRange);
      ModShift(x + IntRange - WrapInt(x), -1);
    }
  }

  /** Two sequence numbers wrap to the same `Int` only if they are a multiple of 2^32 apart. */
  lemma WrapCollision(a: int, b: int)
    requires WrapInt(a) == WrapInt(b)
    ensures (b - a) % IntRange == 0
  {
    var r := WrapInt(a);
    WrapCongruent(a);
    WrapCongruent(b);
    var qa, qb := (a - r) / IntRange, (b - r) / IntRange;
    assert a - r == qa * IntRange;
    assert b - r == qb * IntRange;
    assert b - a == (qb - qa) * IntRange;
    ModShift(0, qb - qa);
  }

  /**
   * Posting `notices` in order while the counter hands out the `first`-th,
   * `first + 1`-th, ... value: the id of each is that sequence number
   * wrapped into `Int`.
   */
  function Stamp(first: int, notices: seq<Notice>): (r: seq<Notification>)
    ensures |r| == |notices|
    ensures forall i :: 0 <= i < |notices| ==> r[i].notice == notices[i]
    ensures NumberedFrom(r, first)
  {
    seq(|notices|, i requires 0 <= i < |notices| => Notification(WrapInt(first + i), notices[i]))
  }

  /** The ids of `posted` are the sequence numbers `first`, `first + 1`, ... wrapped into `Int`. */
  predicate NumberedFrom(posted: seq<Notification>, first: int)
  {
    forall i :: 0 <= i < |posted| ==> posted[i].id == WrapInt(first + i)
  }

  /** The notices of posted notifications, in posting order. */
  function NoticesOf(posted: seq<Notification>): (r: seq<Notice>)
    ensures |r| == |posted|
    ensures forall i :: 0 <= i < |posted| ==> r[i] == posted[i].notice
  {
    seq(|posted|, i requires 0 <= i < |posted| => posted[i].notice)
  }

  lemma NoticesOfAppend(a: seq<Notification>, b: seq<Notification>)
    ensures NoticesOf(a + b) == NoticesOf(a) + NoticesOf(b)
  {
  }

  /** A log numbered from `first` is its notices stamped from `first`: ids and notices determine it. */
  lemma NumberedIsStamped(posted: seq<Notification>, first: int)
    requires NumberedFrom(posted, first)
    ensures posted == Stamp(first, NoticesOf(posted))
  {
  }

  /** Stamping two runs of notices one after the other stamps their concatenation. */
  lemma StampAppend(first: int, a: seq<Notice>, b: seq<Notice>)
    ensures Stamp(first, a + b) == Stamp(first, a) + Stamp(first + |a|, b)
  {
  }

  /**
   * Ids numbered from 3 are strictly increasing in posting order as long as
   * the counter has not passed `Int.MAX_VALUE`, and no two notifications
   * fewer than 2^32 apart share an id.
   */
  lemma IdsFreshAndIncreasing(posted: seq<Notification>)
    requires NumberedFrom(posted, FirstId)
    ensures forall i, j :: 0 <= i < j < |posted| && FirstId + j <= IntMax ==>
      FirstId <= posted[i].id < posted[j].id
    ensures forall i, j :: 0 <= i < j < |posted| && j - i < IntRange ==> posted[i].id != posted[j].id
  {
    forall i, j | 0 <= i < j < |posted| && j - i < IntRange
      ensures posted[i].id != posted[j].id
    {
      if posted[i].id == posted[j].id {
        WrapCollision(FirstId + i, FirstId + j);
        assert false;
      }
    }
  }

  /** The counter wraps: the notification after the one with id `Int.MAX_VALUE` gets id `Int.MIN_VALUE`. */
  lemma CounterWraps(posted: seq<Notification>)
    requires NumberedFrom(posted, FirstId)
    requires |posted| > IntMax - FirstId + 1
    ensures posted[IntMax - FirstId].id == IntMax
    ensures posted[IntMax - FirstId + 1].id == IntMin
  {
    assert posted[IntMax - FirstId + 1].id == WrapInt(IntMax + 1);
  }
}

/**
 * The significant-change filter of the location service: one stored
 * coordinate, compared component-wise against each new fix with a fixed
 * threshold of 0.01 degrees. Coordinates are reals; the rounding of the
 * source's `Double`s is not modelled.
 */
module LocationFilter {

  datatype Coord = Coord(latitude: real, longitude: real)

  /** The stored coordinate of a freshly created service. */
  const Origin: Coord := Coord(0.0, 0.0)

  /** LOCATION_DIFFERENCE_THRESHOLD, in degrees. */
  const Threshold: real := 0.01

  function Abs(x: real): (r: real)
    ensures r >= 0.0
    ensures r == x || r == -x
  {
    if x < 0.0 then -x else x
  }

  /** Both components are within the threshold (inclusive) of the stored coordinate. */
  predicate WithinThreshold(last: Coord, c: Coord)
  {
    -Threshold <= c.latitude - last.latitude <= Threshold &&
    -Threshold <= c.longitude - last.longitude <= Threshold
  }

  /**
   * A new fix is significant when either component moved strictly more than
   * the threshold: exactly when it is not within the threshold on both axes.
   * A significant fix always differs from the stored coordinate.
   */
  predicate IsSignificant(last: Coord, c: Coord)
    ensures IsSignificant(last, c) <==> !WithinThreshold(last, c)
    ensures IsSignificant(last, c) ==> c != last
  {
    Abs(c.latitude - last.latitude) > Threshold || Abs(c.longitude - last.longitude) > Threshold
  }

  /**
   * The fixes of a batch that the filter accepts, in batch order, when the
   * stored coordinate is `last` before the batch. Each fix is compared
   * against the coordinate left by the fixes before it.
   */
  function Accepted(last: Coord, locs: seq<Coord>): (r: seq<Coord>)
    ensures |r| <= |locs|
    ensures forall c :: c in r ==> c in locs
    decreases |locs|
  {
    if locs == [] then []
    else if IsSignificant(last, locs[0]) then [locs[0]] + Accepted(locs[0], locs[1..])
    else Accepted(last, locs[1..])
  }

  /** The stored coordinate after the filter has seen the whole batch: the old one or a fix of the batch. */
  function Stored(last: Coord, locs: seq<Coord>): (r: Coord)
    ensures r == last || r in locs
    decreases |locs|
  {
    if locs == [] then last
    else Stored(if IsSignificant(last, locs[0]) then locs[0] else last, locs[1..])
  }

  /** The last coordinate the filter accepted, or `last` when it accepted none. */
  function LastOr(last: Coord, accepted: seq<Coord>): Coord
  {
    if accepted == [] then last else accepted[|accepted| - 1]
  }

  /** The threshold itself is not significant: a move of exactly 0.01 is rejected. */
  lemma ThresholdIsExclusive(last: Coord)
    ensures !IsSignificant(last, Coord(last.latitude + Threshold, last.longitude - Threshold))
    ensures IsSignificant(last, Coord(last.latitude + Threshold + 0.000001, last.longitude))
  {
  }

  /** Submitting an accepted fix again right away is rejected and stores nothing new. */
  lemma RepeatIsRejected(last: Coord, c: Coord)
    ensures Accepted(last, [c, c]) == Accepted(last, [c])
    ensures Stored(last, [c, c]) == Stored(last, [c])
  {
    assert [c, c][1..] == [c];
    assert !IsSignificant(c, c);
  }

  /** Processing two batches one after the other is processing their concatenation. */
  lemma {:induction false} AcceptedAppend(last: Coord, a: seq<Coord>, b: seq<Coord>)
    ensures Accepted(last, a + b) == Accepted(last, a) + Accepted(Stored(last, a), b)
    ensures Stored(last, a + b) == Stored(Stored(last, a), b)
    decreases |a|
  {
    if a == [] {
      assert a + b == b;
    } else {
      assert (a + b)[0] == a[0];
      assert (a + b)[1..] == a[1..] + b;
      var next := if IsSignificant(last, a[0]) then a[0] else last;
      AcceptedAppend(next, a[1..], b);
    }
  }

  /** After a batch the stored coordinate is the last accepted fix, or the old one if none was accepted. */
  lemma {:induction false} StoredIsLastAccepted(last: Coord, locs: seq<Coord>)
    ensures Stored(last, locs) == LastOr(last, Accepted(last, locs))
    decreases |locs|
  {
    if locs != [] {
      StoredIsLastAccepted(if IsSignificant(last, locs[0]) then locs[0] else last, locs[1..]);
    }
  }

  /**
   * Every accepted fix is significant with respect to the fix accepted just
   * before it (the stored coordinate for the first one).
   */
  lemma {:induction false} AcceptedChain(last: Coord, locs: seq<Coord>)
    ensures Accepted(last, locs) != [] ==> IsSignificant(last, Accepted(last, locs)[0])
    ensures forall i :: 1 <= i < |Accepted(last, locs)| ==>
      IsSignificant(Accepted(last, locs)[i - 1], Accepted(last, locs)[i])
    decreases |locs|
  {
    if locs != [] {
      var next := if IsSignificant(last, locs[0]) then locs[0] else last;
      AcceptedChain(next, locs[1..]);
      var rest := Accepted(next, locs[1..]);
      if IsSignificant(last, locs[0]) {
        var r := [locs[0]] + rest;
        assert r == Accepted(last, locs);
        forall i | 1 <= i < |r|
          ensures IsSignificant(r[i - 1], r[i])
        {
          if i > 1 {
            assert IsSignificant(rest[i - 2], rest[i - 1]);
          }
        }
      }
    }
  }

  /** A batch that stays within the threshold of the stored coordinate is ignored entirely. */
  lemma {:induction false} BatchWithinThresholdIgnored(last: Coord, locs: seq<Coord>)
    requires forall i :: 0 <= i < |locs| ==> WithinThreshold(last, locs[i])
    ensures Accepted(last, locs) == []
    ensures Stored(last, locs) == last
    decreases |locs|
  {
    if locs != [] {
      assert WithinThreshold(last, locs[0]);
      BatchWithinThresholdIgnored(last, locs[1..]);
    }
  }
}

/**
 * The location service itself: the stored coordinate, the notification
 * counter, and the steps of the location callback, as a class whose
 * methods update those fields. `posted` stands for what the notification
 * manager has been given, in order.
 */
module Service {
  import opened Optional
  import opened LocationFilter
  import opened Notifications
  import opened RelatedContent
  import opened PlaceResolution

  /** The notices sent for the accepted fixes, one `getPlaceName` per fix, in order. */
  function ReactionsTo(accepted: seq<Coord>, geocoder: Coord -> Geocoding, wiki: string -> Response): seq<Notice>
    decreases |accepted|
  {
    if accepted == [] then []
    else PlaceNotices(accepted[0], geocoder(accepted[0]), wiki) + ReactionsTo(accepted[1..], geocoder, wiki)
  }

  /** The notices one location batch sends when the stored coordinate is `last` before it. */
  function BatchNotices(last: Coord, locs: seq<Coord>, geocoder: Coord -> Geocoding, wiki: string -> Response): seq<Notice>
  {
    ReactionsTo(Accepted(last, locs), geocoder, wiki)
  }

  lemma {:induction false} ReactionsToAppend(a: seq<Coord>, b: seq<Coord>, geocoder: Coord -> Geocoding, wiki: string -> Response)
    ensures ReactionsTo(a + b, geocoder, wiki) == ReactionsTo(a, geocoder, wiki) + ReactionsTo(b, geocoder, wiki)
    decreases |a|
  {
    if a == [] {
      assert a + b == b;
    } else {
      assert (a + b)[0] == a[0];
      assert (a + b)[1..] == a[1..] + b;
      ReactionsToAppend(a[1..], b, geocoder, wiki);
    }
  }

  /** Extending a batch by one fix extends its notices by that fix's, when the filter accepts it. */
  lemma BatchStep(start: Coord, prefix: seq<Coord>, c: Coord, geocoder: Coord -> Geocoding, wiki: string -> Response)
    ensures Stored(start, prefix + [c]) ==
      if IsSignificant(Stored(start, prefix), c) then c else Stored(start, prefix)
    ensures BatchNotices(start, prefix + [c], geocoder, wiki) ==
      BatchNotices(start, prefix, geocoder, wiki) +
      (if IsSignificant(Stored(start, prefix), c) then PlaceNotices(c, geocoder(c), wiki) else [])
  {
    AcceptedAppend(start, prefix, [c]);
    assert [c][1..] == [];
    var step := Accepted(Stored(start, prefix), [c]);
    ReactionsToAppend(Accepted(start, prefix), step, geocoder, wiki);
    if IsSignificant(Stored(start, prefix), c) {
      assert step == [c];
      assert ReactionsTo(step, geocoder, wiki) == PlaceNotices(c, geocoder(c), wiki) + [];
    } else {
      assert step == [];
    }
  }

  lemma AppendAssoc(a: seq<Notice>, b: seq<Notice>, c: seq<Notice>)
    ensures (a + b) + c == a + (b + c)
  {
  }

  /** The loop step of `onLocationResult`, on values: one more handled fix extends the batch by one. */
  lemma BatchLoopStep(before: seq<Notice>, start: Coord, locations: seq<Coord>, i: nat,
                      sent: seq<Notice>, sent': seq<Notice>, stored: Coord, stored': Coord,
                      geocoder: Coord -> Geocoding, wiki: string -> Response)
    requires i < |locations|
    requires stored == Stored(start, locations[..i])
    requires sent == before + BatchNotices(start, locations[..i], geocoder, wiki)
    requires stored' == if IsSignificant(stored, locations[i]) then locations[i] else stored
    requires sent' == sent +
      if IsSignificant(stored, locations[i]) then PlaceNotices(locations[i], geocoder(locations[i]), wiki) else []
    ensures stored' == Stored(start, locations[..i + 1])
    ensures sent' == before + BatchNotices(start, locations[..i + 1], geocoder, wiki)
  {
    var prefix := locations[..i];
    assert locations[..i + 1] == prefix + [locations[i]];
    BatchStep(start, prefix, locations[i], geocoder, wiki);
    AppendAssoc(before, BatchNotices(start, prefix, geocoder, wiki),
      if IsSignificant(stored, locations[i]) then PlaceNotices(locations[i], geocoder(locations[i]), wiki) else []);
  }

  /** A batch sends at most two notifications per fix it accepts, and nothing for a batch it ignores. */
  lemma {:induction false} ReactionsBound(accepted: seq<Coord>, geocoder: Coord -> Geocoding, wiki: string -> Response)
    ensures |ReactionsTo(accepted, geocoder, wiki)| <= 2 * |accepted|
    decreases |accepted|
  {
    if accepted != [] {
      ReactionsBound(accepted[1..], geocoder, wiki);
    }
  }

  /** A batch within the threshold of the stored coordinate sends nothing; otherwise at most two notices per fix. */
  lemma BatchNoticesBound(last: Coord, locs: seq<Coord>, geocoder: Coord -> Geocoding, wiki: string -> Response)
    ensures |BatchNotices(last, locs, geocoder, wiki)| <= 2 * |locs|
    ensures (forall i :: 0 <= i < |locs| ==> WithinThreshold(last, locs[i])) ==>
      BatchNotices(last, locs, geocoder, wiki) == []
  {
    ReactionsBound(Accepted(last, locs), geocoder, wiki);
    if forall i :: 0 <= i < |locs| ==> WithinThreshold(last, locs[i]) {
      BatchWithinThresholdIgnored(last, locs);
    }
  }

  class LocationService {
    /** contNotificacion: a Kotlin `Int`, the id of the last notification sent. */
    var notificationCounter: int
    var lastLatitude: real
    var lastLongitude: real
    /** The notifications given to the notification manager so far, in order. */
    var posted: seq<Notification>

    /**
     * The counter has been raised, with wrap-around, once per notification,
     * and the ids are 3, 4, ... in posting order, wrapped into `Int`.
     */
    ghost predicate Valid()
      reads this
    {
      notificationCounter == WrapInt(FirstId - 1 + |posted|) &&
      NumberedFrom(posted, FirstId)
    }

    function StoredCoord(): Coord
      reads this
    {
      Coord(lastLatitude, lastLongitude)
    }

    /** What was posted, without the ids (which `Valid` fixes by position). */
    function Sent(): seq<Notice>
      reads this
    {
      NoticesOf(posted)
    }

    constructor ()
      ensures Valid()
      ensures notificationCounter == 2
      ensures StoredCoord() == Origin
      ensures posted == []
    {
      notificationCounter := 2;
      lastLatitude := 0.0;
      lastLongitude := 0.0;
      posted := [];
    }

    /**
     * Accepts the fix, and stores it, iff it is significant with respect to
     * the stored coordinate; a rejected fix changes nothing.
     */
    method IsSignificantLocationChange(latitude: real, longitude: real) returns (significant: bool)
      modifies this`lastLatitude, this`lastLongitude
      ensures significant <==>
        Abs(latitude - old(lastLatitude)) > Threshold || Abs(longitude - old(lastLongitude)) > Threshold
      ensures significant ==> lastLatitude == latitude && lastLongitude == longitude
      ensures !significant ==> lastLatitude == old(lastLatitude) && lastLongitude == old(lastLongitude)
    {
      var latitudeDifference := Abs(latitude - lastLatitude);
      var longitudeDifference := Abs(longitude - lastLongitude);
      if latitudeDifference > Threshold || longitudeDifference > Threshold {
        lastLatitude := latitude;
        lastLongitude := longitude;
        significant := true;
      } else {
        significant := false;
      }
    }

    /**
     * Raises the 32-bit counter by one (wrapping past `Int.MAX_VALUE`) and
     * posts the notice under the new counter value.
     */
    method SendNotification(message: Message, placeName: Option<string>)
      requires Valid()
      modifies this`notificationCounter, this`posted
      ensures Valid()
      ensures notificationCounter == WrapInt(old(notificationCounter) + 1)
      ensures old(notificationCounter) < IntMax ==> notificationCounter == old(notificationCounter) + 1
      ensures posted == old(posted) + [Notification(notificationCounter, Notice(message, placeName))]
      ensures Sent() == old(Sent()) + [Notice(message, placeName)]
    {
      WrapSucc(FirstId - 1 + |posted|);
      NoticesOfAppend(posted, [Notification(WrapInt(notificationCounter + 1), Notice(message, placeName))]);
      notificationCounter := WrapInt(notificationCounter + 1);
      posted := posted + [Notification(notificationCounter, Notice(message, placeName))];
    }

    /**
     * Fetches the related pages of `placeName` (synchronously here) and, when
     * the response lists titled pages, posts one notification listing them.
     * Every failure is swallowed.
     */
    method FetchRelatedWikipediaContent(placeName: string, wiki: string -> Response)
      requires Valid()
      modifies this`notificationCounter, this`posted
      ensures Valid()
      ensures Sent() == old(Sent()) + RelatedNotices(placeName, wiki(RelatedUrl(placeName)))
    {
      var url := RelatedUrl(placeName);
      var response := wiki(url);
      match response
      case Unavailable =>
      case Pages(pages) =>
        if |pages| > 0 {
          var relatedArticles := CollectTitles(pages);
          if relatedArticles.Some? && |relatedArticles.value| > 0 {
            SendNotification(Related(BodyPrefix + Join(relatedArticles.value)), Some(placeName));
          }
        }
    }

    /** Resolves the fix with the geocoder's outcome `geocoded` and sends what that outcome calls for. */
    method GetPlaceName(latitude: real, longitude: real, geocoded: Geocoding, wiki: string -> Response)
      requires Valid()
      modifies this`notificationCounter, this`posted
      ensures Valid()
      ensures Sent() == old(Sent()) + PlaceNotices(Coord(latitude, longitude), geocoded, wiki)
    {
      match geocoded
      case Threw =>
        SendNotification(Coordinates(latitude, longitude), None);
      case Returned(addresses) =>
        if addresses.Some? {
          if |addresses.value| > 0 && addresses.value[0].locality.Some? {
            var cityName := addresses.value[0].locality.value;
            SendNotification(CurrentPlace(cityName, latitude, longitude), Some(cityName));
            FetchRelatedWikipediaContent(cityName, wiki);
          } else {
            SendNotification(Coordinates(latitude, longitude), None);
          }
        }
    }

    /** The body of the `forEach` in `onLocationResult`: filter one fix and resolve it if accepted. */
    method HandleLocation(location: Coord, geocoder: Coord -> Geocoding, wiki: string -> Response)
      requires Valid()
      modifies this
      ensures Valid()
      ensures StoredCoord() == if IsSignificant(old(StoredCoord()), location) then location else old(StoredCoord())
      ensures Sent() == old(Sent()) +
        if IsSignificant(old(StoredCoord()), location) then PlaceNotices(location, geocoder(location), wiki) else []
    {
      var significant := IsSignificantLocationChange(location.latitude, location.longitude);
      if significant {
        GetPlaceName(location.latitude, location.longitude, geocoder(location), wiki);
      }
    }

    /**
     * `onLocationResult`: runs the filter over the batch in order and
     * resolves every accepted fix. The stored coordinate ends as the filter
     * leaves it, and the notices sent are those of the accepted fixes, in
     * order, under the ids the counter hands out next.
     */
    method OnLocationResult(locations: seq<Coord>, geocoder: Coord -> Geocoding, wiki: string -> Response)
      requires Valid()
      modifies this
      ensures Valid()
      ensures StoredCoord() == Stored(old(StoredCoord()), locations)
      ensures Sent() == old(Sent()) + BatchNotices(old(StoredCoord()), locations, geocoder, wiki)
    {
      ghost var start := StoredCoord();
      ghost var before := Sent();
      var i := 0;
      while i < |locations|
        invariant 0 <= i <= |locations|
        invariant Valid()
        invariant StoredCoord() == Stored(start, locations[..i])
        invariant Sent() == before + BatchNotices(start, locations[..i], geocoder, wiki)
      {
        ghost var stored, sent := StoredCoord(), Sent();
        HandleLocation(locations[i], geocoder, wiki);
        BatchLoopStep(before, start, locations, i, sent, Sent(), stored, StoredCoord(), geocoder, wiki);
        i := i + 1;
      }
      assert locations[..i] == locations;
    }
  }
}

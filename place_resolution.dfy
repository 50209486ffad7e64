/**
 * `getPlaceName`: the branching over what the geocoder returns for an
 * accepted fix, and the notifications each branch sends. The geocoder is a
 * foreign call; its outcome is the `Geocoding` value.
 */
module PlaceResolution {
  import opened Optional
  import opened LocationFilter
  import opened Notifications
  import opened RelatedContent

  /** The one field of an address the service reads. */
  datatype Address = Address(locality: Option<string>)

  /** `getFromLocation(latitude, longitude, 1)`: it throws, or returns a possibly null list. */
  datatype Geocoding = Threw | Returned(addresses: Option<seq<Address>>)

  /** The locality of the first address, when the list is non-null, non-empty and the locality is set. */
  function ResolvedCity(g: Geocoding): (city: Option<string>)
    ensures city.Some? <==>
      g.Returned? && g.addresses.Some? && |g.addresses.value| > 0 && g.addresses.value[0].locality.Some?
    ensures city.Some? ==> city == g.addresses.value[0].locality
  {
    if g.Returned? && g.addresses.Some? && |g.addresses.value| > 0 then g.addresses.value[0].locality
    else None
  }

  /**
   * The notifications `getPlaceName` sends for fix `c`, in order, when the
   * geocoder yields `g` and the related-content endpoint answers `wiki(url)`.
   */
  function PlaceNotices(c: Coord, g: Geocoding, wiki: string -> Response): (r: seq<Notice>)
    ensures r == [] <==> g == Returned(None)
    ensures |r| <= 2
    ensures forall n :: n in r ==> (n.payload.None? <==> n.message.Coordinates?)
    ensures forall n :: n in r && n.payload.Some? ==> n.payload == ResolvedCity(g)
  {
    match g
    case Threw =>
      [Notice(Coordinates(c.latitude, c.longitude), None)]
    case Returned(None) =>
      []
    case Returned(Some(addresses)) =>
      if |addresses| > 0 && addresses[0].locality.Some? then
        var city := addresses[0].locality.value;
        [Notice(CurrentPlace(city, c.latitude, c.longitude), Some(city))]
          + RelatedNotices(city, wiki(RelatedUrl(city)))
      else
        [Notice(Coordinates(c.latitude, c.longitude), None)]
  }

  /**
   * The four outcomes: a resolved city gives its notice, carrying the city,
   * followed by what the fetch for that city sends; a null list gives
   * nothing; a thrown exception, an empty list or a missing locality give a
   * single coordinates notice without payload. This lemma unfolds the
   * definition of `PlaceNotices`; it states the branches side by side.
   */
  lemma PlaceOutcomes(c: Coord, g: Geocoding, wiki: string -> Response)
    ensures ResolvedCity(g).Some? ==>
      var city := ResolvedCity(g).value;
      PlaceNotices(c, g, wiki) ==
        [Notice(CurrentPlace(city, c.latitude, c.longitude), Some(city))]
          + RelatedNotices(city, wiki(RelatedUrl(city)))
    ensures g == Returned(None) ==> PlaceNotices(c, g, wiki) == []
    ensures ResolvedCity(g).None? && g != Returned(None) ==>
      PlaceNotices(c, g, wiki) == [Notice(Coordinates(c.latitude, c.longitude), None)]
  {
  }

  /** The related-content fetch runs only for a resolved city, and for that city's URL. */
  lemma FetchOnlyForResolvedCity(c: Coord, g: Geocoding, wiki: string -> Response)
    ensures forall n :: n in PlaceNotices(c, g, wiki) && n.message.Related? ==>
      ResolvedCity(g).Some? &&
      PlaceNotices(c, g, wiki)[1..] == RelatedNotices(ResolvedCity(g).value, wiki(RelatedUrl(ResolvedCity(g).value)))
  {
  }
}

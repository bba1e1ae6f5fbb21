/** The OpenStreetMap Nominatim adapter: live suggestions for a partly typed
    query, and a single best match for the address the audit runs on. The
    remote service is a parameter; an exception it raises is a `Raised` reply. */
module Geocoder {
  import opened Wrappers
  import Text

  /** One geocoding hit: display address and coordinates. */
  datatype Place = Place(address: string, latitude: real, longitude: real)

  /** `geocode(query, exactly_one=False, limit=n)`: a list of hits, or None. */
  type SuggestService = (string, nat) -> Reply<Option<seq<Place>>>

  /** `geocode(address)`: the best hit, or None. */
  type LookupService = string -> Reply<Option<Place>>

  /** Suggestions are only looked up for queries of at least this many
      characters once surrounding whitespace is removed. */
  const MinQueryLength: nat := 3

  /** The default `max_results` of the suggestion lookup. */
  const DefaultMaxResults: nat := 5

  /** The guard at the top of the suggestion lookup: an empty query, or one
      whose stripped text is shorter than three characters. */
  predicate TooShort(query: string) {
    query == [] || |Text.Strip(query)| < MinQueryLength
  }

  /** The hits a reply carries, when it carries any. */
  predicate HasHits(reply: Reply<Option<seq<Place>>>) {
    reply.Returned? && reply.value.Some? && reply.value.value != []
  }

  /** `get_osm_suggestions`: a short query gives no suggestions whatever the
      service would have said; otherwise the service's non-empty list is
      passed on unchanged, and a timeout, a service error, any other
      exception, a None reply or an empty list all give no suggestions. */
  function GetOsmSuggestions(query: string, maxResults: nat, service: SuggestService): (r: seq<Place>)
    ensures TooShort(query) ==> r == []
    ensures !TooShort(query) && HasHits(service(query, maxResults)) ==> r == service(query, maxResults).value.value
    ensures !HasHits(service(query, maxResults)) ==> r == []
    ensures r != [] <==> !TooShort(query) && HasHits(service(query, maxResults))
  {
    if TooShort(query) then []
    else
      match service(query, maxResults)
      case Raised(_) => []
      case Returned(None) => []
      case Returned(Some(results)) => if results == [] then [] else results
  }

  /** `geocode_location`: every exception the service raises becomes None;
      otherwise the service's answer, hit or None, is passed on. */
  function GeocodeLocation(address: string, service: LookupService): (r: Option<Place>)
    ensures service(address).Raised? ==> r == None
    ensures service(address).Returned? ==> r == service(address).value
    ensures r.Some? <==> service(address).Returned? && service(address).value.Some?
  {
    match service(address)
    case Raised(TimedOut) => None
    case Raised(ServiceError) => None
    case Raised(OtherError) => None
    case Returned(location) => location
  }
}

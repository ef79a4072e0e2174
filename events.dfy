/** The invocation event and the static place registry of lambda_function.py.

    The event is a duck-typed value: a dictionary that may carry a
    `place_name` entry and a `places` entry, or anything else. */
module Events {
  import opened Wrappers

  /** The `place_name` entry of a dictionary event. A falsy value that is not
      a string (None, 0, False, an empty list or dict) is `FalsyPlaceName`. */
  datatype PlaceNameEntry = NoPlaceName | PlaceName(name: string) | FalsyPlaceName

  /** The `places` entry of a dictionary event: absent, a list, or a value of
      another type. */
  datatype PlacesEntry = NoPlaces | PlacesList(names: seq<string>) | PlacesNotList

  datatype Event = DictEvent(placeName: PlaceNameEntry, places: PlacesEntry) | NonDictEvent

  /** The event names one place through a present, truthy `place_name`. */
  predicate HasTruthyPlaceName(event: Event)
  {
    event.DictEvent? && event.placeName.PlaceName? && event.placeName.name != ""
  }

  /** The places an invocation runs for. */
  function GetPlacesFromEvent(event: Event): (places: seq<string>)
    ensures HasTruthyPlaceName(event) ==> places == [event.placeName.name]
    ensures !HasTruthyPlaceName(event) && event.DictEvent? && event.places.PlacesList? ==>
              places == event.places.names
    ensures !HasTruthyPlaceName(event) && !(event.DictEvent? && event.places.PlacesList?) ==>
              places == []
  {
    match event
    case NonDictEvent => []
    case DictEvent(placeName, placesEntry) =>
      if placeName.PlaceName? && placeName.name != "" then [placeName.name]
      else if placesEntry.PlacesList? then placesEntry.names
      else []
  }

  /** A truthy `place_name` takes precedence over whatever `places` holds. */
  lemma PlaceNameTakesPrecedence(name: string, p1: PlacesEntry, p2: PlacesEntry)
    requires name != ""
    ensures GetPlacesFromEvent(DictEvent(PlaceName(name), p1)) == [name]
    ensures GetPlacesFromEvent(DictEvent(PlaceName(name), p1))
         == GetPlacesFromEvent(DictEvent(PlaceName(name), p2))
  {
  }

  /** Every place returned is named in the event. */
  lemma PlacesComeFromEvent(event: Event, p: string)
    requires p in GetPlacesFromEvent(event)
    ensures event.DictEvent?
    ensures (event.placeName.PlaceName? && event.placeName.name == p)
         || (event.places.PlacesList? && p in event.places.names)
  {
  }

  /** The registry of external place identifiers. */
  const PlaceIds: map<string, string> := map["Craig" := "AK91", "Kasaan" := "AK182"]

  function GetPlaceId(placeName: string): (id: Option<string>)
    ensures id == Some("AK91") <==> placeName == "Craig"
    ensures id == Some("AK182") <==> placeName == "Kasaan"
    ensures id == None <==> placeName != "Craig" && placeName != "Kasaan"
  {
    if placeName in PlaceIds then Some(PlaceIds[placeName]) else None
  }
}

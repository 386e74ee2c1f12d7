/** The area directory: for each city, the ordered list of its known areas. */
module AreaDirectory {
  import opened Wrappers

  /** One `AreaData` record: a city and its areas, in directory order. */
  datatype AreaEntry = AreaEntry(city: string, areas: seq<string>)

  /** The directory as loaded at startup; it never changes afterwards. */
  type Directory = seq<AreaEntry>

  /** Entry `i` is the first one whose city is `city`. */
  predicate IsFirstEntryFor(directory: Directory, city: string, i: nat) {
    i < |directory| && directory[i].city == city && forall j :: 0 <= j < i ==> directory[j].city != city
  }

  /** `areasData.find(item => item.city === city)`, as the index of the first entry for `city`. */
  function FindCity(directory: Directory, city: string): (r: Option<nat>)
    ensures r.Some? ==> IsFirstEntryFor(directory, city, r.value)
    ensures r.None? ==> forall j :: 0 <= j < |directory| ==> directory[j].city != city
  {
    if directory == [] then None
    else if directory[0].city == city then Some(0)
    else match FindCity(directory[1..], city)
      case None => None
      case Some(i) => Some(i + 1)
  }

  /** `selectedCityAreas`: the areas of the first entry for `city`, or nothing when no entry has that city. */
  function SelectedCityAreas(directory: Directory, city: string): (r: seq<string>)
    ensures forall i: nat :: IsFirstEntryFor(directory, city, i) ==> r == directory[i].areas
    ensures (forall i :: 0 <= i < |directory| ==> directory[i].city != city) ==> r == []
  {
    match FindCity(directory, city)
    case Some(i) => directory[i].areas
    case None => []
  }
}

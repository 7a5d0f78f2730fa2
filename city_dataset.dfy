/** The dataset side that both US-city importers share: the `download_json` file cache,
    the search for the US country record and the map of US states keyed by state id. */
module CityDataset {

  import opened Wrappers

  datatype Country = Country(id: int, name: string, iso2: string)

  datatype State = State(id: int, name: string, stateCode: string, countryId: int)

  /** A record of `cities.json` as the importers read it: `state_id` may be missing, and
      the coordinates are the raw JSON values that `float()` is applied to. */
  datatype RawCity = RawCity(name: string, stateId: Option<int>, latitude: string, longitude: string)

  /** Whether a city's `state_id` is a key of `us_states`; a missing id never is. */
  predicate InUsStates(c: RawCity, usStates: map<int, StateInfo>) {
    c.stateId.Some? && c.stateId.value in usStates
  }

  /** The number of cities of a US state among `cities`. */
  function CountKept(cities: seq<RawCity>, usStates: map<int, StateInfo>): nat {
    if cities == [] then 0
    else CountKept(cities[..|cities| - 1], usStates)
         + if InUsStates(cities[|cities| - 1], usStates) then 1 else 0
  }

  /** The `{"name": ..., "state_code": ...}` record kept per US state. */
  datatype StateInfo = StateInfo(name: string, stateCode: string)

  /** The local JSON files `download_json` reads and writes, and the number of downloads
      it has made. A document written with `json.dump` is taken to read back unchanged. */
  class DownloadCache<T> {
    var files: map<string, T>
    var downloads: nat

    constructor (existing: map<string, T>)
      ensures files == existing && downloads == 0
    {
      files := existing;
      downloads := 0;
    }

    /** `download_json(url, filename)`: an existing file is read back and the network is not
        used; otherwise the document `fetch` returns for the URL is saved under the file name
        and returned. Either way the file then holds the returned document. */
    method DownloadJson(url: string, filename: string, fetch: string -> T) returns (data: T)
      modifies this
      ensures filename in old(files) ==>
                data == old(files)[filename] && files == old(files) && downloads == old(downloads)
      ensures filename !in old(files) ==>
                data == fetch(url) && files == old(files)[filename := data]
                && downloads == old(downloads) + 1
      ensures filename in files && files[filename] == data
    {
      if filename in files {
        data := files[filename];
        return;
      }
      data := fetch(url);
      downloads := downloads + 1;
      files := files[filename := data];
    }
  }

  predicate NoUsBefore(countries: seq<Country>, i: int)
    requires i <= |countries|
  {
    forall j :: 0 <= j < i ==> countries[j].iso2 != "US"
  }

  /** Position i holds the first country whose iso2 is "US". */
  predicate FirstUsAt(countries: seq<Country>, i: int) {
    0 <= i < |countries| && countries[i].iso2 == "US" && NoUsBefore(countries, i)
  }

  /** The loop that looks for the US record: the first country whose iso2 is "US",
      or nothing when there is none (the importer then exits with status 1). */
  method FindUsCountry(countries: seq<Country>) returns (us: Option<Country>)
    ensures us.None? <==> NoUsBefore(countries, |countries|)
    ensures us.Some? ==> exists i :: FirstUsAt(countries, i) && countries[i] == us.value
  {
    us := None;
    var k := 0;
    while k < |countries|
      invariant 0 <= k <= |countries|
      invariant NoUsBefore(countries, k)
    {
      if countries[k].iso2 == "US" {
        us := Some(countries[k]);
        return;
      }
      k := k + 1;
    }
  }

  /** The `us_states` dictionary after the first `i` states have been seen: an entry per
      state of the US, a later state with the same id overwriting an earlier one. */
  function UsStates(states: seq<State>, usId: int): map<int, StateInfo>
  {
    if states == [] then map[]
    else
      var s := states[|states| - 1];
      var m := UsStates(states[..|states| - 1], usId);
      if s.countryId == usId then m[s.id := StateInfo(s.name, s.stateCode)] else m
  }

  /** The loop that fills `us_states`. */
  method FilterUsStates(states: seq<State>, usId: int) returns (usStates: map<int, StateInfo>)
    ensures usStates == UsStates(states, usId)
  {
    usStates := map[];
    for i := 0 to |states|
      invariant usStates == UsStates(states[..i], usId)
    {
      assert states[..i + 1][..i] == states[..i];
      var s := states[i];
      if s.countryId == usId {
        usStates := usStates[s.id := StateInfo(s.name, s.stateCode)];
      }
    }
    assert states[..|states|] == states;
  }

  predicate IsUsState(states: seq<State>, usId: int, i: int, id: int)
    requires 0 <= i < |states|
  {
    states[i].id == id && states[i].countryId == usId
  }

  /** An id is in `us_states` iff some state with that id belongs to the US, and its entry
      is the name and code of the last such state. */
  lemma {:induction false} UsStatesLookup(states: seq<State>, usId: int, id: int)
    ensures id in UsStates(states, usId) <==>
              exists i :: 0 <= i < |states| && IsUsState(states, usId, i, id)
    ensures id in UsStates(states, usId) ==>
              exists i :: 0 <= i < |states| && IsUsState(states, usId, i, id)
                          && UsStates(states, usId)[id] == StateInfo(states[i].name, states[i].stateCode)
                          && forall j :: i < j < |states| ==> !IsUsState(states, usId, j, id)
  {
    if states != [] {
      var n := |states| - 1;
      var prefix := states[..n];
      UsStatesLookup(prefix, usId, id);
      forall i | 0 <= i < n
        ensures IsUsState(prefix, usId, i, id) == IsUsState(states, usId, i, id)
      {
      }
      if IsUsState(states, usId, n, id) {
        assert UsStates(states, usId)[id] == StateInfo(states[n].name, states[n].stateCode);
      } else if id in UsStates(prefix, usId) {
        var i :| 0 <= i < n && IsUsState(prefix, usId, i, id)
                 && UsStates(prefix, usId)[id] == StateInfo(prefix[i].name, prefix[i].stateCode)
                 && forall j :: i < j < n ==> !IsUsState(prefix, usId, j, id);
        assert IsUsState(states, usId, i, id);
      }
    }
  }
}

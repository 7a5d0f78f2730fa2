/** The simple US-city importer: the zone of a city is its state's entry in the fallback
    table (or the default) and the coordinates play no part in it; a coordinate that
    `float()` rejects raises and ends the run before anything is inserted. */
module ImportUsCities {

  import opened Wrappers
  import opened CityTimezones
  import opened CityDataset
  import opened CityLoader

  /** The tuple appended for a city of a US state whose coordinates parsed. */
  function SimpleRow(c: RawCity, state: StateInfo, countryName: string, lat: real, lng: real): (r: CityRow)
    ensures r.cityName == c.name && r.stateCode == state.stateCode && r.stateName == state.name
    ensures r.countryCode == "US" && r.countryName == countryName
    ensures r.latitude == lat && r.longitude == lng
    ensures r.timezone == StateTimezone(state.stateCode) && r.timezone in ValidTimezones
  {
    CityRow(c.name, state.stateCode, state.name, "US", countryName, lat, lng, StateTimezone(state.stateCode))
  }

  /** Rows already appended, in front of what the rest of the loop produces. */
  function Prepend(rows: seq<CityRow>, rest: Result<seq<CityRow>, RawCity>): Result<seq<CityRow>, RawCity> {
    match rest
    case Ok(more) => Ok(rows + more)
    case Err(c) => Err(c)
  }

  lemma PrependAssoc(a: seq<CityRow>, b: seq<CityRow>, r: Result<seq<CityRow>, RawCity>)
    ensures Prepend(a, Prepend(b, r)) == Prepend(a + b, r)
    ensures Prepend([], r) == r
  {
    if r.Ok? {
      assert a + (b + r.value) == (a + b) + r.value;
      assert [] + r.value == r.value;
    }
  }

  /** What the city loop produces from `cities`: the rows of the cities of US states in
      order, or the first such city whose latitude or longitude does not parse. */
  function SimpleRows(cities: seq<RawCity>, usStates: map<int, StateInfo>, countryName: string,
                      parse: string -> Option<real>): Result<seq<CityRow>, RawCity>
  {
    if cities == [] then Ok([])
    else
      var c := cities[0];
      if !InUsStates(c, usStates) then SimpleRows(cities[1..], usStates, countryName, parse)
      else if parse(c.latitude).None? || parse(c.longitude).None? then Err(c)
      else
        var row := SimpleRow(c, usStates[c.stateId.value], countryName,
                             parse(c.latitude).value, parse(c.longitude).value);
        Prepend([row], SimpleRows(cities[1..], usStates, countryName, parse))
  }

  predicate CoordinatesParse(c: RawCity, parse: string -> Option<real>) {
    parse(c.latitude).Some? && parse(c.longitude).Some?
  }

  /** The loop fails exactly when some city of a US state has a coordinate that does not
      parse, and then it names such a city; when it succeeds there is one row per city of
      a US state, each with country code "US" and the state table's zone. */
  lemma {:induction false} SimpleRowsFacts(cities: seq<RawCity>, usStates: map<int, StateInfo>,
                                           countryName: string, parse: string -> Option<real>)
    ensures SimpleRows(cities, usStates, countryName, parse).Err? <==>
              exists i :: 0 <= i < |cities| && InUsStates(cities[i], usStates)
                          && !CoordinatesParse(cities[i], parse)
    ensures SimpleRows(cities, usStates, countryName, parse).Err? ==>
              var c := SimpleRows(cities, usStates, countryName, parse).error;
              c in cities && InUsStates(c, usStates) && !CoordinatesParse(c, parse)
    ensures SimpleRows(cities, usStates, countryName, parse).Ok? ==>
              var rows := SimpleRows(cities, usStates, countryName, parse).value;
              |rows| == CountKept(cities, usStates)
              && forall j :: 0 <= j < |rows| ==>
                   rows[j].countryCode == "US" && rows[j].timezone == StateTimezone(rows[j].stateCode)
  {
    if cities != [] {
      var rest := cities[1..];
      SimpleRowsFacts(rest, usStates, countryName, parse);
      CountKeptFront(cities, usStates);
      forall i | 0 <= i < |rest|
        ensures rest[i] == cities[i + 1]
      {
      }
    }
  }

  /** Counting from the front. */
  lemma {:induction false} CountKeptFront(cities: seq<RawCity>, usStates: map<int, StateInfo>)
    requires cities != []
    ensures CountKept(cities, usStates)
            == (if InUsStates(cities[0], usStates) then 1 else 0) + CountKept(cities[1..], usStates)
    decreases |cities|
  {
    if |cities| > 1 {
      var pre := cities[..|cities| - 1];
      CountKeptFront(pre, usStates);
      assert pre[1..] == cities[1..][..|cities[1..]| - 1];
      assert pre[0] == cities[0];
    } else {
      assert cities[1..] == [] && cities[..0] == [];
    }
  }

  /** The city loop of `main`: a failed `float()` aborts it. */
  method ProcessCities(cities: seq<RawCity>, usStates: map<int, StateInfo>, countryName: string,
                       parse: string -> Option<real>)
    returns (result: Result<seq<CityRow>, RawCity>)
    ensures result == SimpleRows(cities, usStates, countryName, parse)
  {
    var usCities: seq<CityRow> := [];
    PrependAssoc([], [], SimpleRows(cities, usStates, countryName, parse));
    assert cities[0..] == cities;
    for i := 0 to |cities|
      invariant SimpleRows(cities, usStates, countryName, parse)
                == Prepend(usCities, SimpleRows(cities[i..], usStates, countryName, parse))
    {
      var city := cities[i];
      assert cities[i..][0] == city && cities[i..][1..] == cities[i + 1..];
      if city.stateId.Some? && city.stateId.value in usStates {
        var state := usStates[city.stateId.value];
        var lat := parse(city.latitude);
        var lng := parse(city.longitude);
        if lat.None? || lng.None? {
          return Err(city);
        }
        var rest := SimpleRows(cities[i + 1..], usStates, countryName, parse);
        PrependAssoc(usCities, [SimpleRow(city, state, countryName, lat.value, lng.value)], rest);
        usCities := usCities + [SimpleRow(city, state, countryName, lat.value, lng.value)];
      }
    }
    assert cities[|cities|..] == [];
    assert usCities + [] == usCities;
    result := Ok(usCities);
  }

  /** How a run ends: exit status 1 without a US record, the ValueError of a coordinate,
      `connect_to_db`'s exit status 1, the exception of the batch whose `execute` raised,
      or a completed load. */
  datatype Outcome = NoUsCountry | CoordinateError(city: RawCity) | ConnectFailed
                   | InsertFailed(batch: nat) | Loaded

  /** `main` after the downloads. The US record used is the first one the loop meets. Only a
      completed city loop and a connection reach the inserts; a batch whose `execute` raises
      ends the run with the batches before it committed. */
  method RunImport(table: CitiesTable, countries: seq<Country>, states: seq<State>,
                   cities: seq<RawCity>, parse: string -> Option<real>,
                   connected: bool, executeFails: nat -> bool)
    returns (outcome: Outcome)
    modifies table
    ensures outcome == NoUsCountry <==> NoUsBefore(countries, |countries|)
    ensures outcome.NoUsCountry? || outcome.CoordinateError? || outcome.ConnectFailed?
            ==> table.rows == old(table.rows)
    ensures !outcome.NoUsCountry? ==>
              exists i :: FirstUsAt(countries, i) &&
                var r := SimpleRows(cities, UsStates(states, countries[i].id), countries[i].name, parse);
                (outcome.CoordinateError? <==> r.Err?)
                && (outcome.CoordinateError? ==> r == Err(outcome.city))
                && (outcome.ConnectFailed? <==> r.Ok? && !connected)
                && (outcome.Loaded? ==>
                      (forall k :: 0 <= k < |Batches(r.value, BatchSize)| ==> !executeFails(k))
                      && table.rows == InsertAll(old(table.rows), r.value))
                && (outcome.InsertFailed? ==>
                      outcome.batch < |Batches(r.value, BatchSize)| && executeFails(outcome.batch)
                      && (forall k :: 0 <= k < outcome.batch ==> !executeFails(k))
                      && outcome.batch * BatchSize < |r.value|
                      && table.rows == InsertAll(old(table.rows), r.value[..outcome.batch * BatchSize]))
  {
    var us := FindUsCountry(countries);
    if us.None? {
      return NoUsCountry;
    }
    ghost var at :| FirstUsAt(countries, at) && countries[at] == us.value;
    var usStates := FilterUsStates(states, us.value.id);
    var processed := ProcessCities(cities, usStates, us.value.name, parse);
    if processed.Err? {
      return CoordinateError(processed.error);
    }
    if !connected {
      return ConnectFailed;
    }
    var issued, failedAt := LoadInBatches(table, processed.value, executeFails);
    if failedAt.Some? {
      outcome := InsertFailed(failedAt.value);
    } else {
      outcome := Loaded;
    }
  }
}

/** The advanced US-city importer: each city of a US state gets its zone from the
    coordinate finder, falling back to the state table and then to the default, is
    coerced onto the accepted zones, and is counted under the rule that answered. */
module ImportUsCitiesAdvanced {

  import opened Wrappers
  import opened CityTimezones
  import opened CityDataset
  import opened CityLoader

  /** What the city loop consults besides the city itself: the US state map, the US
      country name, `float()` on a raw coordinate and the coordinate finder. */
  datatype Lookups = Lookups(
    usStates: map<int, StateInfo>,
    countryName: string,
    parse: string -> Option<real>,
    finder: (real, real) -> FinderAnswer)

  /** The coordinates used for a city: both parsed, or (0.0, 0.0) as soon as either
      fails to parse; the city itself is kept either way. */
  function Coordinates(c: RawCity, parse: string -> Option<real>): (p: (real, real))
    ensures parse(c.latitude).Some? && parse(c.longitude).Some? ==>
              p == (parse(c.latitude).value, parse(c.longitude).value)
    ensures parse(c.latitude).None? || parse(c.longitude).None? ==> p == (0.0, 0.0)
  {
    match (parse(c.latitude), parse(c.longitude))
    case (Some(lat), Some(lng)) => (lat, lng)
    case _ => (0.0, 0.0)
  }

  /** The zone obtained for a city before validation. */
  function RawZone(c: RawCity, state: StateInfo, lk: Lookups): string {
    var (lat, lng) := Coordinates(c, lk.parse);
    GetTimezone(lk.finder(lat, lng), state.stateCode)
  }

  /** The tuple appended for a city of a US state. */
  function AdvancedRow(c: RawCity, state: StateInfo, lk: Lookups): (r: CityRow)
    ensures r.cityName == c.name && r.stateCode == state.stateCode && r.stateName == state.name
    ensures r.countryCode == "US" && r.countryName == lk.countryName
    ensures (r.latitude, r.longitude) == Coordinates(c, lk.parse)
    ensures r.timezone in ValidTimezones
    ensures r.timezone == ValidateTimezone(RawZone(c, state, lk))
  {
    var (lat, lng) := Coordinates(c, lk.parse);
    CityRow(c.name, state.stateCode, state.name, "US", lk.countryName, lat, lng,
            ValidateTimezone(RawZone(c, state, lk)))
  }

  /** `us_cities` after the loop has seen `cities`: one row per city of a US state, in order. */
  function KeptRows(cities: seq<RawCity>, lk: Lookups): seq<CityRow> {
    if cities == [] then []
    else
      var c := cities[|cities| - 1];
      KeptRows(cities[..|cities| - 1], lk)
      + if InUsStates(c, lk.usStates) then [AdvancedRow(c, lk.usStates[c.stateId.value], lk)] else []
  }

  /** `stats` after the loop has seen `cities`. */
  function StatsAfter(cities: seq<RawCity>, lk: Lookups): Stats {
    if cities == [] then InitialStats
    else
      var c := cities[|cities| - 1];
      var s := StatsAfter(cities[..|cities| - 1], lk);
      if InUsStates(c, lk.usStates) then
        var state := lk.usStates[c.stateId.value];
        s.Count(Classify(RawZone(c, state, lk), state.stateCode))
      else s
  }

  /** A city contributes a row exactly when its state is a US state. */
  lemma {:induction false} KeptRowsCount(cities: seq<RawCity>, lk: Lookups)
    ensures |KeptRows(cities, lk)| == CountKept(cities, lk.usStates)
  {
    if cities != [] {
      KeptRowsCount(cities[..|cities| - 1], lk);
    }
  }

  /** Every processed city is counted once in the total and once under exactly one rule,
      so the three rule counters add up to the total. */
  lemma {:induction false} StatsBalanced(cities: seq<RawCity>, lk: Lookups)
    ensures StatsAfter(cities, lk).totalProcessed == CountKept(cities, lk.usStates)
    ensures StatsAfter(cities, lk).Balanced()
  {
    if cities != [] {
      StatsBalanced(cities[..|cities| - 1], lk);
    }
  }

  /** Each kept row carries country code "US" and an accepted zone. */
  lemma {:induction false} KeptRowsAccepted(cities: seq<RawCity>, lk: Lookups)
    ensures forall i :: 0 <= i < |KeptRows(cities, lk)| ==>
              KeptRows(cities, lk)[i].countryCode == "US"
              && KeptRows(cities, lk)[i].timezone in ValidTimezones
  {
    if cities != [] {
      var pre := cities[..|cities| - 1];
      var c := cities[|cities| - 1];
      KeptRowsAccepted(pre, lk);
      var tail := if InUsStates(c, lk.usStates) then [AdvancedRow(c, lk.usStates[c.stateId.value], lk)] else [];
      assert KeptRows(cities, lk) == KeptRows(pre, lk) + tail;
    }
  }

  /** The city loop of `main`: appends a tuple per US city and keeps the counters. */
  method ProcessCities(cities: seq<RawCity>, lk: Lookups) returns (usCities: seq<CityRow>, stats: Stats)
    ensures usCities == KeptRows(cities, lk)
    ensures stats == StatsAfter(cities, lk)
    ensures stats.Balanced() && stats.totalProcessed == |usCities|
  {
    usCities := [];
    stats := InitialStats;
    for i := 0 to |cities|
      invariant usCities == KeptRows(cities[..i], lk)
      invariant stats == StatsAfter(cities[..i], lk)
    {
      assert cities[..i + 1][..i] == cities[..i];
      var city := cities[i];
      if city.stateId.Some? && city.stateId.value in lk.usStates {
        var state := lk.usStates[city.stateId.value];
        var coords := Coordinates(city, lk.parse);
        var timezone := GetTimezone(lk.finder(coords.0, coords.1), state.stateCode);
        stats := stats.Count(Classify(timezone, state.stateCode));
        timezone := ValidateTimezone(timezone);
        usCities := usCities + [CityRow(city.name, state.stateCode, state.name, "US",
                                        lk.countryName, coords.0, coords.1, timezone)];
      }
    }
    assert cities[..|cities|] == cities;
    KeptRowsCount(cities, lk);
    StatsBalanced(cities, lk);
  }

  /** How a run ends: exit status 1 without a US record or when `connect_to_db` fails, the
      exception of the batch whose `execute` raised, or a completed load. */
  datatype Outcome = NoUsCountry | ConnectFailed | InsertFailed(batch: nat) | Loaded

  /** `main` after the downloads: no US record means exit status 1 and an untouched table;
      otherwise the US states of the first US record are collected and the cities processed;
      after a connection the rows go out in 1000-row batches, up to the first `execute`
      that raises. */
  method RunImport(table: CitiesTable, countries: seq<Country>, states: seq<State>,
                   cities: seq<RawCity>, parse: string -> Option<real>,
                   finder: (real, real) -> FinderAnswer, connected: bool, executeFails: nat -> bool)
    returns (outcome: Outcome, stats: Stats)
    modifies table
    ensures outcome == NoUsCountry <==> NoUsBefore(countries, |countries|)
    ensures outcome.NoUsCountry? || outcome.ConnectFailed? ==> table.rows == old(table.rows)
    ensures outcome.ConnectFailed? <==> !NoUsBefore(countries, |countries|) && !connected
    ensures !outcome.NoUsCountry? ==>
              exists i :: FirstUsAt(countries, i) &&
                var lk := Lookups(UsStates(states, countries[i].id), countries[i].name, parse, finder);
                var rows := KeptRows(cities, lk);
                stats == StatsAfter(cities, lk)
                && (outcome.Loaded? ==>
                      (forall k :: 0 <= k < |Batches(rows, BatchSize)| ==> !executeFails(k))
                      && table.rows == InsertAll(old(table.rows), rows))
                && (outcome.InsertFailed? ==>
                      outcome.batch < |Batches(rows, BatchSize)| && executeFails(outcome.batch)
                      && (forall k :: 0 <= k < outcome.batch ==> !executeFails(k))
                      && outcome.batch * BatchSize < |rows|
                      && table.rows == InsertAll(old(table.rows), rows[..outcome.batch * BatchSize]))
  {
    stats := InitialStats;
    var us := FindUsCountry(countries);
    if us.None? {
      return NoUsCountry, stats;
    }
    ghost var at :| FirstUsAt(countries, at) && countries[at] == us.value;
    var usStates := FilterUsStates(states, us.value.id);
    var lk := Lookups(usStates, us.value.name, parse, finder);
    assert lk == Lookups(UsStates(states, countries[at].id), countries[at].name, parse, finder);
    var usCities;
    usCities, stats := ProcessCities(cities, lk);
    if !connected {
      return ConnectFailed, stats;
    }
    var issued, failedAt := LoadInBatches(table, usCities, executeFails);
    if failedAt.Some? {
      outcome := InsertFailed(failedAt.value);
    } else {
      outcome := Loaded;
    }
  }
}

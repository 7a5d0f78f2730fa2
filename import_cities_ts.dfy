/** `db/import_cities.ts`: the Node script that turns the countries/states/cities JSON
    documents into a file of INSERT statements. The downloads are its inputs; the clock
    reading for the header and JavaScript's number printing are parameters. */
module ImportCities {

  import opened Wrappers
  import opened Text
  import opened LocalFiles

  datatype Country = Country(name: string, iso2: string)

  datatype State = State(name: string, countryCode: string, stateCode: string)

  /** A record of cities.json; `state_code` may be absent. */
  datatype City = City(name: string, countryCode: string, stateCode: Option<string>, latitude: real, longitude: real)

  /** A city in the shape of the `Cities` table; `None` is JavaScript's `null`. */
  datatype TransformedCity = TransformedCity(
    cityName: string,
    stateCode: Option<string>,
    stateName: Option<string>,
    countryCode: string,
    countryName: string,
    latitude: real,
    longitude: real,
    timezone: string)

  // ---------------------------------------------------------------------------
  // getTimezoneFromCoordinates

  /** The four zones from west to east. */
  const Zones: seq<string> := ["America/Los_Angeles", "America/Denver", "America/Chicago", "America/New_York"]

  /** `getTimezoneFromCoordinates`: cut-offs at longitudes -115, -100 and -87; the latitude
      plays no part. */
  function TimezoneFromCoordinates(latitude: real, longitude: real): string {
    if longitude < -115.0 then "America/Los_Angeles"
    else if longitude < -100.0 then "America/Denver"
    else if longitude < -87.0 then "America/Chicago"
    else "America/New_York"
  }

  /** The position of a zone in `Zones`. */
  function ZoneIndex(longitude: real): (k: nat)
    ensures k < |Zones|
    ensures Zones[k] == TimezoneFromCoordinates(0.0, longitude)
  {
    if longitude < -115.0 then 0
    else if longitude < -100.0 then 1
    else if longitude < -87.0 then 2
    else 3
  }

  /** Moving east never moves to a zone further west, and the latitude never matters. */
  lemma TimezoneMonotone(lat1: real, lng1: real, lat2: real, lng2: real)
    requires lng1 <= lng2
    ensures TimezoneFromCoordinates(lat1, lng1) == Zones[ZoneIndex(lng1)]
    ensures TimezoneFromCoordinates(lat2, lng2) == Zones[ZoneIndex(lng2)]
    ensures ZoneIndex(lng1) <= ZoneIndex(lng2)
  {
  }

  // ---------------------------------------------------------------------------
  // --countries

  /** `options.countries.split(",").map((code) => code.trim().toUpperCase())` */
  function CountryCodes(list: string): seq<string> {
    var parts := SplitOn(list, ",");
    seq(|parts|, i requires 0 <= i < |parts| => ToUpper(Strip(parts[i])))
  }

  predicate NoLowerCase(s: string) {
    forall i :: 0 <= i < |s| ==> !('a' <= s[i] <= 'z')
  }

  /** No lower-case ASCII letter, and no whitespace at either end. */
  predicate Normalised(c: string) {
    NoLowerCase(c) && (c == [] || (!IsSpace(c[0]) && !IsSpace(c[|c| - 1])))
  }

  /** The listed codes: one per comma-separated item, each normalised. */
  lemma CountryCodesNormalised(list: string)
    ensures |CountryCodes(list)| == |SplitOn(list, ",")|
    ensures forall i :: 0 <= i < |CountryCodes(list)| ==> Normalised(CountryCodes(list)[i])
  {
    var parts := SplitOn(list, ",");
    forall i | 0 <= i < |parts|
      ensures Normalised(CountryCodes(list)[i])
    {
      assert CountryCodes(list)[i] == ToUpper(Strip(parts[i]));
      CodeNormalised(parts[i]);
    }
  }

  /** One item trimmed and upper-cased is normalised. */
  lemma CodeNormalised(item: string)
    ensures Normalised(ToUpper(Strip(item)))
  {
    var t := Strip(item);
    var c := ToUpper(t);
    forall i | 0 <= i < |c|
      ensures !('a' <= c[i] <= 'z')
    {
      UpperCharFacts(t[i]);
    }
    if c != [] {
      UpperCharFacts(t[0]);
      UpperCharFacts(t[|t| - 1]);
    }
  }

  /** An upper-cased character is no lower-case letter, and is whitespace only when the
      character was. */
  lemma UpperCharFacts(x: char)
    ensures !('a' <= UpperChar(x) <= 'z') && (IsSpace(UpperChar(x)) ==> IsSpace(x))
  {
  }

  /** `countries.filter((country) => countryCodes.includes(country.iso2))` */
  function KeepListed(countries: seq<Country>, codes: seq<string>): seq<Country> {
    if countries == [] then []
    else (if countries[0].iso2 in codes then [countries[0]] else []) + KeepListed(countries[1..], codes)
  }

  /** A country survives the filter iff its iso2 code is listed, and none is added. */
  lemma {:induction false} KeepListedMembers(countries: seq<Country>, codes: seq<string>)
    ensures forall c :: c in KeepListed(countries, codes) <==> c in countries && c.iso2 in codes
    ensures |KeepListed(countries, codes)| <= |countries|
  {
    if countries != [] {
      KeepListedMembers(countries[1..], codes);
      assert countries == [countries[0]] + countries[1..];
    }
  }

  /** `filteredCountries`: every country when the option is absent or empty, otherwise the
      listed ones in their original order. */
  function SelectCountries(countries: seq<Country>, option: Option<string>): seq<Country> {
    if option.None? || option.value == "" then countries
    else KeepListed(countries, CountryCodes(option.value))
  }

  // ---------------------------------------------------------------------------
  // stateMap

  /** `stateMap` after the first states: keyed by country code, then by state code, a later
      state with the same pair replacing an earlier one. */
  function StateMapOf(states: seq<State>): map<string, map<string, State>> {
    if states == [] then map[]
    else
      var m := StateMapOf(states[..|states| - 1]);
      var s := states[|states| - 1];
      var inner := if s.countryCode in m then m[s.countryCode] else map[];
      m[s.countryCode := inner[s.stateCode := s]]
  }

  /** The loop that fills `stateMap`, creating the inner object on first use. */
  method BuildStateMap(states: seq<State>) returns (stateMap: map<string, map<string, State>>)
    ensures stateMap == StateMapOf(states)
  {
    stateMap := map[];
    for i := 0 to |states|
      invariant stateMap == StateMapOf(states[..i])
    {
      assert states[..i + 1][..i] == states[..i];
      var state := states[i];
      if state.countryCode !in stateMap {
        stateMap := stateMap[state.countryCode := map[]];
      }
      stateMap := stateMap[state.countryCode := stateMap[state.countryCode][state.stateCode := state]];
    }
    assert states[..|states|] == states;
  }

  predicate HasCodes(states: seq<State>, i: int, cc: string, sc: string)
    requires 0 <= i < |states|
  {
    states[i].countryCode == cc && states[i].stateCode == sc
  }

  /** A (country, state) pair is found iff some state has those codes, and the entry is the
      last such state. */
  lemma {:induction false} StateMapLookup(states: seq<State>, cc: string, sc: string)
    ensures (cc in StateMapOf(states) && sc in StateMapOf(states)[cc]) <==>
              exists i :: 0 <= i < |states| && HasCodes(states, i, cc, sc)
    ensures cc in StateMapOf(states) && sc in StateMapOf(states)[cc] ==>
              exists i :: 0 <= i < |states| && HasCodes(states, i, cc, sc)
                          && StateMapOf(states)[cc][sc] == states[i]
                          && forall j :: i < j < |states| ==> !HasCodes(states, j, cc, sc)
  {
    if states != [] {
      var n := |states| - 1;
      var prefix := states[..n];
      StateMapLookup(prefix, cc, sc);
      forall i | 0 <= i < n
        ensures HasCodes(prefix, i, cc, sc) == HasCodes(states, i, cc, sc)
      {
      }
      var m := StateMapOf(prefix);
      if HasCodes(states, n, cc, sc) {
        assert StateMapOf(states)[cc][sc] == states[n];
      } else {
        assert cc in StateMapOf(states) && sc in StateMapOf(states)[cc] <==> cc in m && sc in m[cc];
        if cc in m && sc in m[cc] {
          assert StateMapOf(states)[cc][sc] == m[cc][sc];
          var i :| 0 <= i < n && HasCodes(prefix, i, cc, sc)
                   && m[cc][sc] == prefix[i]
                   && forall j :: i < j < n ==> !HasCodes(prefix, j, cc, sc);
          assert HasCodes(states, i, cc, sc);
        }
      }
    }
  }

  // ---------------------------------------------------------------------------
  // --limit and the transformation

  /** The end index `slice(0, end)` uses on an array of length `len`: a negative end
      counts back from the end of the array. */
  function SliceEnd(len: nat, end: int): (k: nat)
    ensures k <= len
  {
    if end < 0 then (if len + end < 0 then 0 else len + end)
    else if end > len then len else end
  }

  /** `citiesToProcess`: a non-zero limit below the count cuts the list with `slice`; an
      absent, unparsable (`NaN`) or zero limit keeps every city. */
  function Limited<T>(cs: seq<T>, limit: Option<int>): (r: seq<T>)
    ensures |r| <= |cs| && r == cs[..|r|]
  {
    if limit.Some? && limit.value != 0 && |cs| > limit.value then cs[..SliceEnd(|cs|, limit.value)] else cs
  }

  /** A positive limit keeps the first min(limit, count) cities; no limit keeps them all;
      a negative one drops that many from the end. */
  lemma LimitedCases<T>(cs: seq<T>, limit: Option<int>)
    ensures limit.None? || limit.value == 0 ==> Limited(cs, limit) == cs
    ensures limit.Some? && limit.value > 0 ==>
              |Limited(cs, limit)| == if limit.value < |cs| then limit.value else |cs|
    ensures limit.Some? && limit.value < 0 ==>
              |Limited(cs, limit)| == if |cs| + limit.value < 0 then 0 else |cs| + limit.value
  {
  }

  /** `cities.filter((city) => city.country_code === country.iso2)` */
  function CitiesOf(cities: seq<City>, iso2: string): seq<City> {
    if cities == [] then []
    else (if cities[0].countryCode == iso2 then [cities[0]] else []) + CitiesOf(cities[1..], iso2)
  }

  /** The `state_name` of a city: the name in `stateMap` when the city has a non-empty state
      code and its (country, state) pair is known, `null` otherwise. */
  function StateNameOf(c: City, iso2: string, stateMap: map<string, map<string, State>>): Option<string> {
    if c.stateCode.Some? && c.stateCode.value != "" && iso2 in stateMap && c.stateCode.value in stateMap[iso2]
    then Some(stateMap[iso2][c.stateCode.value].name)
    else None
  }

  /** The record pushed for a city of `country`; the country fields come from the country
      being iterated. */
  function Transform(c: City, country: Country, stateMap: map<string, map<string, State>>): TransformedCity {
    TransformedCity(
      c.name,
      if c.stateCode.Some? && c.stateCode.value != "" then c.stateCode else None,
      StateNameOf(c, country.iso2, stateMap),
      country.iso2,
      country.name,
      c.latitude,
      c.longitude,
      TimezoneFromCoordinates(c.latitude, c.longitude))
  }

  function TransformAll(cs: seq<City>, country: Country, stateMap: map<string, map<string, State>>): (r: seq<TransformedCity>)
    ensures |r| == |cs|
  {
    seq(|cs|, i requires 0 <= i < |cs| => Transform(cs[i], country, stateMap))
  }

  /** `transformedCities` after the first countries. */
  function Transformed(countries: seq<Country>, cities: seq<City>, stateMap: map<string, map<string, State>>,
                       limit: Option<int>): seq<TransformedCity>
  {
    if countries == [] then []
    else
      var country := countries[|countries| - 1];
      Transformed(countries[..|countries| - 1], cities, stateMap, limit)
      + TransformAll(Limited(CitiesOf(cities, country.iso2), limit), country, stateMap)
  }

  /** The inner loop of `main`: one record pushed per city to process, in order. */
  method PushCountry(transformed: seq<TransformedCity>, citiesToProcess: seq<City>, country: Country,
                     stateMap: map<string, map<string, State>>) returns (out: seq<TransformedCity>)
    ensures out == transformed + TransformAll(citiesToProcess, country, stateMap)
  {
    out := transformed;
    for j := 0 to |citiesToProcess|
      invariant out == transformed + TransformAll(citiesToProcess[..j], country, stateMap)
    {
      var city := citiesToProcess[j];
      assert TransformAll(citiesToProcess[..j + 1], country, stateMap)
             == TransformAll(citiesToProcess[..j], country, stateMap) + [Transform(city, country, stateMap)];
      out := out + [Transform(city, country, stateMap)];
    }
    assert citiesToProcess[..|citiesToProcess|] == citiesToProcess;
  }

  /** The nested loops of `main`. */
  method TransformCities(countries: seq<Country>, cities: seq<City>, stateMap: map<string, map<string, State>>,
                         limit: Option<int>) returns (transformed: seq<TransformedCity>)
    ensures transformed == Transformed(countries, cities, stateMap, limit)
  {
    transformed := [];
    for i := 0 to |countries|
      invariant transformed == Transformed(countries[..i], cities, stateMap, limit)
    {
      var country := countries[i];
      assert countries[..i + 1][..i] == countries[..i];
      var countryCities := CitiesOf(cities, country.iso2);
      var citiesToProcess := Limited(countryCities, limit);
      transformed := PushCountry(transformed, citiesToProcess, country, stateMap);
    }
    assert countries[..|countries|] == countries;
  }

  /** Every transformed city carries the code and name of one of the selected countries and
      the zone its longitude picks. */
  lemma {:induction false} TransformedFacts(countries: seq<Country>, cities: seq<City>,
                                            stateMap: map<string, map<string, State>>, limit: Option<int>)
    ensures forall t :: t in Transformed(countries, cities, stateMap, limit) ==>
              t.timezone == TimezoneFromCoordinates(t.latitude, t.longitude)
              && exists c :: c in countries && t.countryCode == c.iso2 && t.countryName == c.name
  {
    if countries != [] {
      var init := countries[..|countries| - 1];
      var country := countries[|countries| - 1];
      TransformedFacts(init, cities, stateMap, limit);
      var tail := TransformAll(Limited(CitiesOf(cities, country.iso2), limit), country, stateMap);
      assert Transformed(countries, cities, stateMap, limit) == Transformed(init, cities, stateMap, limit) + tail;
      forall t | t in Transformed(countries, cities, stateMap, limit)
        ensures t.timezone == TimezoneFromCoordinates(t.latitude, t.longitude)
                && exists c :: c in countries && t.countryCode == c.iso2 && t.countryName == c.name
      {
        if t in tail {
          assert t.countryCode == country.iso2 && t.countryName == country.name;
        } else {
          var c :| c in init && t.countryCode == c.iso2 && t.countryName == c.name;
          assert c in countries;
        }
      }
    }
  }

  // ---------------------------------------------------------------------------
  // The SQL text

  /** How a SQL reader takes a quoted literal whose opening quote has been read: a doubled
      quote stands for one quote, a single quote closes the literal; `None` when the text
      ends inside the literal. The result is the literal's value and the text after it. */
  function ReadQuoted(s: string): Option<(string, string)>
    decreases |s|
  {
    if s == [] then None
    else if s[0] == '\'' then
      if |s| >= 2 && s[1] == '\'' then
        match ReadQuoted(s[2..])
        case None => None
        case Some((v, rest)) => Some(("'" + v, rest))
      else Some(("", s[1..]))
    else
      match ReadQuoted(s[1..])
      case None => None
      case Some((v, rest)) => Some(([s[0]] + v, rest))
  }

  /** A read literal with text put in front of its value. */
  function Prefixed(p: string, read: Option<(string, string)>): Option<(string, string)> {
    match read
    case None => None
    case Some((v, rest)) => Some((p + v, rest))
  }

  /** Text written with its quotes doubled is read back as itself, followed by whatever
      the text after it reads as. */
  lemma {:induction false} ReadEscaped(x: string, after: string)
    ensures ReadQuoted(EscapeQuotes(x) + after) == Prefixed(x, ReadQuoted(after))
  {
    if x == [] {
      assert EscapeQuotes(x) + after == after;
      PrefixedEmpty(ReadQuoted(after));
    } else {
      ReadEscaped(x[1..], after);
      var inner := EscapeQuotes(x[1..]) + after;
      if x[0] == '\'' {
        assert EscapeQuotes(x) + after == "''" + inner;
        ReadQuoteStep(inner);
      } else {
        assert EscapeQuotes(x) + after == [x[0]] + inner;
        ReadCharStep(x[0], inner);
      }
      PrefixedTwice([x[0]], x[1..], ReadQuoted(after));
      assert [x[0]] + x[1..] == x;
    }
  }

  /** A doubled quote reads as one quote of the value. */
  lemma ReadQuoteStep(inner: string)
    ensures ReadQuoted("''" + inner) == Prefixed("'", ReadQuoted(inner))
  {
    var s := "''" + inner;
    assert s[0] == '\'' && s[1] == '\'' && s[2..] == inner;
  }

  /** Any other character is part of the value. */
  lemma ReadCharStep(c: char, inner: string)
    requires c != '\''
    ensures ReadQuoted([c] + inner) == Prefixed([c], ReadQuoted(inner))
  {
    var s := [c] + inner;
    assert s[0] == c && s[1..] == inner;
  }

  lemma PrefixedEmpty(read: Option<(string, string)>)
    ensures Prefixed("", read) == read
  {
    if read.Some? {
      assert "" + read.value.0 == read.value.0;
    }
  }

  lemma PrefixedTwice(p: string, q: string, read: Option<(string, string)>)
    ensures Prefixed(p, Prefixed(q, read)) == Prefixed(p + q, read)
  {
    if read.Some? {
      assert p + (q + read.value.0) == p + q + read.value.0;
    }
  }

  /** A quoted literal written as `'` + doubled text + `'` reads back as exactly the text,
      provided what follows does not start with a quote. */
  lemma QuotedRoundTrip(x: string, after: string)
    requires after == [] || after[0] != '\''
    ensures ReadQuoted(EscapeQuotes(x) + "'" + after) == Some((x, after))
  {
    ReadEscaped(x, "'" + after);
    assert ("'" + after)[1..] == after;
    assert x + "" == x;
    assert EscapeQuotes(x) + "'" + after == EscapeQuotes(x) + ("'" + after);
  }

  /** The same literal closed with two quotes, as line 243 writes the city name: the pair
      reads as a quote inside the literal, so the value read is never the city name. */
  lemma DoubleClosedLiteral(x: string, after: string)
    ensures match ReadQuoted(EscapeQuotes(x) + "''" + after)
            case None => true
            case Some((v, _)) => v != x && |v| > |x|
  {
    ReadEscaped(x, "''" + after);
    assert ("''" + after)[2..] == after;
    assert EscapeQuotes(x) + "''" + after == EscapeQuotes(x) + ("''" + after);
  }

  const Sep := ",\n        "

  const StatementHead := "INSERT INTO Cities (\n        city_name,\n        state_code,\n        state_name,\n        country_code,\n        country_name,\n        latitude,\n        longitude,\n        timezone\n      ) VALUES (\n        '"

  /** JavaScript truthiness of an optional string: present and non-empty. */
  predicate Truthy(v: Option<string>) {
    v.Some? && v.value != ""
  }

  /** Everything after the city-name literal; `show` is JavaScript's printing of a number. */
  function StatementTail(t: TransformedCity, show: real -> string): string {
    Sep + ColumnsAfterName(t, show)
  }

  function ColumnsAfterName(t: TransformedCity, show: real -> string): string {
    (if Truthy(t.stateCode) then "'" + t.stateCode.value + "'" else "NULL")
    + Sep + (if Truthy(t.stateName) then "'" + EscapeQuotes(t.stateName.value) + "'" else "NULL")
    + Sep + "'" + t.countryCode + "'"
    + Sep + "'" + EscapeQuotes(t.countryName) + "'"
    + Sep + show(t.latitude)
    + Sep + show(t.longitude)
    + Sep + "'" + t.timezone + "'\n      );"
  }

  /** The statement as line 243 writes it: the city-name literal is closed by `''`. */
  function StatementAsWritten(t: TransformedCity, show: real -> string): string {
    StatementHead + EscapeQuotes(t.cityName) + "''" + StatementTail(t, show)
  }

  /** The statement with the city-name literal closed by a single quote. */
  function Statement(t: TransformedCity, show: real -> string): string {
    StatementHead + EscapeQuotes(t.cityName) + "'" + StatementTail(t, show)
  }

  lemma StatementTailStart(t: TransformedCity, show: real -> string)
    ensures |StatementTail(t, show)| > 0 && StatementTail(t, show)[0] == ','
  {
    assert StatementTail(t, show)[0] == Sep[0];
  }

  /** In the statement as written, the city-name column never reads back as the city name. */
  lemma CityNameColumnAsWritten(t: TransformedCity, show: real -> string)
    ensures NameMisread(StatementAsWritten(t, show), t.cityName)
  {
    var x := EscapeQuotes(t.cityName);
    var tail := StatementTail(t, show);
    AfterHead(StatementHead, x, "''", tail);
    DoubleClosedLiteral(t.cityName, tail);
  }

  /** In the corrected statement the city-name column reads back as the city name, and the
      rest of the statement follows it. */
  lemma CityNameColumn(t: TransformedCity, show: real -> string)
    ensures var s := Statement(t, show);
            |StatementHead| <= |s|
            && ReadQuoted(s[|StatementHead|..]) == Some((t.cityName, StatementTail(t, show)))
  {
    var x := EscapeQuotes(t.cityName);
    var tail := StatementTail(t, show);
    AfterHead(StatementHead, x, "'", tail);
    StatementTailStart(t, show);
    QuotedRoundTrip(t.cityName, tail);
  }

  lemma AfterHead(head: string, x: string, close: string, tail: string)
    ensures (head + x + close + tail)[|head|..] == x + close + tail
  {
  }

  /** The SQL file: three comment lines, a blank line, the statements one per line. */
  function SqlContent(now: string, statements: seq<string>): string {
    "-- Generated Cities Import SQL\n-- Generated on: " + now + "\n-- Total Cities: "
    + NatToString(|statements|) + "\n\n" + Join(statements, "\n") + "\n"
  }

  /** The city name does not read back from the first literal of a statement. */
  predicate NameMisread(s: string, name: string) {
    |StatementHead| <= |s|
    && match ReadQuoted(s[|StatementHead|..])
       case None => true
       case Some((v, _)) => v != name
  }

  /** `transformedCities.map(...)` with the template of line 243: one statement per city,
      each starting with the column list, and in none of them does the city name read back
      from its literal. */
  function Statements(ts: seq<TransformedCity>, show: real -> string): (r: seq<string>)
    ensures |r| == |ts|
    ensures forall i :: 0 <= i < |ts| ==> StartsWith(r[i], StatementHead) && NameMisread(r[i], ts[i].cityName)
  {
    if ts == [] then []
    else
      CityNameColumnAsWritten(ts[0], show);
      StatementStart(ts[0], show);
      [StatementAsWritten(ts[0], show)] + Statements(ts[1..], show)
  }

  lemma StatementStart(t: TransformedCity, show: real -> string)
    ensures StartsWith(StatementAsWritten(t, show), StatementHead)
  {
    HeadStarts(StatementHead, EscapeQuotes(t.cityName), "''", StatementTail(t, show));
  }

  lemma HeadStarts(head: string, x: string, close: string, tail: string)
    ensures StartsWith(head + x + close + tail, head)
  {
    assert (head + x + close + tail)[..|head|] == head;
  }

  /** The three JSON documents, or the error that downloading or parsing one of them raised. */
  type Downloads = Result<(seq<Country>, seq<State>, seq<City>), string>

  /** `main`: a failed download exits with status 1 and writes nothing; otherwise the file
      holds one statement per transformed city of the selected countries, written with the
      template of line 243, whose city-name literal is closed by `''`. */
  method RunImportCities(fs: FileSystem, outputPath: string, downloads: Downloads,
                         countriesOption: Option<string>, limit: Option<int>,
                         now: string, show: real -> string)
    returns (exitCode: int)
    modifies fs
    ensures downloads.Err? ==> exitCode == 1 && fs.files == old(fs.files)
    ensures downloads.Ok? ==>
              var (countries, states, cities) := downloads.value;
              var ts := Transformed(SelectCountries(countries, countriesOption), cities,
                                    StateMapOf(states), limit);
              exitCode == 0
              && fs.files == old(fs.files)[outputPath := SqlContent(now, Statements(ts, show))]
  {
    if downloads.Err? {
      return 1;
    }
    var (countries, states, cities) := downloads.value;
    var filteredCountries := SelectCountries(countries, countriesOption);
    var stateMap := BuildStateMap(states);
    var transformedCities := TransformCities(filteredCountries, cities, stateMap, limit);
    var insertStatements := Statements(transformedCities, show);
    fs.WriteFile(outputPath, SqlContent(now, insertStatements));
    exitCode := 0;
  }
}

/** The timezone rules both US-city importers share: the state-code fallback table,
    the allow-list of zones the database accepts, the finder-then-state-then-default
    lookup, and the counters the advanced importer keeps about which rule answered. */
module CityTimezones {

  import opened Wrappers

  const DefaultTimezone := "America/New_York"

  /** `STATE_TIMEZONE_MAP`: the fallback zone per two-letter state code (50 states and DC);
      `None` for a code the table does not list. */
  function StateTimezoneMap(code: string): Option<string> {
    match code
    case "AL" => Some("America/Chicago")
    case "AK" => Some("America/Anchorage")
    case "AZ" => Some("America/Phoenix")
    case "AR" => Some("America/Chicago")
    case "CA" => Some("America/Los_Angeles")
    case "CO" => Some("America/Denver")
    case "CT" => Some("America/New_York")
    case "DE" => Some("America/New_York")
    case "FL" => Some("America/New_York")
    case "GA" => Some("America/New_York")
    case "HI" => Some("Pacific/Honolulu")
    case "ID" => Some("America/Denver")
    case "IL" => Some("America/Chicago")
    case "IN" => Some("America/Indiana/Indianapolis")
    case "IA" => Some("America/Chicago")
    case "KS" => Some("America/Chicago")
    case "KY" => Some("America/Kentucky/Louisville")
    case "LA" => Some("America/Chicago")
    case "ME" => Some("America/New_York")
    case "MD" => Some("America/New_York")
    case "MA" => Some("America/New_York")
    case "MI" => Some("America/Detroit")
    case "MN" => Some("America/Chicago")
    case "MS" => Some("America/Chicago")
    case "MO" => Some("America/Chicago")
    case "MT" => Some("America/Denver")
    case "NE" => Some("America/Chicago")
    case "NV" => Some("America/Los_Angeles")
    case "NH" => Some("America/New_York")
    case "NJ" => Some("America/New_York")
    case "NM" => Some("America/Denver")
    case "NY" => Some("America/New_York")
    case "NC" => Some("America/New_York")
    case "ND" => Some("America/Chicago")
    case "OH" => Some("America/New_York")
    case "OK" => Some("America/Chicago")
    case "OR" => Some("America/Los_Angeles")
    case "PA" => Some("America/New_York")
    case "RI" => Some("America/New_York")
    case "SC" => Some("America/New_York")
    case "SD" => Some("America/Chicago")
    case "TN" => Some("America/Chicago")
    case "TX" => Some("America/Chicago")
    case "UT" => Some("America/Denver")
    case "VT" => Some("America/New_York")
    case "VA" => Some("America/New_York")
    case "WA" => Some("America/Los_Angeles")
    case "WV" => Some("America/New_York")
    case "WI" => Some("America/Chicago")
    case "WY" => Some("America/Denver")
    case "DC" => Some("America/New_York")
    case _ => None
  }

  /** The zones the cities table accepts. */
  const ValidTimezones: set<string> := {
    "America/New_York",
    "America/Chicago",
    "America/Denver",
    "America/Los_Angeles",
    "America/Phoenix",
    "America/Anchorage",
    "America/Adak",
    "Pacific/Honolulu",
    "America/Indiana/Indianapolis",
    "America/Kentucky/Louisville",
    "America/Detroit",
    "America/Boise",
    "America/Menominee"
  }

  /** `STATE_TIMEZONE_MAP.get(code, "America/New_York")`: the table's zone for a known code,
      the default otherwise, and in either case an accepted zone. */
  function StateTimezone(code: string): (tz: string)
    ensures StateTimezoneMap(code).Some? ==> tz == StateTimezoneMap(code).value
    ensures StateTimezoneMap(code).None? ==> tz == DefaultTimezone
    ensures tz in ValidTimezones
  {
    StateTimezoneMap(code).GetOr(DefaultTimezone)
  }

  /** `validate_timezone`: an accepted zone is kept, anything else becomes the default. */
  function ValidateTimezone(tz: string): (r: string)
    ensures r in ValidTimezones
    ensures r == tz <==> tz in ValidTimezones
    ensures tz !in ValidTimezones ==> r == DefaultTimezone
  {
    if tz in ValidTimezones then tz else DefaultTimezone
  }

  /** Validating twice is validating once. */
  lemma ValidateIdempotent(tz: string)
    ensures ValidateTimezone(ValidateTimezone(tz)) == ValidateTimezone(tz)
  {
  }

  /** What the coordinate finder answered: a zone name (possibly the empty string),
      no zone (`None`), or an exception. The point-in-polygon lookup itself is not modelled. */
  datatype FinderAnswer = Zone(name: string) | NoZone | Raised

  predicate Usable(answer: FinderAnswer) {
    answer.Zone? && answer.name != ""
  }

  /** `get_timezone`: a non-empty finder answer wins; a missing, empty or failed answer
      falls back to the state table, whose answer is always accepted. Exceptions are
      absorbed, so the lookup is total. */
  function GetTimezone(answer: FinderAnswer, stateCode: string): (tz: string)
    ensures Usable(answer) ==> tz == answer.name
    ensures !Usable(answer) ==> tz == StateTimezone(stateCode) && tz in ValidTimezones
  {
    if Usable(answer) then answer.name else StateTimezone(stateCode)
  }

  /** Which statistic a processed city is counted under. */
  datatype TimezoneSource = ByCoords | ByState | ByDefault

  /** The classification in the advanced importer's city loop. It looks only at the zone
      obtained, so a finder answer that happens to equal the state's zone counts as
      "by state", and the default counts only for a code missing from the table. */
  function Classify(tz: string, stateCode: string): (s: TimezoneSource)
    ensures s == ByCoords <==> tz != StateTimezone(stateCode)
    ensures s == ByDefault <==> tz == DefaultTimezone && StateTimezoneMap(stateCode).None?
  {
    if tz == StateTimezone(stateCode) then
      if tz == DefaultTimezone && StateTimezoneMap(stateCode).None? then ByDefault else ByState
    else ByCoords
  }

  /** When the finder gives nothing usable, the city is counted by state for a known code
      and by default for an unknown one, never by coordinates. */
  lemma FallbackClassification(answer: FinderAnswer, stateCode: string)
    requires !Usable(answer)
    ensures Classify(GetTimezone(answer, stateCode), stateCode)
            == if StateTimezoneMap(stateCode).Some? then ByState else ByDefault
  {
  }

  /** The `stats` counters of the advanced importer. */
  datatype Stats = Stats(totalProcessed: nat, byCoords: nat, byState: nat, byDefault: nat) {

    /** The three rule counters add up to the number of processed cities. */
    predicate Balanced() {
      byCoords + byState + byDefault == totalProcessed
    }

    /** One processed city: the total and exactly one rule counter go up by one. */
    function Count(source: TimezoneSource): (r: Stats)
      ensures r.totalProcessed == totalProcessed + 1
      ensures r.byCoords == byCoords + (if source == ByCoords then 1 else 0)
      ensures r.byState == byState + (if source == ByState then 1 else 0)
      ensures r.byDefault == byDefault + (if source == ByDefault then 1 else 0)
      ensures Balanced() ==> r.Balanced()
    {
      match source
      case ByCoords => this.(totalProcessed := totalProcessed + 1, byCoords := byCoords + 1)
      case ByState => this.(totalProcessed := totalProcessed + 1, byState := byState + 1)
      case ByDefault => this.(totalProcessed := totalProcessed + 1, byDefault := byDefault + 1)
    }
  }

  const InitialStats := Stats(0, 0, 0, 0)
}

/** The Python sign-up lambda, lambda/notifications/signup-processor/index.py: form parsing
    with `parse_qs` semantics, the phone pattern, the HTML response and the handler's
    outcome. The body is given as its decoded name/value pairs; the DynamoDB put, the SNS
    publish and the clock are outside and passed in. */
module SignupPython {

  import opened Wrappers
  import opened Text
  import opened FormParsing

  // ---------------------------------------------------------------------------
  // parse_form_data

  /** Pair `i` is the first pair named `key` with a non-blank value: `parse_qs` drops
      blank values, so it is the first value of the key's list. */
  predicate FirstNonBlank(pairs: FormData, key: string, i: int) {
    0 <= i < |pairs| && pairs[i].0 == key && pairs[i].1 != ""
    && forall j :: 0 <= j < i ==> pairs[j].0 != key || pairs[j].1 == ""
  }

  /** `get_value(key, default)` */
  function GetValue(pairs: FormData, key: string, default: string): (v: string)
    ensures (forall i :: 0 <= i < |pairs| ==> pairs[i].0 != key || pairs[i].1 == "") ==> v == default
    ensures (exists i :: 0 <= i < |pairs| && pairs[i].0 == key && pairs[i].1 != "")
            ==> exists i :: FirstNonBlank(pairs, key, i) && pairs[i].1 == v
  {
    if pairs == [] then default
    else if pairs[0].0 == key && pairs[0].1 != "" then
      assert FirstNonBlank(pairs, key, 0);
      pairs[0].1
    else
      var v := GetValue(pairs[1..], key, default);
      assert (exists i :: 0 <= i < |pairs| && pairs[i].0 == key && pairs[i].1 != "")
             ==> exists i :: 0 <= i < |pairs[1..]| && pairs[1..][i].0 == key && pairs[1..][i].1 != "" by {
        if exists i :: 0 <= i < |pairs| && pairs[i].0 == key && pairs[i].1 != "" {
          var i :| 0 <= i < |pairs| && pairs[i].0 == key && pairs[i].1 != "";
          assert i > 0;
          assert pairs[1..][i - 1] == pairs[i];
        }
      }
      assert (exists i :: FirstNonBlank(pairs[1..], key, i) && pairs[1..][i].1 == v)
             ==> exists i :: FirstNonBlank(pairs, key, i) && pairs[i].1 == v by {
        if exists i :: FirstNonBlank(pairs[1..], key, i) && pairs[1..][i].1 == v {
          var i :| FirstNonBlank(pairs[1..], key, i) && pairs[1..][i].1 == v;
          assert FirstNonBlank(pairs, key, i + 1);
        }
      }
      v
  }

  /** `is_checked(key)` */
  function IsChecked(pairs: FormData, key: string): bool {
    GetValue(pairs, key, "") == "on"
  }

  datatype ContactInfo = ContactInfo(phone: string, cityId: string)

  datatype Preferences = Preferences(language: string, unit: string, timeFormat: string)

  datatype Notifications = Notifications(weatherAlerts: bool, trafficAlerts: bool,
                                         weatherForecast: bool, trafficReport: bool)

  datatype FormFields = FormFields(contactInfo: ContactInfo, preferences: Preferences, notifications: Notifications)

  /** `parse_form_data` */
  function ParseFormData(pairs: FormData): FormFields {
    FormFields(
      ContactInfo(GetValue(pairs, "phone", ""), GetValue(pairs, "cityId", "")),
      Preferences(GetValue(pairs, "language", "en"), GetValue(pairs, "unit", "metric"),
                  GetValue(pairs, "timeFormat", "24h")),
      Notifications(IsChecked(pairs, "weatherAlerts"), IsChecked(pairs, "trafficAlerts"),
                    IsChecked(pairs, "weatherForecast"), IsChecked(pairs, "trafficReport")))
  }

  /** A checkbox is checked iff its first non-blank value is exactly "on". */
  lemma CheckedMeaning(pairs: FormData, key: string)
    ensures IsChecked(pairs, key) <==> exists i :: FirstNonBlank(pairs, key, i) && pairs[i].1 == "on"
  {
    if exists i :: FirstNonBlank(pairs, key, i) && pairs[i].1 == "on" {
      var i :| FirstNonBlank(pairs, key, i) && pairs[i].1 == "on";
      var k :| FirstNonBlank(pairs, key, k) && pairs[k].1 == GetValue(pairs, key, "");
      FirstNonBlankUnique(pairs, key, i, k);
    }
  }

  lemma FirstNonBlankUnique(pairs: FormData, key: string, i: int, k: int)
    requires FirstNonBlank(pairs, key, i) && FirstNonBlank(pairs, key, k)
    ensures i == k
  {
    assert pairs[i].0 == key && pairs[i].1 != "" && pairs[k].0 == key && pairs[k].1 != "";
  }

  /** A preference without a non-blank value takes its default: en, metric, 24h. */
  lemma PreferenceDefaults(pairs: FormData)
    ensures var p := ParseFormData(pairs).preferences;
            ((forall i :: 0 <= i < |pairs| ==> pairs[i].0 != "language" || pairs[i].1 == "") ==> p.language == "en")
            && ((forall i :: 0 <= i < |pairs| ==> pairs[i].0 != "unit" || pairs[i].1 == "") ==> p.unit == "metric")
            && ((forall i :: 0 <= i < |pairs| ==> pairs[i].0 != "timeFormat" || pairs[i].1 == "") ==> p.timeFormat == "24h")
  {
  }

  // ---------------------------------------------------------------------------
  // validate_phone: compiling the character class of the pattern

  /** An element of a character class as written: an escape `\c` or a plain character. */
  datatype ClassToken = Escape(c: char) | Char(c: char)

  /** A compiled element: a category (`\d`, `\s`, ...), one character, or a range. */
  datatype ClassItem = Category(name: char) | Single(ch: char) | Range(lo: char, hi: char)

  predicate IsCategoryEscape(c: char) {
    c in "dDsSwW"
  }

  function ItemOf(t: ClassToken): ClassItem {
    match t
    case Escape(c) => if IsCategoryEscape(c) then Category(c) else Single(c)
    case Char(c) => Single(c)
  }

  /** The class parser of Python's `re`: an element, `-` and another element form a range,
      which must run between two single characters in order, or compiling fails with "bad
      character range"; a `-` with nothing after it is itself a character. */
  function CompileClass(tokens: seq<ClassToken>): Result<seq<ClassItem>, string>
    decreases |tokens|
  {
    if tokens == [] then Ok([])
    else
      var first := ItemOf(tokens[0]);
      if |tokens| >= 3 && tokens[1] == Char('-') then
        var last := ItemOf(tokens[2]);
        if !first.Single? || !last.Single? || last.ch < first.ch then Err("bad character range")
        else
          match CompileClass(tokens[3..])
          case Err(e) => Err(e)
          case Ok(rest) => Ok([Range(first.ch, last.ch)] + rest)
      else
        match CompileClass(tokens[1..])
        case Err(e) => Err(e)
        case Ok(rest) => Ok([first] + rest)
  }

  predicate InItem(item: ClassItem, c: char) {
    match item
    case Category(name) =>
      if name == 'd' then IsDigit(c) else if name == 's' then IsSpace(c)
      else if name == 'D' then !IsDigit(c) else if name == 'S' then !IsSpace(c)
      else var w := IsDigit(c) || ('a' <= c <= 'z') || ('A' <= c <= 'Z') || c == '_';
           if name == 'w' then w else !w
    case Single(ch) => c == ch
    case Range(lo, hi) => lo <= c <= hi
  }

  predicate InClass(items: seq<ClassItem>, c: char) {
    exists k :: 0 <= k < |items| && InItem(items[k], c)
  }

  /** `re.match(r"^\+?[class]{10,}$", phone)`: an optional leading `+`, then at least ten
      characters of the class (the class holds the newline that `$` may stop before). */
  predicate MatchesPhone(items: seq<ClassItem>, phone: string) {
    |AfterPlus(phone)| >= 10 && forall i :: 0 <= i < |AfterPlus(phone)| ==> InClass(items, AfterPlus(phone)[i])
  }

  /** The number without the one optional leading `+`. */
  function AfterPlus(phone: string): string {
    if |phone| > 0 && phone[0] == '+' then phone[1..] else phone
  }

  /** `validate_phone` for a given class: compiling may raise before anything is matched. */
  function ValidatePhoneWith(tokens: seq<ClassToken>, phone: string): Result<bool, string> {
    match CompileClass(tokens)
    case Err(e) => Err(e)
    case Ok(items) => Ok(MatchesPhone(items, phone))
  }

  /** The class as written, `[\d\s-()]`: `\s-(` reads as a range from a category. */
  const PhoneClassAsWritten: seq<ClassToken> := [Escape('d'), Escape('s'), Char('-'), Char('('), Char(')')]

  /** The class evidently meant: digits, whitespace, `-`, `(` and `)`, with the dash escaped. */
  const PhoneClass: seq<ClassToken> := [Escape('d'), Escape('s'), Escape('-'), Char('('), Char(')')]

  function ValidatePhoneAsWritten(phone: string): Result<bool, string> {
    ValidatePhoneWith(PhoneClassAsWritten, phone)
  }

  function ValidatePhone(phone: string): Result<bool, string> {
    ValidatePhoneWith(PhoneClass, phone)
  }

  /** An element not followed by `-` and another element is compiled on its own. */
  lemma CompileStep(tokens: seq<ClassToken>, rest: seq<ClassItem>)
    requires |tokens| >= 1 && !(|tokens| >= 3 && tokens[1] == Char('-'))
    requires CompileClass(tokens[1..]) == Ok(rest)
    ensures CompileClass(tokens) == Ok([ItemOf(tokens[0])] + rest)
  {
  }

  predicate PhoneChar(c: char) {
    IsDigit(c) || IsSpace(c) || c == '-' || c == '(' || c == ')'
  }

  /** As written the pattern never compiles: every call raises "bad character range". */
  lemma PhonePatternRejected(phone: string)
    ensures ValidatePhoneAsWritten(phone) == Err("bad character range")
  {
    assert PhoneClassAsWritten[1] == Escape('s') && PhoneClassAsWritten[2] == Char('-');
    assert PhoneClassAsWritten[1..][1] == Char('-');
    assert CompileClass(PhoneClassAsWritten[1..]) == Err("bad character range");
  }

  /** The intended pattern compiles and accepts exactly an optional `+` followed by at least
      ten digits, whitespace, dashes and parentheses. */
  lemma PhoneMeaning(phone: string)
    ensures ValidatePhone(phone).Ok?
    ensures var t := AfterPlus(phone);
            ValidatePhone(phone).value <==> |t| >= 10 && forall i :: 0 <= i < |t| ==> PhoneChar(t[i])
  {
    PhoneClassCompiles();
    PhoneItemsMeaning();
    assert ValidatePhone(phone) == Ok(MatchesPhone(PhoneItems, phone));
    MatchesByChars(PhoneItems, phone);
  }

  lemma MatchesByChars(items: seq<ClassItem>, phone: string)
    requires forall c :: InClass(items, c) <==> PhoneChar(c)
    ensures MatchesPhone(items, phone)
            <==> |AfterPlus(phone)| >= 10 && forall i :: 0 <= i < |AfterPlus(phone)| ==> PhoneChar(AfterPlus(phone)[i])
  {
  }

  const PhoneItems: seq<ClassItem> := [Category('d'), Category('s'), Single('-'), Single('('), Single(')')]

  lemma PhoneClassCompiles()
    ensures CompileClass(PhoneClass) == Ok(PhoneItems)
  {
    var items := PhoneItems;
    var t4: seq<ClassToken> := [Char(')')];
    var t3 := [Char('(')] + t4;
    var t2 := [Escape('-')] + t3;
    var t1 := [Escape('s')] + t2;
    assert PhoneClass == [Escape('d')] + t1;
    assert t4[1..] == [] && t3[1..] == t4 && t2[1..] == t3 && t1[1..] == t2 && PhoneClass[1..] == t1;
    assert ItemOf(Escape('-')) == Single('-') && ItemOf(Escape('s')) == Category('s');
    assert ItemOf(Escape('d')) == Category('d');
    CompileStep(t4, []);
    assert items[4..] == [Single(')')] + [] && ItemOf(t4[0]) == Single(')');
    assert CompileClass(t4) == Ok(items[4..]);
    CompileStep(t3, items[4..]);
    assert items[3..] == [Single('(')] + items[4..] && ItemOf(t3[0]) == Single('(');
    assert CompileClass(t3) == Ok(items[3..]);
    CompileStep(t2, items[3..]);
    assert items[2..] == [Single('-')] + items[3..] && ItemOf(t2[0]) == Single('-');
    assert CompileClass(t2) == Ok(items[2..]);
    CompileStep(t1, items[2..]);
    assert items[1..] == [Category('s')] + items[2..] && ItemOf(t1[0]) == Category('s');
    assert CompileClass(t1) == Ok(items[1..]);
    CompileStep(PhoneClass, items[1..]);
    assert items == [Category('d')] + items[1..] && ItemOf(PhoneClass[0]) == Category('d');
  }

  lemma PhoneItemsMeaning()
    ensures forall c :: InClass(PhoneItems, c) <==> PhoneChar(c)
  {
    var items := PhoneItems;
    forall c
      ensures InClass(items, c) <==> PhoneChar(c)
    {
      if PhoneChar(c) {
        if IsDigit(c) { assert InItem(items[0], c); }
        else if IsSpace(c) { assert InItem(items[1], c); }
        else if c == '-' { assert InItem(items[2], c); }
        else if c == '(' { assert InItem(items[3], c); }
        else { assert InItem(items[4], c); }
      }
    }
  }

  // ---------------------------------------------------------------------------
  // create_html_response and handler

  datatype HtmlResponse = HtmlResponse(statusCode: int, headers: seq<(string, string)>, signedUp: bool)

  /** `create_html_response`: the status as given, `Content-Type: text/html`, and the
      success or the failure fragment. */
  function CreateHtmlResponse(statusCode: int, success: bool): (r: HtmlResponse)
    ensures r.statusCode == statusCode && r.headers == [("Content-Type", "text/html")] && r.signedUp == success
  {
    HtmlResponse(statusCode, [("Content-Type", "text/html")], success)
  }

  /** The DynamoDB item of `save_to_dynamodb` and the SNS message of
      `send_welcome_notification`. */
  datatype Effect =
    | PutItem(phone: string, cityId: string, preferences: Preferences, notifications: Notifications, createdAt: string)
    | Publish(topicArn: string, phone: string, language: string)

  /** What the handler does and answers. `validate` is the phone check in use, `putFailure`
      and `publishFailure` what the two calls raise, `topicArn` the environment variable,
      `now` the ISO time of the clock. The effects are the calls made, in order. */
  function HandleWith(validate: string -> Result<bool, string>, pairs: FormData, now: string,
                      putFailure: Option<string>, topicArn: Option<string>, publishFailure: Option<string>)
    : (seq<Effect>, HtmlResponse)
  {
    var data := ParseFormData(pairs);
    var phone := data.contactInfo.phone;
    match validate(phone)
    case Err(_) => ([], CreateHtmlResponse(500, false))
    case Ok(valid) =>
      if !valid then ([], CreateHtmlResponse(500, false))
      else
        var put := PutItem(phone, data.contactInfo.cityId, data.preferences, data.notifications, now);
        if putFailure.Some? then ([put], CreateHtmlResponse(500, false))
        else if topicArn.None? || topicArn.value == "" then ([put], CreateHtmlResponse(500, false))
        else
          var publish := Publish(topicArn.value, phone, data.preferences.language);
          if publishFailure.Some? then ([put, publish], CreateHtmlResponse(500, false))
          else ([put, publish], CreateHtmlResponse(200, true))
  }

  function HandlerAsWritten(pairs: FormData, now: string, putFailure: Option<string>,
                            topicArn: Option<string>, publishFailure: Option<string>): (seq<Effect>, HtmlResponse)
  {
    HandleWith(ValidatePhoneAsWritten, pairs, now, putFailure, topicArn, publishFailure)
  }

  function Handler(pairs: FormData, now: string, putFailure: Option<string>,
                   topicArn: Option<string>, publishFailure: Option<string>): (seq<Effect>, HtmlResponse)
  {
    HandleWith(ValidatePhone, pairs, now, putFailure, topicArn, publishFailure)
  }

  /** As written every request fails with 500 before anything is saved. */
  lemma AsWrittenAlwaysFails(pairs: FormData, now: string, putFailure: Option<string>,
                             topicArn: Option<string>, publishFailure: Option<string>)
    ensures HandlerAsWritten(pairs, now, putFailure, topicArn, publishFailure)
            == ([], CreateHtmlResponse(500, false))
  {
    PhonePatternRejected(ParseFormData(pairs).contactInfo.phone);
  }

  /** With the intended pattern: 200 exactly when the phone is valid, the item is saved and
      the welcome message is published, in that order; every failure is the 500 page. */
  lemma HandlerOutcome(pairs: FormData, now: string, putFailure: Option<string>,
                       topicArn: Option<string>, publishFailure: Option<string>)
    ensures var (effects, r) := Handler(pairs, now, putFailure, topicArn, publishFailure);
            var data := ParseFormData(pairs);
            (r.statusCode == 200 <==> ValidatePhone(data.contactInfo.phone) == Ok(true) && putFailure.None?
                                      && topicArn.Some? && topicArn.value != "" && publishFailure.None?)
            && (r.statusCode != 200 ==> r == CreateHtmlResponse(500, false))
            && (r.statusCode == 200 ==>
                  effects == [PutItem(data.contactInfo.phone, data.contactInfo.cityId, data.preferences,
                                      data.notifications, now),
                              Publish(topicArn.value, data.contactInfo.phone, data.preferences.language)])
  {
    PhoneMeaning(ParseFormData(pairs).contactInfo.phone);
  }
}

/** The sign-up handler of backend/functions/signup-processor/index.ts: the body is
    decoded, unwrapped and parsed, the Turnstile token is checked outside development, the
    user and the notification preferences are inserted in one transaction, and the answer
    is an HTML page whose status and message follow fixed rules. Base64, JSON and
    form decoding, the Turnstile site-verify call and the database's answers come from
    outside and are fields of `Services`. */
module SignupProcessor {

  import opened Wrappers
  import opened Text
  import opened JsObjects
  import opened FormParsing
  import opened InsertStatements
  import opened Transactions
  import opened ClientIp

  // ---------------------------------------------------------------------------
  // Schemas (the key lists of CONTACT_SCHEMA, PREFERENCES_SCHEMA, NOTIFICATION_SCHEMA)

  const ContactKeys: seq<string> := ["preferred_name", "phone_number", "phone_country_code", "city_id"]
  const PreferenceKeys: seq<string> :=
    ["preferred_language", "unit_preference", "time_format", "daily_notification_time"]
  const NotificationKeys: seq<string> :=
    ["daily_celestial_events", "daily_nasa", "daily_weather_outfit", "daily_recipe", "instant_sunset"]

  datatype SignupData = SignupData(contactInfo: Object<string>, preferences: Object<string>,
                                   notifications: Object<bool>)

  /** `parseFormData`: the three parts, each with exactly its schema's keys. */
  function ParseFormData(form: FormData): (d: SignupData)
    ensures Keys(d.contactInfo) == ContactKeys && Keys(d.preferences) == PreferenceKeys
    ensures Keys(d.notifications) == NotificationKeys
  {
    SignupData(ParseSchemaFields(form, ContactKeys), ParseSchemaFields(form, PreferenceKeys),
               ParseNotificationPreferences(form, NotificationKeys))
  }

  // ---------------------------------------------------------------------------
  // The two inserts of insertSignupData

  /** A bound parameter: text or a notification flag. */
  datatype SqlValue = Text(text: string) | Flag(flag: bool)

  /** `data.contact_info.x` / `data.preferences.x`; parsed data always has the key. */
  function Field(o: Object<string>, key: string): string {
    Get(o, key).GetOr("")
  }

  /** The `userData` object: contact fields, then preference fields, in this order. */
  function UserRow(d: SignupData): Object<SqlValue> {
    [("preferred_name", Text(Field(d.contactInfo, "preferred_name"))),
     ("phone_number", Text(Field(d.contactInfo, "phone_number"))),
     ("phone_country_code", Text(Field(d.contactInfo, "phone_country_code"))),
     ("city_id", Text(Field(d.contactInfo, "city_id"))),
     ("preferred_language", Text(Field(d.preferences, "preferred_language"))),
     ("unit_preference", Text(Field(d.preferences, "unit_preference"))),
     ("time_format", Text(Field(d.preferences, "time_format"))),
     ("daily_notification_time", Text(Field(d.preferences, "daily_notification_time")))]
  }

  function FlagValues(notifications: Object<bool>): (r: Object<SqlValue>)
    ensures Keys(r) == Keys(notifications)
    ensures forall i :: 0 <= i < |r| ==> r[i].1 == Flag(notifications[i].1)
  {
    if notifications == [] then []
    else [(notifications[0].0, Flag(notifications[0].1))] + FlagValues(notifications[1..])
  }

  /** `{ user_id: userId, ...data.notifications }` */
  function NotificationRow(userId: string, notifications: Object<bool>): Object<SqlValue> {
    [("user_id", Text(userId))] + FlagValues(notifications)
  }

  function NotificationSql(fields: seq<string>, placeholders: seq<string>): string {
    "INSERT INTO notification_preferences (" + Join(fields, ", ") + ")\n\t\t\t\t\t\t\t VALUES ("
    + Join(placeholders, ", ") + ") \n\t\t\t\t\t\t\t RETURNING *"
  }

  /** The hand-written notification insert: the row's keys as columns, `$1..$n`, and the
      row's values as parameters. */
  function NotificationInsert(userId: string, notifications: Object<bool>): Query<SqlValue> {
    var row := NotificationRow(userId, notifications);
    Query(NotificationSql(Keys(row), Placeholders(|row|)), Values(row))
  }

  /** `user_id` is the first column and gets the new user's id as `$1`; then each flag gets
      its own placeholder, numbered 2..n+1 in schema order, and is bound to its own value. */
  lemma NotificationInsertBinds(userId: string, notifications: Object<bool>)
    requires DistinctKeys(notifications) && "user_id" !in Keys(notifications)
    ensures var row := NotificationRow(userId, notifications);
            var q := NotificationInsert(userId, notifications);
            Keys(row) == ["user_id"] + Keys(notifications)
            && |q.params| == |notifications| + 1 && q.params[0] == Text(userId)
            && (forall i :: 0 <= i < |notifications| ==> q.params[i + 1] == Flag(notifications[i].1))
            && Binds(Keys(row), Placeholders(|row|), q.params, row)
  {
    var row := NotificationRow(userId, notifications);
    RowKeys(userId, notifications);
    RowDistinct(userId, notifications);
    var params := Values(row);
    forall i | 0 <= i < |row|
      ensures Get(row, Keys(row)[i]) == Some(params[i])
    {
      GetAt(row, i);
    }
    AlignedBinds(Keys(row), params, row);
    forall i | 0 <= i < |notifications|
      ensures params[i + 1] == Flag(notifications[i].1)
    {
      assert row[i + 1] == FlagValues(notifications)[i];
    }
  }

  lemma RowKeys(userId: string, notifications: Object<bool>)
    ensures Keys(NotificationRow(userId, notifications)) == ["user_id"] + Keys(notifications)
  {
    var row := NotificationRow(userId, notifications);
    assert Keys(row) == [row[0].0] + Keys(row[1..]);
    assert row[1..] == FlagValues(notifications);
  }

  lemma RowDistinct(userId: string, notifications: Object<bool>)
    requires DistinctKeys(notifications) && "user_id" !in Keys(notifications)
    ensures DistinctKeys(NotificationRow(userId, notifications))
  {
    var flags := FlagValues(notifications);
    FlagNames(notifications);
    assert DistinctKeys(flags);
    DistinctCons(("user_id", Text(userId)), flags);
  }

  /** A key that is not among an object's distinct keys can go in front of them. */
  lemma DistinctCons<V>(head: (string, V), tail: Object<V>)
    requires DistinctKeys(tail) && head.0 !in Keys(tail)
    ensures DistinctKeys([head] + tail)
  {
    var o := [head] + tail;
    forall i, j | 0 <= i < j < |o|
      ensures o[i].0 != o[j].0
    {
      assert o[j] == tail[j - 1];
      if i == 0 {
        assert Keys(tail)[j - 1] == tail[j - 1].0;
      } else {
        assert o[i] == tail[i - 1];
      }
    }
  }

  /** Each flag keeps its name. */
  lemma FlagNames(notifications: Object<bool>)
    ensures |FlagValues(notifications)| == |notifications|
    ensures forall k :: 0 <= k < |notifications| ==> FlagValues(notifications)[k].0 == notifications[k].0
  {
    var flags := FlagValues(notifications);
    forall k | 0 <= k < |notifications|
      ensures flags[k].0 == notifications[k].0
    {
      assert Keys(flags)[k] == Keys(notifications)[k];
    }
  }

  /** The callback of the transaction: the user insert, whose first returned row carries
      the new id, then the notification insert. `userInsert` is the id or what the first
      query throws (an empty result throws too); `notificationInsert` what the second throws.
      The statements sent are returned beside the outcome. */
  function SignupQueries(d: SignupData, userInsert: Result<string, Thrown>, notificationInsert: Option<Thrown>)
    : (seq<Query<SqlValue>>, Result<(), Thrown>)
  {
    var user := InsertStatement("users", UserRow(d));
    match userInsert
    case Err(e) => ([user], Err(e))
    case Ok(userId) =>
      var prefs := NotificationInsert(userId, d.notifications);
      if notificationInsert.Some? then ([user, prefs], Err(notificationInsert.value))
      else ([user, prefs], Ok(()))
  }

  // ---------------------------------------------------------------------------
  // Errors and the messages shown

  /** A thrown value: `isError` for an `Error` instance, and its message. */
  datatype Thrown = Thrown(isError: bool, message: string)

  const DuplicatePhone := "A user with that phone number already exists."
  const NoFormData := "No form data received in request body"
  const MissingToken := "Missing Turnstile verification token"
  const VerificationFailed := "Security verification failed. Please try again."
  const SaveFailed := "Failed to save your information. Please try again later."
  const Unexpected := "An unexpected error occurred. Please try again later."
  const SecretMissing := "Turnstile secret key is not configured"

  const KnownMessages: seq<string> := [DuplicatePhone, NoFormData, MissingToken, VerificationFailed, SaveFailed]

  /** The `catch` of `insertSignupData`: a unique-constraint violation on the phone number
      becomes the duplicate message, anything else the generic save failure. */
  function InsertFailure(e: Thrown): (r: Thrown)
    ensures r.isError && (r.message == DuplicatePhone || r.message == SaveFailed)
    ensures r.message == DuplicatePhone
            <==> e.isError && Contains(e.message, "unique constraint") && Contains(e.message, "phone_number")
  {
    if e.isError && Contains(e.message, "unique constraint") && Contains(e.message, "phone_number")
    then Thrown(true, DuplicatePhone)
    else Thrown(true, SaveFailed)
  }

  predicate IsKnown(e: Thrown) {
    e.isError && exists k :: k in KnownMessages && Contains(e.message, k)
  }

  /** The user-facing message of the outer `catch`. */
  function UserMessage(e: Thrown): (m: string)
    ensures IsKnown(e) ==> m == e.message
    ensures !IsKnown(e) ==> m == Unexpected
  {
    if IsKnown(e) then e.message else Unexpected
  }

  lemma ContainsSelf(s: string)
    ensures Contains(s, s)
  {
    assert OccursAt(s, s, 0);
  }

  /** Whatever was thrown, the page shows the generic text or a message that includes one of
      the five known messages: nothing else reaches the user. */
  lemma ShownMessages(e: Thrown)
    ensures UserMessage(e) == Unexpected || exists k :: k in KnownMessages && Contains(UserMessage(e), k)
  {
  }

  /** Every known message is shown verbatim when thrown as an `Error`. */
  lemma KnownShownVerbatim(m: string)
    requires m in KnownMessages
    ensures UserMessage(Thrown(true, m)) == m
  {
    ContainsSelf(m);
  }

  // ---------------------------------------------------------------------------
  // Requests, services and responses

  datatype Request = Request(body: Option<string>, isBase64Encoded: bool, turnstileHeader: Option<string>,
                             sourceIp: Option<string>, forwardedFor: Option<string>)

  /** What the handler gets from outside. `jsonBodyField(s)` is `Some(b)` when `JSON.parse(s)`
      succeeds and its `body` is a string `b`, and `None` otherwise (a parse error, a `body`
      of another type, or a `null` whose property access throws). `siteverify` is the answer
      to the verification request: `result.success === true`, or what `fetch` throws. The
      database answers are in the order the handler meets them. */
  datatype Services = Services(
    development: bool,
    secretKey: Option<string>,
    idempotencyKey: string,
    decodeBase64: string -> string,
    jsonBodyField: string -> Option<string>,
    parseForm: string -> FormData,
    siteverify: FormData -> Result<bool, Thrown>,
    connect: Option<Thrown>,
    begin: Option<Thrown>,
    userInsert: Result<string, Thrown>,
    notificationInsert: Option<Thrown>,
    commit: Option<Thrown>,
    rollback: Option<Thrown>)

  datatype Page = SignupSuccessful | SignupFailed(message: string)

  datatype Response = Response(statusCode: int, headers: Object<string>, page: Page)

  const HtmlHeaders: Object<string> := [("Content-Type", "text/html")]

  /** 200 with the success page, or 400 with the failure page and the user-facing message;
      the headers are `Content-Type: text/html` alone either way. */
  function Respond(outcome: Result<(), Thrown>): (r: Response)
    ensures r.headers == HtmlHeaders
    ensures r.statusCode == 200 <==> outcome.Ok?
    ensures r.statusCode == 400 <==> outcome.Err?
    ensures outcome.Err? ==> r.page == SignupFailed(UserMessage(outcome.error))
  {
    match outcome
    case Ok(_) => Response(200, HtmlHeaders, SignupSuccessful)
    case Err(e) => Response(400, HtmlHeaders, SignupFailed(UserMessage(e)))
  }

  // ---------------------------------------------------------------------------
  // The steps before the database

  /** The base64 flag is honoured before anything else looks at the body. */
  function DecodedBody(body: string, isBase64Encoded: bool, svc: Services): string {
    if isBase64Encoded then svc.decodeBase64(body) else body
  }

  /** `formDataStr`: the wrapped `body` string when there is one, the decoded body otherwise. */
  function FormText(decoded: string, svc: Services): string {
    match svc.jsonBodyField(decoded)
    case Some(inner) => inner
    case None => decoded
  }

  /** `headers["cf-turnstile-response"] || formData.get("cf-turnstile-response")`, with an
      empty string counting as missing. */
  function TurnstileToken(req: Request, form: FormData): (t: Option<string>)
    ensures t.Some? ==> t.value != ""
    ensures t.None? <==> (req.turnstileHeader.None? || req.turnstileHeader.value == "")
                         && (FormGet(form, "cf-turnstile-response").None?
                             || FormGet(form, "cf-turnstile-response").value == "")
    ensures req.turnstileHeader.Some? && req.turnstileHeader.value != "" ==> t == req.turnstileHeader
    ensures req.turnstileHeader.None? || req.turnstileHeader.value == "" ==>
              t.Some? ==> t == FormGet(form, "cf-turnstile-response")
  {
    if req.turnstileHeader.Some? && req.turnstileHeader.value != "" then req.turnstileHeader
    else
      var fromForm := FormGet(form, "cf-turnstile-response");
      if fromForm.Some? && fromForm.value != "" then fromForm else None
  }

  /** The address given to the verifier: the source address, or else the untrimmed first
      entry of `x-forwarded-for`. */
  function TurnstileIp(req: Request): (ip: Option<string>)
    ensures req.sourceIp.Some? && req.sourceIp.value != "" ==> ip == req.sourceIp
    ensures req.sourceIp.None? || req.sourceIp.value == "" ==>
              (ip.Some? <==> req.forwardedFor.Some?)
              && (ip.Some? ==> var h := req.forwardedFor.value;
                               ',' !in ip.value && StartsWith(h, ip.value)
                               && (ip.value == h || h[|ip.value|] == ','))
  {
    if req.sourceIp.Some? && req.sourceIp.value != "" then req.sourceIp
    else if req.forwardedFor.Some? then Some(FirstHop(req.forwardedFor.value))
    else None
  }

  /** The form posted to site-verify: secret, response, the address when it is non-empty,
      and an idempotency key. */
  function VerificationForm(secret: string, token: string, remoteIp: Option<string>, key: string): FormData {
    [("secret", secret), ("response", token)]
    + (if remoteIp.Some? && remoteIp.value != "" then [("remoteip", remoteIp.value)] else [])
    + [("idempotency_key", key)]
  }

  /** `verifyTurnstileToken` */
  function VerifyTurnstile(svc: Services, token: string, remoteIp: Option<string>): Result<bool, Thrown> {
    if svc.development then Ok(true)
    else if svc.secretKey.None? || svc.secretKey.value == "" then Err(Thrown(true, SecretMissing))
    else svc.siteverify(VerificationForm(svc.secretKey.value, token, remoteIp, svc.idempotencyKey))
  }

  /** The parsed form of a non-empty body. */
  function FormOf(req: Request, svc: Services): FormData
    requires req.body.Some?
  {
    svc.parseForm(FormText(DecodedBody(req.body.value, req.isBase64Encoded, svc), svc))
  }

  /** The Turnstile check, then `parseFormData`. */
  function CheckAndParse(req: Request, svc: Services, form: FormData): Result<SignupData, Thrown> {
    if svc.development then Ok(ParseFormData(form))
    else
      var token := TurnstileToken(req, form);
      if token.None? then Err(Thrown(true, MissingToken))
      else
        match VerifyTurnstile(svc, token.value, TurnstileIp(req))
        case Err(e) => Err(e)
        case Ok(success) =>
          if success then Ok(ParseFormData(form)) else Err(Thrown(true, VerificationFailed))
  }

  /** Everything before the database: the parsed sign-up data or the error thrown. */
  function Prepare(req: Request, svc: Services): Result<SignupData, Thrown> {
    if req.body.None? || req.body.value == "" then Err(Thrown(true, NoFormData))
    else CheckAndParse(req, svc, FormOf(req, svc))
  }

  /** The transaction of `insertSignupData` for parsed data. */
  function SignupTransaction(svc: Services, d: SignupData): (seq<Event>, Result<(), Thrown>) {
    Transaction(true, svc.begin, SignupQueries(d, svc.userInsert, svc.notificationInsert).1,
                svc.commit, svc.rollback)
  }

  /** What `handler` ends with: success, or the error its outer `catch` receives. */
  function Process(req: Request, svc: Services): Result<(), Thrown> {
    match Prepare(req, svc)
    case Err(e) => Err(e)
    case Ok(d) =>
      if svc.connect.Some? then Err(svc.connect.value)
      else
        match SignupTransaction(svc, d).1
        case Ok(_) => Ok(())
        case Err(e) => Err(InsertFailure(e))
  }

  /** `handler`: the steps in order, on a fresh database client that is closed whenever it
      was opened. */
  method Handler(req: Request, svc: Services) returns (resp: Response, db: Option<Client>)
    ensures resp == Respond(Process(req, svc))
    ensures db.Some? <==> Prepare(req, svc).Ok? && svc.connect.None?
    ensures db.Some? ==> fresh(db.value)
                         && db.value.log == [Connect] + SignupTransaction(svc, Prepare(req, svc).value).0 + [End]
  {
    db := None;
    if req.body.None? || req.body.value == "" {
      resp := Respond(Err(Thrown(true, NoFormData)));
      return;
    }
    var decodedBody := if req.isBase64Encoded then svc.decodeBase64(req.body.value) else req.body.value;
    var formDataStr := decodedBody;
    var wrapped := svc.jsonBodyField(decodedBody);
    if wrapped.Some? {
      formDataStr := wrapped.value;
    }
    var formData := svc.parseForm(formDataStr);
    assert Prepare(req, svc) == CheckAndParse(req, svc, formData) by {
      assert formData == FormOf(req, svc);
    }
    if !svc.development {
      var token := TurnstileToken(req, formData);
      if token.None? {
        resp := Respond(Err(Thrown(true, MissingToken)));
        return;
      }
      var verification := VerifyTurnstile(svc, token.value, TurnstileIp(req));
      if verification.Err? {
        resp := Respond(Err(verification.error));
        return;
      }
      if !verification.value {
        resp := Respond(Err(Thrown(true, VerificationFailed)));
        return;
      }
    }
    var userData := ParseFormData(formData);
    assert Prepare(req, svc) == Ok(userData);
    var connected := GetDbClientAwaited(svc.connect);
    if connected.Err? {
      resp := Respond(Err(connected.error));
      return;
    }
    var client := connected.value;
    db := Some(client);
    var callback := SignupQueries(userData, svc.userInsert, svc.notificationInsert).1;
    var r := ExecuteTransaction(client, svc.begin, callback, svc.commit, svc.rollback);
    assert r == SignupTransaction(svc, userData).1;
    client.Close();
    if r.Err? {
      resp := Respond(Err(InsertFailure(r.error)));
    } else {
      resp := Respond(Ok(()));
    }
  }

  // ---------------------------------------------------------------------------
  // Properties of the handler

  /** A missing or empty body is answered 400 with the no-data message, and no client is
      opened. */
  lemma EmptyBodyRejected(req: Request, svc: Services)
    requires req.body.None? || req.body.value == ""
    ensures Respond(Process(req, svc)) == Response(400, HtmlHeaders, SignupFailed(NoFormData))
    ensures Prepare(req, svc).Err?
  {
    KnownShownVerbatim(NoFormData);
  }

  /** The base64 flag only decodes: a flagged body behaves as its decoding sent unflagged. */
  lemma DecodeFirst(req: Request, svc: Services)
    requires req.body.Some? && req.body.value != "" && req.isBase64Encoded
    requires svc.decodeBase64(req.body.value) != ""
    ensures Process(req, svc)
            == Process(req.(body := Some(svc.decodeBase64(req.body.value)), isBase64Encoded := false), svc)
  {
    var req' := req.(body := Some(svc.decodeBase64(req.body.value)), isBase64Encoded := false);
    var form := FormOf(req, svc);
    assert FormOf(req', svc) == form;
    SameChecks(req, req', svc, form);
    assert Prepare(req, svc) == Prepare(req', svc);
    SamePrepared(req, req', svc);
  }

  /** The handler reads the request only through what happens before the database. */
  lemma SamePrepared(req1: Request, req2: Request, svc: Services)
    requires Prepare(req1, svc) == Prepare(req2, svc)
    ensures Process(req1, svc) == Process(req2, svc)
  {
  }

  /** The Turnstile check reads only the token header and the addresses of the request. */
  lemma SameChecks(req1: Request, req2: Request, svc: Services, form: FormData)
    requires req1.turnstileHeader == req2.turnstileHeader && req1.sourceIp == req2.sourceIp
    requires req1.forwardedFor == req2.forwardedFor
    ensures CheckAndParse(req1, svc, form) == CheckAndParse(req2, svc, form)
  {
    assert TurnstileToken(req1, form) == TurnstileToken(req2, form);
    assert TurnstileIp(req1) == TurnstileIp(req2);
  }

  /** The form is read from the unwrapped text alone: two bodies that unwrap to the same
      text are handled alike. */
  lemma UnwrappedTextDecides(req1: Request, req2: Request, svc: Services)
    requires req1.body.Some? && req1.body.value != "" && req2.body.Some? && req2.body.value != ""
    requires req1.(body := req2.body, isBase64Encoded := req2.isBase64Encoded) == req2
    requires FormText(DecodedBody(req1.body.value, req1.isBase64Encoded, svc), svc)
             == FormText(DecodedBody(req2.body.value, req2.isBase64Encoded, svc), svc)
    ensures Process(req1, svc) == Process(req2, svc)
  {
    SameChecks(req1, req2, svc, FormOf(req1, svc));
    SamePrepared(req1, req2, svc);
  }

  /** Outside development a request without a token is answered 400 with the missing-token
      message, and a rejected token with the verification-failed message. */
  lemma TurnstileGate(req: Request, svc: Services)
    requires req.body.Some? && req.body.value != "" && !svc.development
    ensures var form := FormOf(req, svc);
            var token := TurnstileToken(req, form);
            (token.None? ==> Respond(Process(req, svc)) == Response(400, HtmlHeaders, SignupFailed(MissingToken)))
            && (token.Some? && VerifyTurnstile(svc, token.value, TurnstileIp(req)) == Ok(false) ==>
                  Respond(Process(req, svc)) == Response(400, HtmlHeaders, SignupFailed(VerificationFailed)))
  {
    KnownShownVerbatim(MissingToken);
    KnownShownVerbatim(VerificationFailed);
  }

  /** In development the token and the verifier play no part. */
  lemma DevelopmentSkipsTurnstile(req: Request, svc: Services, otherHeader: Option<string>)
    requires svc.development
    ensures Process(req, svc) == Process(req.(turnstileHeader := otherHeader), svc)
  {
    var req' := req.(turnstileHeader := otherHeader);
    if req.body.Some? && req.body.value != "" {
      var form := FormOf(req, svc);
      assert FormOf(req', svc) == form;
      assert CheckAndParse(req, svc, form) == Ok(ParseFormData(form)) == CheckAndParse(req', svc, form);
    }
    assert Prepare(req, svc) == Prepare(req', svc);
    SamePrepared(req, req', svc);
  }

  /** Once the data is parsed and the client connected, a failed transaction is shown as the
      duplicate-phone message exactly when the final error is a unique-constraint violation
      on the phone number, and as the save-failure message otherwise. */
  lemma DatabaseFailureShown(req: Request, svc: Services)
    requires Prepare(req, svc).Ok? && svc.connect.None?
    requires SignupTransaction(svc, Prepare(req, svc).value).1.Err?
    ensures var e := SignupTransaction(svc, Prepare(req, svc).value).1.error;
            var shown := Respond(Process(req, svc)).page.message;
            (shown == DuplicatePhone || shown == SaveFailed)
            && (shown == DuplicatePhone <==> e.isError && Contains(e.message, "unique constraint")
                                             && Contains(e.message, "phone_number"))
  {
    var e := SignupTransaction(svc, Prepare(req, svc).value).1.error;
    KnownShownVerbatim(InsertFailure(e).message);
  }

  /** The success page is returned exactly when the data is parsed, the client connects and
      BEGIN, both inserts and COMMIT succeed. */
  lemma SuccessExactly(req: Request, svc: Services)
    ensures Respond(Process(req, svc)).statusCode == 200
            <==> Prepare(req, svc).Ok? && svc.connect.None? && svc.begin.None? && svc.userInsert.Ok?
                 && svc.notificationInsert.None? && svc.commit.None?
  {
    if Prepare(req, svc).Ok? && svc.connect.None? {
      var d := Prepare(req, svc).value;
      TransactionCommits(true, svc.begin, SignupQueries(d, svc.userInsert, svc.notificationInsert).1,
                         svc.commit, svc.rollback);
    }
  }
}

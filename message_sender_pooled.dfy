/** The `handler` of backend/functions/message-sender/index.ts: one pooled client, the
    users grouped by notification type, the content of every type that has users, one
    message per (type, user) pair, and the client released at the end. Twilio, the
    notifications logger and the two queries' answers are decided outside and passed in;
    the type list is `Object.keys(NOTIFICATION_SCHEMA)`, a parameter. */
module MessageSenderPooled {

  import opened Wrappers
  import opened Text
  import opened UserGrouping
  import opened NotificationMessages
  import opened Transactions

  /** The names the two `switch` statements test. */
  const PhotoType: string := "astronomy_photo"
  const CaseNames: seq<string> := [PhotoType, "celestial_events", "weather_outfits", "recipes", "sunset_alerts"]

  const UsersSql: string := "SELECT active users JOIN notification_preferences"
  const ApodSql: string := "SELECT title, explanation, original_url, media_type FROM NASA_APOD ORDER BY date DESC LIMIT 1"
  const EmptyApod: string := "NASA_APOD table is empty: no APOD metadata available."

  datatype Status = Sent(sid: string) | Failed(error: string, mediaUrls: Option<seq<string>>)

  datatype NotificationResult = NotificationResult(userId: string, phoneNumber: string, notificationType: string, status: Status)

  datatype Response = Response(statusCode: int, message: string, results: Option<seq<NotificationResult>>)

  /** The answers of the outside world: whether connecting throws, the rows of the users
      query (the active users with their truthy preference columns) or its error, the
      latest NASA_APOD row (`None` for an empty table) or its error, what Twilio answers a
      message (a SID or an error message), and whether logging a sent or a failed
      notification throws. */
  datatype Outside = Outside(
    connect: Option<string>,
    users: Result<seq<Row>, string>,
    apod: Result<Option<(string, string, string)>, string>,
    send: (string, string, Option<seq<string>>) -> Result<string, string>,
    logSent: (User, string, string) -> Option<string>,
    logFailed: (User, string, string) -> Option<string>)

  function Position(t: string): nat {
    if t == CaseNames[1] then 1 else if t == CaseNames[2] then 2 else if t == CaseNames[3] then 3
    else if t == CaseNames[4] then 4 else 5
  }

  /** `getNotificationContent`: the photo type reads the latest NASA_APOD row and throws when
      the table is empty; the others have fixed content. */
  function ContentOf(t: string, out: Outside): (r: Result<Content, string>)
    ensures r.Ok? ==> (r.value.Apod? <==> t == PhotoType)
    ensures t == PhotoType && out.apod == Ok(None) ==> r == Err(EmptyApod)
  {
    if t == PhotoType then
      match out.apod
      case Err(e) => Err(e)
      case Ok(None) => Err(EmptyApod)
      case Ok(Some(row)) => Ok(Apod(row.0, row.1, row.2))
    else Ok(PlaceholderContent(Position(t)))
  }

  /** One pass of the inner loop. The message is formatted, sent and logged as sent; a
      failure of the send or of that log is logged as failed and recorded with the message's
      media; a failure of the failure log escapes to the outer `catch` (`Err`). */
  function Deliver(t: string, content: Content, u: User, out: Outside): Result<NotificationResult, string>
    requires t == PhotoType ==> content.Apod?
  {
    var m := FormatMessage(t == PhotoType, content, u.name);
    var sent: Result<string, string> :=
      match out.send(u.fullPhone, m.body, m.mediaUrls)
      case Err(e) => Err(e)
      case Ok(sid) => if out.logSent(u, t, sid).Some? then Err(out.logSent(u, t, sid).value) else Ok(sid);
    match sent
    case Ok(sid) => Ok(NotificationResult(u.userId, u.fullPhone, t, Sent(sid)))
    case Err(e) =>
      if out.logFailed(u, t, e).Some? then Err(out.logFailed(u, t, e).value)
      else Ok(NotificationResult(u.userId, u.fullPhone, t, Failed(e, m.mediaUrls)))
  }

  /** The inner loop over a type's users, stopping at the first error that escapes. */
  function DeliverAll(t: string, content: Content, users: seq<User>, out: Outside): Result<seq<NotificationResult>, string>
    requires t == PhotoType ==> content.Apod?
  {
    if users == [] then Ok([])
    else
      match DeliverAll(t, content, users[..|users| - 1], out)
      case Err(e) => Err(e)
      case Ok(rs) =>
        match Deliver(t, content, users[|users| - 1], out)
        case Err(e) => Err(e)
        case Ok(r) => Ok(rs + [r])
  }

  /** The types whose content was fetched, and the results or the error that escaped. */
  datatype Progress = Progress(fetched: seq<string>, outcome: Result<seq<NotificationResult>, string>)

  /** The outer loop over the types: a type without users is skipped. */
  function Dispatch(types: seq<string>, groups: Groups, out: Outside): Progress
    requires forall t :: t in types ==> t in groups
  {
    if types == [] then Progress([], Ok([]))
    else
      var p := Dispatch(types[..|types| - 1], groups, out);
      var t := types[|types| - 1];
      if p.outcome.Err? || groups[t] == [] then p
      else
        match TypeOutcome(t, groups[t], out)
        case Err(e) => Progress(p.fetched + [t], Err(e))
        case Ok(more) => Progress(p.fetched + [t], Ok(p.outcome.value + more))
  }

  /** The content of a type with users, then the inner loop over them. */
  function TypeOutcome(t: string, users: seq<User>, out: Outside): Result<seq<NotificationResult>, string> {
    match ContentOf(t, out)
    case Err(e) => Err(e)
    case Ok(c) => DeliverAll(t, c, users, out)
  }

  function Failure(e: string): Response {
    Response(500, "Error processing notifications: " + e, None)
  }

  function Summary(processed: nat, total: nat): string {
    "Successfully processed " + NatToString(processed) + " notifications for " + NatToString(total) + " users"
  }

  /** The response of the handler. */
  function Process(types: seq<string>, out: Outside): Response {
    if out.connect.Some? then Failure(out.connect.value)
    else
      match out.users
      case Err(e) => Failure(e)
      case Ok(rows) =>
        var groups := Grouped(types, rows);
        var total := TotalUsers(types, groups);
        if total == 0 then Response(200, "No users to notify", None)
        else
          match Dispatch(types, groups, out).outcome
          case Err(e) => Failure(e)
          case Ok(rs) => Response(200, Summary(|rs|, total), Some(rs))
  }

  /** The queries the handler sends on its client after connecting. */
  function Queries(types: seq<string>, out: Outside): seq<Event> {
    [Issued(UsersSql)] +
    (if out.users.Ok? && PhotoType in Dispatch(types, Grouped(types, out.users.value), out).fetched
     then [Issued(ApodSql)] else [])
  }

  // ---------------------------------------------------------------------------
  // The handler

  /** `handler`: the response, and the client when connecting succeeded, which is released
      after everything it was used for, on every path. */
  method Handler(types: seq<string>, out: Outside) returns (resp: Response, db: Option<Client>)
    requires DistinctTypes(types)
    ensures resp == Process(types, out)
    ensures db.Some? <==> out.connect.None?
    ensures db.Some? ==> fresh(db.value) && db.value.log == [Connect] + Queries(types, out) + [End]
  {
    var connected := GetDbClientAwaited(out.connect);
    if connected.Err? {
      resp := Failure(connected.error);
      db := None;
      return;
    }
    var client := connected.value;
    resp := Notify(types, out, client);
    client.Close();
    db := Some(client);
  }

  /** The body of the `try`. */
  method Notify(types: seq<string>, out: Outside, client: Client) returns (resp: Response)
    requires DistinctTypes(types) && out.connect.None?
    modifies client
    ensures resp == Process(types, out)
    ensures client.log == old(client.log) + Queries(types, out)
  {
    var thrown := client.Query(UsersSql, if out.users.Err? then Some(out.users.error) else None);
    if thrown.Some? {
      return Failure(thrown.value);
    }
    var rows := out.users.value;
    var groups := GroupUsers(types, rows);
    var total := TotalUsers(types, groups);
    if total == 0 {
      NoFetchWithoutUsers(types, groups, out);
      return Response(200, "No users to notify", None);
    }
    var outcome := NotifyTypes(types, groups, out, client);
    if outcome.Err? {
      return Failure(outcome.error);
    }
    resp := Response(200, Summary(|outcome.value|, total), Some(outcome.value));
  }

  /** The loop over the types: a type without users is skipped. */
  method NotifyTypes(types: seq<string>, groups: Groups, out: Outside, client: Client)
    returns (r: Result<seq<NotificationResult>, string>)
    requires DistinctTypes(types) && forall t :: t in types ==> t in groups
    modifies client
    ensures r == Dispatch(types, groups, out).outcome
    ensures client.log == old(client.log)
                          + (if PhotoType in Dispatch(types, groups, out).fetched then [Issued(ApodSql)] else [])
  {
    var results: seq<NotificationResult> := [];
    for k := 0 to |types|
      invariant Dispatch(types[..k], groups, out).outcome == Ok(results)
      invariant client.log == old(client.log)
                              + (if PhotoType in Dispatch(types[..k], groups, out).fetched then [Issued(ApodSql)] else [])
    {
      var t := types[k];
      assert types[..k + 1][..k] == types[..k] && types[..k + 1][k] == t;
      var users := groups[t];
      if users != [] {
        assert PhotoType !in Dispatch(types[..k], groups, out).fetched || t != PhotoType by {
          FetchedIn(types[..k], groups, out);
          assert t !in types[..k];
        }
        var delivered := NotifyType(t, users, out, client);
        if delivered.Err? {
          DispatchStops(types, k + 1, groups, out);
          return delivered;
        }
        results := results + delivered.value;
      }
    }
    assert types[..|types|] == types;
    r := Ok(results);
  }

  /** One type with users: its content (the photo type's through the client), then its
      users. */
  method NotifyType(t: string, users: seq<User>, out: Outside, client: Client)
    returns (r: Result<seq<NotificationResult>, string>)
    modifies client
    ensures r == TypeOutcome(t, users, out)
    ensures client.log == old(client.log) + (if t == PhotoType then [Issued(ApodSql)] else [])
  {
    var content: Content;
    if t == PhotoType {
      var thrown := client.Query(ApodSql, if out.apod.Err? then Some(out.apod.error) else None);
      if thrown.Some? {
        return Err(thrown.value);
      }
      if out.apod.value.None? {
        return Err(EmptyApod);
      }
      var row := out.apod.value.value;
      content := Apod(row.0, row.1, row.2);
    } else {
      content := PlaceholderContent(Position(t));
    }
    r := DeliverUsers(t, content, users, out);
  }

  /** The inner loop. */
  method DeliverUsers(t: string, content: Content, users: seq<User>, out: Outside)
    returns (r: Result<seq<NotificationResult>, string>)
    requires t == PhotoType ==> content.Apod?
    ensures r == DeliverAll(t, content, users, out)
  {
    var results: seq<NotificationResult> := [];
    for j := 0 to |users|
      invariant DeliverAll(t, content, users[..j], out) == Ok(results)
    {
      var u := users[j];
      assert users[..j + 1][..j] == users[..j] && users[..j + 1][j] == u;
      var m := FormatMessage(t == PhotoType, content, u.name);
      var failure: Option<string> := None;
      var sid := "";
      var answer := out.send(u.fullPhone, m.body, m.mediaUrls);
      if answer.Err? {
        failure := Some(answer.error);
      } else {
        sid := answer.value;
        var logged := out.logSent(u, t, sid);
        if logged.Some? {
          failure := logged;
        }
      }
      var next: NotificationResult;
      if failure.None? {
        next := NotificationResult(u.userId, u.fullPhone, t, Sent(sid));
      } else {
        var logged := out.logFailed(u, t, failure.value);
        if logged.Some? {
          assert Deliver(t, content, u, out) == Err(logged.value);
          DeliverAllStops(t, content, users, j + 1, out);
          return Err(logged.value);
        }
        next := NotificationResult(u.userId, u.fullPhone, t, Failed(failure.value, m.mediaUrls));
      }
      assert Deliver(t, content, u, out) == Ok(next);
      results := results + [next];
    }
    assert users[..|users|] == users;
    r := Ok(results);
  }

  // ---------------------------------------------------------------------------
  // Properties

  /** An error that escapes ends the inner loop: the later users change nothing. */
  lemma {:induction false} DeliverAllStops(t: string, content: Content, users: seq<User>, j: nat, out: Outside)
    requires t == PhotoType ==> content.Apod?
    requires j <= |users| && DeliverAll(t, content, users[..j], out).Err?
    ensures DeliverAll(t, content, users, out) == DeliverAll(t, content, users[..j], out)
    decreases |users| - j
  {
    if j < |users| {
      assert users[..j + 1][..j] == users[..j];
      DeliverAllStops(t, content, users, j + 1, out);
    } else {
      assert users[..j] == users;
    }
  }

  /** An error that escapes ends the outer loop: no later type is fetched or sent. */
  lemma {:induction false} DispatchStops(types: seq<string>, k: nat, groups: Groups, out: Outside)
    requires forall t :: t in types ==> t in groups
    requires k <= |types| && Dispatch(types[..k], groups, out).outcome.Err?
    ensures Dispatch(types, groups, out) == Dispatch(types[..k], groups, out)
    decreases |types| - k
  {
    if k < |types| {
      assert types[..k + 1][..k] == types[..k];
      DispatchStops(types, k + 1, groups, out);
    } else {
      assert types[..k] == types;
    }
  }

  lemma {:induction false} FetchedIn(types: seq<string>, groups: Groups, out: Outside)
    requires forall t :: t in types ==> t in groups
    ensures forall t :: t in Dispatch(types, groups, out).fetched ==> t in types && groups[t] != []
  {
    if types != [] {
      FetchedIn(types[..|types| - 1], groups, out);
    }
  }

  /** Only types with users have their content fetched: with nobody to notify, the NASA_APOD
      table is never read. */
  lemma NoFetchWithoutUsers(types: seq<string>, groups: Groups, out: Outside)
    requires forall t :: t in types ==> t in groups
    requires TotalUsers(types, groups) == 0
    ensures Dispatch(types, groups, out).fetched == []
  {
    FetchedIn(types, groups, out);
    if Dispatch(types, groups, out).fetched != [] {
      var t := Dispatch(types, groups, out).fetched[0];
      TotalCountsEach(types, groups, t);
    }
  }

  lemma {:induction false} TotalCountsEach(types: seq<string>, groups: Groups, t: string)
    requires forall t :: t in types ==> t in groups
    requires t in types
    ensures |groups[t]| <= TotalUsers(types, groups)
  {
    if types[0] != t {
      TotalCountsEach(types[1..], groups, t);
    }
  }

  /** The results answer the pairs one to one: same length, and each result names its
      pair's type, user and phone number. */
  predicate Answers(rs: seq<NotificationResult>, pairs: seq<(string, User)>) {
    |rs| == |pairs|
    && forall i :: 0 <= i < |rs| ==>
         rs[i].notificationType == pairs[i].0 && rs[i].userId == pairs[i].1.userId
         && rs[i].phoneNumber == pairs[i].1.fullPhone
  }

  lemma AnswersAppend(rs: seq<NotificationResult>, ps: seq<(string, User)>,
                      more: seq<NotificationResult>, qs: seq<(string, User)>)
    requires Answers(rs, ps) && Answers(more, qs)
    ensures Answers(rs + more, ps + qs)
  {
    forall i | 0 <= i < |rs + more|
      ensures (rs + more)[i].notificationType == (ps + qs)[i].0 && (rs + more)[i].userId == (ps + qs)[i].1.userId
              && (rs + more)[i].phoneNumber == (ps + qs)[i].1.fullPhone
    {
      if i >= |rs| {
        assert (rs + more)[i] == more[i - |rs|] && (ps + qs)[i] == qs[i - |ps|];
      }
    }
  }

  /** Every user of a type that completes gets exactly one result, in list order. */
  lemma {:induction false} DeliverAllAnswers(t: string, content: Content, users: seq<User>, out: Outside)
    requires t == PhotoType ==> content.Apod?
    requires DeliverAll(t, content, users, out).Ok?
    ensures Answers(DeliverAll(t, content, users, out).value, PairsOf(t, users))
  {
    if users != [] {
      var init := users[..|users| - 1];
      DeliverAllAnswers(t, content, init, out);
      var last := users[|users| - 1];
      var r := Deliver(t, content, last, out).value;
      assert Answers([r], PairsOf(t, [last]));
      assert PairsOf(t, users) == PairsOf(t, init) + PairsOf(t, [last]);
      AnswersAppend(DeliverAll(t, content, init, out).value, PairsOf(t, init), [r], PairsOf(t, [last]));
    }
  }

  /** When no error escapes there is exactly one result per (type, user) pair, type after
      type and user after user. */
  lemma {:induction false} DispatchAnswers(types: seq<string>, groups: Groups, out: Outside)
    requires forall t :: t in types ==> t in groups
    requires Dispatch(types, groups, out).outcome.Ok?
    ensures Answers(Dispatch(types, groups, out).outcome.value, Pairs(types, groups))
  {
    if types != [] {
      var init := types[..|types| - 1];
      var t := types[|types| - 1];
      var p := Dispatch(init, groups, out);
      DispatchAnswers(init, groups, out);
      if groups[t] == [] {
        assert Pairs(types, groups) == Pairs(init, groups) + [];
      } else {
        var c := ContentOf(t, out).value;
        DeliverAllAnswers(t, c, groups[t], out);
        AnswersAppend(p.outcome.value, Pairs(init, groups), DeliverAll(t, c, groups[t], out).value, PairsOf(t, groups[t]));
      }
    }
  }

  /** The success response holds one result per (type, user) pair, and its summary repeats
      that count as the number of users: each user counted once per type enabled. */
  lemma ResultsPerPair(types: seq<string>, out: Outside)
    requires Process(types, out).results.Some?
    ensures out.users.Ok?
    ensures var rows := out.users.value;
            var rs := Process(types, out).results.value;
            Answers(rs, Pairs(types, Grouped(types, rows)))
            && |rs| == Enrolments(types, rows)
            && Process(types, out) == Response(200, Summary(|rs|, |rs|), Some(rs))
  {
    var groups := Grouped(types, out.users.value);
    DispatchAnswers(types, groups, out);
    PairsCount(types, groups);
    GroupedTotal(types, out.users.value);
  }

  /** "No users to notify" exactly when the query succeeds and no row enables any type. */
  lemma NoUsersResponse(types: seq<string>, out: Outside)
    requires out.connect.None? && out.users.Ok?
    ensures Process(types, out) == Response(200, "No users to notify", None)
            <==> forall i, t :: 0 <= i < |out.users.value| && t in types ==> t !in out.users.value[i].enabled
  {
    NobodyToNotify(types, out.users.value);
  }

  /** Every other response is the 500 with the error's message after a fixed prefix. */
  lemma FailureShape(types: seq<string>, out: Outside)
    requires Process(types, out).statusCode != 200
    ensures Process(types, out).statusCode == 500 && Process(types, out).results.None?
    ensures StartsWith(Process(types, out).message, "Error processing notifications: ")
  {
  }

  /** The types whose content was fetched, when no error escapes, are exactly the types with
      users. */
  lemma {:induction false} FetchedExactly(types: seq<string>, groups: Groups, out: Outside)
    requires forall t :: t in types ==> t in groups
    requires Dispatch(types, groups, out).outcome.Ok?
    ensures forall t :: t in Dispatch(types, groups, out).fetched <==> t in types && groups[t] != []
  {
    FetchedIn(types, groups, out);
    if types != [] {
      FetchedExactly(types[..|types| - 1], groups, out);
      assert forall t :: t in types <==> t in types[..|types| - 1] || t == types[|types| - 1];
    }
  }

  /** An empty NASA_APOD table makes the run fail with its message once the photo type's
      content is fetched. */
  lemma {:induction false} EmptyApodFails(types: seq<string>, groups: Groups, out: Outside)
    requires forall t :: t in types ==> t in groups
    requires out.apod == Ok(None) && PhotoType in Dispatch(types, groups, out).fetched
    ensures Dispatch(types, groups, out).outcome == Err(EmptyApod)
  {
    var init := types[..|types| - 1];
    var t := types[|types| - 1];
    var p := Dispatch(init, groups, out);
    if PhotoType in p.fetched {
      EmptyApodFails(init, groups, out);
    } else {
      assert t == PhotoType;
    }
  }
}

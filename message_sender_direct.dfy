/** The `handler` of backend/functions/message_sender/index.ts: the users due in the current
    UTC hour, grouped by notification type; the content of every type; for each (type,
    user) pair a pending log row, the message, and a sent or failed log row; errors other
    than a failed send are rethrown. The notifications_log table is a class whose rows the
    logging appends to; Twilio, the queries' answers and whether a log insert fails are
    decided outside and passed in. */
module MessageSenderDirect {

  import opened Wrappers
  import opened Text
  import opened UserGrouping
  import opened NotificationMessages
  import opened NotificationWindow

  /** The names the two `switch` statements test. */
  const PhotoType: string := "astronomy_photo_of_the_day"
  const CaseNames: seq<string> :=
    [PhotoType, "celestial_events", "weather_outfit_suggestions", "recipe_suggestions", "sunset_alerts"]

  const NoApod: string := "No NASA APOD data found"

  // ---------------------------------------------------------------------------
  // Selecting the users

  /** A row of `users JOIN notification_preferences`: the user with their truthy preference
      columns, `is_active`, and `utc_notification_time` in seconds after midnight. */
  datatype UserRecord = UserRecord(row: Row, active: bool, notificationTime: nat)

  /** `WHERE u.is_active = true AND start <= u.utc_notification_time < end`, with the
      corrected window. */
  predicate Due(r: UserRecord, hour: nat)
    requires hour < 24
  {
    r.active && Selects(Window(hour), r.notificationTime)
  }

  predicate DueAsWritten(r: UserRecord, hour: nat)
    requires hour < 24
  {
    r.active && Selects(WindowAsWritten(hour), r.notificationTime)
  }

  /** The rows of the records the `WHERE` clause keeps, in table order. */
  function Selected(records: seq<UserRecord>, keep: UserRecord -> bool): seq<Row> {
    if records == [] then []
    else
      var init := Selected(records[..|records| - 1], keep);
      var last := records[|records| - 1];
      if keep(last) then init + [last.row] else init
  }

  /** A row is selected exactly when some kept record holds it. */
  lemma {:induction false} SelectedMembers(records: seq<UserRecord>, keep: UserRecord -> bool, row: Row)
    ensures row in Selected(records, keep) <==> exists i :: 0 <= i < |records| && records[i].row == row && keep(records[i])
  {
    if records != [] {
      var init := records[..|records| - 1];
      SelectedMembers(init, keep, row);
      if exists i :: 0 <= i < |records| && records[i].row == row && keep(records[i]) {
        var i :| 0 <= i < |records| && records[i].row == row && keep(records[i]);
        if i < |records| - 1 {
          assert init[i] == records[i];
        }
      }
      if exists i :: 0 <= i < |init| && init[i].row == row && keep(init[i]) {
        var i :| 0 <= i < |init| && init[i].row == row && keep(init[i]);
        assert records[i] == init[i];
      }
    }
  }

  /** The query as written and corrected. */
  function DueRows(records: seq<UserRecord>, hour: nat): seq<Row>
    requires hour < 24
  {
    Selected(records, r => Due(r, hour))
  }

  function DueRowsAsWritten(records: seq<UserRecord>, hour: nat): seq<Row>
    requires hour < 24
  {
    Selected(records, r => DueAsWritten(r, hour))
  }

  /** An active user with a time of day is due in exactly one run: the one of its hour. */
  lemma DueOnce(r: UserRecord, hour: nat)
    requires hour < 24 && r.notificationTime < 24 * 3600
    ensures Due(r, hour) <==> r.active && hour == r.notificationTime / 3600
  {
    ExactlyOneWindow(r.notificationTime, hour);
  }

  /** As written the query at hour 23 returns no row at all. */
  lemma Hour23SelectsNone(records: seq<UserRecord>, hour: nat)
    requires hour == 23
    ensures DueRowsAsWritten(records, hour) == []
  {
    var rows := DueRowsAsWritten(records, hour);
    if rows != [] {
      SelectedMembers(records, r => DueAsWritten(r, hour), rows[0]);
      var i :| 0 <= i < |records| && records[i].row == rows[0] && DueAsWritten(records[i], hour);
      Hour23SelectsNobody(hour, records[i].notificationTime);
    }
  }

  // ---------------------------------------------------------------------------
  // The notifications log

  datatype DeliveryStatus = Pending | SentStatus | FailedStatus

  datatype LogRow = LogRow(userId: string, cityId: string, notificationType: string, notificationTime: string,
                           sentTime: Option<string>, deliveryStatus: DeliveryStatus, responseMessage: Option<string>)

  /** The row `logNotificationInDatabase` inserts: no sent time for a pending row, and the SID
      as the response of a sent row, the error message otherwise. */
  function LogRowFor(u: User, t: string, status: DeliveryStatus, sid: Option<string>, error: Option<string>, now: string)
    : (row: LogRow)
    ensures row.userId == u.userId && row.cityId == u.cityId && row.notificationType == t && row.deliveryStatus == status
    ensures row.sentTime.None? <==> status == Pending
    ensures row.responseMessage == if status == SentStatus then sid else error
  {
    LogRow(u.userId, u.cityId, t, now, if status == Pending then None else Some(now), status,
           if status == SentStatus then sid else error)
  }

  /** The notifications_log table. */
  class NotificationsLog {
    var rows: seq<LogRow>

    constructor ()
      ensures rows == []
    {
      rows := [];
    }

    /** `logNotificationInDatabase`: the row is inserted, or the insert fails and the error
        is swallowed. */
    method Log(u: User, t: string, status: DeliveryStatus, sid: Option<string>, error: Option<string>,
               now: string, fails: bool)
      modifies this
      ensures rows == old(rows) + (if fails then [] else [LogRowFor(u, t, status, sid, error, now)])
    {
      if !fails {
        rows := rows + [LogRowFor(u, t, status, sid, error, now)];
      }
    }
  }

  // ---------------------------------------------------------------------------
  // The handler as functions

  datatype Status = Sent(sid: string) | Failed(error: string)

  datatype NotificationResult = NotificationResult(userId: string, phoneNumber: string, notificationType: string, status: Status)

  datatype Response = Response(statusCode: int, message: string, results: Option<seq<NotificationResult>>)

  /** The answers of the outside world: the rows of the users query or the error of
      connecting or querying, the latest NASA_APOD row (`None` for an empty table) or its
      error, what Twilio answers a message, and whether the insert of a log row fails. */
  datatype Outside = Outside(
    users: Result<seq<UserRecord>, string>,
    apod: Result<Option<(string, string, string)>, string>,
    send: (string, string, Option<seq<string>>) -> Result<string, string>,
    logFails: (User, string, DeliveryStatus) -> bool)

  function Position(t: string): nat {
    if t == CaseNames[1] then 1 else if t == CaseNames[2] then 2 else if t == CaseNames[3] then 3
    else if t == CaseNames[4] then 4 else 5
  }

  /** `getNotificationContent`. */
  function ContentOf(t: string, out: Outside): (r: Result<Content, string>)
    ensures r.Ok? ==> (r.value.Apod? <==> t == PhotoType)
    ensures r.Err? <==> t == PhotoType && (out.apod.Err? || out.apod.value.None?)
  {
    if t == PhotoType then
      match out.apod
      case Err(e) => Err(e)
      case Ok(None) => Err(NoApod)
      case Ok(Some(row)) => Ok(Apod(row.0, row.1, row.2))
    else Ok(PlaceholderContent(Position(t)))
  }

  function Logged(out: Outside, u: User, t: string, status: DeliveryStatus, sid: Option<string>,
                  error: Option<string>, now: string): seq<LogRow>
  {
    if out.logFails(u, t, status) then [] else [LogRowFor(u, t, status, sid, error, now)]
  }

  /** What one user's delivery leaves behind: the rows logged and the result. */
  datatype Delivery = Delivery(logs: seq<LogRow>, result: NotificationResult)

  /** What the inner loop leaves behind: the rows logged and the results, in user order. */
  datatype Batch = Batch(logs: seq<LogRow>, results: seq<NotificationResult>)

  /** What a type, or the outer loop up to some type, leaves behind: the rows logged and
      the results so far, or the error that is rethrown. */
  datatype Step = Step(logs: seq<LogRow>, outcome: Result<seq<NotificationResult>, string>)

  /** What the handler leaves behind: the rows logged and its response or rethrown error. */
  datatype Outcome = Outcome(logs: seq<LogRow>, response: Result<Response, string>)

  /** One pass of the inner loop. */
  function Deliver(t: string, content: Content, u: User, out: Outside, now: string): Delivery
    requires t == PhotoType ==> content.Apod?
  {
    var pending := Logged(out, u, t, Pending, None, None, now);
    var m := FormatMessage(t == PhotoType, content, u.name);
    match out.send(u.fullPhone, m.body, m.mediaUrls)
    case Ok(sid) =>
      Delivery(pending + Logged(out, u, t, SentStatus, Some(sid), None, now),
               NotificationResult(u.userId, u.fullPhone, t, Sent(sid)))
    case Err(e) =>
      Delivery(pending + Logged(out, u, t, FailedStatus, None, Some(e), now),
               NotificationResult(u.userId, u.fullPhone, t, Failed(e)))
  }

  function DeliverAll(t: string, content: Content, users: seq<User>, out: Outside, now: string): Batch
    requires t == PhotoType ==> content.Apod?
  {
    if users == [] then Batch([], [])
    else
      var init := DeliverAll(t, content, users[..|users| - 1], out, now);
      var last := Deliver(t, content, users[|users| - 1], out, now);
      Batch(init.logs + last.logs, init.results + [last.result])
  }

  /** The outer loop over the types: the content of every type is fetched, whether or not
      the type has users, and a failed fetch is rethrown. */
  function Dispatch(types: seq<string>, groups: Groups, out: Outside, now: string): Step
    requires forall t :: t in types ==> t in groups
  {
    if types == [] then Step([], Ok([]))
    else
      var init := Dispatch(types[..|types| - 1], groups, out, now);
      var t := types[|types| - 1];
      if init.outcome.Err? then init
      else Then(init, TypeStep(t, groups[t], out, now))
  }

  /** A type's step after the steps before it: its rows follow theirs when it succeeds, and
      its error replaces their results when it fails. */
  function Then(init: Step, step: Step): Step
    requires init.outcome.Ok?
  {
    match step.outcome
    case Err(e) => Step(init.logs, Err(e))
    case Ok(rs) => Step(init.logs + step.logs, Ok(init.outcome.value + rs))
  }

  /** One type: its content, then the inner loop over its users. */
  function TypeStep(t: string, users: seq<User>, out: Outside, now: string): Step {
    match ContentOf(t, out)
    case Err(e) => Step([], Err(e))
    case Ok(c) =>
      var batch := DeliverAll(t, c, users, out, now);
      Step(batch.logs, Ok(batch.results))
  }

  function Summary(processed: nat, total: nat): string {
    "Successfully processed " + NatToString(processed) + " notifications for " + NatToString(total) + " users"
  }

  /** The rows logged and the response, or the error the handler rethrows, for the
      selected rows. */
  function Process(types: seq<string>, rows: seq<Row>, out: Outside, now: string): Outcome
  {
    var groups := Grouped(types, rows);
    var total := TotalUsers(types, groups);
    if total == 0 then Outcome([], Ok(Response(200, "No users to notify", None)))
    else
      var step := Dispatch(types, groups, out, now);
      match step.outcome
      case Err(e) => Outcome(step.logs, Err(e))
      case Ok(rs) => Outcome(step.logs, Ok(Response(200, Summary(|rs|, total), Some(rs))))
  }

  /** The handler at UTC hour `hour`, selecting with the window as written. */
  function Run(types: seq<string>, hour: nat, out: Outside, now: string): Outcome
    requires hour < 24
  {
    match out.users
    case Err(e) => Outcome([], Err(e))
    case Ok(records) => Process(types, DueRowsAsWritten(records, hour), out, now)
  }

  // ---------------------------------------------------------------------------
  // The handler

  /** `handler`: the response or the rethrown error, with the log rows appended to the
      table. `now` is the clock's time, the same for every row. */
  method Handler(types: seq<string>, hour: nat, out: Outside, now: string, log: NotificationsLog)
    returns (r: Result<Response, string>)
    requires DistinctTypes(types) && hour < 24
    modifies log
    ensures r == Run(types, hour, out, now).response
    ensures log.rows == old(log.rows) + Run(types, hour, out, now).logs
  {
    if out.users.Err? {
      return Err(out.users.error);
    }
    var rows := DueRowsAsWritten(out.users.value, hour);
    var groups := GroupUsers(types, rows);
    var total := TotalUsers(types, groups);
    if total == 0 {
      return Ok(Response(200, "No users to notify", None));
    }
    var outcome := NotifyTypes(types, groups, out, now, log);
    if outcome.Err? {
      return Err(outcome.error);
    }
    r := Ok(Response(200, Summary(|outcome.value|, total), Some(outcome.value)));
  }

  method NotifyTypes(types: seq<string>, groups: Groups, out: Outside, now: string, log: NotificationsLog)
    returns (r: Result<seq<NotificationResult>, string>)
    requires forall t :: t in types ==> t in groups
    modifies log
    ensures r == Dispatch(types, groups, out, now).outcome
    ensures log.rows == old(log.rows) + Dispatch(types, groups, out, now).logs
  {
    var results: seq<NotificationResult> := [];
    ghost var logged: seq<LogRow> := [];
    for k := 0 to |types|
      invariant Dispatch(types[..k], groups, out, now) == Step(logged, Ok(results))
      invariant log.rows == old(log.rows) + logged
    {
      DispatchSnoc(types, k, groups, out, now);
      ghost var step := TypeStep(types[k], groups[types[k]], out, now);
      var outcome := NotifyType(types[k], groups[types[k]], out, now, log);
      AppendAssoc(old(log.rows), logged, step.logs);
      if outcome.Err? {
        DispatchStops(types, k + 1, groups, out, now);
        return outcome;
      }
      logged := logged + step.logs;
      results := results + outcome.value;
    }
    assert types[..|types|] == types;
    r := Ok(results);
  }

  method NotifyType(t: string, users: seq<User>, out: Outside, now: string, log: NotificationsLog)
    returns (r: Result<seq<NotificationResult>, string>)
    modifies log
    ensures r == TypeStep(t, users, out, now).outcome
    ensures log.rows == old(log.rows) + TypeStep(t, users, out, now).logs
  {
    var content: Content;
    if t == PhotoType {
      if out.apod.Err? {
        return Err(out.apod.error);
      }
      if out.apod.value.None? {
        return Err(NoApod);
      }
      var row := out.apod.value.value;
      content := Apod(row.0, row.1, row.2);
    } else {
      content := PlaceholderContent(Position(t));
    }
    var results := DeliverUsers(t, content, users, out, now, log);
    r := Ok(results);
  }

  method DeliverUsers(t: string, content: Content, users: seq<User>, out: Outside, now: string, log: NotificationsLog)
    returns (results: seq<NotificationResult>)
    requires t == PhotoType ==> content.Apod?
    modifies log
    ensures results == DeliverAll(t, content, users, out, now).results
    ensures log.rows == old(log.rows) + DeliverAll(t, content, users, out, now).logs
  {
    results := [];
    ghost var logged: seq<LogRow> := [];
    for j := 0 to |users|
      invariant DeliverAll(t, content, users[..j], out, now) == Batch(logged, results)
      invariant log.rows == old(log.rows) + logged
    {
      DeliverAllSnoc(t, content, users, j, out, now);
      ghost var d := Deliver(t, content, users[j], out, now);
      var next := DeliverOne(t, content, users[j], out, now, log);
      AppendAssoc(old(log.rows), logged, d.logs);
      logged := logged + d.logs;
      results := results + [next];
    }
    assert users[..|users|] == users;
  }

  /** One user: the pending row, the message, and the sent or failed row. */
  method DeliverOne(t: string, content: Content, u: User, out: Outside, now: string, log: NotificationsLog)
    returns (next: NotificationResult)
    requires t == PhotoType ==> content.Apod?
    modifies log
    ensures next == Deliver(t, content, u, out, now).result
    ensures log.rows == old(log.rows) + Deliver(t, content, u, out, now).logs
  {
    log.Log(u, t, Pending, None, None, now, out.logFails(u, t, Pending));
    var m := FormatMessage(t == PhotoType, content, u.name);
    var answer := out.send(u.fullPhone, m.body, m.mediaUrls);
    if answer.Ok? {
      log.Log(u, t, SentStatus, Some(answer.value), None, now, out.logFails(u, t, SentStatus));
      next := NotificationResult(u.userId, u.fullPhone, t, Sent(answer.value));
    } else {
      log.Log(u, t, FailedStatus, None, Some(answer.error), now, out.logFails(u, t, FailedStatus));
      next := NotificationResult(u.userId, u.fullPhone, t, Failed(answer.error));
    }
  }

  lemma {:induction false} DispatchStops(types: seq<string>, k: nat, groups: Groups, out: Outside, now: string)
    requires forall t :: t in types ==> t in groups
    requires k <= |types| && Dispatch(types[..k], groups, out, now).outcome.Err?
    ensures Dispatch(types, groups, out, now) == Dispatch(types[..k], groups, out, now)
    decreases |types| - k
  {
    if k < |types| {
      assert types[..k + 1][..k] == types[..k];
      DispatchStops(types, k + 1, groups, out, now);
    } else {
      assert types[..k] == types;
    }
  }

  /** The inner loop's step at index `j`. */
  lemma DeliverAllSnoc(t: string, content: Content, users: seq<User>, j: nat, out: Outside, now: string)
    requires t == PhotoType ==> content.Apod?
    requires j < |users|
    ensures DeliverAll(t, content, users[..j + 1], out, now)
            == Batch(DeliverAll(t, content, users[..j], out, now).logs + Deliver(t, content, users[j], out, now).logs,
                     DeliverAll(t, content, users[..j], out, now).results + [Deliver(t, content, users[j], out, now).result])
  {
    assert users[..j + 1][..j] == users[..j];
  }

  /** Helper: sequence concatenation regrouped. Not a modelled property. */
  lemma AppendAssoc<T>(a: seq<T>, b: seq<T>, c: seq<T>)
    ensures a + b + c == a + (b + c)
  {
  }

  /** The outer loop's step at index `k`, once the earlier types have succeeded. */
  lemma DispatchSnoc(types: seq<string>, k: nat, groups: Groups, out: Outside, now: string)
    requires forall t :: t in types ==> t in groups
    requires k < |types| && Dispatch(types[..k], groups, out, now).outcome.Ok?
    ensures Dispatch(types[..k + 1], groups, out, now)
            == Then(Dispatch(types[..k], groups, out, now), TypeStep(types[k], groups[types[k]], out, now))
  {
    assert types[..k + 1][..k] == types[..k];
  }

  // ---------------------------------------------------------------------------
  // Properties

  /** The results answer the pairs one to one: same length, and each result names its
      pair's type, user and phone number. */
  predicate Answers(rs: seq<NotificationResult>, pairs: seq<(string, User)>) {
    |rs| == |pairs|
    && forall i :: 0 <= i < |rs| ==>
         rs[i].notificationType == pairs[i].0 && rs[i].userId == pairs[i].1.userId
         && rs[i].phoneNumber == pairs[i].1.fullPhone
  }

  lemma AnswersAppend(rs: seq<NotificationResult>, ps: seq<(string, User)>,
                      more: seq<NotificationResult>, qs: seq<(string, User)>)
    requires Answers(rs, ps) && Answers(more, qs)
    ensures Answers(rs + more, ps + qs)
  {
    forall i | 0 <= i < |rs + more|
      ensures (rs + more)[i].notificationType == (ps + qs)[i].0 && (rs + more)[i].userId == (ps + qs)[i].1.userId
              && (rs + more)[i].phoneNumber == (ps + qs)[i].1.fullPhone
    {
      if i >= |rs| {
        assert (rs + more)[i] == more[i - |rs|] && (ps + qs)[i] == qs[i - |ps|];
      }
    }
  }

  /** Every user of a type gets exactly one result, in list order: a failed send is a
      result too. */
  lemma {:induction false} DeliverAllAnswers(t: string, content: Content, users: seq<User>, out: Outside, now: string)
    requires t == PhotoType ==> content.Apod?
    ensures Answers(DeliverAll(t, content, users, out, now).results, PairsOf(t, users))
  {
    if users != [] {
      var init := users[..|users| - 1];
      DeliverAllAnswers(t, content, init, out, now);
      var last := users[|users| - 1];
      var r := Deliver(t, content, last, out, now).result;
      assert Answers([r], PairsOf(t, [last]));
      assert PairsOf(t, users) == PairsOf(t, init) + PairsOf(t, [last]);
      AnswersAppend(DeliverAll(t, content, init, out, now).results, PairsOf(t, init), [r], PairsOf(t, [last]));
    }
  }

  /** When no error escapes there is exactly one result per (type, user) pair, type after
      type and user after user. */
  lemma {:induction false} DispatchAnswers(types: seq<string>, groups: Groups, out: Outside, now: string)
    requires forall t :: t in types ==> t in groups
    requires Dispatch(types, groups, out, now).outcome.Ok?
    ensures Answers(Dispatch(types, groups, out, now).outcome.value, Pairs(types, groups))
  {
    if types != [] {
      var init := types[..|types| - 1];
      var t := types[|types| - 1];
      DispatchAnswers(init, groups, out, now);
      var c := ContentOf(t, out).value;
      DeliverAllAnswers(t, c, groups[t], out, now);
      AnswersAppend(Dispatch(init, groups, out, now).outcome.value, Pairs(init, groups),
                    DeliverAll(t, c, groups[t], out, now).results, PairsOf(t, groups[t]));
    }
  }

  /** A success response holds one result per (type, due user) pair, and its summary
      repeats that count as the number of users: each user counted once per type enabled. */
  lemma ResultsPerPair(types: seq<string>, hour: nat, out: Outside, now: string)
    requires hour < 24
    requires Run(types, hour, out, now).response.Ok?
    requires Run(types, hour, out, now).response.value.results.Some?
    ensures out.users.Ok?
    ensures var rows := DueRowsAsWritten(out.users.value, hour);
            var rs := Run(types, hour, out, now).response.value.results.value;
            Answers(rs, Pairs(types, Grouped(types, rows)))
            && |rs| == Enrolments(types, rows)
            && Run(types, hour, out, now).response.value == Response(200, Summary(|rs|, |rs|), Some(rs))
  {
    var rows := DueRowsAsWritten(out.users.value, hour);
    var groups := Grouped(types, rows);
    DispatchAnswers(types, groups, out, now);
    PairsCount(types, groups);
    GroupedTotal(types, rows);
  }

  /** The log rows of one user, when no insert fails: a pending row, then a row whose status
      and response message follow Twilio's answer. */
  predicate LogsOf(logs: seq<LogRow>, r: NotificationResult) {
    |logs| == 2
    && logs[0].userId == r.userId && logs[0].notificationType == r.notificationType
    && logs[0].deliveryStatus == Pending && logs[0].sentTime.None?
    && logs[1].userId == r.userId && logs[1].notificationType == r.notificationType
    && logs[1].sentTime.Some?
    && match r.status
       case Sent(sid) => logs[1].deliveryStatus == SentStatus && logs[1].responseMessage == Some(sid)
       case Failed(e) => logs[1].deliveryStatus == FailedStatus && logs[1].responseMessage == Some(e)
  }

  /** Two rows per result, in result order. */
  predicate Journal(logs: seq<LogRow>, rs: seq<NotificationResult>) {
    |logs| == 2 * |rs| && forall i :: 0 <= i < |rs| ==> LogsOf(logs[2 * i..2 * i + 2], rs[i])
  }

  /** No log insert fails. */
  ghost predicate Reliable(out: Outside) {
    forall u, t, status :: !out.logFails(u, t, status)
  }

  lemma JournalAppend(logs: seq<LogRow>, rs: seq<NotificationResult>, more: seq<LogRow>, r: NotificationResult)
    requires Journal(logs, rs) && LogsOf(more, r)
    ensures Journal(logs + more, rs + [r])
  {
    var all := logs + more;
    forall i | 0 <= i < |rs| + 1
      ensures LogsOf(all[2 * i..2 * i + 2], (rs + [r])[i])
    {
      if i < |rs| {
        assert all[2 * i..2 * i + 2] == logs[2 * i..2 * i + 2];
      } else {
        assert all[2 * i..2 * i + 2] == more;
      }
    }
  }

  /** With reliable logging every user of a type leaves a pending row and then the row of
      their result. */
  lemma {:induction false} DeliverAllJournal(t: string, content: Content, users: seq<User>, out: Outside, now: string)
    requires t == PhotoType ==> content.Apod?
    requires Reliable(out)
    ensures Journal(DeliverAll(t, content, users, out, now).logs, DeliverAll(t, content, users, out, now).results)
  {
    if users != [] {
      var init := users[..|users| - 1];
      DeliverAllJournal(t, content, init, out, now);
      var d := Deliver(t, content, users[|users| - 1], out, now);
      assert LogsOf(d.logs, d.result);
      JournalAppend(DeliverAll(t, content, init, out, now).logs, DeliverAll(t, content, init, out, now).results,
                    d.logs, d.result);
    }
  }

  /** ... and so does every user of every type when no error escapes. */
  lemma {:induction false} DispatchJournal(types: seq<string>, groups: Groups, out: Outside, now: string)
    requires forall t :: t in types ==> t in groups
    requires Reliable(out) && Dispatch(types, groups, out, now).outcome.Ok?
    ensures Journal(Dispatch(types, groups, out, now).logs, Dispatch(types, groups, out, now).outcome.value)
  {
    if types != [] {
      var init := types[..|types| - 1];
      var t := types[|types| - 1];
      DispatchJournal(init, groups, out, now);
      var c := ContentOf(t, out).value;
      DeliverAllJournal(t, c, groups[t], out, now);
      JournalConcat(Dispatch(init, groups, out, now).logs, Dispatch(init, groups, out, now).outcome.value,
                    DeliverAll(t, c, groups[t], out, now).logs, DeliverAll(t, c, groups[t], out, now).results);
    }
  }

  lemma JournalConcat(logs: seq<LogRow>, rs: seq<NotificationResult>, more: seq<LogRow>, qs: seq<NotificationResult>)
    requires Journal(logs, rs) && Journal(more, qs)
    ensures Journal(logs + more, rs + qs)
  {
    var all := logs + more;
    forall i | 0 <= i < |rs| + |qs|
      ensures LogsOf(all[2 * i..2 * i + 2], (rs + qs)[i])
    {
      if i < |rs| {
        assert all[2 * i..2 * i + 2] == logs[2 * i..2 * i + 2];
      } else {
        var j := i - |rs|;
        assert all[2 * i..2 * i + 2] == more[2 * j..2 * j + 2];
      }
    }
  }

  /** A successful run with reliable logging leaves two rows per result in the table. */
  lemma RunJournal(types: seq<string>, hour: nat, out: Outside, now: string)
    requires hour < 24 && Reliable(out)
    requires Run(types, hour, out, now).response.Ok?
    ensures var o := Run(types, hour, out, now);
            var rs := o.response.value.results;
            if rs.None? then o.logs == [] else Journal(o.logs, rs.value)
  {
    var rows := DueRowsAsWritten(out.users.value, hour);
    var groups := Grouped(types, rows);
    if TotalUsers(types, groups) != 0 {
      DispatchJournal(types, groups, out, now);
    }
  }

  /** The same world with a different verdict on the log inserts. */
  function WithLogging(out: Outside, fails: (User, string, DeliveryStatus) -> bool): (o: Outside)
    ensures o.users == out.users && o.apod == out.apod && o.send == out.send && o.logFails == fails
  {
    out.(logFails := fails)
  }

  /** A failed log insert is swallowed: it changes the rows, never the results. */
  lemma {:induction false} DeliverAllIgnoresLogging(t: string, content: Content, users: seq<User>, out: Outside,
                                                    fails: (User, string, DeliveryStatus) -> bool, now: string)
    requires t == PhotoType ==> content.Apod?
    ensures DeliverAll(t, content, users, WithLogging(out, fails), now).results == DeliverAll(t, content, users, out, now).results
  {
    if users != [] {
      DeliverAllIgnoresLogging(t, content, users[..|users| - 1], out, fails, now);
    }
  }

  lemma {:induction false} DispatchIgnoresLogging(types: seq<string>, groups: Groups, out: Outside,
                                                  fails: (User, string, DeliveryStatus) -> bool, now: string)
    requires forall t :: t in types ==> t in groups
    ensures Dispatch(types, groups, WithLogging(out, fails), now).outcome == Dispatch(types, groups, out, now).outcome
  {
    if types != [] {
      var t := types[|types| - 1];
      DispatchIgnoresLogging(types[..|types| - 1], groups, out, fails, now);
      if ContentOf(t, out).Ok? {
        DeliverAllIgnoresLogging(t, ContentOf(t, out).value, groups[t], out, fails, now);
      }
    }
  }

  /** The response does not depend on whether the log inserts fail. */
  lemma LoggingIrrelevant(types: seq<string>, hour: nat, out: Outside, fails: (User, string, DeliveryStatus) -> bool,
                          now: string)
    requires hour < 24
    ensures Run(types, hour, WithLogging(out, fails), now).response == Run(types, hour, out, now).response
  {
    if out.users.Ok? {
      var groups := Grouped(types, DueRowsAsWritten(out.users.value, hour));
      DispatchIgnoresLogging(types, groups, out, fails, now);
    }
  }

  /** The photo type's content is missing: the APOD query fails or finds no row. */
  predicate NoContent(out: Outside) {
    out.apod.Err? || out.apod.value.None?
  }

  /** The outer loop fails exactly when the photo type is listed and its content is
      missing; every other type's content is a fixed text. */
  lemma {:induction false} DispatchFails(types: seq<string>, groups: Groups, out: Outside, now: string)
    requires forall t :: t in types ==> t in groups
    ensures Dispatch(types, groups, out, now).outcome.Err? <==> PhotoType in types && NoContent(out)
  {
    if types != [] {
      var init := types[..|types| - 1];
      DispatchFails(init, groups, out, now);
      assert PhotoType in types <==> PhotoType in init || types[|types| - 1] == PhotoType;
    }
  }

  /** The handler rethrows exactly when the users query fails, or some due user is to be
      notified while the photo type is listed and its content is missing. */
  lemma RunFails(types: seq<string>, hour: nat, out: Outside, now: string)
    requires hour < 24
    ensures Run(types, hour, out, now).response.Err?
            <==> out.users.Err?
                 || (TotalUsers(types, Grouped(types, DueRowsAsWritten(out.users.value, hour))) > 0
                     && PhotoType in types && NoContent(out))
  {
    if out.users.Ok? {
      DispatchFails(types, Grouped(types, DueRowsAsWritten(out.users.value, hour)), out, now);
    }
  }

  /** "No users to notify", with nothing logged, exactly when the users query succeeds and no
      due row enables a listed type. */
  lemma NoUsersResponse(types: seq<string>, hour: nat, out: Outside, now: string)
    requires hour < 24 && out.users.Ok?
    ensures var rows := DueRowsAsWritten(out.users.value, hour);
            Run(types, hour, out, now) == Outcome([], Ok(Response(200, "No users to notify", None)))
            <==> forall i, t :: 0 <= i < |rows| && t in types ==> t !in rows[i].enabled
  {
    NobodyToNotify(types, DueRowsAsWritten(out.users.value, hour));
  }

  /** With the window as written, the run at 23:00 UTC answers "No users to notify" whatever
      the table holds. */
  lemma Hour23NobodyNotified(types: seq<string>, hour: nat, out: Outside, now: string)
    requires hour == 23 && out.users.Ok?
    ensures Run(types, hour, out, now) == Outcome([], Ok(Response(200, "No users to notify", None)))
  {
    Hour23SelectsNone(out.users.value, hour);
    NobodyToNotify(types, []);
  }

  /** In every other hour the query as written selects exactly the due users. */
  lemma {:induction false} DueRowsAgree(records: seq<UserRecord>, hour: nat)
    requires hour < 23
    ensures DueRowsAsWritten(records, hour) == DueRows(records, hour)
  {
    if records != [] {
      var last := records[|records| - 1];
      DueRowsAgree(records[..|records| - 1], hour);
      WindowsAgree(hour);
      assert DueAsWritten(last, hour) == Due(last, hour);
    }
  }
}

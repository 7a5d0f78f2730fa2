/** The connection helpers of the database modules: `getDbClient`, `executeTransaction` and
    `closeDbClient` (shared/src/db.ts, backend/functions/shared/db.ts, shared/db.ts). The
    client is a log of what was sent to Postgres; whether each query, the callback or the
    connection attempt fails is decided outside and passed in (`None` for success,
    `Some(error)` for the error it throws). */
module Transactions {

  import opened Wrappers

  datatype Event = Connect | Issued(sql: string) | RanCallback | End

  class Client {
    var log: seq<Event>

    constructor ()
      ensures log == []
    {
      log := [];
    }

    /** `await client.query(sql)`: the query is sent; it completes or throws `outcome`. */
    method Query<E>(sql: string, outcome: Option<E>) returns (thrown: Option<E>)
      modifies this
      ensures log == old(log) + [Issued(sql)] && thrown == outcome
    {
      log := log + [Issued(sql)];
      thrown := outcome;
    }

    /** `await callback()` */
    method RunCallback<T, E>(outcome: Result<T, E>) returns (r: Result<T, E>)
      modifies this
      ensures log == old(log) + [RanCallback] && r == outcome
    {
      log := log + [RanCallback];
      r := outcome;
    }

    /** `closeDbClient`: `await client.end()`. */
    method Close()
      modifies this
      ensures log == old(log) + [End]
    {
      log := log + [End];
    }
  }

  /** backend/functions/shared/db.ts and shared/db.ts: the connection is awaited, so a
      failed connection throws from `getDbClient` itself. */
  method GetDbClientAwaited<E>(connectOutcome: Option<E>) returns (r: Result<Client, E>)
    ensures connectOutcome.Some? ==> r == Err(connectOutcome.value)
    ensures connectOutcome.None? ==> r.Ok? && fresh(r.value) && r.value.log == [Connect]
  {
    var client := new Client();
    client.log := client.log + [Connect];
    if connectOutcome.Some? {
      return Err(connectOutcome.value);
    }
    r := Ok(client);
  }

  /** shared/src/db.ts: `connect` is started but not awaited, so the client is returned
      whatever the connection attempt will do. */
  method GetDbClientUnawaited() returns (client: Client)
    ensures fresh(client) && client.log == [Connect]
  {
    client := new Client();
    client.log := client.log + [Connect];
  }

  /** What a transaction sends and what it returns or throws. `beginInsideTry` tells the two
      shapes of `executeTransaction` apart: whether a failing BEGIN is followed by ROLLBACK. */
  function Transaction<T, E>(beginInsideTry: bool, begin: Option<E>, callback: Result<T, E>,
                             commit: Option<E>, rollback: Option<E>): (seq<Event>, Result<T, E>)
  {
    var failed: Option<(seq<Event>, E)> :=
      if begin.Some? then Some(([Issued("BEGIN")], begin.value))
      else if callback.Err? then Some(([Issued("BEGIN"), RanCallback], callback.error))
      else if commit.Some? then Some(([Issued("BEGIN"), RanCallback, Issued("COMMIT")], commit.value))
      else None;
    match failed
    case None => ([Issued("BEGIN"), RanCallback, Issued("COMMIT")], Ok(callback.value))
    case Some(f) =>
      if begin.Some? && !beginInsideTry then (f.0, Err(f.1))
      else (f.0 + [Issued("ROLLBACK")], Err(rollback.GetOr(f.1)))
  }

  /** `executeTransaction` of shared/src/db.ts and backend/functions/shared/db.ts: BEGIN,
      the callback and COMMIT all inside `try`; the `catch` sends ROLLBACK and rethrows. */
  method ExecuteTransaction<T, E>(client: Client, begin: Option<E>, callback: Result<T, E>,
                                  commit: Option<E>, rollback: Option<E>) returns (r: Result<T, E>)
    modifies client
    ensures client.log == old(client.log) + Transaction(true, begin, callback, commit, rollback).0
    ensures r == Transaction(true, begin, callback, commit, rollback).1
  {
    var error: E;
    var thrown := client.Query("BEGIN", begin);
    if thrown.None? {
      var result := client.RunCallback(callback);
      if result.Ok? {
        thrown := client.Query("COMMIT", commit);
        if thrown.None? {
          return Ok(result.value);
        }
        error := thrown.value;
      } else {
        error := result.error;
      }
    } else {
      error := thrown.value;
    }
    var rollbackThrown := client.Query("ROLLBACK", rollback);
    if rollbackThrown.Some? {
      return Err(rollbackThrown.value);
    }
    r := Err(error);
  }

  /** `executeTransaction` of shared/db.ts: BEGIN is sent before `try`, so its failure
      propagates without ROLLBACK; the callback and COMMIT are inside `try`. */
  method ExecuteTransactionBeginOutside<T, E>(client: Client, begin: Option<E>, callback: Result<T, E>,
                                              commit: Option<E>, rollback: Option<E>) returns (r: Result<T, E>)
    modifies client
    ensures client.log == old(client.log) + Transaction(false, begin, callback, commit, rollback).0
    ensures r == Transaction(false, begin, callback, commit, rollback).1
  {
    var thrown := client.Query("BEGIN", begin);
    if thrown.Some? {
      return Err(thrown.value);
    }
    var error: E;
    var result := client.RunCallback(callback);
    if result.Ok? {
      thrown := client.Query("COMMIT", commit);
      if thrown.None? {
        return Ok(result.value);
      }
      error := thrown.value;
    } else {
      error := result.error;
    }
    var rollbackThrown := client.Query("ROLLBACK", rollback);
    if rollbackThrown.Some? {
      return Err(rollbackThrown.value);
    }
    r := Err(error);
  }

  // ---------------------------------------------------------------------------
  // Properties of both shapes

  /** The transaction returns the callback's value iff BEGIN, the callback and COMMIT all
      succeed, and then exactly BEGIN, one callback run and COMMIT were sent. */
  lemma TransactionCommits<T, E>(beginInsideTry: bool, begin: Option<E>, callback: Result<T, E>,
                                 commit: Option<E>, rollback: Option<E>)
    ensures Transaction(beginInsideTry, begin, callback, commit, rollback).1.Ok?
            <==> begin.None? && callback.Ok? && commit.None?
    ensures begin.None? && callback.Ok? && commit.None? ==>
              Transaction(beginInsideTry, begin, callback, commit, rollback)
              == ([Issued("BEGIN"), RanCallback, Issued("COMMIT")], Ok(callback.value))
  {
  }

  function CountCallbacks(events: seq<Event>): nat {
    if events == [] then 0
    else CountCallbacks(events[..|events| - 1]) + if events[|events| - 1] == RanCallback then 1 else 0
  }

  /** The callback runs at most once, and only after BEGIN succeeded; COMMIT is sent only
      after the callback succeeded; nothing follows ROLLBACK. */
  lemma {:induction false} TransactionOrder<T, E>(beginInsideTry: bool, begin: Option<E>, callback: Result<T, E>,
                                                 commit: Option<E>, rollback: Option<E>)
    ensures var events := Transaction(beginInsideTry, begin, callback, commit, rollback).0;
            CountCallbacks(events) == (if begin.None? then 1 else 0)
            && (Issued("COMMIT") in events <==> begin.None? && callback.Ok?)
            && events[0] == Issued("BEGIN")
  {
    var events := Transaction(beginInsideTry, begin, callback, commit, rollback).0;
    var b, c, m, rb := Issued("BEGIN"), Issued("COMMIT"), RanCallback, Issued("ROLLBACK");
    assert [b][..0] == [] && [b, m][..1] == [b] && [b, m, c][..2] == [b, m];
    assert (([b] + [rb]))[..1] == [b];
    assert ([b, m] + [rb])[..2] == [b, m];
    assert ([b, m, c] + [rb])[..3] == [b, m, c];
    assert CountCallbacks([b]) == 0 && CountCallbacks([b, m]) == 1 && CountCallbacks([b, m, c]) == 1;
    assert CountCallbacks([b] + [rb]) == 0;
    assert CountCallbacks([b, m] + [rb]) == 1;
    assert CountCallbacks([b, m, c] + [rb]) == 1;
  }

  /** When the transaction fails, ROLLBACK is the last query sent, except for a failed BEGIN
      in the shape that sends BEGIN before `try`; the error thrown is the original one
      unless ROLLBACK itself throws. */
  lemma TransactionRollsBack<T, E>(beginInsideTry: bool, begin: Option<E>, callback: Result<T, E>,
                                   commit: Option<E>, rollback: Option<E>)
    requires begin.Some? || callback.Err? || commit.Some?
    ensures var (events, r) := Transaction(beginInsideTry, begin, callback, commit, rollback);
            var original := if begin.Some? then begin.value
                            else if callback.Err? then callback.error else commit.value;
            if begin.Some? && !beginInsideTry then
              events == [Issued("BEGIN")] && r == Err(original)
            else
              events[|events| - 1] == Issued("ROLLBACK")
              && r == Err(if rollback.Some? then rollback.value else original)
  {
  }
}

/** `getUsersToNotify`'s grouping of the selected users by notification type, the same in
    backend/functions/message-sender/index.ts and backend/functions/message_sender/index.ts,
    and the `totalUsers` count of both handlers. A query row is reduced to the user and the
    set of preference columns whose value is truthy. */
module UserGrouping {

  datatype User = User(userId: string, fullPhone: string, language: string, name: string, cityId: string)

  datatype Row = Row(user: User, enabled: set<string>)

  /** The users of the rows that enable type `t`, in row order. */
  function Subscribers(rows: seq<Row>, t: string): seq<User> {
    if rows == [] then []
    else
      var init := Subscribers(rows[..|rows| - 1], t);
      var last := rows[|rows| - 1];
      if t in last.enabled then init + [last.user] else init
  }

  predicate DistinctTypes(types: seq<string>) {
    forall i, j :: 0 <= i < j < |types| ==> types[i] != types[j]
  }

  type Groups = map<string, seq<User>>

  /** The record `usersByNotificationType`: one list per type. */
  function Grouped(types: seq<string>, rows: seq<Row>): Groups {
    map t | t in types :: Subscribers(rows, t)
  }

  /** Every type starts with an empty list; then, row by row, the row's user is pushed onto
      the list of every type the row enables. */
  method GroupUsers(types: seq<string>, rows: seq<Row>) returns (groups: Groups)
    requires DistinctTypes(types)
    ensures groups == Grouped(types, rows)
  {
    groups := map[];
    for k := 0 to |types|
      invariant groups.Keys == set t | t in types[..k]
      invariant forall t :: t in groups ==> groups[t] == []
    {
      assert types[..k + 1] == types[..k] + [types[k]];
      groups := groups[types[k] := []];
    }
    assert types[..|types|] == types;
    for r := 0 to |rows|
      invariant groups.Keys == set t | t in types
      invariant forall t :: t in groups ==> groups[t] == Subscribers(rows[..r], t)
    {
      groups := PushRow(types, groups, rows[r]);
      forall t | t in groups
        ensures groups[t] == Subscribers(rows[..r + 1], t)
      {
        SubscribersSnoc(rows, r, t);
      }
    }
    assert rows[..|rows|] == rows;
  }

  /** The inner loop of the grouping: for each type in turn, the user is pushed onto its
      list when the row enables it. */
  method PushRow(types: seq<string>, groups: Groups, row: Row) returns (next: Groups)
    requires DistinctTypes(types)
    requires groups.Keys == set t | t in types
    ensures next.Keys == groups.Keys
    ensures forall t :: t in next ==> next[t] == if t in row.enabled then groups[t] + [row.user] else groups[t]
  {
    next := groups;
    for k := 0 to |types|
      invariant next.Keys == groups.Keys
      invariant forall t :: t in next && t in types[..k] ==>
                  next[t] == if t in row.enabled then groups[t] + [row.user] else groups[t]
      invariant forall t :: t in next && t !in types[..k] ==> next[t] == groups[t]
    {
      var t := types[k];
      assert types[..k + 1] == types[..k] + [t];
      assert t !in types[..k];
      if t in row.enabled {
        next := next[t := next[t] + [row.user]];
      }
    }
    assert types[..|types|] == types;
  }

  lemma SubscribersSnoc(rows: seq<Row>, r: nat, t: string)
    requires r < |rows|
    ensures Subscribers(rows[..r + 1], t)
            == if t in rows[r].enabled then Subscribers(rows[..r], t) + [rows[r].user] else Subscribers(rows[..r], t)
  {
    assert rows[..r + 1][..r] == rows[..r];
  }

  /** A user is listed under `t` for each row that holds it and enables `t`: membership both
      ways. */
  lemma {:induction false} SubscribersMembers(rows: seq<Row>, t: string, u: User)
    ensures u in Subscribers(rows, t) <==> exists i :: 0 <= i < |rows| && rows[i].user == u && t in rows[i].enabled
  {
    if rows != [] {
      var init := rows[..|rows| - 1];
      SubscribersMembers(init, t, u);
      if exists i :: 0 <= i < |rows| && rows[i].user == u && t in rows[i].enabled {
        var i :| 0 <= i < |rows| && rows[i].user == u && t in rows[i].enabled;
        if i < |rows| - 1 {
          assert init[i] == rows[i];
        }
      }
      if exists i :: 0 <= i < |init| && init[i].user == u && t in init[i].enabled {
        var i :| 0 <= i < |init| && init[i].user == u && t in init[i].enabled;
        assert rows[i] == init[i];
      }
    }
  }

  /** Row order is kept: the list for rows `a + b` is the list for `a` followed by the list
      for `b`. */
  lemma {:induction false} SubscribersAppend(a: seq<Row>, b: seq<Row>, t: string)
    ensures Subscribers(a + b, t) == Subscribers(a, t) + Subscribers(b, t)
    decreases |b|
  {
    if b == [] {
      assert a + b == a;
    } else {
      var b0 := b[..|b| - 1];
      assert (a + b)[..|a + b| - 1] == a + b0;
      assert (a + b)[|a + b| - 1] == b[|b| - 1];
      SubscribersAppend(a, b0, t);
    }
  }

  /** The number of the listed types a row enables. */
  function EnabledCount(types: seq<string>, row: Row): nat {
    if types == [] then 0
    else (if types[0] in row.enabled then 1 else 0) + EnabledCount(types[1..], row)
  }

  /** The sum, over the rows, of the types each enables. */
  function Enrolments(types: seq<string>, rows: seq<Row>): nat {
    if rows == [] then 0 else Enrolments(types, rows[..|rows| - 1]) + EnabledCount(types, rows[|rows| - 1])
  }

  /** `Object.values(usersByNotificationType).reduce((sum, users) => sum + users.length, 0)`. */
  function TotalUsers(types: seq<string>, groups: Groups): nat
    requires forall t :: t in types ==> t in groups
  {
    if types == [] then 0 else |groups[types[0]]| + TotalUsers(types[1..], groups)
  }

  /** The (type, user) pairs of one type's list. */
  function PairsOf(t: string, users: seq<User>): (ps: seq<(string, User)>)
    ensures |ps| == |users| && forall i :: 0 <= i < |ps| ==> ps[i] == (t, users[i])
  {
    seq(|users|, i requires 0 <= i < |users| => (t, users[i]))
  }

  /** The concatenated lists, type after type: the (type, user) pairs the handlers visit. */
  function Pairs(types: seq<string>, groups: Groups): seq<(string, User)>
    requires forall t :: t in types ==> t in groups
  {
    if types == [] then []
    else Pairs(types[..|types| - 1], groups) + PairsOf(types[|types| - 1], groups[types[|types| - 1]])
  }

  lemma {:induction false} TotalUsersSnoc(types: seq<string>, groups: Groups)
    requires types != [] && forall t :: t in types ==> t in groups
    ensures TotalUsers(types, groups) == TotalUsers(types[..|types| - 1], groups) + |groups[types[|types| - 1]]|
  {
    if |types| > 1 {
      assert types[1..][..|types[1..]| - 1] == types[..|types| - 1][1..];
      TotalUsersSnoc(types[1..], groups);
    }
  }

  /** `totalUsers` counts the visited pairs. */
  lemma {:induction false} PairsCount(types: seq<string>, groups: Groups)
    requires forall t :: t in types ==> t in groups
    ensures |Pairs(types, groups)| == TotalUsers(types, groups)
  {
    if types != [] {
      PairsCount(types[..|types| - 1], groups);
      TotalUsersSnoc(types, groups);
    }
  }

  function SubscriberTotal(types: seq<string>, rows: seq<Row>): nat {
    if types == [] then 0 else |Subscribers(rows, types[0])| + SubscriberTotal(types[1..], rows)
  }

  lemma {:induction false} SubscriberTotalSnoc(types: seq<string>, rows: seq<Row>)
    requires rows != []
    ensures SubscriberTotal(types, rows)
            == SubscriberTotal(types, rows[..|rows| - 1]) + EnabledCount(types, rows[|rows| - 1])
  {
    if types != [] {
      SubscriberTotalSnoc(types[1..], rows);
    }
  }

  lemma {:induction false} SubscriberTotalIsEnrolments(types: seq<string>, rows: seq<Row>)
    ensures SubscriberTotal(types, rows) == Enrolments(types, rows)
    decreases |rows|
  {
    if rows == [] {
      EmptySubscriberTotal(types);
    } else {
      SubscriberTotalSnoc(types, rows);
      SubscriberTotalIsEnrolments(types, rows[..|rows| - 1]);
    }
  }

  lemma {:induction false} EmptySubscriberTotal(types: seq<string>)
    ensures SubscriberTotal(types, []) == 0
  {
    if types != [] {
      EmptySubscriberTotal(types[1..]);
    }
  }

  lemma {:induction false} TotalOfGrouped(types: seq<string>, all: seq<string>, rows: seq<Row>)
    requires forall t :: t in types ==> t in all
    ensures TotalUsers(types, Grouped(all, rows)) == SubscriberTotal(types, rows)
  {
    if types != [] {
      TotalOfGrouped(types[1..], all, rows);
    }
  }

  /** The total after grouping is the number of (row, enabled type) pairs: each user counts
      once per type they enabled. */
  lemma GroupedTotal(types: seq<string>, rows: seq<Row>)
    ensures TotalUsers(types, Grouped(types, rows)) == Enrolments(types, rows)
  {
    TotalOfGrouped(types, types, rows);
    SubscriberTotalIsEnrolments(types, rows);
  }

  lemma {:induction false} EnabledCountZero(types: seq<string>, row: Row)
    ensures EnabledCount(types, row) == 0 <==> forall t :: t in types ==> t !in row.enabled
  {
    if types != [] {
      EnabledCountZero(types[1..], row);
      assert forall t :: t in types <==> t == types[0] || t in types[1..];
    }
  }

  lemma {:induction false} EnrolmentsZero(types: seq<string>, rows: seq<Row>)
    ensures Enrolments(types, rows) == 0
            <==> forall i, t :: 0 <= i < |rows| && t in types ==> t !in rows[i].enabled
  {
    if rows != [] {
      var init := rows[..|rows| - 1];
      EnrolmentsZero(types, init);
      EnabledCountZero(types, rows[|rows| - 1]);
      if Enrolments(types, rows) == 0 {
        forall i, t | 0 <= i < |rows| && t in types
          ensures t !in rows[i].enabled
        {
          if i < |rows| - 1 {
            assert rows[i] == init[i];
          }
        }
      }
      if forall i, t :: 0 <= i < |rows| && t in types ==> t !in rows[i].enabled {
        forall i, t | 0 <= i < |init| && t in types
          ensures t !in init[i].enabled
        {
          assert init[i] == rows[i];
        }
      }
    }
  }

  /** Nobody is to be notified exactly when no selected row enables any listed type. */
  lemma NobodyToNotify(types: seq<string>, rows: seq<Row>)
    ensures TotalUsers(types, Grouped(types, rows)) == 0
            <==> forall i, t :: 0 <= i < |rows| && t in types ==> t !in rows[i].enabled
  {
    GroupedTotal(types, rows);
    EnrolmentsZero(types, rows);
  }
}

/** The parameterised INSERT builders of the database helpers: `generateInsertStatement` in
    shared/src/db.ts and backend/functions/shared/db.ts (the same code), its filtering
    variant in shared/db.ts, and `generateNotificationPreferencesInsert`. Postgres binds the
    placeholder `$k` to the k-th parameter; the lemmas here say which value each column
    receives that way. */
module InsertStatements {

  import opened Wrappers
  import opened Text
  import opened JsObjects

  /** `{ sql, params }` */
  datatype Query<V> = Query(sql: string, params: seq<V>)

  /** `$${index + 1}` for the placeholder of the column at `index`. */
  function Placeholder(k: nat): string {
    "$" + NatToString(k)
  }

  /** `fields.map((_, index) => `$${index + 1}`)` */
  function Placeholders(n: nat): (ps: seq<string>)
    ensures |ps| == n && forall i :: 0 <= i < n ==> ps[i] == Placeholder(i + 1)
  {
    if n == 0 then [] else Placeholders(n - 1) + [Placeholder(n)]
  }

  /** The parameter number Postgres reads from a placeholder `$k`. */
  predicate IsPlaceholder(p: string) {
    |p| >= 2 && p[0] == '$' && AllDigits(p[1..])
  }

  function PlaceholderNumber(p: string): nat
    requires IsPlaceholder(p)
  {
    ParseDigits(p[1..])
  }

  /** The placeholder written beside `column` makes Postgres bind the column to its value
      in `data`. */
  predicate BindsColumn<V(==)>(p: string, params: seq<V>, data: Object<V>, column: string) {
    IsPlaceholder(p) && 1 <= PlaceholderNumber(p) <= |params|
    && Get(data, column) == Some(params[PlaceholderNumber(p) - 1])
  }

  /** Every column of the statement receives its own value from `data`. */
  predicate Binds<V(==)>(columns: seq<string>, placeholders: seq<string>, params: seq<V>, data: Object<V>) {
    |placeholders| == |columns|
    && forall i :: 0 <= i < |columns| ==> BindsColumn(placeholders[i], params, data, columns[i])
  }

  /** `$k` reads back as k, so the i-th placeholder names the i-th parameter. */
  lemma PlaceholderNumberOf(k: nat)
    requires k >= 1
    ensures IsPlaceholder(Placeholder(k)) && PlaceholderNumber(Placeholder(k)) == k
  {
    assert Placeholder(k)[1..] == NatToString(k);
    ParseNatToString(k);
  }

  /** Parameters listed in column order, bound through `$1..$n`, give every column its value. */
  lemma {:induction false} AlignedBinds<V>(columns: seq<string>, params: seq<V>, data: Object<V>)
    requires |params| == |columns|
    requires forall i :: 0 <= i < |columns| ==> Get(data, columns[i]) == Some(params[i])
    ensures Binds(columns, Placeholders(|columns|), params, data)
  {
    forall i | 0 <= i < |columns|
      ensures BindsColumn(Placeholders(|columns|)[i], params, data, columns[i])
    {
      PlaceholderNumberOf(i + 1);
    }
  }

  /** The placeholders are pairwise different. */
  lemma PlaceholdersDistinct(n: nat, i: nat, j: nat)
    requires i < j < n
    ensures Placeholders(n)[i] != Placeholders(n)[j]
  {
    PlaceholderNumberOf(i + 1);
    PlaceholderNumberOf(j + 1);
  }

  /** `fields.map((field) => data[field])` for fields that are keys of `data`. */
  function ValuesOf<V(==)>(data: Object<V>, fields: seq<string>): (vs: seq<V>)
    requires forall f :: f in fields ==> Get(data, f).Some?
    ensures |vs| == |fields|
    ensures forall i :: 0 <= i < |fields| ==> Get(data, fields[i]) == Some(vs[i])
  {
    if fields == [] then [] else [Get(data, fields[0]).value] + ValuesOf(data, fields[1..])
  }

  lemma KeysPresent<V>(data: Object<V>)
    ensures forall f :: f in Keys(data) ==> Get(data, f).Some?
  {
    forall f | f in Keys(data)
      ensures Get(data, f).Some?
    {
      var i :| 0 <= i < |data| && Keys(data)[i] == f;
      assert data[i].0 == f;
    }
  }

  /** A text built as `a + b + c` starts with `a` and ends with `c`. */
  lemma Framed(a: string, b: string, c: string)
    ensures StartsWith(a + b + c, a) && EndsWith(a + b + c, c)
  {
    assert (a + b + c)[..|a|] == a;
    assert (a + b + c)[|a + b + c| - |c|..] == c;
  }

  // ---------------------------------------------------------------------------
  // generateInsertStatement (shared/src/db.ts, backend/functions/shared/db.ts)

  function InsertSql(table: string, fields: seq<string>, placeholders: seq<string>): string {
    "INSERT INTO " + table + " (" + Join(fields, ", ") + ") \n\t\t\t\t VALUES ("
    + Join(placeholders, ", ") + ") \n\t\t\t\t RETURNING *"
  }

  /** `generateInsertStatement`: every key of `data` becomes a column, in key order, with
      the placeholder `$k` at position k and the key's value as parameter k. */
  function InsertStatement<V(==)>(table: string, data: Object<V>): Query<V> {
    var fields := Keys(data);
    KeysPresent(data);
    Query(InsertSql(table, fields, Placeholders(|fields|)), ValuesOf(data, fields))
  }

  /** One parameter per key; the statement inserts into `table` and returns the new row. */
  lemma InsertStatementShape<V>(table: string, data: Object<V>)
    ensures var q := InsertStatement(table, data);
            |q.params| == |data|
            && StartsWith(q.sql, "INSERT INTO " + table + " (") && EndsWith(q.sql, "RETURNING *")
  {
    var fields := Keys(data);
    var placeholders := Placeholders(|fields|);
    var a := "INSERT INTO " + table + " (";
    var b := Join(fields, ", ") + ") \n\t\t\t\t VALUES (" + Join(placeholders, ", ") + ") \n\t\t\t\t ";
    var c := "RETURNING *";
    assert InsertSql(table, fields, placeholders) == a + b + c;
    Framed(a, b, c);
  }

  /** For an object (distinct keys): the parameters are its values in key order, and the
      placeholder beside each column binds that column to its own value. */
  lemma InsertBinds<V>(table: string, data: Object<V>)
    requires DistinctKeys(data)
    ensures InsertStatement(table, data).params == Values(data)
    ensures Binds(Keys(data), Placeholders(|data|), InsertStatement(table, data).params, data)
  {
    var q := InsertStatement(table, data);
    forall i | 0 <= i < |data|
      ensures q.params[i] == data[i].1
    {
      GetAt(data, i);
    }
    AlignedBinds(Keys(data), q.params, data);
  }

  // ---------------------------------------------------------------------------
  // The filtering generateInsertStatement (shared/db.ts)

  /** The filter of shared/db.ts: not excluded, listed when an include list is given, and
      never `id` or `user_id`, which the database fills in. */
  predicate Keep(field: string, excludeFields: seq<string>, includeFields: seq<string>) {
    field !in excludeFields
    && (|includeFields| == 0 || field in includeFields)
    && field != "id" && field != "user_id"
  }

  /** `Object.keys(data).filter(...)` */
  function KeptFields(keys: seq<string>, excludeFields: seq<string>, includeFields: seq<string>): seq<string> {
    if keys == [] then []
    else
      (if Keep(keys[0], excludeFields, includeFields) then [keys[0]] else [])
      + KeptFields(keys[1..], excludeFields, includeFields)
  }

  /** A field is kept iff it is a key and passes the filter: never `id`, `user_id` or an
      excluded name, and only listed names when an include list is given. */
  lemma {:induction false} KeptFieldsMembers(keys: seq<string>, excludeFields: seq<string>,
                                             includeFields: seq<string>, f: string)
    ensures f in KeptFields(keys, excludeFields, includeFields) <==>
              f in keys && Keep(f, excludeFields, includeFields)
  {
    if keys != [] {
      KeptFieldsMembers(keys[1..], excludeFields, includeFields, f);
      assert f in keys <==> f == keys[0] || f in keys[1..];
    }
  }

  /** Filtering keeps the key order: it distributes over concatenation. */
  lemma {:induction false} KeptFieldsAppend(a: seq<string>, b: seq<string>,
                                            excludeFields: seq<string>, includeFields: seq<string>)
    ensures KeptFields(a + b, excludeFields, includeFields)
            == KeptFields(a, excludeFields, includeFields) + KeptFields(b, excludeFields, includeFields)
  {
    if a == [] {
      assert a + b == b;
    } else {
      assert (a + b)[0] == a[0] && (a + b)[1..] == a[1..] + b;
      KeptFieldsAppend(a[1..], b, excludeFields, includeFields);
    }
  }

  function FilteredInsertSql(table: string, columns: seq<string>, placeholders: seq<string>): string {
    "INSERT INTO " + table + " (" + "\n\t\t" + Join(columns, ", ") + "\n\t) VALUES ("
    + Join(placeholders, ", ") + ") " + "RETURNING *"
  }

  lemma KeptPresent<V>(data: Object<V>, excludeFields: seq<string>, includeFields: seq<string>)
    ensures forall f :: f in KeptFields(Keys(data), excludeFields, includeFields) ==> Get(data, f).Some?
  {
    KeysPresent(data);
    forall f | f in KeptFields(Keys(data), excludeFields, includeFields)
      ensures Get(data, f).Some?
    {
      KeptFieldsMembers(Keys(data), excludeFields, includeFields, f);
    }
  }

  /** The filtering `generateInsertStatement`: the kept keys become the columns. */
  function FilteredInsertStatement<V(==)>(table: string, data: Object<V>,
                                          excludeFields: seq<string>, includeFields: seq<string>): Query<V>
  {
    var fields := KeptFields(Keys(data), excludeFields, includeFields);
    KeptPresent(data, excludeFields, includeFields);
    Query(FilteredInsertSql(table, fields, Placeholders(|fields|)), ValuesOf(data, fields))
  }

  /** The filtered statement inserts into `table` and returns the new row. */
  lemma FilteredInsertShape<V>(table: string, data: Object<V>,
                               excludeFields: seq<string>, includeFields: seq<string>)
    ensures var q := FilteredInsertStatement(table, data, excludeFields, includeFields);
            StartsWith(q.sql, "INSERT INTO " + table + " (") && EndsWith(q.sql, "RETURNING *")
  {
    var fields := KeptFields(Keys(data), excludeFields, includeFields);
    var placeholders := Placeholders(|fields|);
    var a := "INSERT INTO " + table + " (";
    var b := "\n\t\t" + Join(fields, ", ") + "\n\t) VALUES (" + Join(placeholders, ", ") + ") ";
    var c := "RETURNING *";
    assert FilteredInsertSql(table, fields, placeholders) == a + b + c;
    Framed(a, b, c);
  }

  /** The columns are the kept keys in key order; there is one parameter per column and each
      placeholder binds its column to the column's value in `data`. */
  lemma FilteredInsertBinds<V>(table: string, data: Object<V>,
                               excludeFields: seq<string>, includeFields: seq<string>)
    ensures var fields := KeptFields(Keys(data), excludeFields, includeFields);
            var q := FilteredInsertStatement(table, data, excludeFields, includeFields);
            |q.params| == |fields| && Binds(fields, Placeholders(|fields|), q.params, data)
  {
    var fields := KeptFields(Keys(data), excludeFields, includeFields);
    var q := FilteredInsertStatement(table, data, excludeFields, includeFields);
    AlignedBinds(fields, q.params, data);
  }

  // ---------------------------------------------------------------------------
  // generateNotificationPreferencesInsert (shared/db.ts)

  /** `columnMapping`: notification type to column, in declaration order. */
  const ColumnMapping: seq<(string, string)> := [
    ("daily_celestial_events", "daily_celestial_events"),
    ("daily_nasa", "daily_nasa"),
    ("daily_weather_outfit", "daily_weather_outfit"),
    ("daily_recipe", "daily_recipe"),
    ("instant_sunset", "instant_sunset")
  ]

  const PreferenceColumns: seq<string> :=
    ["daily_celestial_events", "daily_nasa", "daily_weather_outfit", "daily_recipe", "instant_sunset"]

  /** The mapped columns are the five preference columns, each once, in declaration order. */
  lemma MappedColumns()
    ensures Distinct(Values(ColumnMapping)) == PreferenceColumns
  {
    var vs := Values(ColumnMapping);
    assert vs == PreferenceColumns;
    assert |vs[0]| == 22 && |vs[1]| == 10 && |vs[2]| == 20 && |vs[3]| == 12 && |vs[4]| == 14;
    DistinctOfPairwise(vs);
  }

  /** A list whose entries already differ pairwise is its own `Distinct`. */
  lemma {:induction false} DistinctOfPairwise(xs: seq<string>)
    requires forall i, j :: 0 <= i < j < |xs| ==> xs[i] != xs[j]
    ensures Distinct(xs) == xs
  {
    if xs != [] {
      var init := xs[..|xs| - 1];
      DistinctOfPairwise(init);
      assert xs[|xs| - 1] !in init by {
        forall i | 0 <= i < |init|
          ensures init[i] != xs[|xs| - 1]
        {
          assert init[i] == xs[i];
        }
      }
      assert init + [xs[|xs| - 1]] == xs;
    }
  }

  /** `notificationTypes.some((type) => notifications[type] ?? false)` over the types that
      map to `column`. */
  function AnyTypeSet(mapping: seq<(string, string)>, column: string, notifications: Object<bool>): bool {
    if mapping == [] then false
    else
      AnyTypeSet(mapping[..|mapping| - 1], column, notifications)
      || (mapping[|mapping| - 1].1 == column && Get(notifications, mapping[|mapping| - 1].0).GetOr(false))
  }

  predicate SetThrough(mapping: seq<(string, string)>, k: int, column: string, notifications: Object<bool>)
    requires 0 <= k < |mapping|
  {
    mapping[k].1 == column && Get(notifications, mapping[k].0).GetOr(false)
  }

  /** A column is true iff some notification type mapped to it is set (an absent flag
      counting as false). */
  lemma {:induction false} AnyTypeSetMeaning(mapping: seq<(string, string)>, column: string,
                                             notifications: Object<bool>)
    ensures AnyTypeSet(mapping, column, notifications)
            <==> exists k :: 0 <= k < |mapping| && SetThrough(mapping, k, column, notifications)
  {
    if mapping != [] {
      var init := mapping[..|mapping| - 1];
      AnyTypeSetMeaning(init, column, notifications);
      assert AnyTypeSet(mapping, column, notifications)
             == (AnyTypeSet(init, column, notifications) || SetThrough(mapping, |init|, column, notifications));
      if exists k :: 0 <= k < |init| && SetThrough(init, k, column, notifications) {
        var k :| 0 <= k < |init| && SetThrough(init, k, column, notifications);
        assert SetThrough(mapping, k, column, notifications);
      }
      if exists k :: 0 <= k < |mapping| && SetThrough(mapping, k, column, notifications) {
        var k :| 0 <= k < |mapping| && SetThrough(mapping, k, column, notifications);
        if k < |init| {
          assert SetThrough(init, k, column, notifications);
        } else {
          assert k == |init|;
        }
      }
    }
  }

  /** With the identity mapping, the value of a column is the flag of the same name, and
      false when the flag is absent. */
  lemma ColumnValues(notifications: Object<bool>, i: nat)
    requires i < |PreferenceColumns|
    ensures AnyTypeSet(ColumnMapping, PreferenceColumns[i], notifications)
            == Get(notifications, PreferenceColumns[i]).GetOr(false)
  {
    var c := PreferenceColumns[i];
    AnyTypeSetMeaning(ColumnMapping, c, notifications);
    assert ColumnMapping[i] == (c, c);
    if Get(notifications, c).GetOr(false) {
      assert SetThrough(ColumnMapping, i, c, notifications);
    } else {
      forall k | 0 <= k < |ColumnMapping|
        ensures !SetThrough(ColumnMapping, k, c, notifications)
      {
        if ColumnMapping[k].1 == c {
          assert k == i;
        }
      }
    }
  }

  function PreferencesSql(userId: string, columns: seq<string>, placeholders: seq<string>): string {
    "INSERT INTO notification_preferences (\n\t\tuser_id, " + Join(columns, ", ")
    + "\n\t) VALUES ('" + userId + "', " + Join(placeholders, ", ") + ")"
  }

  /** The loop of `generateNotificationPreferencesInsert`: one value per distinct mapped
      column, pushed in column order. */
  method NotificationPreferencesInsert(userId: string, notifications: Object<bool>)
    returns (q: Query<bool>)
    ensures q.sql == PreferencesSql(userId, PreferenceColumns, Placeholders(5))
    ensures |q.params| == 5
    ensures forall i :: 0 <= i < 5 ==>
              q.params[i] == Get(notifications, PreferenceColumns[i]).GetOr(false)
  {
    var columns := Distinct(Values(ColumnMapping));
    MappedColumns();
    var placeholders := Placeholders(|columns|);
    var values: seq<bool> := [];
    for i := 0 to |columns|
      invariant |values| == i
      invariant forall j :: 0 <= j < i ==> values[j] == AnyTypeSet(ColumnMapping, columns[j], notifications)
    {
      var value := AnyTypeSet(ColumnMapping, columns[i], notifications);
      values := values + [value];
    }
    forall i | 0 <= i < 5
      ensures values[i] == Get(notifications, PreferenceColumns[i]).GetOr(false)
    {
      ColumnValues(notifications, i);
    }
    q := Query(PreferencesSql(userId, columns, placeholders), values);
  }

  /** The user id is the first column's value, written into the text; the five flags are
      bound through `$1..$5` in column order. */
  lemma PreferencesBinds(notifications: Object<bool>, flags: seq<bool>)
    requires |flags| == 5
    requires forall i :: 0 <= i < 5 ==> flags[i] == Get(notifications, PreferenceColumns[i]).GetOr(false)
    ensures forall i :: 0 <= i < 5 ==>
              IsPlaceholder(Placeholders(5)[i]) && PlaceholderNumber(Placeholders(5)[i]) == i + 1
              && flags[PlaceholderNumber(Placeholders(5)[i]) - 1]
                 == Get(notifications, PreferenceColumns[i]).GetOr(false)
  {
    forall i | 0 <= i < 5
      ensures IsPlaceholder(Placeholders(5)[i]) && PlaceholderNumber(Placeholders(5)[i]) == i + 1
    {
      PlaceholderNumberOf(i + 1);
    }
  }
}

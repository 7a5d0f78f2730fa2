/** Loading the US cities into the `Cities` table, as both Python importers do it: the
    rows go out in slices of 1000, each slice one `INSERT ... ON CONFLICT (city_name,
    country_code) DO NOTHING`. The table is modelled by its rows keyed on that pair;
    connections, cursors and `mogrify` quoting are not modelled. */
module CityLoader {

  import opened Wrappers

  /** One tuple of `us_cities`, in the column order of the INSERT. */
  datatype CityRow = CityRow(
    cityName: string,
    stateCode: string,
    stateName: string,
    countryCode: string,
    countryName: string,
    latitude: real,
    longitude: real,
    timezone: string)

  /** The table's unique key `(city_name, country_code)`. */
  type CityKey = (string, string)

  function Key(r: CityRow): CityKey {
    (r.cityName, r.countryCode)
  }

  const BatchSize: nat := 1000

  function Min(a: int, b: int): int {
    if a <= b then a else b
  }

  // ---------------------------------------------------------------------------
  // Slicing into batches

  /** The slices `rows[i : i + size]` for `i in range(0, len(rows), size)`. */
  function Batches<T>(rows: seq<T>, size: nat): seq<seq<T>>
    requires size > 0
    decreases |rows|
  {
    if rows == [] then []
    else
      var cut := Min(size, |rows|);
      [rows[..cut]] + Batches(rows[cut..], size)
  }

  function Flatten<T>(parts: seq<seq<T>>): seq<T> {
    if parts == [] then [] else parts[0] + Flatten(parts[1..])
  }

  /** The batches cover the rows exactly once, in order. */
  lemma {:induction false} BatchesPartition<T>(rows: seq<T>, size: nat)
    requires size > 0
    ensures Flatten(Batches(rows, size)) == rows
    decreases |rows|
  {
    if rows != [] {
      var cut := Min(size, |rows|);
      BatchesPartition(rows[cut..], size);
      var bs := Batches(rows, size);
      assert bs[0] == rows[..cut] && bs[1..] == Batches(rows[cut..], size);
      assert Flatten(bs) == rows[..cut] + rows[cut..];
      assert rows == rows[..cut] + rows[cut..];
    }
  }

  /** No batch is empty and none is longer than the batch size. */
  lemma {:induction false} BatchesBounded<T>(rows: seq<T>, size: nat)
    requires size > 0
    ensures forall i :: 0 <= i < |Batches(rows, size)| ==> 0 < |Batches(rows, size)[i]| <= size
    decreases |rows|
  {
    if rows != [] {
      var cut := Min(size, |rows|);
      BatchesBounded(rows[cut..], size);
      var bs := Batches(rows, size);
      forall i | 0 <= i < |bs|
        ensures 0 < |bs[i]| <= size
      {
        if i > 0 {
          assert bs[i] == Batches(rows[cut..], size)[i - 1];
        }
      }
    }
  }

  /** The number of batches is the `(len(us_cities) + batch_size - 1) // batch_size` the
      importer prints as the batch total. */
  lemma {:induction false} BatchesCount<T>(rows: seq<T>, size: nat)
    requires size > 0
    ensures |Batches(rows, size)| == (|rows| + size - 1) / size
    decreases |rows|
  {
    if rows != [] {
      var cut := Min(size, |rows|);
      BatchesCount(rows[cut..], size);
      assert |Batches(rows, size)| == 1 + |Batches(rows[cut..], size)|;
      CeilStep(|rows|, size);
    } else {
      DivUnique(size - 1, size, 0, size - 1);
    }
  }

  /** One batch more: `ceil(n / size) == 1 + ceil((n - min(size, n)) / size)` for `n > 0`. */
  lemma CeilStep(n: int, size: int)
    requires 0 < n && 0 < size
    ensures (n + size - 1) / size == 1 + (n - Min(size, n) + size - 1) / size
  {
    if n <= size {
      DivUnique(n + size - 1, size, 1, n - 1);
      DivUnique(size - 1, size, 0, size - 1);
    } else {
      var x := n - 1;
      var q, r := x / size, x % size;
      assert x + size == (q + 1) * size + r by {
        assert x == q * size + r;
        assert (q + 1) * size == q * size + size;
      }
      DivUnique(x + size, size, q + 1, r);
    }
  }

  /** Helper for `BatchesCount` and `CeilStep`: integer division has one quotient. Not a modelled property. */
  lemma DivUnique(x: int, d: int, q: int, r: int)
    requires d > 0 && x == q * d + r && 0 <= r < d
    ensures x / d == q
  {
    var q', r' := x / d, x % d;
    assert x == q' * d + r';
    if q' > q {
      MulAtLeast(q' - q, d);
      assert false;
    } else if q' < q {
      MulAtLeast(q - q', d);
      assert false;
    }
  }

  /** Helper for `DivUnique`: a positive multiple of `d` is at least `d`. Not a modelled property. */
  lemma MulAtLeast(k: int, d: int)
    requires k >= 1 && d > 0
    ensures k * d >= d
  {
    if k > 1 {
      MulAtLeast(k - 1, d);
      assert k * d == (k - 1) * d + d;
    }
  }

  // ---------------------------------------------------------------------------
  // ON CONFLICT DO NOTHING

  /** The table after inserting `rows` in order, a row whose key is already present
      being skipped. */
  function InsertAll(table: map<CityKey, CityRow>, rows: seq<CityRow>): map<CityKey, CityRow>
    decreases |rows|
  {
    if rows == [] then table
    else
      var r := rows[0];
      InsertAll(if Key(r) in table then table else table[Key(r) := r], rows[1..])
  }

  lemma {:induction false} InsertAllAppend(table: map<CityKey, CityRow>, a: seq<CityRow>, b: seq<CityRow>)
    ensures InsertAll(table, a + b) == InsertAll(InsertAll(table, a), b)
    decreases |a|
  {
    if a == [] {
      assert a + b == b;
    } else {
      var r := a[0];
      var next := if Key(r) in table then table else table[Key(r) := r];
      assert (a + b)[0] == r && (a + b)[1..] == a[1..] + b;
      InsertAllAppend(next, a[1..], b);
    }
  }

  /** Rows already in the table are never changed, and every inserted key ends up present. */
  lemma {:induction false} InsertAllKeeps(table: map<CityKey, CityRow>, rows: seq<CityRow>)
    ensures forall k | k in table :: k in InsertAll(table, rows) && InsertAll(table, rows)[k] == table[k]
    ensures forall i | 0 <= i < |rows| :: Key(rows[i]) in InsertAll(table, rows)
    decreases |rows|
  {
    if rows != [] {
      var r := rows[0];
      var next := if Key(r) in table then table else table[Key(r) := r];
      assert Key(r) in next;
      assert forall k | k in table :: k in next && next[k] == table[k];
      InsertAllKeeps(next, rows[1..]);
      forall i | 0 <= i < |rows|
        ensures Key(rows[i]) in InsertAll(table, rows)
      {
        if i > 0 {
          assert rows[i] == rows[1..][i - 1];
        }
      }
    }
  }

  /** Inserting rows whose keys are all present changes nothing. */
  lemma {:induction false} InsertAllPresent(table: map<CityKey, CityRow>, rows: seq<CityRow>)
    requires forall i | 0 <= i < |rows| :: Key(rows[i]) in table
    ensures InsertAll(table, rows) == table
    decreases |rows|
  {
    if rows != [] {
      assert Key(rows[0]) in table;
      forall i | 0 <= i < |rows| - 1
        ensures Key(rows[1..][i]) in table
      {
        assert rows[1..][i] == rows[i + 1];
      }
      InsertAllPresent(table, rows[1..]);
    }
  }

  /** Loading the same rows a second time leaves the table as the first load left it. */
  lemma ReloadIdempotent(table: map<CityKey, CityRow>, rows: seq<CityRow>)
    ensures InsertAll(InsertAll(table, rows), rows) == InsertAll(table, rows)
  {
    InsertAllKeeps(table, rows);
    InsertAllPresent(InsertAll(table, rows), rows);
  }

  /** The `Cities` table, by unique key. */
  class CitiesTable {
    var rows: map<CityKey, CityRow>

    constructor (existing: map<CityKey, CityRow>)
      ensures rows == existing
    {
      rows := existing;
    }

    /** One `INSERT INTO Cities ... VALUES ... ON CONFLICT (city_name, country_code) DO NOTHING`
        followed by a commit. */
    method InsertBatch(batch: seq<CityRow>)
      modifies this
      ensures rows == InsertAll(old(rows), batch)
    {
      rows := InsertAll(rows, batch);
    }
  }

  /** The batch loop of both importers. `executeFails(k)` is whether the `cur.execute` of
      batch k raises; the exception leaves the loop, and the batches committed before it stay.
      The statements issued are the 1000-row slices, as many as the printed total, up to the
      first one that raises; the table ends as inserting the rows of the committed batches
      in order leaves it. */
  method LoadInBatches(table: CitiesTable, usCities: seq<CityRow>, executeFails: nat -> bool)
    returns (issued: seq<seq<CityRow>>, failedAt: Option<nat>)
    modifies table
    ensures |Batches(usCities, BatchSize)| == (|usCities| + BatchSize - 1) / BatchSize
    ensures failedAt.None? ==>
              issued == Batches(usCities, BatchSize)
              && (forall k :: 0 <= k < |issued| ==> !executeFails(k))
              && table.rows == InsertAll(old(table.rows), usCities)
    ensures failedAt.Some? ==>
              var k := failedAt.value;
              k < |Batches(usCities, BatchSize)| && executeFails(k)
              && issued == Batches(usCities, BatchSize)[..k]
              && (forall j :: 0 <= j < k ==> !executeFails(j))
              && k * BatchSize < |usCities|
              && table.rows == InsertAll(old(table.rows), usCities[..k * BatchSize])
  {
    var n := |usCities|;
    BatchesCount(usCities, BatchSize);
    ghost var all := Batches(usCities, BatchSize);
    issued := [];
    failedAt := None;
    var i := 0;
    while i < n
      invariant i <= n && i == Min(|issued| * BatchSize, n)
      invariant all == issued + Batches(usCities[i..], BatchSize)
      invariant forall k :: 0 <= k < |issued| ==> !executeFails(k)
      invariant table.rows == InsertAll(old(table.rows), usCities[..i])
      decreases n - i
    {
      var j := Min(i + BatchSize, n);
      var batch := usCities[i..j];
      ghost var rest := Batches(usCities[j..], BatchSize);
      assert all == issued + [batch] + rest by {
        BatchStep(usCities, i, BatchSize);
        Regroup(issued, [batch], rest);
      }
      if executeFails(|issued|) {
        assert |issued| < |all| && issued == all[..|issued|] by {
          PrefixOfConcat(issued, [batch] + rest);
        }
        failedAt := Some(|issued|);
        return;
      }
      table.InsertBatch(batch);
      InsertPrefixStep(old(table.rows), usCities, i, j);
      FailsNoneExtended(executeFails, |issued|);
      issued := issued + [batch];
      i := j;
    }
    assert usCities[..n] == usCities;
    assert Batches(usCities[n..], BatchSize) == [] by {
      assert usCities[n..] == [];
    }
    assert issued + [] == issued;
  }

  /** Inserting the prefix up to `i` and then the slice `[i..j]` inserts the prefix up to `j`. */
  lemma InsertPrefixStep(table: map<CityKey, CityRow>, xs: seq<CityRow>, i: nat, j: nat)
    requires i <= j <= |xs|
    ensures InsertAll(InsertAll(table, xs[..i]), xs[i..j]) == InsertAll(table, xs[..j])
  {
    InsertAllAppend(table, xs[..i], xs[i..j]);
    assert xs[..i] + xs[i..j] == xs[..j];
  }

  lemma FailsNoneExtended(fails: nat -> bool, m: nat)
    requires forall k :: 0 <= k < m ==> !fails(k)
    requires !fails(m)
    ensures forall k :: 0 <= k < m + 1 ==> !fails(k)
  {
  }

  lemma PrefixOfConcat<T>(a: seq<T>, b: seq<T>)
    requires |b| > 0
    ensures (a + b)[..|a|] == a && |a| < |a + b|
  {
  }

  /** The loop's step at offset `i`: the next batch, then the batches of what follows it. */
  lemma BatchStep<T>(xs: seq<T>, i: nat, size: nat)
    requires size > 0 && i < |xs|
    ensures Min(i, |xs|) == i && i < Min(i + size, |xs|) <= |xs|
    ensures Batches(xs[i..], size) == [xs[i..Min(i + size, |xs|)]] + Batches(xs[Min(i + size, |xs|)..], size)
  {
    var j := Min(i + size, |xs|);
    var rest := xs[i..];
    assert Min(size, |rest|) == j - i;
    assert rest[..j - i] == xs[i..j];
    assert rest[j - i..] == xs[j..];
  }

  /** Helper: sequence concatenation regrouped. Not a modelled property. */
  lemma Regroup<T>(a: seq<T>, b: seq<T>, c: seq<T>)
    ensures a + (b + c) == a + b + c
  {
  }
}

/** The NASA_APOD table both APOD fetchers keep (backend/functions/apod-photo-fetcher/index.ts
    and backend/functions/nasa_photo_fetcher/index.py), and the answer both handlers give.
    The table is a class whose rows the fetchers append to; `WHERE date = $1` yields the
    first row holding the date. */
module ApodTable {

  import opened Wrappers

  /** The fields of NASA's answer the fetchers use. */
  datatype Metadata = Metadata(date: string, explanation: string, mediaType: string, title: string, url: string)

  /** A row of NASA_APOD. */
  datatype ApodRecord = ApodRecord(date: string, title: string, explanation: string, mediaType: string,
                                   originalUrl: string, s3ObjectId: string)

  /** The answer's `body`: the optional fields are absent from some answers. */
  datatype Body = Body(message: string, metadata: Option<Metadata>, s3ObjectId: Option<string>,
                       source: Option<string>, status: Option<string>)

  datatype Response = Response(statusCode: int, body: Body)

  /** What the fetch left in the object store: the bucket, the key, and the image's URL. */
  datatype Upload = Upload(bucket: string, key: string, imageUrl: string)

  /** The row `SELECT ... WHERE date = $1` answers first, if any. */
  function FindDate(rows: seq<ApodRecord>, date: string): (r: Option<ApodRecord>)
    ensures r.Some? ==> r.value in rows && r.value.date == date
    ensures r.None? <==> forall i :: 0 <= i < |rows| ==> rows[i].date != date
  {
    if rows == [] then None
    else if rows[0].date == date then Some(rows[0])
    else FindDate(rows[1..], date)
  }

  /** The number of rows holding a date. */
  function CountDate(rows: seq<ApodRecord>, date: string): nat {
    if rows == [] then 0
    else CountDate(rows[..|rows| - 1], date) + (if rows[|rows| - 1].date == date then 1 else 0)
  }

  /** At most one row per date. */
  predicate UniqueDates(rows: seq<ApodRecord>) {
    forall i, j :: 0 <= i < j < |rows| ==> rows[i].date != rows[j].date
  }

  /** The NASA_APOD table. */
  class NasaApodTable {
    var rows: seq<ApodRecord>

    constructor (initial: seq<ApodRecord>)
      ensures rows == initial
    {
      rows := initial;
    }

    /** The `SELECT` by date. */
    method Select(date: string) returns (found: Option<ApodRecord>)
      ensures found == FindDate(rows, date)
    {
      found := FindDate(rows, date);
    }

    /** The `INSERT`. */
    method Insert(row: ApodRecord)
      modifies this
      ensures rows == old(rows) + [row]
    {
      rows := rows + [row];
    }
  }

  /** A row counts once more after it is appended. */
  lemma {:induction false} CountDateSnoc(rows: seq<ApodRecord>, row: ApodRecord, date: string)
    ensures CountDate(rows + [row], date) == CountDate(rows, date) + (if row.date == date then 1 else 0)
  {
    assert (rows + [row])[..|rows + [row]| - 1] == rows;
  }

  /** No row holds a date exactly when the `SELECT` finds none. */
  lemma {:induction false} CountDateZero(rows: seq<ApodRecord>, date: string)
    ensures CountDate(rows, date) == 0 <==> FindDate(rows, date).None?
  {
    if rows != [] {
      var init := rows[..|rows| - 1];
      CountDateZero(init, date);
      assert FindDate(init, date).None? <==> forall i :: 0 <= i < |init| ==> init[i].date != date;
      if FindDate(init, date).Some? {
        var i :| 0 <= i < |init| && init[i].date == date;
        assert rows[i] == init[i];
      }
    }
  }

  /** With at most one row per date, a date is held by one row or none. */
  lemma {:induction false} UniqueCountsOne(rows: seq<ApodRecord>, date: string)
    requires UniqueDates(rows)
    ensures CountDate(rows, date) <= 1
  {
    if rows != [] {
      var init := rows[..|rows| - 1];
      assert UniqueDates(init);
      UniqueCountsOne(init, date);
      CountDateZero(init, date);
    }
  }

  /** Appending a row whose date the `SELECT` did not find keeps one row per date. */
  lemma InsertAbsentKeepsUnique(rows: seq<ApodRecord>, row: ApodRecord)
    requires UniqueDates(rows) && FindDate(rows, row.date).None?
    ensures UniqueDates(rows + [row])
  {
    var all := rows + [row];
    forall i, j | 0 <= i < j < |all|
      ensures all[i].date != all[j].date
    {
      assert all[i] == rows[i];
      if j == |rows| {
        assert all[j] == row;
      } else {
        assert all[j] == rows[j];
      }
    }
  }
}

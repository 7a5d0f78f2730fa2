/** `handler` and `normalizeDate` of backend/functions/apod-photo-fetcher/index.ts: NASA's
    metadata is fetched, the NASA_APOD table is asked for the date, and only a new date is
    streamed to the bucket and inserted. NASA's and the image host's HTTP answers, the
    connection, each query's failure, the upload's failure and the driver's representation of
    a stored date are decided outside and passed in. */
module ApodFetcher {

  import opened Wrappers
  import opened Text
  import opened ApodTable
  import opened Transactions

  // ---------------------------------------------------------------------------
  // normalizeDate

  /** What the driver may hand back for the `date` column: a string, a `Date` (`None` for an
      invalid one, whose `toISOString` throws), or anything else with its `String` form. */
  datatype DateValue = TextValue(s: string) | DateObject(iso: Option<string>) | OtherValue(shown: string)

  /** `slice(0, 10)`. */
  function First10(s: string): (r: string)
    ensures |r| == if |s| < 10 then |s| else 10
    ensures r == s[..|r|]
  {
    if |s| < 10 then s else s[..10]
  }

  /** `normalizeDate`: the first ten characters of a string or of a `Date`'s ISO form; an
      error for anything else. */
  function NormalizeDate(v: DateValue): (r: Result<string, string>)
    ensures r.Err? <==> v.OtherValue? || v == DateObject(None)
    ensures v.OtherValue? ==> r == Err("Unexpected date value: " + v.shown)
    ensures v.TextValue? ==> r == Ok(First10(v.s))
  {
    match v
    case TextValue(s) => Ok(First10(s))
    case DateObject(iso) => if iso.Some? then Ok(First10(iso.value)) else Err("Invalid time value")
    case OtherValue(shown) => Err("Unexpected date value: " + shown)
  }

  /** A normalized date normalizes to itself. */
  lemma NormalizeIdempotent(v: DateValue)
    requires NormalizeDate(v).Ok?
    ensures NormalizeDate(TextValue(NormalizeDate(v).value)) == NormalizeDate(v)
  {
    var d := NormalizeDate(v).value;
    assert First10(d) == d;
  }

  /** The ISO form of a `Date` is its `YYYY-MM-DD` date, a `T`, and the time: normalizing
      gives back the date. */
  lemma NormalizeIsoForm(date: string, time: string)
    requires |date| == 10
    ensures NormalizeDate(DateObject(Some(date + "T" + time))) == Ok(date)
    ensures NormalizeDate(TextValue(date)) == Ok(date)
  {
    assert (date + "T" + time)[..10] == date;
    assert date[..10] == date;
  }

  // ---------------------------------------------------------------------------
  // The handler as a function

  /** An HTTP answer: `response.ok` and `response.status`. */
  datatype Reply = Reply(ok: bool, status: nat)

  /** The answers of the outside world. */
  datatype Outside = Outside(
    api: Reply,
    metadata: Metadata,
    connect: Option<string>,
    select: Option<string>,
    storedDate: string -> DateValue,
    image: Reply,
    upload: Option<string>,
    insert: Option<string>)

  const SelectSql: string :=
    "SELECT date, title, explanation, media_type, original_url, s3_object_id FROM NASA_APOD WHERE date = $1"
  const InsertSql: string :=
    "INSERT INTO NASA_APOD (date, title, explanation, media_type, original_url, s3_object_id) VALUES ($1, $2, $3, $4, $5, $6)"
  const ErrorPrefix: string := "Error processing NASA image: "

  /** The deterministic key of the image: `nasa-apod/{date}.{media_type}`. */
  function ObjectKey(m: Metadata): (key: string)
    ensures StartsWith(key, "nasa-apod/") && EndsWith(key, "." + m.mediaType)
  {
    "nasa-apod/" + m.date + "." + m.mediaType
  }

  /** Two dates of the same length (the API's `YYYY-MM-DD`) give the same key only with the
      same date and media type. */
  lemma ObjectKeyInjective(m: Metadata, n: Metadata)
    requires |m.date| == |n.date| && ObjectKey(m) == ObjectKey(n)
    ensures m.date == n.date && m.mediaType == n.mediaType
  {
    var k := ObjectKey(m);
    assert k[10..10 + |m.date|] == m.date;
    assert k[10..10 + |n.date|] == n.date;
    assert k[11 + |m.date|..] == m.mediaType;
    assert ObjectKey(n)[11 + |n.date|..] == n.mediaType;
  }

  function Failure(e: string): Response {
    Response(500, Body(ErrorPrefix + e, None, None, None, Some("error")))
  }

  /** The 409 answer for an existing row. */
  function Existing(row: ApodRecord, date: string): Response {
    Response(409, Body("NASA image already processed. Record already exists.",
                       Some(Metadata(date, row.explanation, row.mediaType, row.title, row.originalUrl)),
                       Some(row.s3ObjectId), Some("database"), None))
  }

  /** The 200 answer for a new date. */
  function Created(m: Metadata): Response {
    Response(200, Body("NASA image processing complete", Some(m), Some(ObjectKey(m)), Some("nasa_api"), None))
  }

  /** The row inserted for a new date. */
  function NewRow(m: Metadata): ApodRecord {
    ApodRecord(m.date, m.title, m.explanation, m.mediaType, m.url, ObjectKey(m))
  }

  /** What a run leaves behind: the table, the uploads, and the answer. */
  datatype Outcome = Outcome(rows: seq<ApodRecord>, uploads: seq<Upload>, response: Response)

  function Run(out: Outside, bucket: string, rows: seq<ApodRecord>): Outcome {
    if !out.api.ok then Outcome(rows, [], Failure("NASA API request failed with status: " + NatToString(out.api.status)))
    else if out.connect.Some? then Outcome(rows, [], Failure(out.connect.value))
    else if out.select.Some? then Outcome(rows, [], Failure(out.select.value))
    else
      match FindDate(rows, out.metadata.date)
      case Some(row) =>
        (match NormalizeDate(out.storedDate(row.date))
         case Err(e) => Outcome(rows, [], Failure(e))
         case Ok(d) => Outcome(rows, [], Existing(row, d)))
      case None =>
        if !out.image.ok then
          Outcome(rows, [], Failure("Failed to fetch image with status: " + NatToString(out.image.status)))
        else if out.upload.Some? then Outcome(rows, [], Failure(out.upload.value))
        else
          var uploads := [Upload(bucket, ObjectKey(out.metadata), out.metadata.url)];
          if out.insert.Some? then Outcome(rows, uploads, Failure(out.insert.value))
          else Outcome(rows + [NewRow(out.metadata)], uploads, Created(out.metadata))
  }

  /** The statements issued on the client, once it is connected. */
  function Queries(out: Outside, rows: seq<ApodRecord>): seq<Event> {
    if out.select.Some? || FindDate(rows, out.metadata.date).Some? || !out.image.ok || out.upload.Some? then
      [Issued(SelectSql)]
    else [Issued(SelectSql), Issued(InsertSql)]
  }

  // ---------------------------------------------------------------------------
  // The handler

  /** `handler`: the answer, the table and the uploads as `Run` says; the client, when one
      was connected, is closed whatever happened after. */
  method Handler(out: Outside, bucket: string, table: NasaApodTable)
    returns (resp: Response, uploads: seq<Upload>, db: Option<Client>)
    modifies table
    ensures resp == Run(out, bucket, old(table.rows)).response
    ensures uploads == Run(out, bucket, old(table.rows)).uploads
    ensures table.rows == Run(out, bucket, old(table.rows)).rows
    ensures db.Some? <==> out.api.ok && out.connect.None?
    ensures db.Some? ==> fresh(db.value) && db.value.log == [Connect] + Queries(out, old(table.rows)) + [End]
  {
    uploads := [];
    db := None;
    if !out.api.ok {
      resp := Failure("NASA API request failed with status: " + NatToString(out.api.status));
      return;
    }
    var m := out.metadata;
    var connected := GetDbClientAwaited(out.connect);
    if connected.Err? {
      resp := Failure(connected.error);
      return;
    }
    var client := connected.value;
    db := Some(client);
    resp, uploads := Process(out, bucket, table, client, m);
    client.Close();
  }

  /** The body of the `try` once the client is connected. */
  method Process(out: Outside, bucket: string, table: NasaApodTable, client: Client, m: Metadata)
    returns (resp: Response, uploads: seq<Upload>)
    requires out.api.ok && out.connect.None? && m == out.metadata
    modifies table, client
    ensures resp == Run(out, bucket, old(table.rows)).response
    ensures uploads == Run(out, bucket, old(table.rows)).uploads
    ensures table.rows == Run(out, bucket, old(table.rows)).rows
    ensures client.log == old(client.log) + Queries(out, old(table.rows))
  {
    uploads := [];
    var thrown := client.Query(SelectSql, out.select);
    if thrown.Some? {
      resp := Failure(thrown.value);
      return;
    }
    var existing := table.Select(m.date);
    if existing.Some? {
      var date := NormalizeDate(out.storedDate(existing.value.date));
      if date.Err? {
        resp := Failure(date.error);
      } else {
        resp := Existing(existing.value, date.value);
      }
      return;
    }
    var key := ObjectKey(m);
    if !out.image.ok {
      resp := Failure("Failed to fetch image with status: " + NatToString(out.image.status));
      return;
    }
    if out.upload.Some? {
      resp := Failure(out.upload.value);
      return;
    }
    uploads := [Upload(bucket, key, m.url)];
    thrown := client.Query(InsertSql, out.insert);
    if thrown.Some? {
      resp := Failure(thrown.value);
      return;
    }
    table.Insert(NewRow(m));
    resp := Created(m);
  }

  // ---------------------------------------------------------------------------
  // Properties

  /** An existing date: 409 with the stored fields, no upload and no insert (unless its
      stored date cannot be normalized, which is a 500). */
  lemma ExistingUntouched(out: Outside, bucket: string, rows: seq<ApodRecord>)
    requires out.api.ok && out.connect.None? && out.select.None?
    requires FindDate(rows, out.metadata.date).Some?
    ensures var o := Run(out, bucket, rows);
            o.rows == rows && o.uploads == []
            && (o.response.statusCode == 409 <==> NormalizeDate(out.storedDate(out.metadata.date)).Ok?)
            && (o.response.statusCode == 409 ==>
                  o.response.body.source == Some("database")
                  && o.response.body.s3ObjectId == Some(FindDate(rows, out.metadata.date).value.s3ObjectId))
  {
  }

  /** The table changes only by the one new row of a date it did not hold, stored under
      the date's key, and only with a 200. */
  lemma RunAddsAtMostOne(out: Outside, bucket: string, rows: seq<ApodRecord>)
    ensures var o := Run(out, bucket, rows);
            (o.rows == rows && o.response.statusCode != 200)
            || (o.response.statusCode == 200 && FindDate(rows, out.metadata.date).None?
                && o.rows == rows + [NewRow(out.metadata)]
                && o.uploads == [Upload(bucket, ObjectKey(out.metadata), out.metadata.url)]
                && o.response.body.source == Some("nasa_api"))
  {
  }

  /** One row per date is kept. */
  lemma RunKeepsUnique(out: Outside, bucket: string, rows: seq<ApodRecord>)
    requires UniqueDates(rows)
    ensures UniqueDates(Run(out, bucket, rows).rows)
  {
    RunAddsAtMostOne(out, bucket, rows);
    if Run(out, bucket, rows).rows != rows {
      InsertAbsentKeepsUnique(rows, NewRow(out.metadata));
    }
  }

  /** No error is lost: the answer is 200, 409, or a 500 whose message carries the prefix. */
  lemma Answers(out: Outside, bucket: string, rows: seq<ApodRecord>)
    ensures var r := Run(out, bucket, rows).response;
            r.statusCode in {200, 409, 500}
            && (r.statusCode == 500 <==> r.body.status == Some("error"))
            && (r.statusCode == 500 ==> StartsWith(r.body.message, ErrorPrefix))
  {
  }

  /** A world where nothing fails. */
  predicate Smooth(out: Outside) {
    out.api.ok && out.connect.None? && out.select.None? && out.image.ok && out.upload.None? && out.insert.None?
  }

  /** Two runs for the same date leave exactly one row for it: the first inserts it (when
      missing), the second answers 409. */
  lemma TwoRuns(out: Outside, bucket: string, rows: seq<ApodRecord>)
    requires Smooth(out) && UniqueDates(rows)
    requires NormalizeDate(out.storedDate(out.metadata.date)).Ok?
    ensures var first := Run(out, bucket, rows);
            var second := Run(out, bucket, first.rows);
            second.response.statusCode == 409 && second.rows == first.rows
            && CountDate(second.rows, out.metadata.date) == 1
  {
    var d := out.metadata.date;
    var first := Run(out, bucket, rows);
    RunKeepsUnique(out, bucket, rows);
    if FindDate(rows, d).None? {
      assert first.rows == rows + [NewRow(out.metadata)];
      CountDateZero(rows, d);
      CountDateSnoc(rows, NewRow(out.metadata), d);
      assert first.rows[|rows|] == NewRow(out.metadata);
      assert FindDate(first.rows, d).Some?;
    } else {
      CountDateZero(rows, d);
      UniqueCountsOne(rows, d);
    }
  }
}

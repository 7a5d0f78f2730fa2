/** `handler` of backend/functions/nasa_photo_fetcher/index.py: the environment is read
    first, outside the `try`; then NASA's metadata is fetched, the NASA_APOD table is asked
    for the date, and only a new date is uploaded, inserted and committed. NASA's answer,
    the connection, each statement's failure, the image download and the upload are decided
    outside and passed in. */
module ApodFetcherPython {

  import opened Wrappers
  import opened Text
  import opened ApodTable

  /** The environment variables the handler reads. */
  type Env = map<string, string>

  /** The values the handler reads before its `try`: the API key, the database URL and the
      bucket. */
  datatype Settings = Settings(apiKey: string, databaseUrl: string, bucket: string)

  /** `os.environ[...]` in order; a missing name escapes as a `KeyError` naming it. The test
      database's URL wins when it is set and not empty. */
  function ReadSettings(env: Env): (r: Result<Settings, string>)
    ensures r.Ok? <==> "NASA_API_KEY" in env && "APOD_IMAGE_BUCKET_NAME" in env
                       && (("DATABASE_URL_TEST" in env && env["DATABASE_URL_TEST"] != "") || "DATABASE_URL" in env)
    ensures r.Ok? ==> r.value.apiKey == env["NASA_API_KEY"] && r.value.bucket == env["APOD_IMAGE_BUCKET_NAME"]
  {
    if "NASA_API_KEY" !in env then Err("NASA_API_KEY")
    else
      var url := if "DATABASE_URL_TEST" in env && env["DATABASE_URL_TEST"] != "" then Some(env["DATABASE_URL_TEST"])
                 else if "DATABASE_URL" in env then Some(env["DATABASE_URL"]) else None;
      if url.None? then Err("DATABASE_URL")
      else if "APOD_IMAGE_BUCKET_NAME" !in env then Err("APOD_IMAGE_BUCKET_NAME")
      else Ok(Settings(env["NASA_API_KEY"], url.value, env["APOD_IMAGE_BUCKET_NAME"]))
  }

  /** The answers of the outside world: NASA's metadata or the text of the raised error, the
      connection's, the `SELECT`'s, the download's, the upload's, the `INSERT`'s and the
      commit's errors. */
  datatype Outside = Outside(
    api: Result<Metadata, string>,
    connect: Option<string>,
    select: Option<string>,
    download: Option<string>,
    upload: Option<string>,
    insert: Option<string>,
    commit: Option<string>)

  const ErrorPrefix: string := "Error processing NASA image: "

  /** The key of the image: `nasa-apod/{date}.jpg`, whatever the media type. */
  function ObjectKey(date: string): (key: string)
    ensures StartsWith(key, "nasa-apod/") && EndsWith(key, ".jpg") && |key| == |date| + 14
    ensures key[10..10 + |date|] == date
  {
    "nasa-apod/" + date + ".jpg"
  }

  /** The key gives back its date. */
  lemma ObjectKeyInjective(a: string, b: string)
    requires ObjectKey(a) == ObjectKey(b)
    ensures a == b
  {
  }

  function Failure(e: string): Response {
    Response(500, Body(ErrorPrefix + e, None, None, None, Some("error")))
  }

  /** The answer for an existing row: 200, its fields as stored, source "database". */
  function Existing(row: ApodRecord): Response {
    Response(200, Body("NASA image already processed",
                       Some(Metadata(row.date, row.explanation, row.mediaType, row.title, row.originalUrl)),
                       Some(row.s3ObjectId), Some("database"), None))
  }

  /** The answer for a new date: NASA's metadata as received. */
  function Created(m: Metadata): Response {
    Response(200, Body("NASA image processing complete", Some(m), Some(ObjectKey(m.date)), Some("nasa_api"), None))
  }

  /** The row inserted for a new date: its media type is always "image". */
  function NewRow(m: Metadata): ApodRecord {
    ApodRecord(m.date, m.title, m.explanation, "image", m.url, ObjectKey(m.date))
  }

  /** What a run leaves behind: the table, the uploads, and the answer or the escaped
      exception. */
  datatype Outcome = Outcome(rows: seq<ApodRecord>, uploads: seq<Upload>, response: Result<Response, string>)

  function Run(env: Env, out: Outside, rows: seq<ApodRecord>): Outcome {
    match ReadSettings(env)
    case Err(missing) => Outcome(rows, [], Err(missing))
    case Ok(settings) =>
      if out.api.Err? then Outcome(rows, [], Ok(Failure(out.api.error)))
      else if out.connect.Some? then Outcome(rows, [], Ok(Failure(out.connect.value)))
      else if out.select.Some? then Outcome(rows, [], Ok(Failure(out.select.value)))
      else
        var m := out.api.value;
        match FindDate(rows, m.date)
        case Some(row) => Outcome(rows, [], Ok(Existing(row)))
        case None =>
          if out.download.Some? then Outcome(rows, [], Ok(Failure(out.download.value)))
          else if out.upload.Some? then Outcome(rows, [], Ok(Failure(out.upload.value)))
          else
            var uploads := [Upload(settings.bucket, ObjectKey(m.date), m.url)];
            if out.insert.Some? then Outcome(rows, uploads, Ok(Failure(out.insert.value)))
            else if out.commit.Some? then Outcome(rows, uploads, Ok(Failure(out.commit.value)))
            else Outcome(rows + [NewRow(m)], uploads, Ok(Created(m)))
  }

  /** `handler`: the table changes only by a committed insert. */
  method Handler(env: Env, out: Outside, table: NasaApodTable)
    returns (r: Result<Response, string>, uploads: seq<Upload>)
    modifies table
    ensures r == Run(env, out, old(table.rows)).response
    ensures uploads == Run(env, out, old(table.rows)).uploads
    ensures table.rows == Run(env, out, old(table.rows)).rows
  {
    uploads := [];
    var settings := ReadSettings(env);
    if settings.Err? {
      return Err(settings.error), [];
    }
    if out.api.Err? {
      return Ok(Failure(out.api.error)), [];
    }
    var m := out.api.value;
    if out.connect.Some? {
      return Ok(Failure(out.connect.value)), [];
    }
    if out.select.Some? {
      return Ok(Failure(out.select.value)), [];
    }
    var existing := table.Select(m.date);
    if existing.Some? {
      return Ok(Existing(existing.value)), [];
    }
    var key := ObjectKey(m.date);
    if out.download.Some? {
      return Ok(Failure(out.download.value)), [];
    }
    if out.upload.Some? {
      return Ok(Failure(out.upload.value)), [];
    }
    uploads := [Upload(settings.value.bucket, key, m.url)];
    if out.insert.Some? {
      return Ok(Failure(out.insert.value)), uploads;
    }
    if out.commit.Some? {
      return Ok(Failure(out.commit.value)), uploads;
    }
    table.Insert(NewRow(m));
    r := Ok(Created(m));
  }

  // ---------------------------------------------------------------------------
  // Properties

  /** An existing date answers 200 "already processed" from the database, with nothing
      uploaded or inserted. */
  lemma ExistingUntouched(env: Env, out: Outside, rows: seq<ApodRecord>)
    requires ReadSettings(env).Ok? && out.api.Ok? && out.connect.None? && out.select.None?
    requires FindDate(rows, out.api.value.date).Some?
    ensures var o := Run(env, out, rows);
            o.rows == rows && o.uploads == []
            && o.response == Ok(Existing(FindDate(rows, out.api.value.date).value))
            && o.response.value.statusCode == 200 && o.response.value.body.source == Some("database")
  {
  }

  /** The table changes only by the one new row of a date it did not hold, and that row's
      media type is "image". */
  lemma RunAddsAtMostOne(env: Env, out: Outside, rows: seq<ApodRecord>)
    ensures var o := Run(env, out, rows);
            o.rows == rows
            || (out.api.Ok? && FindDate(rows, out.api.value.date).None?
                && o.rows == rows + [NewRow(out.api.value)] && NewRow(out.api.value).mediaType == "image"
                && o.response == Ok(Created(out.api.value)))
  {
  }

  /** One row per date is kept, so repeated runs leave at most one row per date. */
  lemma RunKeepsUnique(env: Env, out: Outside, rows: seq<ApodRecord>)
    requires UniqueDates(rows)
    ensures UniqueDates(Run(env, out, rows).rows)
  {
    RunAddsAtMostOne(env, out, rows);
    if Run(env, out, rows).rows != rows {
      InsertAbsentKeepsUnique(rows, NewRow(out.api.value));
    }
  }

  /** A missing variable escapes; every failure inside the `try` is a 500 with the prefix;
      the rest is 200. */
  lemma Answers(env: Env, out: Outside, rows: seq<ApodRecord>)
    ensures var r := Run(env, out, rows).response;
            (r.Err? <==> ReadSettings(env).Err?)
            && (r.Ok? ==> r.value.statusCode in {200, 500}
                          && (r.value.statusCode == 500 <==> r.value.body.status == Some("error"))
                          && (r.value.statusCode == 500 ==> StartsWith(r.value.body.message, ErrorPrefix)))
  {
  }

  /** A failing NASA request leaves everything as it was and answers 500. */
  lemma ApiFailure(env: Env, out: Outside, rows: seq<ApodRecord>)
    requires ReadSettings(env).Ok? && out.api.Err?
    ensures Run(env, out, rows) == Outcome(rows, [], Ok(Failure(out.api.error)))
  {
  }
}

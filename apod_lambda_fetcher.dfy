/** `handler` of lambda/src/notifications/nasa-photo-fetcher/index.py: NASA's metadata, the
    image (the HD one when offered) stored in the bucket under a key made from the day's UTC
    date, then the metadata item saved in the DynamoDB table; every error is re-raised. The
    bucket and the table are a class whose contents the two `StorageHelper` methods update;
    NASA's answer, the download, the failures of the two writes and the clock are passed in. */
module ApodLambdaFetcher {

  import opened Wrappers
  import opened Text

  /** The fields of NASA's answer the handler reads. */
  datatype ImageData = ImageData(date: string, title: string, explanation: string, mediaType: string,
                                 url: string, hdurl: Option<string>)

  /** A calendar date of the clock. */
  datatype UtcDate = UtcDate(year: nat, month: nat, day: nat)

  /** The four-digit years of the clock, months and days of month. */
  predicate ValidDate(d: UtcDate) {
    1000 <= d.year <= 9999 && 1 <= d.month <= 12 && 1 <= d.day <= 31
  }

  /** The item written to the metadata table. */
  datatype Item = Item(id: string, title: string, explanation: string, date: string, originalUrl: string,
                       s3Key: string, mediaType: string, createdAt: string)

  /** What the handler wrote, in order. */
  datatype Effect = StoredImage(key: string) | SavedItem(id: string)

  // ---------------------------------------------------------------------------
  // The key

  /** `image_data["hdurl"] if "hdurl" in image_data else image_data["url"]`. */
  function ImageUrl(d: ImageData): (u: string)
    ensures d.hdurl.Some? ==> u == d.hdurl.value
    ensures d.hdurl.None? ==> u == d.url
  {
    if d.hdurl.Some? then d.hdurl.value else d.url
  }

  /** `strftime("%Y/%m/%d")`. */
  function DatePath(d: UtcDate): string {
    NatToString(d.year) + "/" + PadStart2(NatToString(d.month)) + "/" + PadStart2(NatToString(d.day))
  }

  /** The folder and the file-name prefix of every key. */
  const KeyPrefix: string := "nasa_images/nasa_apod_"

  /** `nasa_images/nasa_apod_{date_str.replace('/', '_')}.jpg` for the text `date_str`. */
  function KeyOf(datePath: string): string {
    KeyPrefix + ReplaceAll(datePath, "/", "_") + ".jpg"
  }

  /** The key of the clock's date. */
  function S3Key(d: UtcDate): string {
    KeyOf(DatePath(d))
  }

  lemma {:induction false} ReplaceSlashFree(s: string)
    requires forall i :: 0 <= i < |s| ==> s[i] != '/'
    ensures ReplaceAll(s, "/", "_") == s
  {
    if s != [] {
      assert s[..1] != "/" by { assert s[..1][0] == s[0]; }
      ReplaceSlashFree(s[1..]);
    }
  }

  lemma {:induction false} ReplaceSlashConcat(a: string, b: string)
    ensures ReplaceAll(a + b, "/", "_") == ReplaceAll(a, "/", "_") + ReplaceAll(b, "/", "_")
  {
    if a != [] {
      assert (a + b)[..1] == a[..1];
      assert (a + b)[1..] == a[1..] + b;
      assert (a + b)[0] == a[0];
      ReplaceSlashConcat(a[1..], b);
    } else {
      assert a + b == b;
    }
  }

  /** Two digits: the text of a number below 100, padded to two characters. */
  lemma TwoDigits(n: nat)
    requires n < 100
    ensures PadStart2(NatToString(n)) == [DigitChar(n / 10), DigitChar(n % 10)]
  {
    if n < 10 {
      assert NatToString(n) == [DigitChar(n)];
      assert PadStart2(NatToString(n)) == "0" + [DigitChar(n)];
      assert DigitChar(0) == '0';
    } else {
      assert NatToString(n / 10) == [DigitChar(n / 10)];
    }
  }

  /** Four digits: the text of a four-digit year. */
  lemma FourDigits(n: nat)
    requires 1000 <= n <= 9999
    ensures |NatToString(n)| == 4
  {
    assert NatToString(n / 1000) == [DigitChar(n / 1000)];
    assert NatToString(n / 100) == NatToString(n / 1000) + [DigitChar(n / 100 % 10)];
    assert NatToString(n / 10) == NatToString(n / 100) + [DigitChar(n / 10 % 10)];
  }

  lemma DigitCharInjective(a: nat, b: nat)
    requires a < 10 && b < 10 && DigitChar(a) == DigitChar(b)
    ensures a == b
  {
  }

  lemma TwoDigitsInjective(a: nat, b: nat)
    requires a < 100 && b < 100 && PadStart2(NatToString(a)) == PadStart2(NatToString(b))
    ensures a == b
  {
    TwoDigits(a);
    TwoDigits(b);
    DigitCharInjective(a / 10, b / 10);
    DigitCharInjective(a % 10, b % 10);
  }

  predicate NoSlash(s: string) {
    forall i :: 0 <= i < |s| ==> s[i] != '/'
  }

  /** The three parts of the key: the year, the month and the day, as printed. */
  function YearText(d: UtcDate): string { NatToString(d.year) }
  function MonthText(d: UtcDate): string { PadStart2(NatToString(d.month)) }
  function DayText(d: UtcDate): string { PadStart2(NatToString(d.day)) }

  lemma DigitsNoSlash(s: string)
    requires AllDigits(s)
    ensures NoSlash(s)
  {
    assert forall i :: 0 <= i < |s| ==> IsDigit(s[i]);
  }

  /** A four-digit year prints as four digits. */
  lemma YearPrinted(n: nat)
    requires 1000 <= n <= 9999
    ensures |NatToString(n)| == 4 && NoSlash(NatToString(n))
  {
    FourDigits(n);
    DigitsNoSlash(NatToString(n));
  }

  lemma PairNoSlash(a: char, b: char)
    requires IsDigit(a) && IsDigit(b)
    ensures NoSlash([a, b])
  {
  }

  /** A month or a day prints as two digits. */
  lemma TwoPrinted(n: nat)
    requires n < 100
    ensures |PadStart2(NatToString(n))| == 2 && NoSlash(PadStart2(NatToString(n)))
  {
    TwoDigits(n);
    PairNoSlash(DigitChar(n / 10), DigitChar(n % 10));
  }

  lemma PartsPrinted(d: UtcDate)
    requires ValidDate(d)
    ensures |YearText(d)| == 4 && |MonthText(d)| == 2 && |DayText(d)| == 2
    ensures NoSlash(YearText(d)) && NoSlash(MonthText(d)) && NoSlash(DayText(d))
  {
    YearPrinted(d.year);
    TwoPrinted(d.month);
    TwoPrinted(d.day);
  }

  /** Each slash of `y/m/d` becomes an underscore. */
  lemma ReplacePath(y: string, m: string, dd: string)
    requires NoSlash(y) && NoSlash(m) && NoSlash(dd)
    ensures ReplaceAll(y + "/" + m + "/" + dd, "/", "_") == y + "_" + m + "_" + dd
  {
    ReplaceSlashFree(y);
    ReplaceSlashFree(m);
    ReplaceSlashFree(dd);
    ReplaceSlashConcat(y + "/" + m + "/", dd);
    ReplaceSlashConcat(y + "/" + m, "/");
    ReplaceSlashConcat(y + "/", m);
    ReplaceSlashConcat(y, "/");
    assert ReplaceAll("/", "/", "_") == "_" by {
      assert "/"[..1] == "/";
      assert "/"[1..] == [];
    }
  }

  /** The key is `nasa_images/nasa_apod_YYYY_MM_DD.jpg`. */
  lemma KeyLayout(d: UtcDate)
    requires ValidDate(d)
    ensures S3Key(d) == KeyPrefix + YearText(d) + "_" + MonthText(d) + "_" + DayText(d) + ".jpg"
    ensures |YearText(d)| == 4 && |MonthText(d)| == 2 && |DayText(d)| == 2
  {
    PartsPrinted(d);
    var y, m, dd := YearText(d), MonthText(d), DayText(d);
    var path := DatePath(d);
    assert path == y + "/" + m + "/" + dd;
    ReplacePath(y, m, dd);
    var r := ReplaceAll(path, "/", "_");
    assert S3Key(d) == KeyPrefix + r + ".jpg";
    assert r == y + "_" + m + "_" + dd;
    Regroup(KeyPrefix, y, "_", m, dd, ".jpg");
  }

  /** Helper for `KeyLayout`: string concatenation regrouped. Not a modelled property. */
  lemma Regroup(p: string, y: string, sep: string, m: string, dd: string, ext: string)
    ensures p + (y + sep + m + sep + dd) + ext == p + y + sep + m + sep + dd + ext
  {
  }

  /** Helper for `KeyParts`: where the parts sit in a key of that layout. Not a modelled property. */
  lemma PartsAt(p: string, y: string, m: string, dd: string, ext: string)
    requires |p| == 22 && |y| == 4 && |m| == 2 && |dd| == 2
    ensures var k := p + y + "_" + m + "_" + dd + ext;
            k[22..26] == y && k[27..29] == m && k[30..32] == dd
  {
  }

  /** Each day has its own key: the key gives back the date. */
  lemma KeyInjective(d: UtcDate, e: UtcDate)
    requires ValidDate(d) && ValidDate(e) && S3Key(d) == S3Key(e)
    ensures d == e
  {
    var k := S3Key(d);
    KeyParts(d);
    KeyParts(e);
    assert YearText(d) == YearText(e) && MonthText(d) == MonthText(e) && DayText(d) == DayText(e);
    NatToStringInjective(d.year, e.year);
    TwoDigitsInjective(d.month, e.month);
    TwoDigitsInjective(d.day, e.day);
  }

  /** The parts can be read back from fixed positions of the key. */
  lemma KeyParts(d: UtcDate)
    requires ValidDate(d)
    ensures |S3Key(d)| >= 32
    ensures S3Key(d)[22..26] == YearText(d) && S3Key(d)[27..29] == MonthText(d)
            && S3Key(d)[30..32] == DayText(d)
  {
    KeyLayout(d);
    assert |KeyPrefix| == 22;
    PartsAt(KeyPrefix, YearText(d), MonthText(d), DayText(d), ".jpg");
  }

  // ---------------------------------------------------------------------------
  // The bucket and the table

  class StorageHelper {
    var objects: map<string, seq<bv8>>
    var items: map<string, Item>
    var effects: seq<Effect>

    constructor (objects0: map<string, seq<bv8>>, items0: map<string, Item>)
      ensures objects == objects0 && items == items0 && effects == []
    {
      objects := objects0;
      items := items0;
      effects := [];
    }

    /** `store_image`: `put_object` replaces whatever the key held, unless it fails. */
    method StoreImage(key: string, content: seq<bv8>, fails: Option<string>) returns (thrown: Option<string>)
      modifies this
      ensures thrown == fails
      ensures objects == if fails.None? then old(objects)[key := content] else old(objects)
      ensures items == old(items)
      ensures effects == old(effects) + if fails.None? then [StoredImage(key)] else []
    {
      thrown := fails;
      if fails.None? {
        objects := objects[key := content];
        effects := effects + [StoredImage(key)];
      }
    }

    /** `save_metadata`: `put_item` replaces the item with the same id, unless it fails. */
    method SaveMetadata(item: Item, fails: Option<string>) returns (thrown: Option<string>)
      modifies this
      ensures thrown == fails
      ensures items == if fails.None? then old(items)[item.id := item] else old(items)
      ensures objects == old(objects)
      ensures effects == old(effects) + if fails.None? then [SavedItem(item.id)] else []
    {
      thrown := fails;
      if fails.None? {
        items := items[item.id := item];
        effects := effects + [SavedItem(item.id)];
      }
    }
  }

  // ---------------------------------------------------------------------------
  // The handler

  /** The answers of the outside world: NASA's metadata or the raised error, the download of
      a URL, and the failures of the two writes. */
  datatype Outside = Outside(
    api: Result<ImageData, string>,
    download: string -> Result<seq<bv8>, string>,
    store: Option<string>,
    save: Option<string>)

  datatype Response = Response(statusCode: int, message: string, metadata: Item)

  /** The metadata item: its id from NASA's date, its key from the clock's date. */
  function MetadataItem(data: ImageData, key: string, createdAt: string): (item: Item)
    ensures item.id == "nasa_apod_" + data.date && item.date == data.date
    ensures item.originalUrl == ImageUrl(data) && item.s3Key == key
  {
    Item("nasa_apod_" + data.date, data.title, data.explanation, data.date, ImageUrl(data), key, data.mediaType, createdAt)
  }

  /** What a run writes and answers: the image stored (key and bytes), the item saved, and
      the answer or the re-raised error. */
  datatype Outcome = Outcome(stored: Option<(string, seq<bv8>)>, saved: Option<Item>, result: Result<Response, string>)

  /** `handler` with the clock's date, printed as `%Y/%m/%d`, for the key and its time for
      `created_at`. */
  function Run(out: Outside, datePath: string, createdAt: string): Outcome {
    match out.api
    case Err(e) => Outcome(None, None, Err(e))
    case Ok(data) =>
      match out.download(ImageUrl(data))
      case Err(e) => Outcome(None, None, Err(e))
      case Ok(content) =>
        var key := KeyOf(datePath);
        if out.store.Some? then Outcome(None, None, Err(out.store.value))
        else
          var item := MetadataItem(data, key, createdAt);
          if out.save.Some? then Outcome(Some((key, content)), None, Err(out.save.value))
          else Outcome(Some((key, content)), Some(item),
                       Ok(Response(200, "Successfully processed NASA image of the day", item)))
  }

  function Written(o: Outcome): seq<Effect> {
    (if o.stored.Some? then [StoredImage(o.stored.value.0)] else [])
    + (if o.saved.Some? then [SavedItem(o.saved.value.id)] else [])
  }

  /** `handler` on the clock's date: the date printed, then the run. */
  method Handler(out: Outside, today: UtcDate, createdAt: string, storage: StorageHelper)
    returns (r: Result<Response, string>)
    modifies storage
    ensures r == Run(out, DatePath(today), createdAt).result
    ensures Wrote(Run(out, DatePath(today), createdAt), old(storage.objects), old(storage.items), old(storage.effects),
                  storage.objects, storage.items, storage.effects)
  {
    var datePath := DatePath(today);
    r := Archive(out, datePath, createdAt, storage);
  }

  /** The bucket, the table and the write log after a run, from those before. */
  predicate Wrote(o: Outcome, objects: map<string, seq<bv8>>, items: map<string, Item>, effects: seq<Effect>,
                  objects': map<string, seq<bv8>>, items': map<string, Item>, effects': seq<Effect>)
  {
    objects' == (if o.stored.Some? then objects[o.stored.value.0 := o.stored.value.1] else objects)
    && items' == (if o.saved.Some? then items[o.saved.value.id := o.saved.value] else items)
    && effects' == effects + Written(o)
  }

  /** The body of the `try`, with the date already printed. */
  method Archive(out: Outside, datePath: string, createdAt: string, storage: StorageHelper)
    returns (r: Result<Response, string>)
    modifies storage
    ensures r == Run(out, datePath, createdAt).result
    ensures Wrote(Run(out, datePath, createdAt), old(storage.objects), old(storage.items), old(storage.effects),
                  storage.objects, storage.items, storage.effects)
  {
    if out.api.Err? {
      return Err(out.api.error);
    }
    var data := out.api.value;
    var imageUrl := ImageUrl(data);
    var content := out.download(imageUrl);
    if content.Err? {
      return Err(content.error);
    }
    var key := KeyOf(datePath);
    var thrown := storage.StoreImage(key, content.value, out.store);
    if thrown.Some? {
      return Err(thrown.value);
    }
    var item := MetadataItem(data, key, createdAt);
    thrown := storage.SaveMetadata(item, out.save);
    if thrown.Some? {
      return Err(thrown.value);
    }
    r := Ok(Response(200, "Successfully processed NASA image of the day", item));
  }

  // ---------------------------------------------------------------------------
  // Properties

  /** The item is saved only after the image is stored, and names the stored key; the key
      comes from the clock, not from NASA's date. */
  lemma StoredBeforeSaved(out: Outside, datePath: string, createdAt: string)
    ensures var o := Run(out, datePath, createdAt);
            (o.saved.Some? ==> o.stored.Some? && o.saved.value.s3Key == o.stored.value.0)
            && (o.stored.Some? ==> o.stored.value.0 == KeyOf(datePath))
  {
  }

  /** So the writes are none, the image alone, or the image then the item. */
  lemma WrittenInOrder(out: Outside, datePath: string, createdAt: string)
    ensures var o := Run(out, datePath, createdAt);
            var w := Written(o);
            w == [] || w == [StoredImage(KeyOf(datePath))]
            || (o.saved.Some? && w == [StoredImage(KeyOf(datePath)), SavedItem(o.saved.value.id)])
  {
    var o := Run(out, datePath, createdAt);
    StoredBeforeSaved(out, datePath, createdAt);
    if o.stored.None? {
      assert Written(o) == [] + [];
    } else if o.saved.None? {
      assert Written(o) == [StoredImage(KeyOf(datePath))] + [];
    }
  }

  /** A success writes both, the item describing NASA's image: its id and date from NASA's
      date, its URL the one downloaded. */
  lemma SuccessWritesBoth(out: Outside, datePath: string, createdAt: string)
    requires Run(out, datePath, createdAt).result.Ok?
    ensures var o := Run(out, datePath, createdAt);
            out.api.Ok? && o.stored.Some? && o.saved.Some?
            && o.saved.value == o.result.value.metadata
            && o.saved.value.id == "nasa_apod_" + out.api.value.date
            && o.saved.value.originalUrl == ImageUrl(out.api.value)
            && o.stored.value.1 == out.download(ImageUrl(out.api.value)).value
  {
  }

  /** Every failure is re-raised, first failure first, and nothing is written after it. */
  lemma FailuresReraised(out: Outside, datePath: string, createdAt: string)
    ensures var o := Run(out, datePath, createdAt);
            o.result.Err? <==> out.api.Err? || out.download(ImageUrl(out.api.value)).Err?
                               || out.store.Some? || out.save.Some?
    ensures var o := Run(out, datePath, createdAt);
            out.api.Err? ==> o == Outcome(None, None, Err(out.api.error))
  {
  }

  /** Runs on two different days store under two different keys, whatever NASA answers. */
  lemma DaysKeptApart(out: Outside, other: Outside, d: UtcDate, e: UtcDate, createdAt: string)
    requires ValidDate(d) && ValidDate(e) && d != e
    requires Run(out, DatePath(d), createdAt).stored.Some? && Run(other, DatePath(e), createdAt).stored.Some?
    ensures Run(out, DatePath(d), createdAt).stored.value.0 != Run(other, DatePath(e), createdAt).stored.value.0
  {
    if S3Key(d) == S3Key(e) {
      KeyInjective(d, e);
    }
  }
}

/** lambda/src/notifications/nasa-photo-sender/main.py: `get_latest_nasa_photo` picks the
    item with the latest date among the scanned items, and `handler` sends it, through a
    presigned URL of its stored image, to the one target number; every error is re-raised.
    The scan, the bucket variable, the presigner and Twilio's answer are passed in. */
module ApodSender {

  import opened Wrappers
  import opened Text
  import opened NotificationMessages

  /** A scanned item of the metadata table. */
  datatype PhotoItem = PhotoItem(id: string, date: string, explanation: string, s3Key: string)

  const NoPhotos: string := "No NASA photos found in database"

  /** How long the presigned URL stays valid, in seconds. */
  const ExpiresIn: nat := 3600

  // ---------------------------------------------------------------------------
  // The latest photo

  /** The first item of `sorted(items, key=date, reverse=True)`: the sort is stable, so
      among equal dates the first in scan order stays in front. */
  function LatestIndex(items: seq<PhotoItem>): (k: nat)
    requires items != []
    ensures k < |items|
  {
    if |items| == 1 then 0
    else
      var k := LatestIndex(items[..|items| - 1]);
      if Less(items[k].date, items[|items| - 1].date) then |items| - 1 else k
  }

  /** The independent description: no item is later, and every item before it is earlier. */
  predicate IsFirstLatest(items: seq<PhotoItem>, k: nat) {
    k < |items|
    && (forall j :: 0 <= j < |items| ==> !Less(items[k].date, items[j].date))
    && (forall j :: 0 <= j < k ==> Less(items[j].date, items[k].date))
  }

  lemma {:induction false} LatestIndexIsFirstLatest(items: seq<PhotoItem>)
    requires items != []
    ensures IsFirstLatest(items, LatestIndex(items))
  {
    var n := |items|;
    if n == 1 {
      LessIrreflexive(items[0].date);
    } else {
      var init := items[..n - 1];
      var p := LatestIndex(init);
      var last := items[n - 1];
      LatestIndexIsFirstLatest(init);
      assert forall j :: 0 <= j < n - 1 ==> init[j] == items[j];
      if Less(items[p].date, last.date) {
        forall j | 0 <= j < n - 1
          ensures Less(items[j].date, last.date)
        {
          if items[j].date == items[p].date {
          } else {
            LessTotal(items[j].date, items[p].date);
            LessTransitive(items[j].date, items[p].date, last.date);
          }
        }
        forall j | 0 <= j < n
          ensures !Less(last.date, items[j].date)
        {
          if j < n - 1 {
            LessAsymmetric(items[j].date, last.date);
          } else {
            LessIrreflexive(last.date);
          }
        }
      }
    }
  }

  /** The description picks one item at most. */
  lemma FirstLatestUnique(items: seq<PhotoItem>, a: nat, b: nat)
    requires IsFirstLatest(items, a) && IsFirstLatest(items, b)
    ensures a == b
  {
    if a < b {
      LaterThanEarlier(items, a, b);
      assert false;
    } else if b < a {
      LaterThanEarlier(items, b, a);
      assert false;
    }
  }

  lemma LaterThanEarlier(items: seq<PhotoItem>, a: nat, b: nat)
    requires IsFirstLatest(items, b) && a < b
    ensures Less(items[a].date, items[b].date)
  {
  }

  /** `get_latest_nasa_photo` on the scanned items. */
  function Latest(items: seq<PhotoItem>): (r: Result<PhotoItem, string>)
    ensures r.Err? <==> items == []
    ensures r.Err? ==> r.error == NoPhotos
  {
    if items == [] then Err(NoPhotos) else Ok(items[LatestIndex(items)])
  }

  /** The latest photo is a scanned item that no item postdates, and every item before it
      in scan order is strictly earlier. */
  lemma LatestMeaning(items: seq<PhotoItem>)
    requires items != []
    ensures var p := Latest(items).value;
            p in items
            && (forall j :: 0 <= j < |items| ==> !Less(p.date, items[j].date))
            && (forall k: nat :: IsFirstLatest(items, k) ==> p == items[k])
  {
    LatestIndexIsFirstLatest(items);
    forall k: nat | IsFirstLatest(items, k)
      ensures Latest(items).value == items[k]
    {
      FirstLatestUnique(items, k, LatestIndex(items));
    }
  }

  // ---------------------------------------------------------------------------
  // Twilio

  /** A message as `messages.create` is asked for it. */
  datatype Sms = Sms(body: string, mediaUrls: seq<string>, fromNumber: string, toNumber: string)

  /** The body: the headline, then the description. */
  function BodyOf(description: string): (b: string)
    ensures StartsWith(b, Headline) && b[|Headline|..] == description
  {
    Headline + description
  }

  /** `TwilioHelper`: its sender and target numbers, and the messages it asked Twilio for. */
  class TwilioHelper {
    const fromNumber: string
    const toNumber: string
    var requests: seq<Sms>

    constructor (fromNumber: string, toNumber: string)
      ensures this.fromNumber == fromNumber && this.toNumber == toNumber && requests == []
    {
      this.fromNumber := fromNumber;
      this.toNumber := toNumber;
      requests := [];
    }

    /** `send_message`: one photo with the description; Twilio's SID or its error. */
    method SendMessage(photoUrl: string, description: string, send: Sms -> Result<string, string>)
      returns (sid: Result<string, string>)
      modifies this
      ensures requests == old(requests) + [Sms(BodyOf(description), [photoUrl], fromNumber, toNumber)]
      ensures sid == send(Sms(BodyOf(description), [photoUrl], fromNumber, toNumber))
    {
      var m := Sms(BodyOf(description), [photoUrl], fromNumber, toNumber);
      requests := requests + [m];
      sid := send(m);
    }
  }

  // ---------------------------------------------------------------------------
  // The handler

  /** The answers of the outside world: the scan's items or its error, the bucket variable,
      the presigner (bucket, key, lifetime) and Twilio's answer to a message. */
  datatype Outside = Outside(
    scan: Result<seq<PhotoItem>, string>,
    bucket: Option<string>,
    presign: (string, string, nat) -> Result<string, string>,
    send: Sms -> Result<string, string>)

  datatype Response = Response(statusCode: int, message: string, messageSid: string, photoId: string)

  /** What a run asks Twilio for, and its answer or re-raised error. */
  datatype Outcome = Outcome(requested: seq<Sms>, result: Result<Response, string>)

  function Run(out: Outside, fromNumber: string, toNumber: string): Outcome {
    if out.scan.Err? then Outcome([], Err(out.scan.error))
    else
      match Latest(out.scan.value)
      case Err(e) => Outcome([], Err(e))
      case Ok(photo) =>
        if out.bucket.None? then Outcome([], Err("STORAGE_BUCKET_NAME"))
        else
          match out.presign(out.bucket.value, photo.s3Key, ExpiresIn)
          case Err(e) => Outcome([], Err(e))
          case Ok(url) =>
            var m := Sms(BodyOf(photo.explanation), [url], fromNumber, toNumber);
            match out.send(m)
            case Err(e) => Outcome([m], Err(e))
            case Ok(sid) => Outcome([m], Ok(Response(200, "Successfully sent NASA photo", sid, photo.id)))
  }

  /** `handler`: the helper is made first; the latest photo, its presigned URL and the
      message follow, each failure re-raised. */
  method Handler(out: Outside, fromNumber: string, toNumber: string)
    returns (r: Result<Response, string>, twilio: TwilioHelper)
    ensures fresh(twilio) && twilio.fromNumber == fromNumber && twilio.toNumber == toNumber
    ensures twilio.requests == Run(out, fromNumber, toNumber).requested
    ensures r == Run(out, fromNumber, toNumber).result
  {
    twilio := new TwilioHelper(fromNumber, toNumber);
    if out.scan.Err? {
      return Err(out.scan.error), twilio;
    }
    var photo := Latest(out.scan.value);
    if photo.Err? {
      return Err(photo.error), twilio;
    }
    if out.bucket.None? {
      return Err("STORAGE_BUCKET_NAME"), twilio;
    }
    var url := out.presign(out.bucket.value, photo.value.s3Key, ExpiresIn);
    if url.Err? {
      return Err(url.error), twilio;
    }
    var sid := twilio.SendMessage(url.value, photo.value.explanation, out.send);
    if sid.Err? {
      return Err(sid.error), twilio;
    }
    r := Ok(Response(200, "Successfully sent NASA photo", sid.value, photo.value.id));
  }

  // ---------------------------------------------------------------------------
  // Properties

  /** An empty table raises "No NASA photos found in database" and sends nothing. */
  lemma EmptyScanRaises(out: Outside, fromNumber: string, toNumber: string)
    requires out.scan == Ok([])
    ensures Run(out, fromNumber, toNumber) == Outcome([], Err(NoPhotos))
  {
  }

  /** At most one message is asked for: the latest photo's explanation under the headline,
      with the one URL presigned for its key for an hour, to the target number. */
  lemma SendsLatest(out: Outside, fromNumber: string, toNumber: string)
    requires Run(out, fromNumber, toNumber).requested != []
    ensures out.scan.Ok? && out.scan.value != [] && out.bucket.Some?
    ensures var photo := Latest(out.scan.value).value;
            var url := out.presign(out.bucket.value, photo.s3Key, 3600);
            url.Ok?
            && Run(out, fromNumber, toNumber).requested == [Sms(BodyOf(photo.explanation), [url.value], fromNumber, toNumber)]
            && (forall j :: 0 <= j < |out.scan.value| ==> !Less(photo.date, out.scan.value[j].date))
  {
    LatestMeaning(out.scan.value);
  }

  /** A success names Twilio's SID and the sent photo's id; everything else is a re-raised
      error. */
  lemma Outcomes(out: Outside, fromNumber: string, toNumber: string)
    ensures var o := Run(out, fromNumber, toNumber);
            o.result.Ok? <==> o.requested != [] && out.send(o.requested[0]).Ok?
    ensures var o := Run(out, fromNumber, toNumber);
            o.result.Ok? ==> o.result.value.statusCode == 200
                             && o.result.value.messageSid == out.send(o.requested[0]).value
                             && o.result.value.photoId == Latest(out.scan.value).value.id
  {
  }
}

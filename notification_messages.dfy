/** `getNotificationContent` and `formatNotificationMessage`, the same in
    backend/functions/message-sender/index.ts and backend/functions/message_sender/index.ts
    apart from the photo type's name. */
module NotificationMessages {

  import opened Wrappers
  import opened Text

  /** The latest NASA_APOD row, or the fixed title and explanation of a type that has no
      content source yet. */
  datatype Content = Apod(title: string, explanation: string, url: string) | Placeholder(title: string, explanation: string)

  /** The body and the `media_urls` field, absent unless set. */
  datatype Message = Message(body: string, mediaUrls: Option<seq<string>>)

  /** The fixed content of each type but the photo, keyed by its position in the type list
      (1 celestial events, 2 weather outfits, 3 recipes, 4 sunset alerts), and of an
      unknown type. */
  function PlaceholderContent(position: nat): (c: Content)
    ensures c.Placeholder?
  {
    if position == 1 then Placeholder("Celestial Events", "No celestial events today")
    else if position == 2 then Placeholder("Weather Outfit Suggestions", "No weather outfit suggestions today")
    else if position == 3 then Placeholder("Recipe Suggestions", "No recipe suggestions today")
    else if position == 4 then Placeholder("Sunset Alerts", "No sunset alerts today")
    else Placeholder("Unknown Notification Type", "Unknown notification type")
  }

  /** `explanation.substring(0, 200)`. */
  function Excerpt(e: string): (r: string)
    ensures |r| <= 200 && |r| <= |e| && r == e[..|r|]
    ensures |r| == 200 || r == e
  {
    if |e| <= 200 then e else e[..200]
  }

  const Headline: string := "NASA's Astronomy Picture of the Day!\n\n"

  function Greeting(name: string): string {
    "Hi " + name + "! "
  }

  /** `formatNotificationMessage`: only the photo type has a body and a media list; every
      other type gets the empty body and no media. */
  function FormatMessage(isPhoto: bool, content: Content, name: string): (m: Message)
    requires isPhoto ==> content.Apod?
    ensures !isPhoto ==> m == Message("", None)
    ensures isPhoto ==> m.mediaUrls == Some([content.url])
  {
    if isPhoto then
      Message(Greeting(name) + Headline + content.title + "\n\n" + Excerpt(content.explanation) + "...", Some([content.url]))
    else Message("", None)
  }

  /** The photo body is the greeting, the headline, the title, a blank line, at most the
      first 200 characters of the explanation, and an ellipsis: the explanation is cut at 200
      characters, and one of at most 200 characters is kept whole. */
  lemma PhotoBody(content: Content, name: string)
    requires content.Apod?
    ensures var b := FormatMessage(true, content, name).body;
            var k := |Greeting(name) + Headline + content.title + "\n\n"|;
            StartsWith(b, Greeting(name) + Headline + content.title + "\n\n") && EndsWith(b, "...")
            && |b| == k + (if |content.explanation| <= 200 then |content.explanation| else 200) + 3
            && b[k..|b| - 3] == content.explanation[..|b| - 3 - k]
  {
    var b := FormatMessage(true, content, name).body;
    var prefix := Greeting(name) + Headline + content.title + "\n\n";
    var x := Excerpt(content.explanation);
    assert b == prefix + x + "...";
    assert b[..|prefix|] == prefix;
    assert b[|b| - 3..] == "...";
    assert b[|prefix|..|b| - 3] == x;
  }
}

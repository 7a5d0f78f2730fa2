/** `create_us_sql.py`: fetching the world dump once, and cutting from it an INSERT
    statement of the US cities with the numeric flag column removed. The script's own
    directory is folded into the paths the methods are given. */
module CreateUsSql {

  import opened Wrappers
  import opened Text
  import opened LocalFiles

  // ---------------------------------------------------------------------------
  // download_sql_file

  /** What `requests.get(SQL_URL, stream=True)` delivers: whether the request succeeded
      (`raise_for_status` passes), the chunks of the body, and after how many chunks the
      stream breaks off with an error (`None` when it runs to the end). */
  datatype Response = Response(ok: bool, chunks: seq<string>, breaksAfter: Option<nat>)

  datatype DownloadOutcome = AlreadyPresent | Completed | HttpFailed | StreamFailed

  /** The body text carried by some chunks. */
  function Concat(chunks: seq<string>): string {
    if chunks == [] then "" else Concat(chunks[..|chunks| - 1]) + chunks[|chunks| - 1]
  }

  /** The chunks written before the stream ends or breaks off. */
  function Delivered(r: Response): (d: seq<string>)
    ensures |d| <= |r.chunks| && d == r.chunks[..|d|]
    ensures r.breaksAfter.None? ==> d == r.chunks
  {
    match r.breaksAfter
    case None => r.chunks
    case Some(k) => if k < |r.chunks| then r.chunks[..k] else r.chunks
  }

  /** The files and the outcome after `download_sql_file(path)`: an existing file is kept
      and nothing is requested; a failed request raises before the file is opened; otherwise
      the file is created at its final path and receives the chunks as they arrive, so a
      stream that breaks off leaves the part already received. */
  function Download(files: map<string, string>, path: string, r: Response): (map<string, string>, DownloadOutcome)
  {
    if path in files then (files, AlreadyPresent)
    else if !r.ok then (files, HttpFailed)
    else (files[path := Concat(Delivered(r))], if r.breaksAfter.Some? then StreamFailed else Completed)
  }

  /** The received text is a prefix of the full body. */
  lemma {:induction false} ConcatPrefix(chunks: seq<string>, k: nat)
    requires k <= |chunks|
    ensures StartsWith(Concat(chunks), Concat(chunks[..k]))
    decreases |chunks|
  {
    if k < |chunks| {
      var init := chunks[..|chunks| - 1];
      assert init[..k] == chunks[..k];
      ConcatPrefix(init, k);
      assert Concat(chunks) == Concat(init) + chunks[|chunks| - 1];
    } else {
      assert chunks[..k] == chunks;
    }
  }

  /** A file that already exists is returned as it is, whatever the server would send. */
  lemma DownloadCached(files: map<string, string>, path: string, r: Response)
    requires path in files
    ensures Download(files, path, r) == (files, AlreadyPresent)
  {
  }

  /** A download that breaks off leaves a truncated copy of the body at the final path, and
      every later run takes that copy for a finished download. */
  lemma InterruptedDownloadIsReused(files: map<string, string>, path: string, r: Response, retry: Response)
    requires Download(files, path, r).1 == StreamFailed
    ensures var after := Download(files, path, r).0;
            path in after && StartsWith(Concat(r.chunks), after[path])
            && Download(after, path, retry) == (after, AlreadyPresent)
  {
    ConcatPrefix(r.chunks, |Delivered(r)|);
  }

  /** `download_sql_file`; `requested` tells whether the network was used. */
  method DownloadSqlFile(fs: FileSystem, path: string, response: Response)
    returns (outcome: DownloadOutcome, requested: bool)
    modifies fs
    ensures (fs.files, outcome) == Download(old(fs.files), path, response)
    ensures requested <==> path !in old(fs.files)
  {
    if path in fs.files {
      return AlreadyPresent, false;
    }
    requested := true;
    if !response.ok {
      return HttpFailed, requested;
    }
    fs.Create(path);
    var chunks := response.chunks;
    var i := 0;
    while i < |chunks|
      invariant 0 <= i <= |chunks|
      invariant response.breaksAfter.None? || response.breaksAfter.value >= i
      invariant fs.files == old(fs.files)[path := Concat(chunks[..i])]
    {
      if response.breaksAfter == Some(i) {
        assert Delivered(response) == chunks[..i];
        return StreamFailed, requested;
      }
      var chunk := chunks[i];
      assert chunks[..i + 1][..i] == chunks[..i];
      assert Concat(chunks[..i + 1]) == Concat(chunks[..i]) + chunk;
      if chunk != "" {
        fs.Append(path, chunk);
      } else {
        assert Concat(chunks[..i]) + chunk == Concat(chunks[..i]);
      }
      i := i + 1;
    }
    assert chunks[..i] == chunks == Delivered(response);
    outcome := if response.breaksAfter.Some? then StreamFailed else Completed;
  }

  // ---------------------------------------------------------------------------
  // Selecting the US tuples

  const UsMarker := ", 233, 'US'"

  /** The number of `, ` separators a left-to-right scan finds (they cannot overlap). */
  function SeparatorCount(s: string): nat
    decreases |s|
  {
    if |s| < 2 then 0
    else if s[..2] == ", " then 1 + SeparatorCount(s[2..])
    else SeparatorCount(s[1..])
  }

  /** The text between `(` and the next `)` matches `[^)]*?, [^)]*?, [^)]*?, [^)]*?, 233, 'US'[^)]*?`:
      `, 233, 'US'` occurs after three earlier `, ` separators, that is, after four or more
      fields. */
  predicate UsBody(body: string) {
    exists j :: 0 <= j <= |body| - |UsMarker| && OccursAt(body, UsMarker, j) && SeparatorCount(body[..j]) >= 3
  }

  /** `us_cities_pattern.findall(content)`: scanning left to right, a `(` whose text up to
      the next `)` is a US body yields that parenthesised text and the scan resumes after
      it; any other position is skipped. */
  function FindUsTuples(s: string): seq<string>
    decreases |s|
  {
    if s == [] then []
    else if s[0] == '(' then
      var q := IndexOf(s, ")", 1);
      if q >= 1 && UsBody(s[1..q]) then [s[..q + 1]] + FindUsTuples(s[q + 1..])
      else FindUsTuples(s[1..])
    else FindUsTuples(s[1..])
  }

  predicate NoChar(s: string, c: char) {
    forall i :: 0 <= i < |s| ==> s[i] != c
  }

  /** One parenthesised US tuple: `(`, a US body without `)`, and `)`. */
  predicate IsUsTuple(t: string) {
    |t| >= 2 && t[0] == '(' && t[|t| - 1] == ')' && NoChar(t[1..|t| - 1], ')') && UsBody(t[1..|t| - 1])
  }

  /** Everything `findall` returns is a whole US tuple. */
  lemma {:induction false} FoundAreUsTuples(s: string)
    ensures forall i :: 0 <= i < |FindUsTuples(s)| ==> IsUsTuple(FindUsTuples(s)[i])
    decreases |s|
  {
    if s != [] {
      if s[0] == '(' {
        var q := IndexOf(s, ")", 1);
        if q >= 1 && UsBody(s[1..q]) {
          TupleAtOpen(s, q);
          FoundAreUsTuples(s[q + 1..]);
          AllUsTuplesCons(s[..q + 1], FindUsTuples(s[q + 1..]));
        } else {
          FoundAreUsTuples(s[1..]);
        }
      } else {
        FoundAreUsTuples(s[1..]);
      }
    }
  }

  /** The text from a `(` to the first `)` after it, around a US body, is a US tuple. */
  lemma TupleAtOpen(s: string, q: int)
    requires s != [] && s[0] == '(' && q == IndexOf(s, ")", 1) && q >= 1 && UsBody(s[1..q])
    ensures IsUsTuple(s[..q + 1])
  {
    CloseFirstAt(s, q);
    var t := s[..q + 1];
    assert t[1..|t| - 1] == s[1..q];
    assert t[|t| - 1] == s[q];
  }

  /** The first `)` from position 1 on closes a group without `)` inside. */
  lemma CloseFirstAt(s: string, q: nat)
    requires 1 <= q && OccursAt(s, ")", q)
    requires forall j :: 1 <= j < q ==> !OccursAt(s, ")", j)
    ensures q < |s| && s[q] == ')' && NoChar(s[1..q], ')')
  {
    assert s[q..q + 1] == [s[q]];
    forall m | 0 <= m < q - 1
      ensures s[1..q][m] != ')'
    {
      assert !OccursAt(s, ")", m + 1);
      assert s[m + 1..m + 2] == [s[m + 1]];
    }
  }

  lemma AllUsTuplesCons(t: string, rest: seq<string>)
    requires IsUsTuple(t)
    requires forall i :: 0 <= i < |rest| ==> IsUsTuple(rest[i])
    ensures forall i :: 0 <= i < |[t] + rest| ==> IsUsTuple(([t] + rest)[i])
  {
    forall i | 0 <= i < |[t] + rest|
      ensures IsUsTuple(([t] + rest)[i])
    {
      if i > 0 {
        assert ([t] + rest)[i] == rest[i - 1];
      }
    }
  }

  /** A dump seen as text without `(` and parenthesised groups without nested parentheses. */
  datatype Chunk = Plain(text: string) | Group(body: string)

  predicate WellFormedChunk(c: Chunk) {
    match c
    case Plain(text) => NoChar(text, '(')
    case Group(body) => NoChar(body, '(') && NoChar(body, ')')
  }

  function Render(chunks: seq<Chunk>): string {
    if chunks == [] then ""
    else
      (match chunks[0] case Plain(text) => text case Group(body) => "(" + body + ")")
      + Render(chunks[1..])
  }

  /** The groups of a dump whose body is a US body, parenthesised, in order. */
  function UsGroups(chunks: seq<Chunk>): seq<string> {
    if chunks == [] then []
    else
      (match chunks[0]
       case Plain(_) => []
       case Group(body) => if UsBody(body) then ["(" + body + ")"] else [])
      + UsGroups(chunks[1..])
  }

  lemma {:induction false} SkipPlain(w: string, rest: string)
    requires NoChar(w, '(')
    ensures FindUsTuples(w + rest) == FindUsTuples(rest)
    decreases |w|
  {
    if w != [] {
      assert (w + rest)[0] == w[0] != '(';
      assert (w + rest)[1..] == w[1..] + rest;
      assert NoChar(w[1..], '(') by {
        forall i | 0 <= i < |w[1..]|
          ensures w[1..][i] != '('
        {
          assert w[1..][i] == w[i + 1];
        }
      }
      SkipPlain(w[1..], rest);
      assert FindUsTuples(w + rest) == FindUsTuples((w + rest)[1..]);
    } else {
      assert w + rest == rest;
    }
  }

  lemma SkipGroup(body: string, rest: string)
    requires NoChar(body, '(') && NoChar(body, ')')
    ensures FindUsTuples("(" + body + ")" + rest)
            == (if UsBody(body) then ["(" + body + ")"] else []) + FindUsTuples(rest)
  {
    var s := "(" + body + ")" + rest;
    var q := |body| + 1;
    assert OccursAt(s, ")", q) by {
      assert s[q..q + 1] == [s[q]];
    }
    forall j | 1 <= j < q
      ensures !OccursAt(s, ")", j)
    {
      assert s[j] == body[j - 1];
    }
    assert IndexOf(s, ")", 1) == q;
    assert s[1..q] == body;
    assert s[..q + 1] == "(" + body + ")";
    assert s[q + 1..] == rest;
    if !UsBody(body) {
      assert s[1..] == body + (")" + rest);
      SkipPlain(body, ")" + rest);
      assert (")" + rest)[1..] == rest;
    }
  }

  /** On a well-formed dump `findall` returns exactly the US groups, in order: no US tuple
      is missed and nothing else is picked up. */
  lemma {:induction false} FindUsTuplesExact(chunks: seq<Chunk>)
    requires forall i :: 0 <= i < |chunks| ==> WellFormedChunk(chunks[i])
    ensures FindUsTuples(Render(chunks)) == UsGroups(chunks)
    decreases |chunks|
  {
    if chunks != [] {
      assert WellFormedChunk(chunks[0]);
      FindUsTuplesExact(chunks[1..]);
      match chunks[0]
      case Plain(text) =>
        SkipPlain(text, Render(chunks[1..]));
      case Group(body) =>
        assert "(" + body + ")" + Render(chunks[1..]) == Render(chunks);
        SkipGroup(body, Render(chunks[1..]));
    }
  }

  // ---------------------------------------------------------------------------
  // Removing the flag column

  datatype CharClass = DateChars | TimeChars | Digits | NonQuote

  /** `[\d-]`, `[\d:]`, `\d` and `[^']`, with ASCII digits. */
  predicate InClass(c: char, k: CharClass) {
    match k
    case DateChars => IsDigit(c) || c == '-'
    case TimeChars => IsDigit(c) || c == ':'
    case Digits => IsDigit(c)
    case NonQuote => c != '\''
  }

  predicate AllIn(s: string, k: CharClass) {
    forall i :: 0 <= i < |s| ==> InClass(s[i], k)
  }

  /** The end of the longest run of class-`k` characters starting at `i`. Every class
      the pattern uses is followed by a character outside it, so the longest run is the
      only one that can lead to a match and no backtracking is needed. */
  function RunEnd(s: string, i: nat, k: CharClass): (j: nat)
    requires i <= |s|
    ensures i <= j <= |s|
    ensures forall m :: i <= m < j ==> InClass(s[m], k)
    ensures j == |s| || !InClass(s[j], k)
    decreases |s| - i
  {
    if i == |s| || !InClass(s[i], k) then i else RunEnd(s, i + 1, k)
  }

  lemma RunEndExact(x: string, i: nat, j: nat, k: CharClass)
    requires i <= j <= |x|
    requires forall m :: i <= m < j ==> InClass(x[m], k)
    requires j == |x| || !InClass(x[j], k)
    ensures RunEnd(x, i, k) == j
  {
  }

  /** Where a literal `'[\d-]+ [\d:]+'` that opens at `i` ends. */
  function TimestampAt(x: string, i: nat): (r: Option<nat>)
    requires i <= |x|
    ensures r.Some? ==> i + 1 < |x| && x[i] == '\'' && InClass(x[i + 1], DateChars) && i < r.value <= |x|
  {
    if i < |x| && x[i] == '\'' then
      var d := RunEnd(x, i + 1, DateChars);
      if d > i + 1 && d < |x| && x[d] == ' ' then
        var t := RunEnd(x, d + 1, TimeChars);
        if t > d + 1 && t < |x| && x[t] == '\'' then Some(t + 1) else None
      else None
    else None
  }

  /** Where the first group `, '[\d-]+ [\d:]+', '[\d-]+ [\d:]+'` that starts at `i` ends. */
  function PairEnd(x: string, i: nat): (r: Option<nat>)
    requires i <= |x|
    ensures r.Some? ==> i + 4 <= |x| && x[i..i + 3] == ", '" && InClass(x[i + 3], DateChars) && i < r.value <= |x|
  {
    if !OccursAt(x, ", ", i) then None
    else match TimestampAt(x, i + 2)
      case None => None
      case Some(a) =>
        if !OccursAt(x, ", ", a) then None
        else TimestampAt(x, a + 2)
  }

  /** Where `, \d+` that starts at `i` ends. */
  function FlagEnd(x: string, i: nat): (r: Option<nat>)
    requires i <= |x|
    ensures r.Some? ==> i < r.value <= |x|
  {
    if !OccursAt(x, ", ", i) then None
    else
      var n := RunEnd(x, i + 2, Digits);
      if n == i + 2 then None else Some(n)
  }

  /** Where the second group `, '[^']*'` that starts at `i` ends. */
  function QuotedEnd(x: string, i: nat): (r: Option<nat>)
    requires i <= |x|
    ensures r.Some? ==> i < r.value <= |x|
  {
    if !OccursAt(x, ", '", i) then None
    else
      var c := RunEnd(x, i + 3, NonQuote);
      if c == |x| then None else Some(c + 1)
  }

  /** A match of `(, '[\d-]+ [\d:]+', '[\d-]+ [\d:]+'), \d+(, '[^']*')` at the start of `x`:
      the end of the first group, the start of the second and the end of the match. */
  function FlagMatch(x: string): (r: Option<(nat, nat, nat)>)
    ensures r.Some? ==> |x| >= 4 && x[..3] == ", '" && InClass(x[3], DateChars)
    ensures r.Some? ==> 0 < r.value.0 < r.value.1 < r.value.2 <= |x|
  {
    match PairEnd(x, 0)
    case None => None
    case Some(g) =>
      match FlagEnd(x, g)
      case None => None
      case Some(n) =>
        match QuotedEnd(x, n)
        case None => None
        case Some(e) => Some((g, n, e))
  }

  /** `re.sub(pattern, r"\1\2", city)`: every match, left to right and without overlap,
      loses the text between its two groups. */
  function RemoveFlags(s: string): (r: string)
    ensures |r| <= |s|
    decreases |s|
  {
    if s == [] then []
    else match FlagMatch(s)
      case Some((g, n, e)) => s[..g] + s[n..e] + RemoveFlags(s[e..])
      case None => [s[0]] + RemoveFlags(s[1..])
  }

  /** Text in which no `, '` is followed by a digit or `-`: no match can start there. */
  predicate NoTimestampStart(pre: string) {
    forall p :: 0 <= p < |pre| ==> !TimestampStartAt(pre, p)
  }

  /** `, '` followed by a digit or `-` at position `p`. */
  predicate TimestampStartAt(s: string, p: nat) {
    p + 3 < |s| && OccursAt(s, ", '", p) && InClass(s[p + 3], DateChars)
  }

  lemma NoMatchInPrefix(pre: string, rest: string)
    requires pre != [] && NoTimestampStart(pre)
    requires rest != [] && rest[0] == ','
    ensures FlagMatch(pre + rest).None?
  {
    var s := pre + rest;
    if |pre| >= 4 {
      assert pre[..3] == s[..3] && pre[3] == s[3];
      assert !TimestampStartAt(pre, 0);
    } else {
      assert s[|pre|] == ',';
    }
  }

  lemma NoTimestampStartTail(pre: string)
    requires pre != [] && NoTimestampStart(pre)
    ensures NoTimestampStart(pre[1..])
  {
    forall p: nat | p < |pre[1..]|
      ensures !TimestampStartAt(pre[1..], p)
    {
      if p + 3 < |pre[1..]| {
        assert pre[1..][p..p + 3] == pre[p + 1..p + 4];
        assert !TimestampStartAt(pre, p + 1);
      }
    }
  }

  /** The first character of text that starts no match is kept. */
  lemma KeepFirst(pre: string, rest: string)
    requires pre != [] && NoTimestampStart(pre)
    requires rest != [] && rest[0] == ','
    ensures RemoveFlags(pre + rest) == [pre[0]] + RemoveFlags(pre[1..] + rest)
  {
    var s := pre + rest;
    NoMatchInPrefix(pre, rest);
    assert s[0] == pre[0];
    assert s[1..] == pre[1..] + rest;
  }

  /** Text before the timestamps passes through flag removal unchanged. */
  lemma {:induction false} RemoveFlagsKeepsPrefix(pre: string, rest: string)
    requires NoTimestampStart(pre)
    requires rest != [] && rest[0] == ','
    ensures RemoveFlags(pre + rest) == pre + RemoveFlags(rest)
    decreases |pre|
  {
    if pre != [] {
      KeepFirst(pre, rest);
      NoTimestampStartTail(pre);
      RemoveFlagsKeepsPrefix(pre[1..], rest);
      assert [pre[0]] + pre[1..] == pre;
      Assoc([pre[0]], pre[1..], RemoveFlags(rest));
    } else {
      assert pre + rest == rest;
    }
  }

  /** Helper: string concatenation regrouped. Not a modelled property. */
  lemma Assoc(a: string, b: string, c: string)
    ensures a + (b + c) == a + b + c
  {
  }

  /** Helper: string concatenation regrouped. Not a modelled property. */
  lemma Assoc3(a: string, b: string, c: string, d: string)
    ensures a + (b + c + d) == a + b + c + d
  {
  }

  /** Helper: string concatenation regrouped. Not a modelled property. */
  lemma Assoc4(a: string, b: string, c: string, d: string, e: string)
    ensures a + (b + c + d + e) == a + b + c + d + e
  {
  }

  /** The literal `'<date> <time>'`. */
  function Timestamp(date: string, time: string): string {
    "'" + date + " " + time + "'"
  }

  predicate ValidTimestamp(ts: (string, string)) {
    ts.0 != [] && AllIn(ts.0, DateChars) && ts.1 != [] && AllIn(ts.1, TimeChars)
  }

  lemma TimestampAtShape(x: string, i: nat, date: string, time: string)
    requires ValidTimestamp((date, time))
    requires i + |Timestamp(date, time)| <= |x| && x[i..i + |Timestamp(date, time)|] == Timestamp(date, time)
    ensures TimestampAt(x, i) == Some(i + |Timestamp(date, time)|)
  {
    var ts := Timestamp(date, time);
    var d := i + 1 + |date|;
    var t := d + 1 + |time|;
    assert x[i] == ts[0] == '\'';
    forall m | i + 1 <= m < d
      ensures InClass(x[m], DateChars)
    {
      assert x[m] == ts[m - i] == date[m - i - 1];
    }
    assert x[d] == ts[d - i] == ' ';
    RunEndExact(x, i + 1, d, DateChars);
    forall m | d + 1 <= m < t
      ensures InClass(x[m], TimeChars)
    {
      assert x[m] == ts[m - i] == time[m - d - 1];
    }
    assert x[t] == ts[t - i] == '\'';
    RunEndExact(x, d + 1, t, TimeChars);
  }

  /** The creation and update timestamp columns as they appear in a tuple of the dump. */
  function TimestampPair(created: (string, string), updated: (string, string)): string {
    ", " + Timestamp(created.0, created.1) + ", " + Timestamp(updated.0, updated.1)
  }

  /** A slice holding a concatenation holds each part. */
  lemma SliceSplit(x: string, i: nat, a: string, b: string)
    requires i + |a| + |b| <= |x| && x[i..i + |a| + |b|] == a + b
    ensures x[i..i + |a|] == a && x[i + |a|..i + |a| + |b|] == b
  {
    assert x[i..i + |a|] == x[i..i + |a| + |b|][..|a|];
    assert x[i + |a|..i + |a| + |b|] == x[i..i + |a| + |b|][|a|..];
  }

  lemma PairEndShape(x: string, i: nat, created: (string, string), updated: (string, string))
    requires ValidTimestamp(created) && ValidTimestamp(updated)
    requires i + |TimestampPair(created, updated)| <= |x|
    requires x[i..i + |TimestampPair(created, updated)|] == TimestampPair(created, updated)
    ensures PairEnd(x, i) == Some(i + |TimestampPair(created, updated)|)
  {
    var sep := ", ";
    var ts1 := Timestamp(created.0, created.1);
    var ts2 := Timestamp(updated.0, updated.1);
    assert TimestampPair(created, updated) == sep + ts1 + sep + ts2;
    SplitFour(x, i, sep, ts1, sep, ts2);
    var a := i + 2 + |ts1|;
    TimestampAtShape(x, i + 2, created.0, created.1);
    TimestampAtShape(x, a + 2, updated.0, updated.1);
    PairEndFrom(x, i, a, a + 2 + |ts2|);
  }

  /** A slice holding four concatenated parts holds each of them. */
  lemma SplitFour(x: string, i: nat, a: string, b: string, c: string, d: string)
    requires i + |a| + |b| + |c| + |d| <= |x| && x[i..i + |a| + |b| + |c| + |d|] == a + b + c + d
    ensures x[i..i + |a|] == a && x[i + |a|..i + |a| + |b|] == b
    ensures x[i + |a| + |b|..i + |a| + |b| + |c|] == c
    ensures x[i + |a| + |b| + |c|..i + |a| + |b| + |c| + |d|] == d
  {
    SliceSplit(x, i, a + b + c, d);
    SliceSplit(x, i, a + b, c);
    SliceSplit(x, i, a, b);
  }

  /** The pair group ends where its second timestamp ends. */
  lemma PairEndFrom(x: string, i: nat, a: nat, e: nat)
    requires i <= |x| && OccursAt(x, ", ", i) && TimestampAt(x, i + 2) == Some(a)
    requires OccursAt(x, ", ", a) && TimestampAt(x, a + 2) == Some(e)
    ensures PairEnd(x, i) == Some(e)
  {
  }

  lemma FlagEndShape(x: string, i: nat, flag: string)
    requires flag != [] && AllIn(flag, Digits)
    requires i + 2 + |flag| <= |x| && x[i..i + 2 + |flag|] == ", " + flag
    requires i + 2 + |flag| < |x| && x[i + 2 + |flag|] == ','
    ensures FlagEnd(x, i) == Some(i + 2 + |flag|)
  {
    var f := ", " + flag;
    assert x[i..i + 2] == f[..2];
    forall m | i + 2 <= m < i + 2 + |flag|
      ensures InClass(x[m], Digits)
    {
      assert x[m] == f[m - i] == flag[m - i - 2];
    }
    RunEndExact(x, i + 2, i + 2 + |flag|, Digits);
  }

  /** The wikidata column `, '<id>'`. */
  function WikidataLiteral(id: string): string {
    ", '" + id + "'"
  }

  lemma QuotedEndShape(x: string, i: nat, id: string)
    requires NoChar(id, '\'')
    requires i + |WikidataLiteral(id)| <= |x| && x[i..i + |WikidataLiteral(id)|] == WikidataLiteral(id)
    ensures QuotedEnd(x, i) == Some(i + |WikidataLiteral(id)|)
  {
    var w := WikidataLiteral(id);
    var c := i + |w| - 1;
    assert x[i..i + 3] == w[..3];
    forall m | i + 3 <= m < c
      ensures InClass(x[m], NonQuote)
    {
      assert x[m] == w[m - i] == id[m - i - 3];
    }
    assert x[c] == w[|w| - 1] == '\'';
    RunEndExact(x, i + 3, c, NonQuote);
  }

  lemma FlagMatchShape(x: string, pair: string, flag: string, id: string, created: (string, string), updated: (string, string))
    requires ValidTimestamp(created) && ValidTimestamp(updated) && pair == TimestampPair(created, updated)
    requires flag != [] && AllIn(flag, Digits) && NoChar(id, '\'')
    requires |pair| + 2 + |flag| + |WikidataLiteral(id)| <= |x|
    requires x[..|pair|] == pair
    requires x[|pair|..|pair| + 2 + |flag|] == ", " + flag
    requires x[|pair| + 2 + |flag|..|pair| + 2 + |flag| + |WikidataLiteral(id)|] == WikidataLiteral(id)
    ensures FlagMatch(x) == Some((|pair|, |pair| + 2 + |flag|, |pair| + 2 + |flag| + |WikidataLiteral(id)|))
  {
    var n := |pair| + 2 + |flag|;
    var w := WikidataLiteral(id);
    assert x[0..|pair|] == pair;
    PairEndShape(x, 0, created, updated);
    assert x[n] == ',' by {
      assert x[n] == x[n..n + |w|][0];
    }
    FlagEndShape(x, |pair|, flag);
    QuotedEndShape(x, n, id);
    FlagMatchFrom(x, |pair|, n, n + |w|);
  }

  /** A match is the pair group, the flag and the quoted group, one after the other. */
  lemma FlagMatchFrom(x: string, g: nat, n: nat, e: nat)
    requires PairEnd(x, 0) == Some(g) && g <= |x| && FlagEnd(x, g) == Some(n)
    requires n <= |x| && QuotedEnd(x, n) == Some(e)
    ensures FlagMatch(x) == Some((g, n, e))
  {
  }

  /** The flag column `, <digits>`. */
  function FlagColumn(flag: string): string {
    ", " + flag
  }

  /** Flag removal on a tuple of the dump: only `, <flag>` between the second timestamp and
      the wikidata literal is deleted; what precedes it is kept as it is. */
  lemma RemoveFlagColumn(pre: string, created: (string, string), updated: (string, string),
                         flag: string, id: string, post: string)
    requires NoTimestampStart(pre)
    requires ValidTimestamp(created) && ValidTimestamp(updated)
    requires flag != [] && AllIn(flag, Digits) && NoChar(id, '\'')
    ensures RemoveFlags(pre + TimestampPair(created, updated) + FlagColumn(flag) + WikidataLiteral(id) + post)
            == pre + TimestampPair(created, updated) + WikidataLiteral(id) + RemoveFlags(post)
  {
    var g1 := TimestampPair(created, updated);
    var f := FlagColumn(flag);
    var w := WikidataLiteral(id);
    var x := g1 + f + w + post;
    var n := |g1| + |f|;
    var e := n + |w|;
    assert x[..|g1|] == g1;
    assert x[|g1|..n] == f;
    assert x[n..e] == w;
    FlagMatchShape(x, g1, flag, id, created, updated);
    assert x[e..] == post;
    assert RemoveFlags(x) == g1 + w + RemoveFlags(post);
    assert x[0] == ',';
    RemoveFlagsKeepsPrefix(pre, x);
    Assoc4(pre, g1, f, w, post);
    Assoc3(pre, g1, w, RemoveFlags(post));
  }

  // ---------------------------------------------------------------------------
  // Writing US.sql

  const HeaderComment := "-- SQL file to seed existing cities table with US cities data\n\n"

  const InsertColumns := "INSERT INTO \"cities\" (\"id\", \"name\", \"state_id\", \"state_code\", \"country_id\", \"country_code\", \"latitude\", \"longitude\", \"created_at\", \"updated_at\", \"wikidata_id\") VALUES\n"

  /** The rows part of US.sql: every row but the last followed by `,\n`, the last by `;\n`,
      and nothing at all when there are no rows. */
  function Listing(rows: seq<string>): string {
    if rows == [] then "" else Join(rows, ",\n") + ";\n"
  }

  /** The tuples after flag removal. */
  function Cleaned(tuples: seq<string>): (r: seq<string>)
    ensures |r| == |tuples|
    ensures forall i :: 0 <= i < |r| ==> r[i] == RemoveFlags(tuples[i])
  {
    seq(|tuples|, i requires 0 <= i < |tuples| => RemoveFlags(tuples[i]))
  }

  /** The whole of US.sql for a given dump. */
  function ExtractedText(content: string): string {
    HeaderComment + InsertColumns + Listing(Cleaned(FindUsTuples(content)))
  }

  /** Appending one more row turns the previous last terminator `;\n` into `,\n`. */
  lemma ListingSnoc(rows: seq<string>, last: string)
    ensures Listing(rows + [last]) == (if rows == [] then "" else Join(rows, ",\n") + ",\n") + last + ";\n"
  {
    if rows == [] {
      assert [] + [last] == [last];
    } else {
      JoinSnoc(rows, last, ",\n");
    }
  }

  /** What the row loop has written after `i` rows. */
  function Written(rows: seq<string>, i: nat): string
    requires i <= |rows|
  {
    if i == 0 then "" else Join(rows[..i], ",\n") + (if i < |rows| then ",\n" else ";\n")
  }

  /** One more row: the separator of the previous row becomes `,\n`, and the new row gets
      `,\n` if another follows and `;\n` if it is the last. */
  lemma WrittenStep(rows: seq<string>, i: nat)
    requires i < |rows|
    ensures Written(rows, i + 1) == Written(rows, i) + rows[i] + (if i < |rows| - 1 then ",\n" else ";\n")
  {
    assert rows[..i + 1] == rows[..i] + [rows[i]];
    if i == 0 {
      assert rows[..1] == [rows[0]];
    } else {
      JoinSnoc(rows[..i], rows[i], ",\n");
    }
  }

  /** The row loop of `extract_us_cities`: each tuple loses its flag column and is written
      with `,\n`, except the last, which gets `;\n`. */
  method WriteRows(fs: FileSystem, path: string, tuples: seq<string>)
    requires path in fs.files
    modifies fs
    ensures fs.files == old(fs.files)[path := old(fs.files)[path] + Listing(Cleaned(tuples))]
  {
    ghost var rows := Cleaned(tuples);
    ghost var start := fs.files[path];
    assert start + Written(rows, 0) == start;
    assert old(fs.files)[path := start] == old(fs.files);
    for i := 0 to |tuples|
      invariant path in fs.files
      invariant fs.files == old(fs.files)[path := start + Written(rows, i)]
    {
      var city := RemoveFlags(tuples[i]);
      var sep := if i < |tuples| - 1 then ",\n" else ";\n";
      assert city == rows[i];
      WrittenAppend(start, rows, i);
      fs.Append(path, city + sep);
      UpdateTwice(old(fs.files), path, start + Written(rows, i), start + Written(rows, i + 1));
    }
    assert rows[..|tuples|] == rows;
  }

  /** The text before the loop, what it wrote for `i` rows, and row `i` with its
      terminator. */
  lemma WrittenAppend(start: string, rows: seq<string>, i: nat)
    requires i < |rows|
    ensures start + Written(rows, i) + (rows[i] + (if i < |rows| - 1 then ",\n" else ";\n"))
            == start + Written(rows, i + 1)
  {
    WrittenStep(rows, i);
    var sep := if i < |rows| - 1 then ",\n" else ";\n";
    Assoc3(start, Written(rows, i), rows[i], sep);
    Assoc(start + Written(rows, i), rows[i], sep);
  }

  /** Opening US.sql for writing and writing the comment and the column list. */
  method WriteHeader(fs: FileSystem, path: string)
    modifies fs
    ensures fs.files == old(fs.files)[path := HeaderComment + InsertColumns]
  {
    fs.Create(path);
    fs.Append(path, HeaderComment);
    assert "" + HeaderComment == HeaderComment;
    fs.Append(path, InsertColumns);
  }

  datatype ExtractOutcome = InputMissing | Extracted(found: nat)

  /** `extract_us_cities`: a missing input raises `FileNotFoundError` and writes nothing;
      otherwise US.sql is the header comment, the fixed column list and one row per US
      tuple found, and the number of tuples found is reported. */
  method ExtractUsCities(fs: FileSystem, inputPath: string, outputPath: string)
    returns (outcome: ExtractOutcome)
    modifies fs
    ensures inputPath !in old(fs.files) ==> outcome == InputMissing && fs.files == old(fs.files)
    ensures inputPath in old(fs.files) ==>
              outcome == Extracted(|FindUsTuples(old(fs.files)[inputPath])|)
              && fs.files == old(fs.files)[outputPath := ExtractedText(old(fs.files)[inputPath])]
  {
    if inputPath !in fs.files {
      return InputMissing;
    }
    var content := fs.files[inputPath];
    var usCities := FindUsTuples(content);
    WriteHeader(fs, outputPath);
    WriteRows(fs, outputPath, usCities);
    outcome := Extracted(|usCities|);
  }

  datatype ScriptOutcome = DownloadRaised(failure: DownloadOutcome) | Finished(found: nat) | ExtractRaised

  /** `main`: the download, then the extraction; an exception from the download ends the
      script before anything is extracted. */
  method RunScript(fs: FileSystem, worldPath: string, usPath: string, response: Response)
    returns (outcome: ScriptOutcome)
    modifies fs
    ensures var (afterDownload, d) := Download(old(fs.files), worldPath, response);
            if d == HttpFailed || d == StreamFailed then
              outcome == DownloadRaised(d) && fs.files == afterDownload
            else
              worldPath in afterDownload
              && outcome == Finished(|FindUsTuples(afterDownload[worldPath])|)
              && fs.files == afterDownload[usPath := ExtractedText(afterDownload[worldPath])]
  {
    var d, _ := DownloadSqlFile(fs, worldPath, response);
    if d == HttpFailed || d == StreamFailed {
      return DownloadRaised(d);
    }
    var e := ExtractUsCities(fs, worldPath, usPath);
    outcome := if e.InputMissing? then ExtractRaised else Finished(e.found);
  }
}

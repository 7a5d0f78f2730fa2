/** `add_timezone_to_cities`: rewrites a dump of the `cities` INSERT so that every row gets
    a trailing timezone literal and the column list a trailing `"timezone"` column. The
    coordinate finder is an uninterpreted partial function and `float()` a partial parser. */
module AddTimezoneToCities {

  import opened Wrappers
  import opened Text
  import opened LocalFiles

  // ---------------------------------------------------------------------------
  // The pattern (INSERT INTO "cities"[^)]+\))\s*VALUES\s*\n(.*?); searched with DOTALL

  const InsertPrefix := "INSERT INTO \"cities\""

  /** The first index at or after `i` that is not whitespace (or the end). */
  function SkipSpace(s: string, i: nat): (j: nat)
    requires i <= |s|
    ensures i <= j <= |s|
    ensures forall k :: i <= k < j ==> IsSpace(s[k])
    ensures j == |s| || !IsSpace(s[j])
    decreases |s| - i
  {
    if i < |s| && IsSpace(s[i]) then SkipSpace(s, i + 1) else i
  }

  /** The last newline in `s[lo..hi]`, or -1. */
  function LastNewline(s: string, lo: nat, hi: nat): (k: int)
    requires lo <= hi <= |s|
    ensures k == -1 || (lo <= k < hi && s[k] == '\n')
    ensures k == -1 ==> forall j :: lo <= j < hi ==> s[j] != '\n'
    ensures k != -1 ==> forall j :: k < j < hi ==> s[j] != '\n'
    decreases hi - lo
  {
    if lo == hi then -1
    else if s[hi - 1] == '\n' then hi - 1
    else LastNewline(s, lo, hi - 1)
  }

  /** The pattern matched at position `p`: the header group and the values group.
      `[^)]+\)` ends at the first `)` after the prefix and needs one character before it;
      `\s*\n` backtracks to the last newline of the whitespace after VALUES; the lazy
      `(.*?);` stops at the first `;`. */
  function MatchAt(content: string, p: nat): Option<(string, string)>
  {
    if !OccursAt(content, InsertPrefix, p) then None
    else
      var q := p + |InsertPrefix|;
      var e := IndexOf(content, ")", q);
      if e <= q then None
      else
        var w := SkipSpace(content, e + 1);
        if !OccursAt(content, "VALUES", w) then None
        else
          var v := w + 6;
          var nl := LastNewline(content, v, SkipSpace(content, v));
          if nl < 0 then None
          else
            var semi := IndexOf(content, ";", nl + 1);
            if semi < 0 then None
            else Some((content[p..e + 1], content[nl + 1..semi]))
  }

  /** `re.search`: the leftmost position at or after `p` where the pattern matches. */
  function SearchInsert(content: string, p: nat): Option<(string, string)>
    decreases |content| - p
  {
    if p > |content| then None
    else if MatchAt(content, p).Some? then MatchAt(content, p)
    else SearchInsert(content, p + 1)
  }

  /** The header group starts with `INSERT INTO "cities"`, ends with `)` and holds no other `)`. */
  predicate HeaderShape(h: string) {
    StartsWith(h, InsertPrefix) && |h| > 0 && h[|h| - 1] == ')'
    && forall i :: 0 <= i < |h| - 1 ==> h[i] != ')'
  }

  lemma {:induction false} SearchInsertHeader(content: string, p: nat)
    ensures SearchInsert(content, p).Some? ==> HeaderShape(SearchInsert(content, p).value.0)
    decreases |content| - p
  {
    if p <= |content| {
      if MatchAt(content, p).Some? {
        var q := p + |InsertPrefix|;
        var e := IndexOf(content, ")", q);
        var h := content[p..e + 1];
        assert h[..|InsertPrefix|] == content[p..q];
        forall i | 0 <= i < |h| - 1
          ensures h[i] != ')'
        {
          assert h[i] == content[p + i];
          if i >= |InsertPrefix| {
            assert !OccursAt(content, ")", p + i);
            assert content[p + i..p + i + 1] == [content[p + i]];
          } else {
            assert content[p + i] == InsertPrefix[i];
          }
        }
        assert content[e..e + 1] == ")";
      } else {
        SearchInsertHeader(content, p + 1);
      }
    }
  }

  // ---------------------------------------------------------------------------
  // Header rewrite

  const WikidataColumn := "\"wikidata_id\")"
  const WikidataAndTimezone := "\"wikidata_id\", \"timezone\")"

  /** In a header whose only `)` is its last character, replacing a pattern that ends with
      `)` touches the end of the header only: the header is unchanged unless it ends with
      the pattern, and then only that ending is replaced. */
  lemma {:induction false} ReplaceAtEndOnly(h: string, pat: string, rep: string)
    requires |pat| > 0 && pat[|pat| - 1] == ')'
    requires |h| > 0 && ClosedOnlyAtEnd(h)
    ensures ReplaceAll(h, pat, rep) == if EndsWith(h, pat) then h[..|h| - |pat|] + rep else h
    decreases |h|
  {
    if |h| < |pat| {
      assert ReplaceAll(h, pat, rep) == h;
    } else if h[..|pat|] == pat {
      assert h[|pat| - 1] == pat[|pat| - 1];
      assert |h| == |pat|;
      assert h == pat;
      ReplaceWhole(pat, rep);
      assert h[..|h| - |pat|] + rep == rep;
    } else {
      var t := h[1..];
      assert ReplaceAll(h, pat, rep) == [h[0]] + ReplaceAll(t, pat, rep);
      if |h| == |pat| {
        assert !EndsWith(h, pat) by { assert h[|h| - |pat|..] == h[..|pat|]; }
        assert ReplaceAll(t, pat, rep) == t;
        assert [h[0]] + t == h;
      } else {
        assert ClosedOnlyAtEnd(t);
        ReplaceAtEndOnly(t, pat, rep);
        ReplaceStep(h, pat, rep, ReplaceAll(t, pat, rep));
      }
    }
  }

  /** Only the last character of `h` may be `)`, and it is. */
  predicate ClosedOnlyAtEnd(h: string) {
    |h| > 0 && h[|h| - 1] == ')' && forall i :: 0 <= i < |h| - 1 ==> h[i] != ')'
  }

  lemma ReplaceWhole(pat: string, rep: string)
    requires |pat| > 0
    ensures ReplaceAll(pat, pat, rep) == rep && EndsWith(pat, pat)
  {
    assert pat[..|pat|] == pat && pat[|pat|..] == [];
    assert rep + [] == rep;
  }

  /** One character in front of a tail whose replacement is known. */
  lemma ReplaceStep(h: string, pat: string, rep: string, tailResult: string)
    requires |pat| > 0 && |h| > |pat|
    requires tailResult == if EndsWith(h[1..], pat) then h[1..][..|h| - 1 - |pat|] + rep else h[1..]
    ensures [h[0]] + tailResult == if EndsWith(h, pat) then h[..|h| - |pat|] + rep else h
  {
    var t := h[1..];
    assert EndsWith(t, pat) == EndsWith(h, pat) by {
      assert t[|t| - |pat|..] == h[|h| - |pat|..];
    }
    if EndsWith(h, pat) {
      assert [h[0]] + t[..|t| - |pat|] == h[..|h| - |pat|];
    } else {
      assert [h[0]] + t == h;
    }
  }

  /** The header after `replace('"wikidata_id")', '"wikidata_id", "timezone")')`: the
      `"timezone"` column is added when the column list ends with `"wikidata_id"`, and the
      header is left as it was otherwise. */
  function ModifiedHeader(h: string): (r: string)
    requires HeaderShape(h)
    ensures EndsWith(h, WikidataColumn) ==> r == h[..|h| - |WikidataColumn|] + WikidataAndTimezone
    ensures !EndsWith(h, WikidataColumn) ==> r == h
  {
    ReplaceAtEndOnly(h, WikidataColumn, WikidataAndTimezone);
    ReplaceAll(h, WikidataColumn, WikidataAndTimezone)
  }

  // ---------------------------------------------------------------------------
  // Value rows

  const RowSeparator := "),\n"

  /** The pieces with a trailing `)` taken off the last one only. */
  function UncloseLast(pieces: seq<string>): (r: seq<string>)
    requires |pieces| >= 1
    ensures |r| == |pieces|
    ensures forall i :: 0 <= i < |r| - 1 ==> r[i] == pieces[i]
    ensures var last := pieces[|pieces| - 1];
            r[|r| - 1] == if EndsWith(last, ")") then last[..|last| - 1] else last
  {
    var last := pieces[|pieces| - 1];
    if EndsWith(last, ")") then pieces[|pieces| - 1 := last[..|last| - 1]] else pieces
  }

  /** `group(2).strip().split("),\n")` followed by the fix-up of the last piece. */
  function ValuePieces(block: string): seq<string> {
    UncloseLast(SplitOn(Strip(block), RowSeparator))
  }

  /** Giving the last piece its `)` back and joining on the separator restores the
      stripped block: nothing but that `)` is lost. */
  lemma ValuePiecesRoundTrip(block: string)
    requires var pieces := SplitOn(Strip(block), RowSeparator); EndsWith(pieces[|pieces| - 1], ")")
    ensures var r := ValuePieces(block);
            Join(r[..|r| - 1] + [r[|r| - 1] + ")"], RowSeparator) == Strip(block)
  {
    var stripped := Strip(block);
    var pieces := SplitOn(stripped, RowSeparator);
    var r := UncloseLast(pieces);
    assert r == ValuePieces(block);
    assert r[..|r| - 1] + [r[|r| - 1] + ")"] == pieces by {
      RestoreLast(pieces);
    }
    assert Join(pieces, RowSeparator) == stripped by {
      JoinSplit(stripped, RowSeparator);
    }
  }

  lemma RestoreLast(pieces: seq<string>)
    requires |pieces| >= 1 && EndsWith(pieces[|pieces| - 1], ")")
    ensures var r := UncloseLast(pieces); r[..|r| - 1] + [r[|r| - 1] + ")"] == pieces
  {
    var r := UncloseLast(pieces);
    var n := |pieces|;
    var last := pieces[n - 1];
    assert r[n - 1] + ")" == last;
  }

  /** Why a row aborts the run: a missing field (IndexError) or one of the ValueErrors:
      an unparseable coordinate, a coordinate out of range, or no zone found. */
  datatype RowFailure = MissingField(row: string) | BadNumber(row: string)
                      | OutOfRange(row: string) | NoTimezone(row: string)

  /** One iteration of the loop: fields 6 and 7 of the row split on ", " are the latitude
      and longitude; the zone is appended as a quoted literal. */
  function TimezoneRow(cityValue: string, parse: string -> Option<real>,
                       finder: (real, real) -> Option<string>): (r: Result<string, RowFailure>)
    ensures r.Ok? ==> StartsWith(r.value, cityValue + ", '") && EndsWith(r.value, "'")
    ensures var parts := SplitOn(cityValue, ", ");
            r.Ok? <==> |parts| > 7 && parse(parts[6]).Some? && parse(parts[7]).Some?
                       && -90.0 <= parse(parts[6]).value <= 90.0 && -180.0 <= parse(parts[7]).value <= 180.0
                       && finder(parse(parts[6]).value, parse(parts[7]).value).Some?
    ensures var parts := SplitOn(cityValue, ", ");
            r.Ok? ==> r.value == cityValue + ", '" + finder(parse(parts[6]).value, parse(parts[7]).value).value + "'"
    ensures r.Err? ==> r.error.row == cityValue
  {
    var parts := SplitOn(cityValue, ", ");
    if |parts| <= 6 then Err(MissingField(cityValue))
    else if parse(parts[6]).None? then Err(BadNumber(cityValue))
    else if |parts| <= 7 then Err(MissingField(cityValue))
    else if parse(parts[7]).None? then Err(BadNumber(cityValue))
    else
      var latitude := parse(parts[6]).value;
      var longitude := parse(parts[7]).value;
      if !(-90.0 <= latitude <= 90.0 && -180.0 <= longitude <= 180.0) then Err(OutOfRange(cityValue))
      else match finder(latitude, longitude)
        case None => Err(NoTimezone(cityValue))
        case Some(timezone) =>
          var row := cityValue + ", '" + timezone + "'";
          assert row[..|cityValue + ", '"|] == cityValue + ", '";
          Ok(row)
  }

  /** The loop over all rows: the first failing row aborts it. */
  function TimezoneRows(values: seq<string>, parse: string -> Option<real>,
                        finder: (real, real) -> Option<string>): Result<seq<string>, RowFailure>
  {
    if values == [] then Ok([])
    else match TimezoneRow(values[0], parse, finder)
      case Err(e) => Err(e)
      case Ok(row) =>
        match TimezoneRows(values[1..], parse, finder)
        case Err(e) => Err(e)
        case Ok(rows) => Ok([row] + rows)
  }

  /** On success the output rows are the input rows, in order and in number, each extended
      by a timezone literal; on failure the failing row is one of the input rows. */
  lemma {:induction false} TimezoneRowsFacts(values: seq<string>, parse: string -> Option<real>,
                                             finder: (real, real) -> Option<string>)
    ensures var r := TimezoneRows(values, parse, finder);
            r.Ok? ==> |r.value| == |values|
                      && forall i :: 0 <= i < |values| ==>
                           TimezoneRow(values[i], parse, finder).Ok?
                           && r.value[i] == TimezoneRow(values[i], parse, finder).value
                           && StartsWith(r.value[i], values[i] + ", '")
    ensures var r := TimezoneRows(values, parse, finder);
            r.Err? <==> exists i :: 0 <= i < |values| && TimezoneRow(values[i], parse, finder).Err?
    ensures var r := TimezoneRows(values, parse, finder);
            r.Err? ==> r.error.row in values
  {
    if values != [] {
      TimezoneRowsFacts(values[1..], parse, finder);
      forall i | 0 < i < |values|
        ensures values[i] == values[1..][i - 1]
      {
      }
    }
  }

  /** The loop as the script runs it, appending to `modified_cities`. */
  method AddTimezones(values: seq<string>, parse: string -> Option<real>,
                      finder: (real, real) -> Option<string>)
    returns (result: Result<seq<string>, RowFailure>)
    ensures result == TimezoneRows(values, parse, finder)
  {
    var modified: seq<string> := [];
    PrefixedAssoc([], [], TimezoneRows(values, parse, finder));
    assert values[0..] == values;
    for i := 0 to |values|
      invariant TimezoneRows(values, parse, finder) == Prefixed(modified, TimezoneRows(values[i..], parse, finder))
    {
      assert values[i..][0] == values[i] && values[i..][1..] == values[i + 1..];
      var row := TimezoneRow(values[i], parse, finder);
      if row.Err? {
        return Err(row.error);
      }
      PrefixedAssoc(modified, [row.value], TimezoneRows(values[i + 1..], parse, finder));
      modified := modified + [row.value];
    }
    assert values[|values|..] == [];
    assert modified + [] == modified;
    result := Ok(modified);
  }

  function Prefixed(rows: seq<string>, rest: Result<seq<string>, RowFailure>): Result<seq<string>, RowFailure> {
    match rest
    case Ok(more) => Ok(rows + more)
    case Err(e) => Err(e)
  }

  lemma PrefixedAssoc(a: seq<string>, b: seq<string>, r: Result<seq<string>, RowFailure>)
    ensures Prefixed(a, Prefixed(b, r)) == Prefixed(a + b, r)
    ensures Prefixed([], r) == r
  {
    if r.Ok? {
      assert a + (b + r.value) == (a + b) + r.value;
      assert [] + r.value == r.value;
    }
  }

  // ---------------------------------------------------------------------------
  // Output

  const OutputComment := "-- SQL file with US cities data including timezone information\n\n"

  /** Each row followed by `suffix`. */
  function Suffixed(rows: seq<string>, suffix: string): (r: seq<string>)
    ensures |r| == |rows|
  {
    if rows == [] then [] else [rows[0] + suffix] + Suffixed(rows[1..], suffix)
  }

  function Closed(rows: seq<string>): seq<string> {
    Suffixed(rows, ")")
  }

  /** The rows block as the script writes it: all but the last joined by ",\n" with their
      `)`, then ",\n", then the last with ");\n". */
  function RowsBlock(rows: seq<string>): string {
    if rows == [] then ""
    else
      (if |rows| > 1 then Join(Closed(rows[..|rows| - 1]), ",\n") + ",\n" else "")
      + rows[|rows| - 1] + ");\n"
  }

  lemma {:induction false} SuffixedSnoc(rows: seq<string>, suffix: string)
    requires |rows| >= 1
    ensures Suffixed(rows, suffix) == Suffixed(rows[..|rows| - 1], suffix) + [rows[|rows| - 1] + suffix]
  {
    if |rows| > 1 {
      SuffixedSnoc(rows[1..], suffix);
      assert rows[1..][..|rows| - 2] == rows[..|rows| - 1][1..];
    }
  }

  /** The rows block is every row closed by `)`, joined by ",\n" and ended by ";\n": all
      but the last row end in "),\n" and the last in ");\n". */
  lemma RowsBlockShape(rows: seq<string>)
    requires rows != []
    ensures RowsBlock(rows) == Join(Closed(rows), ",\n") + ";\n"
  {
    var n := |rows|;
    var last := rows[n - 1];
    var front := Closed(rows[..n - 1]);
    assert Closed(rows) == front + [last + ")"] by {
      SuffixedSnoc(rows, ")");
    }
    assert ");\n" == ")" + ";\n";
    if n > 1 {
      assert Join(Closed(rows), ",\n") == Join(front, ",\n") + ",\n" + (last + ")") by {
        JoinSnoc(front, last + ")", ",\n");
      }
      assert RowsBlock(rows) == (Join(front, ",\n") + ",\n") + last + (")" + ";\n");
      Regroup(Join(front, ",\n") + ",\n", last, ")", ";\n");
    } else {
      assert front == [];
      assert RowsBlock(rows) == last + (")" + ";\n");
      Regroup("", last, ")", ";\n");
    }
  }

  /** Helper: string concatenation regrouped. Not a modelled property. */
  lemma Regroup(front: string, last: string, close: string, end: string)
    ensures front + last + (close + end) == front + (last + close) + end
  {
  }

  function OutputText(header: string, rows: seq<string>): string {
    OutputComment + (header + " VALUES\n") + RowsBlock(rows)
  }

  /** Helper: string concatenation regrouped. Not a modelled property. */
  lemma Concat4(a: string, b: string, c: string, d: string)
    ensures a + b + c + d == a + ((b + c) + d)
  {
  }

  /** The `with open(output_path, "w")` block: the comment, the header with VALUES, then the
      rows block, each an `f.write`. */
  method WriteOutput(fs: FileSystem, outputPath: string, header: string, rows: seq<string>)
    modifies fs
    ensures fs.files == old(fs.files)[outputPath := OutputText(header, rows)]
  {
    fs.Create(outputPath);
    fs.Append(outputPath, OutputComment);
    assert "" + OutputComment == OutputComment;
    fs.Append(outputPath, header + " VALUES\n");
    WriteRows(fs, outputPath, rows);
  }

  /** The writes of the rows: all but the last joined with their `)`, then ",\n", then
      the last row with ");\n". */
  method WriteRows(fs: FileSystem, outputPath: string, rows: seq<string>)
    requires outputPath in fs.files
    modifies fs
    ensures fs.files == old(fs.files)[outputPath := old(fs.files)[outputPath] + RowsBlock(rows)]
  {
    ghost var opening := fs.files[outputPath];
    if rows != [] {
      var lastLine := rows[|rows| - 1] + ");\n";
      if |rows| > 1 {
        var joined := Join(Closed(rows[..|rows| - 1]), ",\n");
        fs.Append(outputPath, joined);
        fs.Append(outputPath, ",\n");
        fs.Append(outputPath, lastLine);
        Concat4(opening, joined, ",\n", lastLine);
        assert RowsBlock(rows) == joined + ",\n" + lastLine;
      } else {
        fs.Append(outputPath, lastLine);
        assert RowsBlock(rows) == lastLine;
      }
    } else {
      assert opening + RowsBlock(rows) == opening;
    }
  }

  /** How `add_timezone_to_cities` ends: False, True, or an exception a row raised. */
  datatype Outcome = ReturnedFalse | ReturnedTrue | Raised(failure: RowFailure)

  /** What `add_timezone_to_cities` returns, and the files after it. */
  function Run(files: map<string, string>, inputPath: string, outputPath: string,
               parse: string -> Option<real>, finder: (real, real) -> Option<string>)
    : (Outcome, map<string, string>)
  {
    if inputPath !in files then (ReturnedFalse, files)
    else
      var m := SearchInsert(files[inputPath], 0);
      if m.None? then (ReturnedFalse, files)
      else
        SearchInsertHeader(files[inputPath], 0);
        match TimezoneRows(ValuePieces(m.value.1), parse, finder)
        case Err(e) => (Raised(e), files)
        case Ok(rows) => (ReturnedTrue, files[outputPath := OutputText(ModifiedHeader(m.value.0), rows)])
  }

  /** A missing input or no INSERT match returns False and writes nothing; a failing row
      raises before the output file is opened; otherwise the output file holds the comment,
      the rewritten header and every row with its zone. */
  lemma RunOutcomes(files: map<string, string>, inputPath: string, outputPath: string,
                    parse: string -> Option<real>, finder: (real, real) -> Option<string>)
    ensures var (outcome, after) := Run(files, inputPath, outputPath, parse, finder);
            (inputPath !in files ==> outcome == ReturnedFalse)
            && (inputPath in files && SearchInsert(files[inputPath], 0).None? ==> outcome == ReturnedFalse)
            && (!outcome.ReturnedTrue? ==> after == files)
            && (outcome.ReturnedTrue? ==>
                  inputPath in files
                  && var m := SearchInsert(files[inputPath], 0);
                     m.Some? && HeaderShape(m.value.0)
                     && var rows := TimezoneRows(ValuePieces(m.value.1), parse, finder);
                        rows.Ok? && after == files[outputPath := OutputText(ModifiedHeader(m.value.0), rows.value)])
            && (outcome.Raised? ==>
                  inputPath in files
                  && var m := SearchInsert(files[inputPath], 0);
                     m.Some? && TimezoneRows(ValuePieces(m.value.1), parse, finder) == Err(outcome.failure))
  {
    if inputPath in files {
      SearchInsertHeader(files[inputPath], 0);
    }
  }

  /** The whole function: the steps in the script's order, with the result and the files
      it leaves as `Run` says. */
  method AddTimezoneToCities(fs: FileSystem, inputPath: string, outputPath: string,
                             parse: string -> Option<real>, finder: (real, real) -> Option<string>)
    returns (outcome: Outcome)
    modifies fs
    ensures (outcome, fs.files) == Run(old(fs.files), inputPath, outputPath, parse, finder)
  {
    if inputPath !in fs.files {
      return ReturnedFalse;
    }
    var content := fs.files[inputPath];
    var insertMatch := SearchInsert(content, 0);
    if insertMatch.None? {
      return ReturnedFalse;
    }
    SearchInsertHeader(content, 0);
    var insertHeader := insertMatch.value.0;
    var citiesValues := ValuePieces(insertMatch.value.1);
    var modifiedColumnList := ModifiedHeader(insertHeader);
    var modifiedCities := AddTimezones(citiesValues, parse, finder);
    if modifiedCities.Err? {
      return Raised(modifiedCities.error);
    }
    var rows := modifiedCities.value;
    WriteOutput(fs, outputPath, modifiedColumnList, rows);
    outcome := ReturnedTrue;
  }
}

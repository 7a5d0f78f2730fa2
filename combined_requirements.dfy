/** `scripts/generate_combined_requirements.py`: the requirement lines of the Python
    functions' `requirements.txt` files are merged into one dictionary from package name to
    version specifier, which is then written, sorted by package name, to one combined file. */
module CombinedRequirements {

  import opened Wrappers
  import opened Text
  import opened LocalFiles

  /** A requirement line taken apart: the package name and its version specifier
      (the operator and what follows it), "" when the line names no version. */
  datatype Requirement = Requirement(name: string, version: string)

  /** The characters of the class `[=<>~!]`. */
  predicate IsOperator(c: char) {
    c == '=' || c == '<' || c == '>' || c == '~' || c == '!'
  }

  /** The first operator character at or after `from`, or the end of the line. */
  function NameEnd(line: string, from: nat): (k: nat)
    requires from <= |line|
    ensures from <= k <= |line|
    ensures forall i :: from <= i < k ==> !IsOperator(line[i])
    ensures k < |line| ==> IsOperator(line[k])
    decreases |line| - from
  {
    if from == |line| || IsOperator(line[from]) then from else NameEnd(line, from + 1)
  }

  /** The pattern `^([^=<>~!]+)([=<>~!].+)?$` matched with its first group ending at `k`:
      a non-empty run of non-operator characters, then either the end of the line or an
      operator followed by at least one more character. */
  predicate RegexMatch(line: string, k: int) {
    0 < k <= |line|
    && (forall i :: 0 <= i < k ==> !IsOperator(line[i]))
    && (k == |line| || (IsOperator(line[k]) && k + 1 < |line|))
  }

  /** What the merger keeps of a name: non-empty, no operator character, no whitespace
      at either end, and not the start of a comment. */
  predicate NameOk(name: string) {
    name != [] && name[0] != '#' && !IsSpace(name[0]) && !IsSpace(name[|name| - 1])
    && forall i :: 0 <= i < |name| ==> !IsOperator(name[i])
  }

  /** What the merger keeps of a version: nothing, or an operator, at least one more
      character and no whitespace at the end. */
  predicate VersionOk(version: string) {
    version == [] || (|version| >= 2 && IsOperator(version[0]) && !IsSpace(version[|version| - 1]))
  }

  predicate WellFormed(r: Requirement) {
    NameOk(r.name) && VersionOk(r.version)
  }

  /** One line of a requirements file: stripped; a blank line, a comment and a line the
      pattern does not match give nothing; otherwise the two groups, each stripped. */
  function ParseLine(raw: string): Option<Requirement> {
    var line := Strip(raw);
    if line == [] || line[0] == '#' then None
    else
      var k := NameEnd(line, 0);
      if k == 0 || k + 1 == |line| then None
      else
        var name := Strip(line[..k]);
        var version := Strip(line[k..]);
        Some(Requirement(name, version))
  }

  /** Whatever the parser takes from a line is a well-formed requirement. */
  lemma ParseLineWellFormed(raw: string)
    ensures ParseLine(raw).Some? ==> WellFormed(ParseLine(raw).value)
  {
    var line := Strip(raw);
    if line != [] && line[0] != '#' {
      var k := NameEnd(line, 0);
      if k != 0 && k + 1 != |line| {
        ParsedPartsOk(line, k);
      }
    }
  }

  /** The stripped groups of a matched, stripped line are a well-formed requirement. */
  lemma ParsedPartsOk(line: string, k: nat)
    requires line != [] && line[0] != '#' && !IsSpace(line[0]) && !IsSpace(line[|line| - 1])
    requires 0 < k <= |line| && k + 1 != |line|
    requires forall i :: 0 <= i < k ==> !IsOperator(line[i])
    requires k < |line| ==> IsOperator(line[k])
    ensures WellFormed(Requirement(Strip(line[..k]), Strip(line[k..])))
  {
    NamePartOk(line, k);
    if k < |line| {
      var v := line[k..];
      assert v[0] == line[k] && v[|v| - 1] == line[|line| - 1];
      assert !IsSpace(v[0]);
      assert Strip(v) == v;
    }
  }

  lemma NamePartOk(line: string, k: nat)
    requires line != [] && line[0] != '#' && !IsSpace(line[0])
    requires 0 < k <= |line|
    requires forall i :: 0 <= i < k ==> !IsOperator(line[i])
    ensures NameOk(Strip(line[..k]))
  {
    var p := line[..k];
    TrimStartKeeps(p);
    var name := TrimEnd(p);
    assert Strip(p) == name;
    assert name != [] && name == p[..|name|];
    assert name[0] == line[0];
  }

  lemma TrimStartKeeps(s: string)
    requires s == [] || !IsSpace(s[0])
    ensures TrimStart(s) == s
  {
  }

  /** The line is taken exactly when its stripped text is neither blank nor a comment and
      the pattern matches it, and then the groups are those of the match. */
  lemma ParseLineMatches(raw: string)
    ensures ParseLine(raw).Some? <==>
              Strip(raw) != [] && Strip(raw)[0] != '#' && exists k :: RegexMatch(Strip(raw), k)
    ensures forall k :: RegexMatch(Strip(raw), k) && Strip(raw)[0] != '#' ==>
              ParseLine(raw) == Some(Requirement(Strip(Strip(raw)[..k]), Strip(Strip(raw)[k..])))
  {
    var line := Strip(raw);
    if line != [] && line[0] != '#' {
      var k := NameEnd(line, 0);
      forall j | RegexMatch(line, j)
        ensures j == k
      {
        if j < k {
          assert false;
        } else if k < j {
          assert false;
        }
      }
      if k != 0 && k + 1 != |line| {
        assert RegexMatch(line, k);
      }
    }
  }

  /** A requirement kept by the merger, written back as `name + version`, reads back as the
      same requirement: the combined file lists what was merged in the merger's own format. */
  lemma Reparse(r: Requirement)
    requires WellFormed(r)
    ensures ParseLine(r.name + r.version) == Some(r)
  {
    var line := r.name + r.version;
    StrippedJoin(r);
    NameEndJoin(r);
    PartsStripped(r);
    JoinLength(r.name, r.version);
    var k := |r.name|;
    assert line[..k] == r.name && line[k..] == r.version;
    ParseLineOf(line, k);
  }

  lemma PartsStripped(r: Requirement)
    requires WellFormed(r)
    ensures Strip(r.name) == r.name && Strip(r.version) == r.version
  {
    StripKeeps(r.name);
    StripKeeps(r.version);
  }

  lemma JoinLength(name: string, version: string)
    requires version == [] || |version| >= 2
    ensures |name| + 1 != |name + version|
  {
    assert |name + version| == |name| + |version|;
  }

  lemma StripKeeps(s: string)
    requires s == [] || (!IsSpace(s[0]) && !IsSpace(s[|s| - 1]))
    ensures Strip(s) == s
  {
  }

  /** ParseLine unfolded for a line that is already stripped and matched. */
  lemma ParseLineOf(line: string, k: nat)
    requires Strip(line) == line && line != [] && line[0] != '#'
    requires NameEnd(line, 0) == k && k != 0 && k + 1 != |line|
    ensures ParseLine(line) == Some(Requirement(Strip(line[..k]), Strip(line[k..])))
  {
  }

  lemma StrippedJoin(r: Requirement)
    requires WellFormed(r)
    ensures Strip(r.name + r.version) == r.name + r.version
  {
    var line := r.name + r.version;
    assert line[0] == r.name[0];
    if r.version == [] {
      assert line == r.name;
    } else {
      assert line[|line| - 1] == r.version[|r.version| - 1];
    }
  }

  lemma NameEndJoin(r: Requirement)
    requires WellFormed(r)
    ensures NameEnd(r.name + r.version, 0) == |r.name|
  {
    var line := r.name + r.version;
    assert forall i :: 0 <= i < |r.name| ==> line[i] == r.name[i];
    if r.version != [] {
      assert line[|r.name|] == r.version[0];
    }
  }

  // ---------------------------------------------------------------------------
  // Merging

  /** One requirement merged into the dictionary: a package seen for the first time is
      stored; an unversioned line never replaces what is stored; a versioned line replaces
      whatever is stored (the later file wins a conflict). */
  function Merge(packages: map<string, string>, r: Requirement): map<string, string> {
    if r.name in packages && r.version == "" then packages else packages[r.name := r.version]
  }

  /** The requirements the lines name, in order. */
  function Requirements(lines: seq<string>): seq<Requirement> {
    if lines == [] then []
    else
      Requirements(lines[..|lines| - 1])
      + match ParseLine(lines[|lines| - 1]) case Some(r) => [r] case None => []
  }

  lemma RequirementsSnoc(lines: seq<string>, line: string, parsed: Option<Requirement>)
    requires parsed == ParseLine(line)
    ensures parsed.None? ==> Requirements(lines + [line]) == Requirements(lines)
    ensures parsed.Some? ==> Requirements(lines + [line]) == Requirements(lines) + [parsed.value]
  {
    assert (lines + [line])[..|lines|] == lines;
  }

  /** A version equal to the stored one leaves the dictionary as it is. */
  lemma MergeSameVersion(packages: map<string, string>, r: Requirement)
    requires r.name in packages && packages[r.name] == r.version
    ensures Merge(packages, r) == packages
  {
  }

  lemma SliceSnoc(done: seq<string>, lines: seq<string>, j: nat)
    requires j < |lines|
    ensures done + lines[..j + 1] == (done + lines[..j]) + [lines[j]]
  {
    assert lines[..j + 1] == lines[..j] + [lines[j]];
  }

  lemma MergeAllSnoc(rs: seq<Requirement>, r: Requirement)
    ensures MergeAll(map[], rs + [r]) == Merge(MergeAll(map[], rs), r)
  {
    assert (rs + [r])[..|rs|] == rs;
  }

  predicate AllWellFormed(rs: seq<Requirement>) {
    forall i :: 0 <= i < |rs| ==> WellFormed(rs[i])
  }

  lemma {:induction false} RequirementsWellFormed(lines: seq<string>)
    ensures AllWellFormed(Requirements(lines))
  {
    if lines != [] {
      var init := lines[..|lines| - 1];
      RequirementsWellFormed(init);
      WellFormedStep(init, lines[|lines| - 1]);
      LastSplit(lines);
    }
  }

  lemma WellFormedStep(init: seq<string>, line: string)
    requires AllWellFormed(Requirements(init))
    ensures AllWellFormed(Requirements(init + [line]))
  {
    var parsed := ParseLine(line);
    assert parsed.Some? ==> WellFormed(parsed.value) by {
      ParseLineWellFormed(line);
    }
    assert Requirements(init + [line]) == Requirements(init) + Found(parsed) by {
      RequirementsSnoc(init, line, parsed);
    }
    FoundWellFormed(Requirements(init), parsed);
  }

  lemma FoundWellFormed(rs: seq<Requirement>, parsed: Option<Requirement>)
    requires AllWellFormed(rs) && (parsed.Some? ==> WellFormed(parsed.value))
    ensures AllWellFormed(rs + Found(parsed))
  {
    AllWellFormedAppend(rs, Found(parsed));
  }

  /** The requirement a line gives, as a sequence of none or one. */
  function Found(parsed: Option<Requirement>): (rs: seq<Requirement>)
    ensures parsed.Some? ==> rs == [parsed.value]
    ensures parsed.None? ==> rs == []
  {
    if parsed.Some? then [parsed.value] else []
  }

  lemma LastSplit<T>(s: seq<T>)
    requires s != []
    ensures s[..|s| - 1] + [s[|s| - 1]] == s
  {
  }

  lemma AllWellFormedAppend(a: seq<Requirement>, b: seq<Requirement>)
    requires AllWellFormed(a) && AllWellFormed(b)
    ensures AllWellFormed(a + b)
  {
    forall i | 0 <= i < |a + b|
      ensures WellFormed((a + b)[i])
    {
      if i >= |a| {
        assert (a + b)[i] == b[i - |a|];
      }
    }
  }

  /** The dictionary after the requirements have been merged in order. */
  function MergeAll(packages: map<string, string>, rs: seq<Requirement>): map<string, string> {
    if rs == [] then packages else Merge(MergeAll(packages, rs[..|rs| - 1]), rs[|rs| - 1])
  }

  predicate Names(rs: seq<Requirement>, i: int, name: string)
    requires 0 <= i < |rs|
  {
    rs[i].name == name
  }

  /** Starting from an empty dictionary: a package is present iff some requirement names
      it; its version is "" iff no requirement for it has a version; otherwise it is the
      version of the last requirement for it that has one. */
  lemma {:induction false} MergeAllLookup(rs: seq<Requirement>, name: string)
    ensures name in MergeAll(map[], rs) <==> exists i :: 0 <= i < |rs| && Names(rs, i, name)
    ensures name in MergeAll(map[], rs) ==>
              (MergeAll(map[], rs)[name] == "" <==>
                 forall i :: 0 <= i < |rs| && Names(rs, i, name) ==> rs[i].version == "")
    ensures name in MergeAll(map[], rs) && MergeAll(map[], rs)[name] != "" ==>
              exists i :: 0 <= i < |rs| && rs[i] == Requirement(name, MergeAll(map[], rs)[name])
                          && forall j :: i < j < |rs| && Names(rs, j, name) ==> rs[j].version == ""
  {
    if rs != [] {
      var n := |rs| - 1;
      var prefix := rs[..n];
      var before := MergeAll(map[], prefix);
      var after := MergeAll(map[], rs);
      MergeAllLookup(prefix, name);
      forall i | 0 <= i < n
        ensures Names(prefix, i, name) == Names(rs, i, name) && prefix[i] == rs[i]
      {
      }
      if rs[n].name != name {
        assert after == before[rs[n].name := rs[n].version] || after == before;
        if name in after && after[name] != "" {
          var i :| 0 <= i < n && prefix[i] == Requirement(name, before[name])
                   && forall j :: i < j < n && Names(prefix, j, name) ==> prefix[j].version == "";
          assert rs[i] == Requirement(name, after[name]);
        }
      } else if rs[n].version == "" && name in before {
        assert after == before;
        if after[name] != "" {
          var i :| 0 <= i < n && prefix[i] == Requirement(name, before[name])
                   && forall j :: i < j < n && Names(prefix, j, name) ==> prefix[j].version == "";
          assert rs[i] == Requirement(name, after[name]);
        }
      } else {
        assert after == before[name := rs[n].version];
        assert Names(rs, n, name);
        if rs[n].version != "" {
          assert rs[n] == Requirement(name, after[name]);
        }
      }
    }
  }

  /** Every entry of the merged dictionary is well formed, so each line of the combined file
      reads back as the entry it was written from. */
  lemma MergedEntriesReparse(lines: seq<string>, name: string)
    requires name in MergeAll(map[], Requirements(lines))
    ensures ParseLine(name + MergeAll(map[], Requirements(lines))[name])
            == Some(Requirement(name, MergeAll(map[], Requirements(lines))[name]))
  {
    var rs := Requirements(lines);
    var version := MergeAll(map[], rs)[name];
    RequirementsWellFormed(lines);
    MergeAllLookup(rs, name);
    var i :| 0 <= i < |rs| && Names(rs, i, name);
    assert NameOk(name);
    if version != "" {
      var j :| 0 <= j < |rs| && rs[j] == Requirement(name, version)
               && forall l :: j < l < |rs| && Names(rs, l, name) ==> rs[l].version == "";
      assert WellFormed(rs[j]);
    }
    Reparse(Requirement(name, version));
  }

  // ---------------------------------------------------------------------------
  // Reading the files

  /** `for line in f`: the file's text cut at each newline (a final newline leaves an empty
      last piece, which the merger skips as blank). */
  function FileLines(content: string): seq<string> {
    SplitOn(content, "\n")
  }

  /** The lines of the listed files that exist, file after file. */
  function AllLines(files: map<string, string>, paths: seq<string>): seq<string> {
    if paths == [] then []
    else
      AllLines(files, paths[..|paths| - 1])
      + if paths[|paths| - 1] in files then FileLines(files[paths[|paths| - 1]]) else []
  }

  /** The dictionary the script builds from the files. */
  function Combined(files: map<string, string>, paths: seq<string>): map<string, string> {
    MergeAll(map[], Requirements(AllLines(files, paths)))
  }

  // ---------------------------------------------------------------------------
  // Sorting and writing

  predicate StrictlySorted(names: seq<string>) {
    forall i, j :: 0 <= i < j < |names| ==> Less(names[i], names[j])
  }

  /** The least name of a non-empty set. */
  method Least(names: set<string>) returns (m: string)
    requires names != {}
    ensures m in names && forall n :: n in names && n != m ==> Less(m, n)
  {
    m :| m in names;
    var rest := names - {m};
    while rest != {}
      invariant rest <= names && m in names && m !in rest
      invariant forall n :: n in names && n !in rest && n != m ==> Less(m, n)
      decreases |rest|
    {
      var n :| n in rest;
      if Less(n, m) {
        forall x | x in names && x !in rest - {n} && x != n
          ensures Less(n, x)
        {
          if x != m {
            LessTransitive(n, m, x);
          }
        }
        m := n;
      } else {
        LessTotal(n, m);
      }
      rest := rest - {n};
    }
  }

  /** `sorted(packages.items())`: the package names in increasing order, each once
      (names are distinct keys, so the versions never decide the order). */
  method SortedNames(names: set<string>) returns (order: seq<string>)
    ensures StrictlySorted(order)
    ensures forall n :: n in order <==> n in names
  {
    order := [];
    var rest := names;
    while rest != {}
      invariant rest <= names
      invariant forall n :: n in order <==> n in names && n !in rest
      invariant StrictlySorted(order)
      invariant forall i, n :: 0 <= i < |order| && n in rest ==> Less(order[i], n)
      decreases |rest|
    {
      var m := Least(rest);
      forall i, n | 0 <= i < |order| && n in rest - {m}
        ensures Less(order[i], n)
      {
      }
      order := order + [m];
      rest := rest - {m};
    }
  }

  /** A strictly sorted listing of a set of names is unique: the combined file does not
      depend on the order in which packages were first seen. */
  lemma {:induction false} SortedUnique(a: seq<string>, b: seq<string>)
    requires StrictlySorted(a) && StrictlySorted(b)
    requires forall n :: n in a <==> n in b
    ensures a == b
    decreases |a|
  {
    if a != [] && b != [] {
      assert b[0] in a && a[0] in b;
      if a[0] != b[0] {
        var i :| 0 <= i < |a| && a[i] == b[0];
        var j :| 0 <= j < |b| && b[j] == a[0];
        assert Less(a[0], b[0]) by {
          assert i != 0;
        }
        assert Less(b[0], a[0]) by {
          assert j != 0;
        }
        LessAsymmetric(a[0], b[0]);
        assert false;
      }
      forall n
        ensures n in a[1..] <==> n in b[1..]
      {
        if n in a[1..] {
          var i :| 1 <= i < |a| && a[i] == n;
          LessIrreflexive(a[0]);
          assert n != a[0] && n in b;
          var j :| 0 <= j < |b| && b[j] == n;
          assert j != 0;
        }
        if n in b[1..] {
          var j :| 1 <= j < |b| && b[j] == n;
          LessIrreflexive(b[0]);
          assert n != b[0] && n in a;
          var i :| 0 <= i < |a| && a[i] == n;
          assert i != 0;
        }
      }
      SortedUnique(a[1..], b[1..]);
      assert a == [a[0]] + a[1..] && b == [b[0]] + b[1..];
    } else if a != [] {
      FirstIn(a);
      assert false;
    } else if b != [] {
      FirstIn(b);
      assert false;
    }
  }

  lemma FirstIn(a: seq<string>)
    ensures a != [] ==> a[0] in a
  {
  }

  const CombinedHeader := "# Combined requirements for Lambda functions\n"

  /** The lines `name + version`, in the given order. */
  function Entries(order: seq<string>, packages: map<string, string>): string
    requires forall n :: n in order ==> n in packages
  {
    if order == [] then ""
    else
      var last := order[|order| - 1];
      Entries(order[..|order| - 1], packages) + last + packages[last] + "\n"
  }

  /** The text of the combined file. */
  function CombinedText(order: seq<string>, packages: map<string, string>): string
    requires forall n :: n in order ==> n in packages
  {
    CombinedHeader + Entries(order, packages)
  }

  /** The header, then one line per package in the given order. */
  method WriteCombined(fs: FileSystem, path: string, order: seq<string>, packages: map<string, string>)
    requires forall n :: n in order ==> n in packages
    modifies fs
    ensures fs.files == old(fs.files)[path := CombinedText(order, packages)]
  {
    fs.Create(path);
    fs.Append(path, CombinedHeader);
    ghost var header := fs.files[path];
    assert header + Entries(order[..0], packages) == header;
    UpdateTwice(old(fs.files), path, "", header);
    for k := 0 to |order|
      invariant path in fs.files
      invariant fs.files == old(fs.files)[path := header + Entries(order[..k], packages)]
    {
      var name := order[k];
      EntriesStep(header, order, k, packages);
      fs.Append(path, name + packages[name] + "\n");
      UpdateTwice(old(fs.files), path, header + Entries(order[..k], packages),
                  header + Entries(order[..k + 1], packages));
    }
    assert order[..|order|] == order;
    assert header == CombinedHeader;
  }

  /** The loop's step: one more line after the header and the lines before it. */
  lemma EntriesStep(header: string, order: seq<string>, k: nat, packages: map<string, string>)
    requires forall n :: n in order ==> n in packages
    requires k < |order|
    ensures header + Entries(order[..k], packages) + (order[k] + packages[order[k]] + "\n")
            == header + Entries(order[..k + 1], packages)
  {
    assert order[..k + 1][..k] == order[..k];
    var before := Entries(order[..k], packages);
    var line := order[k] + packages[order[k]] + "\n";
    assert Entries(order[..k + 1], packages) == before + order[k] + packages[order[k]] + "\n";
    assert before + order[k] + packages[order[k]] + "\n" == before + line;
    assert header + before + line == header + (before + line);
  }

  /** The loop over one file's lines, with the branches of the script: a new package is
      stored, an unversioned line for a stored package is skipped, and a version replaces a
      stored empty or different version. */
  method MergeFile(packages: map<string, string>, done: seq<string>, lines: seq<string>)
    returns (merged: map<string, string>)
    requires packages == MergeAll(map[], Requirements(done))
    ensures merged == MergeAll(map[], Requirements(done + lines))
  {
    merged := packages;
    assert done + lines[..0] == done;
    for j := 0 to |lines|
      invariant merged == MergeAll(map[], Requirements(done + lines[..j]))
    {
      SliceSnoc(done, lines, j);
      var parsed := ParseLine(lines[j]);
      ghost var prev := Requirements(done + lines[..j]);
      RequirementsSnoc(done + lines[..j], lines[j], parsed);
      ghost var before := merged;
      if parsed.Some? {
        var r := parsed.value;
        var package, version := r.name, r.version;
        MergeAllSnoc(prev, r);
        if package in merged {
          if version == "" {
            // the versioned (or equal) requirement already stored is kept
            assert Merge(before, r) == before;
          } else if merged[package] == "" {
            merged := merged[package := version];
          } else if version != merged[package] {
            merged := merged[package := version];
          } else {
            MergeSameVersion(before, r);
          }
        } else {
          merged := merged[package := version];
        }
      }
    }
    assert lines[..|lines|] == lines;
  }

  /** The script: each listed file that exists is read line by line and merged into the
      dictionary, then the combined file is written sorted by package name. The returned
      listing is the order of its lines. */
  method GenerateCombinedRequirements(fs: FileSystem, requirementFiles: seq<string>, combinedFile: string)
    returns (packages: map<string, string>, order: seq<string>)
    modifies fs
    ensures packages == Combined(old(fs.files), requirementFiles)
    ensures StrictlySorted(order) && forall n :: n in order <==> n in packages
    ensures fs.files == old(fs.files)[combinedFile := CombinedText(order, packages)]
  {
    packages := map[];
    for i := 0 to |requirementFiles|
      invariant fs.files == old(fs.files)
      invariant packages == Combined(fs.files, requirementFiles[..i])
    {
      assert requirementFiles[..i + 1][..i] == requirementFiles[..i];
      var path := requirementFiles[i];
      assert AllLines(fs.files, requirementFiles[..i + 1])
             == AllLines(fs.files, requirementFiles[..i])
                + if path in fs.files then FileLines(fs.files[path]) else [];
      if path in fs.files {
        packages := MergeFile(packages, AllLines(fs.files, requirementFiles[..i]), FileLines(fs.files[path]));
      } else {
        assert AllLines(fs.files, requirementFiles[..i + 1]) == AllLines(fs.files, requirementFiles[..i]);
      }
    }
    assert requirementFiles[..|requirementFiles|] == requirementFiles;
    order := SortedNames(packages.Keys);
    WriteCombined(fs, combinedFile, order, packages);
  }
}

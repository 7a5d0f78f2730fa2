/** functions/build.py: `find_lambda_functions` lists every directory holding a
    `package.json` as a TypeScript Lambda and every directory holding a `requirements.txt`
    as a Python Lambda, skipping dependency and output folders; each builder first checks
    for its entry file and then runs its subprocesses in order, stopping at the first that
    fails; `main` exits with 0 only when every build succeeded. The two globs' answers, the
    file system's `exists` and each subprocess's failure are passed in. */
module LambdaBuild {

  import opened Wrappers

  /** A path as its `parts`. */
  type Path = seq<string>

  function Parent(p: Path): Path {
    if p == [] then [] else p[..|p| - 1]
  }

  /** A listed Lambda: its directory and whether it is TypeScript. */
  datatype Lambda = Lambda(dir: Path, isTypescript: bool)

  /** A `package.json` counts unless a `node_modules` or `dist` part is on its path. */
  predicate TypescriptListed(packageJson: Path) {
    "node_modules" !in packageJson && "dist" !in packageJson
  }

  /** A `requirements.txt` counts unless a `node_modules` part is on its path. */
  predicate PythonListed(requirementsTxt: Path) {
    "node_modules" !in requirementsTxt
  }

  /** The TypeScript entries of the first loop, in glob order. */
  function TypescriptEntries(packageJsons: seq<Path>): (r: seq<Lambda>)
    ensures |r| <= |packageJsons|
    ensures forall i :: 0 <= i < |r| ==> r[i].isTypescript
  {
    if packageJsons == [] then []
    else
      var last := packageJsons[|packageJsons| - 1];
      TypescriptEntries(packageJsons[..|packageJsons| - 1])
      + (if TypescriptListed(last) then [Lambda(Parent(last), true)] else [])
  }

  /** The Python entries of the second loop, in glob order. */
  function PythonEntries(requirementsTxts: seq<Path>): (r: seq<Lambda>)
    ensures |r| <= |requirementsTxts|
    ensures forall i :: 0 <= i < |r| ==> !r[i].isTypescript
  {
    if requirementsTxts == [] then []
    else
      var last := requirementsTxts[|requirementsTxts| - 1];
      PythonEntries(requirementsTxts[..|requirementsTxts| - 1])
      + (if PythonListed(last) then [Lambda(Parent(last), false)] else [])
  }

  /** `find_lambda_functions`, given what the recursive globs for `package.json` and for
      `requirements.txt` answered. */
  method FindLambdaFunctions(packageJsons: seq<Path>, requirementsTxts: seq<Path>) returns (lambdas: seq<Lambda>)
    ensures lambdas == TypescriptEntries(packageJsons) + PythonEntries(requirementsTxts)
  {
    lambdas := [];
    for i := 0 to |packageJsons|
      invariant lambdas == TypescriptEntries(packageJsons[..i])
    {
      assert packageJsons[..i + 1][..i] == packageJsons[..i];
      if "node_modules" !in packageJsons[i] && "dist" !in packageJsons[i] {
        lambdas := lambdas + [Lambda(Parent(packageJsons[i]), true)];
      }
    }
    assert packageJsons[..|packageJsons|] == packageJsons;
    ghost var typescript := lambdas;
    for i := 0 to |requirementsTxts|
      invariant lambdas == typescript + PythonEntries(requirementsTxts[..i])
    {
      assert requirementsTxts[..i + 1][..i] == requirementsTxts[..i];
      if "node_modules" !in requirementsTxts[i] {
        lambdas := lambdas + [Lambda(Parent(requirementsTxts[i]), false)];
      }
    }
    assert requirementsTxts[..|requirementsTxts|] == requirementsTxts;
  }

  /** A directory is a TypeScript entry exactly when one of the listed `package.json` files
      lies in it and has no `node_modules` or `dist` part. */
  lemma {:induction false} TypescriptEntriesMembers(packageJsons: seq<Path>, dir: Path)
    ensures Lambda(dir, true) in TypescriptEntries(packageJsons)
            <==> exists i :: 0 <= i < |packageJsons| && Parent(packageJsons[i]) == dir && TypescriptListed(packageJsons[i])
  {
    if packageJsons != [] {
      var init := packageJsons[..|packageJsons| - 1];
      TypescriptEntriesMembers(init, dir);
      assert forall i :: 0 <= i < |init| ==> init[i] == packageJsons[i];
    }
  }

  /** A directory is a Python entry exactly when one of the listed `requirements.txt`
      files lies in it and has no `node_modules` part; a `dist` part does not exclude it. */
  lemma {:induction false} PythonEntriesMembers(requirementsTxts: seq<Path>, dir: Path)
    ensures Lambda(dir, false) in PythonEntries(requirementsTxts)
            <==> exists i :: 0 <= i < |requirementsTxts| && Parent(requirementsTxts[i]) == dir && PythonListed(requirementsTxts[i])
  {
    if requirementsTxts != [] {
      var init := requirementsTxts[..|requirementsTxts| - 1];
      PythonEntriesMembers(init, dir);
      assert forall i :: 0 <= i < |init| ==> init[i] == requirementsTxts[i];
    }
  }

  /** Every TypeScript entry comes before every Python entry. */
  lemma TypescriptFirst(packageJsons: seq<Path>, requirementsTxts: seq<Path>)
    ensures var lambdas := TypescriptEntries(packageJsons) + PythonEntries(requirementsTxts);
            forall i, j :: 0 <= i < j < |lambdas| && lambdas[j].isTypescript ==> lambdas[i].isTypescript
  {
    var ts := TypescriptEntries(packageJsons);
    var lambdas := ts + PythonEntries(requirementsTxts);
    forall i, j | 0 <= i < j < |lambdas| && lambdas[j].isTypescript
      ensures lambdas[i].isTypescript
    {
      assert j < |ts|;
      assert lambdas[i] == ts[i];
    }
  }

  /** A directory holding both files, not under `node_modules` or `dist`, is listed
      twice: once for each language. */
  lemma BothFilesListedTwice(packageJsons: seq<Path>, requirementsTxts: seq<Path>, dir: Path)
    requires dir + ["package.json"] in packageJsons && dir + ["requirements.txt"] in requirementsTxts
    requires "node_modules" !in dir && "dist" !in dir
    ensures var lambdas := TypescriptEntries(packageJsons) + PythonEntries(requirementsTxts);
            Lambda(dir, true) in lambdas && Lambda(dir, false) in lambdas
  {
    var ts := TypescriptEntries(packageJsons);
    var py := PythonEntries(requirementsTxts);
    var i :| 0 <= i < |packageJsons| && packageJsons[i] == dir + ["package.json"];
    var j :| 0 <= j < |requirementsTxts| && requirementsTxts[j] == dir + ["requirements.txt"];
    assert Parent(packageJsons[i]) == dir && TypescriptListed(packageJsons[i]);
    assert Parent(requirementsTxts[j]) == dir && PythonListed(requirementsTxts[j]);
    TypescriptEntriesMembers(packageJsons, dir);
    PythonEntriesMembers(requirementsTxts, dir);
    assert Lambda(dir, true) in ts && Lambda(dir, false) in py;
  }

  /** Under a `dist` folder a `requirements.txt` is still listed, a `package.json` is not. */
  lemma DistOnlyPython(dir: Path)
    requires "dist" in dir && "node_modules" !in dir
    ensures TypescriptEntries([dir + ["package.json"]]) == []
    ensures PythonEntries([dir + ["requirements.txt"]]) == [Lambda(dir, false)]
  {
    assert "dist" in dir + ["package.json"];
    assert "node_modules" !in dir + ["requirements.txt"];
    assert Parent(dir + ["requirements.txt"]) == dir;
  }

  // ---------------------------------------------------------------------------
  // The builders

  /** A `BuildResult`; `error` is "" on success. */
  datatype BuildResult = BuildResult(path: Path, success: bool, error: string)

  /** A subprocess: its arguments and its working directory. */
  datatype Command = Command(argv: seq<string>, cwd: Path)

  /** The subprocesses of `build_typescript_lambda`, in order. */
  function TypescriptCommands(dir: Path): seq<Command> {
    [ Command(["pnpm", "install"], dir),
      Command(["pnpm", "exec", "esbuild", "index.ts", "--bundle", "--sourcemap", "--platform=node",
               "--target=es2020", "--external:pg", "--outfile=dist/index.js"], dir),
      Command(["pnpm", "install", "--prod"], dir + ["dist"]),
      Command(["zip", "-r", "../deployment.zip", "."], dir + ["dist"]) ]
  }

  /** The subprocesses of `build_python_lambda`, in order. */
  function PythonCommands(dir: Path): seq<Command> {
    [ Command(["python3", "-m", "pip", "install", "--target", "./package", "-r", "requirements.txt"], dir),
      Command(["zip", "-r", "../deployment.zip", "."], dir + ["package"]),
      Command(["zip", "-g", "deployment.zip", "index.py"], dir) ]
  }

  /** What running `check=True` subprocesses in order did: the ones started, and the text
      of the `CalledProcessError` that stopped them, if one did. */
  datatype Steps = Steps(ran: seq<Command>, failure: Option<string>)

  function RunInOrder(commands: seq<Command>, run: Command -> Option<string>): (s: Steps)
    ensures |s.ran| <= |commands| && s.ran == commands[..|s.ran|]
    ensures s.failure.None? <==> s.ran == commands && forall i :: 0 <= i < |commands| ==> run(commands[i]).None?
    ensures s.failure.Some? ==> s.ran != [] && s.failure == run(s.ran[|s.ran| - 1])
                                && forall i :: 0 <= i < |s.ran| - 1 ==> run(s.ran[i]).None?
  {
    if commands == [] then Steps([], None)
    else
      match run(commands[0])
      case Some(e) => Steps([commands[0]], Some(e))
      case None =>
        var rest := RunInOrder(commands[1..], run);
        assert forall i :: 1 <= i < |commands| ==> commands[i] == commands[1..][i - 1];
        Steps([commands[0]] + rest.ran, rest.failure)
  }

  /** A build's result and the subprocesses it started. */
  datatype Build = Build(result: BuildResult, ran: seq<Command>)

  function Builder(dir: Path, entry: string, commands: seq<Command>, exists_: Path -> bool,
                   run: Command -> Option<string>): Build {
    if !exists_(dir + [entry]) then Build(BuildResult(dir, false, "No " + entry + " found"), [])
    else
      var steps := RunInOrder(commands, run);
      if steps.failure.Some? then Build(BuildResult(dir, false, steps.failure.value), steps.ran)
      else Build(BuildResult(dir, true, ""), steps.ran)
  }

  /** `build_typescript_lambda` */
  function BuildTypescript(dir: Path, exists_: Path -> bool, run: Command -> Option<string>): (b: Build)
    ensures b.result.path == dir
  {
    Builder(dir, "index.ts", TypescriptCommands(dir), exists_, run)
  }

  /** `build_python_lambda` */
  function BuildPython(dir: Path, exists_: Path -> bool, run: Command -> Option<string>): (b: Build)
    ensures b.result.path == dir
  {
    Builder(dir, "index.py", PythonCommands(dir), exists_, run)
  }

  /** The builder `main` picks for an entry. */
  function BuildEntry(l: Lambda, exists_: Path -> bool, run: Command -> Option<string>): Build {
    if l.isTypescript then BuildTypescript(l.dir, exists_, run) else BuildPython(l.dir, exists_, run)
  }

  /** Without its entry file a build fails with the fixed message and starts nothing. */
  lemma MissingEntryFails(l: Lambda, exists_: Path -> bool, run: Command -> Option<string>)
    requires !exists_(l.dir + [if l.isTypescript then "index.ts" else "index.py"])
    ensures var b := BuildEntry(l, exists_, run);
            b.ran == [] && !b.result.success
            && b.result.error == if l.isTypescript then "No index.ts found" else "No index.py found"
  {
  }

  /** A build succeeds exactly when its entry file exists and every one of its subprocesses
      succeeds; then all of them ran, in order. A failed subprocess stops the rest and its
      error is the result's. */
  lemma BuildOutcome(l: Lambda, exists_: Path -> bool, run: Command -> Option<string>)
    ensures var commands := if l.isTypescript then TypescriptCommands(l.dir) else PythonCommands(l.dir);
            var entry := if l.isTypescript then "index.ts" else "index.py";
            var b := BuildEntry(l, exists_, run);
            (b.result.success <==> exists_(l.dir + [entry]) && forall i :: 0 <= i < |commands| ==> run(commands[i]).None?)
            && (b.result.success ==> b.ran == commands && b.result.error == "")
            && (exists_(l.dir + [entry]) && !b.result.success ==>
                  b.ran != [] && b.result.error == run(b.ran[|b.ran| - 1]).value)
  {
  }

  // ---------------------------------------------------------------------------
  // main

  /** The results of building the entries in order. */
  function Results(lambdas: seq<Lambda>, exists_: Path -> bool, run: Command -> Option<string>): (rs: seq<BuildResult>)
    ensures |rs| == |lambdas|
    ensures forall i :: 0 <= i < |lambdas| ==> rs[i] == BuildEntry(lambdas[i], exists_, run).result
  {
    if lambdas == [] then []
    else
      var init := Results(lambdas[..|lambdas| - 1], exists_, run);
      init + [BuildEntry(lambdas[|lambdas| - 1], exists_, run).result]
  }

  /** `all(r.success for r in results)` */
  function AllSucceeded(results: seq<BuildResult>): (r: bool)
    ensures r <==> forall i :: 0 <= i < |results| ==> results[i].success
  {
    if results == [] then true else results[0].success && AllSucceeded(results[1..])
  }

  /** `main` after the listing: each entry is built in order and the exit status is 0
      exactly when every build succeeded. */
  method BuildAll(lambdas: seq<Lambda>, exists_: Path -> bool, run: Command -> Option<string>)
    returns (results: seq<BuildResult>, status: int)
    ensures results == Results(lambdas, exists_, run)
    ensures status == 0 <==> forall i :: 0 <= i < |results| ==> results[i].success
    ensures status in {0, 1}
  {
    results := [];
    for i := 0 to |lambdas|
      invariant results == Results(lambdas[..i], exists_, run)
    {
      assert lambdas[..i + 1][..i] == lambdas[..i];
      var l := lambdas[i];
      var b := if l.isTypescript then BuildTypescript(l.dir, exists_, run) else BuildPython(l.dir, exists_, run);
      results := results + [b.result];
    }
    assert lambdas[..|lambdas|] == lambdas;
    status := if AllSucceeded(results) then 0 else 1;
  }

  /** One Lambda without its entry file makes the whole run exit with 1. */
  lemma OneMissingEntryFailsAll(lambdas: seq<Lambda>, exists_: Path -> bool, run: Command -> Option<string>, k: nat)
    requires k < |lambdas|
    requires !exists_(lambdas[k].dir + [if lambdas[k].isTypescript then "index.ts" else "index.py"])
    ensures !AllSucceeded(Results(lambdas, exists_, run))
  {
    MissingEntryFails(lambdas[k], exists_, run);
  }
}

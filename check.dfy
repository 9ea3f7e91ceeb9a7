/**
 * The consistency checker for benchmark definitions (`test/check.py`): the
 * structural checks on each `<tasks>` element, the checker's own resolver of
 * the categories a verifier takes part in, the completeness check against
 * that set, and the gating and aggregation over a batch of files.
 */
module Check {
  import opened Wrappers
  import opened Strings
  import opened Paths
  import opened Xml
  import opened Categories

  const BenchdefSuffix: string := ".xml"

  /** Task sets that may be missing from a benchmark definition. */
  const AllowlistTaskSets: seq<string> := [
    "DefinedBehavior-TerminCrafted",
    "DefinedBehavior-Arrays",
    "NoDataRace-Main",
    "SoftwareSystems-SQLite-MemSafety",
    "Unused_Juliet"
  ]

  /** One reported problem; each constructor stands for one message of the checker. */
  datatype Diagnostic =
    | InvalidXml(message: string)
    | MissingName(line: nat)
    | IncludeCount(task: Option<string>)
    | WrongDirectory(expected: string, task: Option<string>, was: string)
    | NotASetFile(setFile: string)
    | SetNameMismatch(setName: string, task: Option<string>)
    | OptionInTasks(task: Option<string>)
    | NoEntry
    | MoreSetsThanExpected(extra: set<string>)
    | MissingIncludes(missing: set<string>)

  /** What the checker asks of the file system: `exists`, `is_dir` and `resolve` on paths. */
  datatype FileSystem = FileSystem(pathExists: string -> bool, isDirectory: string -> bool, resolve: string -> string)

  /**
   * A benchmark definition as the checker sees it: its path, the message of a
   * failed parse or DTD validation if there is one, and its document.
   */
  datatype BenchDef = BenchDef(path: string, parseError: Option<string>, root: Node)

  // ---------------------------------------------------------------------------
  // Names derived from file names
  // ---------------------------------------------------------------------------

  /** `_get_verifier_name`: the file name without its last four characters. */
  function VerifierName(benchDef: string): (r: string)
    ensures |Name(benchDef)| < 4 ==> r == ""
    ensures |Name(benchDef)| >= 4 ==> r + Name(benchDef)[|Name(benchDef)| - 4..] == Name(benchDef)
  {
    DropLast(Name(benchDef), |BenchdefSuffix|)
  }

  /** The verifier of `dir/v.xml` is `v`. */
  lemma VerifierNameOfFile(dir: string, verifier: string)
    requires '/' !in verifier
    ensures VerifierName(dir + "/" + verifier + BenchdefSuffix) == verifier
  {
    var file := verifier + BenchdefSuffix;
    assert '/' !in file;
    assert IsPart(file);
    assert dir + "/" + verifier + BenchdefSuffix == dir + "/" + file;
    NameOfFile(dir, file);
    assert file[..|file| - 4] == verifier;
  }

  /** `_get_category_name` on a string: the set file name without its last four characters. */
  function CategoryName(setFile: string): (r: string)
    ensures |setFile| < 4 ==> r == ""
    ensures |setFile| >= 4 ==> r + setFile[|setFile| - 4..] == setFile
  {
    DropLast(setFile, |".set"|)
  }

  lemma CategoryNameOfSetFile(category: string)
    ensures CategoryName(category + ".set") == category
  {
    assert (category + ".set")[..|category|] == category;
  }

  /** The set name of a set file: all dot-separated segments but the last, joined by dots. */
  function SetName(setFile: string): (r: string)
    ensures '.' !in setFile ==> r == ""
  {
    var pieces := Split(setFile, '.');
    Join(pieces[..|pieces| - 1], '.')
  }

  /** Removing a last segment free of dots gives back what came before the dot. */
  lemma SetNameOfFile(base: string, ext: string)
    requires '.' !in ext
    ensures SetName(base + "." + ext) == base
  {
    assert base + "." + ext == base + ['.'] + ext;
    SplitAround(base, ext, '.');
    var pieces := Split(base + "." + ext, '.');
    assert pieces == Split(base, '.') + [ext];
    assert pieces[..|pieces| - 1] == Split(base, '.');
    JoinSplit(base, '.');
  }

  // ---------------------------------------------------------------------------
  // Structural checks on <tasks> elements
  // ---------------------------------------------------------------------------

  /** `if not name`: the name attribute is absent or empty. */
  predicate LacksName(task: Node) {
    Get(task, "name").None? || Get(task, "name").value == ""
  }

  function Includes(task: Node): seq<Node>
    requires task.Element?
  {
    FindAll(task.children, "includesfile")
  }

  /** The directory an include points into, resolved. */
  function BenchmarkDir(xmlPath: string, text: string, fs: FileSystem): string {
    fs.resolve(JoinPath(Parent(xmlPath), Parent(text)))
  }

  /** The directory check fires only when the expected directory exists and differs. */
  function DirectoryDiagnostics(benchmarkDir: string, expectedDir: string, name: Option<string>, fs: FileSystem): (r: seq<Diagnostic>)
    ensures |r| <= 1
    ensures forall d :: d in r ==> d.WrongDirectory?
    ensures r != [] <==> fs.pathExists(expectedDir) && benchmarkDir != expectedDir
    ensures r != [] ==> r[0] == WrongDirectory(expectedDir, name, benchmarkDir)
    ensures forall d :: d in r ==> d == WrongDirectory(expectedDir, name, benchmarkDir)
  {
    if fs.pathExists(expectedDir) && benchmarkDir != expectedDir then [WrongDirectory(expectedDir, name, benchmarkDir)] else []
  }

  /** The extension and set-name checks on the file name of an include. */
  function SetFileDiagnostics(setFile: string, name: Option<string>): (r: seq<Diagnostic>)
    ensures NotASetFile(setFile) in r <==> !EndsWith(setFile, ".set")
    ensures SetNameMismatch(SetName(setFile), name) in r <==> name != Some(SetName(setFile))
    ensures forall d :: d in r ==> d == NotASetFile(setFile) || d == SetNameMismatch(SetName(setFile), name)
    ensures |r| <= 2
  {
    var setName := SetName(setFile);
    (if !EndsWith(setFile, ".set") then [NotASetFile(setFile)] else [])
    + (if name != Some(setName) then [SetNameMismatch(setName, name)] else [])
  }

  /**
   * The checks on the single `<includesfile>` of a task, given its text: the
   * directory, the `.set` extension and the set name.
   */
  function IncludeDiagnostics(xmlPath: string, text: string, name: Option<string>, tasksDir: string, fs: FileSystem): (r: seq<Diagnostic>)
    ensures forall d :: d in r ==> d.WrongDirectory? || d.NotASetFile? || d.SetNameMismatch?
    ensures |r| <= 3
    ensures var found := BenchmarkDir(xmlPath, text, fs); var expected := fs.resolve(tasksDir);
      WrongDirectory(expected, name, found) in r <==> fs.pathExists(expected) && found != expected
    ensures NotASetFile(Name(text)) in r <==> !EndsWith(Name(text), ".set")
    ensures SetNameMismatch(SetName(Name(text)), name) in r <==> name != Some(SetName(Name(text)))
    ensures forall d :: d in r ==>
      || d == WrongDirectory(fs.resolve(tasksDir), name, BenchmarkDir(xmlPath, text, fs))
      || d == NotASetFile(Name(text))
      || d == SetNameMismatch(SetName(Name(text)), name)
  {
    var found := BenchmarkDir(xmlPath, text, fs);
    var expected := fs.resolve(tasksDir);
    var directory := DirectoryDiagnostics(found, expected, name, fs);
    var setFile := SetFileDiagnostics(Name(text), name);
    IncludeParts(directory, setFile, WrongDirectory(expected, name, found), NotASetFile(Name(text)),
      SetNameMismatch(SetName(Name(text)), name));
    directory + setFile
  }

  /** What the directory part and the file-name part of an include check report together. */
  lemma IncludeParts(directory: seq<Diagnostic>, setFile: seq<Diagnostic>, w: Diagnostic, n: Diagnostic, m: Diagnostic)
    requires w.WrongDirectory? && n.NotASetFile? && m.SetNameMismatch?
    requires |directory| <= 1 && forall d :: d in directory ==> d == w
    requires forall d :: d in setFile ==> d == n || d == m
    requires |setFile| <= 2
    ensures forall d :: d in directory + setFile ==> d == w || d == n || d == m
    ensures w in directory + setFile <==> w in directory
    ensures n in directory + setFile <==> n in setFile
    ensures m in directory + setFile <==> m in setFile
    ensures |directory + setFile| <= 3
  {
  }

  /** The diagnostics of an include without text, raised as `Path(None)` fails. */
  const PathOfNone: Error := TypeError("expected str, bytes or os.PathLike object, not NoneType")

  /** The include checks, or the one multiplicity diagnostic when there is not exactly one include. */
  function IncludesDiagnostics(xmlPath: string, includes: seq<Node>, name: Option<string>, tasksDir: string, fs: FileSystem): (r: seq<Diagnostic>)
    requires |includes| == 1 ==> includes[0].Element? && includes[0].text.Some?
    ensures forall d :: d in r ==> d.IncludeCount? || d.WrongDirectory? || d.NotASetFile? || d.SetNameMismatch?
    ensures IncludeCount(name) in r <==> |includes| != 1
    ensures |includes| != 1 ==> r == [IncludeCount(name)]
  {
    if |includes| != 1 then [IncludeCount(name)]
    else IncludeDiagnostics(xmlPath, includes[0].text.value, name, tasksDir, fs)
  }

  /**
   * The diagnostics of one `<tasks>` element, in the order the checker
   * appends them; `Path(None)` on an include without text raises.
   */
  function TaskDiagnostics(xmlPath: string, task: Node, tasksDir: string, fs: FileSystem): (r: Result<seq<Diagnostic>>)
    requires IsTasks(task)
    ensures r.Err? <==> |Includes(task)| == 1 && Includes(task)[0].text.None?
  {
    var name := Get(task, "name");
    var includes := Includes(task);
    if |includes| == 1 && includes[0].text.None? then Err(PathOfNone)
    else
      Ok((if LacksName(task) then [MissingName(task.line)] else [])
        + IncludesDiagnostics(xmlPath, includes, name, tasksDir, fs)
        + (if FindAll(task.children, "option") != [] then [OptionInTasks(name)] else []))
  }

  /**
   * Each check of a `<tasks>` element reports independently of the others:
   * a missing or empty name, a number of includes other than one (and then
   * no directory, extension or name diagnostic), and an `<option>` child.
   */
  lemma TaskDiagnosticsCases(xmlPath: string, task: Node, tasksDir: string, fs: FileSystem)
    requires IsTasks(task)
    requires TaskDiagnostics(xmlPath, task, tasksDir, fs).Ok?
    ensures var r := TaskDiagnostics(xmlPath, task, tasksDir, fs).value;
      && (MissingName(task.line) in r <==> LacksName(task))
      && (IncludeCount(Get(task, "name")) in r <==> |Includes(task)| != 1)
      && (OptionInTasks(Get(task, "name")) in r <==> FindAll(task.children, "option") != [])
      && (|Includes(task)| != 1 ==> forall d :: d in r ==>
            d == MissingName(task.line) || d == IncludeCount(Get(task, "name")) || d == OptionInTasks(Get(task, "name")))
  {
    var name := Get(task, "name");
    var head := if LacksName(task) then [MissingName(task.line)] else [];
    var mid := IncludesDiagnostics(xmlPath, Includes(task), name, tasksDir, fs);
    var tail := if FindAll(task.children, "option") != [] then [OptionInTasks(name)] else [];
    var r := TaskDiagnostics(xmlPath, task, tasksDir, fs).value;
    assert r == head + mid + tail;
    ThreeParts(r, head, mid, tail, MissingName(task.line), IncludeCount(name), OptionInTasks(name),
      LacksName(task), |Includes(task)| != 1, FindAll(task.children, "option") != []);
  }

  /**
   * A task with exactly one include gets the directory, extension and
   * set-name diagnostics exactly when their conditions hold.
   */
  lemma TaskIncludeCases(xmlPath: string, task: Node, tasksDir: string, fs: FileSystem)
    requires IsTasks(task)
    requires TaskDiagnostics(xmlPath, task, tasksDir, fs).Ok?
    ensures |Includes(task)| == 1 ==>
      var r := TaskDiagnostics(xmlPath, task, tasksDir, fs).value;
      var name := Get(task, "name");
      var text := Includes(task)[0].text.value;
      var found := BenchmarkDir(xmlPath, text, fs);
      var expected := fs.resolve(tasksDir);
      && (WrongDirectory(expected, name, found) in r <==> fs.pathExists(expected) && found != expected)
      && (NotASetFile(Name(text)) in r <==> !EndsWith(Name(text), ".set"))
      && (SetNameMismatch(SetName(Name(text)), name) in r <==> name != Some(SetName(Name(text))))
      && (forall d :: d in r ==>
            || d == MissingName(task.line) || d == OptionInTasks(name)
            || d == WrongDirectory(expected, name, found) || d == NotASetFile(Name(text))
            || d == SetNameMismatch(SetName(Name(text)), name))
  {
    var name := Get(task, "name");
    var head := if LacksName(task) then [MissingName(task.line)] else [];
    var mid := IncludesDiagnostics(xmlPath, Includes(task), name, tasksDir, fs);
    var tail := if FindAll(task.children, "option") != [] then [OptionInTasks(name)] else [];
    var r := TaskDiagnostics(xmlPath, task, tasksDir, fs).value;
    assert r == head + mid + tail;
    if |Includes(task)| == 1 {
      assert mid == IncludeDiagnostics(xmlPath, Includes(task)[0].text.value, name, tasksDir, fs);
      ThreeParts(r, head, mid, tail, MissingName(task.line), IncludeCount(name), OptionInTasks(name),
        LacksName(task), false, FindAll(task.children, "option") != []);
    }
  }

  /** Membership in the concatenation of an optional head, a middle part and an optional tail. */
  lemma ThreeParts(r: seq<Diagnostic>, head: seq<Diagnostic>, mid: seq<Diagnostic>, tail: seq<Diagnostic>,
                   m: Diagnostic, c: Diagnostic, o: Diagnostic, lacks: bool, many: bool, opts: bool)
    requires r == head + mid + tail
    requires m.MissingName? && c.IncludeCount? && o.OptionInTasks?
    requires head == (if lacks then [m] else []) && tail == (if opts then [o] else [])
    requires forall d :: d in mid ==> d.IncludeCount? || d.WrongDirectory? || d.NotASetFile? || d.SetNameMismatch?
    requires (c in mid <==> many) && (many ==> mid == [c])
    ensures (m in r <==> lacks) && (c in r <==> many) && (o in r <==> opts)
    ensures many ==> forall d :: d in r ==> d.MissingName? || d.IncludeCount? || d.OptionInTasks?
    ensures forall d: Diagnostic :: !d.MissingName? && !d.OptionInTasks? ==> (d in r <==> d in mid)
    ensures forall d :: d in r ==> d == m || d == o || d in mid
  {
    assert m !in mid && o !in mid;
  }

  /** A set file `n.set` matches a task named `n` when `n` has no dot. */
  lemma SetFileOfTaskName(n: string)
    requires '.' !in n
    ensures SetFileDiagnostics(n + ".set", Some(n)) == []
  {
    var file := n + ".set";
    assert EndsWith(file, ".set") by {
      assert file[|file| - 4..] == ".set";
    }
    SetNameOfFile(n, "set");
    assert n + "." + "set" == file;
  }

  /**
   * A set file whose name extends the task name is reported, as
   * `Overflowing.set` is for the task `Overflow`.
   */
  lemma SetNameExtendingTaskName(n: string, more: string)
    requires more != "" && '.' !in n && '.' !in more
    ensures SetFileDiagnostics(n + more + ".set", Some(n)) == [SetNameMismatch(n + more, Some(n))]
  {
    var file := n + more + ".set";
    assert EndsWith(file, ".set") by {
      assert file[|file| - 4..] == ".set";
    }
    assert '.' !in n + more;
    SetNameOfFile(n + more, "set");
    assert n + more + "." + "set" == file;
    assert |n + more| != |n|;
  }

  /**
   * An include `dir/n.set` of a task named `n` gets no extension or set-name
   * diagnostic; with the directory check passing it gets none at all.
   */
  lemma ConsistentIncludeIsClean(xmlPath: string, dir: string, n: string, tasksDir: string, fs: FileSystem)
    requires n != "" && '/' !in n && '.' !in n
    requires !fs.pathExists(fs.resolve(tasksDir)) || BenchmarkDir(xmlPath, dir + "/" + n + ".set", fs) == fs.resolve(tasksDir)
    ensures IncludeDiagnostics(xmlPath, dir + "/" + n + ".set", Some(n), tasksDir, fs) == []
  {
    var file := n + ".set";
    assert dir + "/" + n + ".set" == dir + "/" + file;
    assert '/' !in file;
    NameOfFile(dir, file);
    SetFileOfTaskName(n);
  }

  /** A task named `n` with the one include `dir/n.set`, no option and a passing directory check gets no diagnostic. */
  lemma ConsistentTaskIsClean(xmlPath: string, task: Node, dir: string, n: string, tasksDir: string, fs: FileSystem)
    requires IsTasks(task) && Get(task, "name") == Some(n)
    requires n != "" && '/' !in n && '.' !in n
    requires |Includes(task)| == 1 && Includes(task)[0].text == Some(dir + "/" + n + ".set")
    requires FindAll(task.children, "option") == []
    requires !fs.pathExists(fs.resolve(tasksDir)) || BenchmarkDir(xmlPath, dir + "/" + n + ".set", fs) == fs.resolve(tasksDir)
    ensures TaskDiagnostics(xmlPath, task, tasksDir, fs) == Ok([])
  {
    ConsistentIncludeIsClean(xmlPath, dir, n, tasksDir, fs);
    var mid := IncludesDiagnostics(xmlPath, Includes(task), Some(n), tasksDir, fs);
    assert mid == [];
    assert !LacksName(task);
    assert TaskDiagnostics(xmlPath, task, tasksDir, fs) == Ok([] + mid + []);
  }

  /** `Ok(errors + more)` when the rest succeeds, the error otherwise. */
  function Then(errors: seq<Diagnostic>, rest: Result<seq<Diagnostic>>): Result<seq<Diagnostic>> {
    match rest
    case Ok(more) => Ok(errors + more)
    case Err(e) => Err(e)
  }

  lemma ThenNothing(r: Result<seq<Diagnostic>>)
    ensures Then([], r) == r
  {
    if r.Ok? {
      assert [] + r.value == r.value;
    }
  }

  lemma ThenAssoc(a: seq<Diagnostic>, b: seq<Diagnostic>, rest: Result<seq<Diagnostic>>)
    ensures Then(a, Then(b, rest)) == Then(a + b, rest)
  {
    if rest.Ok? {
      assert a + (b + rest.value) == a + b + rest.value;
    }
  }

  /**
   * The outcome of a loop that checks items in order and appends their
   * diagnostics: the first item that raises ends it with that error.
   */
  function Collect(results: seq<Result<seq<Diagnostic>>>): Result<seq<Diagnostic>>
    decreases |results|
  {
    if results == [] then Ok([])
    else if results[0].Err? then Err(results[0].error)
    else Then(results[0].value, Collect(results[1..]))
  }

  /** The item was checked without raising and got the diagnostic. */
  predicate Reports(result: Result<seq<Diagnostic>>, d: Diagnostic) {
    result.Ok? && d in result.value
  }

  /**
   * The loop raises exactly when one of its items does, and then with the
   * error of the first item that raises; otherwise it reports every
   * diagnostic of every item and nothing else.
   */
  lemma {:induction false} CollectMembers(results: seq<Result<seq<Diagnostic>>>)
    ensures var r := Collect(results);
      && (r.Ok? <==> forall i :: 0 <= i < |results| ==> results[i].Ok?)
      && (r.Err? ==> exists i :: (0 <= i < |results| && results[i] == Err(r.error)
            && forall j :: 0 <= j < i ==> results[j].Ok?))
      && (r.Ok? ==> forall d :: d in r.value <==> exists i :: 0 <= i < |results| && Reports(results[i], d))
    decreases |results|
  {
    if results != [] {
      var rest := results[1..];
      CollectMembers(rest);
      assert forall i :: 1 <= i < |results| ==> results[i] == rest[i - 1];
      var r := Collect(results);
      var r' := Collect(rest);
      if results[0].Err? {
        assert results[0] == Err(r.error);
      } else if r'.Err? {
        var k :| 0 <= k < |rest| && rest[k] == Err(r'.error) && forall j :: 0 <= j < k ==> rest[j].Ok?;
        assert results[k + 1] == Err(r.error);
        assert forall j :: 0 <= j < k + 1 ==> results[j].Ok? by {
          assert forall j :: 1 <= j < k + 1 ==> results[j] == rest[j - 1];
        }
      } else {
        assert r == Ok(results[0].value + r'.value);
        forall d | d in r.value ensures exists i :: 0 <= i < |results| && Reports(results[i], d) {
          if d in results[0].value {
            assert Reports(results[0], d);
          } else {
            var j :| 0 <= j < |rest| && Reports(rest[j], d);
            assert Reports(results[j + 1], d);
          }
        }
        forall d | exists i :: 0 <= i < |results| && Reports(results[i], d) ensures d in r.value {
          var i :| 0 <= i < |results| && Reports(results[i], d);
          if i > 0 {
            assert Reports(rest[i - 1], d);
          }
        }
      }
    }
  }

  /** The loop reports nothing exactly when no item raises or reports anything. */
  lemma CollectClean(results: seq<Result<seq<Diagnostic>>>)
    ensures Collect(results) == Ok([]) <==> forall i :: 0 <= i < |results| ==> results[i] == Ok([])
  {
    CollectMembers(results);
    var r := Collect(results);
    if r == Ok([]) {
      forall i | 0 <= i < |results| ensures results[i] == Ok([]) {
        var v := results[i].value;
        if v != [] {
          assert Reports(results[i], v[0]);
        }
      }
    }
    if forall i :: 0 <= i < |results| ==> results[i] == Ok([]) {
      if r.Ok? && r.value != [] {
        assert r.value[0] in r.value;
      }
    }
  }

  /** One step of the loop from position `i`. */
  lemma CollectStep(results: seq<Result<seq<Diagnostic>>>, i: nat)
    requires i < |results|
    ensures Collect(results[i..])
      == if results[i].Err? then Err(results[i].error) else Then(results[i].value, Collect(results[i + 1..]))
  {
    assert results[i..][0] == results[i] && results[i..][1..] == results[i + 1..];
  }

  /** The outcomes of the checks on each `<tasks>` element, in order. */
  function TaskResults(xmlPath: string, tasks: seq<Node>, tasksDir: string, fs: FileSystem): (rs: seq<Result<seq<Diagnostic>>>)
    requires forall i :: 0 <= i < |tasks| ==> IsTasks(tasks[i])
    ensures |rs| == |tasks|
    ensures forall i :: 0 <= i < |tasks| ==> rs[i] == TaskDiagnostics(xmlPath, tasks[i], tasksDir, fs)
  {
    seq(|tasks|, i requires 0 <= i < |tasks| => TaskDiagnostics(xmlPath, tasks[i], tasksDir, fs))
  }

  /** The diagnostics of a list of `<tasks>` elements, concatenated in order. */
  function AllTaskDiagnostics(xmlPath: string, tasks: seq<Node>, tasksDir: string, fs: FileSystem): Result<seq<Diagnostic>>
    requires forall i :: 0 <= i < |tasks| ==> IsTasks(tasks[i])
  {
    Collect(TaskResults(xmlPath, tasks, tasksDir, fs))
  }

  /** The directory check of an include. */
  method CheckDirectory(benchmarkDir: string, expectedDir: string, name: Option<string>, fs: FileSystem)
    returns (errors: seq<Diagnostic>)
    ensures errors == DirectoryDiagnostics(benchmarkDir, expectedDir, name, fs)
  {
    errors := [];
    if fs.pathExists(expectedDir) && benchmarkDir != expectedDir {
      errors := errors + [WrongDirectory(expectedDir, name, benchmarkDir)];
    }
  }

  /** The extension and set-name checks of an include, appended to `before`. */
  method CheckSetFile(before: seq<Diagnostic>, setFile: string, name: Option<string>) returns (errors: seq<Diagnostic>)
    ensures errors == before + SetFileDiagnostics(setFile, name)
  {
    errors := before;
    if !EndsWith(setFile, ".set") {
      errors := errors + [NotASetFile(setFile)];
    }
    var setName := SetName(setFile);
    if name != Some(setName) {
      errors := errors + [SetNameMismatch(setName, name)];
    }
  }

  /**
   * The checks on the single include of a task, appending to the list of
   * diagnostics as the checker does.
   */
  method CheckInclude(xmlPath: string, includedSet: string, name: Option<string>, tasksDir: string, fs: FileSystem)
    returns (errors: seq<Diagnostic>)
    ensures errors == IncludeDiagnostics(xmlPath, includedSet, name, tasksDir, fs)
  {
    var benchmarkDir := BenchmarkDir(xmlPath, includedSet, fs);
    var expectedDir := fs.resolve(tasksDir);
    errors := CheckDirectory(benchmarkDir, expectedDir, name, fs);
    errors := CheckSetFile(errors, Name(includedSet), name);
  }

  /**
   * The checks on one `<tasks>` element, appending to the list of
   * diagnostics as the checker does.
   */
  method CheckTask(xmlPath: string, task: Node, tasksDir: string, fs: FileSystem) returns (r: Result<seq<Diagnostic>>)
    requires IsTasks(task)
    ensures r == TaskDiagnostics(xmlPath, task, tasksDir, fs)
  {
    var errors: seq<Diagnostic> := [];
    var name := Get(task, "name");
    if name.None? || name.value == "" {
      errors := errors + [MissingName(task.line)];
    }
    ghost var head := errors;
    var includes := FindAll(task.children, "includesfile");
    assert Includes(task) == includes;
    assert head == if LacksName(task) then [MissingName(task.line)] else [];
    if |includes| != 1 {
      errors := errors + [IncludeCount(name)];
    } else {
      var includeNode := includes[0];
      if includeNode.text.None? {
        assert TaskDiagnostics(xmlPath, task, tasksDir, fs) == Err(PathOfNone);
        return Err(PathOfNone);
      }
      var more := CheckInclude(xmlPath, includeNode.text.value, name, tasksDir, fs);
      errors := errors + more;
    }
    ghost var mid := IncludesDiagnostics(xmlPath, includes, name, tasksDir, fs);
    assert errors == head + mid;
    ghost var tail: seq<Diagnostic> := if FindAll(task.children, "option") != [] then [OptionInTasks(name)] else [];
    if FindAll(task.children, "option") != [] {
      errors := errors + [OptionInTasks(name)];
    }
    assert errors == head + mid + tail;
    assert TaskDiagnostics(xmlPath, task, tasksDir, fs) == Ok(head + mid + tail);
    r := Ok(errors);
  }

  /** The `<tasks>` elements of a document, at any depth and in document order. */
  function Tasks(def: BenchDef): (r: seq<Node>)
    ensures forall i :: 0 <= i < |r| ==> IsTasks(r[i])
    ensures forall n :: n in r <==> InTree(n, def.root) && IsTasks(n)
  {
    IterMembers(def.root, "tasks");
    Iter(def.root, "tasks")
  }

  /** `_check_task_defs_match_set`: the loop over all `<tasks>` elements of the document. */
  method CheckTaskDefsMatchSet(def: BenchDef, tasksDir: string, fs: FileSystem) returns (r: Result<seq<Diagnostic>>)
    ensures r == AllTaskDiagnostics(def.path, Tasks(def), tasksDir, fs)
  {
    var tasks := Tasks(def);
    ghost var results := TaskResults(def.path, tasks, tasksDir, fs);
    var errors: seq<Diagnostic> := [];
    var i := 0;
    assert results[i..] == results;
    ThenNothing(Collect(results));
    while i < |tasks|
      invariant 0 <= i <= |tasks|
      invariant AllTaskDiagnostics(def.path, tasks, tasksDir, fs) == Then(errors, Collect(results[i..]))
      decreases |tasks| - i
    {
      CollectStep(results, i);
      var taskErrors := CheckTask(def.path, tasks[i], tasksDir, fs);
      assert taskErrors == results[i];
      if taskErrors.Err? {
        return Err(taskErrors.error);
      }
      ThenAssoc(errors, taskErrors.value, Collect(results[i + 1..]));
      errors := errors + taskErrors.value;
      i := i + 1;
    }
    assert results[i..] == [];
    assert errors + [] == errors;
    r := Ok(errors);
  }

  // ---------------------------------------------------------------------------
  // The checker's resolver
  // ---------------------------------------------------------------------------

  /** The verifier's opt-outs; a null table or a missing entry gives none. */
  function OptOuts(ci: CategoryStructure, verifier: string): set<string> {
    if ci.optOut.Some? && verifier in ci.optOut.value then set x | x in ci.optOut.value[verifier] else {}
  }

  /** The verifier's opt-ins; a null table or a missing entry gives none. */
  function OptIns(ci: CategoryStructure, verifier: string): set<string> {
    if ci.optIn.Some? && verifier in ci.optIn.value then set x | x in ci.optIn.value[verifier] else {}
  }

  /** The meta-categories the loop does not skip. */
  predicate Considered(ci: CategoryStructure, verifier: string, excludeOptOuts: bool, n: string) {
    !(excludeOptOuts && n in OptOuts(ci, verifier))
  }

  /** The raw category strings of the considered meta-categories among `names` that list the verifier. */
  function ListedOver(ci: CategoryStructure, names: set<string>, verifier: string, excludeOptOuts: bool): set<string> {
    set n, c | n in names && n in ci.categories && Considered(ci, verifier, excludeOptOuts, n)
      && verifier in ci.categories[n].verifiers && c in ci.categories[n].categories :: c
  }

  /**
   * What `_get_base_categories_participating` returns: every opt-in, and
   * otherwise only categories listed by a considered meta-category naming the
   * verifier.
   */
  function BaseCategories(ci: CategoryStructure, verifier: string, excludeOptOuts: bool): (r: set<string>)
    ensures OptIns(ci, verifier) <= r
    ensures r <= ListedOver(ci, ci.categories.Keys, verifier, excludeOptOuts) + OptIns(ci, verifier)
  {
    var listed := ListedOver(ci, ci.categories.Keys, verifier, excludeOptOuts) - ci.categories.Keys;
    (if excludeOptOuts then listed - OptOuts(ci, verifier) else listed) + OptIns(ci, verifier)
  }

  lemma ListedOverAdd(ci: CategoryStructure, names: set<string>, n: string, verifier: string, excludeOptOuts: bool)
    requires n in ci.categories
    ensures ListedOver(ci, names + {n}, verifier, excludeOptOuts)
      == ListedOver(ci, names, verifier, excludeOptOuts)
         + (if Considered(ci, verifier, excludeOptOuts, n) && verifier in ci.categories[n].verifiers
            then set c | c in ci.categories[n].categories else {})
  {
    if Considered(ci, verifier, excludeOptOuts, n) && verifier in ci.categories[n].verifiers {
      forall c | c in ci.categories[n].categories ensures c in ListedOver(ci, names + {n}, verifier, excludeOptOuts) {
        assert n in names + {n};
      }
    }
  }

  /**
   * `_get_base_categories_participating`: the loop over the meta-categories,
   * then the subtraction of their keys and of the opt-outs and the addition
   * of the opt-ins.
   */
  method GetBaseCategoriesParticipating(verifier: string, ci: CategoryStructure, excludeOptOuts: bool) returns (r: set<string>)
    ensures r == BaseCategories(ci, verifier, excludeOptOuts)
  {
    var optOuts: set<string> := {};
    if ci.optOut.Some? && verifier in ci.optOut.value {
      optOuts := set x | x in ci.optOut.value[verifier];
    }
    var optIns: set<string> := {};
    if ci.optIn.Some? && verifier in ci.optIn.value {
      optIns := set x | x in ci.optIn.value[verifier];
    }
    var metas := ci.categories;
    r := {};
    var todo := metas.Keys;
    ghost var done: set<string> := {};
    while todo != {}
      invariant todo <= metas.Keys && done == metas.Keys - todo
      invariant r == ListedOver(ci, done, verifier, excludeOptOuts)
      decreases todo
    {
      var category :| category in todo;
      ListedOverAdd(ci, done, category, verifier, excludeOptOuts);
      todo := todo - {category};
      done := done + {category};
      if excludeOptOuts && category in optOuts {
        continue;
      }
      var participants := metas[category].verifiers;
      if verifier in participants {
        r := r + set c | c in metas[category].categories;
      }
    }
    assert done == metas.Keys;
    r := r - metas.Keys;
    if excludeOptOuts {
      r := r - optOuts;
    }
    r := r + optIns;
  }

  /**
   * The resolver's result, element by element: an opt-in, or a category
   * string of a considered meta-category listing the verifier that is neither
   * a meta-category key nor (when opt-outs are excluded) an opt-out.
   */
  lemma BaseCategoriesMembers(ci: CategoryStructure, verifier: string, excludeOptOuts: bool, x: string)
    ensures x in BaseCategories(ci, verifier, excludeOptOuts) <==>
      x in OptIns(ci, verifier)
      || (x !in ci.categories && !(excludeOptOuts && x in OptOuts(ci, verifier))
          && exists n :: n in ci.categories && Considered(ci, verifier, excludeOptOuts, n)
               && verifier in ci.categories[n].verifiers && x in ci.categories[n].categories)
  {
    var listed := ListedOver(ci, ci.categories.Keys, verifier, excludeOptOuts);
    if x in listed {
      var n, c :| n in ci.categories.Keys && n in ci.categories && Considered(ci, verifier, excludeOptOuts, n)
        && verifier in ci.categories[n].verifiers && c in ci.categories[n].categories && c == x;
    }
    if exists n :: n in ci.categories && Considered(ci, verifier, excludeOptOuts, n)
         && verifier in ci.categories[n].verifiers && x in ci.categories[n].categories {
      var n :| n in ci.categories && Considered(ci, verifier, excludeOptOuts, n)
         && verifier in ci.categories[n].verifiers && x in ci.categories[n].categories;
      assert n in ci.categories.Keys;
      assert x in listed;
    }
  }

  /**
   * Every opt-in is in the result; with opt-outs excluded, no opt-out is in
   * it unless it is also an opt-in; no meta-category key is in it unless it is
   * an opt-in.
   */
  lemma BaseCategoriesBounds(ci: CategoryStructure, verifier: string, excludeOptOuts: bool)
    ensures OptIns(ci, verifier) <= BaseCategories(ci, verifier, excludeOptOuts)
    ensures excludeOptOuts ==>
      forall x :: x in OptOuts(ci, verifier) && x in BaseCategories(ci, verifier, excludeOptOuts) ==> x in OptIns(ci, verifier)
    ensures forall k :: k in ci.categories && k in BaseCategories(ci, verifier, excludeOptOuts) ==> k in OptIns(ci, verifier)
  {
    forall x | x in BaseCategories(ci, verifier, excludeOptOuts)
      ensures x in OptIns(ci, verifier) || (x !in ci.categories && !(excludeOptOuts && x in OptOuts(ci, verifier)))
    {
      BaseCategoriesMembers(ci, verifier, excludeOptOuts, x);
    }
  }

  /**
   * With opt-outs excluded, a meta-category whose key is opted out
   * contributes nothing: replacing it by any other meta-category leaves the
   * result unchanged.
   */
  lemma OptedOutMetaCategoryIgnored(ci: CategoryStructure, verifier: string, n: string, m: MetaCategory)
    requires n in ci.categories && n in OptOuts(ci, verifier)
    ensures BaseCategories(ci.(categories := ci.categories[n := m]), verifier, true) == BaseCategories(ci, verifier, true)
  {
    var ci' := ci.(categories := ci.categories[n := m]);
    assert ci'.categories.Keys == ci.categories.Keys;
    assert OptOuts(ci', verifier) == OptOuts(ci, verifier);
    assert OptIns(ci', verifier) == OptIns(ci, verifier);
    forall x ensures x in BaseCategories(ci', verifier, true) <==> x in BaseCategories(ci, verifier, true) {
      BaseCategoriesMembers(ci', verifier, true, x);
      BaseCategoriesMembers(ci, verifier, true, x);
      if exists k :: k in ci.categories && Considered(ci, verifier, true, k)
           && verifier in ci.categories[k].verifiers && x in ci.categories[k].categories {
        var k :| k in ci.categories && Considered(ci, verifier, true, k)
           && verifier in ci.categories[k].verifiers && x in ci.categories[k].categories;
        assert k != n && ci'.categories[k] == ci.categories[k];
      }
      if exists k :: k in ci'.categories && Considered(ci', verifier, true, k)
           && verifier in ci'.categories[k].verifiers && x in ci'.categories[k].categories {
        var k :| k in ci'.categories && Considered(ci', verifier, true, k)
           && verifier in ci'.categories[k].verifiers && x in ci'.categories[k].categories;
        assert k != n && ci'.categories[k] == ci.categories[k];
      }
    }
  }

  // ---------------------------------------------------------------------------
  // Completeness
  // ---------------------------------------------------------------------------

  /** The texts of the includes in order; `Path(None)` raises on an include without text. */
  function IncludeTexts(includes: seq<Node>): Result<seq<string>>
    decreases |includes|
  {
    if includes == [] then Ok([])
    else if includes[0].Comment? then IncludeTexts(includes[1..])
    else if includes[0].text.None? then Err(PathOfNone)
    else
      var rest :- IncludeTexts(includes[1..]);
      Ok([includes[0].text.value] + rest)
  }

  /**
   * The texts raise exactly when an include has no text, and then as
   * `Path(None)` does; otherwise they are the texts of all the includes.
   */
  lemma {:induction false} IncludeTextsMembers(includes: seq<Node>)
    ensures var r := IncludeTexts(includes);
      && (r.Ok? <==> forall i :: 0 <= i < |includes| ==> includes[i].Element? ==> includes[i].text.Some?)
      && (r.Err? ==> r.error == PathOfNone)
      && (r.Ok? ==> forall t :: t in r.value <==>
            exists i :: 0 <= i < |includes| && includes[i].Element? && includes[i].text == Some(t))
    decreases |includes|
  {
    if includes != [] {
      var rest := includes[1..];
      IncludeTextsMembers(rest);
      assert forall i :: 1 <= i < |includes| ==> includes[i] == rest[i - 1];
      var r := IncludeTexts(includes);
      var r' := IncludeTexts(rest);
      if r.Ok? {
        forall t | t in r.value
          ensures exists i :: 0 <= i < |includes| && includes[i].Element? && includes[i].text == Some(t)
        {
          if !(includes[0].Element? && includes[0].text == Some(t)) {
            var j :| 0 <= j < |rest| && rest[j].Element? && rest[j].text == Some(t);
            assert includes[j + 1] == rest[j];
          }
        }
      }
    }
  }

  /**
   * `{Path(include.text).name for ...}`: the file names the includes point to;
   * `Path(None)` raises on an include without text.
   */
  function SetFileNames(includes: seq<Node>): (r: Result<set<string>>)
    ensures r.Ok? <==> forall i :: 0 <= i < |includes| ==> includes[i].Element? ==> includes[i].text.Some?
    ensures r.Err? ==> r.error == PathOfNone
    ensures r.Ok? ==> forall f :: f in r.value <==>
      exists i :: 0 <= i < |includes| && includes[i].Element? && includes[i].text.Some? && f == Name(includes[i].text.value)
  {
    IncludeTextsMembers(includes);
    var texts :- IncludeTexts(includes);
    var names := set t | t in texts :: Name(t);
    SetFileNamesMembers(includes, texts, names);
    Ok(names)
  }

  lemma SetFileNamesMembers(includes: seq<Node>, texts: seq<string>, names: set<string>)
    requires forall t :: t in texts <==>
      exists i :: 0 <= i < |includes| && includes[i].Element? && includes[i].text == Some(t)
    requires names == set t | t in texts :: Name(t)
    ensures forall f :: f in names <==>
      exists i :: 0 <= i < |includes| && includes[i].Element? && includes[i].text.Some? && f == Name(includes[i].text.value)
  {
    forall f | f in names
      ensures exists i :: 0 <= i < |includes| && includes[i].Element? && includes[i].text.Some? && f == Name(includes[i].text.value)
    {
      var t :| t in texts && f == Name(t);
      var i :| 0 <= i < |includes| && includes[i].Element? && includes[i].text == Some(t);
    }
    forall i | 0 <= i < |includes| && includes[i].Element? && includes[i].text.Some?
      ensures Name(includes[i].text.value) in names
    {
      assert includes[i].text.value in texts;
    }
  }

  /** The `<includesfile>` children of all the tasks, in order. */
  function AllIncludes(tasks: seq<Node>): (r: seq<Node>)
    ensures forall i :: 0 <= i < |r| ==> HasTag(r[i], "includesfile")
    decreases |tasks|
  {
    if tasks == [] then []
    else (if tasks[0].Element? then FindAll(tasks[0].children, "includesfile") else []) + AllIncludes(tasks[1..])
  }

  /** Every `<includesfile>` child of every task is collected, and nothing else. */
  lemma {:induction false} AllIncludesMembers(tasks: seq<Node>)
    ensures forall n :: n in AllIncludes(tasks) <==>
      exists t :: t in tasks && t.Element? && n in FindAll(t.children, "includesfile")
    decreases |tasks|
  {
    if tasks != [] {
      AllIncludesMembers(tasks[1..]);
      assert tasks == [tasks[0]] + tasks[1..];
    }
  }

  /**
   * `{_get_category_name(setfile) for setfile in sets_included}`: never more
   * categories than set files, as two files may give the same category.
   */
  function CategoriesIncluded(setFiles: set<string>): (r: set<string>)
    ensures |r| <= |setFiles|
    ensures forall s :: s in setFiles ==> CategoryName(s) in r
    ensures forall c :: c in r ==> exists s :: s in setFiles && CategoryName(s) == c
  {
    CategoriesIncludedSize(setFiles);
    set s | s in setFiles :: CategoryName(s)
  }

  lemma {:induction false} CategoriesIncludedSize(setFiles: set<string>)
    ensures |set s | s in setFiles :: CategoryName(s)| <= |setFiles|
    decreases setFiles
  {
    if setFiles != {} {
      var x :| x in setFiles;
      var rest := setFiles - {x};
      CategoriesIncludedSize(rest);
      var image := set s | s in setFiles :: CategoryName(s);
      var restImage := set s | s in rest :: CategoryName(s);
      if CategoryName(x) in restImage {
        assert image == restImage;
      } else {
        assert image == restImage + {CategoryName(x)};
      }
    }
  }

  /** The decision of `_check_all_sets_used` once both sets are known. */
  function CompletenessDiagnostics(included: set<string>, expected: set<string>, exceptions: set<string>): (r: seq<Diagnostic>)
    ensures |r| <= 1
    ensures r == [NoEntry] <==> expected == {}
    ensures r == [MoreSetsThanExpected(included - expected)] <==> expected != {} && |included| > |expected|
    ensures r == [] <==> expected != {} && |included| <= |expected| && expected - included <= exceptions
    ensures expected != {} && |included| <= |expected| && !(expected - included <= exceptions) ==>
      r == [MissingIncludes(expected - included - exceptions)]
  {
    if expected == {} then [NoEntry]
    else if |included| > |expected| then [MoreSetsThanExpected(included - expected)]
    else
      var missing := expected - included - exceptions;
      assert missing == {} <==> expected - included <= exceptions by {
        if missing == {} {
          forall x | x in expected - included ensures x in exceptions {
            assert x !in missing;
          }
        } else {
          var x :| x in missing;
        }
      }
      if missing != {} then [MissingIncludes(missing)] else []
  }

  /** A clean result means every expected set outside the allowlist is included. */
  lemma CleanMeansCovered(included: set<string>, expected: set<string>, exceptions: set<string>)
    requires CompletenessDiagnostics(included, expected, exceptions) == []
    ensures expected != {}
    ensures forall x :: x in expected && x !in exceptions ==> x in included
  {
  }

  /** Including exactly the expected sets is always clean. */
  lemma ExactIsClean(expected: set<string>, exceptions: set<string>)
    requires expected != {}
    ensures CompletenessDiagnostics(expected, expected, exceptions) == []
  {
  }

  /**
   * The surplus test compares sizes, not sets: a set included without being
   * expected goes unreported when an expected one is missing from the list
   * but allowlisted.
   */
  lemma SurplusHiddenByCount()
    ensures CompletenessDiagnostics({"A", "X"}, {"A", "B"}, {"B"}) == []
  {
    assert |{"A", "X"}| == 2 && |{"A", "B"}| == 2;
    assert {"A", "B"} - {"A", "X"} == {"B"};
  }

  lemma CompletenessExamples()
    ensures CompletenessDiagnostics({"A", "B", "C"}, {"A", "B"}, {}) == [MoreSetsThanExpected({"C"})]
    ensures CompletenessDiagnostics({"A", "B"}, {"A", "B", "C", "D"}, {"D"}) == [MissingIncludes({"C"})]
  {
    assert |{"A", "B", "C"}| == 3 && |{"A", "B"}| == 2;
    assert {"A", "B", "C"} - {"A", "B"} == {"C"};
    assert |{"A", "B", "C", "D"}| == 4;
    assert {"A", "B", "C", "D"} - {"A", "B"} - {"D"} == {"C"};
  }

  /** `_check_all_sets_used`. */
  function AllSetsUsed(def: BenchDef, ci: CategoryStructure, exceptions: set<string>): (r: Result<seq<Diagnostic>>)
    ensures r.Err? <==> SetFileNames(AllIncludes(Tasks(def))).Err?
    ensures r.Err? ==> r.error == PathOfNone
    ensures r.Ok? ==> r.value == CompletenessDiagnostics(
      CategoriesIncluded(SetFileNames(AllIncludes(Tasks(def))).value), BaseCategories(ci, VerifierName(def.path), false), exceptions)
    ensures r.Ok? ==> |r.value| <= 1
    ensures r.Ok? && r.value == [] ==> (SetFileNames(AllIncludes(Tasks(def))).Ok? &&
      forall x :: x in BaseCategories(ci, VerifierName(def.path), false) && x !in exceptions ==>
        x in CategoriesIncluded(SetFileNames(AllIncludes(Tasks(def))).value))
  {
    var setsIncluded :- SetFileNames(AllIncludes(Tasks(def)));
    var expected := BaseCategories(ci, VerifierName(def.path), false);
    var r := CompletenessDiagnostics(CategoriesIncluded(setsIncluded), expected, exceptions);
    if r == [] then CleanMeansCovered(CategoriesIncluded(setsIncluded), expected, exceptions); Ok(r) else Ok(r)
  }

  // ---------------------------------------------------------------------------
  // Gating and aggregation
  // ---------------------------------------------------------------------------

  /**
   * The diagnostics `_perform_checks` returns for a file: only the parse
   * failure if there is one; otherwise the task diagnostics, followed by at
   * most one completeness diagnostic when the tasks directory exists and the
   * name lacks `validate`.
   */
  function Diagnostics(def: BenchDef, ci: CategoryStructure, tasksDir: string, fs: FileSystem): (r: Result<seq<Diagnostic>>)
    ensures def.parseError.Some? ==> r == Ok([InvalidXml(def.parseError.value)])
    ensures def.parseError.None? && !(fs.pathExists(tasksDir) && !Contains(Name(def.path), "validate")) ==>
      r == AllTaskDiagnostics(def.path, Tasks(def), tasksDir, fs)
    ensures def.parseError.None? && AllTaskDiagnostics(def.path, Tasks(def), tasksDir, fs).Err? ==>
      r == AllTaskDiagnostics(def.path, Tasks(def), tasksDir, fs)
    ensures def.parseError.None? && r.Ok? ==>
      var tasks := AllTaskDiagnostics(def.path, Tasks(def), tasksDir, fs);
      tasks.Ok? && tasks.value <= r.value && |r.value| <= |tasks.value| + 1
    ensures (def.parseError.None? && fs.pathExists(tasksDir) && !Contains(Name(def.path), "validate") &&
             AllTaskDiagnostics(def.path, Tasks(def), tasksDir, fs).Ok?) ==>
      r == Then(AllTaskDiagnostics(def.path, Tasks(def), tasksDir, fs).value, AllSetsUsed(def, ci, set x | x in AllowlistTaskSets))
  {
    if def.parseError.Some? then Ok([InvalidXml(def.parseError.value)])
    else
      var errors :- AllTaskDiagnostics(def.path, Tasks(def), tasksDir, fs);
      if fs.pathExists(tasksDir) && !Contains(Name(def.path), "validate") then
        var more :- AllSetsUsed(def, ci, set x | x in AllowlistTaskSets);
        Ok(errors + more)
      else Ok(errors)
  }

  /**
   * `_perform_checks`: a file that fails to parse gets only that diagnostic;
   * the completeness check runs only when the tasks directory exists and the
   * file name does not contain `validate`.
   */
  method PerformChecks(def: BenchDef, ci: CategoryStructure, tasksDir: string, fs: FileSystem) returns (r: Result<seq<Diagnostic>>)
    ensures r == Diagnostics(def, ci, tasksDir, fs)
    ensures def.parseError.Some? ==> r == Ok([InvalidXml(def.parseError.value)])
    ensures def.parseError.None? && (!fs.pathExists(tasksDir) || Contains(Name(def.path), "validate")) ==>
      r == AllTaskDiagnostics(def.path, Tasks(def), tasksDir, fs)
    ensures def.parseError.None? && r.Ok? ==>
      forall i, d :: 0 <= i < |Tasks(def)| && Reports(TaskResults(def.path, Tasks(def), tasksDir, fs)[i], d) ==> d in r.value
    ensures (def.parseError.None? && fs.pathExists(tasksDir) && !Contains(Name(def.path), "validate") &&
             AllTaskDiagnostics(def.path, Tasks(def), tasksDir, fs).Ok?) ==>
      r == Then(AllTaskDiagnostics(def.path, Tasks(def), tasksDir, fs).value, AllSetsUsed(def, ci, set x | x in AllowlistTaskSets))
  {
    if def.parseError.Some? {
      return Ok([InvalidXml(def.parseError.value)]);
    }
    var errors := CheckTaskDefsMatchSet(def, tasksDir, fs);
    if errors.Err? {
      return errors;
    }
    CollectMembers(TaskResults(def.path, Tasks(def), tasksDir, fs));
    if fs.pathExists(tasksDir) && !Contains(Name(def.path), "validate") {
      var more := AllSetsUsed(def, ci, set x | x in AllowlistTaskSets);
      if more.Err? {
        return Err(more.error);
      }
      r := Ok(errors.value + more.value);
    } else {
      r := errors;
    }
  }

  /** `_check_bench_def`: whether the file has no diagnostics. */
  method CheckBenchDef(def: BenchDef, ci: CategoryStructure, tasksDir: string, fs: FileSystem) returns (r: Result<bool>)
    ensures r.Ok? <==> Diagnostics(def, ci, tasksDir, fs).Ok?
    ensures r.Err? ==> Diagnostics(def, ci, tasksDir, fs) == Err(r.error)
    ensures r.Ok? ==> (r.value <==> Diagnostics(def, ci, tasksDir, fs).value == [])
    ensures r.Ok? && def.parseError.Some? ==> !r.value
  {
    var errors := PerformChecks(def, ci, tasksDir, fs);
    if errors.Err? {
      return Err(errors.error);
    }
    r := Ok(errors.value == []);
  }

  /** `_verifiers_in_category`: the benchmark-definition file names of the category's verifiers. */
  function VerifiersInCategory(ci: CategoryStructure, category: string): (r: seq<string>)
    ensures category !in ci.categories ==> r == []
    ensures category in ci.categories ==> |r| == |ci.categories[category].verifiers|
    ensures category in ci.categories ==>
      forall i :: 0 <= i < |r| ==> r[i] == ci.categories[category].verifiers[i] + BenchdefSuffix
  {
    if category !in ci.categories then []
    else
      var verifiers := ci.categories[category].verifiers;
      seq(|verifiers|, i requires 0 <= i < |verifiers| => verifiers[i] + BenchdefSuffix)
  }

  /** The file name the category lists for a verifier names that verifier again. */
  lemma VerifiersInCategoryRoundTrip(ci: CategoryStructure, category: string, dir: string, i: int)
    requires category in ci.categories
    requires 0 <= i < |ci.categories[category].verifiers|
    requires '/' !in ci.categories[category].verifiers[i]
    ensures VerifierName(dir + "/" + VerifiersInCategory(ci, category)[i]) == ci.categories[category].verifiers[i]
  {
    var v := ci.categories[category].verifiers[i];
    VerifierNameOfFile(dir, v);
    assert dir + "/" + VerifiersInCategory(ci, category)[i] == dir + "/" + v + BenchdefSuffix;
  }

  /** The file is `v.xml` for a verifier `v` of the `JavaOverall` meta-category. */
  predicate IsJavaFile(def: BenchDef, ci: CategoryStructure) {
    "JavaOverall" in ci.categories
    && exists v :: v in ci.categories["JavaOverall"].verifiers && Name(def.path) == v + BenchdefSuffix
  }

  lemma JavaFileListed(def: BenchDef, ci: CategoryStructure)
    ensures Name(def.path) in VerifiersInCategory(ci, "JavaOverall") <==> IsJavaFile(def, ci)
  {
    var files := VerifiersInCategory(ci, "JavaOverall");
    if Name(def.path) in files {
      var i :| 0 <= i < |files| && files[i] == Name(def.path);
      assert ci.categories["JavaOverall"].verifiers[i] in ci.categories["JavaOverall"].verifiers;
    }
    if IsJavaFile(def, ci) {
      var verifiers := ci.categories["JavaOverall"].verifiers;
      var v :| v in verifiers && Name(def.path) == v + BenchdefSuffix;
      var i :| 0 <= i < |verifiers| && verifiers[i] == v;
      assert files[i] == Name(def.path);
    }
  }

  /** `_unused_verifiers`: the `not_participating` list, or none when the key is absent. */
  function UnusedVerifiers(ci: CategoryStructure): (r: seq<string>)
    ensures ci.notParticipating.None? ==> r == []
    ensures ci.notParticipating.Some? ==> r == ci.notParticipating.value
  {
    ci.notParticipating.GetOr([])
  }

  /**
   * A file the batch does not check: its verifier is unmaintained, or it is a
   * directory; without a `not_participating` list only directories are skipped.
   */
  function Skipped(def: BenchDef, ci: CategoryStructure, fs: FileSystem): (r: bool)
    ensures fs.isDirectory(def.path) ==> r
    ensures ci.notParticipating.None? ==> (r <==> fs.isDirectory(def.path))
    ensures ci.notParticipating.Some? && VerifierName(def.path) in ci.notParticipating.value ==> r
    ensures !fs.isDirectory(def.path) && (ci.notParticipating.None? || VerifierName(def.path) !in ci.notParticipating.value) ==> !r
  {
    VerifierName(def.path) in UnusedVerifiers(ci) || fs.isDirectory(def.path)
  }

  /** The tasks directory for a file: `java` below the base for Java verifiers, `c` otherwise. */
  function TasksDirFor(def: BenchDef, ci: CategoryStructure, tasksBaseDir: string): (r: string)
    ensures IsJavaFile(def, ci) ==> r == JoinPath(tasksBaseDir, "java")
    ensures !IsJavaFile(def, ci) ==> r == JoinPath(tasksBaseDir, "c")
  {
    JavaFileListed(def, ci);
    JoinPath(tasksBaseDir, if Name(def.path) in VerifiersInCategory(ci, "JavaOverall") then "java" else "c")
  }

  /**
   * The outcome of one file in the loop of `main`: a skipped file counts as
   * passing; a checked file passes when it has no diagnostic, and a check
   * that raises is the error.
   */
  function Outcome(def: BenchDef, ci: CategoryStructure, tasksBaseDir: string, fs: FileSystem): (r: Result<bool>)
    ensures Skipped(def, ci, fs) ==> r == Ok(true)
    ensures !Skipped(def, ci, fs) ==>
      var diagnostics := Diagnostics(def, ci, TasksDirFor(def, ci, tasksBaseDir), fs);
      && (r.Err? <==> diagnostics.Err?)
      && (r.Err? ==> r.error == diagnostics.error)
      && (r.Ok? ==> (r.value <==> diagnostics.value == []))
  {
    if Skipped(def, ci, fs) then Ok(true)
    else
      var diagnostics :- Diagnostics(def, ci, TasksDirFor(def, ci, tasksBaseDir), fs);
      Ok(diagnostics == [])
  }

  /** The outcomes of a batch of files, in order. */
  function Outcomes(defs: seq<BenchDef>, ci: CategoryStructure, tasksBaseDir: string, fs: FileSystem): (rs: seq<Result<bool>>)
    ensures |rs| == |defs|
    ensures forall i :: 0 <= i < |defs| ==> rs[i] == Outcome(defs[i], ci, tasksBaseDir, fs)
  {
    seq(|defs|, i requires 0 <= i < |defs| => Outcome(defs[i], ci, tasksBaseDir, fs))
  }

  /** `success &= ...` over the outcomes in order; the first error ends the loop. */
  function AllOf(outcomes: seq<Result<bool>>): Result<bool>
    decreases |outcomes|
  {
    if outcomes == [] then Ok(true)
    else if outcomes[0].Err? then Err(outcomes[0].error)
    else And(outcomes[0].value, AllOf(outcomes[1..]))
  }

  /**
   * The fold raises exactly when an outcome is an error, with the first such
   * error; otherwise it is true exactly when every outcome is.
   */
  lemma {:induction false} AllOfMeaning(outcomes: seq<Result<bool>>)
    ensures var r := AllOf(outcomes);
      && (r.Ok? <==> forall i :: 0 <= i < |outcomes| ==> outcomes[i].Ok?)
      && (r.Err? ==> exists i :: (0 <= i < |outcomes| && outcomes[i] == Err(r.error)
            && forall j :: 0 <= j < i ==> outcomes[j].Ok?))
      && (r.Ok? ==> (r.value <==> forall i :: 0 <= i < |outcomes| ==> outcomes[i] == Ok(true)))
    decreases |outcomes|
  {
    if outcomes != [] {
      var rest := outcomes[1..];
      AllOfMeaning(rest);
      assert forall i :: 1 <= i < |outcomes| ==> outcomes[i] == rest[i - 1];
      var r := AllOf(outcomes);
      var r' := AllOf(rest);
      if outcomes[0].Err? {
        assert outcomes[0] == Err(r.error);
      } else if r'.Err? {
        var k :| 0 <= k < |rest| && rest[k] == Err(r'.error) && forall j :: 0 <= j < k ==> rest[j].Ok?;
        assert outcomes[k + 1] == Err(r.error);
        assert forall j :: 0 <= j < k + 1 ==> outcomes[j].Ok? by {
          assert forall j :: 1 <= j < k + 1 ==> outcomes[j] == rest[j - 1];
        }
      }
    }
  }

  /** One step of the fold from position `i`. */
  lemma AllOfStep(outcomes: seq<Result<bool>>, i: nat)
    requires i < |outcomes|
    ensures AllOf(outcomes[i..])
      == if outcomes[i].Err? then Err(outcomes[i].error) else And(outcomes[i].value, AllOf(outcomes[i + 1..]))
  {
    assert outcomes[i..][0] == outcomes[i] && outcomes[i..][1..] == outcomes[i + 1..];
  }

  lemma AndAssoc(a: bool, b: bool, rest: Result<bool>)
    ensures And(a, And(b, rest)) == And(a && b, rest)
  {
  }

  /** Whether every file that is not skipped passes, with the error of the first file whose check raises. */
  function AllPass(defs: seq<BenchDef>, ci: CategoryStructure, tasksBaseDir: string, fs: FileSystem): Result<bool> {
    AllOf(Outcomes(defs, ci, tasksBaseDir, fs))
  }

  /**
   * The loop of `main`: skips unmaintained verifiers and directories, picks
   * the tasks directory, and folds the results with `&=`. The exit code is 0
   * exactly when every file passes.
   */
  method RunChecks(defs: seq<BenchDef>, tasksBaseDir: string, ci: CategoryStructure, fs: FileSystem) returns (r: Result<int>)
    ensures r.Ok? <==> AllPass(defs, ci, tasksBaseDir, fs).Ok?
    ensures r.Err? ==> AllPass(defs, ci, tasksBaseDir, fs) == Err(r.error)
    ensures r.Ok? ==> r.value == (if AllPass(defs, ci, tasksBaseDir, fs).value then 0 else 1)
  {
    var javaVerifiers := VerifiersInCategory(ci, "JavaOverall");
    var unmaintained := UnusedVerifiers(ci);
    ghost var outcomes := Outcomes(defs, ci, tasksBaseDir, fs);
    var success := true;
    var i := 0;
    assert outcomes[i..] == outcomes;
    while i < |defs|
      invariant 0 <= i <= |defs|
      invariant AllOf(outcomes) == And(success, AllOf(outcomes[i..]))
      decreases |defs| - i
    {
      AllOfStep(outcomes, i);
      var def := defs[i];
      i := i + 1;
      if VerifierName(def.path) in unmaintained {
        assert outcomes[i - 1] == Ok(true);
        continue;
      }
      if fs.isDirectory(def.path) {
        assert outcomes[i - 1] == Ok(true);
        continue;
      }
      var tasksDirectory;
      if Name(def.path) in javaVerifiers {
        tasksDirectory := JoinPath(tasksBaseDir, "java");
      } else {
        tasksDirectory := JoinPath(tasksBaseDir, "c");
      }
      assert tasksDirectory == TasksDirFor(def, ci, tasksBaseDir);
      var ok := CheckBenchDef(def, ci, tasksDirectory, fs);
      assert ok == outcomes[i - 1];
      if ok.Err? {
        return Err(ok.error);
      }
      AndAssoc(success, ok.value, AllOf(outcomes[i..]));
      success := success && ok.value;
    }
    assert outcomes[i..] == [];
    r := Ok(if success then 0 else 1);
  }

  /** `Ok(b && rest)` when the rest succeeds, the error otherwise. */
  function And(b: bool, rest: Result<bool>): Result<bool> {
    match rest
    case Ok(v) => Ok(b && v)
    case Err(e) => Err(e)
  }
}

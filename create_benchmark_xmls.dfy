/**
 * The generator of per-verifier benchmark definitions
 * (`benchmark-defs/create-benchmark-xmls.py`): the look-ups in a tool's
 * fm-tools data, the names derived from file and module names, the set of
 * categories a verifier participates in, and the pruning of the filled-in
 * template down to that set.
 */
module CreateBenchmarkXmls {
  import opened Wrappers
  import opened Strings
  import opened Xml
  import opened Categories

  /** The literal prefix of every generated document. */
  const XmlDoctypeDeclaration: string :=
    "<?xml version=\"1.0\"?>\n<!DOCTYPE benchmark PUBLIC \"+//IDN sosy-lab.org//DTD BenchExec benchmark 2.3//EN\" \"https://www.sosy-lab.org/benchexec/benchmark-2.3.dtd\">\n"

  // ---------------------------------------------------------------------------
  // fm-tools data
  // ---------------------------------------------------------------------------

  /** An entry of `versions`; None marks a key the entry lacks. */
  datatype VersionInfo = VersionInfo(version: Option<string>, toolinfoOptions: Option<seq<string>>)

  /** An entry of `competition_participations`; None marks a key the entry lacks. */
  datatype ParticipationInfo = ParticipationInfo(
    competition: Option<string>, track: Option<string>, toolVersion: Option<string>)

  /** The keys of a tool's fm-tools data that the generator reads; None marks an absent key. */
  datatype ToolData = ToolData(
    toolinfoModule: Option<string>,
    versions: Option<seq<VersionInfo>>,
    participations: Option<seq<ParticipationInfo>>)

  /** An entry the search for `version` looks at and passes over: it has the key, with another value. */
  predicate PassesOverVersion(v: VersionInfo, version: string) {
    v.version.Some? && v.version.value != version
  }

  /** Entry `i` is where the search for `version` stops: every entry before it was passed over. */
  predicate StopsAtVersion(vs: seq<VersionInfo>, version: string, i: int) {
    0 <= i < |vs| && forall j :: 0 <= j < i ==> PassesOverVersion(vs[j], version)
  }

  /** `next(v for v in vs if v["version"] == version)`, with the KeyError of an entry that lacks the key. */
  function FirstVersion(vs: seq<VersionInfo>, version: string): (r: Result<Option<VersionInfo>>)
    ensures r == Ok(None) <==> forall i :: 0 <= i < |vs| ==> PassesOverVersion(vs[i], version)
    ensures r.Ok? && r.value.Some? ==>
      exists i :: StopsAtVersion(vs, version, i) && vs[i] == r.value.value && vs[i].version == Some(version)
    ensures r.Err? ==>
      r.error == KeyError("version") && exists i :: StopsAtVersion(vs, version, i) && vs[i].version.None?
    decreases |vs|
  {
    if vs == [] then Ok(None)
    else if vs[0].version.None? then
      assert StopsAtVersion(vs, version, 0);
      Err(KeyError("version"))
    else if vs[0].version.value == version then
      assert StopsAtVersion(vs, version, 0);
      Ok(Some(vs[0]))
    else
      var r := FirstVersion(vs[1..], version);
      assert forall i :: StopsAtVersion(vs[1..], version, i) ==> StopsAtVersion(vs, version, i + 1);
      r
  }

  /** `get_version_info`: the first entry of `versions` for the given version, or None. */
  function GetVersionInfo(data: ToolData, version: string): (r: Result<Option<VersionInfo>>)
    ensures data.versions.None? ==> r == Err(KeyError("versions"))
    ensures r.Ok? && r.value.Some? ==> r.value.value in data.versions.value && r.value.value.version == Some(version)
    ensures data.versions.Some? && (forall v :: v in data.versions.value ==> PassesOverVersion(v, version)) ==> r == Ok(None)
  {
    if data.versions.None? then Err(KeyError("versions")) else FirstVersion(data.versions.value, version)
  }

  /** Entry `i` is the one the search for `version` returns. */
  predicate FirstVersionAt(vs: seq<VersionInfo>, version: string, i: int) {
    StopsAtVersion(vs, version, i) && vs[i].version == Some(version)
  }

  lemma {:induction false} FirstVersionAtResult(vs: seq<VersionInfo>, version: string, i: int)
    requires FirstVersionAt(vs, version, i)
    ensures FirstVersion(vs, version) == Ok(Some(vs[i]))
    decreases i
  {
    if i > 0 {
      assert PassesOverVersion(vs[0], version);
      assert FirstVersionAt(vs[1..], version, i - 1);
      FirstVersionAtResult(vs[1..], version, i - 1);
    }
  }

  /** The entry is for the given competition and track. */
  predicate MatchesParticipation(p: ParticipationInfo, competition: string, track: string) {
    p.competition == Some(competition) && p.track == Some(track)
  }

  /**
   * An entry the search looks at and passes over: it has a `competition`, and
   * either that differs or it has a `track` that differs.
   */
  predicate PassesOverParticipation(p: ParticipationInfo, competition: string, track: string) {
    p.competition.Some? && (p.competition.value != competition || (p.track.Some? && p.track.value != track))
  }

  /** Entry `i` is the first matching entry, every entry before it passed over. */
  predicate FirstMatchAt(ps: seq<ParticipationInfo>, competition: string, track: string, i: int) {
    && 0 <= i < |ps|
    && MatchesParticipation(ps[i], competition, track)
    && forall j :: 0 <= j < i ==> PassesOverParticipation(ps[j], competition, track)
  }

  /**
   * The search of `get_participation_info` over the entries: a KeyError from an
   * entry that lacks `competition` or `track` is caught and gives None.
   */
  function FirstParticipation(ps: seq<ParticipationInfo>, competition: string, track: string): (r: Option<ParticipationInfo>)
    ensures r.Some? <==> exists i :: FirstMatchAt(ps, competition, track, i)
    ensures r.Some? ==> exists i :: FirstMatchAt(ps, competition, track, i) && r.value == ps[i]
    decreases |ps|
  {
    if ps == [] then None
    else if MatchesParticipation(ps[0], competition, track) then
      assert FirstMatchAt(ps, competition, track, 0);
      Some(ps[0])
    else if PassesOverParticipation(ps[0], competition, track) then
      var r := FirstParticipation(ps[1..], competition, track);
      assert forall i :: FirstMatchAt(ps[1..], competition, track, i) <==> FirstMatchAt(ps, competition, track, i + 1);
      assert !FirstMatchAt(ps, competition, track, 0);
      assert forall i :: FirstMatchAt(ps, competition, track, i) ==> i == 0 || FirstMatchAt(ps[1..], competition, track, i - 1);
      r
    else
      assert forall i :: FirstMatchAt(ps, competition, track, i) ==>
        i == 0 || PassesOverParticipation(ps[0], competition, track);
      None
  }

  lemma {:induction false} FirstMatchAtResult(ps: seq<ParticipationInfo>, competition: string, track: string, i: int)
    requires FirstMatchAt(ps, competition, track, i)
    ensures FirstParticipation(ps, competition, track) == Some(ps[i])
    decreases i
  {
    if i > 0 {
      assert PassesOverParticipation(ps[0], competition, track);
      assert !MatchesParticipation(ps[0], competition, track);
      assert FirstMatchAt(ps[1..], competition, track, i - 1);
      FirstMatchAtResult(ps[1..], competition, track, i - 1);
    }
  }

  /** `get_participation_info`: the first entry for the competition and track, None otherwise. */
  function GetParticipationInfo(data: ToolData, competition: string, track: string): (r: Option<ParticipationInfo>)
    ensures data.participations.None? ==> r.None?
    ensures r.Some? ==> r.value in data.participations.value && MatchesParticipation(r.value, competition, track)
  {
    if data.participations.None? then None
    else FirstParticipation(data.participations.value, competition, track)
  }

  /**
   * `get_tool_name`: the last `/`-separated segment of the file name up to its
   * first `.yml`.
   */
  function GetToolName(filename: string): (r: string)
    ensures var stem := FirstPiece(filename, ".yml");
      '/' !in r && EndsWith(stem, r) && (|r| < |stem| ==> stem[|stem| - |r| - 1] == '/')
  {
    LastPieceOfSplit(FirstPiece(filename, ".yml"), '/');
    Last(Split(FirstPiece(filename, ".yml"), '/'))
  }

  /** `.yml` cannot start inside `x` and run on into a `.yml` that follows `x`. */
  lemma YmlFirstAfter(x: string, rest: string)
    requires !Contains(x, ".yml")
    ensures FirstPiece(x + ".yml" + rest, ".yml") == x
  {
    var s := x + ".yml" + rest;
    assert s[|x|..|x| + 4] == ".yml";
    forall i | 0 <= i < |x| ensures !OccursAt(s, ".yml", i) {
      if i + 4 <= |x| {
        assert s[i..i + 4] == x[i..i + 4];
        assert !OccursAt(x, ".yml", i);
      } else {
        assert s[|x|] == '.' && ".yml"[|x| - i] != '.';
        assert s[i..i + 4][|x| - i] == s[|x|];
      }
    }
    FirstPieceAt(s, ".yml", |x|);
    assert s[..|x|] == x;
  }

  /** A data file `dir/tool.yml` or `tool.yml` names the tool `tool`, whatever dots the names hold. */
  lemma ToolNameOfDataFile(dir: string, tool: string)
    requires '/' !in tool && !Contains(dir + "/" + tool, ".yml")
    ensures GetToolName(dir + "/" + tool + ".yml") == tool
    ensures GetToolName(tool + ".yml") == tool
  {
    YmlFirstAfter(dir + "/" + tool, "");
    assert dir + "/" + tool + ".yml" + "" == dir + "/" + tool + ".yml";
    SplitAround(dir, tool, '/');
    assert dir + "/" + tool == dir + ['/'] + tool;
    assert dir + "/" + tool == (dir + "/") + tool;
    AbsentFromSuffix(dir + "/", tool, ".yml");
    YmlFirstAfter(tool, "");
    assert tool + ".yml" + "" == tool + ".yml";
  }

  /** The first piece at `sep` never ends in `sep`. */
  lemma FirstPieceLacksSep(s: string, sep: string)
    requires sep != []
    ensures !EndsWith(FirstPiece(s, sep), sep)
  {
    var r := FirstPiece(s, sep);
    if |sep| <= |r| && EndsWith(r, sep) {
      var i := |r| - |sep|;
      assert r == s[..|r|];
      assert s[i..i + |sep|] == r[i..];
      assert OccursAt(s, sep, i);
      assert false;
    }
  }

  const ToolsPrefix: string := "benchexec.tools."

  /**
   * The module name with its `benchexec.tools.` prefix removed, or a URL
   * reduced to its last `/`-separated segment, or the name unchanged.
   */
  function ToolinfoModuleBase(moduleName: string): (r: string)
    ensures StartsWith(moduleName, ToolsPrefix) ==> ToolsPrefix + r == moduleName
    ensures !StartsWith(moduleName, ToolsPrefix) && StartsWith(moduleName, "http") ==>
      '/' !in r && EndsWith(moduleName, r) && (|r| < |moduleName| ==> moduleName[|moduleName| - |r| - 1] == '/')
    ensures !StartsWith(moduleName, ToolsPrefix) && !StartsWith(moduleName, "http") ==> r == moduleName
  {
    if StartsWith(moduleName, ToolsPrefix) then
      assert moduleName == moduleName[..|ToolsPrefix|] + moduleName[|ToolsPrefix|..];
      moduleName[|ToolsPrefix|..]
    else if StartsWith(moduleName, "http") then
      LastPieceOfSplit(moduleName, '/');
      Last(Split(moduleName, '/'))
    else moduleName
  }

  /**
   * `_get_toolinfo_name`: the tool-info module's name, without prefix or URL
   * directory, cut before its first `.py` when it ends in `.py`.
   */
  function GetToolinfoName(data: ToolData): (r: Result<string>)
    ensures r.Ok? <==> data.toolinfoModule.Some?
    ensures r.Err? ==> r.error == KeyError("benchexec_toolinfo_module")
    ensures r.Ok? ==> !EndsWith(r.value, ".py")
    ensures r.Ok? ==> r.value <= ToolinfoModuleBase(data.toolinfoModule.value)
    ensures r.Ok? && !EndsWith(ToolinfoModuleBase(data.toolinfoModule.value), ".py") ==>
      r.value == ToolinfoModuleBase(data.toolinfoModule.value)
    ensures r.Ok? && EndsWith(ToolinfoModuleBase(data.toolinfoModule.value), ".py") ==>
      var base := ToolinfoModuleBase(data.toolinfoModule.value);
      OccursAt(base, ".py", |r.value|) && forall i :: 0 <= i < |r.value| ==> !OccursAt(base, ".py", i)
  {
    if data.toolinfoModule.None? then Err(KeyError("benchexec_toolinfo_module"))
    else
      var name := ToolinfoModuleBase(data.toolinfoModule.value);
      if EndsWith(name, ".py") then
        CutAtPy(name);
        Ok(FirstPiece(name, ".py"))
      else Ok(name)
  }

  /** A name ending in `.py` is cut where its first `.py` starts, and what is left does not end in `.py`. */
  lemma CutAtPy(name: string)
    requires EndsWith(name, ".py")
    ensures var r := FirstPiece(name, ".py");
      !EndsWith(r, ".py") && OccursAt(name, ".py", |r|)
  {
    var r := FirstPiece(name, ".py");
    FirstPieceLacksSep(name, ".py");
    assert r != name;
    assert |r| < |name|;
  }

  /** A name without a dot never ends in `.py`. */
  lemma NoPyEnding(n: string)
    requires '.' !in n
    ensures !EndsWith(n, ".py")
  {
    if |n| >= 3 {
      assert n[|n| - 3] in n;
      assert n[|n| - 3..][0] == n[|n| - 3];
    }
  }

  /** A module given by its dotted name under `benchexec.tools.`, with or without `.py`. */
  lemma ToolinfoNameOfToolsModule(n: string)
    requires '.' !in n
    ensures GetToolinfoName(ToolData(Some(ToolsPrefix + n), None, None)) == Ok(n)
    ensures GetToolinfoName(ToolData(Some(ToolsPrefix + n + ".py"), None, None)) == Ok(n)
  {
    assert (ToolsPrefix + n)[..|ToolsPrefix|] == ToolsPrefix;
    assert (ToolsPrefix + n)[|ToolsPrefix|..] == n;
    NoPyEnding(n);
    var m := ToolsPrefix + n + ".py";
    assert m[..|ToolsPrefix|] == ToolsPrefix;
    assert m[|ToolsPrefix|..] == n + ".py";
    FirstPieceBefore(n, ".py", "");
    assert n + ".py" + "" == n + ".py";
  }

  /** A module given by the URL of its file: the last path segment without `.py`. */
  lemma ToolinfoNameOfUrl(n: string, url: string)
    requires '.' !in n && '/' !in n && StartsWith(url, "http")
    ensures GetToolinfoName(ToolData(Some(url + "/" + n + ".py"), None, None)) == Ok(n)
  {
    var file := n + ".py";
    var m := url + "/" + n + ".py";
    assert m == url + ['/'] + file;
    assert m[0] == url[0] == 'h';
    assert !StartsWith(m, ToolsPrefix);
    assert m[..4] == url[..4];
    assert '/' !in file;
    SplitAround(url, file, '/');
    assert Last(Split(m, '/')) == file;
    assert ToolinfoModuleBase(m) == file;
    assert EndsWith(file, ".py") by {
      assert file[|file| - 3..] == ".py";
    }
    FirstPieceBefore(n, ".py", "");
    assert n + ".py" + "" == file;
    assert FirstPiece(file, ".py") == n;
    assert GetToolinfoName(ToolData(Some(m), None, None)) == Ok(FirstPiece(file, ".py"));
  }

  /** One line of the options block, the option inserted verbatim. */
  function OptionLine(option: string): string {
    "  <option name=\"" + option + "\" />"
  }

  function OptionLineSeq(options: seq<string>): (r: seq<string>)
    ensures |r| == |options|
    ensures forall i :: 0 <= i < |r| ==> r[i] == OptionLine(options[i])
  {
    seq(|options|, i requires 0 <= i < |options| => OptionLine(options[i]))
  }

  /** The options block: the option lines in input order, joined by newlines. */
  function OptionLines(options: seq<string>): (r: string)
    ensures options == [] <==> r == ""
    ensures options != [] ==> StartsWith(r, OptionLine(options[0]))
  {
    if options == [] then ""
    else
      JoinStartsWithFirst(OptionLineSeq(options), '\n');
      Join(OptionLineSeq(options), '\n')
  }

  /**
   * The options block holds exactly one line per option, in input order, and
   * no other line; no options give the empty string.
   */
  lemma OptionLinesRoundTrip(options: seq<string>)
    requires forall i :: 0 <= i < |options| ==> '\n' !in options[i]
    ensures options == [] ==> OptionLines(options) == ""
    ensures options != [] ==> Split(OptionLines(options), '\n') == OptionLineSeq(options)
  {
    var lines := OptionLineSeq(options);
    forall i | 0 <= i < |lines| ensures '\n' !in lines[i] {
      var pre: string := "  <option name=\"";
      var post: string := "\" />";
      assert '\n' !in pre && '\n' !in post;
      assert lines[i] == pre + options[i] + post;
    }
    if options != [] {
      SplitJoin(lines, '\n');
    }
  }

  /**
   * The options come from entry `j` of `versions`: entry `i` is the first
   * participation for the competition and track, it names a tool version,
   * entry `j` is the first entry with that version, and it has options.
   */
  predicate OptionsFrom(data: ToolData, competition: string, track: string, i: int, j: int) {
    && data.participations.Some? && data.versions.Some?
    && FirstMatchAt(data.participations.value, competition, track, i)
    && data.participations.value[i].toolVersion.Some?
    && FirstVersionAt(data.versions.value, data.participations.value[i].toolVersion.value, j)
    && data.versions.value[j].toolinfoOptions.Some?
  }

  /**
   * `_get_toolinfo_options`: the options block of the first version entry for
   * the tool version of the first participation; any missing link raises.
   */
  function GetToolinfoOptions(data: ToolData, competition: string, track: string): (r: Result<string>)
    ensures GetParticipationInfo(data, competition, track).None? ==> r.Err?
    ensures r.Ok? <==> exists i, j :: OptionsFrom(data, competition, track, i, j)
    ensures forall i, j :: OptionsFrom(data, competition, track, i, j) ==>
      r == Ok(OptionLines(data.versions.value[j].toolinfoOptions.value))
  {
    var participation := GetParticipationInfo(data, competition, track);
    if participation.None? then
      NoOptionsWithout(data, competition, track);
      Err(TypeError("'NoneType' object is not subscriptable"))
    else if participation.value.toolVersion.None? then
      NoOptionsWithout(data, competition, track);
      Err(KeyError("tool_version"))
    else
      var versionInfo :- GetVersionInfo(data, participation.value.toolVersion.value);
      if versionInfo.None? then
        NoOptionsWithout(data, competition, track);
        Err(TypeError("'NoneType' object is not subscriptable"))
      else if versionInfo.value.toolinfoOptions.None? then
        NoOptionsWithout(data, competition, track);
        Err(KeyError("benchexec_toolinfo_options"))
      else
        OptionsFromLookups(data, competition, track);
        OptionsFromWitness(data, competition, track);
        Ok(OptionLines(versionInfo.value.toolinfoOptions.value))
  }

  /** When both look-ups succeed and the version has options, those come from the entries found. */
  lemma OptionsFromWitness(data: ToolData, competition: string, track: string)
    requires var p := GetParticipationInfo(data, competition, track);
      p.Some? && p.value.toolVersion.Some?
      && (var v := GetVersionInfo(data, p.value.toolVersion.value);
          v.Ok? && v.value.Some? && v.value.value.toolinfoOptions.Some?)
    ensures exists i, j :: OptionsFrom(data, competition, track, i, j)
  {
    var ps := data.participations.value;
    var p := GetParticipationInfo(data, competition, track).value;
    var i :| FirstMatchAt(ps, competition, track, i) && p == ps[i];
    var vs := data.versions.value;
    var version := p.toolVersion.value;
    var v := GetVersionInfo(data, version).value.value;
    var j :| StopsAtVersion(vs, version, j) && vs[j] == v && vs[j].version == Some(version);
    assert OptionsFrom(data, competition, track, i, j);
  }

  /**
   * Every pair of entries the options can come from is the pair the two
   * look-ups return.
   */
  lemma OptionsFromLookups(data: ToolData, competition: string, track: string)
    ensures forall i, j :: OptionsFrom(data, competition, track, i, j) ==>
      && GetParticipationInfo(data, competition, track) == Some(data.participations.value[i])
      && GetVersionInfo(data, data.participations.value[i].toolVersion.value) == Ok(Some(data.versions.value[j]))
  {
    forall i, j | OptionsFrom(data, competition, track, i, j)
      ensures GetParticipationInfo(data, competition, track) == Some(data.participations.value[i])
      ensures GetVersionInfo(data, data.participations.value[i].toolVersion.value) == Ok(Some(data.versions.value[j]))
    {
      FirstMatchAtResult(data.participations.value, competition, track, i);
      FirstVersionAtResult(data.versions.value, data.participations.value[i].toolVersion.value, j);
    }
  }

  /** When a look-up fails, no pair of entries supplies options. */
  lemma NoOptionsWithout(data: ToolData, competition: string, track: string)
    requires var p := GetParticipationInfo(data, competition, track);
      p.None? || p.value.toolVersion.None?
      || (var v := GetVersionInfo(data, p.value.toolVersion.value);
          v.Err? || v.value.None? || v.value.value.toolinfoOptions.None?)
    ensures forall i, j :: !OptionsFrom(data, competition, track, i, j)
  {
    OptionsFromLookups(data, competition, track);
  }

  // ---------------------------------------------------------------------------
  // The categories a verifier participates in
  // ---------------------------------------------------------------------------

  /** `get_category_name_as_in_xml`: the segment after the first dot of a qualified reference. */
  function CategoryNameAsInXml(reference: string): (r: Result<string>)
    ensures r.Ok? <==> '.' in reference
    ensures r.Ok? ==> '.' !in r.value
    ensures r.Err? ==> r.error.ValueError?
  {
    var pieces := Split(reference, '.');
    if |pieces| >= 2 then Ok(pieces[1])
    else Err(ValueError("Unexpected category name: " + reference))
  }

  /** The name is the segment between the first dot and the next dot or the end. */
  lemma CategoryNameOfQualified(group: string, name: string, rest: string)
    requires '.' !in group && '.' !in name
    requires rest == "" || rest[0] == '.'
    ensures CategoryNameAsInXml(group + "." + name + rest) == Ok(name)
  {
    var tail := name + rest;
    assert group + "." + name + rest == group + ['.'] + tail;
    SplitAround(group, tail, '.');
    FirstPieceOfTail(name, rest);
  }

  /** A dot-free `name` followed by nothing or by a dot is the first piece of the split. */
  lemma FirstPieceOfTail(name: string, rest: string)
    requires '.' !in name
    requires rest == "" || rest[0] == '.'
    ensures Split(name + rest, '.')[0] == name
  {
    if rest == "" {
      assert name + rest == name;
    } else {
      assert name + rest == name + ['.'] + rest[1..];
      SplitAround(name, rest[1..], '.');
    }
  }

  /** The set comprehension over a list of references: the ValueError of the first malformed one. */
  function XmlNames(references: seq<string>): (r: Result<set<string>>)
    ensures r.Ok? <==> forall i :: 0 <= i < |references| ==> '.' in references[i]
    ensures r.Ok? ==> forall x :: x in r.value <==>
      exists i :: 0 <= i < |references| && CategoryNameAsInXml(references[i]) == Ok(x)
    ensures r.Err? ==> r.error.ValueError?
    decreases |references|
  {
    if references == [] then Ok({})
    else
      var name :- CategoryNameAsInXml(references[0]);
      var rest :- XmlNames(references[1..]);
      OkImagesOfTail(references, CategoryNameAsInXml, name);
      Ok({name} + rest)
  }

  /** The values a function yields on a list are its value on the head and those on the tail. */
  lemma OkImagesOfTail(xs: seq<string>, f: string -> Result<string>, head: string)
    requires xs != [] && f(xs[0]) == Ok(head)
    ensures forall x :: (exists i :: 0 <= i < |xs| && f(xs[i]) == Ok(x)) <==>
      (x == head || exists i :: 0 <= i < |xs| - 1 && f(xs[1..][i]) == Ok(x))
  {
    forall x | exists i :: 0 <= i < |xs| - 1 && f(xs[1..][i]) == Ok(x)
      ensures exists i :: 0 <= i < |xs| && f(xs[i]) == Ok(x)
    {
      var i :| 0 <= i < |xs| - 1 && f(xs[1..][i]) == Ok(x);
      assert f(xs[i + 1]) == Ok(x);
    }
    forall x | exists i :: 0 <= i < |xs| && f(xs[i]) == Ok(x)
      ensures x == head || exists i :: 0 <= i < |xs| - 1 && f(xs[1..][i]) == Ok(x)
    {
      var i :| 0 <= i < |xs| && f(xs[i]) == Ok(x);
      if i > 0 {
        assert f(xs[1..][i - 1]) == Ok(x);
      }
    }
  }

  /** Every reference of the list has a segment after a dot. */
  predicate WellFormed(references: seq<string>) {
    forall i :: 0 <= i < |references| ==> '.' in references[i]
  }

  /** What one meta-category adds for `tool`: its names if the tool is listed and no reference is malformed. */
  function Contribution(meta: MetaCategory, tool: string): set<string> {
    if tool in meta.verifiers then
      match XmlNames(meta.categories)
      case Ok(names) => names
      case Err(_) => {}
    else {}
  }

  /** The union of the contributions of the meta-categories named in `names`. */
  function UnionOver(categories: map<string, MetaCategory>, names: set<string>, tool: string): set<string> {
    set n, x | n in names && n in categories && x in Contribution(categories[n], tool) :: x
  }

  /** The union of the contributions of all meta-categories. */
  function MetaUnion(categories: map<string, MetaCategory>, tool: string): set<string> {
    UnionOver(categories, categories.Keys, tool)
  }

  /** The meta-categories among `names` that list `tool` and are skipped because of a malformed reference. */
  function IgnoredAmong(categories: map<string, MetaCategory>, names: set<string>, tool: string): set<string> {
    set n | n in names && n in categories && tool in categories[n].verifiers && XmlNames(categories[n].categories).Err?
  }

  function IgnoredMetaCategories(categories: map<string, MetaCategory>, tool: string): set<string> {
    IgnoredAmong(categories, categories.Keys, tool)
  }

  /** One more meta-category adds its contribution and, if it is malformed, itself to the ignored ones. */
  lemma UnionOverAdd(categories: map<string, MetaCategory>, names: set<string>, n: string, tool: string)
    requires n in categories
    ensures UnionOver(categories, names + {n}, tool) == UnionOver(categories, names, tool) + Contribution(categories[n], tool)
    ensures IgnoredAmong(categories, names + {n}, tool) ==
      IgnoredAmong(categories, names, tool)
      + (if tool in categories[n].verifiers && XmlNames(categories[n].categories).Err? then {n} else {})
  {
    forall x | x in Contribution(categories[n], tool) ensures x in UnionOver(categories, names + {n}, tool) {
      assert n in names + {n};
    }
  }

  /** The tool's opt-in references: `cs["opt_in"].get(tool_name, [])`. */
  function OptIns(cs: CategoryStructure, tool: string): seq<string>
    requires cs.optIn.Some?
  {
    if tool in cs.optIn.value then cs.optIn.value[tool] else []
  }

  /** The names of the opt-ins; a malformed opt-in is not caught. */
  function OptInNames(cs: CategoryStructure, tool: string): (r: Result<set<string>>)
    ensures cs.optIn.None? ==> r.Err?
    ensures cs.optIn.Some? ==> (r.Ok? <==> WellFormed(OptIns(cs, tool)))
  {
    if cs.optIn.None? then Err(AttributeError("'NoneType' object has no attribute 'get'"))
    else XmlNames(OptIns(cs, tool))
  }

  /**
   * The set `purge_categories` builds before it touches the document: it
   * raises exactly when the opt-in table is null or an opt-in reference has
   * no dot, and holds every meta-category's contribution.
   */
  function Participation(cs: CategoryStructure, tool: string): (r: Result<set<string>>)
    ensures r.Err? <==> cs.optIn.None? || !WellFormed(OptIns(cs, tool))
    ensures r.Ok? ==> MetaUnion(cs.categories, tool) <= r.value
  {
    var optIns :- OptInNames(cs, tool);
    Ok(MetaUnion(cs.categories, tool) + optIns)
  }

  /**
   * The participation set, element by element: a name is in it exactly when
   * some well-formed meta-category listing the tool has a reference with that
   * name, or some opt-in has that name.
   */
  lemma ParticipationMembership(cs: CategoryStructure, tool: string, x: string)
    requires Participation(cs, tool).Ok?
    ensures x in Participation(cs, tool).value <==>
      (exists n, i :: n in cs.categories && tool in cs.categories[n].verifiers
         && WellFormed(cs.categories[n].categories)
         && 0 <= i < |cs.categories[n].categories|
         && CategoryNameAsInXml(cs.categories[n].categories[i]) == Ok(x))
      || (exists i :: 0 <= i < |OptIns(cs, tool)| && CategoryNameAsInXml(OptIns(cs, tool)[i]) == Ok(x))
  {
    var metas := cs.categories;
    if x in MetaUnion(metas, tool) {
      var n :| n in metas && x in Contribution(metas[n], tool);
      var i :| 0 <= i < |metas[n].categories| && CategoryNameAsInXml(metas[n].categories[i]) == Ok(x);
    }
    if exists n, i :: n in metas && tool in metas[n].verifiers && WellFormed(metas[n].categories)
         && 0 <= i < |metas[n].categories| && CategoryNameAsInXml(metas[n].categories[i]) == Ok(x) {
      var n, i :| n in metas && tool in metas[n].verifiers && WellFormed(metas[n].categories)
         && 0 <= i < |metas[n].categories| && CategoryNameAsInXml(metas[n].categories[i]) == Ok(x);
      assert x in Contribution(metas[n], tool);
    }
  }

  /**
   * A meta-category with a malformed reference contributes nothing, and the
   * other meta-categories contribute exactly what they would without it.
   */
  lemma MalformedMetaCategoryIsolated(categories: map<string, MetaCategory>, tool: string, n: string, bad: MetaCategory)
    requires !WellFormed(bad.categories)
    ensures MetaUnion(categories[n := bad], tool) == MetaUnion(categories - {n}, tool)
    ensures n in IgnoredMetaCategories(categories[n := bad], tool) <==> tool in bad.verifiers
  {
    assert Contribution(bad, tool) == {};
    var with := categories[n := bad];
    var without := categories - {n};
    forall x | x in MetaUnion(with, tool) ensures x in MetaUnion(without, tool) {
      var m :| m in with.Keys && m in with && x in Contribution(with[m], tool);
      assert m != n;
      assert m in without.Keys && without[m] == with[m];
    }
    forall x | x in MetaUnion(without, tool) ensures x in MetaUnion(with, tool) {
      var m :| m in without.Keys && m in without && x in Contribution(without[m], tool);
      assert m in with.Keys && with[m] == without[m];
    }
  }

  /** Every opt-in's name is in the participation set, whatever the meta-categories say. */
  lemma OptInsParticipate(cs: CategoryStructure, tool: string, i: int)
    requires Participation(cs, tool).Ok?
    requires 0 <= i < |OptIns(cs, tool)|
    ensures CategoryNameAsInXml(OptIns(cs, tool)[i]).Ok?
    ensures CategoryNameAsInXml(OptIns(cs, tool)[i]).value in Participation(cs, tool).value
  {
  }

  /**
   * `purge_categories`, first half: the loop over the meta-categories and the
   * opt-ins. Besides the set it returns the meta-categories it reported as
   * ignored.
   */
  method ResolveParticipation(cs: CategoryStructure, tool: string) returns (r: Result<set<string>>, ignored: set<string>)
    ensures r == Participation(cs, tool)
    ensures ignored == IgnoredMetaCategories(cs.categories, tool)
  {
    var metas := cs.categories;
    var participating: set<string> := {};
    ignored := {};
    var todo := metas.Keys;
    ghost var done: set<string> := {};
    while todo != {}
      invariant todo <= metas.Keys && done == metas.Keys - todo
      invariant participating == UnionOver(metas, done, tool)
      invariant ignored == IgnoredAmong(metas, done, tool)
      decreases todo
    {
      var name :| name in todo;
      UnionOverAdd(metas, done, name, tool);
      var meta := metas[name];
      if tool in meta.verifiers {
        var names := XmlNames(meta.categories);
        if names.Err? {
          ignored := ignored + {name};
        } else {
          participating := participating + names.value;
        }
      }
      todo := todo - {name};
      done := done + {name};
    }
    var optIns := OptInNames(cs, tool);
    if optIns.Err? {
      r := Err(optIns.error);
    } else {
      assert done == metas.Keys;
      r := Ok(participating + optIns.value);
    }
  }

  // ---------------------------------------------------------------------------
  // Pruning the document
  // ---------------------------------------------------------------------------

  predicate IsRunDefinition(n: Node) {
    HasTag(n, "rundefinition")
  }

  /** `taskdef.get("name") in categories`: a task without a name never participates. */
  predicate Participates(task: Node, categories: set<string>) {
    Get(task, "name").Some? && Get(task, "name").value in categories
  }

  /** A child the task loop removes: a `<tasks>` element that does not participate. */
  predicate Dropped(child: Node, categories: set<string>) {
    IsTasks(child) && !Participates(child, categories)
  }

  /** The children of a rundefinition after the task loop: every child but the dropped tasks. */
  function KeptChildren(children: seq<Node>, categories: set<string>): (r: seq<Node>)
    ensures |r| <= |children|
    decreases |children|
  {
    if children == [] then []
    else (if Dropped(children[0], categories) then [] else [children[0]]) + KeptChildren(children[1..], categories)
  }

  /** A rundefinition after the task loop; its own attributes stay. */
  function PrunedRunDefinition(rundef: Node, categories: set<string>): Node {
    if rundef.Element? then rundef.(children := KeptChildren(rundef.children, categories)) else rundef
  }

  /** `rundef.findall("tasks")` is not empty. */
  predicate HasTasks(n: Node) {
    n.Element? && FindAll(n.children, "tasks") != []
  }

  /** What the rundefinition loop leaves of one child of the root. */
  function PrunedHead(c: Node, categories: set<string>): seq<Node> {
    if IsRunDefinition(c) then
      var p := PrunedRunDefinition(c, categories);
      if HasTasks(p) then [p] else []
    else [c]
  }

  /** The children of the root after the rundefinition loop: every child that is not a rundefinition stays. */
  function PrunedTopLevel(children: seq<Node>, categories: set<string>): (r: seq<Node>)
    ensures |r| <= |children|
    decreases |children|
  {
    if children == [] then []
    else PrunedHead(children[0], categories) + PrunedTopLevel(children[1..], categories)
  }

  /** The document after `purge_categories` has pruned it: only the root's children change. */
  function Pruned(root: Node, categories: set<string>): (r: Node)
    ensures !root.Element? ==> r == root
    ensures root.Element? ==>
      r.Element? && r.tag == root.tag && r.attrs == root.attrs && r.text == root.text && r.line == root.line
    ensures root.Element? ==> |r.children| <= |root.children|
  {
    if root.Element? then root.(children := PrunedTopLevel(root.children, categories)) else root
  }

  /** The `<tasks>` elements of the list that participate, in order. */
  function ParticipatingTasks(tasks: seq<Node>, categories: set<string>): (r: seq<Node>)
    ensures forall i :: 0 <= i < |r| ==> Participates(r[i], categories)
  {
    if tasks == [] then []
    else (if Participates(tasks[0], categories) then [tasks[0]] else []) + ParticipatingTasks(tasks[1..], categories)
  }

  /** The pruned rundefinitions of the list that keep a `<tasks>` element, in order. */
  function PrunedRunDefinitions(rundefs: seq<Node>, categories: set<string>): (r: seq<Node>)
    ensures forall i :: 0 <= i < |r| ==> HasTasks(r[i])
  {
    if rundefs == [] then []
    else
      var p := PrunedRunDefinition(rundefs[0], categories);
      (if HasTasks(p) then [p] else []) + PrunedRunDefinitions(rundefs[1..], categories)
  }

  /**
   * The task loop keeps exactly the participating `<tasks>` children, in their
   * order, and leaves every other child (options, comments, ...) as it was.
   */
  lemma {:induction false} KeptChildrenShape(children: seq<Node>, categories: set<string>)
    ensures FindAll(KeptChildren(children, categories), "tasks") == ParticipatingTasks(FindAll(children, "tasks"), categories)
    ensures Others(KeptChildren(children, categories), "tasks") == Others(children, "tasks")
    decreases |children|
  {
    if children != [] {
      var c := children[0];
      var rest := children[1..];
      var head := if Dropped(c, categories) then [] else [c];
      KeptChildrenShape(rest, categories);
      assert KeptChildren(children, categories) == head + KeptChildren(rest, categories);
      FindAllAppend(head, KeptChildren(rest, categories), "tasks");
      OthersAppend(head, KeptChildren(rest, categories), "tasks");
      assert children == [c] + rest;
      FindAllAppend([c], rest, "tasks");
      OthersAppend([c], rest, "tasks");
      ParticipatingTasksAppend(FindAll([c], "tasks"), FindAll(rest, "tasks"), categories);
      if IsTasks(c) {
        assert FindAll([c], "tasks") == [c];
        assert Others([c], "tasks") == [];
      } else {
        assert FindAll([c], "tasks") == [];
        assert Others([c], "tasks") == [c];
      }
    }
  }

  lemma {:induction false} ParticipatingTasksAppend(a: seq<Node>, b: seq<Node>, categories: set<string>)
    ensures ParticipatingTasks(a + b, categories) == ParticipatingTasks(a, categories) + ParticipatingTasks(b, categories)
    decreases |a|
  {
    if a == [] {
      assert a + b == b;
    } else {
      assert (a + b)[0] == a[0] && (a + b)[1..] == a[1..] + b;
      ParticipatingTasksAppend(a[1..], b, categories);
    }
  }

  /** The participating tasks are exactly the members of the list that participate. */
  lemma {:induction false} ParticipatingTasksMembers(tasks: seq<Node>, categories: set<string>)
    ensures forall t :: t in ParticipatingTasks(tasks, categories) <==> t in tasks && Participates(t, categories)
    decreases |tasks|
  {
    if tasks != [] {
      ParticipatingTasksMembers(tasks[1..], categories);
      assert tasks == [tasks[0]] + tasks[1..];
    }
  }

  /**
   * The rundefinition loop keeps the rundefinitions that still have a
   * `<tasks>` element, pruned and in order, and leaves every other child of
   * the root as it was.
   */
  lemma {:induction false} PrunedTopLevelShape(children: seq<Node>, categories: set<string>)
    ensures FindAll(PrunedTopLevel(children, categories), "rundefinition")
      == PrunedRunDefinitions(FindAll(children, "rundefinition"), categories)
    ensures Others(PrunedTopLevel(children, categories), "rundefinition") == Others(children, "rundefinition")
    decreases |children|
  {
    if children != [] {
      var c := children[0];
      var head := PrunedHead(c, categories);
      PrunedTopLevelShape(children[1..], categories);
      FindAllAppend(head, PrunedTopLevel(children[1..], categories), "rundefinition");
      assert children == [c] + children[1..];
      FindAllAppend([c], children[1..], "rundefinition");
      PrunedRunDefinitionsAppend(FindAll([c], "rundefinition"), FindAll(children[1..], "rundefinition"), categories);
      OthersAppend(head, PrunedTopLevel(children[1..], categories), "rundefinition");
      OthersAppend([c], children[1..], "rundefinition");
      if IsRunDefinition(c) {
        var p := PrunedRunDefinition(c, categories);
        assert IsRunDefinition(p);
        assert FindAll([c], "rundefinition") == [c];
        assert Others([c], "rundefinition") == [];
        assert FindAll([p], "rundefinition") == [p];
        assert Others([p], "rundefinition") == [];
        assert PrunedRunDefinitions([c], categories) == head;
      } else {
        assert head == [c];
        assert FindAll([c], "rundefinition") == [];
        assert Others([c], "rundefinition") == [c];
      }
    }
  }

  lemma {:induction false} PrunedRunDefinitionsAppend(a: seq<Node>, b: seq<Node>, categories: set<string>)
    ensures PrunedRunDefinitions(a + b, categories) == PrunedRunDefinitions(a, categories) + PrunedRunDefinitions(b, categories)
    decreases |a|
  {
    if a == [] {
      assert a + b == b;
    } else {
      assert (a + b)[0] == a[0] && (a + b)[1..] == a[1..] + b;
      PrunedRunDefinitionsAppend(a[1..], b, categories);
    }
  }

  /**
   * A pruned document: every rundefinition child of the root has a `<tasks>`
   * child, and every `<tasks>` child of a rundefinition participates.
   */
  predicate IsPruned(root: Node, categories: set<string>) {
    root.Element? ==>
      forall c :: c in root.children && IsRunDefinition(c) ==>
        HasTasks(c) && forall t :: t in c.children && IsTasks(t) ==> Participates(t, categories)
  }

  /** The task loop keeps exactly the children that are not dropped tasks. */
  lemma {:induction false} KeptChildrenSound(children: seq<Node>, categories: set<string>)
    ensures forall t :: t in KeptChildren(children, categories) <==> t in children && !Dropped(t, categories)
    decreases |children|
  {
    if children != [] {
      KeptChildrenSound(children[1..], categories);
      assert children == [children[0]] + children[1..];
    }
  }

  /**
   * After the rundefinition loop every rundefinition left has tasks, all of
   * them participating, and every child of the root that is not a
   * rundefinition is still there.
   */
  lemma {:induction false} PrunedTopLevelSound(children: seq<Node>, categories: set<string>)
    ensures forall c :: c in PrunedTopLevel(children, categories) && IsRunDefinition(c) ==>
      HasTasks(c) && forall t :: t in c.children && IsTasks(t) ==> Participates(t, categories)
    ensures forall c :: c in children && !IsRunDefinition(c) ==> c in PrunedTopLevel(children, categories)
    decreases |children|
  {
    if children != [] {
      PrunedTopLevelSound(children[1..], categories);
      assert children == [children[0]] + children[1..];
      if children[0].Element? {
        KeptChildrenSound(children[0].children, categories);
      }
    }
  }

  /** After pruning, no rundefinition is left without tasks and every task left participates. */
  lemma PrunedIsPruned(root: Node, categories: set<string>)
    ensures IsPruned(Pruned(root, categories), categories)
  {
    if root.Element? {
      PrunedTopLevelSound(root.children, categories);
    }
  }

  lemma {:induction false} KeptChildrenFixpoint(children: seq<Node>, categories: set<string>)
    requires forall t :: t in children && IsTasks(t) ==> Participates(t, categories)
    ensures KeptChildren(children, categories) == children
    decreases |children|
  {
    if children != [] {
      KeptChildrenFixpoint(children[1..], categories);
      assert children == [children[0]] + children[1..];
    }
  }

  lemma {:induction false} PrunedTopLevelFixpoint(children: seq<Node>, categories: set<string>)
    requires forall c :: c in children && IsRunDefinition(c) ==>
      HasTasks(c) && forall t :: t in c.children && IsTasks(t) ==> Participates(t, categories)
    ensures PrunedTopLevel(children, categories) == children
    decreases |children|
  {
    if children != [] {
      PrunedTopLevelFixpoint(children[1..], categories);
      PrunedHeadFixpoint(children[0], categories);
      assert children == [children[0]] + children[1..];
    }
  }

  lemma PrunedHeadFixpoint(c: Node, categories: set<string>)
    requires IsRunDefinition(c) ==>
      HasTasks(c) && forall t :: t in c.children && IsTasks(t) ==> Participates(t, categories)
    ensures PrunedHead(c, categories) == [c]
  {
    if IsRunDefinition(c) {
      KeptChildrenFixpoint(c.children, categories);
      assert PrunedRunDefinition(c, categories) == c;
    }
  }

  /**
   * Pruning removes nothing from a document exactly when the document is
   * already pruned: in particular when every task's name is in the set and no
   * rundefinition lacks tasks, the document comes back unchanged, in order.
   */
  lemma PruneFixpoint(root: Node, categories: set<string>)
    ensures Pruned(root, categories) == root <==> IsPruned(root, categories)
  {
    if root.Element? && IsPruned(root, categories) {
      PrunedTopLevelFixpoint(root.children, categories);
    }
    PrunedIsPruned(root, categories);
  }

  /** Pruning twice with the same set removes nothing further. */
  lemma PruneIdempotent(root: Node, categories: set<string>)
    ensures Pruned(Pruned(root, categories), categories) == Pruned(root, categories)
  {
    PrunedIsPruned(root, categories);
    PruneFixpoint(Pruned(root, categories), categories);
  }

  /**
   * The task loop of `purge_categories` on one rundefinition: it walks the
   * children and removes each `<tasks>` element whose name is not in the set.
   */
  method RemoveTasks(children: seq<Node>, categories: set<string>) returns (kept: seq<Node>)
    ensures kept == KeptChildren(children, categories)
  {
    kept := children;
    var i := 0;
    while i < |kept|
      invariant 0 <= i <= |kept|
      invariant KeptChildren(children, categories) == kept[..i] + KeptChildren(kept[i..], categories)
      decreases |kept| - i
    {
      KeptChildrenStep(kept[..i], kept[i..], categories);
      assert kept[i..][0] == kept[i] && kept[i..][1..] == kept[i + 1..];
      if Dropped(kept[i], categories) {
        ghost var prev := kept;
        kept := kept[..i] + kept[i + 1..];
        assert kept[..i] == prev[..i];
        assert kept[i..] == prev[i + 1..];
      } else {
        assert kept[..i + 1] == kept[..i] + [kept[i]];
        i := i + 1;
      }
    }
    assert kept[..i] == kept;
  }

  /** One step of the task loop, after the children already walked. */
  lemma KeptChildrenStep(walked: seq<Node>, rest: seq<Node>, categories: set<string>)
    requires rest != []
    ensures Dropped(rest[0], categories) ==> walked + KeptChildren(rest, categories) == walked + KeptChildren(rest[1..], categories)
    ensures !Dropped(rest[0], categories) ==>
      walked + KeptChildren(rest, categories) == (walked + [rest[0]]) + KeptChildren(rest[1..], categories)
  {
    var head := if Dropped(rest[0], categories) then [] else [rest[0]];
    var tail := KeptChildren(rest[1..], categories);
    assert KeptChildren(rest, categories) == head + tail;
    assert walked + (head + tail) == (walked + head) + tail;
    if Dropped(rest[0], categories) {
      assert walked + head == walked;
    }
  }

  /**
   * One step of the rundefinition loop: a rundefinition loses its
   * non-participating tasks and disappears when none is left; any other child
   * of the root stays.
   */
  method PruneChild(c: Node, categories: set<string>) returns (head: seq<Node>)
    ensures head == PrunedHead(c, categories)
  {
    if IsRunDefinition(c) {
      var kept := RemoveTasks(c.children, categories);
      if FindAll(kept, "tasks") == [] {
        head := [];
      } else {
        head := [c.(children := kept)];
      }
    } else {
      head := [c];
    }
  }

  /**
   * The rundefinition loop of `purge_categories` over the children of the
   * root, keeping what each step leaves in document order.
   */
  method PruneDocument(root: Node, categories: set<string>) returns (pruned: Node)
    ensures pruned == Pruned(root, categories)
  {
    if !root.Element? {
      return root;
    }
    var children := root.children;
    var kept: seq<Node> := [];
    var i := 0;
    while i < |children|
      invariant 0 <= i <= |children|
      invariant PrunedTopLevel(children, categories) == kept + PrunedTopLevel(children[i..], categories)
      decreases |children| - i
    {
      assert children[i..][0] == children[i] && children[i..][1..] == children[i + 1..];
      var head := PruneChild(children[i], categories);
      kept := kept + head;
      i := i + 1;
    }
    pruned := root.(children := kept);
  }

  /**
   * `purge_categories`: the participation set of `tool`, the document pruned
   * to it, serialised and prefixed with the fixed declaration. A malformed or
   * null opt-in table raises before the document is touched. `serialize`
   * stands for ElementTree's `tostring`.
   */
  method PurgeCategories(root: Node, tool: string, cs: CategoryStructure, serialize: Node -> string)
    returns (out: Result<string>, ignored: set<string>)
    ensures ignored == IgnoredMetaCategories(cs.categories, tool)
    ensures out.Ok? <==> Participation(cs, tool).Ok?
    ensures out.Err? ==> out == Err(Participation(cs, tool).error)
    ensures out.Ok? ==> out.value == XmlDoctypeDeclaration + serialize(Pruned(root, Participation(cs, tool).value))
    ensures out.Ok? ==> StartsWith(out.value, XmlDoctypeDeclaration)
  {
    var participation;
    participation, ignored := ResolveParticipation(cs, tool);
    if participation.Err? {
      return Err(participation.error), ignored;
    }
    var pruned := PruneDocument(root, participation.value);
    var body := serialize(pruned);
    out := Ok(XmlDoctypeDeclaration + body);
    assert out.value[..|XmlDoctypeDeclaration|] == XmlDoctypeDeclaration;
  }
}

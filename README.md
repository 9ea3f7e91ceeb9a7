# Benchmark-definition generator and checker, modelled in Dafny

The competition's benchmark definitions are per-verifier XML documents. Two
tools in the repository work them out from the category structure
(`category-structure.yml`):

- the generator (`benchmark-defs/create-benchmark-xmls.py`) computes the set
  of categories a verifier takes part in. It prunes a filled-in template down
  to that set: `<tasks>` elements outside it go, and so do `<rundefinition>`
  elements left without tasks. It then prefixes the fixed DOCTYPE
  declaration. It also looks up a tool's version and participation records
  and derives the tool-info name and the `<option>` lines;
- the checker (`test/check.py`) runs structural checks on every `<tasks>`
  element. It has its own resolver of the categories a verifier takes part
  in, which it uses for a completeness check. It gates the checks on parse
  errors, the tasks directory and the file name, and folds the per-file
  verdicts of a batch into an exit code.

Modules:

- `Wrappers` has `Option`, `Result` and the Python exceptions the code
  raises (`KeyError`, `ValueError`, `TypeError`, `AttributeError`).
- `Strings` has Python's `split`, `join`, `startswith`, `endswith` and
  `s.split(sep)[0]` on strings.
- `Paths` has the parts of `pathlib` used (`name`, `parent`, `/`).
- `Xml` has the document tree with `get`, `findall` and `iter`.
- `Categories` has the category structure.
- `CreateBenchmarkXmls` and `Check` model the two tools.

The parts that work step by step are methods with loops, proved equal to
specification functions:

- `ResolveParticipation`, `RemoveTasks` and `PruneDocument` in the generator;
- `CheckTaskDefsMatchSet`, `GetBaseCategoriesParticipating` and `RunChecks` in the checker.

The step-by-step code without a loop of its own is a method without a loop:

- `PruneChild` and `PurgeCategories` in the generator;
- `CheckDirectory`, `CheckSetFile`, `CheckInclude`, `CheckTask`,
  `PerformChecks` and `CheckBenchDef` in the checker.

The properties are lemmas about those functions.

Points of the source worth knowing:

- The generator's resolver does not subtract meta-category keys or
  opt-outs; only the checker's does. A malformed opt-in makes the generator
  raise rather than skip it (`Participation`).
- The tool-info prefix the generator strips is `benchexec.tools.`.
- The set name the checker compares with the task name is the file name
  without its last dot-separated segment (`SetName`). It is not the name
  with `.set` removed: `a.b.c` gives `a.b`.
- The surplus test of the completeness check compares sizes, not sets
  (`SurplusHiddenByCount`).
- The generator prunes the parsed tree in place. The model computes the
  pruned tree as a value.

## Model

| member | source | states |
|---|---|---|
| CreateBenchmarkXmls.FirstVersionAtResult | benchmark-defs/create-benchmark-xmls.py:56-63 | an entry with the requested version, every earlier entry having another version, is what the search returns |
| CreateBenchmarkXmls.FirstVersion | benchmark-defs/create-benchmark-xmls.py:56-63 | the search returns the first entry whose `version` equals the one asked for, every earlier entry having another version; None exactly when every entry has another version; an entry without the key before any match raises KeyError |
| CreateBenchmarkXmls.GetVersionInfo | benchmark-defs/create-benchmark-xmls.py:46-63 | missing `versions` raises KeyError; a result is an entry of `versions` with the requested version; no such entry gives None |
| CreateBenchmarkXmls.FirstParticipation | benchmark-defs/create-benchmark-xmls.py:81-92 | the result is the first entry matching competition and track, with every earlier entry passed over; None exactly when no such first match exists (an entry lacking a key stops the search with None) |
| CreateBenchmarkXmls.FirstMatchAtResult | benchmark-defs/create-benchmark-xmls.py:81-92 | an entry matching competition and track, every earlier entry passed over, is what the search returns |
| CreateBenchmarkXmls.GetParticipationInfo | benchmark-defs/create-benchmark-xmls.py:66-92 | missing participations give None; a result is an entry of the list for the competition and track |
| CreateBenchmarkXmls.GetToolName | benchmark-defs/create-benchmark-xmls.py:111-112 | the tool name is the last `/`-separated segment of the file name cut before its first `.yml`: it has no `/`, ends that stem, and is preceded there by a `/` unless it is the whole stem |
| CreateBenchmarkXmls.ToolNameOfDataFile | benchmark-defs/create-benchmark-xmls.py:111-112 | `dir/tool.yml` and `tool.yml` both give `tool` whenever `.yml` does not occur earlier in the path; dots in `dir` and `tool` are allowed |
| CreateBenchmarkXmls.ToolinfoModuleBase | benchmark-defs/create-benchmark-xmls.py:179-185 | a `benchexec.tools.` module loses exactly that prefix; an `http` module keeps its last `/`-separated segment; any other module is kept whole |
| CreateBenchmarkXmls.GetToolinfoName | benchmark-defs/create-benchmark-xmls.py:178-188 | Ok exactly when the module key is present, KeyError otherwise; a base not ending in `.py` is the name itself; otherwise the name is the base cut at its first `.py` and never ends in `.py` |
| CreateBenchmarkXmls.ToolinfoNameOfToolsModule | benchmark-defs/create-benchmark-xmls.py:179-187 | `benchexec.tools.n` and `benchexec.tools.n.py` both give `n` |
| CreateBenchmarkXmls.ToolinfoNameOfUrl | benchmark-defs/create-benchmark-xmls.py:182-187 | a URL module `http…/n.py` gives `n` |
| CreateBenchmarkXmls.OptionLines | benchmark-defs/create-benchmark-xmls.py:203-206 | the block is empty exactly when there are no options; otherwise it starts with the first option's line |
| CreateBenchmarkXmls.OptionLinesRoundTrip | benchmark-defs/create-benchmark-xmls.py:203-206 | splitting the options block at newlines gives back exactly one `<option>` line per option in input order; no options give the empty string |
| CreateBenchmarkXmls.GetToolinfoOptions | benchmark-defs/create-benchmark-xmls.py:191-206 | no participation raises; Ok exactly when the first matching participation has a tool version whose first version entry has options, and then the result is exactly that entry's options block |
| CreateBenchmarkXmls.CategoryNameAsInXml | benchmark-defs/create-benchmark-xmls.py:221-227 | Ok exactly when the reference contains a dot, ValueError otherwise; the name contains no dot |
| CreateBenchmarkXmls.CategoryNameOfQualified | benchmark-defs/create-benchmark-xmls.py:221-223 | the name is the segment after the first dot: `g.a` gives `a` and `g.a.b` gives `a` |
| CreateBenchmarkXmls.XmlNames | benchmark-defs/create-benchmark-xmls.py:237-239 | the set comprehension raises ValueError exactly when some reference has no dot; otherwise it holds exactly the names of the references |
| CreateBenchmarkXmls.OptInNames | benchmark-defs/create-benchmark-xmls.py:247-250 | a null opt-in table raises; otherwise Ok exactly when every opt-in reference of the tool is well formed |
| CreateBenchmarkXmls.ParticipationMembership | benchmark-defs/create-benchmark-xmls.py:231-251 | a name is in the participation set exactly when a well-formed meta-category listing the tool has a reference with that name, or an opt-in has that name |
| CreateBenchmarkXmls.MalformedMetaCategoryIsolated | benchmark-defs/create-benchmark-xmls.py:233-246 | a meta-category with a malformed reference contributes nothing and the others contribute exactly what they would without it; it is reported exactly when it lists the tool |
| CreateBenchmarkXmls.OptInsParticipate | benchmark-defs/create-benchmark-xmls.py:247-251 | every opt-in's name is in the participation set |
| CreateBenchmarkXmls.Participation | benchmark-defs/create-benchmark-xmls.py:231-251 | the set build raises exactly when the opt-in table is null or an opt-in reference is malformed; otherwise it holds every name contributed by the meta-categories |
| CreateBenchmarkXmls.ResolveParticipation | benchmark-defs/create-benchmark-xmls.py:231-251 | the loop over the meta-categories and the opt-ins computes the participation set and reports exactly the malformed meta-categories listing the tool |
| CreateBenchmarkXmls.KeptChildren | benchmark-defs/create-benchmark-xmls.py:265-268 | the task loop never adds children |
| CreateBenchmarkXmls.KeptChildrenSound | benchmark-defs/create-benchmark-xmls.py:265-268 | a child is kept exactly when it was a child and is not a non-participating `<tasks>` element |
| CreateBenchmarkXmls.PrunedTopLevel | benchmark-defs/create-benchmark-xmls.py:264-271 | the rundefinition loop never adds children to the root |
| CreateBenchmarkXmls.PrunedTopLevelSound | benchmark-defs/create-benchmark-xmls.py:264-271 | every rundefinition left has tasks and only participating ones; every child of the root that is not a rundefinition stays |
| CreateBenchmarkXmls.Pruned | benchmark-defs/create-benchmark-xmls.py:264-271 | the root keeps its tag, attributes, text and line and never gains children; a non-element is unchanged |
| CreateBenchmarkXmls.KeptChildrenShape | benchmark-defs/create-benchmark-xmls.py:265-268 | after the task loop the `<tasks>` children are exactly the participating ones in their original order, and all other children are unchanged |
| CreateBenchmarkXmls.ParticipatingTasksMembers | benchmark-defs/create-benchmark-xmls.py:265-268 | a task is kept exactly when it was a child and its name is in the set |
| CreateBenchmarkXmls.PrunedTopLevelShape | benchmark-defs/create-benchmark-xmls.py:264-271 | the kept rundefinitions are the pruned ones that still have tasks, in order; the other children of the root are unchanged |
| CreateBenchmarkXmls.PrunedIsPruned | benchmark-defs/create-benchmark-xmls.py:264-271 | after pruning every rundefinition has a `<tasks>` child and every `<tasks>` child participates |
| CreateBenchmarkXmls.PruneFixpoint | benchmark-defs/create-benchmark-xmls.py:264-271 | pruning leaves a document unchanged exactly when it is already pruned |
| CreateBenchmarkXmls.PruneIdempotent | benchmark-defs/create-benchmark-xmls.py:264-271 | pruning twice with the same set removes nothing further |
| CreateBenchmarkXmls.RemoveTasks | benchmark-defs/create-benchmark-xmls.py:265-268 | removing the non-participating tasks one by one while walking the children leaves the kept children |
| CreateBenchmarkXmls.PruneChild | benchmark-defs/create-benchmark-xmls.py:265-271 | one rundefinition loses its non-participating tasks and disappears when none is left; any other child stays |
| CreateBenchmarkXmls.PruneDocument | benchmark-defs/create-benchmark-xmls.py:264-271 | the rundefinition loop yields the pruned document |
| CreateBenchmarkXmls.PurgeCategories | benchmark-defs/create-benchmark-xmls.py:230-273 | Ok exactly when the participation set is; the error is the set's error; the output is the fixed declaration followed by the serialised pruned document; the reported meta-categories are the malformed ones |
| Check.VerifierName | test/check.py:188-189 | the last four characters of the file name are dropped: what remains followed by them is the name; a shorter name gives `""` |
| Check.VerifierNameOfFile | test/check.py:188-189 | the verifier of `dir/v.xml` is `v` |
| Check.CategoryName | test/check.py:192-195 | the last four characters are dropped: what remains followed by them is the file name; a shorter name gives `""` |
| Check.CategoryNameOfSetFile | test/check.py:192-195 | the category of `c.set` is `c` |
| Check.SetName | test/check.py:147 | a file name without a dot has the set name `""` |
| Check.SetNameOfFile | test/check.py:147 | removing a dot-free last segment gives back what came before the dot |
| Check.DirectoryDiagnostics | test/check.py:133-142 | at most one diagnostic, present exactly when the expected directory exists and differs from the include's directory |
| Check.SetFileDiagnostics | test/check.py:143-153 | a not-a-set-file diagnostic exactly when the name lacks `.set`; a mismatch diagnostic exactly when the set name differs from the task name; every diagnostic is one of these two exact values |
| Check.IncludeDiagnostics | test/check.py:132-153 | at most three diagnostics, only of the directory, extension and set-name kinds; the wrong-directory one exactly when the expected directory exists and differs from the include's; not-a-set-file exactly when the name lacks `.set`; the mismatch exactly when the set name differs from the task name; every diagnostic is one of these three exact values |
| Check.IncludesDiagnostics | test/check.py:127-153 | a number of includes other than one gives exactly the one multiplicity diagnostic and no directory, extension or name diagnostic |
| Check.TaskDiagnostics | test/check.py:119-155 | the check of a task raises exactly when its single include has no text |
| Check.TaskDiagnosticsCases | test/check.py:121-155 | missing-name, multiplicity and option diagnostics each appear exactly when their condition holds, independently of the others; with a number of includes other than one these three are the only diagnostics |
| Check.TaskIncludeCases | test/check.py:127-153 | for a task with one include, the directory, extension and set-name diagnostics each appear exactly when their condition holds, and nothing but these and the missing-name and option diagnostics is reported |
| Check.SetNameExtendingTaskName | test/check.py:147-153 | a set file `nX.set` for the task `n` is reported with set name `nX`, as `Overflowing.set` is for `Overflow` |
| Check.ConsistentIncludeIsClean | test/check.py:132-153 | an include `dir/n.set` for the task `n` with a passing directory check gets no diagnostic |
| Check.ConsistentTaskIsClean | test/check.py:120-155 | a named task with one consistent include, no option and a passing directory check gets no diagnostic |
| Check.CollectMembers | test/check.py:119-157 | the loop over tasks raises exactly when a task does, with the first task's error; otherwise it reports every diagnostic of every task and nothing else |
| Check.CollectClean | test/check.py:119-157 | the loop reports nothing exactly when every task raises nothing and gets no diagnostic |
| Check.CheckDirectory | test/check.py:133-142 | the appends of the directory check give its diagnostics |
| Check.CheckSetFile | test/check.py:143-153 | the appends of the extension and set-name checks give their diagnostics |
| Check.CheckInclude | test/check.py:132-153 | the appends for an include give its diagnostics |
| Check.CheckTask | test/check.py:120-155 | the appends for one task give its diagnostics, or the error of an include without text |
| Xml.IterMembers | test/check.py:105-107 | `iter` finds exactly the nodes of the tree with the tag |
| Check.Tasks | test/check.py:105-107 | the elements found are exactly the `<tasks>` elements anywhere in the document |
| Check.CheckTaskDefsMatchSet | test/check.py:110-157 | the loop over all tasks of the document gives the concatenated diagnostics, or the first error |
| Check.GetBaseCategoriesParticipating | test/check.py:160-185 | the loop and the set updates compute the resolver's set |
| Check.BaseCategories | test/check.py:160-185 | every opt-in is in the result, and nothing else is unless a considered meta-category naming the verifier lists it |
| Check.BaseCategoriesMembers | test/check.py:160-185 | a name is in the result exactly when it is an opt-in, or it is listed by a considered meta-category naming the verifier and is neither a meta-category key nor an excluded opt-out |
| Check.BaseCategoriesBounds | test/check.py:180-185 | every opt-in is in the result; with opt-outs excluded, no opt-out is in it unless it is an opt-in; no meta-category key is in it unless it is an opt-in |
| Check.OptedOutMetaCategoryIgnored | test/check.py:172-175 | with opt-outs excluded, an opted-out meta-category contributes nothing, whatever its contents |
| Check.IncludeTextsMembers | test/check.py:202-206 | collecting the include texts raises exactly when an include has no text; otherwise the texts are exactly those of the includes |
| Check.SetFileNames | test/check.py:202-206 | Ok exactly when every include has text, the `Path(None)` error otherwise; the result holds exactly the file names of the include texts |
| Check.AllIncludes | test/check.py:202-205 | every node collected is an `<includesfile>` element |
| Check.AllIncludesMembers | test/check.py:202-205 | a node is collected exactly when it is an `<includesfile>` child of one of the tasks |
| Check.CategoriesIncluded | test/check.py:207 | the result holds exactly the categories of the set files, and there are never more categories than set files |
| Check.CompletenessDiagnostics | test/check.py:212-223 | at most one diagnostic: no-entry exactly when nothing is expected; surplus, with the included sets not expected, exactly when more are included than expected; none exactly when the expected sets outside the allowlist are all included and the count does not exceed; otherwise the missing-includes report of the expected sets neither included nor allowlisted |
| Check.CleanMeansCovered | test/check.py:212-223 | a clean result means something is expected and every expected set outside the allowlist is included |
| Check.ExactIsClean | test/check.py:212-223 | including exactly the expected sets is clean |
| Check.SurplusHiddenByCount | test/check.py:215-217 | an unexpected set goes unreported when an allowlisted expected set is missing and the counts agree |
| Check.CompletenessExamples | test/check.py:212-223 | one surplus case and one missing case with their exact diagnostics |
| Check.AllSetsUsed | test/check.py:198-223 | raises exactly when an include of some task lacks text, as `Path(None)` does; otherwise the result is the completeness decision on the categories of the included set files against the verifier's base categories without opt-out exclusion; at most one diagnostic; a clean result means every expected category outside the allowlist is among the included ones |
| Check.Diagnostics | test/check.py:226-239 | a parse failure gives only its diagnostic; without the tasks directory or with `validate` in the name the result is that of the task checks; otherwise the task diagnostics come first and the completeness check's result is appended (its error propagating), and a task error propagates |
| Check.PerformChecks | test/check.py:226-239 | a parse failure gives only its diagnostic; without the tasks directory or with `validate` in the name only the task checks run, otherwise the completeness check's result is appended to theirs; every diagnostic of every task is reported |
| Check.CheckBenchDef | test/check.py:242-249 | the file passes exactly when its checks give no diagnostic; a parse failure never passes; the checks' error propagates |
| Check.VerifiersInCategory | test/check.py:298-302 | an unknown category gives no files; otherwise one `v.xml` per listed verifier, in order |
| Check.VerifiersInCategoryRoundTrip | test/check.py:298-302 | the verifier name of a listed file is the listed verifier |
| Check.UnusedVerifiers | test/check.py:305-308 | the `not_participating` list, or none when the key is absent |
| Check.Skipped | test/check.py:325-330 | a directory is always skipped, as is a file of an unmaintained verifier; any other file is checked |
| Check.TasksDirFor | test/check.py:331-334 | the tasks directory is `java` for the file `v.xml` of a `JavaOverall` verifier `v`, `c` otherwise |
| Check.Outcome | test/check.py:324-336 | a skipped file passes; a checked file passes exactly when its checks find nothing, and raises exactly when they raise, with their error |
| Check.AllOfMeaning | test/check.py:319-338 | the `&=` fold raises exactly when some file raises, with the first such error; otherwise it is true exactly when every file passes |
| Check.RunChecks | test/check.py:311-338 | the loop of `main` ends with the fold's error or with exit code 0 exactly when the fold is true |

## Left out

- Reading files, YAML loading, XML parsing and serialisation are done by the libraries. The document is a parameter; `tostring` is the `serialize` parameter of `PurgeCategories`.
- The comment-keeping tree builder, `_check_valid` and `DTDResolver` (DTD download and cache) are left out. A failed parse or DTD validation is the `parseError` field of `BenchDef`.
- `Path.resolve()`, `exists()` and `is_dir()` are functions of the `FileSystem` parameter; no real file system is modelled.
- Command-line handling (`parse_cli`, `parse_args`) is not modelled. Neither are `get_c_verifiers`, `participates_as_c_verifier` (a directory listing), `_get_tool_xml_extension` (a file read), or the template substitution and file write of `handle_verifier_data`.
- Logging and colours (`addColor`, `error`, `info`) are left out, including the "skip" and "tasks directory missing" messages and the generator's note on an ignored meta-category. The model returns those meta-categories instead.
- Diagnostics are datatype values carrying the values the messages print. The message texts themselves are not modelled.
- YAML values are modelled with their expected types (strings and lists of strings). Other types and a missing `categories`, `opt_in` or `opt_out` key are not modelled. A null `opt_in` or `opt_out` table is modelled; a null `not_participating` is not.
- `RemoveTasks` and `PruneDocument` work on sequences of child nodes. In-place `remove` on shared element objects, and so aliasing between the tree and the tools' other references to it, is not modelled.
- TaskDiagnostics: its own contract states only when a task raises; what it reports is stated by `TaskDiagnosticsCases` (missing name, number of includes, options) and `TaskIncludeCases` (directory, extension and set name of a single include).
- A meta-category entry without a `verifiers` or `categories` key raises KeyError in both tools; the `MetaCategory` datatype always has both fields, so that error path is not modelled.
- `doc/rules.php`, `scripts/parseInitConfig.py` and `string-tests/java-strings/IndexOfTest/Main.java` are not part of this model.

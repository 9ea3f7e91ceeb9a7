/**
 * The parts of Python's `pathlib.PurePosixPath` that the checker uses on the
 * `includesfile` text and on file names: `name`, `parent` and `/`.
 * Resolving a path against the file system is not a string operation and
 * is left to the `FileSystem` record of the checker.
 */
module Paths {
  import opened Strings

  /** A path component that pathlib keeps: not empty and not `.`. */
  predicate IsPart(x: string) {
    x != "" && x != "."
  }

  /** The components of `pieces` that pathlib keeps, in order. */
  function KeptParts(pieces: seq<string>): (r: seq<string>)
    ensures forall i :: 0 <= i < |r| ==> IsPart(r[i])
    ensures forall x :: x in r <==> x in pieces && IsPart(x)
  {
    if pieces == [] then []
    else (if IsPart(pieces[0]) then [pieces[0]] else []) + KeptParts(pieces[1..])
  }

  lemma {:induction false} KeptPartsAppend(a: seq<string>, b: seq<string>)
    ensures KeptParts(a + b) == KeptParts(a) + KeptParts(b)
    decreases |a|
  {
    if a != [] {
      assert (a + b)[0] == a[0] && (a + b)[1..] == a[1..] + b;
      KeptPartsAppend(a[1..], b);
    } else {
      assert a + b == b;
    }
  }

  /** The components of a path (`PurePosixPath(p).parts` without the root). */
  function Parts(p: string): (r: seq<string>)
    ensures forall i :: 0 <= i < |r| ==> IsPart(r[i]) && '/' !in r[i]
  {
    KeptParts(Split(p, '/'))
  }

  predicate IsAbsolute(p: string) {
    |p| > 0 && p[0] == '/'
  }

  /** The string pathlib prints for a path with the given root and components. */
  function PathString(absolute: bool, parts: seq<string>): string {
    if absolute then "/" + Join(parts, '/')
    else if parts == [] then "."
    else Join(parts, '/')
  }

  /** `PurePosixPath(p).name`: the last component, or "" when there is none. */
  function Name(p: string): (r: string)
    ensures '/' !in r
    ensures r != "" ==> r in Parts(p)
  {
    var parts := Parts(p);
    if parts == [] then "" else Last(parts)
  }

  /** `PurePosixPath(p).parent`: the path without its last component. */
  function Parent(p: string): string {
    var parts := Parts(p);
    PathString(IsAbsolute(p), if parts == [] then [] else parts[..|parts| - 1])
  }

  /** `PurePosixPath(a) / b`: an absolute `b` replaces `a`. */
  function JoinPath(a: string, b: string): string {
    if IsAbsolute(b) then PathString(true, Parts(b))
    else PathString(IsAbsolute(a), Parts(a) + Parts(b))
  }

  /** The name of `dir/file` is `file` whenever `file` is a proper component. */
  lemma NameOfFile(dir: string, file: string)
    requires IsPart(file) && '/' !in file
    ensures Name(dir + "/" + file) == file
  {
    SplitAround(dir, file, '/');
    assert dir + "/" + file == dir + ['/'] + file;
    KeptPartsAppend(Split(dir, '/'), [file]);
    assert KeptParts([file]) == [file];
  }
}

/**
 * The handful of Python `str` operations the two tools use: `split` on one
 * character, `join`, `split(sep)[0]` on a longer separator, `startswith`,
 * `endswith`, `in` and negative-end slicing.
 */
module Strings {

  /** `prefix` is a prefix of `s` (`s.startswith(prefix)`). */
  predicate StartsWith(s: string, prefix: string) {
    |prefix| <= |s| && s[..|prefix|] == prefix
  }

  /** `s.endswith(suffix)`. */
  predicate EndsWith(s: string, suffix: string) {
    |suffix| <= |s| && s[|s| - |suffix|..] == suffix
  }

  /** `sep` occurs in `s` starting at index `i`. */
  predicate OccursAt(s: string, sep: string, i: int) {
    0 <= i && i + |sep| <= |s| && s[i..i + |sep|] == sep
  }

  /** `sub in s`. */
  predicate Contains(s: string, sub: string) {
    exists i :: 0 <= i <= |s| && OccursAt(s, sub, i)
  }

  /** The last element of a non-empty sequence (Python's `xs[-1]`). */
  function Last<T>(xs: seq<T>): T
    requires |xs| > 0
  {
    xs[|xs| - 1]
  }

  /** Python's `s[:-k]` for a positive `k`: the empty string when `s` is shorter than `k`. */
  function DropLast(s: string, k: nat): (r: string)
    requires k > 0
    ensures |s| >= k ==> |r| == |s| - k && r <= s
    ensures |s| < k ==> r == ""
  {
    if |s| >= k then s[..|s| - k] else ""
  }

  /**
   * Python's `s.split(c)` for a one-character separator: the pieces between
   * the occurrences of `c`, always at least one.
   */
  function Split(s: string, c: char): (r: seq<string>)
    ensures |r| >= 1
    ensures c !in s <==> r == [s]
    ensures c in s ==> |r| >= 2
    ensures forall i :: 0 <= i < |r| ==> c !in r[i]
    decreases |s|
  {
    if s == [] then [""]
    else
      var rest := Split(s[1..], c);
      assert s == [s[0]] + s[1..];
      if s[0] == c then [""] + rest
      else [[s[0]] + rest[0]] + rest[1..]
  }

  /** Python's `c.join(pieces)`. */
  function Join(pieces: seq<string>, c: char): string
  {
    if |pieces| == 0 then ""
    else if |pieces| == 1 then pieces[0]
    else pieces[0] + [c] + Join(pieces[1..], c)
  }

  /** A joined line starts with its first piece. */
  lemma JoinStartsWithFirst(pieces: seq<string>, c: char)
    requires pieces != []
    ensures StartsWith(Join(pieces, c), pieces[0])
  {
    if |pieces| > 1 {
      var rest := [c] + Join(pieces[1..], c);
      assert Join(pieces, c) == pieces[0] + rest;
      assert (pieces[0] + rest)[..|pieces[0]|] == pieces[0];
    }
  }

  /** Splitting at a separator placed between `a` and `b` splits `a` and `b` apart. */
  lemma {:induction false} SplitAround(a: string, b: string, c: char)
    ensures Split(a + [c] + b, c) == Split(a, c) + Split(b, c)
    decreases |a|
  {
    var s := a + [c] + b;
    if a == [] {
      assert s[0] == c && s[1..] == b;
    } else {
      assert s[0] == a[0] && s[1..] == a[1..] + [c] + b;
      SplitAround(a[1..], b, c);
    }
  }

  /** Joining the pieces of a split gives back the string. */
  lemma {:induction false} JoinSplit(s: string, c: char)
    ensures Join(Split(s, c), c) == s
    decreases |s|
  {
    if s != [] {
      var rest := Split(s[1..], c);
      JoinSplit(s[1..], c);
      if s[0] == c {
        assert Split(s, c) == [""] + rest;
        assert ([""] + rest)[1..] == rest;
      } else {
        var r := Split(s, c);
        assert r == [[s[0]] + rest[0]] + rest[1..];
        if |rest| > 1 {
          assert r[1..] == rest[1..];
        }
      }
    }
  }

  /** Splitting a join of pieces free of the separator gives back the pieces. */
  lemma {:induction false} SplitJoin(pieces: seq<string>, c: char)
    requires |pieces| >= 1
    requires forall i :: 0 <= i < |pieces| ==> c !in pieces[i]
    ensures Split(Join(pieces, c), c) == pieces
    decreases |pieces|
  {
    if |pieces| > 1 {
      SplitJoin(pieces[1..], c);
      SplitAround(pieces[0], Join(pieces[1..], c), c);
      assert pieces == [pieces[0]] + pieces[1..];
    }
  }

  /**
   * Python's `s.split(sep)[0]` for a non-empty separator: `s` up to the first
   * occurrence of `sep`, or all of `s` when there is none.
   */
  function FirstPiece(s: string, sep: string): (r: string)
    requires sep != []
    ensures r <= s
    ensures forall i :: 0 <= i < |r| ==> !OccursAt(s, sep, i)
    ensures |r| < |s| ==> OccursAt(s, sep, |r|)
    decreases |s|
  {
    if |s| < |sep| then s
    else if s[..|sep|] == sep then ""
    else
      var r' := FirstPiece(s[1..], sep);
      forall i | 1 <= i
        ensures OccursAt(s, sep, i) <==> OccursAt(s[1..], sep, i - 1)
      {
        if i + |sep| <= |s| {
          assert s[i..i + |sep|] == s[1..][i - 1..i - 1 + |sep|];
        }
      }
      [s[0]] + r'
  }

  /** When the separator's first character is absent from `x`, the first piece of `x + sep + rest` is `x`. */
  lemma FirstPieceBefore(x: string, sep: string, rest: string)
    requires sep != [] && sep[0] !in x
    ensures FirstPiece(x + sep + rest, sep) == x
  {
    var s := x + sep + rest;
    var r := FirstPiece(s, sep);
    assert OccursAt(s, sep, |x|) by {
      assert s[|x|..|x| + |sep|] == sep;
    }
    assert r == x;
  }

  /** A join of two or more pieces ends with the separator and the last piece. */
  lemma {:induction false} JoinLast(pieces: seq<string>, c: char)
    requires |pieces| >= 2
    ensures Join(pieces, c) == Join(pieces[..|pieces| - 1], c) + [c] + Last(pieces)
    decreases |pieces|
  {
    if |pieces| > 2 {
      JoinLast(pieces[1..], c);
      assert pieces[1..][..|pieces| - 2] == pieces[..|pieces| - 1][1..];
    }
  }

  /**
   * The last piece of `s.split(c)` (Python's `[-1]`) is the part of `s`
   * after its last `c`: a suffix free of `c`, preceded by `c` unless it is
   * all of `s`.
   */
  lemma LastPieceOfSplit(s: string, c: char)
    ensures var l := Last(Split(s, c));
      c !in l && EndsWith(s, l) && (|l| < |s| ==> s[|s| - |l| - 1] == c)
  {
    var pieces := Split(s, c);
    JoinSplit(s, c);
    if |pieces| >= 2 {
      JoinLast(pieces, c);
      var init := Join(pieces[..|pieces| - 1], c);
      assert s == init + [c] + Last(pieces);
      assert s[|s| - |Last(pieces)|..] == Last(pieces);
      assert s[|s| - |Last(pieces)| - 1] == c;
    }
  }

  /** When `sep` first occurs at `k`, the first piece is everything before `k`. */
  lemma FirstPieceAt(s: string, sep: string, k: int)
    requires sep != [] && OccursAt(s, sep, k)
    requires forall i :: 0 <= i < k ==> !OccursAt(s, sep, i)
    ensures FirstPiece(s, sep) == s[..k]
  {
    var r := FirstPiece(s, sep);
    assert |r| < |s| ==> OccursAt(s, sep, |r|);
    assert !(|r| < k && OccursAt(s, sep, |r|));
    assert |r| == k;
  }

  /** A string that does not occur in `a + b` does not occur in `b`. */
  lemma AbsentFromSuffix(a: string, b: string, sub: string)
    requires !Contains(a + b, sub)
    ensures !Contains(b, sub)
  {
    forall i | 0 <= i <= |b| ensures !OccursAt(b, sub, i) {
      if i + |sub| <= |b| {
        assert (a + b)[|a| + i..|a| + i + |sub|] == b[i..i + |sub|];
        assert !OccursAt(a + b, sub, |a| + i);
      }
    }
  }
}

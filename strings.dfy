/**
 * The string built-ins of JavaScript that the core relies on: `split` with a
 * one-character separator (with `join`, its inverse) and `trim`. Both are
 * defined by positions in the input rather than by repeated slicing.
 */
module Strings {

  /** The first position at or after `from` that holds `sep`, or the length when there is none. */
  function NextIndex(s: string, sep: char, from: nat): (i: nat)
    requires from <= |s|
    ensures from <= i <= |s|
    ensures i < |s| ==> s[i] == sep
    decreases |s| - from
  {
    if from == |s| || s[from] == sep then from else NextIndex(s, sep, from + 1)
  }

  /** No separator is skipped: the position found is the first one. */
  lemma {:induction false} NextIndexFirst(s: string, sep: char, from: nat)
    requires from <= |s|
    ensures forall j :: from <= j < NextIndex(s, sep, from) ==> s[j] != sep
    decreases |s| - from
  {
    if from < |s| && s[from] != sep {
      NextIndexFirst(s, sep, from + 1);
    }
  }

  /** Past the last separator, the search runs to the end. */
  lemma NextIndexAbsent(s: string, sep: char, from: nat)
    requires from <= |s| && forall j :: from <= j < |s| ==> s[j] != sep
    ensures NextIndex(s, sep, from) == |s|
  {
  }

  /** In `a + [sep] + b` with no separator in `a`, the first separator is the one after `a`. */
  lemma NextIndexAfter(a: string, sep: char, b: string)
    requires sep !in a
    ensures NextIndex(a + [sep] + b, sep, 0) == |a|
  {
    var s := a + [sep] + b;
    assert s[|a|] == sep;
    NextIndexFirst(s, sep, 0);
    assert forall j :: 0 <= j < |a| ==> s[j] == a[j];
  }

  /** The pieces of `s[from..]` between consecutive separators, in order. */
  function SplitFrom(s: string, sep: char, from: nat): (parts: seq<string>)
    requires from <= |s|
    ensures |parts| >= 1
    ensures |parts| == 1 <==> NextIndex(s, sep, from) == |s|
    ensures parts[0] == s[from..NextIndex(s, sep, from)]
    decreases |s| - from
  {
    var i := NextIndex(s, sep, from);
    if i == |s| then [s[from..]] else [s[from..i]] + SplitFrom(s, sep, i + 1)
  }

  /**
   * `s.split(sep)`: always at least one piece; the first piece runs up to the
   * first separator.
   */
  function Split(s: string, sep: char): (parts: seq<string>)
    ensures |parts| >= 1
    ensures parts[0] == s[..NextIndex(s, sep, 0)]
  {
    SplitFrom(s, sep, 0)
  }

  /** A split has more than one piece exactly when the separator occurs. */
  lemma SplitCount(s: string, sep: char)
    ensures |Split(s, sep)| == 1 <==> sep !in s
  {
    NextIndexFirst(s, sep, 0);
    assert sep in s ==> NextIndex(s, sep, 0) < |s|;
  }

  /** `parts.join(sep)` for a non-empty list of parts. */
  function Join(parts: seq<string>, sep: char): string
    requires |parts| >= 1
    decreases |parts|
  {
    if |parts| == 1 then parts[0] else parts[0] + [sep] + Join(parts[1..], sep)
  }

  /** The second piece, when there is one, starts just after the first separator. */
  lemma SplitSecond(s: string, sep: char)
    requires sep in s
    ensures var i := NextIndex(s, sep, 0);
      i < |s| && |Split(s, sep)| >= 2 && Split(s, sep)[1] == s[i + 1..NextIndex(s, sep, i + 1)]
  {
    var i := NextIndex(s, sep, 0);
    SplitCount(s, sep);
    assert Split(s, sep) == [s[..i]] + SplitFrom(s, sep, i + 1);
  }

  /** A first piece free of the separator, followed by the separator or by nothing, is the first piece. */
  lemma SplitFirst(a: string, sep: char, b: string)
    requires sep !in a && (b == [] || b[0] == sep)
    ensures Split(a + b, sep)[0] == a
  {
    var s := a + b;
    if b == [] {
      assert s == a;
      NextIndexAbsent(s, sep, 0);
    } else {
      assert s == a + [sep] + b[1..];
      NextIndexAfter(a, sep, b[1..]);
    }
    assert s[..|a|] == a;
  }

  /** No piece of a split contains the separator. */
  lemma {:induction false} SplitFromPiecesFree(s: string, sep: char, from: nat)
    requires from <= |s|
    ensures forall k :: 0 <= k < |SplitFrom(s, sep, from)| ==> sep !in SplitFrom(s, sep, from)[k]
    decreases |s| - from
  {
    var i := NextIndex(s, sep, from);
    var head := s[from..i];
    assert sep !in head by {
      NextIndexFirst(s, sep, from);
      assert forall j :: 0 <= j < |head| ==> head[j] == s[from + j];
    }
    if i < |s| {
      SplitFromPiecesFree(s, sep, i + 1);
      var rest := SplitFrom(s, sep, i + 1);
      assert SplitFrom(s, sep, from) == [head] + rest;
    }
  }

  lemma SplitPiecesFree(s: string, sep: char)
    ensures forall k :: 0 <= k < |Split(s, sep)| ==> sep !in Split(s, sep)[k]
  {
    SplitFromPiecesFree(s, sep, 0);
  }

  /** Joining a piece in front of other pieces puts the separator between them. */
  lemma JoinCons(parts: seq<string>, head: string, rest: seq<string>, sep: char)
    requires |rest| >= 1 && parts == [head] + rest
    ensures Join(parts, sep) == head + [sep] + Join(rest, sep)
  {
    assert parts[1..] == rest;
  }

  /** Joining the pieces of `s[from..]` gives `s[from..]` back. */
  lemma {:induction false} JoinSplitFrom(s: string, sep: char, from: nat)
    requires from <= |s|
    ensures Join(SplitFrom(s, sep, from), sep) == s[from..]
    decreases |s| - from
  {
    var i := NextIndex(s, sep, from);
    if i < |s| {
      JoinSplitFrom(s, sep, i + 1);
      JoinSplitStep(s, sep, from);
    } else {
      JoinSplitLast(s, sep, from);
    }
  }

  /** The last piece, with no separator after it, is the rest of the string. */
  lemma JoinSplitLast(s: string, sep: char, from: nat)
    requires from <= |s| && NextIndex(s, sep, from) == |s|
    ensures Join(SplitFrom(s, sep, from), sep) == s[from..]
  {
    assert SplitFrom(s, sep, from) == [s[from..]];
  }

  /** One piece and its separator put back in front of the rest. */
  lemma JoinSplitStep(s: string, sep: char, from: nat)
    requires from <= |s|
    requires var i := NextIndex(s, sep, from);
      i < |s| && Join(SplitFrom(s, sep, i + 1), sep) == s[i + 1..]
    ensures Join(SplitFrom(s, sep, from), sep) == s[from..]
  {
    var i := NextIndex(s, sep, from);
    SplitFromCons(s, sep, from);
    JoinCons(SplitFrom(s, sep, from), s[from..i], SplitFrom(s, sep, i + 1), sep);
    SliceAround(s, from, i, sep);
  }

  lemma SplitFromCons(s: string, sep: char, from: nat)
    requires from <= |s| && NextIndex(s, sep, from) < |s|
    ensures var i := NextIndex(s, sep, from);
      SplitFrom(s, sep, from) == [s[from..i]] + SplitFrom(s, sep, i + 1)
  {
  }

  lemma SliceAround(s: string, from: nat, i: nat, c: char)
    requires from <= i < |s| && s[i] == c
    ensures s[from..] == s[from..i] + [c] + s[i + 1..]
  {
  }

  /** Joining the pieces of a split gives the string back. */
  lemma JoinSplit(s: string, sep: char)
    ensures Join(Split(s, sep), sep) == s
  {
    JoinSplitFrom(s, sep, 0);
  }

  /**
   * White space and line terminators in the sense of ECMAScript, the characters
   * `String.prototype.trim` removes: TAB, VT, FF, SP, NBSP, ZWNBSP, the other
   * space separators (U+1680, U+2000 to U+200A, U+202F, U+205F, U+3000),
   * LF, CR, LINE SEPARATOR and PARAGRAPH SEPARATOR.
   */
  predicate IsWhitespace(c: char) {
    c == '\t' || c == '\n' || c == '\U{B}' || c == '\U{C}' || c == '\r' || c == ' '
    || c == '\U{A0}' || c == '\U{1680}' || ('\U{2000}' <= c <= '\U{200A}')
    || c == '\U{2028}' || c == '\U{2029}' || c == '\U{202F}' || c == '\U{205F}'
    || c == '\U{3000}' || c == '\U{FEFF}'
  }

  predicate AllWhitespace(s: string) {
    forall i :: 0 <= i < |s| ==> IsWhitespace(s[i])
  }

  /** The first position at or after `from` that is not white space, or the length. */
  function SkipWhitespace(s: string, from: nat): (i: nat)
    requires from <= |s|
    ensures from <= i <= |s|
    ensures forall j :: from <= j < i ==> IsWhitespace(s[j])
    ensures i < |s| ==> !IsWhitespace(s[i])
    decreases |s| - from
  {
    if from == |s| || !IsWhitespace(s[from]) then from else SkipWhitespace(s, from + 1)
  }

  /** The end of `s[start..end]` once its trailing white space is dropped. */
  function TrimmedEnd(s: string, start: nat, end: nat): (e: nat)
    requires start <= end <= |s|
    ensures start <= e <= end
    ensures forall j :: e <= j < end ==> IsWhitespace(s[j])
    ensures e > start ==> !IsWhitespace(s[e - 1])
    decreases end - start
  {
    if end == start || !IsWhitespace(s[end - 1]) then end else TrimmedEnd(s, start, end - 1)
  }

  /**
   * `s.trim()`: the slice between the leading and the trailing white space;
   * it neither starts nor ends with white space.
   */
  function Trim(s: string): (r: string)
    ensures r == [] || (!IsWhitespace(r[0]) && !IsWhitespace(r[|r| - 1]))
  {
    var a := SkipWhitespace(s, 0);
    s[a..TrimmedEnd(s, a, |s|)]
  }

  /** Everything trimming removes is white space. */
  lemma TrimRemovesWhitespace(s: string)
    ensures var a := SkipWhitespace(s, 0); var e := TrimmedEnd(s, a, |s|);
      Trim(s) == s[a..e]
      && (forall j :: 0 <= j < a ==> IsWhitespace(s[j]))
      && (forall j :: e <= j < |s| ==> IsWhitespace(s[j]))
  {
  }

  /** The trimmed text is empty exactly when the input is all white space. */
  lemma TrimEmpty(s: string)
    ensures Trim(s) == [] <==> AllWhitespace(s)
  {
  }

  /** Trimming twice is trimming once. */
  lemma TrimIdempotent(s: string)
    ensures Trim(Trim(s)) == Trim(s)
  {
    var r := Trim(s);
    if r != [] {
      assert SkipWhitespace(r, 0) == 0;
      assert TrimmedEnd(r, 0, |r|) == |r|;
      assert r[0..|r|] == r;
    }
  }
}

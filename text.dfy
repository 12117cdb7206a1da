// Character classes and string operations over seq<char> that the modelled
// code takes from Python's str and re modules and from .NET's System.String.

module Text {
  import opened Wrappers

  predicate IsAsciiDigit(c: char) { '0' <= c <= '9' }

  predicate IsAsciiUpper(c: char) { 'A' <= c <= 'Z' }

  predicate IsAsciiLetter(c: char) { 'a' <= c <= 'z' || IsAsciiUpper(c) }

  /** Python's `\w`, restricted to ASCII: a letter, a digit or an underscore. */
  predicate IsWordChar(c: char) { IsAsciiLetter(c) || IsAsciiDigit(c) || c == '_' }

  /** Python's `str.isspace()`, which is also what `\s` and `str.strip()` use. */
  predicate IsPySpace(c: char)
  {
    c == ' ' || ('\t' <= c <= '\r') || ('\U{1C}' <= c <= '\U{1F}') || c == '\U{85}' || c == '\U{A0}'
    || c == '\U{1680}' || ('\U{2000}' <= c <= '\U{200A}') || c == '\U{2028}' || c == '\U{2029}'
    || c == '\U{202F}' || c == '\U{205F}' || c == '\U{3000}'
  }

  /** .NET's `Char.IsWhiteSpace`: like Python's set but without U+001C..U+001F. */
  predicate IsDotNetWhiteSpace(c: char)
  {
    c == ' ' || ('\t' <= c <= '\r') || c == '\U{85}' || c == '\U{A0}'
    || c == '\U{1680}' || ('\U{2000}' <= c <= '\U{200A}') || c == '\U{2028}' || c == '\U{2029}'
    || c == '\U{202F}' || c == '\U{205F}' || c == '\U{3000}'
  }

  /** `sub` occurs in `s` starting at index `i`. */
  predicate OccursAt(s: string, sub: string, i: int)
  {
    0 <= i && i + |sub| <= |s| && s[i..i + |sub|] == sub
  }

  /** An occurrence in `s[1..]` is an occurrence in `s` one position later. */
  lemma OccursShift(s: string, sub: string, j: int)
    requires |s| > 0 && 0 <= j
    ensures OccursAt(s[1..], sub, j) <==> OccursAt(s, sub, j + 1)
  {
    if j + 1 + |sub| <= |s| {
      assert s[1..][j..j + |sub|] == s[j + 1..j + 1 + |sub|];
    }
  }

  /** Substring test (`sub in s` in Python, `s.Contains(sub)` in C#, ordinal). */
  function Contains(s: string, sub: string): (b: bool)
    ensures b <==> exists i :: OccursAt(s, sub, i)
    decreases |s|
  {
    if |s| < |sub| then
      false
    else if sub <= s then
      assert OccursAt(s, sub, 0);
      true
    else
      var rest := Contains(s[1..], sub);
      if rest then
        var j :| OccursAt(s[1..], sub, j);
        OccursShift(s, sub, j);
        true
      else
        assert forall i :: !OccursAt(s, sub, i) by {
          forall i ensures !OccursAt(s, sub, i) {
            if 1 <= i { OccursShift(s, sub, i - 1); }
          }
        }
        false
  }

  /** Python's `s.replace(pat, rep)`: every non-overlapping occurrence, left to right. */
  function ReplaceAll(s: string, pat: string, rep: string): string
    decreases |s|
  {
    if pat == [] then
      (if s == [] then rep else rep + [s[0]] + ReplaceAll(s[1..], pat, rep))
    else if |s| < |pat| then s
    else if pat <= s then rep + ReplaceAll(s[|pat|..], pat, rep)
    else [s[0]] + ReplaceAll(s[1..], pat, rep)
  }

  /** Replacing a non-empty text that does not occur leaves the string as it is. */
  lemma {:induction false} ReplaceAbsent(s: string, pat: string, rep: string)
    requires pat != [] && !Contains(s, pat)
    ensures ReplaceAll(s, pat, rep) == s
    decreases |s|
  {
    if |s| >= |pat| {
      assert !OccursAt(s, pat, 0);
      forall j | 0 <= j ensures !OccursAt(s[1..], pat, j) {
        OccursShift(s, pat, j);
      }
      ReplaceAbsent(s[1..], pat, rep);
    }
  }

  /** Python's `s.split(c)` for a one-character separator. */
  function SplitOn(s: string, c: char): (parts: seq<string>)
    ensures |parts| >= 1
    decreases |s|
  {
    if s == [] then [""]
    else if s[0] == c then [""] + SplitOn(s[1..], c)
    else
      var r := SplitOn(s[1..], c);
      [[s[0]] + r[0]] + r[1..]
  }

  /** Python's `c.join(parts)`. */
  function JoinWith(parts: seq<string>, c: char): string
    decreases |parts|
  {
    if parts == [] then ""
    else if |parts| == 1 then parts[0]
    else parts[0] + [c] + JoinWith(parts[1..], c)
  }

  /** Joining the pieces of a split gives back the original text. */
  lemma {:induction false} JoinSplit(s: string, c: char)
    ensures JoinWith(SplitOn(s, c), c) == s
    decreases |s|
  {
    if s != [] {
      JoinSplit(s[1..], c);
      if s[0] != c {
        var r := SplitOn(s[1..], c);
        if |r| > 1 {
          assert JoinWith(r, c) == r[0] + [c] + JoinWith(r[1..], c);
        }
      }
    }
  }

  /** No piece of a split contains the separator. */
  lemma {:induction false} SplitPiecesFree(s: string, c: char)
    ensures forall k :: 0 <= k < |SplitOn(s, c)| ==> c !in SplitOn(s, c)[k]
    decreases |s|
  {
    if s != [] {
      SplitPiecesFree(s[1..], c);
    }
  }

  /** A text without the separator splits into itself alone. */
  lemma {:induction false} SplitNoSeparator(w: string, c: char)
    requires c !in w
    ensures SplitOn(w, c) == [w]
    decreases |w|
  {
    if w != [] {
      SplitNoSeparator(w[1..], c);
      assert [w[0]] + w[1..] == w;
    }
  }

  /** Splitting after a separator-free first piece. */
  lemma {:induction false} SplitAfterPiece(w: string, x: string, c: char)
    requires c !in w
    ensures SplitOn(w + [c] + x, c) == [w] + SplitOn(x, c)
    decreases |w|
  {
    var s := w + [c] + x;
    if w == [] {
      assert s[1..] == x;
    } else {
      assert s[1..] == w[1..] + [c] + x;
      SplitAfterPiece(w[1..], x, c);
      assert [w[0]] + w[1..] == w;
    }
  }

  /** Splitting a join of separator-free pieces gives the pieces back. */
  lemma {:induction false} SplitJoin(parts: seq<string>, c: char)
    requires |parts| >= 1
    requires forall k :: 0 <= k < |parts| ==> c !in parts[k]
    ensures SplitOn(JoinWith(parts, c), c) == parts
    decreases |parts|
  {
    if |parts| == 1 {
      SplitNoSeparator(parts[0], c);
    } else {
      SplitJoin(parts[1..], c);
      SplitAfterPiece(parts[0], JoinWith(parts[1..], c), c);
    }
  }

  /** Replacing brings in no character that neither the text nor the replacement has. */
  lemma {:induction false} ReplaceKeepsOut(s: string, pat: string, rep: string, c: char)
    requires c !in s && c !in rep
    ensures c !in ReplaceAll(s, pat, rep)
    decreases |s|
  {
    if pat == [] {
      if s != [] { ReplaceKeepsOut(s[1..], pat, rep, c); }
    } else if |s| >= |pat| {
      if pat <= s {
        ReplaceKeepsOut(s[|pat|..], pat, rep, c);
      } else {
        ReplaceKeepsOut(s[1..], pat, rep, c);
      }
    }
  }

  /** Drops the leading characters that satisfy Python's `isspace`. */
  function TrimStartPy(s: string): (r: string)
    ensures |r| <= |s| && r == s[|s| - |r|..]
    ensures r == [] || !IsPySpace(r[0])
    ensures forall k :: 0 <= k < |s| - |r| ==> IsPySpace(s[k])
    decreases |s|
  {
    if s != [] && IsPySpace(s[0]) then TrimStartPy(s[1..]) else s
  }

  /** Drops the trailing characters that satisfy Python's `isspace`. */
  function TrimEndPy(s: string): (r: string)
    ensures |r| <= |s| && r == s[..|r|]
    ensures r == [] || !IsPySpace(r[|r| - 1])
    ensures forall k :: |r| <= k < |s| ==> IsPySpace(s[k])
    decreases |s|
  {
    if s != [] && IsPySpace(s[|s| - 1]) then TrimEndPy(s[..|s| - 1]) else s
  }

  /** No white space at either end. */
  predicate IsStripped(s: string) { s == [] || (!IsPySpace(s[0]) && !IsPySpace(s[|s| - 1])) }

  /** Python's `s.strip()` with no argument. */
  function StripPy(s: string): (r: string)
    ensures IsStripped(r)
  {
    TrimEndPy(TrimStartPy(s))
  }

  /** .NET's `String.Trim()`: `s` without the `Char.IsWhiteSpace` characters
      at either end. */
  function TrimDotNet(s: string): (r: string)
    ensures exists i :: OccursAt(s, r, i)
    ensures r == [] || (!IsDotNetWhiteSpace(r[0]) && !IsDotNetWhiteSpace(r[|r| - 1]))
    ensures (forall k :: 0 <= k < |s| ==> !IsDotNetWhiteSpace(s[k])) ==> r == s
    decreases |s|
  {
    if s == [] then
      assert OccursAt(s, s, 0);
      s
    else if IsDotNetWhiteSpace(s[0]) then
      var r := TrimDotNet(s[1..]);
      TrimmedPartShift(s, r);
      r
    else if IsDotNetWhiteSpace(s[|s| - 1]) then
      var r := TrimDotNet(s[..|s| - 1]);
      TrimmedPartDrop(s, s[..|s| - 1], r);
      r
    else
      assert OccursAt(s, s, 0);
      s
  }

  lemma TrimmedPartShift(s: string, r: string)
    requires s != [] && exists i :: OccursAt(s[1..], r, i)
    ensures exists i :: OccursAt(s, r, i)
  {
    var i :| OccursAt(s[1..], r, i);
    OccursShift(s, r, i);
  }

  lemma TrimmedPartDrop(s: string, t: string, r: string)
    requires s != [] && t == s[..|s| - 1] && exists i :: OccursAt(t, r, i)
    ensures exists i :: OccursAt(s, r, i)
  {
    var i :| OccursAt(t, r, i);
    assert t[i..i + |r|] == s[i..i + |r|];
    assert OccursAt(s, r, i);
  }

  /** One more white-space character at either end trims away. */
  lemma {:induction false} TrimDotNetPadded(s: string, c: char)
    requires IsDotNetWhiteSpace(c)
    ensures TrimDotNet([c] + s) == TrimDotNet(s)
    ensures TrimDotNet(s + [c]) == TrimDotNet(s)
    decreases |s|
  {
    assert ([c] + s)[1..] == s;
    var t := s + [c];
    if s == [] {
      assert t[..|t| - 1] == [];
    } else if IsDotNetWhiteSpace(s[0]) {
      assert t[1..] == s[1..] + [c];
      TrimDotNetPadded(s[1..], c);
    } else {
      assert t[..|t| - 1] == s;
    }
  }

  /** `n` copies of the character `c`. */
  function Repeat(c: char, n: nat): (r: string)
    ensures |r| == n && forall k :: 0 <= k < n ==> r[k] == c
  {
    if n == 0 then "" else [c] + Repeat(c, n - 1)
  }

  /** Python's `s.endswith(suffix)`. */
  predicate EndsWith(s: string, suffix: string)
  {
    |suffix| <= |s| && s[|s| - |suffix|..] == suffix
  }

  /** Python's `s.find(c)`: the first index of `c` in `s`, if any. */
  function IndexOfChar(s: string, c: char): (r: Option<nat>)
    ensures r.Some? ==> r.value < |s| && s[r.value] == c
    ensures r.Some? ==> forall k :: 0 <= k < r.value ==> s[k] != c
    ensures r.None? ==> forall k :: 0 <= k < |s| ==> s[k] != c
    decreases |s|
  {
    if s == [] then None
    else if s[0] == c then Some(0)
    else match IndexOfChar(s[1..], c)
      case None => None
      case Some(k) => Some(k + 1)
  }
}

// Pulling build errors out of a GitHub Actions log: the two `re.findall`
// scans of `extract_build_errors`, written as deterministic matchers, and the
// error records built from their matches.

module LogParser {
  import opened Wrappers
  import opened Text
  import opened DotNet
  import opened ErrorTaxonomy

  /** The characters of the class `[\w/\\.-]`. */
  predicate IsPathChar(c: char) { IsWordChar(c) || c == '/' || c == '\\' || c == '.' || c == '-' }

  /** Length of the longest prefix of `s` made of path characters. */
  function PathRun(s: string): (n: nat)
    ensures n <= |s|
    ensures forall k :: 0 <= k < n ==> IsPathChar(s[k])
    ensures n < |s| ==> !IsPathChar(s[n])
  {
    if s != [] && IsPathChar(s[0]) then 1 + PathRun(s[1..]) else 0
  }

  /** Length of the longest prefix of `s` made of ASCII digits. */
  function DigitRun(s: string): (n: nat)
    ensures n <= |s|
    ensures forall k :: 0 <= k < n ==> IsAsciiDigit(s[k])
    ensures n < |s| ==> !IsAsciiDigit(s[n])
  {
    if s != [] && IsAsciiDigit(s[0]) then 1 + DigitRun(s[1..]) else 0
  }

  /** A place where `(?:\r?\n|$)` matches: a line feed, a "\r\n", or the end. */
  predicate BreakAt(s: string, k: nat)
  {
    k == |s| || (k < |s| && s[k] == '\n') || (k + 1 < |s| && s[k] == '\r' && s[k + 1] == '\n')
  }

  /** Where the lazy `(.*?)` of a message stops: the first break. */
  function LineEnd(s: string): (k: nat)
    ensures k <= |s| && BreakAt(s, k)
    ensures forall j :: 0 <= j < k ==> !BreakAt(s, j)
  {
    if s == [] || s[0] == '\n' || (|s| > 1 && s[0] == '\r' && s[1] == '\n') then 0
    else
      var k := LineEnd(s[1..]);
      forall j | 0 <= j < 1 + k
        ensures !BreakAt(s, j)
      {
        if j > 0 {
          assert !BreakAt(s[1..], j - 1);
        }
      }
      1 + k
  }

  /** How many characters the break at `k` consumes. */
  function BreakLength(s: string, k: nat): (n: nat)
    requires k <= |s| && BreakAt(s, k)
    ensures k + n <= |s|
    ensures n == 0 <==> k == |s|
  {
    if k == |s| then 0 else if s[k] == '\n' then 1 else 2
  }

  /** The text of a message: no line feed and no "\r\n" inside. */
  predicate NoBreak(m: string) { forall j :: 0 <= j < |m| ==> !BreakAt(m, j) }

  /** A message that stays one line whatever follows it: no line feed, and no
      carriage return at its end that a following line feed would pair with. */
  predicate OneLine(m: string)
  {
    (forall j :: 0 <= j < |m| ==> m[j] != '\n') && (m == [] || m[|m| - 1] != '\r')
  }

  /** One match of `error (\w+): (.*?)(?:\r?\n|$)`: the two groups and the
      length of the whole match. */
  datatype Tail = Tail(code: string, message: string, consumed: nat)

  /** `error (\w+): (.*?)(?:\r?\n|$)` matched at the very start of `s`. */
  function CodeAndMessage(s: string): (r: Option<Tail>)
    ensures r.Some? ==> 8 + |r.value.code| + |r.value.message| <= r.value.consumed <= |s|
    ensures r.Some? ==> IsWord(r.value.code)
  {
    if !("error " <= s) then None
    else
      var t := s[6..];
      var w := RunLength(t, Word);
      if w == 0 || !(": " <= t[w..]) then None
      else
        var m := t[w + 2..];
        var k := LineEnd(m);
        Some(Tail(t[..w], m[..k], 8 + w + k + BreakLength(m, k)))
  }

  /** A match read back: the matched text is "error ", the code, ": " and
      the message, then a break; the message itself holds no break. */
  lemma CodeAndMessageSound(s: string)
    requires CodeAndMessage(s).Some?
    ensures var r := CodeAndMessage(s).value;
      s == "error " + r.code + ": " + r.message + s[8 + |r.code| + |r.message|..]
    ensures var r := CodeAndMessage(s).value;
      BreakAt(s, 8 + |r.code| + |r.message|) && NoBreak(r.message)
  {
    var t := s[6..];
    var w := RunLength(t, Word);
    var m := t[w + 2..];
    var k := LineEnd(m);
    assert s[8 + w..] == m;
    TextOfMatch(s, t, w, m, k);
    MessageBeforeBreak(m);
    assert CodeAndMessage(s).value.message == m[..k];
  }

  /** The text before the first break holds no break. */
  lemma MessageBeforeBreak(m: string)
    ensures NoBreak(m[..LineEnd(m)])
  {
    var k := LineEnd(m);
    forall j | 0 <= j < k
      ensures !BreakAt(m[..k], j)
    {
      assert !BreakAt(m, j);
    }
  }

  lemma TextOfMatch(s: string, t: string, w: nat, m: string, k: nat)
    requires "error " <= s && t == s[6..] && w + 2 <= |t| && t[w..w + 2] == ": " && m == t[w + 2..]
    requires k <= |m|
    ensures s == "error " + t[..w] + ": " + m[..k] + s[8 + w + k..]
  {
    var code, rest := t[..w], s[8 + w + k..];
    assert s == s[..6] + t;
    assert t == code + t[w..w + 2] + m;
    assert m == m[..k] + rest;
    Regroup("error ", code, ": ", m[..k], rest);
  }

  lemma Regroup(a: string, b: string, c: string, d: string, e: string)
    ensures a + (b + c + (d + e)) == a + b + c + d + e
  {
  }

  /** A one-line message followed by a break ends exactly where the message does. */
  lemma LineEndOf(msg: string, rest: string)
    requires OneLine(msg) && BreakAt(msg + rest, |msg|)
    ensures LineEnd(msg + rest) == |msg|
  {
    var m := msg + rest;
    forall j | 0 <= j < |msg|
      ensures !BreakAt(m, j)
    {
      assert m[j] == msg[j];
      if j + 1 < |msg| {
        assert m[j + 1] == msg[j + 1];
      }
    }
  }

  /** Conversely, "error CODE: message" followed by a break is matched with
      exactly that code and message. */
  lemma CodeAndMessageComplete(code: string, msg: string, rest: string)
    requires IsWord(code) && OneLine(msg) && BreakAt(msg + rest, |msg|)
    ensures CodeAndMessage("error " + (code + (": " + (msg + rest))))
            == Some(Tail(code, msg, 8 + |code| + |msg| + BreakLength(msg + rest, |msg|)))
  {
    CodeThenRest(code, msg + rest);
    LineEndOf(msg, rest);
    assert (msg + rest)[..|msg|] == msg;
  }

  /** After "error " and a word code and ": ", the message runs to the first break. */
  lemma CodeThenRest(code: string, m: string)
    requires IsWord(code)
    ensures CodeAndMessage("error " + (code + (": " + m)))
            == Some(Tail(code, m[..LineEnd(m)], 8 + |code| + LineEnd(m) + BreakLength(m, LineEnd(m))))
  {
    var after := ": " + m;
    var t := code + after;
    var s := "error " + t;
    Pieces(code, m);
    RunLengthOf(code, after, Word);
    CodeAndMessageUnfold(s, t, |code|, m, LineEnd(m));
  }

  lemma Pieces(code: string, m: string)
    ensures var t := code + (": " + m);
      "error " <= "error " + t && ("error " + t)[6..] == t && t[..|code|] == code
      && ": " <= t[|code|..] && t[|code| + 2..] == m
  {
    var t := code + (": " + m);
    assert t[|code|..] == ": " + m;
  }

  lemma CodeAndMessageUnfold(s: string, t: string, w: nat, m: string, k: nat)
    requires "error " <= s && t == s[6..] && w == RunLength(t, Word) && w > 0 && ": " <= t[w..]
    requires m == t[w + 2..] && k == LineEnd(m)
    ensures CodeAndMessage(s) == Some(Tail(t[..w], m[..k], 8 + w + k + BreakLength(m, k)))
  {
  }

  lemma Bracketed(s: string, a: nat, b: nat)
    requires 3 + a + b <= |s| && s[0] == '(' && s[1 + a] == ',' && s[2 + a + b] == ')'
    ensures s[..3 + a + b] == "(" + s[1..1 + a] + "," + s[2 + a..2 + a + b] + ")"
  {
    var n := 3 + a + b;
    assert s[..n] == s[..1] + s[1..1 + a] + s[1 + a..2 + a] + s[2 + a..2 + a + b] + s[2 + a + b..n];
    assert s[..1] == "(" && s[1 + a..2 + a] == "," && s[2 + a + b..n] == ")";
  }

  /** `\((\d+),(\d+)\)` matched at the start of `s`: both digit groups and the length. */
  function LineColumn(s: string): (r: Option<(string, string, nat)>)
    ensures r.Some? ==> r.value.0 != [] && AllDigits(r.value.0)
    ensures r.Some? ==> r.value.1 != [] && AllDigits(r.value.1)
    ensures r.Some? ==> r.value.2 <= |s| && s[..r.value.2] == "(" + r.value.0 + "," + r.value.1 + ")"
  {
    if s == [] || s[0] != '(' then None
    else
      var a := DigitRun(s[1..]);
      if a == 0 || 1 + a >= |s| || s[1 + a] != ',' then None
      else
        var b := DigitRun(s[2 + a..]);
        if b == 0 || 2 + a + b >= |s| || s[2 + a + b] != ')' then None
        else
          Bracketed(s, a, b);
          Some((s[1..1 + a], s[2 + a..2 + a + b], 3 + a + b))
  }

  /** A path the pattern `[/\\][\w/\\.-]+\.cs` takes in full. */
  predicate IsSourcePath(p: string)
  {
    |p| >= 5 && (p[0] == '/' || p[0] == '\\') && p[|p| - 3..] == ".cs"
    && forall k :: 1 <= k < |p| ==> IsPathChar(p[k])
  }

  lemma PathPrefix(s: string, e: nat)
    requires 5 <= e <= |s| && (s[0] == '/' || s[0] == '\\') && s[e - 3..e] == ".cs"
    requires forall k :: 1 <= k < e ==> IsPathChar(s[k])
    ensures IsSourcePath(s[..e])
  {
    assert s[..e][e - 3..] == s[e - 3..e];
  }

  /** One match of the located pattern
      `([/\\][\w/\\.-]+\.cs)(?:\((\d+),(\d+)\))?: error (\w+): (.*?)(?:\r?\n|$)`;
      the line and column groups are empty when the optional part is absent. */
  datatype Located = Located(file: string, lineDigits: string, columnDigits: string, tail: Tail, consumed: nat)

  /** What every located match satisfies: a whole source path, a word as the
      error code, and line and column digit groups that are present together. */
  predicate WellShaped(m: Located)
  {
    IsSourcePath(m.file) && IsWord(m.tail.code)
    && (m.lineDigits == [] <==> m.columnDigits == [])
    && AllDigits(m.lineDigits) && AllDigits(m.columnDigits)
  }

  /** `([/\\][\w/\\.-]+\.cs)` at the very start of `s`: the length of the path
      group.  It is the whole run of path characters, because what must follow
      the path (`(` or `:`) is not a path character, so a shorter path can
      never be followed by the rest of the pattern. */
  function PathEnd(s: string): (e: Option<nat>)
    ensures e.Some? ==> e.value <= |s| && IsSourcePath(s[..e.value])
    ensures e.Some? ==> e.value == |s| || !IsPathChar(s[e.value])
  {
    if s == [] || !(s[0] == '/' || s[0] == '\\') then None
    else
      var e := 1 + PathRun(s[1..]);
      if e < 5 || s[e - 3..e] != ".cs" then None
      else
        PathPrefix(s, e);
        Some(e)
  }

  /** The optional `(?:\((\d+),(\d+)\))?` at the start of `s`: both digit groups
      and the length taken, or two empty groups and nothing taken. */
  function Position(s: string): (p: (string, string, nat))
    ensures p.2 <= |s|
    ensures (p.0 == [] <==> p.1 == []) && AllDigits(p.0) && AllDigits(p.1)
  {
    match LineColumn(s)
    case Some(g) => g
    case None => ("", "", 0)
  }

  /** The rest of the located pattern after a path group `path`, at the start of `s`. */
  function AfterPath(path: string, s: string): (r: Option<Located>)
    ensures r.Some? ==> |path| < r.value.consumed <= |path| + |s|
    ensures r.Some? ==> r.value.file == path && IsWord(r.value.tail.code)
    ensures r.Some? ==> (r.value.lineDigits == [] <==> r.value.columnDigits == [])
    ensures r.Some? ==> AllDigits(r.value.lineDigits) && AllDigits(r.value.columnDigits)
  {
    var p := Position(s);
    var rest := s[p.2..];
    if !(": " <= rest) then None
    else
      match CodeAndMessage(rest[2..])
      case None => None
      case Some(t) => Some(Located(path, p.0, p.1, t, |path| + p.2 + 2 + t.consumed))
  }

  /** The located pattern matched at the very start of `s`. */
  function LocatedAt(s: string): (r: Option<Located>)
    ensures r.Some? ==> 0 < r.value.consumed <= |s| && r.value.file <= s && WellShaped(r.value)
  {
    match PathEnd(s)
    case None => None
    case Some(e) => AfterPath(s[..e], s[e..])
  }

  /** A matcher anchored at the start of its argument: every match it reports
      is non-empty and no longer than the text it was given. */
  ghost predicate Anchored<M(!new)>(at: string -> Option<M>, len: M -> nat)
  {
    forall s :: at(s).Some? ==> 0 < len(at(s).value) <= |s|
  }

  /** `re.findall` from position `i` on: at each position the anchored matcher
      is tried; a match is kept and the search resumes where it ended,
      otherwise the search moves one character on. */
  function FindAll<M(!new)>(log: string, i: nat, at: string -> Option<M>, len: M -> nat): (ms: seq<M>)
    requires i <= |log| && Anchored(at, len)
    ensures |ms| <= |log| - i
    decreases |log| - i
  {
    if i == |log| then []
    else
      match at(log[i..])
      case Some(m) => [m] + FindAll(log, i + len(m), at, len)
      case None => FindAll(log, i + 1, at, len)
  }

  /** A property every match of the matcher has, every match `re.findall` keeps has. */
  lemma {:induction false} FindAllKeeps<M(!new)>(log: string, i: nat, at: string -> Option<M>, len: M -> nat,
                                                 good: M -> bool)
    requires i <= |log| && Anchored(at, len)
    requires forall s :: at(s).Some? ==> good(at(s).value)
    ensures forall k :: 0 <= k < |FindAll(log, i, at, len)| ==> good(FindAll(log, i, at, len)[k])
    decreases |log| - i
  {
    if i < |log| {
      var r := at(log[i..]);
      if r.Some? {
        FindAllKeeps(log, i + len(r.value), at, len, good);
        var later := FindAll(log, i + len(r.value), at, len);
        assert FindAll(log, i, at, len) == [r.value] + later;
        assert forall k :: 1 <= k <= |later| ==> ([r.value] + later)[k] == later[k - 1];
      } else {
        FindAllKeeps(log, i + 1, at, len, good);
      }
    }
  }

  function LocatedLength(m: Located): nat { m.consumed }

  function TailLength(t: Tail): nat { t.consumed }

  lemma MatchersAnchored()
    ensures Anchored(LocatedAt, LocatedLength) && Anchored(CodeAndMessage, TailLength)
  {
  }

  /** The located matches of a whole log. */
  function LocatedMatches(log: string): (ms: seq<Located>)
    ensures |ms| <= |log|
    ensures forall k :: 0 <= k < |ms| ==> WellShaped(ms[k])
  {
    MatchersAnchored();
    FindAllKeeps(log, 0, LocatedAt, LocatedLength, WellShaped);
    FindAll(log, 0, LocatedAt, LocatedLength)
  }

  /** The matches of the general pattern in a whole log. */
  function GeneralMatches(log: string): (ts: seq<Tail>)
    ensures |ts| <= |log|
    ensures forall k :: 0 <= k < |ts| ==> IsWord(ts[k].code)
  {
    MatchersAnchored();
    FindAllKeeps(log, 0, CodeAndMessage, TailLength, (t: Tail) => IsWord(t.code));
    FindAll(log, 0, CodeAndMessage, TailLength)
  }

  /** One extracted error; its description is `Description(kind)`. */
  datatype BuildError = BuildError(code: string, message: string, file: Option<string>,
                                   line: Option<nat>, column: Option<nat>, kind: ErrorKind)

  /** `int(s) if s and s.isdigit() else None` on a digit group. */
  function LineNumber(d: string): (n: Option<nat>)
    ensures n.Some? <==> d != [] && AllDigits(d)
    ensures n.Some? ==> n.value == DigitsValue(d)
  {
    if d != [] && AllDigits(d) then Some(DigitsValue(d)) else None
  }

  /** The record for a located match: the type is decided on the unstripped
      message, the stored message is stripped. */
  function LocatedRecord(m: Located): BuildError
  {
    BuildError(m.tail.code, StripPy(m.tail.message), Some(m.file), LineNumber(m.lineDigits),
               LineNumber(m.columnDigits), Classify(m.tail.code, m.tail.message))
  }

  /** The record for a match of the general pattern: no file, line or column. */
  function GeneralRecord(t: Tail): BuildError
  {
    BuildError(t.code, StripPy(t.message), None, None, None, Classify(t.code, t.message))
  }

  /** `f` applied to every element of `xs`, in order. */
  function Map<A, B>(xs: seq<A>, f: A -> B): (ys: seq<B>)
    ensures |ys| == |xs| && forall k :: 0 <= k < |xs| ==> ys[k] == f(xs[k])
  {
    if xs == [] then [] else Map(xs[..|xs| - 1], f) + [f(xs[|xs| - 1])]
  }

  /** A `for` loop that appends `f(x)` for every `x` of `xs`. */
  method AppendEach<A, B>(xs: seq<A>, f: A -> B) returns (ys: seq<B>)
    ensures ys == Map(xs, f)
  {
    ys := [];
    var i := 0;
    while i < |xs|
      invariant 0 <= i <= |xs|
      invariant ys == Map(xs[..i], f)
    {
      assert xs[..i + 1][..i] == xs[..i];
      ys := ys + [f(xs[i])];
      i := i + 1;
    }
    assert xs[..i] == xs;
  }

  /** What `extract_build_errors` returns: the located matches, or, when there
      are none, the matches of the general pattern. */
  function ExtractSpec(log: string): (errors: seq<BuildError>)
    ensures |errors| <= |log|
    ensures errors == [] <==> LocatedMatches(log) == [] && GeneralMatches(log) == []
  {
    var located := LocatedMatches(log);
    if located != [] then Map(located, LocatedRecord) else Map(GeneralMatches(log), GeneralRecord)
  }

  /** `extract_build_errors`: one record per located match, and only when
      there is none, one per match of the general pattern. */
  method ExtractBuildErrors(log: string) returns (errors: seq<BuildError>)
    ensures errors == ExtractSpec(log)
  {
    var located := LocatedMatches(log);
    errors := AppendEach(located, LocatedRecord);
    if errors == [] {
      var tails := GeneralMatches(log);
      errors := AppendEach(tails, GeneralRecord);
    }
  }

  /** Every record has a file exactly when the located pattern matched somewhere,
      and then line and column are both present or both absent. */
  lemma FileOnlyFromLocatedMatches(log: string)
    ensures forall k :: 0 <= k < |ExtractSpec(log)| ==>
              (ExtractSpec(log)[k].file.Some? <==> LocatedMatches(log) != [])
    ensures forall k :: 0 <= k < |ExtractSpec(log)| ==>
              (ExtractSpec(log)[k].line.Some? <==> ExtractSpec(log)[k].column.Some?)
    ensures forall k :: 0 <= k < |ExtractSpec(log)| && ExtractSpec(log)[k].file.None? ==>
              ExtractSpec(log)[k].line.None?
  {
  }

  /** Every record has a word as its code and a message with no surrounding white space. */
  lemma RecordsAreTrimmed(log: string)
    ensures forall k :: 0 <= k < |ExtractSpec(log)| ==>
              IsWord(ExtractSpec(log)[k].code) && IsStripped(ExtractSpec(log)[k].message)
  {
    var es := ExtractSpec(log);
    var located := LocatedMatches(log);
    forall k | 0 <= k < |es|
      ensures IsWord(es[k].code) && IsStripped(es[k].message)
    {
      if located != [] {
        assert es[k] == LocatedRecord(located[k]);
        assert WellShaped(located[k]);
      } else {
        var tails := GeneralMatches(log);
        assert es[k] == GeneralRecord(tails[k]);
      }
    }
  }

  lemma {:induction false} PathRunOf(w: string, tail: string)
    requires forall k :: 0 <= k < |w| ==> IsPathChar(w[k])
    requires tail == [] || !IsPathChar(tail[0])
    ensures PathRun(w + tail) == |w|
  {
    if w != [] {
      assert (w + tail)[1..] == w[1..] + tail;
      PathRunOf(w[1..], tail);
    } else {
      assert w + tail == tail;
    }
  }

  lemma {:induction false} DigitRunOf(d: string, tail: string)
    requires AllDigits(d)
    requires tail == [] || !IsAsciiDigit(tail[0])
    ensures DigitRun(d + tail) == |d|
  {
    if d != [] {
      assert (d + tail)[1..] == d[1..] + tail;
      DigitRunOf(d[1..], tail);
    } else {
      assert d + tail == tail;
    }
  }

  /** "(line,col)" is read back as its two digit groups. */
  lemma LineColumnOf(line: string, col: string, rest: string)
    requires line != [] && AllDigits(line) && col != [] && AllDigits(col)
    ensures LineColumn("(" + (line + ("," + (col + (")" + rest))))) == Some((line, col, 3 + |line| + |col|))
  {
    var afterLine := "," + (col + (")" + rest));
    var s := "(" + (line + afterLine);
    GroupAt(s, 1, line, afterLine);
    assert s[1 + |line|] == ',';
    GroupAt(s, 2 + |line|, col, ")" + rest);
    assert s[2 + |line| + |col|] == ')';
    LineColumnAt(s, line, col);
  }

  /** A digit group `d` at `i`, followed by `tail`. */
  lemma GroupAt(s: string, i: nat, d: string, tail: string)
    requires AllDigits(d) && tail != [] && !IsAsciiDigit(tail[0])
    requires i <= |s| && s[i..] == d + tail
    ensures DigitRun(s[i..]) == |d| && i + |d| < |s| && s[i + |d|] == tail[0] && s[i..i + |d|] == d
  {
    DigitRunOf(d, tail);
    assert s[i..][|d|] == tail[0];
    assert s[i..][..|d|] == d;
  }

  /** `LineColumn` read off a text whose digit groups are `line` and `col`. */
  lemma LineColumnAt(s: string, line: string, col: string)
    requires 2 + |line| + |col| < |s| && s[0] == '(' && line != [] && col != []
    requires DigitRun(s[1..]) == |line| && s[1..1 + |line|] == line && s[1 + |line|] == ','
    requires DigitRun(s[2 + |line|..]) == |col| && s[2 + |line|..2 + |line| + |col|] == col
    requires s[2 + |line| + |col|] == ')'
    ensures LineColumn(s) == Some((line, col, 3 + |line| + |col|))
  {
  }

  /** The path of a located match is the whole source path before the position. */
  lemma PathThenRest(path: string, rest: string)
    requires IsSourcePath(path) && rest != [] && !IsPathChar(rest[0])
    ensures PathEnd(path + rest) == Some(|path|)
    ensures (path + rest)[..|path|] == path && (path + rest)[|path|..] == rest
  {
    var s := path + rest;
    assert s[1..] == path[1..] + rest;
    PathRunOf(path[1..], rest);
    assert s[|path| - 3..|path|] == path[|path| - 3..];
  }

  /** After the path, directly ": " and then a match `t` of the general pattern. */
  lemma AfterPathWithoutPosition(path: string, after: string, tailText: string, t: Tail)
    requires after == ": " + tailText && CodeAndMessage(tailText) == Some(t)
    ensures AfterPath(path, after) == Some(Located(path, "", "", t, |path| + 2 + t.consumed))
  {
    var p := Position(after);
    assert p == ("", "", 0);
    assert after[p.2..][2..] == tailText;
    AfterPathUnfold(path, after, t);
    var r := AfterPath(path, after).value;
    assert r.file == path && r.lineDigits == "" && r.columnDigits == "";
    assert r == Located(path, "", "", t, |path| + 2 + t.consumed);
  }

  /** After the path, the position part, then ": " and a match `t` of the
      general pattern make one located match. */
  lemma AfterPathUnfold(path: string, s: string, t: Tail)
    requires Position(s).2 <= |s| && ": " <= s[Position(s).2..] && CodeAndMessage(s[Position(s).2..][2..]) == Some(t)
    ensures AfterPath(path, s).Some? && AfterPath(path, s).value.tail == t
      && AfterPath(path, s).value.consumed == |path| + Position(s).2 + 2 + t.consumed
      && AfterPath(path, s).value.lineDigits == Position(s).0 && AfterPath(path, s).value.columnDigits == Position(s).1
  {
  }

  /** A located match is a source path followed by what `AfterPath` accepts. */
  lemma LocatedAtPath(path: string, after: string)
    requires IsSourcePath(path) && after != [] && !IsPathChar(after[0])
    ensures LocatedAt(path + after) == AfterPath(path, after)
  {
    PathThenRest(path, after);
  }
}

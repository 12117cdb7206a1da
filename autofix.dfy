// The monitor's two fixers and the loop that applies them
// (Scripts/github_actions_monitor.py:236-433): a missing view-model property
// is spliced into the class that lacks it, and an implicit conversion gets an
// explicit cast on the reported line. The working tree is a map from path to
// file text; a fixer returns the one file it rewrites, or nothing.

module AutoFix {
  import opened Wrappers
  import opened Text
  import opened ErrorTaxonomy
  import opened LogParser

  /** The working tree: each existing file's path and text. */
  type Files = map<string, string>

  /** What a fixer does: rewrite one file, or leave the tree alone (and report False). */
  datatype Fix = NoFix | Rewrite(file: string, text: string)

  function Apply(files: Files, fx: Fix): Files
  {
    match fx
    case NoFix => files
    case Rewrite(f, t) => files[f := t]
  }

  /** Where the CI runner checks the repository out. */
  const RunnerPrefix: string := "/home/runner/work/AccountingModule/AccountingModule/"

  // ---------------------------------------------------------------------------
  // The file a fixer works on
  // ---------------------------------------------------------------------------

  /** `s[..j]` ends with ".cs" and has at least two characters before it. */
  predicate CsEndsAt(s: string, j: int)
  {
    5 <= j <= |s| && s[j - 3..j] == ".cs"
  }

  /** The largest `j' <= j` at which `s[..j']` ends with ".cs". */
  function LastCs(s: string, j: nat): (e: Option<nat>)
    requires j <= |s|
    ensures e.Some? ==> e.value <= j && CsEndsAt(s, e.value)
    ensures e.Some? ==> forall k :: e.value < k <= j ==> !CsEndsAt(s, k)
    ensures e.None? ==> forall k :: k <= j ==> !CsEndsAt(s, k)
  {
    if j < 5 then None
    else if CsEndsAt(s, j) then Some(j)
    else LastCs(s, j - 1)
  }

  /** Length of a match of `[/\\][\w/\\.-]+\.cs` at the start of `s`: the greedy
      run backs off to its last ".cs". */
  function PathMatchAt(s: string): (n: Option<nat>)
    ensures n.Some? ==> n.value <= |s| && IsSourcePath(s[..n.value])
  {
    if s == [] || !(s[0] == '/' || s[0] == '\\') then None
    else
      var r := PathRun(s[1..]);
      match LastCs(s, 1 + r)
      case None => None
      case Some(e) =>
        assert forall k :: 1 <= k < e ==> IsPathChar(s[k]) by {
          forall k | 1 <= k < e ensures IsPathChar(s[k]) { assert s[k] == s[1..][k - 1]; }
        }
        PathPrefix(s, e);
        Some(e)
  }

  /** `re.search(r'([/\\][\w/\\.-]+\.cs)', s)`: the leftmost such path. */
  function PathIn(s: string, from: nat): (p: Option<string>)
    requires from <= |s|
    ensures p.Some? ==> IsSourcePath(p.value)
    decreases |s| - from
  {
    if from == |s| then None
    else match PathMatchAt(s[from..])
      case Some(n) => Some(s[from..][..n])
      case None => PathIn(s, from + 1)
  }

  /** The path a fixer opens: the record's own file when it has a non-empty one,
      otherwise a path found in the message with the runner's prefix replaced
      by the local checkout; and only if that file exists. */
  function TargetFile(e: BuildError, files: Files, repoPath: string): (f: Option<string>)
    ensures f.Some? ==> f.value != [] && f.value in files
    ensures e.file.Some? && e.file.value != [] ==> f == (if e.file.value in files then e.file else None)
  {
    var named :=
      if e.file.Some? && e.file.value != [] then e.file
      else match PathIn(e.message, 0)
        case None => e.file
        case Some(p) => Some(ReplaceAll(p, RunnerPrefix, repoPath + "/"));
    if named.Some? && named.value != [] && named.value in files then named else None
  }

  // ---------------------------------------------------------------------------
  // Names taken from the message
  // ---------------------------------------------------------------------------

  /** The captured runs of a pattern, in order. */
  function RunToks(p: seq<Tok>): seq<Tok>
  {
    if p == [] then [] else (if p[0].Lit? then [] else [p[0]]) + RunToks(p[1..])
  }

  /** `w` is a non-empty run of kind `t`. */
  predicate FitsRun(t: Tok, w: string)
  {
    w != [] && forall j :: 0 <= j < |w| ==> InRun(t, w[j])
  }

  /** A match has one capture per run, each a non-empty run of its kind. */
  lemma {:induction false} MatchCaptures(s: string, p: seq<Tok>)
    requires MatchAt(s, p).Some?
    ensures |MatchAt(s, p).value| == |RunToks(p)|
    ensures forall k :: 0 <= k < |RunToks(p)| ==> FitsRun(RunToks(p)[k], MatchAt(s, p).value[k])
    decreases |p|
  {
    if p != [] {
      if p[0].Lit? {
        MatchCaptures(s[|p[0].text|..], p[1..]);
      } else {
        var n := RunLength(s, p[0]);
        MatchCaptures(s[n..], p[1..]);
        assert FitsRun(p[0], s[..n]);
      }
    }
  }

  lemma SearchCaptures(s: string, p: seq<Tok>)
    requires Search(s, p).Some?
    ensures |Search(s, p).value| == |RunToks(p)|
    ensures forall k :: 0 <= k < |RunToks(p)| ==> FitsRun(RunToks(p)[k], Search(s, p).value[k])
  {
    var r := SearchFrom(s, p, 0);
    MatchCaptures(s[r.value.0..], p);
  }

  /** The two captures of `p`, searched for in the message and then in
      "error CODE: message". */
  function TwoCaptures(e: BuildError, p: seq<Tok>): (r: Option<(string, string)>)
    requires |RunToks(p)| == 2
    ensures r.Some? ==> FitsRun(RunToks(p)[0], r.value.0) && FitsRun(RunToks(p)[1], r.value.1)
  {
    match Search(e.message, p)
    case Some(caps) => SearchCaptures(e.message, p); Some((caps[0], caps[1]))
    case None =>
      var prefixed := Prefixed(e.code, e.message);
      match Search(prefixed, p)
      case Some(caps) => SearchCaptures(prefixed, p); Some((caps[0], caps[1]))
      case None => None
  }

  predicate IsDefinitionKind(k: ErrorKind) { k == MissingDefinition || k == MissingProperty || k == MissingMember }

  predicate IsConversionKind(k: ErrorKind) { k == TypeConversion || k == ImplicitConversion }

  /** The class and the property named by a missing-definition record. */
  function DefinitionNames(e: BuildError): (r: Option<(string, string)>)
    ensures r.Some? ==> IsDefinitionKind(e.kind) && IsWord(r.value.0) && IsWord(r.value.1)
  {
    assert RunToks(MissingDefinitionPattern) == [Word, Word];
    if IsDefinitionKind(e.kind) then TwoCaptures(e, MissingDefinitionPattern) else None
  }

  /** The source and target types named by a conversion record. */
  function ConversionTypes(e: BuildError): (r: Option<(string, string)>)
    ensures r.Some? ==> IsConversionKind(e.kind) && FitsRun(NonQuote, r.value.0) && FitsRun(NonQuote, r.value.1)
  {
    assert RunToks(ConversionPattern) == [NonQuote, NonQuote];
    if IsConversionKind(e.kind) then TwoCaptures(e, ConversionPattern) else None
  }

  // ---------------------------------------------------------------------------
  // The class body
  // ---------------------------------------------------------------------------

  /** Length of the longest prefix of `s` made of Python `\s` characters. */
  function SpaceRun(s: string): (n: nat)
    ensures n <= |s|
    ensures forall k :: 0 <= k < n ==> IsPySpace(s[k])
    ensures n < |s| ==> !IsPySpace(s[n])
    decreases |s|
  {
    if s != [] && IsPySpace(s[0]) then 1 + SpaceRun(s[1..]) else 0
  }

  /** `public\s+class\s+NAME` matches at the start of `s` (no word boundary
      after the name). Each `\s+` is followed by a non-space, so greedy is the
      only way to match. */
  predicate HeaderAt(s: string, name: string)
  {
    "public" <= s &&
    var a := SpaceRun(s[6..]);
    a >= 1 && "class" <= s[6 + a..] &&
    var b := SpaceRun(s[11 + a..]);
    b >= 1 && name <= s[11 + a + b..]
  }

  /** `re.search(class_pattern, content).start()`. */
  function ClassStart(s: string, name: string, from: nat): (r: Option<nat>)
    requires from <= |s|
    ensures r.Some? ==> from <= r.value < |s| && HeaderAt(s[r.value..], name)
    ensures r.Some? ==> forall i :: from <= i < r.value ==> !HeaderAt(s[i..], name)
    ensures r.None? ==> forall i :: from <= i < |s| ==> !HeaderAt(s[i..], name)
    decreases |s| - from
  {
    if from == |s| then None
    else if HeaderAt(s[from..], name) then Some(from)
    else ClassStart(s, name, from + 1)
  }

  /** The opening braces of `s` minus its closing braces. */
  function Depth(s: string): int
  {
    if s == [] then 0
    else Depth(s[..|s| - 1]) + (if s[|s| - 1] == '{' then 1 else if s[|s| - 1] == '}' then -1 else 0)
  }

  /** The `'}'` at `j` brings the count of braces since `start` back to zero. */
  predicate Closes(s: string, start: nat, j: nat)
  {
    start <= j < |s| && s[j] == '}' && Depth(s[start..j + 1]) == 0
  }

  /** The first closing brace at or after `from` that balances the braces since `start`. */
  function FirstClose(s: string, start: nat, from: nat): (r: Option<nat>)
    requires start <= from <= |s|
    ensures r.Some? ==> from <= r.value && Closes(s, start, r.value)
    ensures r.Some? ==> forall j :: from <= j < r.value ==> !Closes(s, start, j)
    ensures r.None? ==> forall j :: from <= j ==> !Closes(s, start, j)
    decreases |s| - from
  {
    if from == |s| then None
    else if Closes(s, start, from) then Some(from)
    else FirstClose(s, start, from + 1)
  }

  /** The brace-counting scan from the class header. */
  method FindClassEnd(s: string, start: nat) returns (classEnd: Option<nat>)
    requires start <= |s|
    ensures classEnd == FirstClose(s, start, start)
  {
    var braceCount := 0;
    var i := start;
    classEnd := None;
    while i < |s|
      invariant start <= i <= |s|
      invariant braceCount == Depth(s[start..i])
      invariant FirstClose(s, start, i) == FirstClose(s, start, start)
      decreases |s| - i
    {
      assert s[start..i + 1][..i - start] == s[start..i];
      if s[i] == '{' {
        braceCount := braceCount + 1;
      } else if s[i] == '}' {
        braceCount := braceCount - 1;
        if braceCount == 0 {
          classEnd := Some(i);
          return;
        }
      }
      i := i + 1;
    }
  }

  // ---------------------------------------------------------------------------
  // The property to add
  // ---------------------------------------------------------------------------

  predicate IsBoolName(n: string)
  {
    "Is" <= n || "Has" <= n || EndsWith(n, "Enabled") || EndsWith(n, "Active")
  }

  predicate IsIntName(n: string) { EndsWith(n, "Id") || EndsWith(n, "Count") || EndsWith(n, "Number") }

  predicate IsDateName(n: string) { EndsWith(n, "Date") || EndsWith(n, "Time") }

  predicate IsDecimalName(n: string) { EndsWith(n, "Amount") || EndsWith(n, "Price") || EndsWith(n, "Value") }

  predicate IsCollectionName(n: string) { "Available" <= n && EndsWith(n, "s") }

  /** The property types the fixer can guess. */
  datatype PropertyType = Bool | Int | DateTime | Decimal | Collection(item: string) | Str

  /** How a type is written in C#. */
  function TypeText(t: PropertyType): string
  {
    match t
    case Bool => "bool"
    case Int => "int"
    case DateTime => "DateTime"
    case Decimal => "decimal"
    case Collection(item) => "IEnumerable<" + item + ">"
    case Str => "string"
  }

  /** The type guessed from a property name, tried in a fixed priority; a
      collection's item type is the name without "Available" and the final "s". */
  function InferType(name: string): (t: PropertyType)
    ensures t.Collection? ==> IsCollectionName(name) && name == "Available" + t.item + "s"
  {
    if IsBoolName(name) then Bool
    else if IsIntName(name) then Int
    else if IsDateName(name) then DateTime
    else if IsDecimalName(name) then Decimal
    else if IsCollectionName(name) then
      CollectionNameParts(name);
      Collection(name[9..|name| - 1])
    else Str
  }

  /** A collection name is "Available", an item name, and the final "s". */
  lemma CollectionNameParts(name: string)
    requires IsCollectionName(name)
    ensures |name| >= 10 && name == "Available" + name[9..|name| - 1] + "s"
  {
    assert name[..9] == "Available";
    assert name[8] == 'e';
    assert name[|name| - 1..] == "s";
    assert name == name[..9] + name[9..|name| - 1] + name[|name| - 1..];
  }

  /** The guess in full: the first category whose test the name passes. */
  lemma InferTypePriority(name: string)
    ensures IsBoolName(name) ==> InferType(name) == Bool
    ensures !IsBoolName(name) && IsIntName(name) ==> InferType(name) == Int
    ensures !IsBoolName(name) && !IsIntName(name) && IsDateName(name) ==> InferType(name) == DateTime
    ensures !IsBoolName(name) && !IsIntName(name) && !IsDateName(name) && IsDecimalName(name) ==>
              InferType(name) == Decimal
    ensures !IsBoolName(name) && !IsIntName(name) && !IsDateName(name) && !IsDecimalName(name) ==>
              (InferType(name).Collection? <==> IsCollectionName(name))
    ensures !(IsBoolName(name) || IsIntName(name) || IsDateName(name) || IsDecimalName(name) ||
              IsCollectionName(name)) ==>
              InferType(name) == Str
  {
  }

  /** A prefix test beats any suffix test: "IsActiveCount" is a bool. */
  lemma IsActiveCountIsBool()
    ensures InferType("IsActiveCount") == Bool
  {
    assert "Is" <= "IsActiveCount";
  }

  /** Length of the longest prefix of `s` without an ASCII capital. */
  function LowerRun(s: string): (n: nat)
    ensures n <= |s|
    ensures forall k :: 0 <= k < n ==> !IsAsciiUpper(s[k])
    ensures n < |s| ==> IsAsciiUpper(s[n])
    decreases |s|
  {
    if s != [] && !IsAsciiUpper(s[0]) then 1 + LowerRun(s[1..]) else 0
  }

  /** A capital followed only by non-capitals: one match of `[A-Z][^A-Z]*`. */
  predicate IsChunk(w: string)
  {
    w != [] && IsAsciiUpper(w[0]) && forall j :: 1 <= j < |w| ==> !IsAsciiUpper(w[j])
  }

  /** `re.findall('[A-Z][^A-Z]*', s)`. */
  function Chunks(s: string): (cs: seq<string>)
    ensures forall k :: 0 <= k < |cs| ==> IsChunk(cs[k])
    decreases |s|
  {
    if s == [] then []
    else if !IsAsciiUpper(s[0]) then Chunks(s[1..])
    else
      var n := 1 + LowerRun(s[1..]);
      [s[..n]] + Chunks(s[n..])
  }

  function Concat(cs: seq<string>): string
  {
    if cs == [] then "" else cs[0] + Concat(cs[1..])
  }

  lemma ConcatCons(w: string, cs: seq<string>)
    ensures Concat([w] + cs) == w + Concat(cs)
  {
    assert ([w] + cs)[1..] == cs;
  }

  lemma ChunksAtLower(s: string)
    requires s != [] && !IsAsciiUpper(s[0])
    ensures LowerRun(s) == 1 + LowerRun(s[1..]) && Chunks(s) == Chunks(s[1..])
  {
  }

  lemma ChunksAtCapital(s: string, n: nat)
    requires s != [] && IsAsciiUpper(s[0]) && n == 1 + LowerRun(s[1..])
    ensures LowerRun(s) == 0 && LowerRun(s[n..]) == 0
    ensures Concat(Chunks(s)) == s[..n] + Concat(Chunks(s[n..]))
  {
    ChunkAtCapital(s, n);
    ConcatCons(s[..n], Chunks(s[n..]));
  }

  lemma ChunkAtCapital(s: string, n: nat)
    requires s != [] && IsAsciiUpper(s[0]) && n == 1 + LowerRun(s[1..])
    ensures Chunks(s) == [s[..n]] + Chunks(s[n..])
  {
  }

  /** The chunks spell out the name from its first capital on; what is
      dropped before it holds no capital. */
  lemma {:induction false} ChunksCover(s: string)
    ensures Concat(Chunks(s)) == s[LowerRun(s)..]
    decreases |s|
  {
    if s != [] {
      if !IsAsciiUpper(s[0]) {
        ChunksCover(s[1..]);
        CoverAtLower(s);
      } else {
        var n := 1 + LowerRun(s[1..]);
        ChunksCover(s[n..]);
        CoverAtCapital(s, n);
      }
    }
  }

  lemma CoverAtLower(s: string)
    requires s != [] && !IsAsciiUpper(s[0])
    requires Concat(Chunks(s[1..])) == s[1..][LowerRun(s[1..])..]
    ensures Concat(Chunks(s)) == s[LowerRun(s)..]
  {
    ChunksAtLower(s);
    assert s[1..][LowerRun(s[1..])..] == s[1 + LowerRun(s[1..])..];
  }

  lemma CoverAtCapital(s: string, n: nat)
    requires s != [] && IsAsciiUpper(s[0]) && n == 1 + LowerRun(s[1..])
    requires Concat(Chunks(s[n..])) == s[n..][LowerRun(s[n..])..]
    ensures Concat(Chunks(s)) == s[LowerRun(s)..]
  {
    ChunksAtCapital(s, n);
    var rest := s[n..];
    assert rest[LowerRun(rest)..] == rest;
    PrefixAndRest(s, n, Concat(Chunks(s)), Concat(Chunks(rest)));
    assert s[LowerRun(s)..] == s;
  }

  lemma PrefixAndRest(s: string, n: nat, whole: string, tail: string)
    requires n <= |s| && tail == s[n..] && whole == s[..n] + tail
    ensures whole == s
  {
  }

  /** The Display attribute's text: the name split before each capital. */
  function DisplayName(name: string): string
  {
    JoinWith(Chunks(name), ' ')
  }

  /** The attribute line that precedes the declaration, with the indentation
      of the declaration's line. */
  function AttributeText(name: string): string
  {
    "\n        [Display(Name = \"" + DisplayName(name) + "\")]\n        "
  }

  /** The declaration proper. */
  function Declaration(name: string): string
  {
    "public " + TypeText(InferType(name)) + " " + name + " { get; set; }"
  }

  /** The text inserted for the property, ending with the indentation of the
      line that held the class's brace. */
  function PropertyCode(name: string): (r: string)
    ensures OccursAt(r, Declaration(name), |AttributeText(name)|)
  {
    MiddleOccurs(AttributeText(name), Declaration(name), "\n        ");
    AttributeText(name) + Declaration(name) + "\n        "
  }

  lemma MiddleOccurs(a: string, b: string, c: string)
    ensures OccursAt(a + b + c, b, |a|)
  {
    assert (a + b + c)[|a|..|a| + |b|] == b;
  }

  // ---------------------------------------------------------------------------
  // `using` lines
  // ---------------------------------------------------------------------------

  const GenericUsing: string := "using System.Collections.Generic;"
  const AnnotationsUsing: string := "using System.ComponentModel.DataAnnotations;"

  /** Length of a match of `using [^;]+;` at the start of `s`. */
  function UsingAt(s: string): (n: Option<nat>)
    ensures n.Some? ==> 8 <= n.value <= |s| && s[n.value - 1] == ';'
  {
    if "using " <= s then
      match IndexOfChar(s[6..], ';')
      case Some(k) => if k >= 1 then Some(6 + k + 1) else None
      case None => None
    else None
  }

  /** The end of the leftmost `using [^;]+;` match at or after `from`. */
  function FirstUsingEnd(s: string, from: nat): (u: Option<nat>)
    requires from <= |s|
    ensures u.Some? ==> from < u.value <= |s| && s[u.value - 1] == ';'
    decreases |s| - from
  {
    if from == |s| then None
    else match UsingAt(s[from..])
      case Some(n) => Some(from + n)
      case None => FirstUsingEnd(s, from + 1)
  }

  function InsertAt(s: string, at: nat, piece: string): string
    requires at <= |s|
  {
    s[..at] + piece + s[at..]
  }

  /** Where the character at `i` moves to when `len` characters go in at `at`. */
  function Moved(at: nat, i: nat, len: nat): nat
  {
    if at <= i then i + len else i
  }

  lemma InsertMoves(s: string, at: nat, piece: string, i: nat)
    requires at <= |s| && i < |s|
    ensures Moved(at, i, |piece|) < |InsertAt(s, at, piece)|
    ensures InsertAt(s, at, piece)[Moved(at, i, |piece|)] == s[i]
  {
  }

  /** A directive, on a line of its own, right after the first `using`
      directive of `s`; nothing when `s` already has it or has no `using`. */
  function AddUsing(s: string, directive: string): (r: (string, Option<nat>))
    ensures r.1.None? ==> r.0 == s
    ensures r.1.Some? ==> !Contains(s, directive) && r.1.value <= |s| && r.0 == InsertAt(s, r.1.value, "\n" + directive)
    ensures r.1.Some? ==> FirstUsingEnd(s, 0) == r.1 && s[r.1.value - 1] == ';'
    ensures !Contains(s, directive) && FirstUsingEnd(s, 0).Some? ==> r.1.Some?
  {
    if Contains(s, directive) then (s, None)
    else match FirstUsingEnd(s, 0)
      case None => (s, None)
      case Some(u) =>
        (InsertAt(s, u, "\n" + directive), Some(u))
  }

  // ---------------------------------------------------------------------------
  // Adding a missing property
  // ---------------------------------------------------------------------------

  /** A file's text and the index of the brace that closes the class. */
  datatype Layout = Layout(text: string, brace: nat)

  predicate ClosedAt(l: Layout) { l.brace < |l.text| && l.text[l.brace] == '}' }

  /** Adds `directive` when `wanted`, keeping track of where the brace moved. */
  function UsingStep(l: Layout, directive: string, wanted: bool): (r: Layout)
    requires l.brace < |l.text|
    ensures r.brace < |r.text| && r.text[r.brace] == l.text[l.brace]
    ensures |r.text| >= |l.text| && r.brace >= l.brace
  {
    if !wanted then l
    else
      var added := AddUsing(l.text, directive);
      match added.1
      case None => l
      case Some(u) =>
        InsertMoves(l.text, u, "\n" + directive, l.brace);
        Layout(added.0, Moved(u, l.brace, |"\n" + directive|))
  }

  /** The `using` lines the fix adds: the collections namespace for a
      collection property, then the data-annotations namespace for the
      Display attribute, each right after the first `using` directive. */
  function WithUsings(content: string, end: nat, name: string): (l: Layout)
    requires end < |content|
    ensures l.brace < |l.text| && l.text[l.brace] == content[end]
    ensures |l.text| >= |content|
  {
    var l1 := UsingStep(Layout(content, end), GenericUsing, InferType(name).Collection?);
    UsingStep(l1, AnnotationsUsing, true)
  }

  /** The fixed text: the property right before the brace that closes the class. */
  function WithProperty(content: string, end: nat, name: string): (r: string)
    requires end < |content|
    ensures Contains(r, Declaration(name))
  {
    var l := WithUsings(content, end, name);
    InsertBefore(l.text, l.brace, AttributeText(name), Declaration(name), "\n        ");
    InsertAt(l.text, l.brace, PropertyCode(name))
  }

  /** The text as the monitor builds it: the property goes in at the brace's
      index from before the `using` lines were added. */
  function WithPropertyAsWritten(content: string, end: nat, name: string): (r: string)
    requires end < |content|
    ensures Contains(r, Declaration(name))
  {
    var l := WithUsings(content, end, name);
    InsertBefore(l.text, end, AttributeText(name), Declaration(name), "\n        ");
    InsertAt(l.text, end, PropertyCode(name))
  }

  lemma InsertBefore(t: string, p: nat, pre: string, mid: string, post: string)
    requires p < |t|
    ensures InsertAt(t, p, pre + mid + post)[p + |pre + mid + post|] == t[p]
    ensures Contains(InsertAt(t, p, pre + mid + post), mid)
  {
    var r := InsertAt(t, p, pre + mid + post);
    assert r == (t[..p] + pre) + mid + (post + t[p..]);
    MiddleOccurs(t[..p] + pre, mid, post + t[p..]);
  }

  /** The property lands immediately before the class's closing brace, and the
      file then holds the declaration. */
  lemma PropertyBeforeBrace(content: string, end: nat, name: string)
    requires end < |content| && content[end] == '}'
    ensures var l := WithUsings(content, end, name);
      WithProperty(content, end, name) == InsertAt(l.text, l.brace, PropertyCode(name)) &&
      l.text[l.brace] == '}' &&
      WithProperty(content, end, name)[l.brace + |PropertyCode(name)|] == '}'
    ensures Contains(WithProperty(content, end, name), Declaration(name))
  {
    var l := WithUsings(content, end, name);
    InsertBefore(l.text, l.brace, AttributeText(name), Declaration(name), "\n        ");
  }

  /** As written, when the annotations `using` goes in before the class (and
      no other line does), the property lands 45 characters, the length of
      the added line, before the closing brace. */
  lemma StaleSpliceLandsEarly(content: string, end: nat, name: string, u: nat)
    requires end < |content| && content[end] == '}'
    requires !InferType(name).Collection? && !Contains(content, AnnotationsUsing)
    requires FirstUsingEnd(content, 0) == Some(u) && u <= end
    ensures WithUsings(content, end, name).brace == end + 45
    ensures WithUsings(content, end, name).text[end + 45] == '}'
    ensures WithPropertyAsWritten(content, end, name) == InsertAt(WithUsings(content, end, name).text, end, PropertyCode(name))
  {
    var l1 := UsingStep(Layout(content, end), GenericUsing, InferType(name).Collection?);
    assert l1 == Layout(content, end);
    var l := WithUsings(content, end, name);
    assert l == UsingStep(l1, AnnotationsUsing, true);
    AnnotationsStep(content, end, u);
  }

  /** Adding the annotations `using` at `u`, before the brace at `end`. */
  lemma AnnotationsStep(content: string, end: nat, u: nat)
    requires end < |content| && !Contains(content, AnnotationsUsing)
    requires FirstUsingEnd(content, 0) == Some(u) && u <= end
    ensures UsingStep(Layout(content, end), AnnotationsUsing, true) ==
            Layout(InsertAt(content, u, "\n" + AnnotationsUsing), end + 45)
  {
    assert |"\n" + AnnotationsUsing| == 45;
  }

  /** `fix_missing_property`: the rewrite it makes, found by the specification
      functions above, with the property spliced in at the brace index found
      before the `using` lines went in. */
  function MissingPropertyFix(e: BuildError, files: Files, repoPath: string): (fx: Fix)
    ensures fx.Rewrite? ==> Some(fx.file) == TargetFile(e, files, repoPath) && DefinitionNames(e).Some?
  {
    match TargetFile(e, files, repoPath)
    case None => NoFix
    case Some(f) =>
      match DefinitionNames(e)
      case None => NoFix
      case Some(names) =>
        var content := files[f];
        match ClassStart(content, names.0, 0)
        case None => NoFix
        case Some(start) =>
          match FirstClose(content, start, start)
          case None => NoFix
          case Some(end) => Rewrite(f, WithPropertyAsWritten(content, end, names.1))
  }

  /** The fix applies exactly when the file, both names, the class header and a
      balancing brace are all found; the new text then declares the property. */
  lemma MissingPropertyFixSound(e: BuildError, files: Files, repoPath: string)
    ensures var fx := MissingPropertyFix(e, files, repoPath);
      fx.Rewrite? <==>
        (TargetFile(e, files, repoPath).Some? && DefinitionNames(e).Some? &&
         var content := files[TargetFile(e, files, repoPath).value];
         var start := ClassStart(content, DefinitionNames(e).value.0, 0);
         start.Some? && FirstClose(content, start.value, start.value).Some?)
    ensures var fx := MissingPropertyFix(e, files, repoPath);
      fx.Rewrite? ==> Contains(fx.text, Declaration(DefinitionNames(e).value.1))
  {
    var fx := MissingPropertyFix(e, files, repoPath);
    if fx.Rewrite? {
      var content := files[fx.file];
      var names := DefinitionNames(e).value;
      var start := ClassStart(content, names.0, 0).value;
      var end := FirstClose(content, start, start).value;
    }
  }

  /** `fix_missing_property` with its brace-counting loop. */
  method FixMissingProperty(e: BuildError, files: Files, repoPath: string) returns (fx: Fix)
    ensures fx == MissingPropertyFix(e, files, repoPath)
  {
    var f := TargetFile(e, files, repoPath);
    if f.None? { return NoFix; }
    var names := DefinitionNames(e);
    if names.None? { return NoFix; }
    var content := files[f.value];
    var start := ClassStart(content, names.value.0, 0);
    if start.None? { return NoFix; }
    var classEnd := FindClassEnd(content, start.value);
    if classEnd.None? { return NoFix; }
    fx := Rewrite(f.value, WithPropertyAsWritten(content, classEnd.value, names.value.1));
  }

  // ---------------------------------------------------------------------------
  // Adding an explicit cast
  // ---------------------------------------------------------------------------

  /** The end of the run of characters satisfying Python's `\s` from `i`. */
  function SpacesEnd(s: string, i: nat): (j: nat)
    requires i <= |s|
    ensures i <= j <= |s| && (j < |s| ==> !IsPySpace(s[j]))
    ensures forall k :: i <= k < j ==> IsPySpace(s[k])
    decreases |s| - i
  {
    if i < |s| && IsPySpace(s[i]) then SpacesEnd(s, i + 1) else i
  }

  /** The end of the run of `\w` characters from `i`. */
  function WordEnd(s: string, i: nat): (j: nat)
    requires i <= |s|
    ensures i <= j <= |s| && (j < |s| ==> !IsWordChar(s[j]))
    ensures forall k :: i <= k < j ==> IsWordChar(s[k])
    decreases |s| - i
  {
    if i < |s| && IsWordChar(s[i]) then WordEnd(s, i + 1) else i
  }

  /** The first ';' at or after `i`. */
  function SemicolonFrom(s: string, i: nat): (j: Option<nat>)
    requires i <= |s|
    ensures j.Some? ==> i <= j.value < |s| && s[j.value] == ';'
    ensures j.Some? ==> forall k :: i <= k < j.value ==> s[k] != ';'
    decreases |s| - i
  {
    if i == |s| then None else if s[i] == ';' then Some(i) else SemicolonFrom(s, i + 1)
  }

  /** A match of `(\w+)\s*=\s*([^;]+);` starting at `i`: the end of the
      variable and the bounds of the expression. The expression runs up to the
      first ';' after the spaces or, when that ';' follows the spaces
      directly, is the last space. */
  function AssignmentAt(s: string, i: nat): (r: Option<(nat, nat, nat)>)
    requires i <= |s|
    ensures r.Some? ==> i < r.value.0 < r.value.1 < r.value.2 < |s| && s[r.value.2] == ';'
    ensures r.Some? ==> forall k :: i <= k < r.value.0 ==> IsWordChar(s[k])
    ensures r.Some? ==> forall k :: r.value.1 <= k < r.value.2 ==> s[k] != ';'
  {
    var w := WordEnd(s, i);
    if w == i then None
    else
      var a := SpacesEnd(s, w);
      if a == |s| || s[a] != '=' then None
      else
        var x := SpacesEnd(s, a + 1);
        match SemicolonFrom(s, x)
        case None => None
        case Some(semi) =>
          if semi > x then Some((w, x, semi))
          else if x > a + 1 then Some((w, x - 1, x))
          else None
  }

  /** `re.search` for the assignment pattern: where the match starts, where
      the variable ends, and the bounds of the expression. */
  function FindAssignment(s: string, from: nat): (r: Option<(nat, nat, nat, nat)>)
    requires from <= |s|
    ensures r.Some? ==> from <= r.value.0 < r.value.1 < r.value.2 < r.value.3 <= |s|
    ensures r.Some? ==> IsWord(s[r.value.0..r.value.1])
    decreases |s| - from
  {
    if from == |s| then None
    else match AssignmentAt(s, from)
      case Some(m) => Some((from, m.0, m.1, m.2))
      case None => FindAssignment(s, from + 1)
  }

  /** `line.replace("v = e", "v = (T)e")`. */
  function CastLine(line: string, v: string, expr: string, target: string): (r: string)
    ensures !Contains(line, v + " = " + expr) ==> r == line
  {
    var pat, rep := v + " = " + expr, v + " = (" + target + ")" + expr;
    if Contains(line, pat) then ReplaceAll(line, pat, rep)
    else
      ReplaceAbsent(line, pat, rep);
      ReplaceAll(line, pat, rep)
  }

  /** The line a conversion fix rewrites, when the record's line number falls
      inside the file and that line has an assignment: its index, the
      variable and the expression. */
  function CastTarget(e: BuildError, content: string): (r: Option<(nat, string, string)>)
    ensures r.Some? ==> e.line == Some(r.value.0 + 1) && r.value.0 < |SplitOn(content, '\n')|
    ensures r.Some? ==> IsWord(r.value.1) && r.value.2 != []
  {
    if e.line.None? then None
    else
      var lines := SplitOn(content, '\n');
      var n := e.line.value;
      if 0 <= n - 1 < |lines| then
        var line := lines[n - 1];
        match FindAssignment(line, 0)
        case None => None
        case Some(m) => Some((n - 1, line[m.0..m.1], line[m.2..m.3]))
      else None
  }

  /** `fix_type_conversion`: the rewrite it makes. */
  function TypeConversionFix(e: BuildError, files: Files, repoPath: string): (fx: Fix)
    ensures fx.Rewrite? ==> Some(fx.file) == TargetFile(e, files, repoPath) && ConversionTypes(e).Some?
    ensures fx.Rewrite? ==> CastTarget(e, files[fx.file]).Some?
  {
    match TargetFile(e, files, repoPath)
    case None => NoFix
    case Some(f) =>
      match ConversionTypes(e)
      case None => NoFix
      case Some(types) =>
        var lines := SplitOn(files[f], '\n');
        match CastTarget(e, files[f])
        case None => NoFix
        case Some(t) =>
          Rewrite(f, JoinWith(lines[t.0 := CastLine(lines[t.0], t.1, t.2, types.1)], '\n'))
  }

  /** `fix_type_conversion`, assigning the rewritten line into the list of lines. */
  method FixTypeConversion(e: BuildError, files: Files, repoPath: string) returns (fx: Fix)
    ensures fx == TypeConversionFix(e, files, repoPath)
  {
    fx := NoFix;
    var f := TargetFile(e, files, repoPath);
    if f.None? { return; }
    var types := ConversionTypes(e);
    if types.None? { return; }
    var lines := SplitOn(files[f.value], '\n');
    if e.line.Some? && 0 <= e.line.value - 1 < |lines| {
      var i := e.line.value - 1;
      var line := lines[i];
      var m := FindAssignment(line, 0);
      if m.Some? {
        var v, expr := line[m.value.0..m.value.1], line[m.value.2..m.value.3];
        assert CastTarget(e, files[f.value]) == Some((i, v, expr));
        lines := lines[i := CastLine(line, v, expr, types.value.1)];
        fx := Rewrite(f.value, JoinWith(lines, '\n'));
      }
    }
  }

  /** A cast fix rewrites only its own line: splitting the new text gives the
      old lines with that one line replaced by its cast form. */
  lemma CastRewritesOneLine(e: BuildError, files: Files, repoPath: string)
    requires TypeConversionFix(e, files, repoPath).Rewrite?
    requires '\n' !in ConversionTypes(e).value.1
    ensures var fx := TypeConversionFix(e, files, repoPath);
      var lines := SplitOn(files[fx.file], '\n');
      var t := CastTarget(e, files[fx.file]).value;
      SplitOn(fx.text, '\n') == lines[t.0 := CastLine(lines[t.0], t.1, t.2, ConversionTypes(e).value.1)]
  {
    var fx := TypeConversionFix(e, files, repoPath);
    var lines := SplitOn(files[fx.file], '\n');
    var t := CastTarget(e, files[fx.file]).value;
    var target := ConversionTypes(e).value.1;
    SplitPiecesFree(files[fx.file], '\n');
    var m := FindAssignment(lines[t.0], 0).value;
    CastLineFree(lines[t.0], m.0, m.1, m.2, m.3, target);
    ReplacedLineSplits(lines, t.0, CastLine(lines[t.0], t.1, t.2, target));
  }

  /** A cast line holds a line break only if the line or the type does. */
  lemma CastLineFree(line: string, a: nat, b: nat, c: nat, d: nat, target: string)
    requires a <= b <= |line| && c <= d <= |line|
    requires '\n' !in line && '\n' !in target
    ensures '\n' !in CastLine(line, line[a..b], line[c..d], target)
  {
    var v, expr := line[a..b], line[c..d];
    assert forall k :: 0 <= k < |v| ==> v[k] == line[a + k];
    assert forall k :: 0 <= k < |expr| ==> expr[k] == line[c + k];
    ReplaceKeepsOut(line, v + " = " + expr, v + " = (" + target + ")" + expr, '\n');
  }

  /** Replacing one break-free line of a list of break-free lines and joining
      them splits back into the new list. */
  lemma ReplacedLineSplits(lines: seq<string>, i: nat, newLine: string)
    requires i < |lines| && '\n' !in newLine
    requires forall k :: 0 <= k < |lines| ==> '\n' !in lines[k]
    ensures SplitOn(JoinWith(lines[i := newLine], '\n'), '\n') == lines[i := newLine]
  {
    var updated := lines[i := newLine];
    assert forall k :: 0 <= k < |updated| ==> '\n' !in updated[k];
    SplitJoin(updated, '\n');
  }

  /** The fix reports success even when the literal "v = e" is not on the line
      (as in `x=f();`): the file is then written back unchanged. */
  lemma CastWithoutLiteralKeepsText(e: BuildError, files: Files, repoPath: string)
    requires TypeConversionFix(e, files, repoPath).Rewrite?
    requires var fx := TypeConversionFix(e, files, repoPath);
      var t := CastTarget(e, files[fx.file]).value;
      !Contains(SplitOn(files[fx.file], '\n')[t.0], t.1 + " = " + t.2)
    ensures var fx := TypeConversionFix(e, files, repoPath); fx.text == files[fx.file]
  {
    var fx := TypeConversionFix(e, files, repoPath);
    var lines := SplitOn(files[fx.file], '\n');
    var t := CastTarget(e, files[fx.file]).value;
    var target := ConversionTypes(e).value.1;
    ReplaceAbsent(lines[t.0], t.1 + " = " + t.2, t.1 + " = (" + target + ")" + t.2);
    assert lines[t.0 := CastLine(lines[t.0], t.1, t.2, target)] == lines;
    JoinSplit(files[fx.file], '\n');
  }

  // ---------------------------------------------------------------------------
  // Applying the fixes
  // ---------------------------------------------------------------------------

  /** The kinds `fix_errors` has a fixer for. */
  predicate IsFixable(k: ErrorKind) { IsDefinitionKind(k) || IsConversionKind(k) }

  /** The fixer `fix_errors` calls for one record, on the tree as it is then. */
  function FixOne(e: BuildError, files: Files, repoPath: string): (fx: Fix)
    ensures !IsFixable(e.kind) ==> fx == NoFix
  {
    if IsDefinitionKind(e.kind) then MissingPropertyFix(e, files, repoPath)
    else if IsConversionKind(e.kind) then TypeConversionFix(e, files, repoPath)
    else NoFix
  }

  /** The number of successful fixes and the tree after fixing `errors` in order. */
  function FixAll(errors: seq<BuildError>, files: Files, repoPath: string): (r: (nat, Files))
    ensures r.0 <= |errors|
    decreases |errors|
  {
    if errors == [] then (0, files)
    else AfterFix(FixAll(errors[..|errors| - 1], files, repoPath), errors[|errors| - 1], repoPath)
  }

  /** One more error handled: the count goes up when its fix is a rewrite. */
  function AfterFix(before: (nat, Files), e: BuildError, repoPath: string): (r: (nat, Files))
    ensures before.0 <= r.0 <= before.0 + 1
  {
    Counted(before, FixOne(e, before.1, repoPath))
  }

  function Counted(before: (nat, Files), fx: Fix): (nat, Files)
  {
    (before.0 + (if fx.Rewrite? then 1 else 0), Apply(before.1, fx))
  }

  function CountFixable(errors: seq<BuildError>): nat
  {
    if errors == [] then 0
    else CountFixable(errors[..|errors| - 1]) + (if IsFixable(errors[|errors| - 1].kind) then 1 else 0)
  }

  /** Only records with a fixer can count, and records without one leave the
      tree alone. */
  lemma {:induction false} FixAllBounded(errors: seq<BuildError>, files: Files, repoPath: string)
    ensures FixAll(errors, files, repoPath).0 <= CountFixable(errors)
    ensures CountFixable(errors) == 0 ==> FixAll(errors, files, repoPath) == (0, files)
    decreases |errors|
  {
    if errors != [] {
      FixAllBounded(errors[..|errors| - 1], files, repoPath);
    }
  }

  /** A file the fixes rewrite is a file that was there. */
  lemma {:induction false} FixAllKeepsFiles(errors: seq<BuildError>, files: Files, repoPath: string)
    ensures FixAll(errors, files, repoPath).1.Keys == files.Keys
    decreases |errors|
  {
    if errors != [] {
      var before := FixAll(errors[..|errors| - 1], files, repoPath);
      FixAllKeepsFiles(errors[..|errors| - 1], files, repoPath);
      var e := errors[|errors| - 1];
      var fx := FixOne(e, before.1, repoPath);
      if fx.Rewrite? {
        assert Some(fx.file) == TargetFile(e, before.1, repoPath);
      }
    }
  }

  /** The dispatch on the record's kind. */
  method ApplyFixer(e: BuildError, files: Files, repoPath: string) returns (fx: Fix)
    ensures fx == FixOne(e, files, repoPath)
  {
    fx := NoFix;
    if IsDefinitionKind(e.kind) {
      fx := FixMissingProperty(e, files, repoPath);
    } else if IsConversionKind(e.kind) {
      fx := FixTypeConversion(e, files, repoPath);
    }
  }

  lemma AfterFixOf(n: nat, fs: Files, e: BuildError, repoPath: string, fx: Fix)
    requires fx == FixOne(e, fs, repoPath)
    ensures AfterFix((n, fs), e, repoPath) == (n + (if fx.Rewrite? then 1 else 0), Apply(fs, fx))
  {
    assert AfterFix((n, fs), e, repoPath) == Counted((n, fs), fx);
    CountedPair(n, fs, fx);
  }

  lemma CountedPair(n: nat, fs: Files, fx: Fix)
    ensures Counted((n, fs), fx) == (n + (if fx.Rewrite? then 1 else 0), Apply(fs, fx))
  {
  }

  /** The count and tree after one more error, found from those before it. */
  lemma FixAllStep(errors: seq<BuildError>, i: nat, files: Files, repoPath: string, n: nat, fs: Files, fx: Fix)
    requires i < |errors| && FixAll(errors[..i], files, repoPath) == (n, fs)
    requires fx == FixOne(errors[i], fs, repoPath)
    ensures FixAll(errors[..i + 1], files, repoPath) == (n + (if fx.Rewrite? then 1 else 0), Apply(fs, fx))
  {
    FixAllSnoc(errors, i, files, repoPath, (n, fs));
    AfterFixOf(n, fs, errors[i], repoPath, fx);
  }

  lemma FixAllSnoc(errors: seq<BuildError>, i: nat, files: Files, repoPath: string, before: (nat, Files))
    requires i < |errors| && FixAll(errors[..i], files, repoPath) == before
    ensures FixAll(errors[..i + 1], files, repoPath) == AfterFix(before, errors[i], repoPath)
  {
    assert errors[..i + 1][..i] == errors[..i];
  }

  /** `fix_errors`. */
  method FixErrors(errors: seq<BuildError>, files: Files, repoPath: string) returns (fixesApplied: nat, after: Files)
    ensures (fixesApplied, after) == FixAll(errors, files, repoPath)
  {
    fixesApplied := 0;
    after := files;
    assert errors[..0] == [];
    for i := 0 to |errors|
      invariant (fixesApplied, after) == FixAll(errors[..i], files, repoPath)
    {
      var fx := ApplyFixer(errors[i], after, repoPath);
      FixAllStep(errors, i, files, repoPath, fixesApplied, after, fx);
      if fx.Rewrite? {
        fixesApplied := fixesApplied + 1;
      }
      after := Apply(after, fx);
    }
    assert errors[..|errors|] == errors;
  }
}


// The monitor's error taxonomy: seven message patterns, tried in declaration
// order, each naming an error kind (Scripts/github_actions_monitor.py:31-67),
// and the first-match classification of a build error (lines 199-206).
//
// Every pattern is a chain of literal texts and captured runs, where a run is
// `(\w+)` or `([^']+)` and is always followed by a literal that starts with a
// character outside the run's class. Under that shape a regular-expression
// match is unique and is found by taking each run greedily; `Matches` is the
// regex reading (some split of the text fits the pattern) and `MatchAt` the
// greedy matcher, proved to agree with it.

module ErrorTaxonomy {
  import opened Wrappers
  import opened Text

  datatype Tok = Lit(text: string) | Word | NonQuote

  /** Whether `c` can extend a run of kind `t` (a literal has no run). */
  predicate InRun(t: Tok, c: char)
  {
    match t
    case Lit(_) => false
    case Word => IsWordChar(c)
    case NonQuote => c != '\''
  }

  /** Every run is followed by a literal whose first character ends the run. */
  predicate WellFormed(p: seq<Tok>)
  {
    forall k :: 0 <= k < |p| && !p[k].Lit? ==>
      k + 1 < |p| && p[k + 1].Lit? && p[k + 1].text != [] && !InRun(p[k], p[k + 1].text[0])
  }

  /** Length of the longest prefix of `s` whose characters all belong to run `t`. */
  function RunLength(s: string, t: Tok): (n: nat)
    ensures n <= |s|
    ensures forall k :: 0 <= k < n ==> InRun(t, s[k])
    ensures n < |s| ==> !InRun(t, s[n])
    decreases |s|
  {
    if s != [] && InRun(t, s[0]) then 1 + RunLength(s[1..], t) else 0
  }

  /** Regex reading: the pattern matches at the start of `s` with captures `caps`. */
  ghost predicate Matches(s: string, p: seq<Tok>, caps: seq<string>)
    decreases |p|
  {
    if p == [] then caps == []
    else if p[0].Lit? then p[0].text <= s && Matches(s[|p[0].text|..], p[1..], caps)
    else
      caps != [] &&
      exists n :: 1 <= n <= |s| && (forall k :: 0 <= k < n ==> InRun(p[0], s[k])) &&
        caps[0] == s[..n] && Matches(s[n..], p[1..], caps[1..])
  }

  /** Greedy matcher: the captures of the match at the start of `s`, if any. */
  function MatchAt(s: string, p: seq<Tok>): (r: Option<seq<string>>)
    ensures r.Some? ==> [] !in r.value
    decreases |p|
  {
    if p == [] then Some([])
    else if p[0].Lit? then
      if p[0].text <= s then MatchAt(s[|p[0].text|..], p[1..]) else None
    else
      var n := RunLength(s, p[0]);
      if n == 0 then None
      else match MatchAt(s[n..], p[1..])
        case None => None
        case Some(caps) => Some([s[..n]] + caps)
  }

  lemma WellFormedTail(p: seq<Tok>)
    requires p != [] && WellFormed(p)
    ensures WellFormed(p[1..])
  {
    forall k | 0 <= k < |p[1..]| && !p[1..][k].Lit?
      ensures k + 1 < |p[1..]| && p[1..][k + 1].Lit? && p[1..][k + 1].text != []
      ensures !InRun(p[1..][k], p[1..][k + 1].text[0])
    {
      assert p[1..][k] == p[k + 1];
    }
  }

  /** The greedy matcher finds exactly the regex matches. */
  lemma {:induction false} MatchAtIsRegexMatch(s: string, p: seq<Tok>, caps: seq<string>)
    requires WellFormed(p)
    ensures MatchAt(s, p) == Some(caps) <==> Matches(s, p, caps)
    decreases |p|
  {
    if p != [] {
      WellFormedTail(p);
      if p[0].Lit? {
        if p[0].text <= s {
          MatchAtIsRegexMatch(s[|p[0].text|..], p[1..], caps);
        }
      } else {
        var n := RunLength(s, p[0]);
        if MatchAt(s, p) == Some(caps) {
          MatchAtIsRegexMatch(s[n..], p[1..], caps[1..]);
          assert caps[1..] == MatchAt(s[n..], p[1..]).value;
        }
        if Matches(s, p, caps) {
          var m :| 1 <= m <= |s| && (forall k :: 0 <= k < m ==> InRun(p[0], s[k])) &&
            caps[0] == s[..m] && Matches(s[m..], p[1..], caps[1..]);
          assert m == n;
          MatchAtIsRegexMatch(s[n..], p[1..], caps[1..]);
          assert caps == [s[..n]] + caps[1..];
        }
      }
    }
  }

  /** `re.search`: the captures of the leftmost match at index `from` or later. */
  function SearchFrom(s: string, p: seq<Tok>, from: nat): (r: Option<(nat, seq<string>)>)
    requires from <= |s|
    ensures r.Some? ==> from <= r.value.0 <= |s| && MatchAt(s[r.value.0..], p) == Some(r.value.1)
    decreases |s| - from
  {
    match MatchAt(s[from..], p)
    case Some(caps) => Some((from, caps))
    case None => if from == |s| then None else SearchFrom(s, p, from + 1)
  }

  /** The match `SearchFrom` finds is the leftmost, and when it finds none
      there is no match at any index from `from` on. */
  lemma {:induction false} SearchFromLeftmost(s: string, p: seq<Tok>, from: nat)
    requires from <= |s|
    ensures var r := SearchFrom(s, p, from);
      r.Some? ==> forall i {:trigger MatchAt(s[i..], p)} :: from <= i < r.value.0 ==> MatchAt(s[i..], p).None?
    ensures SearchFrom(s, p, from).None? ==>
      forall i {:trigger MatchAt(s[i..], p)} :: from <= i <= |s| ==> MatchAt(s[i..], p).None?
    decreases |s| - from
  {
    var here := MatchAt(s[from..], p);
    if here.None? && from < |s| {
      SearchFromLeftmost(s, p, from + 1);
    }
  }

  function Search(s: string, p: seq<Tok>): (r: Option<seq<string>>)
    ensures r.None? <==> forall i :: 0 <= i <= |s| ==> MatchAt(s[i..], p).None?
    ensures r.Some? ==> exists i :: 0 <= i <= |s| && MatchAt(s[i..], p) == r &&
                                    forall j :: 0 <= j < i ==> MatchAt(s[j..], p).None?
  {
    SearchFromLeftmost(s, p, 0);
    match SearchFrom(s, p, 0)
    case None => None
    case Some(hit) => Some(hit.1)
  }

  datatype ErrorKind =
    | MissingProperty | MissingNamespace | RazorSyntax | TypeConversion
    | MissingDefinition | ImplicitConversion | MissingMember | Unknown

  /** The `type` string the monitor stores for a kind. */
  function TypeName(k: ErrorKind): string
  {
    match k
    case MissingProperty => "missing_property"
    case MissingNamespace => "missing_namespace"
    case RazorSyntax => "razor_syntax"
    case TypeConversion => "type_conversion"
    case MissingDefinition => "missing_definition"
    case ImplicitConversion => "implicit_conversion"
    case MissingMember => "missing_member"
    case Unknown => "unknown"
  }

  /** The `description` string the monitor stores for a kind. */
  function Description(k: ErrorKind): string
  {
    match k
    case MissingProperty => "Missing property in view model"
    case MissingNamespace => "Missing using directive or reference"
    case RazorSyntax => "Invalid Razor syntax in view"
    case TypeConversion => "Type conversion error"
    case MissingDefinition => "Missing property or method definition"
    case ImplicitConversion => "Cannot implicitly convert between types"
    case MissingMember => "Missing member in class"
    case Unknown => "Unknown error type"
  }

  const DefinitionTail: seq<Tok> := [Word, Lit("' does not contain a definition for '"), Word, Lit("'")]
  const ConversionTail: seq<Tok> := [NonQuote, Lit("' to '"), NonQuote, Lit("'")]

  /** `'(\w+)' does not contain a definition for '(\w+)'` */
  const MissingDefinitionPattern: seq<Tok> := [Lit("'")] + DefinitionTail
  /** `Cannot implicitly convert type '([^']+)' to '([^']+)'` */
  const ConversionPattern: seq<Tok> := [Lit("Cannot implicitly convert type '")] + ConversionTail

  datatype Rule = Rule(pattern: seq<Tok>, kind: ErrorKind)

  /** ERROR_PATTERNS in declaration order. */
  const Rules: seq<Rule> := [
    Rule(MissingDefinitionPattern, MissingProperty),
    Rule([Lit("The type or namespace name '"), Word, Lit("' could not be found")], MissingNamespace),
    Rule([Lit("The attribute '"), NonQuote, Lit("' is not a valid attribute")], RazorSyntax),
    Rule(ConversionPattern, TypeConversion),
    Rule([Lit("error CS1061: " + "'")] + DefinitionTail, MissingDefinition),
    Rule([Lit("error CS0266: " + "Cannot implicitly convert type '")] + ConversionTail, ImplicitConversion),
    Rule([Lit("error CS0117: " + "'")] + DefinitionTail, MissingMember)
  ]

  lemma RulesWellFormed()
    ensures forall k :: 0 <= k < |Rules| ==> WellFormed(Rules[k].pattern)
  {
    forall k | 0 <= k < |Rules| ensures WellFormed(Rules[k].pattern) {
      RuleWellFormed(k);
    }
  }

  lemma RuleWellFormed(k: nat)
    requires k < |Rules|
    ensures WellFormed(Rules[k].pattern)
  {
    TailsWellFormed();
    if k == 0 {
      LitThenWellFormed(Lit("'"), DefinitionTail);
    } else if k == 3 {
      LitThenWellFormed(Lit("Cannot implicitly convert type '"), ConversionTail);
    } else if k == 4 {
      LitThenWellFormed(Lit("error CS1061: " + "'"), DefinitionTail);
    } else if k == 5 {
      LitThenWellFormed(Lit("error CS0266: " + "Cannot implicitly convert type '"), ConversionTail);
    } else if k == 6 {
      LitThenWellFormed(Lit("error CS0117: " + "'"), DefinitionTail);
    }
  }

  lemma TailsWellFormed()
    ensures WellFormed(DefinitionTail) && WellFormed(ConversionTail)
  {
    var lit := "' does not contain a definition for '";
    assert lit[0] == '\'';
    RunLitRunLit(Word, Lit(lit), Word, Lit("'"));
    RunLitRunLit(NonQuote, Lit("' to '"), NonQuote, Lit("'"));
  }

  /** A run, a literal that ends it, a run and a literal that ends that. */
  lemma RunLitRunLit(a: Tok, b: Tok, c: Tok, d: Tok)
    requires !a.Lit? && b.Lit? && b.text != [] && !InRun(a, b.text[0])
    requires !c.Lit? && d.Lit? && d.text != [] && !InRun(c, d.text[0])
    ensures WellFormed([a, b, c, d])
  {
  }

  /** A literal in front of a well-formed pattern keeps it well formed. */
  lemma LitThenWellFormed(head: Tok, tail: seq<Tok>)
    requires head.Lit? && WellFormed(tail)
    ensures WellFormed([head] + tail)
  {
    var p := [head] + tail;
    forall k | 0 <= k < |p| && !p[k].Lit?
      ensures k + 1 < |p| && p[k + 1].Lit? && p[k + 1].text != [] && !InRun(p[k], p[k + 1].text[0])
    {
      assert p[k] == tail[k - 1] && p[k + 1] == tail[k];
    }
  }

  /** The text a rule is also tried against: `f"error {code}: {message}"`. */
  function Prefixed(code: string, message: string): string
  {
    "error " + code + ": " + message
  }

  predicate RuleFires(r: Rule, code: string, message: string)
  {
    Search(message, r.pattern).Some? || Search(Prefixed(code, message), r.pattern).Some?
  }

  /** Index of the first `true` at or after `from`. */
  function FirstTrue(fires: seq<bool>, from: nat): (r: Option<nat>)
    requires from <= |fires|
    ensures r.Some? ==> from <= r.value < |fires| && fires[r.value]
    ensures r.Some? ==> forall j :: from <= j < r.value ==> !fires[j]
    ensures r.None? ==> forall j :: from <= j < |fires| ==> !fires[j]
    decreases |fires| - from
  {
    if from == |fires| then None
    else if fires[from] then Some(from)
    else FirstTrue(fires, from + 1)
  }

  /** Which of `rules` fire for a build error, in order. */
  function Firing(rules: seq<Rule>, code: string, message: string): (fires: seq<bool>)
    ensures |fires| == |rules|
    ensures forall j :: 0 <= j < |rules| ==> (fires[j] <==> RuleFires(rules[j], code, message))
  {
    seq(|rules|, j requires 0 <= j < |rules| => RuleFires(rules[j], code, message))
  }

  /** First-match classification against a rule list: the kind of the first rule that
      fires, or Unknown when none does. */
  function ClassifyWith(rules: seq<Rule>, code: string, message: string): (k: ErrorKind)
    ensures (forall j :: 0 <= j < |rules| ==> !RuleFires(rules[j], code, message)) ==> k == Unknown
    ensures forall j :: (0 <= j < |rules| && RuleFires(rules[j], code, message) &&
                         forall i :: 0 <= i < j ==> !RuleFires(rules[i], code, message))
                        ==> k == rules[j].kind
    ensures (exists j :: 0 <= j < |rules| && RuleFires(rules[j], code, message)) ==>
              exists j :: 0 <= j < |rules| && k == rules[j].kind
  {
    var fires := Firing(rules, code, message);
    match FirstTrue(fires, 0)
    case None => Unknown
    case Some(j) =>
      assert forall j' :: 0 <= j' < |rules| && fires[j'] && (forall i :: 0 <= i < j' ==> !fires[i]) ==> j' == j;
      rules[j].kind
  }

  /** The for/else loop of lines 199-206 over ERROR_PATTERNS. */
  function Classify(code: string, message: string): (k: ErrorKind)
    ensures k == Unknown <==> forall j :: 0 <= j < |Rules| ==> !RuleFires(Rules[j], code, message)
  {
    assert forall j :: 0 <= j < |Rules| ==> Rules[j].kind != Unknown;
    ClassifyWith(Rules, code, message)
  }

  /** A match of `[Lit(a + b)] + rest` contains a match of `[Lit(b)] + rest`, |a| later. */
  lemma DropLiteralPrefix(s: string, a: string, b: string, rest: seq<Tok>)
    requires MatchAt(s, [Lit(a + b)] + rest).Some?
    ensures |a| <= |s| && MatchAt(s[|a|..], [Lit(b)] + rest) == MatchAt(s, [Lit(a + b)] + rest)
  {
    var p := [Lit(a + b)] + rest;
    assert p[1..] == rest;
    var q := [Lit(b)] + rest;
    assert q[1..] == rest;
    assert s[|a|..][|b|..] == s[|a + b|..];
  }

  /** Wherever `[Lit(a + b)] + rest` is found, `[Lit(b)] + rest` is found too. */
  lemma SearchDropsPrefix(s: string, a: string, b: string, rest: seq<Tok>)
    requires Search(s, [Lit(a + b)] + rest).Some?
    ensures Search(s, [Lit(b)] + rest).Some?
  {
    var hit := SearchFrom(s, [Lit(a + b)] + rest, 0).value;
    var i := hit.0;
    DropLiteralPrefix(s[i..], a, b, rest);
    assert s[i..][|a|..] == s[i + |a|..];
    SearchFromLeftmost(s, [Lit(b)] + rest, 0);
  }

  /** A rule whose pattern is another's with a literal prefix added fires only where the other does. */
  lemma FiresDropsPrefix(narrow: Rule, broad: Rule, code: string, message: string,
                         a: string, b: string, rest: seq<Tok>)
    requires narrow.pattern == [Lit(a + b)] + rest && broad.pattern == [Lit(b)] + rest
    ensures RuleFires(narrow, code, message) ==> RuleFires(broad, code, message)
  {
    if Search(message, narrow.pattern).Some? {
      SearchDropsPrefix(message, a, b, rest);
    }
    if Search(Prefixed(code, message), narrow.pattern).Some? {
      SearchDropsPrefix(Prefixed(code, message), a, b, rest);
    }
  }

  /** A rule whose pattern is an earlier rule's pattern behind an extra literal prefix never
      decides the kind, unless some other rule shares its kind. */
  lemma ShadowedKind(rules: seq<Rule>, code: string, message: string, early: nat, late: nat,
                     a: string, b: string, rest: seq<Tok>)
    requires early < late < |rules|
    requires rules[late].pattern == [Lit(a + b)] + rest && rules[early].pattern == [Lit(b)] + rest
    requires rules[late].kind != Unknown
    requires forall j :: 0 <= j < |rules| && j != late ==> rules[j].kind != rules[late].kind
    ensures ClassifyWith(rules, code, message) != rules[late].kind
  {
    FiresDropsPrefix(rules[late], rules[early], code, message, a, b, rest);
    var fires := Firing(rules, code, message);
    var first := FirstTrue(fires, 0);
    if first.Some? {
      var j := first.value;
      assert j != late;
      assert ClassifyWith(rules, code, message) == rules[j].kind;
    }
  }

  /** The CS1061 rule (line 53) fires only where rule 33 fires, so a CS1061 line is missing_property. */
  lemma Cs1061Shadowed(code: string, message: string)
    ensures Classify(code, message) != MissingDefinition
  {
    ShadowedKind(Rules, code, message, 0, 4, "error CS1061: ", "'", DefinitionTail);
  }

  /** The CS0117 rule (line 63) fires only where rule 33 fires. */
  lemma Cs0117Shadowed(code: string, message: string)
    ensures Classify(code, message) != MissingMember
  {
    ShadowedKind(Rules, code, message, 0, 6, "error CS0117: ", "'", DefinitionTail);
  }

  /** The CS0266 rule (line 58) fires only where rule 48 fires. */
  lemma Cs0266Shadowed(code: string, message: string)
    ensures Classify(code, message) != ImplicitConversion
  {
    ShadowedKind(Rules, code, message, 3, 5, "error CS0266: ", "Cannot implicitly convert type '", ConversionTail);
  }

  lemma {:induction false} RunLengthOf(w: string, tail: string, t: Tok)
    requires forall k :: 0 <= k < |w| ==> InRun(t, w[k])
    requires tail == [] || !InRun(t, tail[0])
    ensures RunLength(w + tail, t) == |w|
    decreases |w|
  {
    if w != [] {
      assert (w + tail)[1..] == w[1..] + tail;
      RunLengthOf(w[1..], tail, t);
    }
  }

  predicate IsWord(w: string) { w != [] && forall k :: 0 <= k < |w| ==> IsWordChar(w[k]) }

  lemma ConcatRight<T>(a: seq<T>, b: seq<T>, c: seq<T>, d: seq<T>, e: seq<T>, f: seq<T>)
    ensures a + b + c + d + e + f == a + (b + (c + (d + (e + f))))
  {
  }

  lemma MatchLiteral(s: string, l: string, rest: seq<Tok>)
    requires l <= s
    ensures MatchAt(s, [Lit(l)] + rest) == MatchAt(s[|l|..], rest)
  {
    assert ([Lit(l)] + rest)[1..] == rest;
  }

  lemma MatchWord(w: string, tail: string, rest: seq<Tok>)
    requires IsWord(w) && (tail == [] || !IsWordChar(tail[0]))
    requires MatchAt(tail, rest).Some?
    ensures MatchAt(w + tail, [Word] + rest) == Some([w] + MatchAt(tail, rest).value)
  {
    RunLengthOf(w, tail, Word);
    assert ([Word] + rest)[1..] == rest;
    assert (w + tail)[|w|..] == tail && (w + tail)[..|w|] == w;
  }

  /** Rule 33 matches `'Class' does not contain a definition for 'Member'` at the start of a
      text, capturing the two names. */
  /** The part of the missing-definition pattern after the class name. */
  lemma DefinitionTailShape(member: string, rest: string)
    requires IsWord(member)
    ensures MatchAt("' does not contain a definition for '" + (member + ("'" + rest)), DefinitionTail[1..])
            == Some([member])
  {
    var lit := "' does not contain a definition for '";
    var t4 := "'" + rest;
    var t3 := member + t4;
    var t2 := lit + t3;
    MatchLiteral(t4, "'", []);
    assert t4[1..] == rest;
    assert MatchAt(t4, [Lit("'")]) == Some([]) by { assert [Lit("'")] + [] == [Lit("'")]; }
    MatchWord(member, t4, [Lit("'")]);
    assert [Word] + [Lit("'")] == [Word, Lit("'")];
    assert [member] + [] == [member];
    assert MatchAt(t3, [Word, Lit("'")]) == Some([member]);
    MatchLiteral(t2, lit, [Word, Lit("'")]);
    assert t2[|lit|..] == t3;
    assert [Lit(lit)] + [Word, Lit("'")] == DefinitionTail[1..];
  }

  lemma DefinitionShape(cls: string, member: string, rest: string)
    requires IsWord(cls) && IsWord(member)
    ensures MatchAt("'" + cls + "' does not contain a definition for '" + member + "'" + rest,
                    MissingDefinitionPattern) == Some([cls, member])
  {
    var lit := "' does not contain a definition for '";
    var t2 := lit + (member + ("'" + rest));
    var t1 := cls + t2;
    ConcatRight("'", cls, lit, member, "'", rest);
    DefinitionTailShape(member, rest);
    MatchWord(cls, t2, DefinitionTail[1..]);
    assert [Word] + DefinitionTail[1..] == DefinitionTail;
    assert [cls] + [member] == [cls, member];
    assert MatchAt(t1, DefinitionTail) == Some([cls, member]);
    MatchLiteral("'" + t1, "'", DefinitionTail);
    assert ("'" + t1)[1..] == t1;
  }

  /** Any message that begins with `'Class' does not contain a definition for 'Member'` is
      missing_property, whatever its code. */
  lemma DefinitionMessageIsMissingProperty(code: string, cls: string, member: string, rest: string)
    requires IsWord(cls) && IsWord(member)
    ensures Classify(code, "'" + cls + "' does not contain a definition for '" + member + "'" + rest)
            == MissingProperty
  {
    var message := "'" + cls + "' does not contain a definition for '" + member + "'" + rest;
    DefinitionShape(cls, member, rest);
    assert message[0..] == message;
    assert Rules[0].pattern == MissingDefinitionPattern;
    assert SearchFrom(message, Rules[0].pattern, 0).Some?;
    assert RuleFires(Rules[0], code, message);
  }

  /** The CS1061 line of the monitor's extraction test (Scripts/test_monitor.py:30) is
      classified missing_property. */
  lemma TestLineIsMissingProperty(code: string, cls: string, member: string, rest: string)
    requires code == "CS1061" && cls == "ClientListViewModel" && member == "Clients"
    requires rest == " and no accessible extension method 'Clients' accepting a first argument of type 'ClientListViewModel' could be found"
    ensures Classify(code, "'" + cls + "' does not contain a definition for '" + member + "'" + rest) == MissingProperty
  {
    LiteralIsWord(cls);
    LiteralIsWord(member);
    DefinitionMessageIsMissingProperty(code, cls, member, rest);
  }

  lemma LiteralIsWord(w: string)
    requires w == "ClientListViewModel" || w == "Clients"
    ensures IsWord(w)
  {
  }
}

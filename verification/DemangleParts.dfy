/** The parts of names: each part of `DemangleSymbols` that is mangled is read whole by the demangler, and shown. */
module DemangleParts {
  import opened Wrappers
  import opened DemangleGrammar
  import opened DemangleTheory
  import opened DemangleStarts
  import opened DemangleNest
  import opened DemangleSymbols
  import FlagValues

  // ---------------------------------------------------------------------------
  // Numbers

  lemma DecimalAppend(w: string, d: nat)
    requires d < 10
    ensures Decimal(w + [('0' as int + d) as char]) == Decimal(w) * 10 + d
  {
    var u := w + [('0' as int + d) as char];
    assert u[..|u| - 1] == w;
  }

  lemma NumeralStep(n: nat)
    ensures FlagValues.Numeral(n) ==
      (if n < 10 then "" else FlagValues.Numeral(n / 10)) + [('0' as int + n % 10) as char]
  {
  }

  lemma {:induction false} NumeralValue(n: nat)
    ensures Decimal(FlagValues.Numeral(n)) == n
  {
    hide Decimal, FlagValues.Numeral;
    NumeralStep(n);
    if n < 10 {
      DecimalAppend("", n % 10);
      EmptyDecimal();
    } else {
      NumeralValue(n / 10);
      DecimalAppend(FlagValues.Numeral(n / 10), n % 10);
    }
  }

  lemma NumeralDigits(n: nat)
    ensures FlagValues.Numeral(n) != "" && forall k :: 0 <= k < |FlagValues.Numeral(n)| ==>
      IsDigit(FlagValues.Numeral(n)[k])
  {
    FlagValues.NumeralDenotes(n);
  }

  lemma {:induction false} RunEndIs(s: string, i: nat, j: nat, cs: string)
    requires i <= j <= |s| && (forall k :: i <= k < j ==> s[k] in cs) && (j < |s| ==> s[j] !in cs)
    ensures RunEnd(s, i, cs) == j
    decreases j - i
  {
    if i < j { RunEndIs(s, i + 1, j, cs); }
  }

  lemma DigitsEndHere(s: string, i: nat, j: nat)
    requires i <= j <= |s| && (forall k :: i <= k < j ==> IsDigit(s[k])) && (j < |s| ==> !IsDigit(s[j]))
    ensures RunEnd(s, i, Digits()) == j
  {
    forall k | i <= k < j ensures s[k] in Digits() { DigitClass(s[k]); }
    if j < |s| { DigitClass(s[j]); }
    hide Digits;
    RunEndIs(s, i, j, Digits());
  }

  lemma AtParts(s: string, i: nat, a: string, b: string)
    requires At(s, i, a + b)
    ensures At(s, i, a) && At(s, i + |a|, b) && i + |a| + |b| <= |s|
  {
    var t := s[i..i + |a + b|];
    assert t[..|a|] == a && t[|a|..] == b;
    assert s[i..i + |a|] == t[..|a|] && s[i + |a|..i + |a| + |b|] == t[|a|..];
  }

  lemma AtCharacters(s: string, i: nat, a: string)
    requires At(s, i, a)
    ensures i + |a| <= |s| && forall k :: i <= k < i + |a| ==> s[k] == a[k - i]
  {
    var t := s[i..i + |a|];
    forall k | i <= k < i + |a|
      ensures s[k] == a[k - i]
    {
      assert t[k - i] == s[k];
    }
  }

  lemma NumeralReads(s: string, i: nat, n: nat)
    requires At(s, i, FlagValues.Numeral(n))
    requires var e := i + |FlagValues.Numeral(n)|; e < |s| ==> !IsDigit(s[e])
    ensures i < |s| && IsDigit(s[i])
    ensures DigitsStart(s, i) == i && DigitsEnd(s, i) == i + |FlagValues.Numeral(n)| && NumberAt(s, i) == n
  {
    hide Decimal, FlagValues.Numeral, RunEnd, Digits;
    var w := FlagValues.Numeral(n);
    NumeralDigits(n);
    NumeralValue(n);
    AtCharacters(s, i, w);
    assert s[i] == w[0];
    DigitsEndHere(s, i, i + |w|);
  }

  /** The number of a thunk, an array, a template parameter or a literal. */
  lemma NumberReads(n: string, s: string, i: nat, c: Context)
    requires IsOffset(n) && At(s, i, n) && i + |n| < |s| && !IsDigit(s[i + |n|])
    ensures Eval(NT(Number), s, i, c) == Outcome(true, i + |n|, c)
  {
    hide Eval, RunEnd, Digits;
    AtCharacters(s, i, n);
    NumberOutcome(s, i, c);
    var d := if n[0] == 'n' then i + 1 else i;
    assert s[i] == n[0];
    assert DigitsStart(s, i) == d;
    forall k | d <= k < i + |n| ensures IsDigit(s[k]) {
      assert s[k] == n[k - i] && n[k - i] in n;
      if d > i {
        assert n[0] in n;
        assert n[1..][k - i - 1] == n[k - i] && n[k - i] in n[1..];
      }
    }
    DigitsEndHere(s, d, i + |n|);
    assert n[0] in n && d < i + |n|;
  }

  // ---------------------------------------------------------------------------
  // Reading

  /** What is on display, the nest level, and that appending is on. */
  ghost predicate Says(c: Context, v: Display, nest: int) {
    && c.out == v.out && c.prev == v.last && c.nest == nest && c.append
    && (v.last != "" ==> IsAlpha(v.last[0]) || v.last[0] == '_')
  }

  /** g reads s from i to j: what is on display after it, and that the output was never more than two characters
      longer than it is then (the length of a separator). */
  ghost predicate Reads(g: Grammar, s: string, i: nat, c: Context, j: nat, v: Display, nest: int) {
    && i <= |s| && var r := Eval(g, s, i, c);
    && r.ok && r.pos == j && Says(r.c, v, nest)
    && |c.out| <= |v.out| && r.c.peak <= Max(c.peak, |v.out| + 2) && r.c.rewound == c.rewound
  }

  /** g reads s from i to j, whatever it prints. */
  ghost predicate Accepts(g: Grammar, s: string, i: nat, c: Context, j: nat) {
    i <= |s| && var r := Eval(g, s, i, c); r.ok && r.pos == j && r.c.rewound == c.rewound
  }

  lemma SaysOut(c: Context, v: Display, nest: int)
    requires Says(c, v, nest)
    ensures c.out == v.out && c.append && c.nest == nest
  {
  }

  lemma SaysStart()
    ensures Says(START, BLANK, -1)
  {
  }

  /** Printing a text that does not start with < just adds it; an identifier is remembered. */
  function Added(v: Display, text: string): Display {
    if text == "" then v
    else Display(v.out + text, if IsAlpha(text[0]) || text[0] == '_' then text else v.last)
  }

  lemma PrintAdds(c: Context, v: Display, text: string, nest: int)
    requires Says(c, v, nest) && (text != "" ==> text[0] != '<')
    ensures Says(Print(c, text), Added(v, text), nest)
    ensures Print(c, text).peak <= Max(c.peak, |v.out + text|) && Print(c, text).rewound == c.rewound
  {
  }

  /** An alternative that cannot start here is passed by. */
  lemma Pass(a: Grammar, b: Grammar, s: string, i: nat, c: Context)
    requires i <= |s| && Consuming(a) && Mute(a) && (i < |s| ==> !MayStart(a, s[i]))
    ensures Eval(Alt(a, b), s, i, c) == Eval(b, s, i, c)
  {
    hide Eval, MayStart, Consuming, Mute;
    Fails(a, s, i, c);
    Choose(a, b, s, i, c);
  }

  /** The first alternative is taken if it reads something. */
  lemma Take(a: Grammar, b: Grammar, s: string, i: nat, c: Context)
    requires i <= |s| && Eval(a, s, i, c).ok
    ensures Eval(Alt(a, b), s, i, c) == Eval(a, s, i, c)
  {
    hide Eval;
    Choose(a, b, s, i, c);
  }

  /** One that fails without a trace is passed by, too. */
  lemma Skip1(a: Grammar, b: Grammar, s: string, i: nat, c: Context)
    requires i <= |s| && Eval(a, s, i, c) == Fail(i, c)
    ensures Eval(Alt(a, b), s, i, c) == Eval(b, s, i, c)
  {
    hide Eval;
    Choose(a, b, s, i, c);
  }

  /** A sequence whose first part fails without a trace. */
  lemma NotFirst(a: Grammar, b: Grammar, s: string, i: nat, c: Context)
    requires i <= |s| && Eval(a, s, i, c) == Fail(i, c)
    ensures Eval(Seq(a, b), s, i, c) == Fail(i, c)
  {
    hide Eval;
    Unfold2(a, b, s, i, c);
  }

  /** A sequence that reads its first part without a trace, and then fails without one. */
  lemma NotSecond(a: Grammar, b: Grammar, s: string, i: nat, c: Context, j: nat)
    requires i <= |s| && j <= |s| && Eval(a, s, i, c) == Outcome(true, j, c) && Eval(b, s, j, c) == Fail(j, c)
    ensures Eval(Seq(a, b), s, i, c) == Fail(i, c)
  {
    hide Eval;
    Unfold2(a, b, s, i, c);
  }

  /** A sequence that reads its first part without a trace. */
  lemma After(a: Grammar, b: Grammar, s: string, i: nat, c: Context, j: nat)
    requires i <= |s| && j <= |s| && Eval(a, s, i, c) == Outcome(true, j, c) && Eval(b, s, j, c).ok
    ensures Eval(Seq(a, b), s, i, c) == Eval(b, s, j, c)
  {
    hide Eval;
    Unfold2(a, b, s, i, c);
  }

  lemma TokIs(t: string, s: string, i: nat, c: Context)
    requires i <= |s|
    ensures Eval(Tok(t), s, i, c) == if At(s, i, t) then Outcome(true, i + |t|, c) else Fail(i, c)
  {
    hide EvalAbbrev, EvalCounted, Rule, Rank, Print;
  }

  lemma ClassIs(cs: string, s: string, i: nat, c: Context)
    requires i <= |s|
    ensures Eval(Class(cs), s, i, c) == if i < |s| && s[i] in cs then Outcome(true, i + 1, c) else Fail(i, c)
  {
    hide EvalAbbrev, EvalCounted, Rule, Rank, Print;
  }

  lemma ReadsRule(n: Nonterminal, s: string, i: nat, c: Context, j: nat, v: Display, nest: int)
    requires Reads(Rule(n), s, i, c, j, v, nest)
    ensures Reads(NT(n), s, i, c, j, v, nest)
  {
    hide Eval, Says, Rule;
    Unfold(n, s, i, c);
  }

  /** One thing after the other. */
  lemma Then(a: Grammar, b: Grammar, s: string, i: nat, c: Context, j: nat, v: Display, nest: int, k: nat, v': Display,
             nest': int)
    requires Reads(a, s, i, c, j, v, nest)
    requires Reads(b, s, j, Eval(a, s, i, c).c, k, v', nest')
    ensures Reads(Seq(a, b), s, i, c, k, v', nest')
  {
    hide Eval;
    Unfold2(a, b, s, i, c);
  }

  lemma TokReads(t: string, s: string, i: nat, c: Context, v: Display, nest: int)
    requires At(s, i, t) && Says(c, v, nest)
    ensures Reads(Tok(t), s, i, c, i + |t|, v, nest) && Eval(Tok(t), s, i, c).c == c
  {
    hide Eval;
    TokIs(t, s, i, c);
  }

  lemma EmitReads(t: string, s: string, i: nat, c: Context, v: Display, nest: int)
    requires i <= |s| && Says(c, v, nest) && t != "" && t[0] != '<'
    ensures Reads(Emit(t), s, i, c, i, Added(v, t), nest)
    ensures Eval(Emit(t), s, i, c).c.peak <= Max(c.peak, |v.out + t|)
  {
    hide Eval, Print;
    UnfoldEmit(t, s, i, c);
    PrintAdds(c, v, t, nest);
  }

  lemma OptPasses(a: Grammar, s: string, i: nat, c: Context, v: Display, nest: int)
    requires i <= |s| && Consuming(a) && Mute(a) && (i < |s| ==> !MayStart(a, s[i])) && Says(c, v, nest)
    ensures Reads(Opt(a), s, i, c, i, v, nest) && Eval(Opt(a), s, i, c) == Outcome(true, i, c)
  {
    hide Eval, MayStart, Consuming, Mute;
    Fails(a, s, i, c);
    UnfoldOpt(a, s, i, c);
  }

  lemma OptReads(a: Grammar, s: string, i: nat, c: Context, j: nat, v: Display, nest: int)
    requires Reads(a, s, i, c, j, v, nest)
    ensures Reads(Opt(a), s, i, c, j, v, nest)
  {
    hide Eval, Says;
    UnfoldOpt(a, s, i, c);
  }

  lemma NestedReads(a: Grammar, s: string, i: nat, c: Context, j: nat, v: Display, v': Display, nest: int, nest': int)
    requires Says(c, v, nest) && Reads(a, s, i, c.(nest := 0), j, v', nest')
    ensures Reads(Nested(a), s, i, c, j, v', nest)
  {
    hide Eval;
    UnfoldNested(a, s, i, c);
  }

  /** What is read with appending off shows nothing. */
  lemma QuietReads(a: Grammar, s: string, i: nat, c: Context, j: nat, v: Display, nest: int)
    requires Says(c, v, nest) && NestNeutral(a) && Accepts(a, s, i, c.(append := false), j)
    ensures Reads(Quiet(a), s, i, c, j, v, nest)
  {
    hide Eval, NestNeutral;
    UnfoldQuiet(a, s, i, c);
    QuietPrintsNothing(a, s, i, c.(append := false));
    NestKept(a, s, i, c.(append := false));
  }

  /** An alternative that reads something first and then fails is passed by; only the peak may tell. */
  lemma PassLate(a: Grammar, b: Grammar, rest: Grammar, s: string, i: nat, c: Context, j: nat, v: Display, nest: int,
                 v': Display)
    returns (c': Context)
    requires Says(c, v, nest) && Reads(a, s, i, c, j, v', nest)
    requires j <= |s| && Consuming(b) && Mute(b) && (j < |s| ==> !MayStart(b, s[j]))
    ensures Says(c', v, nest) && c'.peak <= Max(c.peak, |v'.out| + 2) && c'.rewound == c.rewound
    ensures Eval(Alt(Seq(a, b), rest), s, i, c) == Eval(rest, s, i, c')
  {
    hide Eval, MayStart, Consuming, Mute;
    Fails(b, s, j, Eval(a, s, i, c).c);
    Unfold2(a, b, s, i, c);
    Choose(Seq(a, b), rest, s, i, c);
    c' := Eval(Seq(a, b), s, i, c).c;
  }

  // ---------------------------------------------------------------------------
  // Parts of names

  lemma ReadSourceName(s: string, i: nat, id: string, c: Context)
    requires Identifier(id) && At(s, i, Counting(id))
    ensures i < |s| && IsDigit(s[i])
    ensures Eval(NT(SourceName), s, i, c) == Outcome(true, i + |Counting(id)|, Print(c, IdentifierText(id)))
  {
    hide Eval, Print, FlagValues.Numeral, IdentifierText, DigitsStart, DigitsEnd, NumberAt, At;
    var w := FlagValues.Numeral(|id|);
    AtParts(s, i, w, id);
    AtCharacters(s, i + |w|, id);
    assert s[i + |w|] == id[0];
    NumeralReads(s, i, |id|);
    NumeralDigits(|id|);
    CountedIs(s, i, i + |w|, id, c);
  }

  lemma CountedIs(s: string, i: nat, e: nat, id: string, c: Context)
    requires i < e <= |s| && DigitsStart(s, i) == i && DigitsEnd(s, i) == e && NumberAt(s, i) == |id| && At(s, e, id)
    ensures Eval(NT(SourceName), s, i, c) == Outcome(true, e + |id|, Print(c, IdentifierText(id)))
  {
    hide Eval, Print, IdentifierText, DigitsStart, DigitsEnd, NumberAt;
    UnfoldLeaf(s, i, c);
  }

  lemma WordIs(id: string, v: Display)
    requires Identifier(id)
    ensures IdentifierText(id) != "" && IdentifierText(id)[0] != '<'
    ensures Added(v, IdentifierText(id)) == WordDisplay(id, v)
  {
  }

  /** A counted identifier is read whole, and shown. */
  lemma WordReads(s: string, i: nat, id: string, c: Context, v: Display, nest: int)
    requires Identifier(id) && At(s, i, Counting(id)) && Says(c, v, nest)
    ensures i < |s| && IsDigit(s[i])
    ensures Reads(NT(SourceName), s, i, c, i + |Counting(id)|, WordDisplay(id, v), nest)
  {
    hide Eval, Print, IdentifierText, Counting, WordDisplay;
    ReadSourceName(s, i, id, c);
    WordIs(id, v);
    PrintAdds(c, v, IdentifierText(id), nest);
  }

  lemma InternalRule()
    ensures Rule(LocalSourceName) == Seq(Tok("L"), Seq(NT(SourceName), Opt(NT(Discriminator))))
  {
  }

  /** A name with internal linkage. */
  lemma InternalReads(s: string, i: nat, id: string, c: Context, v: Display, nest: int)
    requires Identifier(id) && At(s, i, "L" + Counting(id)) && Says(c, v, nest)
    requires var j := i + 1 + |Counting(id)|; j < |s| ==> s[j] != '_'
    ensures Reads(NT(LocalSourceName), s, i, c, i + 1 + |Counting(id)|, WordDisplay(id, v), nest)
  {
    hide Eval, Counting, WordDisplay, Rule, MayStart, Says, At;
    var j, w := i + 1 + |Counting(id)|, WordDisplay(id, v);
    AtParts(s, i, "L", Counting(id));
    TokReads("L", s, i, c, v, nest);
    var c1 := Eval(Tok("L"), s, i, c).c;
    WordReads(s, i + 1, id, c1, v, nest);
    if j < |s| { DiscriminatorStart(s[j]); }
    OptPasses(NT(Discriminator), s, j, Eval(NT(SourceName), s, i + 1, c1).c, w, nest);
    Then(NT(SourceName), Opt(NT(Discriminator)), s, i + 1, c1, j, w, nest, j, w, nest);
    Then(Tok("L"), Seq(NT(SourceName), Opt(NT(Discriminator))), s, i, c, i + 1, v, nest, j, w, nest);
    InternalRule();
    ReadsRule(LocalSourceName, s, i, c, j, w, nest);
  }

  lemma DiscriminatorStart(ch: char)
    ensures MayStart(NT(Discriminator), ch) <==> ch == '_'
  {
    hide MayStart, Consuming, Level, Rank;
    StartOf(Discriminator, ch);
    StartSteps(ch);
    ConsumingSteps();
  }

  // Constructors and destructors

  lemma PrevReads(s: string, i: nat, c: Context, v: Display, nest: int)
    requires i <= |s| && Says(c, v, nest)
    ensures Reads(EmitPrev, s, i, c, i, Display(v.out + v.last, v.last), nest)
  {
    hide Eval, Print;
    UnfoldEmitPrev(s, i, c);
    PrintAdds(c, v, v.last, nest);
    assert v.out + "" == v.out;
  }

  lemma CtorDtorRules()
    ensures Rule(CtorDtorName) ==
      Alt(Seq(Tok("C"), Seq(Class("123"), EmitPrev)), Seq(Tok("D"), Seq(Class("012"), Seq(Emit("~"), EmitPrev))))
  {
  }

  lemma ConstructorReads(s: string, i: nat, kind: char, c: Context, v: Display, nest: int)
    requires kind in "123" && At(s, i, "C" + [kind]) && Says(c, v, nest)
    ensures Reads(NT(CtorDtorName), s, i, c, i + 2, PartDisplay(Constructor(kind), v), nest)
  {
    hide Eval, Rule, Says;
    AtCharacters(s, i, "C" + [kind]);
    AtParts(s, i, "C", [kind]);
    TokIs("C", s, i, c);
    ClassIs("123", s, i + 1, c);
    PrevReads(s, i + 2, c, v, nest);
    After(Class("123"), EmitPrev, s, i + 1, c, i + 2);
    After(Tok("C"), Seq(Class("123"), EmitPrev), s, i, c, i + 1);
    CtorDtorRules();
    Take(Seq(Tok("C"), Seq(Class("123"), EmitPrev)), DtorName(), s, i, c);
    Unfold(CtorDtorName, s, i, c);
  }

  lemma DestructorReads(s: string, i: nat, kind: char, c: Context, v: Display, nest: int)
    requires kind in "012" && At(s, i, "D" + [kind]) && Says(c, v, nest)
    ensures Reads(NT(CtorDtorName), s, i, c, i + 2, PartDisplay(Destructor(kind), v), nest)
  {
    hide Eval, Rule, Says;
    var last, v' := Seq(Emit("~"), EmitPrev), Added(v, "~");
    AtCharacters(s, i, "D" + [kind]);
    AtParts(s, i, "D", [kind]);
    TokIs("C", s, i, c);
    TokIs("D", s, i, c);
    ClassIs("012", s, i + 1, c);
    EmitReads("~", s, i + 2, c, v, nest);
    PrevReads(s, i + 2, Eval(Emit("~"), s, i + 2, c).c, v', nest);
    Then(Emit("~"), EmitPrev, s, i + 2, c, i + 2, v', nest, i + 2, PartDisplay(Destructor(kind), v), nest);
    After(Class("012"), last, s, i + 1, c, i + 2);
    After(Tok("D"), Seq(Class("012"), last), s, i, c, i + 1);
    NotFirst(Tok("C"), Seq(Class("123"), EmitPrev), s, i, c);
    CtorDtorRules();
    Skip1(Seq(Tok("C"), Seq(Class("123"), EmitPrev)), Seq(Tok("D"), Seq(Class("012"), last)), s, i, c);
    Unfold(CtorDtorName, s, i, c);
  }

  // Tables

  lemma OperatorChunks(a: char, b: char)
    ensures OperatorSymbol(a, b) != "" ==> IsLower(a) && IsAlpha(b) && a != 'v'
    ensures OperatorSymbol(a, b) != "" ==> var p := Pair(a, b, OperatorSymbol(a, b));
      p in OperatorRows1() || p in OperatorRows2() || p in OperatorRows3() || p in OperatorRows4() ||
      p in OperatorRows5()
  {
  }

  lemma OperatorMeanings1(p: AbbrevPair)
    requires p in OperatorRows1()
    ensures OperatorSymbol(p.first, p.second) == p.realName
  {
  }

  lemma OperatorMeanings2(p: AbbrevPair)
    requires p in OperatorRows2()
    ensures OperatorSymbol(p.first, p.second) == p.realName
  {
  }

  lemma OperatorMeanings3(p: AbbrevPair)
    requires p in OperatorRows3()
    ensures OperatorSymbol(p.first, p.second) == p.realName
  {
  }

  lemma OperatorMeanings4(p: AbbrevPair)
    requires p in OperatorRows4()
    ensures OperatorSymbol(p.first, p.second) == p.realName
  {
  }

  lemma OperatorMeanings5(p: AbbrevPair)
    requires p in OperatorRows5()
    ensures OperatorSymbol(p.first, p.second) == p.realName
  {
  }

  lemma BuiltinChunks(a: char)
    ensures TypeName(a) != "" ==> IsLower(a) && a != 'r'
    ensures TypeName(a) != "" ==> var p := Pair(a, '\0', TypeName(a)); p in BuiltinRows1() || p in BuiltinRows2()
  {
  }

  lemma BuiltinMeanings1(p: AbbrevPair)
    requires p in BuiltinRows1()
    ensures TypeName(p.first) == p.realName
  {
  }

  lemma BuiltinMeanings2(p: AbbrevPair)
    requires p in BuiltinRows2()
    ensures TypeName(p.first) == p.realName
  {
  }

  lemma StandardChunks(a: char)
    ensures StandardName(a) != "" ==> IsLower(a) && a != 't'
    ensures StandardName(a) != "" || a == 't' ==> Pair('S', a, StandardName(a)) in SubstitutionRows()
  {
  }

  lemma StandardMeanings(p: AbbrevPair)
    requires p in SubstitutionRows()
    ensures StandardName(p.second) == p.realName
  {
  }

  /** What a row of a table means. */
  function Meaning(t: Table, a: char, b: char): string {
    match t
    case Operators => OperatorSymbol(a, b)
    case Builtins => TypeName(a)
    case Substitutions => StandardName(b)
  }

  ghost predicate InTable(t: Table, a: char, b: char) {
    match t
    case Operators => OperatorSymbol(a, b) != ""
    case Builtins => TypeName(a) != ""
    case Substitutions => a == 'S' && (b == 't' || StandardName(b) != "")
  }

  lemma TableMeanings(t: Table, p: AbbrevPair)
    requires p in Rows(t)
    ensures Meaning(t, p.first, p.second) == p.realName
  {
    hide OperatorRows1, OperatorRows2, OperatorRows3, OperatorRows4, OperatorRows5, BuiltinRows1, BuiltinRows2,
      SubstitutionRows, OperatorSymbol, TypeName, StandardName;
    if t == Substitutions {
      StandardMeanings(p);
    } else if t == Builtins {
      if p in BuiltinRows1() { BuiltinMeanings1(p); } else { BuiltinMeanings2(p); }
    } else if p in OperatorRows1() {
      OperatorMeanings1(p);
    } else if p in OperatorRows2() {
      OperatorMeanings2(p);
    } else if p in OperatorRows3() {
      OperatorMeanings3(p);
    } else if p in OperatorRows4() {
      OperatorMeanings4(p);
    } else {
      OperatorMeanings5(p);
    }
  }

  lemma TableHas(t: Table, a: char, b: char)
    requires InTable(t, a, b)
    ensures exists p :: p in Rows(t) && p.first == a && (Width(t) == 2 ==> p.second == b)
  {
    hide OperatorRows1, OperatorRows2, OperatorRows3, OperatorRows4, OperatorRows5, BuiltinRows1, BuiltinRows2,
      SubstitutionRows, OperatorSymbol, TypeName, StandardName;
    OperatorChunks(a, b);
    BuiltinChunks(a);
    StandardChunks(b);
    var p := Pair(a, if t == Builtins then '\0' else b, Meaning(t, a, b));
    assert p in Rows(t);
  }

  /** A code of a table is found, and with its meaning. */
  lemma TableReads(t: Table, s: string, i: nat, c: Context)
    requires i + Width(t) <= |s| && InTable(t, s[i], if Width(t) == 2 then s[i + 1] else '\0')
    ensures Eval(Abbrev(t), s, i, c) ==
      Outcome(true, i + Width(t), PrintRow(t, Meaning(t, s[i], if Width(t) == 2 then s[i + 1] else '\0'), c))
  {
    hide Eval, Rows, PrintRow, InTable;
    var b := if Width(t) == 2 then s[i + 1] else '\0';
    UnfoldLeaf(s, i, c);
    TableHas(t, s[i], b);
    var p :| p in Rows(t) && p.first == s[i] && (Width(t) == 2 ==> p.second == b);
    var q :| 0 <= q < |Rows(t)| && Rows(t)[q] == p;
    assert Stands(Rows(t)[q], Width(t), s, i);
    var k := FindRow(Rows(t), Width(t), 0, s, i);
    TableMeanings(t, Rows(t)[k]);
  }

  lemma OperatorPrinted(a: char, b: char, c: Context, v: Display, nest: int)
    requires OperatorSymbol(a, b) != "" && Says(c, v, nest)
    ensures var c' := PrintRow(Operators, OperatorSymbol(a, b), c); var v' := PartDisplay(Operator(a, b), v);
      Says(c', v', nest) && c'.peak <= Max(c.peak, |v'.out|) && c'.rewound == c.rewound && |v.out| <= |v'.out|
  {
    hide Print, OperatorSymbol;
    var symbol := OperatorSymbol(a, b);
    SymbolLetters(a, b);
    var c1, v1 := Print(c, "operator"), Added(v, "operator");
    PrintAdds(c, v, "operator", nest);
    if IsLower(symbol[0]) {
      PrintAdds(c1, v1, " ", nest);
      PrintAdds(Print(c1, " "), Added(v1, " "), symbol, nest);
      assert v.out + "operator" + " " + symbol == v.out + "operator " + symbol;
    } else {
      SymbolAdds(c1, v1, symbol, nest);
    }
  }

  lemma SymbolLetters(a: char, b: char)
    ensures var w := OperatorSymbol(a, b);
      w != "" ==> (IsLower(w[0]) <==> IsLetter(w[0])) && w[0] != '_' && (IsLower(w[0]) ==> w[0] != '<')
  {
  }

  /** A symbol after a letter is just added, whatever it starts with. */
  lemma SymbolAdds(c: Context, v: Display, symbol: string, nest: int)
    requires Says(c, v, nest) && symbol != "" && v.out != "" && v.out[|v.out| - 1] != '<'
    requires !IsAlpha(symbol[0]) && symbol[0] != '_'
    ensures Says(Print(c, symbol), Display(v.out + symbol, v.last), nest)
    ensures Print(c, symbol).peak == Max(c.peak, |v.out + symbol|) && Print(c, symbol).rewound == c.rewound
  {
  }

  lemma OperatorRule()
    ensures Rule(OperatorName) == Alt(CastOperator(), Alt(VendorOperator(), Abbrev(Operators)))
    ensures CastOperator() == Seq(Tok("cv"), Seq(Emit("operator "), Nested(NT(Type))))
    ensures VendorOperator() == Seq(Tok("v"), Seq(Class(Digits()), NT(SourceName)))
  {
  }

  lemma OperatorReads(s: string, i: nat, a: char, b: char, c: Context, v: Display, nest: int)
    requires OperatorSymbol(a, b) != "" && At(s, i, [a, b]) && Says(c, v, nest)
    ensures Reads(NT(OperatorName), s, i, c, i + 2, PartDisplay(Operator(a, b), v), nest)
  {
    hide Eval, Rule, Says, OperatorSymbol, PrintRow, PartDisplay, CastOperator, VendorOperator;
    AtCharacters(s, i, [a, b]);
    OperatorChunks(a, b);
    NotCast(a, b);
    TokIs("cv", s, i, c);
    TokIs("v", s, i, c);
    assert s[i] == a && s[i + 1] == b;
    assert !At(s, i, "cv") && !At(s, i, "v") by {
      assert s[i..i + 2][0] == a && s[i..i + 2][1] == b && s[i..i + 1][0] == a;
    }
    OperatorRule();
    NotFirst(Tok("cv"), Seq(Emit("operator "), Nested(NT(Type))), s, i, c);
    NotFirst(Tok("v"), Seq(Class(Digits()), NT(SourceName)), s, i, c);
    TableReads(Operators, s, i, c);
    OperatorPrinted(a, b, c, v, nest);
    assert Reads(Abbrev(Operators), s, i, c, i + 2, PartDisplay(Operator(a, b), v), nest) by {
      SaysOut(c, v, nest);
    }
    Skip1(VendorOperator(), Abbrev(Operators), s, i, c);
    Skip1(CastOperator(), Alt(VendorOperator(), Abbrev(Operators)), s, i, c);
    Unfold(OperatorName, s, i, c);
  }

  lemma NotCast(a: char, b: char)
    ensures a == 'c' && b == 'v' ==> OperatorSymbol(a, b) == ""
  {
  }

  // Built-in types, and conversions to them

  function LateTypes(): Grammar { Alt3(NT(ArrayType), NT(PointerToMemberType), NT(Substitution)) }

  lemma TypeRules()
    ensures Rule(BuiltinType) == Alt(Abbrev(Builtins), VendorBuiltinType())
    ensures Rule(Type) == Alt(QualifiedType(), Alt(PlainType(), Alt(TemplateTemplateType(), NT(TemplateParam))))
  {
    hide QualifiedType, PlainType, VendorBuiltinType, TemplateTemplateType;
  }

  lemma PlainTypeIs()
    ensures PlainType() == Alt(NT(BuiltinType), Alt(NT(FunctionType), Alt(NT(ClassEnumType), LateTypes())))
    ensures Rule(ClassEnumType) == NT(Name)
  {
  }

  lemma QualifiedConsumes()
    ensures Consuming(QualifiedType()) && Mute(QualifiedType())
  {
  }

  /** A type that is not qualified. */
  lemma NotQualified(s: string, i: nat, c: Context)
    requires i < |s| && !QualifierLetter(s[i])
    ensures Eval(NT(Type), s, i, c) == Eval(Alt(PlainType(), Alt(TemplateTemplateType(), NT(TemplateParam))), s, i, c)
  {
    hide Eval, MayStart, Rule, Consuming, Mute;
    QualifiedTypeStart(s[i]);
    QualifiedConsumes();
    TypeRules();
    Pass(QualifiedType(), Alt(PlainType(), Alt(TemplateTemplateType(), NT(TemplateParam))), s, i, c);
    Unfold(Type, s, i, c);
  }

  lemma BuiltinLetter(letter: char)
    requires TypeName(letter) != ""
    ensures IsLower(letter) && !QualifierLetter(letter)
    ensures IsAlpha(TypeName(letter)[0]) || TypeName(letter)[0] == '_'
  {
  }

  lemma BuiltinReads(s: string, i: nat, c: Context, v: Display, nest: int)
    requires i < |s| && TypeName(s[i]) != "" && Says(c, v, nest)
    ensures Reads(NT(Type), s, i, c, i + 1, Display(v.out + TypeName(s[i]), TypeName(s[i])), nest)
  {
    hide Eval, Rule, TypeName, Print;
    BuiltinLetter(s[i]);
    NotQualified(s, i, c);
    TableReads(Builtins, s, i, c);
    PrintAdds(c, v, TypeName(s[i]), nest);
    TypeRules();
    Take(Abbrev(Builtins), VendorBuiltinType(), s, i, c);
    Unfold(BuiltinType, s, i, c);
    PlainTypeIs();
    Take(NT(BuiltinType), Alt(NT(FunctionType), Alt(NT(ClassEnumType), LateTypes())), s, i, c);
    Take(PlainType(), Alt(TemplateTemplateType(), NT(TemplateParam)), s, i, c);
  }

  lemma ConversionReads(s: string, i: nat, letter: char, c: Context, v: Display, nest: int)
    requires TypeName(letter) != "" && At(s, i, "cv" + [letter]) && Says(c, v, nest)
    ensures Reads(NT(OperatorName), s, i, c, i + 3, PartDisplay(Conversion(letter), v), nest)
  {
    hide Eval, Rule, Says, TypeName, At;
    AtParts(s, i, "cv", [letter]);
    AtCharacters(s, i + 2, [letter]);
    TokReads("cv", s, i, c, v, nest);
    var v1, v2 := Added(v, "operator "), PartDisplay(Conversion(letter), v);
    EmitReads("operator ", s, i + 2, c, v, nest);
    var c1 := Eval(Emit("operator "), s, i + 2, c).c;
    assert Says(c1.(nest := 0), v1, 0) by { SaysAnywhere(c1, v1, nest, 0); }
    BuiltinReads(s, i + 2, c1.(nest := 0), v1, 0);
    NestedReads(NT(Type), s, i + 2, c1, i + 3, v1, v2, nest, 0);
    Then(Emit("operator "), Nested(NT(Type)), s, i + 2, c, i + 2, v1, nest, i + 3, v2, nest);
    Then(Tok("cv"), Seq(Emit("operator "), Nested(NT(Type))), s, i, c, i + 2, v, nest, i + 3, v2, nest);
    OperatorRule();
    Take(CastOperator(), Alt(VendorOperator(), Abbrev(Operators)), s, i, c);
    Unfold(OperatorName, s, i, c);
  }

  lemma SaysAnywhere(c: Context, v: Display, nest: int, other: int)
    requires Says(c, v, nest)
    ensures Says(c.(nest := other), v, other)
  {
  }

  // Parts without a scope

  lemma UnqualifiedRule()
    ensures Rule(UnqualifiedName) ==
      Alt(NT(OperatorName), Alt(NT(CtorDtorName), Alt(NT(SourceName), NT(LocalSourceName))))
    ensures Rule(UnscopedName) == Alt(NT(UnqualifiedName), StdName())
  {
  }

  function StdName(): Grammar { Seq(Tok("St"), Seq(Emit("std::"), NT(UnqualifiedName))) }

  /** The first character of a part. */
  predicate StartsPart(ch: char) {
    IsDigit(ch) || IsLower(ch) || ch == 'L' || ch == 'C' || ch == 'D' || ch == 'S' || ch == 'T'
  }

  lemma PartStart(s: string, i: nat, p: Part)
    requires IsPart(p) && At(s, i, PartText(p))
    ensures i < |s| && StartsPart(s[i])
    ensures IsUnqualified(p) ==> s[i] != 'S' && s[i] != 'T'
    ensures !IsUnqualified(p) ==> s[i] == if p.Hole? then 'T' else 'S'
    ensures s[i] == 'C' <==> p.Constructor?
    ensures s[i] == 'D' <==> p.Destructor?
    ensures s[i] == 'L' <==> p.Internal?
    ensures IsLower(s[i]) <==> p.Operator? || p.Conversion?
  {
    hide OperatorSymbol, TypeName, StandardName, Counting, At;
    var w := PartText(p);
    match p
    case Word(id) => ReadSourceName(s, i, id, START);
    case Operator(a, b) =>
      AtCharacters(s, i, w);
      OperatorChunks(a, b);
    case _ =>
      assert w != "";
      AtCharacters(s, i, w);
  }

  lemma SpecialPartReads(s: string, i: nat, p: Part, c: Context, v: Display, nest: int)
    requires IsPart(p) && At(s, i, PartText(p)) && Says(c, v, nest)
    requires p.Operator? || p.Conversion? || p.Constructor? || p.Destructor?
    ensures Reads(NT(UnqualifiedName), s, i, c, i + |PartText(p)|, PartDisplay(p, v), nest)
  {
    hide Eval, MayStart, Says, Rule, At, OperatorSymbol, TypeName;
    PartStart(s, i, p);
    OtherStarts(s[i]);
    UnqualifiedRule();
    Unfold(UnqualifiedName, s, i, c);
    var late := Alt(NT(SourceName), NT(LocalSourceName));
    match p
    case Operator(a, b) =>
      OperatorReads(s, i, a, b, c, v, nest);
      Take(NT(OperatorName), Alt(NT(CtorDtorName), late), s, i, c);
    case Conversion(letter) =>
      ConversionReads(s, i, letter, c, v, nest);
      Take(NT(OperatorName), Alt(NT(CtorDtorName), late), s, i, c);
    case Constructor(kind) =>
      ConstructorReads(s, i, kind, c, v, nest);
      Pass(NT(OperatorName), Alt(NT(CtorDtorName), late), s, i, c);
      Take(NT(CtorDtorName), late, s, i, c);
    case Destructor(kind) =>
      DestructorReads(s, i, kind, c, v, nest);
      Pass(NT(OperatorName), Alt(NT(CtorDtorName), late), s, i, c);
      Take(NT(CtorDtorName), late, s, i, c);
  }

  lemma UnqualifiedReads(s: string, i: nat, p: Part, c: Context, v: Display, nest: int)
    requires IsPart(p) && IsUnqualified(p) && At(s, i, PartText(p)) && Says(c, v, nest)
    requires var j := i + |PartText(p)|; j < |s| ==> s[j] != '_'
    ensures Reads(NT(UnqualifiedName), s, i, c, i + |PartText(p)|, PartDisplay(p, v), nest)
  {
    hide Eval, MayStart, Counting, Says, Rule, At, OperatorSymbol, TypeName, StandardName, WordDisplay;
    if !p.Word? && !p.Internal? {
      SpecialPartReads(s, i, p, c, v, nest);
      return;
    }
    PartStart(s, i, p);
    TokenStarts(s[i]);
    OtherStarts(s[i]);
    UnqualifiedRule();
    Unfold(UnqualifiedName, s, i, c);
    var late := Alt(NT(SourceName), NT(LocalSourceName));
    Pass(NT(OperatorName), Alt(NT(CtorDtorName), late), s, i, c);
    Pass(NT(CtorDtorName), late, s, i, c);
    if p.Word? {
      WordReads(s, i, p.id, c, v, nest);
      Take(NT(SourceName), NT(LocalSourceName), s, i, c);
    } else {
      InternalReads(s, i, p.id, c, v, nest);
      Pass(NT(SourceName), NT(LocalSourceName), s, i, c);
    }
  }

  lemma UnscopedReads(s: string, i: nat, p: Part, c: Context, v: Display, nest: int)
    requires IsPart(p) && IsUnqualified(p) && At(s, i, PartText(p)) && Says(c, v, nest)
    requires var j := i + |PartText(p)|; j < |s| ==> s[j] != '_'
    ensures Reads(NT(UnscopedName), s, i, c, i + |PartText(p)|, PartDisplay(p, v), nest)
  {
    hide Eval, Rank, Says, Rule, At, PartDisplay, PartText;
    UnqualifiedReads(s, i, p, c, v, nest);
    UnqualifiedRule();
    Take(NT(UnqualifiedName), StdName(), s, i, c);
    Unfold(UnscopedName, s, i, c);
  }

  /** A name in the namespace std. */
  lemma StdReads(s: string, i: nat, p: Part, c: Context, v: Display, nest: int)
    requires IsPart(p) && IsUnqualified(p) && At(s, i, "St" + PartText(p)) && Says(c, v, nest)
    requires var j := i + 2 + |PartText(p)|; j < |s| ==> s[j] != '_'
    ensures i < |s| && s[i] == 'S'
    ensures Reads(NT(UnscopedName), s, i, c, i + 2 + |PartText(p)|,
      PartDisplay(p, Display(v.out + "std::", "std::")), nest)
  {
    hide Eval, Says, Rule, At, PartDisplay, PartText, MayStart;
    var v1 := Display(v.out + "std::", "std::");
    var j, v2 := i + 2 + |PartText(p)|, PartDisplay(p, v1);
    AtParts(s, i, "St", PartText(p));
    AtCharacters(s, i, "St");
    UnqualifiedStart(s[i]);
    TokReads("St", s, i, c, v, nest);
    EmitReads("std::", s, i + 2, c, v, nest);
    var c1 := Eval(Emit("std::"), s, i + 2, c).c;
    UnqualifiedReads(s, i + 2, p, c1, v1, nest);
    Then(Emit("std::"), NT(UnqualifiedName), s, i + 2, c, i + 2, v1, nest, j, v2, nest);
    Then(Tok("St"), Seq(Emit("std::"), NT(UnqualifiedName)), s, i, c, i + 2, v, nest, j, v2, nest);
    UnqualifiedRule();
    Pass(NT(UnqualifiedName), StdName(), s, i, c);
    Unfold(UnscopedName, s, i, c);
  }

  lemma UnqualifiedStart(ch: char)
    ensures MayStart(NT(UnqualifiedName), ch) ==> IsLower(ch) || ch == 'C' || ch == 'D' || ch == 'L' || IsDigit(ch)
  {
    hide MayStart, Consuming, Level, Rank, Rows;
    StartSteps(ch);
    TokenStarts(ch);
    OtherStarts(ch);
    StartOf(UnqualifiedName, ch);
  }

  // Parts that stand for something else

  lemma MarkDigit(ch: char)
    ensures Numeric(ch) || 'A' <= ch <= 'Z' <==> ch in SeqIdDigits()
  {
    hide Digits;
    assert SeqIdDigits() == Digits() + CAPITALS by { SeqIdParts(); }
    DigitClass(ch);
    if 'A' <= ch <= 'Z' { CapitalIn(ch); }
    if ch in CAPITALS { CapitalsOnly(ch); }
  }

  const CAPITALS := "ABCDEFGHIJKLMNOPQRSTUVWXYZ"

  lemma SeqIdParts()
    ensures SeqIdDigits() == Digits() + CAPITALS
  {
  }

  lemma CapitalIn(ch: char)
    requires 'A' <= ch <= 'Z'
    ensures ch in CAPITALS
  {
    assert CAPITALS[ch as int - 'A' as int] == ch;
  }

  lemma CapitalsOnly(ch: char)
    requires ch in CAPITALS
    ensures 'A' <= ch <= 'Z'
  {
  }

  lemma SeqIdReads(mark: string, s: string, i: nat, c: Context)
    requires IsMark(mark) && At(s, i, mark) && i + |mark| < |s|
    requires !Numeric(s[i + |mark|]) && !('A' <= s[i + |mark|] <= 'Z')
    ensures Eval(NT(SeqId), s, i, c) == if mark == "" then Fail(i, c) else Outcome(true, i + |mark|, c)
  {
    hide Eval, RunEnd, SeqIdDigits;
    AtCharacters(s, i, mark);
    forall k | i <= k < i + |mark| ensures s[k] in SeqIdDigits() {
      assert s[k] == mark[k - i] && mark[k - i] in mark;
      MarkDigit(s[k]);
    }
    MarkDigit(s[i + |mark|]);
    RunEndIs(s, i, i + |mark|, SeqIdDigits());
    SeqIdRule();
    RunOutcome(SeqId, SeqIdDigits(), s, i, c);
  }

  lemma SeqIdRule()
    ensures Rule(SeqId) == Plus(Class(SeqIdDigits()))
  {
    hide SeqIdDigits;
  }

  lemma SubstitutionRule()
    ensures Rule(Substitution) == Alt(Seq(Tok("S_"), Emit("?")), Alt(NumberedSubstitution(), Abbrev(Substitutions)))
    ensures NumberedSubstitution() == Seq(Tok("S"), Seq(NT(SeqId), Seq(Tok("_"), Emit("?"))))
  {
  }

  /** What was named before is shown as a question mark. */
  lemma AgainReads(s: string, i: nat, mark: string, c: Context, v: Display, nest: int)
    requires IsMark(mark) && At(s, i, "S" + (mark + "_")) && Says(c, v, nest)
    ensures Reads(NT(Substitution), s, i, c, i + |mark| + 2, PartDisplay(Again(mark), v), nest)
  {
    hide Eval, Rule, Says, At, NumberedSubstitution, IsMark;
    var j := i + 1 + |mark|;
    AtParts(s, i, "S", mark + "_");
    AtParts(s, i + 1, mark, "_");
    AtCharacters(s, j, "_");
    AtCharacters(s, i, "S");
    SubstitutionRule();
    Unfold(Substitution, s, i, c);
    TokIs("S_", s, i, c);
    TokIs("S", s, i, c);
    TokIs("_", s, j, c);
    EmitReads("?", s, j + 1, c, v, nest);
    After(Tok("_"), Emit("?"), s, j, c, j + 1);
    if mark == "" {
      assert s[i..i + 2] == "S_" && At(s, i, "S_") by { TwoCharacters(s, i, 'S', '_'); }
      After(Tok("S_"), Emit("?"), s, i, c, i + 2);
      Take(Seq(Tok("S_"), Emit("?")), Alt(NumberedSubstitution(), Abbrev(Substitutions)), s, i, c);
    } else {
      MarkStart(s, i + 1, mark);
      assert !At(s, i, "S_") by { NotTwo(s, i, 'S', '_'); }
      NotFirst(Tok("S_"), Emit("?"), s, i, c);
      Skip1(Seq(Tok("S_"), Emit("?")), Alt(NumberedSubstitution(), Abbrev(Substitutions)), s, i, c);
      SeqIdReads(mark, s, i + 1, c);
      After(NT(SeqId), Seq(Tok("_"), Emit("?")), s, i + 1, c, j);
      After(Tok("S"), Seq(NT(SeqId), Seq(Tok("_"), Emit("?"))), s, i, c, i + 1);
      Take(NumberedSubstitution(), Abbrev(Substitutions), s, i, c);
    }
  }

  lemma TwoCharacters(s: string, i: nat, a: char, b: char)
    requires i + 2 <= |s| && s[i] == a && s[i + 1] == b
    ensures s[i..i + 2] == [a, b] && At(s, i, [a, b])
  {
  }

  lemma NotTwo(s: string, i: nat, a: char, b: char)
    requires i + 2 <= |s| ==> s[i + 1] != b
    ensures !At(s, i, [a, b])
  {
    assert i + 2 <= |s| ==> s[i..i + 2][1] == s[i + 1];
  }

  lemma MarkStart(s: string, i: nat, mark: string)
    requires IsMark(mark) && mark != "" && At(s, i, mark)
    ensures i < |s| && s[i] != '_' && !IsLower(s[i])
  {
    AtCharacters(s, i, mark);
    assert s[i] == mark[0] && mark[0] in mark;
  }

  lemma StandardPrinted(letter: char, c: Context, v: Display, nest: int)
    requires Says(c, v, nest) && (letter == 't' || StandardName(letter) != "")
    ensures var c' := PrintRow(Substitutions, StandardName(letter), c);
      var v' := PartDisplay(if letter == 't' then Std else Standard(letter), v);
      Says(c', v', nest) && c'.peak <= Max(c.peak, |v'.out|) && c'.rewound == c.rewound && |v.out| <= |v'.out|
  {
    hide Print, StandardName;
    StandardLetters(letter);
    var name := StandardName(letter);
    PrintAdds(c, v, "std", nest);
    if letter != 't' {
      var c1, v1 := Print(c, "std"), Added(v, "std");
      PrintAdds(c1, v1, "::", nest);
      PrintAdds(Print(c1, "::"), Added(v1, "::"), name, nest);
      assert v.out + "std" + "::" + name == v.out + "std::" + name;
    }
  }

  lemma StandardLetters(letter: char)
    ensures letter == 't' ==> StandardName(letter) == ""
    ensures StandardName(letter) != "" ==> IsAlpha(StandardName(letter)[0]) && IsLower(letter)
  {
  }

  /** An abbreviation for something of the standard library. */
  lemma StandardReads(s: string, i: nat, letter: char, c: Context, v: Display, nest: int)
    requires (letter == 't' || StandardName(letter) != "") && At(s, i, "S" + [letter]) && Says(c, v, nest)
    ensures var p := if letter == 't' then Std else Standard(letter);
      Reads(NT(Substitution), s, i, c, i + 2, PartDisplay(p, v), nest)
  {
    hide Eval, Rule, Says, At, NumberedSubstitution, StandardName, PrintRow, PartDisplay;
    AtParts(s, i, "S", [letter]);
    AtCharacters(s, i, "S");
    AtCharacters(s, i + 1, [letter]);
    StandardLetters(letter);
    SubstitutionRule();
    Unfold(Substitution, s, i, c);
    TokIs("S_", s, i, c);
    TokIs("S", s, i, c);
    assert !At(s, i, "S_") by { NotTwo(s, i, 'S', '_'); }
    NotFirst(Tok("S_"), Emit("?"), s, i, c);
    Skip1(Seq(Tok("S_"), Emit("?")), Alt(NumberedSubstitution(), Abbrev(Substitutions)), s, i, c);
    assert At(s, i + 1, "") by { NothingAt(s, i + 1); }
    SeqIdReads("", s, i + 1, c);
    NotFirst(NT(SeqId), Seq(Tok("_"), Emit("?")), s, i + 1, c);
    NotSecond(Tok("S"), Seq(NT(SeqId), Seq(Tok("_"), Emit("?"))), s, i, c, i + 1);
    Skip1(NumberedSubstitution(), Abbrev(Substitutions), s, i, c);
    TableReads(Substitutions, s, i, c);
    StandardPrinted(letter, c, v, nest);
    SaysOut(c, v, nest);
  }

  lemma NothingAt(s: string, i: nat)
    requires i <= |s|
    ensures At(s, i, "")
  {
  }

  lemma TemplateParamRule()
    ensures Rule(TemplateParam) == Alt(Seq(Tok("T_"), Emit("?")), LaterTemplateParam())
    ensures LaterTemplateParam() == Seq(Tok("T"), Seq(NT(Number), Seq(Tok("_"), Emit("?"))))
  {
  }

  /** So is a template parameter. */
  lemma HoleReads(s: string, i: nat, mark: string, c: Context, v: Display, nest: int)
    requires (mark == "" || IsNumber(mark)) && At(s, i, "T" + (mark + "_")) && Says(c, v, nest)
    ensures Reads(NT(TemplateParam), s, i, c, i + |mark| + 2, PartDisplay(Hole(mark), v), nest)
  {
    hide Eval, Rule, Says, At, LaterTemplateParam;
    var j := i + 1 + |mark|;
    AtParts(s, i, "T", mark + "_");
    AtParts(s, i + 1, mark, "_");
    AtCharacters(s, j, "_");
    AtCharacters(s, i, "T");
    TemplateParamRule();
    Unfold(TemplateParam, s, i, c);
    TokIs("T_", s, i, c);
    TokIs("T", s, i, c);
    TokIs("_", s, j, c);
    EmitReads("?", s, j + 1, c, v, nest);
    After(Tok("_"), Emit("?"), s, j, c, j + 1);
    if mark == "" {
      assert At(s, i, "T_") by { TwoCharacters(s, i, 'T', '_'); }
      After(Tok("T_"), Emit("?"), s, i, c, i + 2);
      Take(Seq(Tok("T_"), Emit("?")), LaterTemplateParam(), s, i, c);
    } else {
      AtCharacters(s, i + 1, mark);
      assert s[i + 1] == mark[0] && mark[0] in mark;
      assert !At(s, i, "T_") by { NotTwo(s, i, 'T', '_'); }
      NotFirst(Tok("T_"), Emit("?"), s, i, c);
      Skip1(Seq(Tok("T_"), Emit("?")), LaterTemplateParam(), s, i, c);
      NumberReads(mark, s, i + 1, c);
      After(NT(Number), Seq(Tok("_"), Emit("?")), s, i + 1, c, j);
      After(Tok("T"), Seq(NT(Number), Seq(Tok("_"), Emit("?"))), s, i, c, i + 1);
    }
  }

  // ---------------------------------------------------------------------------
  // Nested names

  lemma ComponentNameIs()
    ensures ComponentName() == Alt(NT(TemplateParam), Alt(NT(Substitution), NT(UnscopedName)))
    ensures Component() == Seq(Separator, Seq(ComponentName(), Deeper))
  {
  }

  lemma PartReads(s: string, i: nat, p: Part, c: Context, v: Display, nest: int)
    requires IsPart(p) && At(s, i, PartText(p)) && Says(c, v, nest)
    requires var j := i + |PartText(p)|; j < |s| ==> s[j] != '_'
    ensures Reads(ComponentName(), s, i, c, i + |PartText(p)|, PartDisplay(p, v), nest)
  {
    hide Eval, MayStart, Says, Rule, At, ComponentName, Counting, OperatorSymbol, TypeName, StandardName, WordDisplay;
    PartStart(s, i, p);
    TokenStarts(s[i]);
    OtherStarts(s[i]);
    ComponentNameIs();
    var late := Alt(NT(Substitution), NT(UnscopedName));
    if p.Hole? {
      HoleReads(s, i, p.mark, c, v, nest);
      Take(NT(TemplateParam), late, s, i, c);
    } else if p.Again? || p.Standard? || p.Std? {
      ReplacedReads(s, i, p, c, v, nest);
      Pass(NT(TemplateParam), late, s, i, c);
      Take(NT(Substitution), NT(UnscopedName), s, i, c);
    } else {
      UnscopedReads(s, i, p, c, v, nest);
      Pass(NT(TemplateParam), late, s, i, c);
      Pass(NT(Substitution), NT(UnscopedName), s, i, c);
    }
  }

  lemma ReplacedReads(s: string, i: nat, p: Part, c: Context, v: Display, nest: int)
    requires IsPart(p) && (p.Again? || p.Standard? || p.Std?) && At(s, i, PartText(p)) && Says(c, v, nest)
    ensures Reads(NT(Substitution), s, i, c, i + |PartText(p)|, PartDisplay(p, v), nest)
  {
    hide Eval, Says, Rule, At, StandardName;
    match p
    case Again(mark) => AgainReads(s, i, mark, c, v, nest);
    case Standard(letter) =>
      StandardChunks(letter);
      StandardReads(s, i, letter, c, v, nest);
    case Std =>
      assert "St" == "S" + ['t'];
      StandardReads(s, i, 't', c, v, nest);
  }

  lemma SeparatorReads(s: string, i: nat, c: Context, v: Display, nest: nat)
    requires i <= |s| && Says(c, v, nest)
    ensures Reads(Separator, s, i, c, i, v.(out := v.out + if nest > 0 then "::" else ""), nest)
    ensures Eval(Separator, s, i, c).c.peak <= Max(c.peak, |v.out| + 2)
  {
    hide Eval, EvalAbbrev, EvalCounted, Print;
    UnfoldLeaf(s, i, c);
    PrintAdds(c, v, "::", nest);
    assert v.out + "" == v.out;
  }

  lemma DeeperReads(s: string, i: nat, c: Context, v: Display, nest: nat)
    requires i <= |s| && Says(c, v, nest)
    ensures Reads(Deeper, s, i, c, i, v, nest + 1)
  {
    hide Eval, EvalAbbrev, EvalCounted, Print;
    UnfoldLeaf(s, i, c);
  }

  /** What a part of a nested name shows, with the separator before it. */
  function ComponentDisplay(p: Part, nest: nat, v: Display): Display {
    PartDisplay(p, v.(out := v.out + if nest > 0 then "::" else ""))
  }

  lemma ComponentReads(s: string, i: nat, p: Part, c: Context, v: Display, nest: nat)
    requires IsPart(p) && At(s, i, PartText(p)) && Says(c, v, nest)
    requires var j := i + |PartText(p)|; j < |s| ==> s[j] != '_'
    ensures Reads(Component(), s, i, c, i + |PartText(p)|, ComponentDisplay(p, nest, v), nest + 1)
  {
    hide Eval, ComponentName, Says, PartText, PartDisplay, At, IsPart, Component;
    var v1, j := v.(out := v.out + if nest > 0 then "::" else ""), i + |PartText(p)|;
    AtCharacters(s, i, PartText(p));
    var v2 := PartDisplay(p, v1);
    SeparatorReads(s, i, c, v, nest);
    var c1 := Eval(Separator, s, i, c).c;
    PartReads(s, i, p, c1, v1, nest);
    DeeperReads(s, j, Eval(ComponentName(), s, i, c1).c, v2, nest);
    Then(ComponentName(), Deeper, s, i, c1, j, v2, nest, j, v2, nest + 1);
    Then(Separator, Seq(ComponentName(), Deeper), s, i, c, i, v1, nest, j, v2, nest + 1);
    ComponentNameIs();
  }

  lemma ComponentNameStart(ch: char)
    requires ch == 'E' || ch == 'I'
    ensures !MayStart(ComponentName(), ch) && Consuming(ComponentName()) && Mute(ComponentName())
  {
    ComponentNameShape();
    hide MayStart, Rule, Rank, Consuming, Mute, Level;
    StartSteps(ch);
    TokenStarts(ch);
    OtherStarts(ch);
    UnscopedStarts(ch);
  }

  lemma ComponentNameShape()
    ensures Consuming(ComponentName()) && Mute(ComponentName())
  {
  }

  /** Where the parts end another separator is printed, and taken back. */
  lemma ComponentFails(s: string, i: nat, c: Context, v: Display, nest: nat)
    requires i < |s| && (s[i] == 'E' || s[i] == 'I') && Says(c, v, nest)
    ensures var r := Eval(Component(), s, i, c);
      !r.ok && r.pos == i && r.c == Back(c, r.c) && r.c.peak <= Max(c.peak, |v.out| + 2) && r.c.rewound == c.rewound
  {
    hide Eval, MayStart, ComponentName, Consuming, Mute;
    ComponentNameStart(s[i]);
    SeparatorReads(s, i, c, v, nest);
    var c1 := Eval(Separator, s, i, c).c;
    Fails(ComponentName(), s, i, c1);
    Unfold3(Separator, ComponentName(), Deeper, s, i, c);
  }

  lemma ComponentsEnd(s: string, i: nat, c: Context, v: Display, nest: nat)
    requires i < |s| && (s[i] == 'E' || s[i] == 'I') && Says(c, v, nest)
    ensures Reads(Many(Component()), s, i, c, i, v, nest)
  {
    hide Eval, Component;
    ComponentFails(s, i, c, v, nest);
    UnfoldComponents(s, i, c);
  }

  /** The text of the parts stands at i, and nothing that could belong to them behind it. */
  ghost predicate PartsAt(s: string, i: nat, parts: seq<Part>) {
    && AreParts(parts) && At(s, i, PartsText(parts))
    && var e := i + |PartsText(parts)|; e < |s| && (s[e] == 'E' || s[e] == 'I')
  }

  lemma PartsSplit(s: string, i: nat, parts: seq<Part>)
    requires PartsAt(s, i, parts)
    ensures if parts == [] then i < |s| && (s[i] == 'E' || s[i] == 'I') && PartsText(parts) == ""
      else
        var j := i + |PartText(parts[0])|;
        && IsPart(parts[0]) && At(s, i, PartText(parts[0])) && PartsAt(s, j, parts[1..])
        && i < j <= |s| && j + |PartsText(parts[1..])| == i + |PartsText(parts)| && (j < |s| ==> s[j] != '_')
  {
    hide PartText, IsPart, At;
    if parts != [] {
      var j, rest := i + |PartText(parts[0])|, parts[1..];
      AtParts(s, i, PartText(parts[0]), PartsText(rest));
      PartNotEmpty(parts[0]);
      assert AreParts(rest);
      assert PartsAt(s, j, rest);
      PartsBegin(s, j, rest);
    }
  }

  lemma PartsBegin(s: string, i: nat, parts: seq<Part>)
    requires PartsAt(s, i, parts)
    ensures i < |s| && s[i] != '_'
  {
    hide PartText, IsPart, At;
    if parts != [] {
      AtParts(s, i, PartText(parts[0]), PartsText(parts[1..]));
      PartStart(s, i, parts[0]);
    }
  }

  lemma PartNotEmpty(p: Part)
    ensures IsPart(p) ==> PartText(p) != ""
  {
    hide FlagValues.Numeral, TypeName, OperatorSymbol, StandardName;
  }

  lemma {:induction false} ManyPartsRead(s: string, i: nat, parts: seq<Part>, c: Context, v: Display, nest: nat)
    requires PartsAt(s, i, parts) && Says(c, v, nest)
    ensures Reads(Many(Component()), s, i, c, i + |PartsText(parts)|, PartsDisplay(parts, nest, v), nest + |parts|)
    decreases |parts|
  {
    hide Eval, Component, Says, PartsAt, PartText, PartDisplay, IsPart, At;
    PartsSplit(s, i, parts);
    if parts == [] {
      ComponentsEnd(s, i, c, v, nest);
    } else {
      var j, v1 := i + |PartText(parts[0])|, ComponentDisplay(parts[0], nest, v);
      ComponentReads(s, i, parts[0], c, v, nest);
      SaysOut(Eval(Component(), s, i, c).c, v1, nest + 1);
      ManyPartsRead(s, j, parts[1..], Eval(Component(), s, i, c).c, v1, nest + 1);
      UnfoldComponents(s, i, c);
      PartsDisplayStep(parts, nest, v);
    }
  }

  lemma PartsDisplayStep(parts: seq<Part>, nest: nat, v: Display)
    requires parts != []
    ensures PartsDisplay(parts, nest, v) == PartsDisplay(parts[1..], nest + 1, ComponentDisplay(parts[0], nest, v))
  {
    hide PartDisplay;
  }

  lemma PlusPartsRead(s: string, i: nat, parts: seq<Part>, c: Context, v: Display, nest: nat)
    requires PartsAt(s, i, parts) && parts != [] && Says(c, v, nest)
    ensures Reads(Plus(Component()), s, i, c, i + |PartsText(parts)|, PartsDisplay(parts, nest, v), nest + |parts|)
  {
    hide Eval, Component, Says, PartsAt, PartText, PartDisplay, IsPart, At, PartsText, PartsDisplay;
    PartsSplit(s, i, parts);
    var j, v1 := i + |PartText(parts[0])|, ComponentDisplay(parts[0], nest, v);
    ComponentReads(s, i, parts[0], c, v, nest);
    ManyPartsRead(s, j, parts[1..], Eval(Component(), s, i, c).c, v1, nest + 1);
    PartsDisplayStep(parts, nest, v);
    Then(Component(), Many(Component()), s, i, c, j, v1, nest + 1, i + |PartsText(parts)|,
      PartsDisplay(parts, nest, v), nest + |parts|);
  }

  function ArgumentsAndPrefix(): Grammar { Seq(NT(TemplateArgs), NT(Prefix)) }

  lemma PrefixRule()
    ensures Rule(Prefix) == Opt(Seq(Plus(Component()), Opt(ArgumentsAndPrefix())))
    ensures Rule(NestedName) == Seq(Tok("N"), Seq(Nested(Seq(Opt(NT(CVQualifiers)), NT(Prefix))), Tok("E")))
    ensures Rule(Name) == Alt(NT(NestedName), Alt(NT(LocalName), Alt(TemplateName(), NT(UnscopedName))))
    ensures Rule(UnscopedTemplateName) == Alt(NT(UnscopedName), NT(Substitution))
  {
    hide Component;
  }

  function TemplateName(): Grammar { Seq(NT(UnscopedTemplateName), NT(TemplateArgs)) }

  lemma EmptyPrefixReads(s: string, i: nat, c: Context, v: Display, nest: nat)
    requires i < |s| && s[i] == 'E' && Says(c, v, nest)
    ensures Reads(NT(Prefix), s, i, c, i, v, nest)
  {
    hide Eval, Rule, Rank, Component;
    ComponentFails(s, i, c, v, nest);
    Unfold2(Component(), Many(Component()), s, i, c);
    Unfold2(Plus(Component()), Opt(ArgumentsAndPrefix()), s, i, c);
    UnfoldOpt(Seq(Plus(Component()), Opt(ArgumentsAndPrefix())), s, i, c);
    PrefixRule();
    ReadsRule(Prefix, s, i, c, i, v, nest);
  }

  lemma NoArgumentsRead(s: string, i: nat, c: Context, v: Display, nest: nat)
    requires i < |s| && s[i] == 'E' && Says(c, v, nest)
    ensures Reads(Opt(ArgumentsAndPrefix()), s, i, c, i, v, nest)
  {
    hide Eval, MayStart, Says, Rule;
    TokenStarts(s[i]);
    StartSteps(s[i]);
    OptPasses(ArgumentsAndPrefix(), s, i, c, v, nest);
  }

  /** How much deeper the nest level is at the end of a scope. */
  function Depth(scope: Scope): nat { |scope.parts| + if scope.Templated? then Depth(scope.more) else 0 }

  lemma PrefixOf(s: string, i: nat, c: Context, j: nat, v1: Display, nest1: nat, k: nat, v2: Display, nest2: nat)
    requires Reads(Plus(Component()), s, i, c, j, v1, nest1)
    requires Reads(Opt(ArgumentsAndPrefix()), s, j, Eval(Plus(Component()), s, i, c).c, k, v2, nest2)
    ensures Reads(NT(Prefix), s, i, c, k, v2, nest2)
  {
    hide Eval, Component, Says, Rule;
    var more := Opt(ArgumentsAndPrefix());
    Then(Plus(Component()), more, s, i, c, j, v1, nest1, k, v2, nest2);
    OptReads(Seq(Plus(Component()), more), s, i, c, k, v2, nest2);
    PrefixRule();
    ReadsRule(Prefix, s, i, c, k, v2, nest2);
  }
}

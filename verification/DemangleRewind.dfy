/** What a length below -1 does to the demangler: `_ZNn2E` is read without end, and `_Zn2ab`, which is no mangled
    name, is accepted. */
module DemangleRewind {
  import opened DemangleGrammar
  import opened DemangleTheory
  import opened DemangleCode
  import opened DemangleParts
  import opened DemangleRoundTrip
  import opened DemangleStarts
  import opened DemangleSymbols
  import FlagValues

  // ---------------------------------------------------------------------------
  // How runs are put together

  /** The code reads g at i and ends with r. */
  ghost predicate Lands(g: Grammar, s: string, i: nat, c: Context, r: Outcome) {
    i <= |s| && r.pos <= |s| && exists n: nat :: Code(g, s, i, c, n) == Ended(r)
  }

  /** The code reads g at i for ever. */
  ghost predicate Hangs(g: Grammar, s: string, i: nat, c: Context) {
    i <= |s| && forall n: nat :: Code(g, s, i, c, n).Unfinished?
  }

  lemma LandsOnce(g: Grammar, s: string, i: nat, c: Context, r: Outcome, n: nat)
    requires Lands(g, s, i, c, r)
    ensures Code(g, s, i, c, n).Unfinished? || Code(g, s, i, c, n) == Ended(r)
  {
    hide Code;
    var m: nat :| Code(g, s, i, c, m) == Ended(r);
    if n <= m {
      if !Code(g, s, i, c, n).Unfinished? { MoreSteps(g, s, i, c, n, m); }
    } else {
      MoreSteps(g, s, i, c, m, n);
    }
  }

  lemma LandsSeq(a: Grammar, b: Grammar, s: string, i: nat, c: Context, ra: Outcome, rb: Outcome)
    requires Lands(a, s, i, c, ra) && ra.ok && Lands(b, s, ra.pos, ra.c, rb)
    ensures Lands(Seq(a, b), s, i, c, if rb.ok then rb else FailFrom(i, c, rb))
  {
    hide Code;
    var n: nat :| Code(a, s, i, c, n) == Ended(ra);
    var m: nat :| Code(b, s, ra.pos, ra.c, m) == Ended(rb);
    MoreSteps(a, s, i, c, n, n + m);
    MoreSteps(b, s, ra.pos, ra.c, m, n + m);
    SeqStep(a, b, s, i, c, n + m);
  }

  lemma LandsFirst(a: Grammar, b: Grammar, s: string, i: nat, c: Context, r: Outcome)
    requires Lands(a, s, i, c, r) && r.ok
    ensures Lands(Alt(a, b), s, i, c, r)
  {
    hide Code;
    var n: nat :| Code(a, s, i, c, n) == Ended(r);
    AltStep(a, b, s, i, c, n);
  }

  lemma LandsSecond(a: Grammar, b: Grammar, s: string, i: nat, c: Context, ra: Outcome, rb: Outcome)
    requires Lands(a, s, i, c, ra) && !ra.ok && Lands(b, s, i, ra.c, rb)
    ensures Lands(Alt(a, b), s, i, c, rb)
  {
    hide Code;
    var n: nat :| Code(a, s, i, c, n) == Ended(ra);
    var m: nat :| Code(b, s, i, ra.c, m) == Ended(rb);
    MoreSteps(a, s, i, c, n, n + m);
    MoreSteps(b, s, i, ra.c, m, n + m);
    AltStep(a, b, s, i, c, n + m);
  }

  lemma LandsOpt(a: Grammar, s: string, i: nat, c: Context, r: Outcome)
    requires Lands(a, s, i, c, r)
    ensures Lands(Opt(a), s, i, c, r.(ok := true))
  {
    hide Code;
    var n: nat :| Code(a, s, i, c, n) == Ended(r);
    OptStep(a, s, i, c, n);
  }

  lemma LandsRule(x: Nonterminal, s: string, i: nat, c: Context, r: Outcome)
    requires Lands(Rule(x), s, i, c, r)
    ensures Lands(NT(x), s, i, c, r)
  {
    hide Code, Rule;
    var n: nat :| Code(Rule(x), s, i, c, n) == Ended(r);
    RuleStep(x, s, i, c, n + 1);
  }

  lemma LandsLeaf(g: Grammar, s: string, i: nat, c: Context)
    requires i <= |s| && IsLeaf(g) && g != Counted
    ensures Lands(g, s, i, c, Eval(g, s, i, c))
  {
    hide CodeCounted, Eval, Rule;
    assert Code(g, s, i, c, 0) == Ended(Eval(g, s, i, c));
  }

  lemma HangsFirst(a: Grammar, b: Grammar, s: string, i: nat, c: Context)
    requires Hangs(a, s, i, c)
    ensures Hangs(Seq(a, b), s, i, c) && Hangs(Alt(a, b), s, i, c) && Hangs(Opt(a), s, i, c)
  {
    hide Code;
    forall n: nat
      ensures Code(Seq(a, b), s, i, c, n).Unfinished?
      ensures Code(Alt(a, b), s, i, c, n).Unfinished?
      ensures Code(Opt(a), s, i, c, n).Unfinished?
    {
      SeqStep(a, b, s, i, c, n);
      AltStep(a, b, s, i, c, n);
      OptStep(a, s, i, c, n);
    }
  }

  lemma HangsSecond(a: Grammar, b: Grammar, s: string, i: nat, c: Context, r: Outcome)
    requires Lands(a, s, i, c, r) && r.ok && Hangs(b, s, r.pos, r.c)
    ensures Hangs(Seq(a, b), s, i, c)
  {
    hide Code;
    forall n: nat
      ensures Code(Seq(a, b), s, i, c, n).Unfinished?
    {
      LandsOnce(a, s, i, c, r, n);
      SeqStep(a, b, s, i, c, n);
    }
  }

  lemma HangsNested(a: Grammar, s: string, i: nat, c: Context)
    requires Hangs(a, s, i, c.(nest := 0))
    ensures Hangs(Nested(a), s, i, c)
  {
    hide Code;
    forall n: nat
      ensures Code(Nested(a), s, i, c, n).Unfinished?
    {
      NestedStep(a, s, i, c, n);
    }
  }

  lemma HangsRule(x: Nonterminal, s: string, i: nat, c: Context)
    requires Hangs(Rule(x), s, i, c)
    ensures Hangs(NT(x), s, i, c)
  {
    hide Code, Rule;
    forall n: nat
      ensures Code(NT(x), s, i, c, n).Unfinished?
    {
      RuleStep(x, s, i, c, n);
    }
  }

  // ---------------------------------------------------------------------------
  // Reading on after such a length

  function Flagged(r: Outcome): Outcome { r.(c := r.c.(rewound := true)) }

  function FlaggedRun(run: Run): Run { if run.Ended? then Ended(Flagged(run.r)) else run }

  lemma PrintFlag(c: Context, text: string)
    ensures Print(c.(rewound := true), text) == Print(c, text).(rewound := true)
  {
  }

  lemma RowFlag(t: Table, realName: string, c: Context)
    ensures PrintRow(t, realName, c.(rewound := true)) == PrintRow(t, realName, c).(rewound := true)
  {
    hide Print;
    forall c0, text { PrintFlag(c0, text); }
  }

  lemma LeafFlag(g: Grammar, s: string, i: nat, c: Context)
    requires i <= |s| && IsLeaf(g)
    ensures Eval(g, s, i, c.(rewound := true)) == Flagged(Eval(g, s, i, c))
  {
    hide Rule, Rank, Rows, DigitsStart, DigitsEnd, NumberAt, IdentifierText, Print, PrintRow, FindRow;
    forall text { PrintFlag(c, text); }
    forall t, realName { RowFlag(t, realName, c); }
  }

  lemma CountedFlags(s: string, i: nat, c: Context)
    requires i <= |s|
    ensures CodeCounted(s, i, c.(rewound := true)) == FlaggedRun(CodeCounted(s, i, c))
  {
    hide Eval, EvalCounted, DigitsStart, DigitsEnd, NumberAt;
    EvalLeaf(s, i, c);
    EvalLeaf(s, i, c.(rewound := true));
    LeafFlag(Counted, s, i, c);
  }

  /** That such a length was met does not change what is done afterwards. */
  lemma {:induction false} CodeFlags(g: Grammar, s: string, i: nat, c: Context, k: nat)
    requires i <= |s|
    ensures Code(g, s, i, c.(rewound := true), k) == FlaggedRun(Code(g, s, i, c, k))
    decreases k, g
  {
    hide Code, CodeCounted, Eval, Rule;
    var flagged := c.(rewound := true);
    match g
    case Seq(a, b) =>
      SeqStep(a, b, s, i, c, k);
      SeqStep(a, b, s, i, flagged, k);
      CodeFlags(a, s, i, c, k);
      var ra := Code(a, s, i, c, k);
      if ra.Ended? && ra.r.ok { CodeFlags(b, s, ra.r.pos, ra.r.c, k); }
    case Alt(a, b) =>
      AltStep(a, b, s, i, c, k);
      AltStep(a, b, s, i, flagged, k);
      CodeFlags(a, s, i, c, k);
      var ra := Code(a, s, i, c, k);
      if ra.Ended? && !ra.r.ok { CodeFlags(b, s, i, ra.r.c, k); }
    case Many(a) =>
      ManyStep(a, s, i, c, k);
      ManyStep(a, s, i, flagged, k);
      CodeFlags(a, s, i, c, k);
      var ra := Code(a, s, i, c, k);
      if ra.Ended? && ra.r.ok && k > 0 { CodeFlags(g, s, ra.r.pos, ra.r.c, k - 1); }
    case NT(n) =>
      RuleStep(n, s, i, c, k);
      RuleStep(n, s, i, flagged, k);
      if k > 0 { CodeFlags(Rule(n), s, i, c, k - 1); }
    case Opt(a) =>
      OptStep(a, s, i, c, k);
      OptStep(a, s, i, flagged, k);
      CodeFlags(a, s, i, c, k);
    case Quiet(a) =>
      QuietStep(a, s, i, c, k);
      QuietStep(a, s, i, flagged, k);
      CodeFlags(a, s, i, c.(append := false), k);
    case Nested(a) =>
      NestedStep(a, s, i, c, k);
      NestedStep(a, s, i, flagged, k);
      CodeFlags(a, s, i, c.(nest := 0), k);
    case _ =>
      LeafStep(g, s, i, c, k);
      LeafStep(g, s, i, flagged, k);
      if g == Counted { CountedFlags(s, i, c); } else { LeafFlag(g, s, i, c); }
  }

  /** What is read without meeting such a length again is read as by the grammar. */
  lemma LandsAsRead(g: Grammar, s: string, i: nat, c: Context)
    requires i <= |s| && LoopsConsume(g) && !c.rewound && !Eval(g, s, i, c).c.rewound
    ensures Lands(g, s, i, c, Eval(g, s, i, c))
    ensures Lands(g, s, i, c.(rewound := true), Flagged(Eval(g, s, i, c)))
  {
    hide Eval, Code;
    var n := CodeFollowsGrammar(g, s, i, c);
    CodeFlags(g, s, i, c, n);
  }

  lemma LandsFail(g: Grammar, s: string, i: nat, c: Context)
    requires i <= |s| && LoopsConsume(g) && Eval(g, s, i, c.(rewound := false)) == Fail(i, c.(rewound := false))
    ensures Lands(g, s, i, c, Fail(i, c))
  {
    hide Eval, Lands;
    LandsAsRead(g, s, i, c.(rewound := false));
    assert c == if c.rewound then c.(rewound := false).(rewound := true) else c.(rewound := false);
  }

  /** An alternative that cannot start here is passed by. */
  lemma LandsPast(a: Grammar, b: Grammar, s: string, i: nat, c: Context, r: Outcome)
    requires i < |s| && Consuming(a) && Mute(a) && LoopsConsume(a) && !MayStart(a, s[i])
    requires Lands(b, s, i, c, r)
    ensures Lands(Alt(a, b), s, i, c, r)
  {
    hide Eval, MayStart, Consuming, Mute, Lands, LoopsConsume;
    Fails(a, s, i, c.(rewound := false));
    LandsFail(a, s, i, c);
    LandsSecond(a, b, s, i, c, Fail(i, c), r);
  }

  // ---------------------------------------------------------------------------
  // Names without progress

  /** The length at i takes the cursor back to i. */
  predicate BackToStart(s: string, i: nat) {
    && i + 1 < |s| && s[i] == 'n' && IsDigit(s[i + 1])
    && NumberAt(s, i) < -1 && DigitsEnd(s, i) + NumberAt(s, i) == i
  }

  lemma NotOperatorName(s: string, i: nat, c: Context)
    requires i + 1 < |s| && s[i] == 'n' && IsDigit(s[i + 1])
    ensures Eval(NT(OperatorName), s, i, c) == Fail(i, c)
  {
    hide Eval, MayStart, Rows;
    StartSteps('n');
    NotAnOperator(s, i);
    Fails(CastOperator(), s, i, c);
    Fails(VendorOperator(), s, i, c);
    UnfoldAbbrev(Operators, s, i, c);
    Alternatives3(OperatorName, CastOperator(), VendorOperator(), Abbrev(Operators), s, i, c);
  }

  lemma SourceNameStays(s: string, i: nat, c: Context)
    requires BackToStart(s, i)
    ensures Lands(NT(SourceName), s, i, c, Outcome(true, i, c.(rewound := true)))
  {
    hide NumberAt, DigitsEnd;
    assert Rule(SourceName) == Counted;
    hide Rule;
    assert Code(Rule(SourceName), s, i, c, 0) == Ended(Outcome(true, i, c.(rewound := true)));
    LandsRule(SourceName, s, i, c, Outcome(true, i, c.(rewound := true)));
  }

  /** An unscoped name is read there without any progress. */
  lemma UnscopedNameStays(s: string, i: nat, c: Context)
    requires BackToStart(s, i)
    ensures Lands(NT(UnscopedName), s, i, c, Outcome(true, i, c.(rewound := true)))
  {
    hide Eval, MayStart, Lands, Rule, NumberAt, DigitsEnd;
    var r := Outcome(true, i, c.(rewound := true));
    var last := Alt(NT(SourceName), NT(LocalSourceName));
    SourceNameStays(s, i, c);
    LandsFirst(NT(SourceName), NT(LocalSourceName), s, i, c, r);
    TokenStarts('n');
    LandsPast(NT(CtorDtorName), last, s, i, c, r);
    NotOperatorName(s, i, c.(rewound := false));
    LandsFail(NT(OperatorName), s, i, c);
    LandsSecond(NT(OperatorName), Alt(NT(CtorDtorName), last), s, i, c, Fail(i, c), r);
    UnqualifiedRule();
    LandsRule(UnqualifiedName, s, i, c, r);
    LandsFirst(NT(UnqualifiedName), Seq3(Tok("St"), Emit("std::"), NT(UnqualifiedName)), s, i, c, r);
    LandsRule(UnscopedName, s, i, c, r);
  }

  // ---------------------------------------------------------------------------
  // A loop without end

  lemma ComponentNameStays(s: string, i: nat, c: Context)
    requires BackToStart(s, i)
    ensures Lands(ComponentName(), s, i, c, Outcome(true, i, c.(rewound := true)))
  {
    hide Eval, MayStart, Lands, Rule, BackToStart;
    var r := Outcome(true, i, c.(rewound := true));
    BackAtN(s, i);
    UnscopedNameStays(s, i, c);
    TokenStarts('n');
    OtherStarts('n');
    LandsPast(NT(Substitution), NT(UnscopedName), s, i, c, r);
    LandsPast(NT(TemplateParam), Alt(NT(Substitution), NT(UnscopedName)), s, i, c, r);
  }

  lemma ComponentStays(s: string, i: nat, c: Context) returns (r: Outcome)
    requires BackToStart(s, i)
    ensures Lands(Component(), s, i, c, r) && r.ok && r.pos == i
  {
    hide Eval, Lands, BackToStart, ComponentName;
    BackAtN(s, i);
    SeparatorLands(s, i, c);
    var c1 := Eval(Separator, s, i, c).c;
    var r1 := Outcome(true, i, c1.(rewound := true));
    ComponentNameStays(s, i, c1);
    LandsLeaf(Deeper, s, i, r1.c);
    r := Eval(Deeper, s, i, r1.c);
    EvalLeaf(s, i, r1.c);
    LandsSeq(ComponentName(), Deeper, s, i, c1, r1, r);
    LandsSeq(Separator, Seq(ComponentName(), Deeper), s, i, c, Outcome(true, i, c1), r);
  }

  lemma BackAtN(s: string, i: nat)
    requires BackToStart(s, i)
    ensures i < |s| && s[i] == 'n'
  {
  }

  lemma SeparatorLands(s: string, i: nat, c: Context)
    requires i <= |s|
    ensures Lands(Separator, s, i, c, Outcome(true, i, Eval(Separator, s, i, c).c))
  {
    hide Eval, Code;
    EvalLeaf(s, i, c);
    LandsLeaf(Separator, s, i, c);
  }

  /** The loop over the parts of a nested name comes back to the same place in every turn. */
  lemma {:induction false} ComponentsHang(s: string, i: nat, c: Context, n: nat)
    requires BackToStart(s, i)
    ensures Code(Many(Component()), s, i, c, n).Unfinished?
    decreases n
  {
    hide Code, BackToStart, Component;
    var r := ComponentStays(s, i, c);
    LandsOnce(Component(), s, i, c, r, n);
    ManyStep(Component(), s, i, c, n);
    if n > 0 { ComponentsHang(s, i, r.c, n - 1); }
  }

  lemma PrefixHangs(s: string, i: nat, c: Context)
    requires BackToStart(s, i)
    ensures Hangs(NT(Prefix), s, i, c)
  {
    hide Code, BackToStart, Component, Rule;
    var parts, args := Seq(Component(), Many(Component())), Opt(Seq(NT(TemplateArgs), NT(Prefix)));
    var r := ComponentStays(s, i, c);
    forall n: nat { ComponentsHang(s, i, r.c, n); }
    HangsSecond(Component(), Many(Component()), s, i, c, r);
    HangsFirst(parts, args, s, i, c);
    HangsFirst(Seq(parts, args), args, s, i, c);
    PrefixRule();
    HangsRule(Prefix, s, i, c);
  }

  lemma NestedNameHangs(s: string, i: nat, c: Context)
    requires At(s, i, "N") && BackToStart(s, i + 1)
    ensures Hangs(NT(NestedName), s, i, c)
  {
    hide Eval, Code, MayStart, BackToStart, Rule, Lands, Hangs;
    var qualifiers := Opt(NT(CVQualifiers));
    var inner := Seq(qualifiers, NT(Prefix));
    var c0 := c.(nest := 0);
    BackAtN(s, i + 1);
    CVQualifiersStart('n');
    Fails(NT(CVQualifiers), s, i + 1, c0.(rewound := false));
    LandsFail(NT(CVQualifiers), s, i + 1, c0);
    LandsOpt(NT(CVQualifiers), s, i + 1, c0, Fail(i + 1, c0));
    PrefixHangs(s, i + 1, c0);
    HangsSecond(qualifiers, NT(Prefix), s, i + 1, c0, Outcome(true, i + 1, c0));
    HangsNested(inner, s, i + 1, c);
    HangsFirst(Nested(inner), Tok("E"), s, i + 1, c);
    TokLands("N", s, i, c);
    HangsSecond(Tok("N"), Seq(Nested(inner), Tok("E")), s, i, c, Outcome(true, i + 1, c));
    PrefixRule();
    HangsRule(NestedName, s, i, c);
  }

  lemma TokLands(t: string, s: string, i: nat, c: Context)
    requires At(s, i, t)
    ensures Lands(Tok(t), s, i, c, Outcome(true, i + |t|, c))
  {
    LandsLeaf(Tok(t), s, i, c);
    hide EvalAbbrev, EvalCounted, Rule, Rank, Print, Code;
  }

  /** On a nested name that starts with a length which takes the cursor back to itself, the demangler never ends. */
  lemma NegativeLengthHangs(s: string, n: nat)
    requires At(s, 0, "_Z") && At(s, 2, "N") && BackToStart(s, 3)
    ensures CodeTopLevel(s, n).Unfinished?
  {
    hide Eval, Code, BackToStart, Rule, Lands, At;
    NestedNameHangs(s, 2, START);
    PrefixRule();
    HangsFirst(NT(NestedName), Alt(NT(LocalName), Alt(TemplateName(), NT(UnscopedName))), s, 2, START);
    HangsRule(Name, s, 2, START);
    HangsFirst(NT(Name), NT(BareFunctionType), s, 2, START);
    HangsFirst(Seq(NT(Name), NT(BareFunctionType)), Alt(NT(Name), NT(SpecialName)), s, 2, START);
    EncodingRules();
    HangsRule(Encoding, s, 2, START);
    TokLands("_Z", s, 0, START);
    HangsSecond(Tok("_Z"), NT(Encoding), s, 0, START, Outcome(true, 2, START));
    HangsRule(MangledName, s, 0, START);
  }

  /** The shortest such text. */
  lemma EndlessExample(n: nat)
    ensures CodeTopLevel("_ZNn2E", n).Unfinished?
  {
    hide CodeTopLevel;
    var s := "_ZNn2E";
    assert s[0..2] == "_Z" && s[2..3] == "N";
    BackInText(s, 3);
    NegativeLengthHangs(s, n);
  }

  lemma BackInText(s: string, i: nat)
    requires i + 2 < |s| && s[i] == 'n' && s[i + 1] == '2' && !IsDigit(s[i + 2])
    ensures BackToStart(s, i)
  {
    DigitsEndHere(s, i + 1, i + 2);
    var w := s[i + 1..i + 2];
    assert w[..0] == "" && Decimal("") == 0;
  }

  // ---------------------------------------------------------------------------
  // A text that is no mangled name

  lemma NameStays(s: string, i: nat, c: Context)
    requires BackToStart(s, i)
    ensures Lands(NT(Name), s, i, c, Outcome(true, i, c.(rewound := true)))
  {
    hide Eval, MayStart, Lands, Rule, BackToStart;
    var c' := c.(rewound := true);
    var r := Outcome(true, i, c');
    BackAtN(s, i);
    TokenStarts('n');
    UnscopedNameStays(s, i, c);
    LandsFirst(NT(UnscopedName), NT(Substitution), s, i, c, r);
    PrefixRule();
    LandsRule(UnscopedTemplateName, s, i, c, r);
    Fails(NT(TemplateArgs), s, i, c'.(rewound := false));
    LandsFail(NT(TemplateArgs), s, i, c');
    LandsSeq(NT(UnscopedTemplateName), NT(TemplateArgs), s, i, c, r, Fail(i, c'));
    UnscopedNameStays(s, i, c');
    LandsSecond(TemplateName(), NT(UnscopedName), s, i, c, Fail(i, c'), r);
    LandsPast(NT(LocalName), Alt(TemplateName(), NT(UnscopedName)), s, i, c, r);
    LandsPast(NT(NestedName), Alt(NT(LocalName), Alt(TemplateName(), NT(UnscopedName))), s, i, c, r);
    LandsRule(Name, s, i, c, r);
  }

  /** A name without progress may be followed by parameter types that are read from the same place. */
  lemma EncodingStays(s: string, i: nat, ps: seq<Parameter>) returns (r: Outcome)
    requires BackToStart(s, i) && ParametersAt(s, i, ps) && AreParameters(ps) && ps != []
    ensures Lands(NT(Encoding), s, i, START, r) && r.ok && r.pos == i + |ParametersText(ps)| && r.c.out == "()"
    ensures r.c.rewound
  {
    hide Eval, MayStart, Lands, Rule, BackToStart, ParametersAt, AreParameters, ParametersText;
    NameStays(s, i, START);
    SaysStart();
    ParametersRead(s, i, ps, START, BLANK, -1);
    assert "" + "()" == "()";
    SaysOut(Eval(NT(BareFunctionType), s, i, START).c, Display("()", ""), -1);
    LandsAsRead(NT(BareFunctionType), s, i, START);
    r := Flagged(Eval(NT(BareFunctionType), s, i, START));
    LandsSeq(NT(Name), NT(BareFunctionType), s, i, START, Outcome(true, i, START.(rewound := true)), r);
    LandsFirst(Seq(NT(Name), NT(BareFunctionType)), Alt(NT(Name), NT(SpecialName)), s, i, START, r);
    EncodingRules();
    LandsRule(Encoding, s, i, START, r);
  }

  /** The demangler accepts this text and calls it "()". */
  lemma AcceptedExample() returns (r: Outcome, n: nat)
    ensures CodeTopLevel("_Zn2ab", n) == Ended(r) && r.ok && r.c.out == "()" && r.c.rewound
  {
    hide Eval, Code, MayStart, Rule, BackToStart, ParametersAt, AreParameters;
    var s := "_Zn2ab";
    var ps := [Builtin('n'), OfClass(Plain(Word("ab"), NoArguments))];
    assert s[0..2] == "_Z";
    BackInText(s, 2);
    ExampleTypes(s, ps);
    r := EncodingStays(s, 2, ps);
    TokLands("_Z", s, 0, START);
    LandsSeq(Tok("_Z"), NT(Encoding), s, 0, START, Outcome(true, 2, START), r);
    EncodingRules();
    LandsRule(MangledName, s, 0, START, r);
    n :| Code(NT(MangledName), s, 0, START, n) == Ended(r);
    assert s[|s|..] == "";
    EmptyCloneSuffix();
  }

  lemma ExampleTypes(s: string, ps: seq<Parameter>)
    requires s == "_Zn2ab" && ps == [Builtin('n'), OfClass(Plain(Word("ab"), NoArguments))]
    ensures ParametersAt(s, 2, ps) && AreParameters(ps) && |ParametersText(ps)| == 4
  {
    assert AreParameters(ps);
    ParametersAreArguments(ps);
    assert FlagValues.Numeral(2) == "2";
    assert ParametersText(ps[1..][1..]) == "" && ParameterText(ps[1]) == "2ab" && ps[1..][0] == ps[1];
    assert ParametersText(ps[1..]) == "2ab";
    assert ParametersText(ps) == "n2ab";
    assert s[2..6] == "n2ab";
  }

  lemma CountingStarts(w: string, d: nat, k: nat)
    requires CountsItself(w, d, k)
    ensures w != "" && (w[0] == 'n' || IsDigit(w[0]))
  {
    if d == 0 {
      assert w[0..k][0] == w[0];
      DigitClass(w[0]);
    }
    hide Digits, Decimal;
  }

  /** w starts like a text of g, and is not empty if g must consume text. */
  predicate StartsLike(g: Grammar, w: string) {
    (w != "" ==> MayStart(g, w[0])) && (Consuming(g) ==> w != "")
  }

  lemma SeqStartsLike(a: Grammar, b: Grammar, w: string, k: nat)
    requires k <= |w| && StartsLike(a, w[..k]) && StartsLike(b, w[k..])
    ensures StartsLike(Seq(a, b), w)
  {
    hide Rule, Rank, Rows;
    if k > 0 { assert w[..k][0] == w[0]; } else { assert w[k..] == w; }
  }

  lemma PartStartsLike(a: Grammar, w: string)
    requires StartsLike(a, w)
    ensures StartsLike(Opt(a), w) && StartsLike(Quiet(a), w) && StartsLike(Nested(a), w)
  {
    hide Rule, Rank, Rows;
  }

  lemma AltStartsLike(a: Grammar, b: Grammar, w: string)
    requires StartsLike(a, w) || StartsLike(b, w)
    ensures StartsLike(Alt(a, b), w)
  {
    hide Rule, Rank, Rows;
  }

  lemma ManyStartsLike(a: Grammar, w: string, k: nat)
    requires k <= |w| && StartsLike(a, w[..k]) && StartsLike(Many(a), w[k..])
    ensures StartsLike(Many(a), w)
  {
    hide Rule, Rank, Rows;
    if k > 0 { assert w[..k][0] == w[0]; } else { assert w[k..] == w; }
  }

  lemma RuleStartsLike(n: Nonterminal, w: string)
    requires StartsLike(Rule(n), w)
    ensures StartsLike(NT(n), w)
  {
    hide Rule, Rank, Rows;
    NoLeftRecursion(n);
  }

  least lemma {:induction false} LeafStartsLike(g: Grammar, w: string)
    requires Derives(g, w)
    requires !(g.Seq? || g.Alt? || g.Opt? || g.Many? || g.NT? || g.Quiet? || g.Nested?)
    ensures StartsLike(g, w)
  {
    hide Rule, Rank, Rows, CountsItself;
    if g == Counted {
      var d: nat, k: nat :| CountsItself(w, d, k);
      CountingStarts(w, d, k);
    }
  }

  // Derivations of height o, taken apart.

  lemma {:induction false} SeqAt(o: ORDINAL, a: Grammar, b: Grammar, w: string) returns (k: nat)
    requires o.Offset > 0 && Derives#[o](Seq(a, b), w)
    ensures k <= |w| && Derives#[o - 1](a, w[..k]) && Derives#[o - 1](b, w[k..])
  {
    hide Rule, Rows, CountsItself;
    k :| k <= |w| && Derives#[o - 1](a, w[..k]) && Derives#[o - 1](b, w[k..]);
  }

  lemma {:induction false} ManyAt(o: ORDINAL, a: Grammar, w: string) returns (k: nat)
    requires o.Offset > 0 && Derives#[o](Many(a), w) && w != ""
    ensures k <= |w| && Derives#[o - 1](a, w[..k]) && Derives#[o - 1](Many(a), w[k..])
  {
    hide Rule, Rows, CountsItself;
    k :| k <= |w| && Derives#[o - 1](a, w[..k]) && Derives#[o - 1](Many(a), w[k..]);
  }

  lemma {:induction false} PartAt(o: ORDINAL, a: Grammar, w: string)
    requires o.Offset > 0
    ensures Derives#[o](Opt(a), w) ==> w == "" || Derives#[o - 1](a, w)
    ensures Derives#[o](Quiet(a), w) ==> Derives#[o - 1](a, w)
    ensures Derives#[o](Nested(a), w) ==> Derives#[o - 1](a, w)
  {
    hide Rule, Rows, CountsItself;
  }

  lemma {:induction false} RuleAt(o: ORDINAL, n: Nonterminal, w: string)
    requires o.Offset > 0 && Derives#[o](NT(n), w)
    ensures Derives#[o - 1](Rule(n), w)
  {
    hide Rule, Rows, CountsItself;
  }

  lemma {:induction false} AltAt(o: ORDINAL, a: Grammar, b: Grammar, w: string)
    requires o.Offset > 0 && Derives#[o](Alt(a, b), w)
    ensures Derives#[o - 1](a, w) || Derives#[o - 1](b, w)
  {
    hide Rule, Rows, CountsItself;
  }

  /** Texts of the language of g start with a first character of g, and are not empty if g must consume text. */
  least lemma {:induction false} DerivedStarts(g: Grammar, w: string)
    requires Derives(g, w)
    ensures StartsLike(g, w)
  {
    hide Rule, StartsLike, Derives;
    match g
    case Seq(a, b) =>
      var k := SeqAt(_k, a, b, w);
      DerivedStarts#[_k - 1](a, w[..k]);
      DerivedStarts#[_k - 1](b, w[k..]);
      SeqStartsLike(a, b, w, k);
    case Alt(a, b) =>
      AltAt(_k, a, b, w);
      if Derives#[_k - 1](a, w) { DerivedStarts#[_k - 1](a, w); } else { DerivedStarts#[_k - 1](b, w); }
      AltStartsLike(a, b, w);
    case Many(a) =>
      if w == "" {
        EmptyStartsLike(a);
      } else {
        var k := ManyAt(_k, a, w);
        DerivedStarts#[_k - 1](a, w[..k]);
        DerivedStarts#[_k - 1](g, w[k..]);
        ManyStartsLike(a, w, k);
      }
    case Opt(a) =>
      PartAt(_k, a, w);
      EmptyStartsLike(a);
      if w != "" {
        DerivedStarts#[_k - 1](a, w);
        PartStartsLike(a, w);
      }
    case Quiet(a) =>
      PartAt(_k, a, w);
      DerivedStarts#[_k - 1](a, w);
      PartStartsLike(a, w);
    case Nested(a) =>
      PartAt(_k, a, w);
      DerivedStarts#[_k - 1](a, w);
      PartStartsLike(a, w);
    case NT(n) =>
      RuleAt(_k, n, w);
      DerivedStarts#[_k - 1](Rule(n), w);
      RuleStartsLike(n, w);
    case _ => LeafStartsLike#[_k](g, w);
  }

  lemma EmptyStartsLike(a: Grammar)
    ensures StartsLike(Opt(a), "") && StartsLike(Many(a), "")
  {
  }

  // Taking derivations apart.

  lemma RuleDerived(n: Nonterminal, w: string)
    requires Derives(NT(n), w)
    ensures Derives(Rule(n), w)
  {
    hide Rule;
  }

  lemma SeqDerived(a: Grammar, b: Grammar, w: string) returns (k: nat)
    requires Derives(Seq(a, b), w)
    ensures k <= |w| && Derives(a, w[..k]) && Derives(b, w[k..])
  {
    hide Rule;
    k :| k <= |w| && Derives(a, w[..k]) && Derives(b, w[k..]);
  }

  lemma AltDerived(a: Grammar, b: Grammar, w: string)
    requires Derives(Alt(a, b), w)
    ensures Derives(a, w) || Derives(b, w)
    ensures w != "" && !MayStart(a, w[0]) ==> Derives(b, w)
    ensures w != "" && !MayStart(b, w[0]) ==> Derives(a, w)
  {
    hide Rule, MayStart;
    if Derives(a, w) { DerivedStarts(a, w); }
    if Derives(b, w) { DerivedStarts(b, w); }
  }

  lemma TokDerived(t: string, w: string)
    requires Derives(Tok(t), w)
    ensures w == t
  {
    hide Rule;
  }

  lemma CountedDerived(w: string) returns (d: nat, k: nat)
    requires Derives(Counted, w)
    ensures CountsItself(w, d, k)
  {
    hide Rule, CountsItself;
    d, k :| CountsItself(w, d, k);
  }

  lemma OperatorDerived(w: string)
    requires Derives(Abbrev(Operators), w)
    ensures |w| == 2 && IsAlpha(w[1])
  {
    hide Rule, Rows;
    RowFacts(Operators);
  }

  /** What follows the n at the start of a name. */
  predicate AfterN(w: string) { |w| >= 2 && w[0] == 'n' && (IsAlpha(w[1]) || w[1] == '0') }

  lemma CountedAfterN(w: string)
    requires Derives(Counted, w) && w != "" && w[0] == 'n'
    ensures AfterN(w)
  {
    hide Derives;
    var d, k := CountedDerived(w);
    hide Decimal, Digits;
    var u := w[d..k];
    assert u[0] == w[d] && u[0] in Digits();
    DigitClass(u[0]);
    if w[d] != '0' { DecimalAtLeast(u); }
  }

  lemma OperatorAfterN(w: string)
    requires Derives(NT(OperatorName), w) && w != "" && w[0] == 'n'
    ensures AfterN(w)
  {
    hide Derives, Rows, MayStart;
    StartSteps('n');
    RuleDerived(OperatorName, w);
    AltDerived(CastOperator(), Alt(VendorOperator(), Abbrev(Operators)), w);
    AltDerived(VendorOperator(), Abbrev(Operators), w);
    OperatorDerived(w);
  }

  lemma UnscopedAfterN(w: string)
    requires Derives(NT(UnscopedName), w) && w != "" && w[0] == 'n'
    ensures AfterN(w)
  {
    hide Derives, MayStart, Rule, AfterN;
    var last := Alt(NT(SourceName), NT(LocalSourceName));
    UnqualifiedRule();
    StartSteps('n');
    TokenStarts('n');
    RuleDerived(UnscopedName, w);
    AltDerived(NT(UnqualifiedName), Seq3(Tok("St"), Emit("std::"), NT(UnqualifiedName)), w);
    RuleDerived(UnqualifiedName, w);
    AltDerived(NT(OperatorName), Alt(NT(CtorDtorName), last), w);
    if Derives(NT(OperatorName), w) {
      OperatorAfterN(w);
    } else {
      AltDerived(NT(CtorDtorName), last, w);
      AltDerived(NT(SourceName), NT(LocalSourceName), w);
      RuleDerived(SourceName, w);
      SourceNameRule();
      CountedAfterN(w);
    }
  }

  lemma SourceNameRule()
    ensures Rule(SourceName) == Counted
  {
  }

  lemma NameAfterN(w: string)
    requires Derives(NT(Name), w) && w != "" && w[0] == 'n'
    ensures AfterN(w)
  {
    hide Derives, MayStart, Rule;
    var last := Alt(TemplateName(), NT(UnscopedName));
    PrefixRule();
    TokenStarts('n');
    OtherStarts('n');
    RuleDerived(Name, w);
    AltDerived(NT(NestedName), Alt(NT(LocalName), last), w);
    AltDerived(NT(LocalName), last, w);
    AltDerived(TemplateName(), NT(UnscopedName), w);
    if Derives(NT(UnscopedName), w) {
      UnscopedAfterN(w);
    } else {
      var k := SeqDerived(NT(UnscopedTemplateName), NT(TemplateArgs), w);
      DerivedStarts(NT(UnscopedTemplateName), w[..k]);
      RuleDerived(UnscopedTemplateName, w[..k]);
      AltDerived(NT(UnscopedName), NT(Substitution), w[..k]);
      UnscopedAfterN(w[..k]);
    }
  }

  lemma SpecialNameStart()
    ensures !MayStart(NT(SpecialName), 'n')
  {
    hide MayStart, Consuming, Level, Rank, Rows;
    StartOf(SpecialName, 'n');
    StartSteps('n');
    ConsumingSteps();
  }

  lemma EncodingAfterN(w: string)
    requires Derives(NT(Encoding), w) && w != "" && w[0] == 'n'
    ensures AfterN(w)
  {
    hide Derives, MayStart, Rule;
    EncodingRules();
    SpecialNameStart();
    RuleDerived(Encoding, w);
    AltDerived(Seq(NT(Name), NT(BareFunctionType)), Alt(NT(Name), NT(SpecialName)), w);
    if Derives(Alt(NT(Name), NT(SpecialName)), w) {
      AltDerived(NT(Name), NT(SpecialName), w);
      NameAfterN(w);
    } else {
      var k := SeqDerived(NT(Name), NT(BareFunctionType), w);
      DerivedStarts(NT(Name), w[..k]);
      NameAfterN(w[..k]);
    }
  }

  lemma MangledDerived(w: string)
    requires Derives(NT(MangledName), w)
    ensures |w| >= 2 && Derives(NT(Encoding), w[2..])
  {
    hide Derives, MayStart, Rule;
    EncodingRules();
    RuleDerived(MangledName, w);
    var k := SeqDerived(Tok("_Z"), NT(Encoding), w);
    TokDerived("_Z", w[..k]);
    assert k == |w[..k]|;
  }

  /** In the language of the grammar, no digit but 0 follows an n at the start of the name. */
  lemma {:induction false} MangledAfterN(w: string)
    requires Derives(NT(MangledName), w) && (|w| > 2 ==> w[2] == 'n')
    ensures |w| >= 4 && (IsAlpha(w[3]) || w[3] == '0')
  {
    hide Derives, MayStart, Rule;
    MangledDerived(w);
    DerivedStarts(NT(Encoding), w[2..]);
    EncodingAfterN(w[2..]);
  }

  /** No beginning of the text that is accepted above is a mangled name. */
  lemma AcceptedExampleIsNoName()
    ensures !IsMangledName("_Zn2ab")
  {
    hide Derives, IsCloneSuffix;
    var s := "_Zn2ab";
    forall k | 0 <= k <= |s|
      ensures !Derives(NT(MangledName), s[..k])
    {
      if Derives(NT(MangledName), s[..k]) { MangledAfterN(s[..k]); }
    }
  }
}

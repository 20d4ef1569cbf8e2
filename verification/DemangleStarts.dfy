/** With which characters the texts of each rule start, and that a rule which cannot start somewhere does nothing
    there. */
module DemangleStarts {
  import opened Wrappers
  import opened DemangleGrammar
  import opened DemangleTheory

  // ---------------------------------------------------------------------------
  // First characters

  /** A text that g matches may start with ch. */
  predicate MayStart(g: Grammar, ch: char)
    decreases Level(g), g
  {
    hide Rule, Rank;
    match g
    case Tok(t) => t != "" && t[0] == ch
    case Class(cs) => ch in cs
    case Seq(a, b) => MayStart(a, ch) || (!Consuming(a) && MayStart(b, ch))
    case Alt(a, b) => MayStart(a, ch) || MayStart(b, ch)
    case Opt(a) => MayStart(a, ch)
    case Many(a) => MayStart(a, ch)
    case NT(n) =>
      NoLeftRecursion(n);
      MayStart(Rule(n), ch)
    case Counted => ch == 'n' || IsDigit(ch)
    case Abbrev(t) => exists q | 0 <= q < |Rows(t)| :: Rows(t)[q].first == ch
    case Quiet(a) => MayStart(a, ch)
    case Nested(a) => MayStart(a, ch)
    case Emit(_) => false
    case EmitPrev => false
    case Separator => false
    case Deeper => false
  }

  lemma CountedStarts(s: string, i: nat, c: Context)
    requires i < |s| && EvalCounted(s, i, c).ok
    ensures MayStart(Counted, s[i])
  {
    hide IdentifierOutcome, NumberAt;
    DigitClass(s[i]);
    hide Digits;
  }

  lemma AbbrevStarts(t: Table, s: string, i: nat, c: Context)
    requires i < |s| && EvalAbbrev(t, s, i, c).ok
    ensures MayStart(Abbrev(t), s[i])
  {
    hide Rows;
    var q := FindRow(Rows(t), Width(t), 0, s, i);
    assert Rows(t)[q].first == s[i];
  }

  lemma LeafStarts(g: Grammar, s: string, i: nat, c: Context)
    requires i < |s| && IsLeaf(g) && Eval(g, s, i, c).ok && Eval(g, s, i, c).pos > i
    ensures MayStart(g, s[i])
  {
    hide EvalAbbrev, EvalCounted, Rule, Rank, Print, Rows;
    match g
    case Tok(t) => assert s[i..i + |t|] == t;
    case Counted => CountedStarts(s, i, c);
    case Abbrev(t) => AbbrevStarts(t, s, i, c);
    case _ =>
  }

  /** What is consumed starts with a first character of the grammar. */
  lemma {:induction false} Starts(g: Grammar, s: string, i: nat, c: Context)
    requires i < |s| && Eval(g, s, i, c).ok && Eval(g, s, i, c).pos > i
    ensures MayStart(g, s[i])
    decreases Level(g), g
  {
    hide EvalAbbrev, EvalCounted, Rule, Rank, Print, Rows;
    match g
    case Seq(a, b) =>
      var ra := Eval(a, s, i, c);
      if ra.pos > i { Starts(a, s, i, c); } else { Starts(b, s, i, ra.c); }
    case Alt(a, b) =>
      var ra := Eval(a, s, i, c);
      if ra.ok { Starts(a, s, i, c); } else { Starts(b, s, i, ra.c); }
    case Opt(a) => Starts(a, s, i, c);
    case Many(a) => Starts(a, s, i, c);
    case NT(n) =>
      NoLeftRecursion(n);
      Starts(Rule(n), s, i, c);
    case Quiet(a) => Starts(a, s, i, c.(append := false));
    case Nested(a) => Starts(a, s, i, c.(nest := 0));
    case _ => LeafStarts(g, s, i, c);
  }

  lemma LeafSilent(g: Grammar, s: string, i: nat, c: Context)
    requires i <= |s| && IsLeaf(g) && Mute(g) && (i < |s| ==> !MayStart(g, s[i]))
    ensures Eval(g, s, i, c).pos == i && Eval(g, s, i, c).c == c
  {
    hide Rule, Rank, Print, Rows;
    match g
    case Tok(t) => if t != "" && i + |t| <= |s| { assert s[i..i + |t|][0] == s[i]; }
    case Counted => if i < |s| { DigitClass(s[i]); }
    case _ =>
  }

  /** Where it cannot start, such a grammar does nothing at all, and fails if it must consume text. */
  lemma {:induction false} Silent(g: Grammar, s: string, i: nat, c: Context)
    requires i <= |s| && Mute(g) && (i < |s| ==> !MayStart(g, s[i]))
    ensures Eval(g, s, i, c).pos == i && Eval(g, s, i, c).c == c
    decreases Level(g), g
  {
    hide Eval, Rule, Rank, Rows;
    match g
    case Seq(a, b) =>
      Silent(a, s, i, c);
      if Eval(a, s, i, c).ok { Silent(b, s, i, c); }
      Unfold2(a, b, s, i, c);
    case Alt(a, b) =>
      Silent(a, s, i, c);
      Silent(b, s, i, c);
      Choose(a, b, s, i, c);
    case Opt(a) =>
      Silent(a, s, i, c);
      UnfoldOpt(a, s, i, c);
    case Many(a) =>
      Silent(a, s, i, c);
      UnfoldLoop(a, s, i, c);
    case NT(n) =>
      NoLeftRecursion(n);
      Silent(Rule(n), s, i, c);
      Unfold(n, s, i, c);
    case Quiet(a) =>
      Silent(a, s, i, c.(append := false));
      UnfoldQuiet(a, s, i, c);
    case Nested(a) =>
      Silent(a, s, i, c.(nest := 0));
      UnfoldNested(a, s, i, c);
    case _ => LeafSilent(g, s, i, c);
  }

  lemma Fails(g: Grammar, s: string, i: nat, c: Context)
    requires i <= |s| && Consuming(g) && Mute(g) && (i < |s| ==> !MayStart(g, s[i]))
    ensures Eval(g, s, i, c) == Fail(i, c)
  {
    hide Eval, MayStart, Consuming, Mute;
    Silent(g, s, i, c);
  }

  // The first characters of the nonterminals that must fail in a plain name.

  lemma StartSteps(ch: char)
    ensures forall t {:trigger MayStart(Tok(t), ch)} :: MayStart(Tok(t), ch) == (t != "" && t[0] == ch)
    ensures forall cs {:trigger MayStart(Class(cs), ch)} :: MayStart(Class(cs), ch) == (ch in cs)
    ensures forall a, b {:trigger MayStart(Seq(a, b), ch)} ::
      MayStart(Seq(a, b), ch) == (MayStart(a, ch) || (!Consuming(a) && MayStart(b, ch)))
    ensures forall a, b {:trigger MayStart(Alt(a, b), ch)} ::
      MayStart(Alt(a, b), ch) == (MayStart(a, ch) || MayStart(b, ch))
    ensures forall a {:trigger MayStart(Opt(a), ch)} :: MayStart(Opt(a), ch) == MayStart(a, ch)
    ensures forall a {:trigger MayStart(Quiet(a), ch)} :: MayStart(Quiet(a), ch) == MayStart(a, ch)
    ensures forall a {:trigger MayStart(Nested(a), ch)} :: MayStart(Nested(a), ch) == MayStart(a, ch)
    ensures forall t {:trigger MayStart(Emit(t), ch)} :: !MayStart(Emit(t), ch)
    ensures !MayStart(Separator, ch) && !MayStart(EmitPrev, ch) && !MayStart(Deeper, ch)
    ensures MayStart(Counted, ch) == (ch == 'n' || IsDigit(ch))
  {
    hide Consuming, Level, Rule, Rank, Rows;
  }

  lemma StartOf(n: Nonterminal, ch: char)
    ensures MayStart(NT(n), ch) == MayStart(Rule(n), ch)
  {
    hide Rule, Rank, Rows;
  }

  lemma OperatorRowsStart(ch: char)
    ensures MayStart(Abbrev(Operators), ch) ==> IsLower(ch)
    ensures MayStart(Abbrev(Substitutions), ch) ==> ch == 'S'
  {
    hide Rows;
    RowFacts(Operators);
    RowFacts(Substitutions);
    SubstitutionFirst();
  }

  lemma SubstitutionFirst()
    ensures forall q :: 0 <= q < |Rows(Substitutions)| ==> Rows(Substitutions)[q].first == 'S'
  {
  }

  lemma TokenStarts(ch: char)
    ensures MayStart(NT(NestedName), ch) <==> ch == 'N'
    ensures MayStart(NT(LocalName), ch) <==> ch == 'Z'
    ensures MayStart(NT(TemplateArgs), ch) <==> ch == 'I'
    ensures MayStart(NT(TemplateParam), ch) <==> ch == 'T'
    ensures MayStart(NT(LocalSourceName), ch) <==> ch == 'L'
    ensures MayStart(NT(CtorDtorName), ch) <==> ch == 'C' || ch == 'D'
  {
    hide MayStart, Consuming, Level, Rank, Rule;
    NestedNameStart(ch);
    LocalNameStart(ch);
    TemplateArgsStart(ch);
    TemplateParamStart(ch);
    LocalSourceNameStart(ch);
    CtorDtorNameStart(ch);
  }

  lemma NestedNameStart(ch: char)
    ensures MayStart(NT(NestedName), ch) <==> ch == 'N'
  {
    hide MayStart, Consuming, Level, Rank;
    StartOf(NestedName, ch);
    StartSteps(ch);
    ConsumingSteps();
  }

  lemma LocalNameStart(ch: char)
    ensures MayStart(NT(LocalName), ch) <==> ch == 'Z'
  {
    hide MayStart, Consuming, Level, Rank;
    StartOf(LocalName, ch);
    StartSteps(ch);
    ConsumingSteps();
  }

  lemma TemplateArgsStart(ch: char)
    ensures MayStart(NT(TemplateArgs), ch) <==> ch == 'I'
  {
    hide MayStart, Consuming, Level, Rank;
    StartOf(TemplateArgs, ch);
    StartSteps(ch);
    ConsumingSteps();
  }

  lemma TemplateParamStart(ch: char)
    ensures MayStart(NT(TemplateParam), ch) <==> ch == 'T'
  {
    hide MayStart, Consuming, Level, Rank;
    StartOf(TemplateParam, ch);
    StartSteps(ch);
    ConsumingSteps();
  }

  lemma LocalSourceNameStart(ch: char)
    ensures MayStart(NT(LocalSourceName), ch) <==> ch == 'L'
  {
    hide MayStart, Consuming, Level, Rank;
    StartOf(LocalSourceName, ch);
    StartSteps(ch);
    ConsumingSteps();
  }

  lemma CtorDtorNameStart(ch: char)
    ensures MayStart(NT(CtorDtorName), ch) <==> ch == 'C' || ch == 'D'
  {
    hide MayStart, Consuming, Level, Rank;
    StartOf(CtorDtorName, ch);
    StartSteps(ch);
    ConsumingSteps();
  }

  lemma ConsumingSteps()
    ensures forall t {:trigger Consuming(Tok(t))} :: Consuming(Tok(t)) == (t != "")
    ensures forall cs {:trigger Consuming(Class(cs))} :: Consuming(Class(cs))
  {
  }

  predicate QualifierLetter(ch: char) {
    ch == 'r' || ch == 'V' || ch == 'K' || ch == 'O' || ch == 'P' || ch == 'R' || ch == 'C' || ch == 'G' ||
      ch == 'D' || ch == 'U'
  }

  lemma OtherStarts(ch: char)
    ensures MayStart(NT(OperatorName), ch) ==> IsLower(ch)
    ensures MayStart(NT(Substitution), ch) ==> ch == 'S'
    ensures MayStart(NT(SourceName), ch) <==> ch == 'n' || IsDigit(ch)
  {
    hide MayStart, Consuming, Level, Rank, Rows, Rule;
    OperatorNameStart(ch);
    SubstitutionStart(ch);
    SourceNameStart(ch);
  }

  lemma OperatorNameStart(ch: char)
    ensures MayStart(NT(OperatorName), ch) ==> IsLower(ch)
  {
    hide MayStart, Consuming, Level, Rank, Rows;
    StartOf(OperatorName, ch);
    OperatorRowsStart(ch);
    StartSteps(ch);
    ConsumingSteps();
  }

  lemma SubstitutionStart(ch: char)
    ensures MayStart(NT(Substitution), ch) ==> ch == 'S'
  {
    hide MayStart, Consuming, Level, Rank, Rows;
    StartOf(Substitution, ch);
    OperatorRowsStart(ch);
    StartSteps(ch);
    ConsumingSteps();
  }

  lemma SourceNameStart(ch: char)
    ensures MayStart(NT(SourceName), ch) <==> ch == 'n' || IsDigit(ch)
  {
    hide MayStart, Consuming, Level, Rank, Rows;
    StartOf(SourceName, ch);
    StartSteps(ch);
  }

  lemma CVQualifiersStart(ch: char)
    ensures MayStart(NT(CVQualifiers), ch) ==> ch == 'r' || ch == 'V' || ch == 'K'
  {
    hide MayStart, Consuming, Level, Rank, Rows;
    StartOf(CVQualifiers, ch);
    StartSteps(ch);
    ConsumingSteps();
  }

  lemma QualifiedTypeStart(ch: char)
    ensures MayStart(QualifiedType(), ch) ==> QualifierLetter(ch)
  {
    hide MayStart, Level, Rank, Rows, Rule;
    CVQualifiersStart(ch);
    StartSteps(ch);
  }

  lemma UnscopedStarts(ch: char)
    ensures MayStart(NT(UnscopedName), ch) ==>
      IsLower(ch) || ch == 'C' || ch == 'D' || ch == 'L' || ch == 'S' || IsDigit(ch)
  {
    hide MayStart, Consuming, Level, Rank, Rows;
    StartSteps(ch);
    ConsumingSteps();
    TokenStarts(ch);
    OtherStarts(ch);
    StartOf(UnscopedName, ch);
    StartOf(UnqualifiedName, ch);
  }
}

/** What demangle.cc does with every text, lengths below -1 included. */
module DemangleCode {
  import opened DemangleGrammar
  import opened DemangleTheory

  /** How a run of so many steps ends: with an outcome, with the cursor in front of the text, or not yet. */
  datatype Run = Ended(r: Outcome) | Astray | Unfinished

  /** ParseSourceName. A length below -1 passes both tests of ParseIdentifier and moves the cursor back. */
  function CodeCounted(s: string, i: nat, c: Context): (run: Run)
    requires i <= |s|
    ensures run.Ended? ==> run.r.pos <= |s| && (!run.r.ok ==> run.r.pos == i && run.r.c == Back(c, run.r.c))
  {
    var d, length := DigitsEnd(s, i), NumberAt(s, i);
    if d == DigitsStart(s, i) || length >= -1 then Ended(EvalCounted(s, i, c))
    else if d + length < 0 then Astray
    else Ended(Outcome(true, d + length, c.(rewound := true)))
  }

  /** The parse functions, as they are: each reads as `Eval` does, but a loop goes on as long as its body
      succeeds, with or without progress. A call and a turn of a loop take one step. */
  function Code(g: Grammar, s: string, i: nat, c: Context, steps: nat): (run: Run)
    requires i <= |s|
    ensures run.Ended? ==> run.r.pos <= |s| && (!run.r.ok ==> run.r.pos == i && run.r.c == Back(c, run.r.c))
    ensures run.Ended? && g.Many? ==> run.r.ok
    decreases steps, g
  {
    hide CodeCounted, Eval, Rule;
    match g
    case Seq(a, b) =>
      var ra := Code(a, s, i, c, steps);
      if !ra.Ended? || !ra.r.ok then ra
      else
        var rb := Code(b, s, ra.r.pos, ra.r.c, steps);
        if rb.Ended? && !rb.r.ok then Ended(Fail(i, Back(c, rb.r.c))) else rb
    case Alt(a, b) =>
      var ra := Code(a, s, i, c, steps);
      if !ra.Ended? || ra.r.ok then ra else Code(b, s, i, ra.r.c, steps)
    case Opt(a) =>
      var ra := Code(a, s, i, c, steps);
      if ra.Ended? then Ended(ra.r.(ok := true)) else ra
    case Many(a) =>
      var ra := Code(a, s, i, c, steps);
      if !ra.Ended? then ra
      else if !ra.r.ok then Ended(Outcome(true, i, ra.r.c))
      else if steps == 0 then Unfinished
      else Code(g, s, ra.r.pos, ra.r.c, steps - 1)
    case NT(n) => if steps == 0 then Unfinished else Code(Rule(n), s, i, c, steps - 1)
    case Counted => CodeCounted(s, i, c)
    case Quiet(a) =>
      var ra := Code(a, s, i, c.(append := false), steps);
      if !ra.Ended? then ra
      else if ra.r.ok then Ended(ra.r.(c := ra.r.c.(append := c.append)))
      else Ended(Fail(i, Back(c, ra.r.c)))
    case Nested(a) =>
      var ra := Code(a, s, i, c.(nest := 0), steps);
      if !ra.Ended? then ra
      else if ra.r.ok then Ended(ra.r.(c := ra.r.c.(nest := c.nest)))
      else Ended(Fail(i, Back(c, ra.r.c)))
    case _ => Ended(Eval(g, s, i, c))
  }

  lemma SeqStep(a: Grammar, b: Grammar, s: string, i: nat, c: Context, k: nat)
    requires i <= |s|
    ensures var ra := Code(a, s, i, c, k);
      Code(Seq(a, b), s, i, c, k) ==
        if !ra.Ended? || !ra.r.ok then ra
        else
          var rb := Code(b, s, ra.r.pos, ra.r.c, k);
          if rb.Ended? && !rb.r.ok then Ended(FailFrom(i, c, rb.r)) else rb
  {
    hide CodeCounted, Eval, Rule;
  }

  lemma AltStep(a: Grammar, b: Grammar, s: string, i: nat, c: Context, k: nat)
    requires i <= |s|
    ensures var ra := Code(a, s, i, c, k);
      Code(Alt(a, b), s, i, c, k) == if !ra.Ended? || ra.r.ok then ra else Code(b, s, i, ra.r.c, k)
  {
    hide CodeCounted, Eval, Rule;
  }

  lemma ManyStep(a: Grammar, s: string, i: nat, c: Context, k: nat)
    requires i <= |s|
    ensures var ra := Code(a, s, i, c, k);
      Code(Many(a), s, i, c, k) ==
        if !ra.Ended? then ra
        else if !ra.r.ok then Ended(Outcome(true, i, ra.r.c))
        else if k == 0 then Unfinished
        else Code(Many(a), s, ra.r.pos, ra.r.c, k - 1)
  {
    hide CodeCounted, Eval, Rule;
  }

  lemma QuietStep(a: Grammar, s: string, i: nat, c: Context, k: nat)
    requires i <= |s|
    ensures var ra := Code(a, s, i, c.(append := false), k);
      Code(Quiet(a), s, i, c, k) ==
        if !ra.Ended? then ra
        else if ra.r.ok then Ended(ra.r.(c := ra.r.c.(append := c.append)))
        else Ended(FailFrom(i, c, ra.r))
  {
    hide CodeCounted, Eval, Rule;
  }

  lemma NestedStep(a: Grammar, s: string, i: nat, c: Context, k: nat)
    requires i <= |s|
    ensures var ra := Code(a, s, i, c.(nest := 0), k);
      Code(Nested(a), s, i, c, k) ==
        if !ra.Ended? then ra
        else if ra.r.ok then Ended(ra.r.(c := ra.r.c.(nest := c.nest)))
        else Ended(FailFrom(i, c, ra.r))
  {
    hide CodeCounted, Eval, Rule;
  }

  lemma OptStep(a: Grammar, s: string, i: nat, c: Context, k: nat)
    requires i <= |s|
    ensures var ra := Code(a, s, i, c, k);
      Code(Opt(a), s, i, c, k) == if ra.Ended? then Ended(ra.r.(ok := true)) else ra
  {
    hide CodeCounted, Eval, Rule;
  }

  lemma LeafStep(g: Grammar, s: string, i: nat, c: Context, k: nat)
    requires i <= |s| && IsLeaf(g)
    ensures Code(g, s, i, c, k) == if g == Counted then CodeCounted(s, i, c) else Ended(Eval(g, s, i, c))
  {
    hide CodeCounted, Eval, Rule;
  }

  lemma RuleStep(n: Nonterminal, s: string, i: nat, c: Context, k: nat)
    requires i <= |s|
    ensures Code(NT(n), s, i, c, k) == if k == 0 then Unfinished else Code(Rule(n), s, i, c, k - 1)
  {
    hide CodeCounted, Eval, Rule;
  }

  /** What is repeated must consume text. */
  predicate LoopsConsume(g: Grammar) {
    match g
    case Seq(a, b) => LoopsConsume(a) && LoopsConsume(b)
    case Alt(a, b) => LoopsConsume(a) && LoopsConsume(b)
    case Opt(a) => LoopsConsume(a)
    case Many(a) => LoopsConsume(a) && Consuming(a)
    case Quiet(a) => LoopsConsume(a)
    case Nested(a) => LoopsConsume(a)
    case _ => true
  }

  lemma LoopRules(n: Nonterminal)
    ensures LoopsConsume(Rule(n))
  {
    hide LoopsConsume, Rule;
    if Rank(n) > 1 {
      HighLoops(n);
    } else if StartsType(n) || IsLexical(n) {
      LowLoops(n);
    } else {
      OtherLoops(n);
    }
  }

  lemma HighLoops(n: Nonterminal)
    requires Rank(n) > 1
    ensures LoopsConsume(Rule(n))
  {
    hide LoopsConsume, Consuming, Digits, HexDigits, SeqIdDigits, QualifiedType, PlainType, OperatorExpression,
      ScopedExpression, AbiSpecialName, GnuSpecialName, Component;
    LoopSteps();
    LoopParts();
  }

  lemma LowLoops(n: Nonterminal)
    requires StartsType(n) || IsLexical(n)
    ensures LoopsConsume(Rule(n))
  {
    hide LoopsConsume, Consuming, Digits, HexDigits, SeqIdDigits;
    LoopSteps();
  }

  lemma OtherLoops(n: Nonterminal)
    requires Rank(n) == 1 && !StartsType(n) && !IsLexical(n)
    ensures LoopsConsume(Rule(n))
  {
    hide LoopsConsume, Consuming, Digits, HexDigits, SeqIdDigits, QualifiedType, PlainType, OperatorExpression,
      ScopedExpression, AbiSpecialName, GnuSpecialName;
    LoopSteps();
    LoopParts();
  }

  lemma LoopParts()
    ensures LoopsConsume(QualifiedType()) && LoopsConsume(PlainType())
    ensures LoopsConsume(OperatorExpression()) && LoopsConsume(ScopedExpression())
    ensures LoopsConsume(AbiSpecialName()) && LoopsConsume(GnuSpecialName())
    ensures LoopsConsume(Component()) && LoopsConsume(Many(Component()))
  {
    hide LoopsConsume, Consuming, Component;
    LoopSteps();
    ComponentLoops();
  }

  lemma ComponentLoops()
    ensures LoopsConsume(Component()) && LoopsConsume(Many(Component()))
  {
  }

  lemma LoopSteps()
    ensures forall a, b {:trigger LoopsConsume(Seq(a, b))} ::
      LoopsConsume(Seq(a, b)) == (LoopsConsume(a) && LoopsConsume(b))
    ensures forall a, b {:trigger LoopsConsume(Alt(a, b))} ::
      LoopsConsume(Alt(a, b)) == (LoopsConsume(a) && LoopsConsume(b))
    ensures forall a {:trigger LoopsConsume(Opt(a))} :: LoopsConsume(Opt(a)) == LoopsConsume(a)
    ensures forall a {:trigger LoopsConsume(Quiet(a))} :: LoopsConsume(Quiet(a)) == LoopsConsume(a)
    ensures forall a {:trigger LoopsConsume(Nested(a))} :: LoopsConsume(Nested(a)) == LoopsConsume(a)
    ensures forall n {:trigger LoopsConsume(NT(n))} :: LoopsConsume(NT(n))
    ensures forall n {:trigger LoopsConsume(Many(NT(n)))} :: n != Prefix ==> LoopsConsume(Many(NT(n)))
    ensures forall cs {:trigger LoopsConsume(Many(Class(cs)))} :: LoopsConsume(Many(Class(cs)))
    ensures forall t {:trigger LoopsConsume(Tok(t))} :: LoopsConsume(Tok(t))
    ensures forall cs {:trigger LoopsConsume(Class(cs))} :: LoopsConsume(Class(cs))
    ensures forall t {:trigger LoopsConsume(Emit(t))} :: LoopsConsume(Emit(t))
    ensures forall t {:trigger LoopsConsume(Abbrev(t))} :: LoopsConsume(Abbrev(t))
    ensures LoopsConsume(Counted) && LoopsConsume(EmitPrev)
    ensures LoopsConsume(Separator) && LoopsConsume(Deeper)
  {
  }

  /** More steps change nothing once a run is over. */
  lemma {:induction false} MoreSteps(g: Grammar, s: string, i: nat, c: Context, k: nat, k': nat)
    requires i <= |s| && k <= k' && !Code(g, s, i, c, k).Unfinished?
    ensures Code(g, s, i, c, k') == Code(g, s, i, c, k)
    decreases k, g
  {
    hide CodeCounted, Eval, Rule;
    match g
    case Seq(a, b) =>
      MoreSteps(a, s, i, c, k, k');
      var ra := Code(a, s, i, c, k);
      if ra.Ended? && ra.r.ok { MoreSteps(b, s, ra.r.pos, ra.r.c, k, k'); }
    case Alt(a, b) =>
      MoreSteps(a, s, i, c, k, k');
      var ra := Code(a, s, i, c, k);
      if ra.Ended? && !ra.r.ok { MoreSteps(b, s, i, ra.r.c, k, k'); }
    case Opt(a) => MoreSteps(a, s, i, c, k, k');
    case Many(a) =>
      MoreSteps(a, s, i, c, k, k');
      var ra := Code(a, s, i, c, k);
      if ra.Ended? && ra.r.ok { MoreSteps(g, s, ra.r.pos, ra.r.c, k - 1, k' - 1); }
    case NT(n) => MoreSteps(Rule(n), s, i, c, k - 1, k' - 1);
    case Quiet(a) => MoreSteps(a, s, i, c.(append := false), k, k');
    case Nested(a) => MoreSteps(a, s, i, c.(nest := 0), k, k');
    case _ =>
  }

  lemma CountedAgrees(s: string, i: nat, c: Context)
    requires i <= |s|
    ensures var run := CodeCounted(s, i, c);
      if EvalCounted(s, i, c).c.rewound then run.Astray? || (run.Ended? && run.r.c.rewound)
      else run == Ended(EvalCounted(s, i, c))
  {
    hide Print, DigitsStart, DigitsEnd, NumberAt, IdentifierText, Grew;
    var d, length := DigitsEnd(s, i), NumberAt(s, i);
    if 0 <= length && d + length <= |s| { PrintGrows(c, IdentifierText(s[d..d + length])); }
  }

  lemma RewoundStays(g: Grammar, s: string, i: nat, c: Context)
    requires i <= |s| && c.rewound
    ensures Eval(g, s, i, c).c.rewound
  {
    hide Eval;
    OutputGrows(g, s, i, c);
  }

  /** In so many steps, the code does what the grammar says. */
  ghost predicate Agrees(g: Grammar, s: string, i: nat, c: Context, n: nat) {
    i <= |s| && Code(g, s, i, c, n) == Ended(Eval(g, s, i, c))
  }

  lemma SeqAgrees(a: Grammar, b: Grammar, s: string, i: nat, c: Context, n: nat, m: nat)
    requires Agrees(a, s, i, c, n)
    requires var ra := Eval(a, s, i, c); ra.ok ==> Agrees(b, s, ra.pos, ra.c, m)
    ensures Agrees(Seq(a, b), s, i, c, n + m)
  {
    hide Eval, Code;
    var ra := Eval(a, s, i, c);
    Unfold2(a, b, s, i, c);
    SeqStep(a, b, s, i, c, n + m);
    MoreSteps(a, s, i, c, n, n + m);
    if ra.ok { MoreSteps(b, s, ra.pos, ra.c, m, n + m); }
  }

  lemma AltAgrees(a: Grammar, b: Grammar, s: string, i: nat, c: Context, n: nat, m: nat)
    requires Agrees(a, s, i, c, n)
    requires var ra := Eval(a, s, i, c); !ra.ok ==> Agrees(b, s, i, ra.c, m)
    ensures Agrees(Alt(a, b), s, i, c, n + m)
  {
    hide Eval, Code;
    var ra := Eval(a, s, i, c);
    Choose(a, b, s, i, c);
    AltStep(a, b, s, i, c, n + m);
    MoreSteps(a, s, i, c, n, n + m);
    if !ra.ok { MoreSteps(b, s, i, ra.c, m, n + m); }
  }

  lemma ManyAgrees(a: Grammar, s: string, i: nat, c: Context, n: nat, m: nat)
    requires Agrees(a, s, i, c, n) && Consuming(a)
    requires var ra := Eval(a, s, i, c); ra.ok ==> Agrees(Many(a), s, ra.pos, ra.c, m)
    ensures Agrees(Many(a), s, i, c, n + m + 1)
  {
    hide Eval, Consuming, Code;
    var ra := Eval(a, s, i, c);
    UnfoldMany(a, s, i, c);
    ManyStep(a, s, i, c, n + m + 1);
    MoreSteps(a, s, i, c, n, n + m + 1);
    if ra.ok { MoreSteps(Many(a), s, ra.pos, ra.c, m, n + m); }
  }

  lemma ScopeAgrees(a: Grammar, s: string, i: nat, c: Context, n: nat)
    requires i <= |s|
    ensures Agrees(a, s, i, c, n) ==> Agrees(Opt(a), s, i, c, n)
    ensures Agrees(a, s, i, c.(append := false), n) ==> Agrees(Quiet(a), s, i, c, n)
    ensures Agrees(a, s, i, c.(nest := 0), n) ==> Agrees(Nested(a), s, i, c, n)
  {
    hide Eval, Rule, CodeCounted;
    UnfoldOpt(a, s, i, c);
    UnfoldQuiet(a, s, i, c);
    UnfoldNested(a, s, i, c);
  }

  lemma RuleAgrees(x: Nonterminal, s: string, i: nat, c: Context, n: nat)
    requires Agrees(Rule(x), s, i, c, n)
    ensures Agrees(NT(x), s, i, c, n + 1)
  {
    hide Eval, Rule, Code;
    Unfold(x, s, i, c);
    RuleStep(x, s, i, c, n + 1);
  }

  lemma LeafAgrees(g: Grammar, s: string, i: nat, c: Context)
    requires i <= |s| && IsLeaf(g) && !Eval(g, s, i, c).c.rewound
    ensures Agrees(g, s, i, c, 0)
  {
    hide Eval, EvalCounted, CodeCounted;
    if g == Counted {
      EvalLeaf(s, i, c);
      CountedAgrees(s, i, c);
    }
  }

  // A parse that met no such length met none in its parts.

  lemma SeqKeeps(a: Grammar, b: Grammar, s: string, i: nat, c: Context)
    requires i <= |s| && !Eval(Seq(a, b), s, i, c).c.rewound
    ensures var ra := Eval(a, s, i, c); !ra.c.rewound && (ra.ok ==> !Eval(b, s, ra.pos, ra.c).c.rewound)
  {
    hide Eval;
    var ra := Eval(a, s, i, c);
    Unfold2(a, b, s, i, c);
    if ra.c.rewound { RewoundStays(b, s, ra.pos, ra.c); }
  }

  lemma AltKeeps(a: Grammar, b: Grammar, s: string, i: nat, c: Context)
    requires i <= |s| && !Eval(Alt(a, b), s, i, c).c.rewound
    ensures var ra := Eval(a, s, i, c); !ra.c.rewound && (!ra.ok ==> !Eval(b, s, i, ra.c).c.rewound)
  {
    hide Eval;
    var ra := Eval(a, s, i, c);
    Choose(a, b, s, i, c);
    if ra.c.rewound { RewoundStays(b, s, i, ra.c); }
  }

  lemma ManyKeeps(a: Grammar, s: string, i: nat, c: Context)
    requires i <= |s| && Consuming(a) && !Eval(Many(a), s, i, c).c.rewound
    ensures var ra := Eval(a, s, i, c); !ra.c.rewound && (ra.ok ==> !Eval(Many(a), s, ra.pos, ra.c).c.rewound)
  {
    hide Eval, Consuming;
    var ra := Eval(a, s, i, c);
    UnfoldMany(a, s, i, c);
    if ra.c.rewound { RewoundStays(Many(a), s, ra.pos, ra.c); }
  }

  lemma ScopeKeeps(a: Grammar, s: string, i: nat, c: Context)
    requires i <= |s|
    ensures Eval(Opt(a), s, i, c).c.rewound == Eval(a, s, i, c).c.rewound
    ensures Eval(Quiet(a), s, i, c).c.rewound == Eval(a, s, i, c.(append := false)).c.rewound
    ensures Eval(Nested(a), s, i, c).c.rewound == Eval(a, s, i, c.(nest := 0)).c.rewound
  {
    hide Eval;
    UnfoldOpt(a, s, i, c);
    UnfoldQuiet(a, s, i, c);
    UnfoldNested(a, s, i, c);
  }

  /** Where no length below -1 is met, the code does what the grammar says, in finitely many steps. */
  lemma {:induction false} CodeFollowsGrammar(g: Grammar, s: string, i: nat, c: Context) returns (n: nat)
    requires i <= |s| && LoopsConsume(g) && !Eval(g, s, i, c).c.rewound
    ensures Agrees(g, s, i, c, n)
    decreases |s| - i, Level(g), g
  {
    hide Eval, Rule, Rank, Agrees;
    var ra, m: nat := Eval(g, s, i, c), 0;
    match g
    case Seq(a, b) =>
      SeqKeeps(a, b, s, i, c);
      n := CodeFollowsGrammar(a, s, i, c);
      ra := Eval(a, s, i, c);
      if ra.ok { m := CodeFollowsGrammar(b, s, ra.pos, ra.c); }
      SeqAgrees(a, b, s, i, c, n, m);
      n := n + m;
    case Alt(a, b) =>
      AltKeeps(a, b, s, i, c);
      n := CodeFollowsGrammar(a, s, i, c);
      ra := Eval(a, s, i, c);
      if !ra.ok { m := CodeFollowsGrammar(b, s, i, ra.c); }
      AltAgrees(a, b, s, i, c, n, m);
      n := n + m;
    case Many(a) =>
      ManyKeeps(a, s, i, c);
      n := CodeFollowsGrammar(a, s, i, c);
      ra := Eval(a, s, i, c);
      if ra.ok { m := CodeFollowsGrammar(g, s, ra.pos, ra.c); }
      ManyAgrees(a, s, i, c, n, m);
      n := n + m + 1;
    case Opt(a) =>
      ScopeKeeps(a, s, i, c);
      n := CodeFollowsGrammar(a, s, i, c);
      ScopeAgrees(a, s, i, c, n);
    case Quiet(a) =>
      ScopeKeeps(a, s, i, c);
      n := CodeFollowsGrammar(a, s, i, c.(append := false));
      ScopeAgrees(a, s, i, c, n);
    case Nested(a) =>
      ScopeKeeps(a, s, i, c);
      n := CodeFollowsGrammar(a, s, i, c.(nest := 0));
      ScopeAgrees(a, s, i, c, n);
    case NT(x) =>
      Unfold(x, s, i, c);
      NoLeftRecursion(x);
      LoopRules(x);
      n := CodeFollowsGrammar(Rule(x), s, i, c);
      RuleAgrees(x, s, i, c, n);
      n := n + 1;
    case _ =>
      LeafAgrees(g, s, i, c);
      n := 0;
  }

  // ---------------------------------------------------------------------------
  // The other direction

  lemma CountedFlag(s: string, i: nat, c: Context)
    requires i <= |s|
    ensures var run := CodeCounted(s, i, c); run.Ended? && c.rewound ==> run.r.c.rewound
  {
    hide EvalCounted;
    CountedAgrees(s, i, c);
    CountedGrows(s, i, c);
  }

  lemma {:induction false} CodeRewoundStays(g: Grammar, s: string, i: nat, c: Context, k: nat)
    requires i <= |s| && c.rewound
    ensures var run := Code(g, s, i, c, k); run.Ended? ==> run.r.c.rewound
    decreases k, g
  {
    hide CodeCounted, Eval, Rule;
    match g
    case Seq(a, b) =>
      CodeRewoundStays(a, s, i, c, k);
      var ra := Code(a, s, i, c, k);
      if ra.Ended? && ra.r.ok { CodeRewoundStays(b, s, ra.r.pos, ra.r.c, k); }
    case Alt(a, b) =>
      CodeRewoundStays(a, s, i, c, k);
      var ra := Code(a, s, i, c, k);
      if ra.Ended? && !ra.r.ok { CodeRewoundStays(b, s, i, ra.r.c, k); }
    case Opt(a) => CodeRewoundStays(a, s, i, c, k);
    case Many(a) =>
      CodeRewoundStays(a, s, i, c, k);
      var ra := Code(a, s, i, c, k);
      if ra.Ended? && ra.r.ok && k > 0 { CodeRewoundStays(g, s, ra.r.pos, ra.r.c, k - 1); }
    case NT(n) => if k > 0 { CodeRewoundStays(Rule(n), s, i, c, k - 1); }
    case Counted => CountedFlag(s, i, c);
    case Quiet(a) => CodeRewoundStays(a, s, i, c.(append := false), k);
    case Nested(a) => CodeRewoundStays(a, s, i, c.(nest := 0), k);
    case _ => RewoundStays(g, s, i, c);
  }

  // The parts of a run that ended without having met such a length.

  /** The run is over, and no length below -1 was met. */
  predicate Calm(run: Run) { run.Ended? && !run.r.c.rewound }

  lemma SeqCalm(a: Grammar, b: Grammar, s: string, i: nat, c: Context, k: nat)
    requires i <= |s| && Calm(Code(Seq(a, b), s, i, c, k))
    ensures var ra := Code(a, s, i, c, k);
      && Calm(ra) && (ra.r.ok ==> Calm(Code(b, s, ra.r.pos, ra.r.c, k)))
      && Code(Seq(a, b), s, i, c, k).r ==
           if !ra.r.ok then FailFrom(i, c, ra.r)
           else var rb := Code(b, s, ra.r.pos, ra.r.c, k).r; if !rb.ok then FailFrom(i, c, rb) else rb
  {
    hide Code;
    SeqStep(a, b, s, i, c, k);
    var ra := Code(a, s, i, c, k);
    if ra.r.ok && ra.r.c.rewound { CodeRewoundStays(b, s, ra.r.pos, ra.r.c, k); }
  }

  lemma AltCalm(a: Grammar, b: Grammar, s: string, i: nat, c: Context, k: nat)
    requires i <= |s| && Calm(Code(Alt(a, b), s, i, c, k))
    ensures var ra := Code(a, s, i, c, k);
      && Calm(ra) && (!ra.r.ok ==> Calm(Code(b, s, i, ra.r.c, k)))
      && Code(Alt(a, b), s, i, c, k) == if ra.r.ok then ra else Code(b, s, i, ra.r.c, k)
  {
    hide Code;
    AltStep(a, b, s, i, c, k);
    var ra := Code(a, s, i, c, k);
    if !ra.r.ok && ra.r.c.rewound { CodeRewoundStays(b, s, i, ra.r.c, k); }
  }

  lemma ManyCalm(a: Grammar, s: string, i: nat, c: Context, k: nat)
    requires i <= |s| && Calm(Code(Many(a), s, i, c, k))
    ensures var ra := Code(a, s, i, c, k);
      && Calm(ra) && (ra.r.ok ==> k > 0 && Calm(Code(Many(a), s, ra.r.pos, ra.r.c, k - 1)))
      && Code(Many(a), s, i, c, k).r ==
           if ra.r.ok then Code(Many(a), s, ra.r.pos, ra.r.c, k - 1).r else Outcome(true, i, ra.r.c)
  {
    hide Code;
    ManyStep(a, s, i, c, k);
    var ra := Code(a, s, i, c, k);
    if ra.r.ok && ra.r.c.rewound { CodeRewoundStays(Many(a), s, ra.r.pos, ra.r.c, k - 1); }
  }

  /** If the code comes to an end without having met such a length, its outcome is that of the grammar. */
  lemma {:induction false} GrammarFollowsCode(g: Grammar, s: string, i: nat, c: Context, k: nat)
    requires i <= |s| && LoopsConsume(g) && Calm(Code(g, s, i, c, k))
    ensures Code(g, s, i, c, k).r == Eval(g, s, i, c)
    decreases k, g
  {
    hide CodeCounted, Eval, Rule, Consuming;
    match g
    case Seq(a, b) =>
      SeqCalm(a, b, s, i, c, k);
      Unfold2(a, b, s, i, c);
      hide Code;
      var ra := Code(a, s, i, c, k);
      GrammarFollowsCode(a, s, i, c, k);
      if ra.r.ok { GrammarFollowsCode(b, s, ra.r.pos, ra.r.c, k); }
    case Alt(a, b) =>
      AltCalm(a, b, s, i, c, k);
      Choose(a, b, s, i, c);
      hide Code;
      var ra := Code(a, s, i, c, k);
      GrammarFollowsCode(a, s, i, c, k);
      if !ra.r.ok { GrammarFollowsCode(b, s, i, ra.r.c, k); }
    case Many(a) =>
      ManyCalm(a, s, i, c, k);
      UnfoldMany(a, s, i, c);
      hide Code;
      var ra := Code(a, s, i, c, k);
      GrammarFollowsCode(a, s, i, c, k);
      if ra.r.ok { GrammarFollowsCode(g, s, ra.r.pos, ra.r.c, k - 1); }
    case Opt(a) =>
      GrammarFollowsCode(a, s, i, c, k);
      UnfoldOpt(a, s, i, c);
    case Quiet(a) =>
      GrammarFollowsCode(a, s, i, c.(append := false), k);
      UnfoldQuiet(a, s, i, c);
    case Nested(a) =>
      GrammarFollowsCode(a, s, i, c.(nest := 0), k);
      UnfoldNested(a, s, i, c);
    case NT(n) =>
      LoopRules(n);
      GrammarFollowsCode(Rule(n), s, i, c, k - 1);
      Unfold(n, s, i, c);
    case Counted =>
      EvalLeaf(s, i, c);
      CountedAgrees(s, i, c);
    case _ =>
  }

  // ---------------------------------------------------------------------------
  // Whole names

  /** ParseTopLevelMangledName, as it is. */
  ghost function CodeTopLevel(s: string, steps: nat): Run {
    var run := Code(NT(MangledName), s, 0, START, steps);
    if run.Ended? then Ended(WithSuffix(s, run.r)) else run
  }

  /** The code comes to an end without having met a length below -1 if and only if the reading by the grammar
      meets none, and the outcome is the same then. */
  lemma CodeAtTopLevel(s: string)
    ensures !TopLevel(s).c.rewound <==> exists n :: Calm(CodeTopLevel(s, n))
    ensures forall n :: Calm(CodeTopLevel(s, n)) ==> CodeTopLevel(s, n).r == TopLevel(s)
  {
    hide Eval, Code, WithSuffix;
    var r := Eval(NT(MangledName), s, 0, START);
    SuffixKeepsFlag(s, r);
    if !r.c.rewound {
      var n := CodeFollowsGrammar(NT(MangledName), s, 0, START);
      assert CodeTopLevel(s, n) == Ended(TopLevel(s));
    }
    forall n | Calm(CodeTopLevel(s, n))
      ensures CodeTopLevel(s, n).r == TopLevel(s)
    {
      SuffixKeepsFlag(s, Code(NT(MangledName), s, 0, START, n).r);
      GrammarFollowsCode(NT(MangledName), s, 0, START, n);
    }
  }

  lemma SuffixKeepsFlag(s: string, r: Outcome)
    requires r.pos <= |s|
    ensures WithSuffix(s, r).c.rewound == r.c.rewound
  {
    hide Print, IsCloneSuffix;
    EmptyCloneSuffix();
    PrintGrows(r.c, s[r.pos..]);
  }

  /** In a text in which no n starts a number of absolute value 2 or more, no such length is met: the code comes
      to an end, with the outcome of the grammar, and accepts only mangled names. */
  lemma WithoutNegativeLengths(s: string)
    requires NoNegativeLength(s)
    ensures !TopLevel(s).c.rewound
    ensures exists n :: CodeTopLevel(s, n) == Ended(TopLevel(s))
    ensures TopLevel(s).ok ==> IsMangledName(s)
  {
    hide Eval, Code, WithSuffix, IsMangledName;
    SuffixKeepsFlag(s, Eval(NT(MangledName), s, 0, START));
    NeverRewinds(NT(MangledName), s, 0, START);
    CodeAtTopLevel(s);
    if TopLevel(s).ok { AcceptedNamesAreMangled(s); }
  }
}

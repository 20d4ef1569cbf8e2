/** The declarative reading of the demangler's grammar, and what relates it to the ordered one. */
module DemangleTheory {
  import opened DemangleGrammar

  // ---------------------------------------------------------------------------
  // The declarative reading

  predicate AllIn(w: string, cs: string) {
    forall k :: 0 <= k < |w| ==> w[k] in cs
  }

  /** w is digits (after an n when d is 1) followed by exactly as many characters as the number says. */
  predicate CountsItself(w: string, d: nat, k: nat) {
    && d <= 1 && d < k <= |w|
    && (d == 1 ==> w[0] == 'n')
    && AllIn(w[d..k], Digits())
    && |w| - k == if d == 0 then Decimal(w[d..k]) else -(Decimal(w[d..k]) as int)
  }

  /** w is in the language of g, read as a context-free grammar. */
  least predicate Derives(g: Grammar, w: string) {
    match g
    case Tok(t) => w == t
    case Class(cs) => |w| == 1 && w[0] in cs
    case Seq(a, b) => exists k | 0 <= k <= |w| :: Derives(a, w[..k]) && Derives(b, w[k..])
    case Alt(a, b) => Derives(a, w) || Derives(b, w)
    case Opt(a) => w == "" || Derives(a, w)
    case Many(a) => w == "" || exists k | 0 <= k <= |w| :: Derives(a, w[..k]) && Derives(g, w[k..])
    case NT(n) => Derives(Rule(n), w)
    case Counted => exists d, k :: CountsItself(w, d, k)
    case Abbrev(t) => exists q | 0 <= q < |Rows(t)| :: |w| == Width(t) && Stands(Rows(t)[q], Width(t), w, 0)
    case Quiet(a) => Derives(a, w)
    case Nested(a) => Derives(a, w)
    case Emit(_) => w == ""
    case EmitPrev => w == ""
    case Separator => w == ""
    case Deeper => w == ""
  }

  lemma DerivesSeq(a: Grammar, b: Grammar, s: string, i: nat, j: nat, k: nat)
    requires i <= j <= k <= |s|
    requires Derives(a, s[i..j]) && Derives(b, s[j..k])
    ensures Derives(Seq(a, b), s[i..k])
  {
    assert s[i..k][..j - i] == s[i..j] && s[i..k][j - i..] == s[j..k];
    assert 0 <= j - i <= |s[i..k]|;
  }

  lemma DerivesMany(a: Grammar, s: string, i: nat, j: nat, k: nat)
    requires i <= j <= k <= |s|
    requires Derives(a, s[i..j]) && Derives(Many(a), s[j..k])
    ensures Derives(Many(a), s[i..k])
  {
    assert s[i..k][..j - i] == s[i..j] && s[i..k][j - i..] == s[j..k];
    assert 0 <= j - i <= |s[i..k]|;
  }

  lemma CountsItsText(s: string, i: nat, d: nat, k: nat, j: nat)
    requires i <= d < k <= j <= |s| && d <= i + 1 && (d == i + 1 ==> s[i] == 'n')
    requires AllIn(s[d..k], Digits())
    requires j - k == if d == i then Decimal(s[d..k]) else -(Decimal(s[d..k]) as int)
    ensures Derives(Counted, s[i..j])
  {
    hide Decimal, Digits;
    var w := s[i..j];
    SliceOfSlice(s, i, j, d - i, k - i);
    assert CountsItself(w, d - i, k - i);
  }

  lemma SliceOfSlice(s: string, i: nat, j: nat, a: nat, b: nat)
    requires i <= j <= |s| && a <= b <= j - i
    ensures s[i..j][a..b] == s[i + a..i + b]
  {
    var l, r := s[i..j][a..b], s[i + a..i + b];
    assert |l| == |r| && forall k :: 0 <= k < |l| ==> l[k] == r[k];
  }

  lemma DerivesCounted(s: string, i: nat, c: Context)
    requires i <= |s|
    ensures EvalCounted(s, i, c).ok ==> Derives(Counted, s[i..EvalCounted(s, i, c).pos])
  {
    hide Print, Decimal;
    var r := EvalCounted(s, i, c);
    if r.ok {
      CountsItsText(s, i, DigitsStart(s, i), DigitsEnd(s, i), r.pos);
    }
  }

  lemma DerivesAbbrev(t: Table, s: string, i: nat, c: Context)
    requires i <= |s|
    ensures EvalAbbrev(t, s, i, c).ok ==> Derives(Abbrev(t), s[i..EvalAbbrev(t, s, i, c).pos])
  {
    hide Rows;
    var r := EvalAbbrev(t, s, i, c);
    if r.ok {
      var q := FindRow(Rows(t), Width(t), 0, s, i);
      assert Stands(Rows(t)[q], Width(t), s[i..r.pos], 0);
    }
  }

  /** Every text the ordered reading accepts is in the language of the grammar. */
  lemma {:induction false} Sound(g: Grammar, s: string, i: nat, c: Context)
    requires i <= |s|
    ensures Eval(g, s, i, c).ok ==> Derives(g, s[i..Eval(g, s, i, c).pos])
    decreases |s| - i, Level(g), g
  {
    hide EvalAbbrev, EvalCounted, Rule, Rank, Print, Rows;
    var r := Eval(g, s, i, c);
    match g
    case Seq(a, b) =>
      var ra := Eval(a, s, i, c);
      Sound(a, s, i, c);
      if ra.ok {
        Sound(b, s, ra.pos, ra.c);
        if r.ok { DerivesSeq(a, b, s, i, ra.pos, r.pos); }
      }
    case Alt(a, b) =>
      Sound(a, s, i, c);
      Sound(b, s, i, Eval(a, s, i, c).c);
    case Opt(a) => Sound(a, s, i, c);
    case Many(a) =>
      var ra := Eval(a, s, i, c);
      Sound(a, s, i, c);
      if ra.ok && i < ra.pos {
        Sound(g, s, ra.pos, ra.c);
        DerivesMany(a, s, i, ra.pos, r.pos);
      }
    case NT(n) =>
      NoLeftRecursion(n);
      Sound(Rule(n), s, i, c);
    case Counted => DerivesCounted(s, i, c);
    case Abbrev(t) => DerivesAbbrev(t, s, i, c);
    case Quiet(a) => Sound(a, s, i, c.(append := false));
    case Nested(a) => Sound(a, s, i, c.(nest := 0));
    case _ =>
  }

  // ---------------------------------------------------------------------------
  // Printing and recognition are independent

  /** Grammars without parts. */
  predicate IsLeaf(g: Grammar) {
    !(g.Seq? || g.Alt? || g.Opt? || g.Many? || g.NT? || g.Quiet? || g.Nested?)
  }

  lemma LeafIgnoresOutput(g: Grammar, s: string, i: nat, c: Context, c': Context)
    requires i <= |s| && c.rewound == c'.rewound && IsLeaf(g)
    ensures Eval(g, s, i, c).ok == Eval(g, s, i, c').ok
    ensures Eval(g, s, i, c).pos == Eval(g, s, i, c').pos
    ensures Eval(g, s, i, c).c.rewound == Eval(g, s, i, c').c.rewound
  {
    hide EvalAbbrev, EvalCounted, Rule, Rank, Print;
    match g
    case Counted => CountedIgnoresOutput(s, i, c, c');
    case Abbrev(t) =>
      AbbrevEffect(t, s, i, c);
      AbbrevEffect(t, s, i, c');
    case Emit(t) => PrintsAlike(c, t, c', t);
    case EmitPrev => PrintsAlike(c, c.prev, c', c'.prev);
    case Separator => PrintsAlike(c, "::", c', "::");
    case _ =>
  }

  /** Acceptance and the final position depend on the text alone. */
  lemma {:induction false} AcceptanceIgnoresOutput(g: Grammar, s: string, i: nat, c: Context, c': Context)
    requires i <= |s| && c.rewound == c'.rewound
    ensures Eval(g, s, i, c).ok == Eval(g, s, i, c').ok
    ensures Eval(g, s, i, c).pos == Eval(g, s, i, c').pos
    ensures Eval(g, s, i, c).c.rewound == Eval(g, s, i, c').c.rewound
    decreases |s| - i, Level(g), g
  {
    hide Eval, Rule, Rank;
    match g
    case Seq(a, b) =>
      var ra := Eval(a, s, i, c);
      AcceptanceIgnoresOutput(a, s, i, c, c');
      if ra.ok { AcceptanceIgnoresOutput(b, s, ra.pos, ra.c, Eval(a, s, i, c').c); }
      Unfold2(a, b, s, i, c);
      Unfold2(a, b, s, i, c');
    case Alt(a, b) =>
      AcceptanceIgnoresOutput(a, s, i, c, c');
      AcceptanceIgnoresOutput(b, s, i, Eval(a, s, i, c).c, Eval(a, s, i, c').c);
      Choose(a, b, s, i, c);
      Choose(a, b, s, i, c');
    case Opt(a) =>
      AcceptanceIgnoresOutput(a, s, i, c, c');
      UnfoldOpt(a, s, i, c);
      UnfoldOpt(a, s, i, c');
    case Many(a) =>
      var ra := Eval(a, s, i, c);
      AcceptanceIgnoresOutput(a, s, i, c, c');
      if ra.ok && i < ra.pos { AcceptanceIgnoresOutput(g, s, ra.pos, ra.c, Eval(a, s, i, c').c); }
      UnfoldLoop(a, s, i, c);
      UnfoldLoop(a, s, i, c');
    case NT(n) =>
      NoLeftRecursion(n);
      AcceptanceIgnoresOutput(Rule(n), s, i, c, c');
      Unfold(n, s, i, c);
      Unfold(n, s, i, c');
    case Quiet(a) =>
      AcceptanceIgnoresOutput(a, s, i, c.(append := false), c'.(append := false));
      UnfoldQuiet(a, s, i, c);
      UnfoldQuiet(a, s, i, c');
    case Nested(a) =>
      AcceptanceIgnoresOutput(a, s, i, c.(nest := 0), c'.(nest := 0));
      UnfoldNested(a, s, i, c);
      UnfoldNested(a, s, i, c');
    case _ => LeafIgnoresOutput(g, s, i, c, c');
  }

  lemma PrintsAlike(c: Context, text: string, c': Context, text': string)
    ensures Print(c, text).rewound == c.rewound && Print(c', text').rewound == c'.rewound
  {
  }

  lemma CountedIgnoresOutput(s: string, i: nat, c: Context, c': Context)
    requires i <= |s| && c.rewound == c'.rewound
    ensures var r, r' := EvalCounted(s, i, c), EvalCounted(s, i, c');
      r.ok == r'.ok && r.pos == r'.pos && r.c.rewound == r'.c.rewound
  {
    hide RunEnd, Decimal;
  }

  lemma LeafPrintsNothing(g: Grammar, s: string, i: nat, c: Context)
    requires i <= |s| && IsLeaf(g) && !c.append
    ensures var c' := Eval(g, s, i, c).c;
      c'.out == c.out && c'.prev == c.prev && c'.peak == c.peak && !c'.append
  {
    hide EvalAbbrev, Rule, Rank;
    match g
    case Abbrev(t) => AbbrevEffect(t, s, i, c);
    case _ =>
  }

  /** With the append flag off, parsing prints nothing and remembers no name. */
  lemma {:induction false} QuietPrintsNothing(g: Grammar, s: string, i: nat, c: Context)
    requires i <= |s| && !c.append
    ensures var c' := Eval(g, s, i, c).c;
      c'.out == c.out && c'.prev == c.prev && c'.peak == c.peak && !c'.append
    decreases |s| - i, Level(g), g
  {
    hide EvalAbbrev, EvalCounted, Print, Rule, Rank;
    match g
    case Seq(a, b) =>
      var ra := Eval(a, s, i, c);
      QuietPrintsNothing(a, s, i, c);
      if ra.ok { QuietPrintsNothing(b, s, ra.pos, ra.c); }
    case Alt(a, b) =>
      QuietPrintsNothing(a, s, i, c);
      QuietPrintsNothing(b, s, i, Eval(a, s, i, c).c);
    case Opt(a) => QuietPrintsNothing(a, s, i, c);
    case Many(a) =>
      var ra := Eval(a, s, i, c);
      QuietPrintsNothing(a, s, i, c);
      if ra.ok && i < ra.pos { QuietPrintsNothing(g, s, ra.pos, ra.c); }
    case NT(n) =>
      NoLeftRecursion(n);
      QuietPrintsNothing(Rule(n), s, i, c);
    case Quiet(a) => QuietPrintsNothing(a, s, i, c.(append := false));
    case Nested(a) => QuietPrintsNothing(a, s, i, c.(nest := 0));
    case _ => LeafPrintsNothing(g, s, i, c);
  }

  /** The append flag is as it was once a parse is over. */
  lemma {:induction false} AppendKept(g: Grammar, s: string, i: nat, c: Context)
    requires i <= |s|
    ensures Eval(g, s, i, c).c.append == c.append
    decreases |s| - i, Level(g), g
  {
    hide EvalAbbrev, EvalCounted, Rule, Rank, Print;
    match g
    case Seq(a, b) =>
      var ra := Eval(a, s, i, c);
      AppendKept(a, s, i, c);
      if ra.ok { AppendKept(b, s, ra.pos, ra.c); }
    case Alt(a, b) =>
      AppendKept(a, s, i, c);
      AppendKept(b, s, i, Eval(a, s, i, c).c);
    case Opt(a) => AppendKept(a, s, i, c);
    case Many(a) =>
      var ra := Eval(a, s, i, c);
      AppendKept(a, s, i, c);
      if ra.ok && i < ra.pos { AppendKept(g, s, ra.pos, ra.c); }
    case NT(n) =>
      NoLeftRecursion(n);
      AppendKept(Rule(n), s, i, c);
    case Nested(a) => AppendKept(a, s, i, c.(nest := 0));
    case Quiet(_) =>
    case _ => LeafGrows(g, s, i, c);
  }

  /** c' is c with something more printed, or attempted. */
  predicate Grew(c: Context, c': Context) {
    && c.out <= c'.out && c.peak <= c'.peak
    && (|c.out| <= c.peak ==> |c'.out| <= c'.peak)
    && (c.rewound ==> c'.rewound)
  }

  lemma PrintGrows(c: Context, text: string)
    ensures Grew(c, Print(c, text)) && Print(c, text).append == c.append
    ensures Print(c, text).nest == c.nest && Print(c, text).rewound == c.rewound
    ensures !c.append ==> Print(c, text) == c
  {
  }

  /** What printing text does to the output and to the last identifier, wherever that stands. */
  lemma Printed(c: Context, text: string, p: nat)
    requires c.append && text != ""
    ensures var c' := Print(c, text);
      && c'.out == Spaced(c, text).out + text && |c'.out| <= c'.peak && c.out <= Spaced(c, text).out
      && c'.nest == c.nest && c'.append
      && if IsAlpha(text[0]) || text[0] == '_'
         then c'.prev == text && At(c'.out, |Spaced(c, text).out|, text)
         else c'.prev == c.prev && (At(c.out, p, c.prev) ==> At(c'.out, p, c.prev))
  {
    var c' := Print(c, text);
    if At(c.out, p, c.prev) {
      assert c'.out[p..p + |c.prev|] == c.out[p..p + |c.prev|];
    }
  }

  lemma AbbrevEffect(t: Table, s: string, i: nat, c: Context)
    requires i <= |s|
    ensures var r := EvalAbbrev(t, s, i, c);
      && r.ok == (FindRow(Rows(t), Width(t), 0, s, i) < |Rows(t)|)
      && r.pos == (if r.ok then i + Width(t) else i)
      && Grew(c, r.c) && r.c.rewound == c.rewound && r.c.append == c.append && (!c.append ==> r.c == c)
  {
    hide Rows, Print, Grew;
    GrewSteps();
    forall c0, text { PrintGrows(c0, text); }
  }

  lemma GrewSteps()
    ensures forall c :: Grew(c, c)
    ensures forall c, c', c'' :: Grew(c, c') && Grew(c', c'') ==> Grew(c, c'')
    ensures forall c, c' {:trigger Back(c, c')} :: Grew(c, c') ==> Grew(c, Back(c, c'))
    ensures forall c: Context :: Grew(c, c.(rewound := true))
    ensures forall c, c', c'' {:trigger Back(c, Back(c', c''))} :: Back(c, Back(c', c'')) == Back(c, c'')
    ensures forall c, c', c'' {:trigger Back(Back(c, c'), c'')} :: Back(Back(c, c'), c'') == Back(c, c'')
  {
  }

  lemma LeafGrows(g: Grammar, s: string, i: nat, c: Context)
    requires i <= |s| && IsLeaf(g)
    ensures Grew(c, Eval(g, s, i, c).c) && Eval(g, s, i, c).c.append == c.append
  {
    hide EvalAbbrev, EvalCounted, Rule, Rank, Print;
    match g
    case Counted => CountedGrows(s, i, c);
    case Abbrev(t) => AbbrevEffect(t, s, i, c);
    case Emit(t) => PrintGrows(c, t);
    case EmitPrev => PrintGrows(c, c.prev);
    case Separator => PrintGrows(c, "::");
    case _ =>
  }

  /** Output already printed when a parse starts is never lost by it, and `peak` bounds all output. */
  lemma {:induction false} OutputGrows(g: Grammar, s: string, i: nat, c: Context)
    requires i <= |s|
    ensures Grew(c, Eval(g, s, i, c).c)
    decreases |s| - i, Level(g), g
  {
    hide Eval, Rule, Rank, Grew, Back;
    GrewSteps();
    match g
    case Seq(a, b) =>
      var ra := Eval(a, s, i, c);
      OutputGrows(a, s, i, c);
      if ra.ok { OutputGrows(b, s, ra.pos, ra.c); }
      Unfold2(a, b, s, i, c);
    case Alt(a, b) =>
      OutputGrows(a, s, i, c);
      OutputGrows(b, s, i, Eval(a, s, i, c).c);
      Choose(a, b, s, i, c);
    case Opt(a) =>
      OutputGrows(a, s, i, c);
      UnfoldOpt(a, s, i, c);
    case Many(a) =>
      var ra := Eval(a, s, i, c);
      OutputGrows(a, s, i, c);
      if ra.ok && i < ra.pos { OutputGrows(g, s, ra.pos, ra.c); }
      UnfoldLoop(a, s, i, c);
    case NT(n) =>
      NoLeftRecursion(n);
      OutputGrows(Rule(n), s, i, c);
      Unfold(n, s, i, c);
    case Quiet(a) =>
      var ra := Eval(a, s, i, c.(append := false));
      OutputGrows(a, s, i, c.(append := false));
      UnfoldQuiet(a, s, i, c);
      QuietGrows(c, ra.c);
    case Nested(a) =>
      var ra := Eval(a, s, i, c.(nest := 0));
      OutputGrows(a, s, i, c.(nest := 0));
      UnfoldNested(a, s, i, c);
      NestedGrows(c, ra.c);
    case _ => LeafGrows(g, s, i, c);
  }

  lemma QuietGrows(c: Context, c': Context)
    requires Grew(c.(append := false), c')
    ensures Grew(c, c'.(append := c.append)) && Grew(c, Back(c, c'))
  {
  }

  lemma NestedGrows(c: Context, c': Context)
    requires Grew(c.(nest := 0), c')
    ensures Grew(c, c'.(nest := c.nest)) && Grew(c, Back(c, c'))
  {
  }

  lemma CountedGrows(s: string, i: nat, c: Context)
    requires i <= |s|
    ensures Grew(c, EvalCounted(s, i, c).c) && EvalCounted(s, i, c).c.append == c.append
  {
    hide Print;
    forall c0, text { PrintGrows(c0, text); }
  }

  // ---------------------------------------------------------------------------
  // Whole names

  /** w[..b] is a dot, letters up to a, a dot, and digits. */
  predicate ClonePart(w: string, a: nat, b: nat) {
    && 2 <= a && a + 2 <= b <= |w| && w[0] == '.' && w[a] == '.'
    && (forall k :: 1 <= k < a ==> IsAlpha(w[k]))
    && (forall k :: a < k < b ==> IsDigit(w[k]))
  }

  /** w is a sequence of such parts. */
  ghost predicate IsCloneSuffix(w: string)
    decreases |w|
  {
    w == "" || exists a: nat, b: nat :: ClonePart(w, a, b) && IsCloneSuffix(w[b..])
  }

  lemma EmptyCloneSuffix()
    ensures IsCloneSuffix("")
  {
  }

  const START := Context("", "", -1, true, 0, false)

  /** The whole demangler, given how it reads a mangled name: a clone suffix is dropped, a version suffix is
      kept, and any other is refused. */
  ghost function WithSuffix(s: string, r: Outcome): Outcome
    requires r.pos <= |s|
  {
    var rest := s[r.pos..];
    EmptyCloneSuffix();
    if !r.ok then r
    else if IsCloneSuffix(rest) then Outcome(true, |s|, r.c)
    else if rest[0] == '@' then Outcome(true, |s|, Print(r.c, rest))
    else Fail(0, r.c)
  }

  ghost function TopLevel(s: string): Outcome { WithSuffix(s, Eval(NT(MangledName), s, 0, START)) }

  /** A mangled name with nothing, a clone suffix or a version suffix behind it. */
  ghost predicate IsMangledName(s: string) {
    exists k | 0 <= k <= |s| ::
      Derives(NT(MangledName), s[..k]) && (IsCloneSuffix(s[k..]) || (k < |s| && s[k] == '@'))
  }

  lemma AcceptedNamesAreMangled(s: string)
    requires TopLevel(s).ok && !TopLevel(s).c.rewound
    ensures IsMangledName(s)
  {
    hide Eval, Derives, Print;
    var r := Eval(NT(MangledName), s, 0, START);
    Sound(NT(MangledName), s, 0, START);
    assert s[0..r.pos] == s[..r.pos];
  }

  lemma SuffixStart(w: string, k: nat)
    requires k <= |w| && IsCloneSuffix(w[k..])
    ensures k == |w| || w[k] == '.'
  {
    if k < |w| {
      assert w[k..][0] == w[k];
    }
  }

  /** There is one way to split a part off w: its letters end at the first other character, and its
      digits are all that follow (or what remains would not start with a dot). */
  lemma CloneSplit(w: string, a: nat, b: nat)
    requires ClonePart(w, a, b) && (b < |w| ==> !IsDigit(w[b]))
    ensures IsCloneSuffix(w) == IsCloneSuffix(w[b..])
  {
    forall a': nat, b': nat | ClonePart(w, a', b') && IsCloneSuffix(w[b'..])
      ensures b' == b
    {
      SuffixStart(w, b');
      hide IsCloneSuffix;
    }
  }

  lemma NoCloneStart(w: string)
    requires w != "" && (w[0] != '.' || |w| == 1 || !IsAlpha(w[1]))
    ensures !IsCloneSuffix(w)
  {
  }

  /** Letters that are not followed by a dot and a digit begin no part. */
  lemma NoClonePart(w: string, a: nat)
    requires 2 <= a <= |w| && forall k :: 1 <= k < a ==> IsAlpha(w[k])
    requires a + 1 >= |w| || w[a] != '.' || !IsDigit(w[a + 1])
    requires a < |w| ==> !IsAlpha(w[a])
    ensures !IsCloneSuffix(w)
  {
    forall a': nat, b': nat
      ensures !ClonePart(w, a', b')
    {
      if a + 1 < |w| { assert w[a] == w[a] && w[a + 1] == w[a + 1]; }
    }
  }

  // ---------------------------------------------------------------------------
  // Lengths below -1

  /** No n in s starts a number of absolute value 2 or more. */
  predicate NoNegativeLength(s: string) {
    forall i :: 0 <= i < |s| && s[i] == 'n' ==> NumberAt(s, i) >= -1
  }

  lemma LeafNeverRewinds(g: Grammar, s: string, i: nat, c: Context)
    requires i <= |s| && IsLeaf(g) && NoNegativeLength(s)
    ensures Eval(g, s, i, c).c.rewound == c.rewound
  {
    hide EvalAbbrev, Rule, Rank;
    match g
    case Counted => assert NumberAt(s, i) >= -1;
    case Abbrev(t) => AbbrevEffect(t, s, i, c);
    case _ =>
  }

  /** A length below -1 can only come from such a number. */
  lemma {:induction false} NeverRewinds(g: Grammar, s: string, i: nat, c: Context)
    requires i <= |s| && NoNegativeLength(s)
    ensures Eval(g, s, i, c).c.rewound == c.rewound
    decreases |s| - i, Level(g), g
  {
    hide EvalAbbrev, EvalCounted, Print, Rule, Rank, NoNegativeLength;
    match g
    case Seq(a, b) =>
      var ra := Eval(a, s, i, c);
      NeverRewinds(a, s, i, c);
      if ra.ok { NeverRewinds(b, s, ra.pos, ra.c); }
    case Alt(a, b) =>
      NeverRewinds(a, s, i, c);
      NeverRewinds(b, s, i, Eval(a, s, i, c).c);
    case Opt(a) => NeverRewinds(a, s, i, c);
    case Many(a) =>
      var ra := Eval(a, s, i, c);
      NeverRewinds(a, s, i, c);
      if ra.ok && i < ra.pos { NeverRewinds(g, s, ra.pos, ra.c); }
    case NT(n) =>
      NoLeftRecursion(n);
      NeverRewinds(Rule(n), s, i, c);
    case Quiet(a) => NeverRewinds(a, s, i, c.(append := false));
    case Nested(a) => NeverRewinds(a, s, i, c.(nest := 0));
    case _ => LeafNeverRewinds(g, s, i, c);
  }

  /** d digits without a leading zero denote at least d, and more than d when there are several. */
  lemma {:induction false} DecimalAtLeast(w: string)
    requires w != "" && AllIn(w, Digits()) && w[0] != '0'
    ensures Decimal(w) >= |w| && (|w| >= 2 ==> Decimal(w) > |w|)
  {
    var last := w[|w| - 1];
    assert last in Digits();
    if |w| > 1 {
      var u := w[..|w| - 1];
      assert AllIn(u, Digits()) by { forall k | 0 <= k < |u| ensures u[k] in Digits() { assert u[k] == w[k]; } }
      DecimalAtLeast(u);
    } else {
      assert w[..0] == "";
    }
  }

  /** Why such a length must be excluded: the source adds it to the cursor after the digits, and
      (for a number without leading zeros) so ends at or before the place where it began. */
  lemma RewindMakesNoProgress(s: string, i: nat)
    requires i <= |s| && NumberAt(s, i) < -1 && s[DigitsStart(s, i)] != '0'
    ensures DigitsEnd(s, i) + NumberAt(s, i) <= i
  {
    var w := s[DigitsStart(s, i)..DigitsEnd(s, i)];
    assert Decimal("") == 0;
    assert AllIn(w, Digits());
    DecimalAtLeast(w);
  }

  // ---------------------------------------------------------------------------
  // Runs of characters of one class

  lemma {:induction false} ManyClass(cs: string, s: string, i: nat, c: Context)
    requires i <= |s|
    ensures Eval(Many(Class(cs)), s, i, c) == Outcome(true, RunEnd(s, i, cs), c)
    decreases |s| - i
  {
    if i < |s| && s[i] in cs { ManyClass(cs, s, i + 1, c); }
  }

  lemma PlusClass(cs: string, s: string, i: nat, c: Context)
    requires i <= |s|
    ensures Eval(Plus(Class(cs)), s, i, c) ==
      if RunEnd(s, i, cs) > i then Outcome(true, RunEnd(s, i, cs), c) else Fail(i, c)
  {
    if i < |s| && s[i] in cs { ManyClass(cs, s, i + 1, c); }
  }

  lemma EmptyDecimal()
    ensures Decimal("") == 0
  {
  }

  lemma DecimalStep(s: string, i: nat, p: nat)
    requires i <= p < |s| && IsDigit(s[p])
    ensures Decimal(s[i..p + 1]) == Decimal(s[i..p]) * 10 + (s[p] as int - '0' as int)
  {
    assert s[i..p + 1][..p - i] == s[i..p];
  }

  lemma NumberOutcome(s: string, i: nat, c: Context)
    requires i <= |s|
    ensures Eval(NT(Number), s, i, c) ==
      if DigitsEnd(s, i) > DigitsStart(s, i) then Outcome(true, DigitsEnd(s, i), c) else Fail(i, c)
  {
    var d := DigitsStart(s, i);
    assert Eval(Opt(Tok("n")), s, i, c) == Outcome(true, d, c);
    PlusClass(Digits(), s, d, c);
    Unfold2(Opt(Tok("n")), Plus(Class(Digits())), s, i, c);
    assert Rule(Number) == Seq(Opt(Tok("n")), Plus(Class(Digits())));
    Unfold(Number, s, i, c);
  }

  lemma RunOutcome(n: Nonterminal, cs: string, s: string, i: nat, c: Context)
    requires i <= |s| && Rule(n) == Plus(Class(cs))
    ensures Eval(NT(n), s, i, c) ==
      if RunEnd(s, i, cs) > i then Outcome(true, RunEnd(s, i, cs), c) else Fail(i, c)
  {
    PlusClass(cs, s, i, c);
    Unfold(n, s, i, c);
  }

  // ---------------------------------------------------------------------------
  // The equations of `Eval`, in the form the parse methods use them

  lemma Unfold(n: Nonterminal, s: string, i: nat, c: Context)
    requires i <= |s|
    ensures Eval(NT(n), s, i, c) == Eval(Rule(n), s, i, c)
  {
    hide Rule, Rank;
  }

  function FailFrom(i: nat, c: Context, r: Outcome): Outcome { Fail(i, Back(c, r.c)) }

  lemma Unfold2(a: Grammar, b: Grammar, s: string, i: nat, c: Context)
    requires i <= |s|
    ensures var ra := Eval(a, s, i, c);
      var rb := Eval(b, s, ra.pos, ra.c);
      Eval(Seq(a, b), s, i, c) ==
        if !ra.ok then FailFrom(i, c, ra) else if !rb.ok then FailFrom(i, c, rb) else rb
  {
    hide EvalAbbrev, EvalCounted, Rule, Rank, Print;
  }

  lemma Unfold3(a: Grammar, b: Grammar, d: Grammar, s: string, i: nat, c: Context)
    requires i <= |s|
    ensures var ra := Eval(a, s, i, c);
      var rb := Eval(b, s, ra.pos, ra.c);
      var rd := Eval(d, s, rb.pos, rb.c);
      Eval(Seq3(a, b, d), s, i, c) ==
        if !ra.ok then FailFrom(i, c, ra) else if !rb.ok then FailFrom(i, c, rb)
        else if !rd.ok then FailFrom(i, c, rd) else rd
  {
    hide Eval;
    var ra := Eval(a, s, i, c);
    Unfold2(a, Seq(b, d), s, i, c);
    Unfold2(b, d, s, ra.pos, ra.c);
  }

  lemma Unfold4(a: Grammar, b: Grammar, d: Grammar, e: Grammar, s: string, i: nat, c: Context)
    requires i <= |s|
    ensures var ra := Eval(a, s, i, c);
      var rb := Eval(b, s, ra.pos, ra.c);
      var rd := Eval(d, s, rb.pos, rb.c);
      var re := Eval(e, s, rd.pos, rd.c);
      Eval(Seq4(a, b, d, e), s, i, c) ==
        if !ra.ok then FailFrom(i, c, ra) else if !rb.ok then FailFrom(i, c, rb)
        else if !rd.ok then FailFrom(i, c, rd) else if !re.ok then FailFrom(i, c, re) else re
  {
    hide Eval;
    var ra := Eval(a, s, i, c);
    Unfold2(a, Seq3(b, d, e), s, i, c);
    Unfold3(b, d, e, s, ra.pos, ra.c);
  }

  /** Try a, and b where a failed. */
  lemma Choose(a: Grammar, b: Grammar, s: string, i: nat, c: Context)
    requires i <= |s|
    ensures var ra := Eval(a, s, i, c);
      Eval(Alt(a, b), s, i, c) == if ra.ok then ra else Eval(b, s, i, ra.c)
  {
    hide EvalAbbrev, EvalCounted, Rule, Rank, Print;
  }

  lemma Choose3(a: Grammar, b: Grammar, d: Grammar, s: string, i: nat, c: Context)
    requires i <= |s|
    ensures var ra := Eval(a, s, i, c);
      var rb := Eval(b, s, i, ra.c);
      Eval(Alt3(a, b, d), s, i, c) == if ra.ok then ra else if rb.ok then rb else Eval(d, s, i, rb.c)
  {
    hide Eval;
    Choose(a, Alt(b, d), s, i, c);
    Choose(b, d, s, i, Eval(a, s, i, c).c);
  }

  lemma Choose4(a: Grammar, b: Grammar, d: Grammar, e: Grammar, s: string, i: nat, c: Context)
    requires i <= |s|
    ensures var ra := Eval(a, s, i, c);
      var rb := Eval(b, s, i, ra.c);
      var rd := Eval(d, s, i, rb.c);
      Eval(Alt4(a, b, d, e), s, i, c) ==
        if ra.ok then ra else if rb.ok then rb else if rd.ok then rd else Eval(e, s, i, rd.c)
  {
    hide Eval;
    Choose(a, Alt3(b, d, e), s, i, c);
    Choose3(b, d, e, s, i, Eval(a, s, i, c).c);
  }

  // The same for a nonterminal whose rule has the given shape.

  lemma Alternatives2(n: Nonterminal, a: Grammar, b: Grammar, s: string, i: nat, c: Context)
    requires i <= |s| && Rule(n) == Alt(a, b)
    ensures var ra := Eval(a, s, i, c);
      Eval(NT(n), s, i, c) == if ra.ok then ra else Eval(b, s, i, ra.c)
  {
    hide Eval, Rule;
    Unfold(n, s, i, c);
    Choose(a, b, s, i, c);
  }

  lemma Alternatives3(n: Nonterminal, a: Grammar, b: Grammar, d: Grammar, s: string, i: nat, c: Context)
    requires i <= |s| && Rule(n) == Alt3(a, b, d)
    ensures var ra := Eval(a, s, i, c);
      var rb := Eval(b, s, i, ra.c);
      Eval(NT(n), s, i, c) == if ra.ok then ra else if rb.ok then rb else Eval(d, s, i, rb.c)
  {
    hide Eval, Rule;
    Unfold(n, s, i, c);
    Choose3(a, b, d, s, i, c);
  }

  lemma Alternatives4(n: Nonterminal, a: Grammar, b: Grammar, d: Grammar, e: Grammar, s: string, i: nat, c: Context)
    requires i <= |s| && Rule(n) == Alt4(a, b, d, e)
    ensures var ra := Eval(a, s, i, c);
      var rb := Eval(b, s, i, ra.c);
      var rd := Eval(d, s, i, rb.c);
      Eval(NT(n), s, i, c) ==
        if ra.ok then ra else if rb.ok then rb else if rd.ok then rd else Eval(e, s, i, rd.c)
  {
    hide Eval, Rule;
    Unfold(n, s, i, c);
    Choose4(a, b, d, e, s, i, c);
  }

  lemma Sequence2(n: Nonterminal, a: Grammar, b: Grammar, s: string, i: nat, c: Context)
    requires i <= |s| && Rule(n) == Seq(a, b)
    ensures var ra := Eval(a, s, i, c);
      var rb := Eval(b, s, ra.pos, ra.c);
      Eval(NT(n), s, i, c) ==
        if !ra.ok then FailFrom(i, c, ra) else if !rb.ok then FailFrom(i, c, rb) else rb
  {
    hide Eval, Rule;
    Unfold(n, s, i, c);
    Unfold2(a, b, s, i, c);
  }

  lemma Sequence3(n: Nonterminal, a: Grammar, b: Grammar, d: Grammar, s: string, i: nat, c: Context)
    requires i <= |s| && Rule(n) == Seq3(a, b, d)
    ensures var ra := Eval(a, s, i, c);
      var rb := Eval(b, s, ra.pos, ra.c);
      var rd := Eval(d, s, rb.pos, rb.c);
      Eval(NT(n), s, i, c) ==
        if !ra.ok then FailFrom(i, c, ra) else if !rb.ok then FailFrom(i, c, rb)
        else if !rd.ok then FailFrom(i, c, rd) else rd
  {
    hide Eval, Rule;
    Unfold(n, s, i, c);
    Unfold3(a, b, d, s, i, c);
  }

  lemma Sequence4(n: Nonterminal, a: Grammar, b: Grammar, d: Grammar, e: Grammar, s: string, i: nat, c: Context)
    requires i <= |s| && Rule(n) == Seq4(a, b, d, e)
    ensures var ra := Eval(a, s, i, c);
      var rb := Eval(b, s, ra.pos, ra.c);
      var rd := Eval(d, s, rb.pos, rb.c);
      var re := Eval(e, s, rd.pos, rd.c);
      Eval(NT(n), s, i, c) ==
        if !ra.ok then FailFrom(i, c, ra) else if !rb.ok then FailFrom(i, c, rb)
        else if !rd.ok then FailFrom(i, c, rd) else if !re.ok then FailFrom(i, c, re) else re
  {
    hide Eval, Rule;
    Unfold(n, s, i, c);
    Unfold4(a, b, d, e, s, i, c);
  }

  // And for the remaining shapes.

  lemma UnfoldOpt(a: Grammar, s: string, i: nat, c: Context)
    requires i <= |s|
    ensures Eval(Opt(a), s, i, c) == Eval(a, s, i, c).(ok := true)
  {
    hide EvalAbbrev, EvalCounted, Rule, Rank, Print;
  }

  lemma UnfoldMany(a: Grammar, s: string, i: nat, c: Context)
    requires i <= |s| && Consuming(a)
    ensures var ra := Eval(a, s, i, c);
      Eval(Many(a), s, i, c) == if ra.ok then Eval(Many(a), s, ra.pos, ra.c) else Outcome(true, i, Back(c, ra.c))
  {
    hide EvalAbbrev, EvalCounted, Rule, Rank, Print;
  }

  lemma UnfoldLoop(a: Grammar, s: string, i: nat, c: Context)
    requires i <= |s|
    ensures var ra := Eval(a, s, i, c);
      Eval(Many(a), s, i, c) ==
        if ra.ok && i < ra.pos then Eval(Many(a), s, ra.pos, ra.c) else Outcome(true, i, Back(c, ra.c))
  {
    hide EvalAbbrev, EvalCounted, Rule, Rank, Print;
  }

  lemma UnfoldComponents(s: string, i: nat, c: Context)
    requires i <= |s|
    ensures Consuming(Component())
    ensures var ra := Eval(Component(), s, i, c);
      Eval(Many(Component()), s, i, c) ==
        if ra.ok then Eval(Many(Component()), s, ra.pos, ra.c) else Outcome(true, i, Back(c, ra.c))
  {
    hide Eval, Component, Consuming;
    ComponentConsumes();
    UnfoldMany(Component(), s, i, c);
  }

  lemma ComponentConsumes()
    ensures Consuming(Component())
  {
  }

  lemma UnfoldQuiet(a: Grammar, s: string, i: nat, c: Context)
    requires i <= |s|
    ensures var ra := Eval(a, s, i, c.(append := false));
      Eval(Quiet(a), s, i, c) == if ra.ok then ra.(c := ra.c.(append := c.append)) else FailFrom(i, c, ra)
  {
    hide EvalAbbrev, EvalCounted, Rule, Rank, Print;
  }

  lemma UnfoldNested(a: Grammar, s: string, i: nat, c: Context)
    requires i <= |s|
    ensures var ra := Eval(a, s, i, c.(nest := 0));
      Eval(Nested(a), s, i, c) == if ra.ok then ra.(c := ra.c.(nest := c.nest)) else FailFrom(i, c, ra)
  {
    hide EvalAbbrev, EvalCounted, Rule, Rank, Print;
  }

  lemma UnfoldEmit(t: string, s: string, i: nat, c: Context)
    requires i <= |s|
    ensures Eval(Emit(t), s, i, c) == Outcome(true, i, Print(c, t))
  {
    hide EvalAbbrev, EvalCounted, Rule, Rank, Print;
  }

  lemma UnfoldEmitPrev(s: string, i: nat, c: Context)
    requires i <= |s|
    ensures Eval(EmitPrev, s, i, c) == Outcome(true, i, Print(c, c.prev))
  {
    hide EvalAbbrev, EvalCounted, Rule, Rank, Print;
  }

  lemma UnfoldLeaf(s: string, i: nat, c: Context)
    requires i <= |s|
    ensures Eval(NT(SourceName), s, i, c) == EvalCounted(s, i, c)
    ensures forall t :: Eval(Abbrev(t), s, i, c) == EvalAbbrev(t, s, i, c)
    ensures Eval(EmitPrev, s, i, c) == Outcome(true, i, Print(c, c.prev))
    ensures Eval(Separator, s, i, c) == Outcome(true, i, if c.nest >= 1 then Print(c, "::") else c)
    ensures Eval(Deeper, s, i, c) == Outcome(true, i, if c.nest > -1 then c.(nest := c.nest + 1) else c)
  {
    hide Eval, EvalAbbrev, EvalCounted, Print;
    Unfold(SourceName, s, i, c);
    assert Rule(SourceName) == Counted;
    EvalLeaf(s, i, c);
  }

  lemma EvalLeaf(s: string, i: nat, c: Context)
    requires i <= |s|
    ensures Eval(Counted, s, i, c) == EvalCounted(s, i, c)
    ensures forall t :: Eval(Abbrev(t), s, i, c) == EvalAbbrev(t, s, i, c)
    ensures Eval(EmitPrev, s, i, c) == Outcome(true, i, Print(c, c.prev))
    ensures Eval(Separator, s, i, c) == Outcome(true, i, if c.nest >= 1 then Print(c, "::") else c)
    ensures Eval(Deeper, s, i, c) == Outcome(true, i, if c.nest > -1 then c.(nest := c.nest + 1) else c)
  {
    hide EvalAbbrev, EvalCounted, Rule, Rank, Print;
  }

  function Skip(s: string, i: nat, ch: char): nat { if i < |s| && s[i] == ch then i + 1 else i }

  lemma TokOutcome(ch: char, s: string, i: nat, c: Context)
    requires i <= |s|
    ensures Eval(Tok([ch]), s, i, c) == if Skip(s, i, ch) > i then Outcome(true, i + 1, c) else Fail(i, c)
    ensures Eval(Opt(Tok([ch])), s, i, c) == Outcome(true, Skip(s, i, ch), c)
  {
    hide EvalAbbrev, EvalCounted, Rule, Rank, Print;
  }

  lemma CVQualifiersOutcome(s: string, i: nat, c: Context)
    requires i <= |s|
    ensures var j := Skip(s, Skip(s, Skip(s, i, 'r'), 'V'), 'K');
      Eval(NT(CVQualifiers), s, i, c) == if j > i then Outcome(true, j, c) else Fail(i, c)
  {
    hide Eval;
    var r, v := Tok("r"), Tok("V");
    var k := Tok("K");
    Alternatives3(CVQualifiers, Seq3(r, Opt(v), Opt(k)), Seq(v, Opt(k)), k, s, i, c);
    Unfold3(r, Opt(v), Opt(k), s, i, c);
    Unfold2(v, Opt(k), s, i, c);
    TokOutcome('r', s, i, c);
    TokOutcome('V', s, i, c);
    TokOutcome('K', s, i, c);
    var i1 := Skip(s, i, 'r');
    TokOutcome('V', s, i1, c);
    TokOutcome('K', s, i1, c);
    TokOutcome('K', s, Skip(s, i1, 'V'), c);
  }

  lemma RowFacts(t: Table)
    ensures forall k :: 0 <= k < |Rows(t)| ==> Rows(t)[k].first != '\0'
    ensures Width(t) == 2 ==> forall k :: 0 <= k < |Rows(t)| ==> Rows(t)[k].second != '\0'
    ensures t == Operators ==> forall k :: 0 <= k < |Rows(t)| ==>
      IsLower(Rows(t)[k].first) && IsAlpha(Rows(t)[k].second)
    ensures t == Substitutions ==> forall k :: 0 <= k < |Rows(t)| ==> Rows(t)[k].first == 'S'
  {
    hide OperatorRows, BuiltinRows, SubstitutionRows;
  }

  lemma UnfoldAbbrev(t: Table, s: string, i: nat, c: Context)
    requires i <= |s|
    ensures Eval(Abbrev(t), s, i, c) == EvalAbbrev(t, s, i, c)
  {
    hide EvalAbbrev, EvalCounted, Rule, Rank, Print;
  }

  lemma NotAnOperator(s: string, i: nat)
    requires i <= |s|
    requires i + 2 <= |s| ==> !(IsLower(s[i]) && IsAlpha(s[i + 1]))
    ensures FindRow(Rows(Operators), Width(Operators), 0, s, i) == |Rows(Operators)|
  {
    hide Rows;
    RowFacts(Operators);
  }

  lemma OperatorNeedsTwo(s: string, i: nat, c: Context)
    requires i <= |s| < i + 2
    ensures Eval(NT(OperatorName), s, i, c) == Fail(i, c)
  {
    hide Rows, Rank, Digits;
    Alternatives3(OperatorName, CastOperator(), VendorOperator(), Abbrev(Operators), s, i, c);
    Unfold3(Tok("cv"), Emit("operator "), Nested(NT(Type)), s, i, c);
    Unfold3(Tok("v"), Class(Digits()), NT(SourceName), s, i, c);
    UnfoldAbbrev(Operators, s, i, c);
  }

  lemma TwoCharacters(s: string, i: nat, t: string)
    requires |t| == 2
    ensures At(s, i, t) <==> i + 2 <= |s| && s[i] == t[0] && s[i + 1] == t[1]
  {
    if i + 2 <= |s| {
      var w := s[i..i + 2];
      assert w[0] == s[i] && w[1] == s[i + 1];
      assert w == t <==> w[0] == t[0] && w[1] == t[1];
    }
  }

  lemma DigitClass(ch: char)
    ensures ch in Digits() <==> IsDigit(ch)
  {
  }

  lemma HexClass(ch: char)
    ensures ch in HexDigits() <==> IsDigit(ch) || 'a' <= ch <= 'f'
  {
  }

  lemma SeqIdClass(ch: char)
    ensures ch in SeqIdDigits() <==> IsDigit(ch) || 'A' <= ch <= 'Z'
  {
  }
}

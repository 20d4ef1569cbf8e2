/** The nest level is put back by every rule but the one for the inside of a nested name. */
module DemangleNest {
  import opened Wrappers
  import opened DemangleGrammar
  import opened DemangleTheory

  /** g does not go deeper into a nested name, other than between its N and its E. */
  predicate NestNeutral(g: Grammar) {
    match g
    case Seq(a, b) => NestNeutral(a) && NestNeutral(b)
    case Alt(a, b) => NestNeutral(a) && NestNeutral(b)
    case Opt(a) => NestNeutral(a)
    case Many(a) => NestNeutral(a)
    case NT(n) => n != Prefix
    case Quiet(a) => NestNeutral(a)
    case Deeper => false
    case _ => true
  }

  lemma KeepSteps()
    ensures forall a, b {:trigger NestNeutral(Seq(a, b))} ::
      NestNeutral(Seq(a, b)) == (NestNeutral(a) && NestNeutral(b))
    ensures forall a, b {:trigger NestNeutral(Alt(a, b))} ::
      NestNeutral(Alt(a, b)) == (NestNeutral(a) && NestNeutral(b))
    ensures forall a {:trigger NestNeutral(Opt(a))} :: NestNeutral(Opt(a)) == NestNeutral(a)
    ensures forall a {:trigger NestNeutral(Many(a))} :: NestNeutral(Many(a)) == NestNeutral(a)
    ensures forall n {:trigger NestNeutral(NT(n))} :: NestNeutral(NT(n)) == (n != Prefix)
    ensures forall a {:trigger NestNeutral(Quiet(a))} :: NestNeutral(Quiet(a)) == NestNeutral(a)
    ensures forall a {:trigger NestNeutral(Nested(a))} :: NestNeutral(Nested(a))
    ensures forall t {:trigger NestNeutral(Tok(t))} :: NestNeutral(Tok(t))
    ensures forall cs {:trigger NestNeutral(Class(cs))} :: NestNeutral(Class(cs))
    ensures forall t {:trigger NestNeutral(Emit(t))} :: NestNeutral(Emit(t))
    ensures forall t {:trigger NestNeutral(Abbrev(t))} :: NestNeutral(Abbrev(t))
    ensures NestNeutral(Counted) && NestNeutral(EmitPrev) && NestNeutral(Separator)
  {
  }

  lemma NamePartsKeep()
    ensures NestNeutral(LocalEntityName()) && NestNeutral(LocalString()) && NestNeutral(AbiSpecialName())
    ensures NestNeutral(GnuSpecialName()) && NestNeutral(CtorName()) && NestNeutral(DtorName())
    ensures NestNeutral(CastOperator()) && NestNeutral(VendorOperator()) && NestNeutral(UnnumberedSubstitution())
    ensures NestNeutral(NumberedSubstitution())
  {
    hide NestNeutral, Digits, HexDigits, SeqIdDigits;
    KeepSteps();
  }

  lemma TypePartsKeep()
    ensures NestNeutral(QualifiedType()) && NestNeutral(PlainType()) && NestNeutral(TemplateTemplateType())
    ensures NestNeutral(VendorBuiltinType()) && NestNeutral(SizedArrayType()) && NestNeutral(ExpressionArrayType())
    ensures NestNeutral(FirstTemplateParam()) && NestNeutral(LaterTemplateParam())
  {
    ArrayPartsKeep();
    hide NestNeutral, VendorBuiltinType, SizedArrayType, ExpressionArrayType, FirstTemplateParam, LaterTemplateParam;
    KeepSteps();
  }

  lemma ArrayPartsKeep()
    ensures NestNeutral(VendorBuiltinType()) && NestNeutral(SizedArrayType()) && NestNeutral(ExpressionArrayType())
    ensures NestNeutral(FirstTemplateParam()) && NestNeutral(LaterTemplateParam())
  {
    hide NestNeutral;
    KeepSteps();
  }

  lemma ArgumentPartsKeep()
    ensures NestNeutral(ArgumentList()) && NestNeutral(ArgumentPack()) && NestNeutral(ExpressionArg())
    ensures NestNeutral(OperatorExpression()) && NestNeutral(ScopedExpression()) && NestNeutral(IntegerLiteral())
    ensures NestNeutral(FloatLiteral()) && NestNeutral(ExternalName()) && NestNeutral(OldExternalName())
  {
    hide NestNeutral, Digits, HexDigits, SeqIdDigits;
    KeepSteps();
  }

  lemma LexicalRulesKeep(n: Nonterminal)
    requires IsLexical(n) || StartsType(n)
    ensures NestNeutral(Rule(n))
  {
    hide NestNeutral, Component, Digits, HexDigits, SeqIdDigits, LocalEntityName, LocalString, AbiSpecialName,
      GnuSpecialName, CtorName, DtorName, CastOperator, VendorOperator, UnnumberedSubstitution,
      NumberedSubstitution, QualifiedType, PlainType, TemplateTemplateType, VendorBuiltinType, SizedArrayType,
      ExpressionArrayType, FirstTemplateParam, LaterTemplateParam, ArgumentList, ArgumentPack, ExpressionArg,
      OperatorExpression, ScopedExpression, IntegerLiteral, FloatLiteral, ExternalName, OldExternalName;
    KeepSteps();
    NamePartsKeep();
    TypePartsKeep();
    ArgumentPartsKeep();
  }

  lemma LowRulesKeep(n: Nonterminal)
    requires Rank(n) == 1 && !IsLexical(n) && !StartsType(n)
    ensures NestNeutral(Rule(n))
  {
    hide NestNeutral, Component, Digits, HexDigits, SeqIdDigits, LocalEntityName, LocalString, AbiSpecialName,
      GnuSpecialName, CtorName, DtorName, CastOperator, VendorOperator, UnnumberedSubstitution,
      NumberedSubstitution, QualifiedType, PlainType, TemplateTemplateType, VendorBuiltinType, SizedArrayType,
      ExpressionArrayType, FirstTemplateParam, LaterTemplateParam, ArgumentList, ArgumentPack, ExpressionArg,
      OperatorExpression, ScopedExpression, IntegerLiteral, FloatLiteral, ExternalName, OldExternalName;
    KeepSteps();
    NamePartsKeep();
    TypePartsKeep();
    ArgumentPartsKeep();
  }

  lemma MiddleRulesKeep(n: Nonterminal)
    requires 1 < Rank(n) <= 4
    ensures NestNeutral(Rule(n))
  {
    hide NestNeutral, Component, Digits, HexDigits, SeqIdDigits, LocalEntityName, LocalString, AbiSpecialName,
      GnuSpecialName, CtorName, DtorName, CastOperator, VendorOperator, UnnumberedSubstitution,
      NumberedSubstitution, QualifiedType, PlainType, TemplateTemplateType, VendorBuiltinType, SizedArrayType,
      ExpressionArrayType, FirstTemplateParam, LaterTemplateParam, ArgumentList, ArgumentPack, ExpressionArg,
      OperatorExpression, ScopedExpression, IntegerLiteral, FloatLiteral, ExternalName, OldExternalName;
    KeepSteps();
    NamePartsKeep();
    TypePartsKeep();
    ArgumentPartsKeep();
  }

  lemma HighRulesKeep(n: Nonterminal)
    requires Rank(n) > 4 && n != Prefix
    ensures NestNeutral(Rule(n))
  {
    hide NestNeutral, Component, Digits, HexDigits, SeqIdDigits, LocalEntityName, LocalString, AbiSpecialName,
      GnuSpecialName, CtorName, DtorName, CastOperator, VendorOperator, UnnumberedSubstitution,
      NumberedSubstitution, QualifiedType, PlainType, TemplateTemplateType, VendorBuiltinType, SizedArrayType,
      ExpressionArrayType, FirstTemplateParam, LaterTemplateParam, ArgumentList, ArgumentPack, ExpressionArg,
      OperatorExpression, ScopedExpression, IntegerLiteral, FloatLiteral, ExternalName, OldExternalName;
    KeepSteps();
    NamePartsKeep();
    TypePartsKeep();
    ArgumentPartsKeep();
  }

  lemma RulesKeep(n: Nonterminal)
    requires n != Prefix
    ensures NestNeutral(Rule(n))
  {
    hide Rule, NestNeutral;
    if Rank(n) > 4 {
      HighRulesKeep(n);
    } else if Rank(n) > 1 {
      MiddleRulesKeep(n);
    } else if IsLexical(n) || StartsType(n) {
      LexicalRulesKeep(n);
    } else {
      LowRulesKeep(n);
    }
  }

  lemma LeafKeepsNest(g: Grammar, s: string, i: nat, c: Context)
    requires i <= |s| && IsLeaf(g) && NestNeutral(g)
    ensures Eval(g, s, i, c).c.nest == c.nest
  {
    hide Rule, Rank, Rows, NumberAt, IdentifierText;
  }

  lemma {:induction false} NestKept(g: Grammar, s: string, i: nat, c: Context)
    requires i <= |s| && NestNeutral(g)
    ensures Eval(g, s, i, c).c.nest == c.nest
    decreases |s| - i, Level(g), g
  {
    hide EvalAbbrev, EvalCounted, Print, Rule, Rank;
    match g
    case Seq(a, b) =>
      var ra := Eval(a, s, i, c);
      NestKept(a, s, i, c);
      if ra.ok { NestKept(b, s, ra.pos, ra.c); }
    case Alt(a, b) =>
      NestKept(a, s, i, c);
      NestKept(b, s, i, Eval(a, s, i, c).c);
    case Opt(a) => NestKept(a, s, i, c);
    case Many(a) =>
      var ra := Eval(a, s, i, c);
      NestKept(a, s, i, c);
      if ra.ok && i < ra.pos { NestKept(g, s, ra.pos, ra.c); }
    case NT(n) =>
      NoLeftRecursion(n);
      RulesKeep(n);
      NestKept(Rule(n), s, i, c);
    case Quiet(a) => NestKept(a, s, i, c.(append := false));
    case Nested(a) =>
    case _ => LeafKeepsNest(g, s, i, c);
  }
}

/** Demangling undoes mangling: whatever symbol of `DemangleSymbols` is mangled, the demangler shows it. */
module DemangleRoundTrip {
  import opened Wrappers
  import opened DemangleGrammar
  import opened DemangleTheory
  import opened DemangleStarts
  import opened DemangleNest
  import opened DemangleSymbols
  import opened DemangleParts

  // ---------------------------------------------------------------------------
  // First characters of types and names

  /** Nothing that starts with one of these goes on with a list of types or arguments. */
  predicate Closes(ch: char) { ch == 'E' || ch == '.' || ch == '@' }

  predicate TypeHead(ch: char) { ch != 'E' && ch != '.' && ch != '@' && ch != 'I' && ch != '_' && ch != 'Y' }

  lemma NameRuleStart(ch: char)
    ensures MayStart(NT(Name), ch) ==>
      IsLower(ch) || IsDigit(ch) || ch == 'N' || ch == 'Z' || ch == 'S' || ch == 'C' || ch == 'D' || ch == 'L'
  {
    hide MayStart, Consuming, Level, Rank, Rows;
    StartOf(Name, ch);
    StartOf(UnscopedTemplateName, ch);
    UnscopedStarts(ch);
    TokenStarts(ch);
    OtherStarts(ch);
    StartSteps(ch);
    ConsumingSteps();
    ConsumingNames();
  }

  lemma KindStarts(ch: char)
    ensures MayStart(NT(BuiltinType), ch) ==> IsLower(ch)
    ensures MayStart(NT(FunctionType), ch) <==> ch == 'F'
    ensures MayStart(NT(ArrayType), ch) <==> ch == 'A'
    ensures MayStart(NT(PointerToMemberType), ch) <==> ch == 'M'
    ensures MayStart(NT(TemplateTemplateParam), ch) ==> ch == 'T' || ch == 'S'
  {
    hide MayStart, Consuming, Level, Rank, Rows, Rule;
    BuiltinTypeStart(ch);
    FunctionTypeStart(ch);
    ArrayTypeStart(ch);
    MemberTypeStart(ch);
    TemplateTemplateStart(ch);
  }

  lemma BuiltinTypeStart(ch: char)
    ensures MayStart(NT(BuiltinType), ch) ==> IsLower(ch)
  {
    hide MayStart, Consuming, Level, Rank, Rows;
    StartOf(BuiltinType, ch);
    StartSteps(ch);
    ConsumingSteps();
    BuiltinRowsStart(ch);
  }

  lemma BuiltinRowsStart(ch: char)
    ensures MayStart(Abbrev(Builtins), ch) ==> IsLower(ch)
  {
    hide Rows;
    BuiltinFirst();
  }

  lemma BuiltinFirst()
    ensures forall q :: 0 <= q < |Rows(Builtins)| ==> IsLower(Rows(Builtins)[q].first)
  {
  }

  lemma FunctionTypeStart(ch: char)
    ensures MayStart(NT(FunctionType), ch) <==> ch == 'F'
  {
    hide MayStart, Consuming, Level, Rank;
    StartOf(FunctionType, ch);
    StartSteps(ch);
    ConsumingSteps();
  }

  lemma ArrayTypeStart(ch: char)
    ensures MayStart(NT(ArrayType), ch) <==> ch == 'A'
  {
    hide MayStart, Consuming, Level, Rank;
    StartOf(ArrayType, ch);
    StartSteps(ch);
    ConsumingSteps();
  }

  lemma MemberTypeStart(ch: char)
    ensures MayStart(NT(PointerToMemberType), ch) <==> ch == 'M'
  {
    hide MayStart, Consuming, Level, Rank;
    StartOf(PointerToMemberType, ch);
    StartSteps(ch);
    ConsumingSteps();
  }

  lemma TemplateTemplateStart(ch: char)
    ensures MayStart(NT(TemplateTemplateParam), ch) ==> ch == 'T' || ch == 'S'
  {
    hide MayStart, Consuming, Level, Rank;
    StartOf(TemplateTemplateParam, ch);
    TokenStarts(ch);
    OtherStarts(ch);
    StartSteps(ch);
  }

  lemma PlainTypeStart(ch: char)
    requires !TypeHead(ch)
    ensures !MayStart(PlainType(), ch) && !MayStart(TemplateTemplateType(), ch)
  {
    hide MayStart, Consuming, Level, Rank, Rule;
    KindStarts(ch);
    NameRuleStart(ch);
    OtherStarts(ch);
    PlainTypeIs();
    StartOf(ClassEnumType, ch);
    StartSteps(ch);
    ConsumingNames();
  }

  lemma ConsumingNames()
    ensures forall n {:trigger Consuming(NT(n))} :: Consuming(NT(n)) == (n != Prefix)
  {
  }

  /** No type starts with any other character. */
  lemma TypeStarts(ch: char)
    requires !TypeHead(ch)
    ensures !MayStart(NT(Type), ch) && !MayStart(NT(BareFunctionType), ch)
  {
    hide MayStart, Consuming, Level, Rank, QualifiedType, PlainType, TemplateTemplateType;
    StartOf(Type, ch);
    StartOf(BareFunctionType, ch);
    QualifiedTypeStart(ch);
    PlainTypeStart(ch);
    TokenStarts(ch);
    StartSteps(ch);
    ConsumingNames();
    ConsumingQuiet(ch);
  }

  lemma ConsumingQuiet(ch: char)
    ensures Consuming(Quiet(Plus(NT(Type))))
    ensures MayStart(Quiet(Plus(NT(Type))), ch) == MayStart(NT(Type), ch)
  {
    hide MayStart;
    StartSteps(ch);
  }

  /** Nothing of the kind of a template argument stands at the end of the list. */
  lemma ArgumentStart(ch: char)
    ensures ch == 'E' ==> !MayStart(NT(TemplateArg), ch)
    ensures MayStart(ArgumentPack(), ch) <==> ch == 'I'
    ensures Consuming(ArgumentPack()) && Mute(ArgumentPack())
  {
    hide MayStart, Level, Rank;
    StartOf(TemplateArg, ch);
    if ch == 'E' { TypeStarts(ch); }
    ExprPrimaryStart(ch);
    StartSteps(ch);
    ConsumingNames();
    ConsumingSteps();
    PackIsMute();
  }

  lemma PackIsMute()
    ensures Mute(ArgumentPack()) && Consuming(ArgumentPack())
  {
  }

  lemma ExprPrimaryStart(ch: char)
    ensures MayStart(NT(ExprPrimary), ch) <==> ch == 'L'
  {
    hide MayStart, Consuming, Level, Rank;
    StartOf(ExprPrimary, ch);
    StartSteps(ch);
    ConsumingSteps();
  }

  lemma NameStart(s: string, i: nat, name: SymbolName)
    requires IsName(name) && At(s, i, NameText(name))
    ensures i < |s| && s[i] != 'T' && s[i] != 'G' && s[i] != 'Z' && TypeHead(s[i])
    ensures IsClassName(name) ==> IsDigit(s[i]) || s[i] == 'N' || s[i] == 'S'
    ensures s[i] == 'N' <==> name.Scoped?
  {
    hide At, PartText, IsPart, ArgumentsText, IsArguments, ScopeText, IsScope;
    match name
    case Plain(part, arguments) =>
      AtParts(s, i, PartText(part), ArgumentsText(arguments));
      PartStart(s, i, part);
      PartKinds(part);
    case InStd(part, arguments) =>
      assert NameText(name) == "St" + (PartText(part) + ArgumentsText(arguments));
      AtParts(s, i, "St", PartText(part) + ArgumentsText(arguments));
      AtCharacters(s, i, "St");
    case Scoped(qualifiers, scope) =>
      AtParts(s, i, "N", qualifiers + (ScopeText(scope) + "E"));
      AtCharacters(s, i, "N");
  }

  lemma PartKinds(p: Part)
    ensures p.Word? ==> IsUnqualified(p)
    ensures p.Standard? || p.Again? ==> !IsUnqualified(p)
  {
  }

  lemma ParameterStart(s: string, i: nat, p: Parameter)
    requires IsArgument(p) && At(s, i, ParameterText(p))
    ensures i < |s| && TypeHead(s[i])
    ensures !p.Qualified? ==> s[i] != 'r' && s[i] != 'V' && s[i] != 'K'
  {
    hide At, NameText, TypeName, PartText, IsPart, IsName, IsOffset, ParametersText, AreParameters;
    if !p.Literal? { OtherIsParameter(p); }
    match p
    case Builtin(letter) =>
      AtCharacters(s, i, [letter]);
      BuiltinLetter(letter);
    case OfClass(name) => NameStart(s, i, name);
    case Indirect(letter, to) =>
      AtParts(s, i, [letter], ParameterText(to));
      AtCharacters(s, i, [letter]);
    case Qualified(qualifiers, to) =>
      AtParts(s, i, qualifiers, ParameterText(to));
      AtCharacters(s, i, qualifiers);
      assert s[i] == qualifiers[0];
    case FunctionOf(parameters) =>
      AtParts(s, i, "F", ParametersText(parameters) + "E");
      AtCharacters(s, i, "F");
    case ArrayOf(bound, to) =>
      AtParts(s, i, "A", bound + ("_" + ParameterText(to)));
      AtCharacters(s, i, "A");
    case MemberOf(owner, to) =>
      AtParts(s, i, "M", ParameterText(owner) + ParameterText(to));
      AtCharacters(s, i, "M");
    case Short(part) =>
      PartStart(s, i, part);
      PartKinds(part);
    case Literal(letter, number) =>
      AtParts(s, i, "L", [letter] + (number + "E"));
      AtCharacters(s, i, "L");
  }

  // ---------------------------------------------------------------------------
  // Accepting

  lemma AcceptedAnywhere(g: Grammar, s: string, i: nat, j: nat, c: Context)
    requires Accepts(g, s, i, START.(rewound := c.rewound), j)
    ensures Accepts(g, s, i, c, j)
  {
    hide Eval;
    AcceptanceIgnoresOutput(g, s, i, START.(rewound := c.rewound), c);
  }

  lemma AcceptSeq(a: Grammar, b: Grammar, s: string, i: nat, c: Context, j: nat, k: nat)
    requires Accepts(a, s, i, c, j) && Accepts(b, s, j, Eval(a, s, i, c).c, k)
    ensures Accepts(Seq(a, b), s, i, c, k)
  {
    hide Eval;
    Unfold2(a, b, s, i, c);
  }

  lemma AcceptTok(t: string, s: string, i: nat, c: Context)
    requires At(s, i, t)
    ensures Accepts(Tok(t), s, i, c, i + |t|) && Eval(Tok(t), s, i, c).c == c
  {
    hide Eval;
    TokIs(t, s, i, c);
  }

  /** Nothing that follows a name or a type may belong to it. */
  ghost predicate Free(s: string, j: nat) { j < |s| ==> s[j] != 'I' && s[j] != '_' }

  /** The text of the parameters stands at i, and nothing that could be another one behind it. */
  ghost predicate ParametersAt(s: string, i: nat, ps: seq<Parameter>) {
    && AreArguments(ps) && At(s, i, ParametersText(ps))
    && var e := i + |ParametersText(ps)|; e < |s| ==> Closes(s[e])
  }

  lemma ParametersSplit(s: string, i: nat, ps: seq<Parameter>)
    requires ParametersAt(s, i, ps) && ps != []
    ensures var j := i + |ParameterText(ps[0])|;
      && IsArgument(ps[0]) && At(s, i, ParameterText(ps[0])) && ParametersAt(s, j, ps[1..])
      && Free(s, j) && j + |ParametersText(ps[1..])| == i + |ParametersText(ps)|
      && i < |s| && TypeHead(s[i])
  {
    hide ParameterText, IsArgument, At;
    var j, rest := i + |ParameterText(ps[0])|, ps[1..];
    AtParts(s, i, ParameterText(ps[0]), ParametersText(rest));
    assert AreArguments(rest);
    ParameterStart(s, i, ps[0]);
    ParametersBegin(s, j, rest);
  }

  lemma ParametersBegin(s: string, i: nat, ps: seq<Parameter>)
    requires ParametersAt(s, i, ps)
    ensures Free(s, i)
    ensures ps == [] ==> i <= |s| && (i < |s| ==> Closes(s[i])) && ParametersText(ps) == ""
  {
    hide ParameterText, IsArgument, At;
    if ps != [] {
      AtParts(s, i, ParameterText(ps[0]), ParametersText(ps[1..]));
      ParameterStart(s, i, ps[0]);
    } else {
      AtCharacters(s, i, "");
    }
  }

  // ---------------------------------------------------------------------------
  // The kinds of types

  /** A type that is a name is no type of an earlier kind. */
  lemma TypeIsName(s: string, i: nat, c: Context)
    requires i < |s| && (IsDigit(s[i]) || s[i] == 'N' || s[i] == 'S') && Eval(NT(Name), s, i, c).ok
    ensures Eval(NT(Type), s, i, c) == Eval(NT(Name), s, i, c)
  {
    hide Eval, MayStart, Rule;
    NotQualified(s, i, c);
    KindStarts(s[i]);
    PlainTypeIs();
    Unfold(ClassEnumType, s, i, c);
    Take(NT(ClassEnumType), LateTypes(), s, i, c);
    Pass(NT(FunctionType), Alt(NT(ClassEnumType), LateTypes()), s, i, c);
    Pass(NT(BuiltinType), Alt(NT(FunctionType), Alt(NT(ClassEnumType), LateTypes())), s, i, c);
    Take(PlainType(), Alt(TemplateTemplateType(), NT(TemplateParam)), s, i, c);
  }

  lemma QualifiedTypeIs()
    ensures QualifiedType() ==
      Alt(CVQualifiedType(), Alt(PointerType(), Alt3(PackExpansion(), Decltype(), VendorQualifiedType())))
    ensures CVQualifiedType() == Seq(NT(CVQualifiers), NT(Type)) && PointerType() == Seq(Class("OPRCG"), NT(Type))
  {
  }

  /** A pointer to a type, a reference to it, or the like. */
  lemma IndirectAccepted(s: string, i: nat, c: Context, j: nat)
    requires i < |s| && s[i] in "OPRCG" && Accepts(NT(Type), s, i + 1, c, j)
    ensures Accepts(NT(Type), s, i, c, j)
  {
    hide Eval, MayStart, Rule, PackExpansion, Decltype, VendorQualifiedType, CVQualifiedType, PointerType,
      QualifiedType, PlainType, TemplateTemplateType, Consuming;
    var others := Alt3(PackExpansion(), Decltype(), VendorQualifiedType());
    NoQualifiers(s[i]);
    ClassIs("OPRCG", s, i, c);
    After(Class("OPRCG"), NT(Type), s, i, c, i + 1);
    QualifiedTypeIs();
    Take(PointerType(), others, s, i, c);
    Pass(CVQualifiedType(), Alt(PointerType(), others), s, i, c);
    TypeRules();
    Take(QualifiedType(), Alt(PlainType(), Alt(TemplateTemplateType(), NT(TemplateParam))), s, i, c);
    Unfold(Type, s, i, c);
  }

  lemma NoQualifiers(ch: char)
    requires ch in "OPRCG"
    ensures !MayStart(CVQualifiedType(), ch) && Consuming(CVQualifiedType()) && Mute(CVQualifiedType())
  {
    hide MayStart, Rule;
    CVQualifiersStart(ch);
    StartSteps(ch);
  }

  /** r, V and K, as many as there are. */
  lemma QualifiersRead(q: string, s: string, i: nat, c: Context)
    requires AreQualifiers(q) && At(s, i, q) && i + |q| < |s|
    requires s[i + |q|] != 'r' && s[i + |q|] != 'V' && s[i + |q|] != 'K'
    ensures Eval(NT(CVQualifiers), s, i, c) == if q == "" then Fail(i, c) else Outcome(true, i + |q|, c)
  {
    hide Eval;
    AtCharacters(s, i, q);
    CVQualifiersOutcome(s, i, c);
    assert forall k :: 0 <= k < |q| ==> s[i + k] == q[k];
  }

  lemma QualifiedAccepted(q: string, s: string, i: nat, c: Context, j: nat)
    requires AreQualifiers(q) && q != "" && At(s, i, q) && i + |q| < |s|
    requires s[i + |q|] != 'r' && s[i + |q|] != 'V' && s[i + |q|] != 'K' && Accepts(NT(Type), s, i + |q|, c, j)
    ensures Accepts(NT(Type), s, i, c, j)
  {
    hide Eval, Rule, PackExpansion, Decltype, VendorQualifiedType, CVQualifiedType, PointerType,
      QualifiedType, PlainType, TemplateTemplateType, AreQualifiers, At;
    QualifiersRead(q, s, i, c);
    After(NT(CVQualifiers), NT(Type), s, i, c, i + |q|);
    QualifiedTypeIs();
    Take(CVQualifiedType(), Alt(PointerType(), Alt3(PackExpansion(), Decltype(), VendorQualifiedType())), s, i, c);
    TypeRules();
    Take(QualifiedType(), Alt(PlainType(), Alt(TemplateTemplateType(), NT(TemplateParam))), s, i, c);
    Unfold(Type, s, i, c);
  }

  lemma FunctionTypeRules()
    ensures Rule(FunctionType) == Seq(Tok("F"), Seq(Opt(Tok("Y")), Seq(NT(BareFunctionType), Tok("E"))))
    ensures Rule(BareFunctionType) == Seq(Quiet(Plus(NT(Type))), Emit("()"))
  {
  }

  /** A function type, given that its parameters are accepted. */
  lemma FunctionAccepted(s: string, i: nat, c: Context, j: nat)
    requires At(s, i, "F") && i + 1 < |s| && s[i + 1] != 'Y' && At(s, j, "E")
    requires Accepts(NT(BareFunctionType), s, i + 1, c, j)
    ensures Accepts(NT(Type), s, i, c, j + 1)
  {
    hide Eval, MayStart, Rule;
    AtCharacters(s, i, "F");
    NotQualified(s, i, c);
    KindStarts(s[i]);
    var tail := Seq(NT(BareFunctionType), Tok("E"));
    AcceptTok("F", s, i, c);
    TokIs("Y", s, i + 1, c);
    assert !At(s, i + 1, "Y") by { assert s[i + 1..i + 2][0] == s[i + 1]; }
    UnfoldOpt(Tok("Y"), s, i + 1, c);
    AcceptTok("E", s, j, Eval(NT(BareFunctionType), s, i + 1, c).c);
    AcceptSeq(NT(BareFunctionType), Tok("E"), s, i + 1, c, j, j + 1);
    AcceptSeq(Opt(Tok("Y")), tail, s, i + 1, c, i + 1, j + 1);
    AcceptSeq(Tok("F"), Seq(Opt(Tok("Y")), tail), s, i, c, i + 1, j + 1);
    FunctionTypeRules();
    Unfold(FunctionType, s, i, c);
    PlainTypeIs();
    Take(NT(FunctionType), Alt(NT(ClassEnumType), LateTypes()), s, i, c);
    Pass(NT(BuiltinType), Alt(NT(FunctionType), Alt(NT(ClassEnumType), LateTypes())), s, i, c);
    Take(PlainType(), Alt(TemplateTemplateType(), NT(TemplateParam)), s, i, c);
  }

  lemma NoNameHere(s: string, i: nat, c: Context)
    requires i < |s| && (s[i] == 'A' || s[i] == 'M')
    ensures Eval(NT(ClassEnumType), s, i, c) == Fail(i, c)
  {
    hide Eval, MayStart, Rule, LateTypes;
    NameRuleStart(s[i]);
    Fails(NT(Name), s, i, c);
    PlainTypeIs();
    Unfold(ClassEnumType, s, i, c);
  }

  /** A type that is neither built-in, nor a function, nor a name. */
  lemma LateType(s: string, i: nat, c: Context)
    requires i < |s| && (s[i] == 'A' || s[i] == 'M') && Eval(LateTypes(), s, i, c).ok
    ensures Eval(NT(Type), s, i, c) == Eval(LateTypes(), s, i, c)
  {
    hide Eval, MayStart, Rule, LateTypes;
    NotQualified(s, i, c);
    KindStarts(s[i]);
    NoNameHere(s, i, c);
    PlainTypeIs();
    Skip1(NT(ClassEnumType), LateTypes(), s, i, c);
    Pass(NT(FunctionType), Alt(NT(ClassEnumType), LateTypes()), s, i, c);
    Pass(NT(BuiltinType), Alt(NT(FunctionType), Alt(NT(ClassEnumType), LateTypes())), s, i, c);
    Take(PlainType(), Alt(TemplateTemplateType(), NT(TemplateParam)), s, i, c);
  }

  lemma ArrayRule()
    ensures Rule(ArrayType) == Alt(Seq(Tok("A"), Seq(NT(Number), Seq(Tok("_"), NT(Type)))), ExpressionArrayType())
  {
    hide ExpressionArrayType;
  }

  lemma MemberRule()
    ensures Rule(PointerToMemberType) == Seq(Tok("M"), Seq(NT(Type), NT(Type)))
  {
  }

  lemma ArrayAccepted(bound: string, s: string, i: nat, c: Context, j: nat)
    requires IsNumber(bound) && At(s, i, "A" + (bound + "_")) && Accepts(NT(Type), s, i + 2 + |bound|, c, j)
    ensures Accepts(NT(Type), s, i, c, j)
  {
    hide Eval, Rule, At, ExpressionArrayType;
    var k := i + 1 + |bound|;
    AtParts(s, i, "A", bound + "_");
    AtParts(s, i + 1, bound, "_");
    AtCharacters(s, i, "A");
    AtCharacters(s, k, "_");
    AcceptTok("A", s, i, c);
    AcceptTok("_", s, k, c);
    NumberReads(bound, s, i + 1, c);
    After(Tok("_"), NT(Type), s, k, c, k + 1);
    After(NT(Number), Seq(Tok("_"), NT(Type)), s, i + 1, c, k);
    After(Tok("A"), Seq(NT(Number), Seq(Tok("_"), NT(Type))), s, i, c, i + 1);
    ArrayRule();
    Take(Seq(Tok("A"), Seq(NT(Number), Seq(Tok("_"), NT(Type)))), ExpressionArrayType(), s, i, c);
    Unfold(ArrayType, s, i, c);
    Take(NT(ArrayType), Alt(NT(PointerToMemberType), NT(Substitution)), s, i, c);
    LateType(s, i, c);
  }

  lemma MemberAccepted(s: string, i: nat, c: Context, j: nat, k: nat)
    requires At(s, i, "M") && Accepts(NT(Type), s, i + 1, c, j)
    requires Accepts(NT(Type), s, j, Eval(NT(Type), s, i + 1, c).c, k)
    ensures Accepts(NT(Type), s, i, c, k)
  {
    hide Eval, Rule, MayStart;
    AtCharacters(s, i, "M");
    KindStarts(s[i]);
    AcceptTok("M", s, i, c);
    AcceptSeq(NT(Type), NT(Type), s, i + 1, c, j, k);
    After(Tok("M"), Seq(NT(Type), NT(Type)), s, i, c, i + 1);
    MemberRule();
    Unfold(PointerToMemberType, s, i, c);
    Take(NT(PointerToMemberType), NT(Substitution), s, i, c);
    Pass(NT(ArrayType), Alt(NT(PointerToMemberType), NT(Substitution)), s, i, c);
    LateType(s, i, c);
  }

  /** A part that stands for something named before, or for something of the standard library. */
  predicate IsShort(p: Part) { p.Standard? || p.Again? }

  lemma ShortReads(s: string, i: nat, p: Part, c: Context, v: Display, nest: int)
    requires IsPart(p) && IsShort(p) && At(s, i, PartText(p)) && Says(c, v, nest)
    ensures i < |s| && s[i] == 'S' && !At(s, i, "St")
    ensures Reads(NT(Substitution), s, i, c, i + |PartText(p)|, PartDisplay(p, v), nest)
  {
    hide Eval, Says, StandardName, At, IsMark;
    PartStart(s, i, p);
    AtCharacters(s, i, PartText(p));
    match p {
      case Standard(letter) =>
        StandardChunks(letter);
        StandardReads(s, i, letter, c, v, nest);
        assert s[i + 1] == letter;
      case Again(mark) =>
        AgainReads(s, i, mark, c, v, nest);
        assert s[i + 1] == (mark + "_")[0];
        if mark != "" {
          AtParts(s, i, "S", mark + "_");
          AtParts(s, i + 1, mark, "_");
          MarkStart(s, i + 1, mark);
        }
    }
    NotTwo(s, i, 'S', 't');
  }

  /** No name without a scope starts so. */
  lemma NotUnscoped(s: string, i: nat, c: Context)
    requires i < |s| && s[i] == 'S' && !At(s, i, "St")
    ensures Eval(NT(UnscopedName), s, i, c) == Fail(i, c)
  {
    hide Eval, Rule, MayStart, At;
    UnqualifiedStart(s[i]);
    Fails(NT(UnqualifiedName), s, i, c);
    TokIs("St", s, i, c);
    NotFirst(Tok("St"), Seq(Emit("std::"), NT(UnqualifiedName)), s, i, c);
    UnqualifiedRule();
    Skip1(NT(UnqualifiedName), StdName(), s, i, c);
    Unfold(UnscopedName, s, i, c);
  }

  /** A name that is neither nested nor local. */
  lemma NotNestedNorLocal(s: string, i: nat, c: Context)
    requires i < |s| && s[i] != 'N' && s[i] != 'Z'
    ensures Eval(NT(Name), s, i, c) == Eval(Alt(TemplateName(), NT(UnscopedName)), s, i, c)
  {
    hide Eval, MayStart, Rule;
    TokenStarts(s[i]);
    PrefixRule();
    var last := Alt(TemplateName(), NT(UnscopedName));
    Pass(NT(NestedName), Alt(NT(LocalName), last), s, i, c);
    Pass(NT(LocalName), last, s, i, c);
    Unfold(Name, s, i, c);
  }

  lemma NoArguments2(s: string, j: nat)
    requires Free(s, j)
    ensures Consuming(NT(TemplateArgs)) && Mute(NT(TemplateArgs)) && (j < |s| ==> !MayStart(NT(TemplateArgs), s[j]))
  {
    hide MayStart, Rule;
    if j < |s| { TokenStarts(s[j]); }
  }

  lemma ShortTemplateReads(s: string, i: nat, p: Part, c: Context, v: Display, nest: int)
    requires IsPart(p) && IsShort(p) && At(s, i, PartText(p)) && Says(c, v, nest)
    ensures Reads(NT(UnscopedTemplateName), s, i, c, i + |PartText(p)|, PartDisplay(p, v), nest)
  {
    hide Eval, Says, At, PartText, PartDisplay, IsPart, Rule;
    ShortReads(s, i, p, c, v, nest);
    NotUnscoped(s, i, c);
    PrefixRule();
    Skip1(NT(UnscopedName), NT(Substitution), s, i, c);
    Unfold(UnscopedTemplateName, s, i, c);
  }

  /** Such a part is no name: it was only tried as one of a template. */
  lemma ShortIsNoName(s: string, i: nat, p: Part, c: Context, v: Display, nest: int) returns (c': Context)
    requires IsPart(p) && IsShort(p) && At(s, i, PartText(p)) && Says(c, v, nest) && Free(s, i + |PartText(p)|)
    ensures Says(c', v, nest) && c'.rewound == c.rewound && Eval(NT(Name), s, i, c) == Fail(i, c')
  {
    hide Eval, Says, At, PartText, PartDisplay, IsPart, Rule, MayStart, Consuming, Mute;
    var j := i + |PartText(p)|;
    ShortReads(s, i, p, c, v, nest);
    ShortTemplateReads(s, i, p, c, v, nest);
    NoArguments2(s, j);
    NotNestedNorLocal(s, i, c);
    var w := PartDisplay(p, v);
    c' := PassLate(NT(UnscopedTemplateName), NT(TemplateArgs), NT(UnscopedName), s, i, c, j, v, nest, w);
    NotUnscoped(s, i, c');
  }

  /** It is read as a type of its own. */
  lemma ShortIsLate(s: string, i: nat, p: Part, c: Context, v: Display, nest: int)
    requires IsPart(p) && IsShort(p) && At(s, i, PartText(p)) && Says(c, v, nest) && Free(s, i + |PartText(p)|)
    ensures var r := Eval(Alt(NT(ClassEnumType), LateTypes()), s, i, c);
      r.ok && r.pos == i + |PartText(p)| && r.c.rewound == c.rewound
  {
    hide Eval, Says, At, PartText, PartDisplay, IsPart, Rule, MayStart, Free;
    ShortReads(s, i, p, c, v, nest);
    KindStarts(s[i]);
    var c1 := ShortIsNoName(s, i, p, c, v, nest);
    ShortReads(s, i, p, c1, v, nest);
    Pass(NT(PointerToMemberType), NT(Substitution), s, i, c1);
    Pass(NT(ArrayType), Alt(NT(PointerToMemberType), NT(Substitution)), s, i, c1);
    PlainTypeIs();
    Unfold(ClassEnumType, s, i, c);
    Choose(NT(ClassEnumType), LateTypes(), s, i, c);
  }

  lemma ShortAccepted(s: string, i: nat, p: Part, c: Context)
    requires IsPart(p) && IsShort(p) && At(s, i, PartText(p)) && Free(s, i + |PartText(p)|)
    ensures Accepts(NT(Type), s, i, c, i + |PartText(p)|)
  {
    hide Eval, At, PartText, IsPart, Rule, MayStart, Free, LateTypes;
    var c0 := START.(rewound := c.rewound);
    SaysAtFirst(c.rewound);
    hide Says;
    ShortReads(s, i, p, c0, BLANK, -1);
    KindStarts(s[i]);
    ShortIsLate(s, i, p, c0, BLANK, -1);
    PlainTypeIs();
    Pass(NT(FunctionType), Alt(NT(ClassEnumType), LateTypes()), s, i, c0);
    Pass(NT(BuiltinType), Alt(NT(FunctionType), Alt(NT(ClassEnumType), LateTypes())), s, i, c0);
    Take(PlainType(), Alt(TemplateTemplateType(), NT(TemplateParam)), s, i, c0);
    NotQualified(s, i, c0);
    AcceptedAnywhere(NT(Type), s, i, i + |PartText(p)|, c);
  }

  lemma SaysAtFirst(rewound: bool)
    ensures Says(START.(rewound := rewound), BLANK, -1)
  {
  }

  lemma NoPlainType(ch: char)
    requires ch == 'T'
    ensures !MayStart(PlainType(), ch) && Consuming(PlainType()) && Mute(PlainType())
  {
    PlainIsMute();
    hide MayStart, Consuming, Level, Rank, Mute;
    KindStarts(ch);
    NameRuleStart(ch);
    OtherStarts(ch);
    StartOf(ClassEnumType, ch);
    StartSteps(ch);
  }

  lemma PlainIsMute()
    ensures Consuming(PlainType()) && Mute(PlainType())
  {
    hide Level, Consuming, PlainType;
    TypeLevels();
  }

  lemma TemplateTemplateRule()
    ensures Rule(TemplateTemplateParam) == Alt(NT(TemplateParam), NT(Substitution))
  {
  }

  lemma HoleAccepted(s: string, i: nat, mark: string, c: Context)
    requires IsPart(Hole(mark)) && At(s, i, PartText(Hole(mark))) && Free(s, i + |mark| + 2)
    ensures Accepts(NT(Type), s, i, c, i + |mark| + 2)
  {
    hide Eval, Says, At, Rule, MayStart, PlainType, Consuming, Mute;
    var c0, j, v := START.(rewound := c.rewound), i + |mark| + 2, PartDisplay(Hole(mark), BLANK);
    assert Says(c0, BLANK, -1) by { SaysAtFirst(c.rewound); }
    PartStart(s, i, Hole(mark));
    HoleReads(s, i, mark, c0, BLANK, -1);
    NoPlainType(s[i]);
    NoArguments2(s, j);
    TemplateTemplateRule();
    Take(NT(TemplateParam), NT(Substitution), s, i, c0);
    Unfold(TemplateTemplateParam, s, i, c0);
    var c1 := PassLate(NT(TemplateTemplateParam), NT(TemplateArgs), NT(TemplateParam), s, i, c0, j, BLANK, -1, v);
    HoleReads(s, i, mark, c1, BLANK, -1);
    Pass(PlainType(), Alt(TemplateTemplateType(), NT(TemplateParam)), s, i, c0);
    NotQualified(s, i, c0);
    AcceptedAnywhere(NT(Type), s, i, j, c);
  }

  // ---------------------------------------------------------------------------
  // Names without a scope

  /** A name without its template arguments. */
  function HeadText(name: SymbolName): string
    requires !name.Scoped?
  {
    if name.Plain? then PartText(name.part) else "St" + PartText(name.part)
  }

  function HeadDisplay(name: SymbolName, v: Display): Display
    requires !name.Scoped?
  {
    PartDisplay(name.part, if name.Plain? then v else Display(v.out + "std::", "std::"))
  }

  lemma HeadReads(s: string, i: nat, name: SymbolName, c: Context, v: Display, nest: int)
    requires IsName(name) && !name.Scoped? && IsUnqualified(name.part) && At(s, i, HeadText(name)) && Says(c, v, nest)
    requires var j := i + |HeadText(name)|; j < |s| ==> s[j] != '_'
    ensures Reads(NT(UnscopedName), s, i, c, i + |HeadText(name)|, HeadDisplay(name, v), nest)
    ensures Reads(NT(UnscopedTemplateName), s, i, c, i + |HeadText(name)|, HeadDisplay(name, v), nest)
  {
    hide Eval, Says, At, PartText, PartDisplay, IsPart, Rule;
    if name.Plain? {
      UnscopedReads(s, i, name.part, c, v, nest);
    } else {
      StdReads(s, i, name.part, c, v, nest);
    }
    PrefixRule();
    Take(NT(UnscopedName), NT(Substitution), s, i, c);
    Unfold(UnscopedTemplateName, s, i, c);
  }

  lemma BareNameReads(s: string, i: nat, name: SymbolName, c: Context, v: Display, nest: int)
    requires IsName(name) && !name.Scoped? && name.arguments.NoArguments?
    requires At(s, i, HeadText(name)) && Says(c, v, nest)
    requires i < |s| && s[i] != 'N' && s[i] != 'Z' && Free(s, i + |HeadText(name)|)
    ensures Reads(NT(Name), s, i, c, i + |HeadText(name)|, HeadDisplay(name, v), nest)
  {
    hide Eval, Says, At, HeadText, HeadDisplay, IsPart, Rule, MayStart, Consuming, Mute, IsArguments;
    var j, w := i + |HeadText(name)|, HeadDisplay(name, v);
    HeadReads(s, i, name, c, v, nest);
    NoArguments2(s, j);
    NotNestedNorLocal(s, i, c);
    var c' := PassLate(NT(UnscopedTemplateName), NT(TemplateArgs), NT(UnscopedName), s, i, c, j, v, nest, w);
    HeadReads(s, i, name, c', v, nest);
    SaysOut(c, v, nest);
    SaysOut(c', v, nest);
  }

  // ---------------------------------------------------------------------------
  // Template arguments, parameters and names, in terms of each other

  lemma ListRules()
    ensures Rule(TemplateArgs) == Seq(Quiet(ArgumentList()), Emit("<>"))
    ensures ArgumentList() == Seq(Tok("I"), Seq(Plus(NT(TemplateArg)), Tok("E")))
  {
    assert ArgumentList() == Seq(Tok("I"), Seq(Plus(NT(TemplateArg)), Tok("E")));
    hide ArgumentList;
  }

  lemma ArgumentRule()
    ensures Rule(TemplateArg) == Alt(ArgumentPack(), Alt(NT(Type), Alt(NT(ExprPrimary), ExpressionArg())))
  {
    hide ArgumentPack, ExpressionArg;
  }

  lemma BracketsRead(s: string, i: nat, c: Context, v: Display, nest: int)
    requires i <= |s| && Says(c, v, nest)
    ensures Reads(Emit("<>"), s, i, c, i, TemplateDisplay(v), nest)
  {
    UnfoldEmit("<>", s, i, c);
    hide Eval;
    if v.out != "" && v.out[|v.out| - 1] == '<' { assert v.out + " " + "<>" == v.out + " <>"; }
  }

  lemma LiteralRules()
    ensures Rule(ExprPrimary) ==
      Alt(IntegerLiteral(), Alt(FloatLiteral(), Alt(ExternalName(), OldExternalName())))
    ensures IntegerLiteral() == Seq(Tok("L"), Seq(NT(Type), Seq(NT(Number), Tok("E"))))
  {
    hide FloatLiteral, ExternalName, OldExternalName;
  }

  /** A literal is no name with internal linkage. */
  lemma LiteralIsNotUnscoped(s: string, i: nat, c: Context)
    requires i + 1 < |s| && s[i] == 'L' && !IsDigit(s[i + 1]) && s[i + 1] != 'n'
    ensures Eval(NT(UnscopedName), s, i, c) == Fail(i, c)
  {
    hide Eval, Rule, MayStart;
    TokenStarts(s[i]);
    OtherStarts(s[i]);
    OtherStarts(s[i + 1]);
    assert s[i..i + 2][0] == s[i];
    TokIs("L", s, i, c);
    TokIs("St", s, i, c);
    Fails(NT(SourceName), s, i + 1, c);
    NotFirst(NT(SourceName), Opt(NT(Discriminator)), s, i + 1, c);
    NotSecond(Tok("L"), Seq(NT(SourceName), Opt(NT(Discriminator))), s, i, c, i + 1);
    InternalRule();
    Unfold(LocalSourceName, s, i, c);
    UnqualifiedRule();
    Pass(NT(SourceName), NT(LocalSourceName), s, i, c);
    Pass(NT(CtorDtorName), Alt(NT(SourceName), NT(LocalSourceName)), s, i, c);
    Pass(NT(OperatorName), Alt(NT(CtorDtorName), Alt(NT(SourceName), NT(LocalSourceName))), s, i, c);
    Unfold(UnqualifiedName, s, i, c);
    NotFirst(Tok("St"), Seq(Emit("std::"), NT(UnqualifiedName)), s, i, c);
    Skip1(NT(UnqualifiedName), StdName(), s, i, c);
    Unfold(UnscopedName, s, i, c);
  }

  lemma LiteralIsNoName(s: string, i: nat, c: Context)
    requires i + 1 < |s| && s[i] == 'L' && !IsDigit(s[i + 1]) && s[i + 1] != 'n'
    ensures Eval(NT(Name), s, i, c) == Fail(i, c)
  {
    hide Eval, Rule, MayStart;
    LiteralIsNotUnscoped(s, i, c);
    OtherStarts(s[i]);
    PrefixRule();
    Fails(NT(Substitution), s, i, c);
    Skip1(NT(UnscopedName), NT(Substitution), s, i, c);
    Unfold(UnscopedTemplateName, s, i, c);
    NotFirst(NT(UnscopedTemplateName), NT(TemplateArgs), s, i, c);
    Skip1(TemplateName(), NT(UnscopedName), s, i, c);
    NotNestedNorLocal(s, i, c);
  }

  lemma LiteralIsNotLate(s: string, i: nat, c: Context)
    requires i < |s| && s[i] == 'L'
    ensures Eval(LateTypes(), s, i, c) == Fail(i, c)
  {
    hide Eval, MayStart;
    KindStarts(s[i]);
    OtherStarts(s[i]);
    Fails(NT(Substitution), s, i, c);
    Pass(NT(PointerToMemberType), NT(Substitution), s, i, c);
    Pass(NT(ArrayType), Alt(NT(PointerToMemberType), NT(Substitution)), s, i, c);
  }

  lemma LiteralIsNotPlain(s: string, i: nat, c: Context)
    requires i + 1 < |s| && s[i] == 'L' && !IsDigit(s[i + 1]) && s[i + 1] != 'n'
    ensures Eval(PlainType(), s, i, c) == Fail(i, c)
  {
    hide Eval, Rule, MayStart, LateTypes;
    LiteralIsNoName(s, i, c);
    LiteralIsNotLate(s, i, c);
    KindStarts(s[i]);
    PlainTypeIs();
    Unfold(ClassEnumType, s, i, c);
    Skip1(NT(ClassEnumType), LateTypes(), s, i, c);
    Pass(NT(FunctionType), Alt(NT(ClassEnumType), LateTypes()), s, i, c);
    Pass(NT(BuiltinType), Alt(NT(FunctionType), Alt(NT(ClassEnumType), LateTypes())), s, i, c);
  }

  /** It is no type either. */
  lemma LiteralIsNoType(s: string, i: nat, c: Context)
    requires i + 1 < |s| && s[i] == 'L' && !IsDigit(s[i + 1]) && s[i + 1] != 'n'
    ensures Eval(NT(Type), s, i, c) == Fail(i, c)
  {
    hide Eval, Rule, MayStart, TemplateTemplateType, PlainType;
    LiteralIsNotPlain(s, i, c);
    TokenStarts(s[i]);
    Skip1(PlainType(), Alt(TemplateTemplateType(), NT(TemplateParam)), s, i, c);
    NoTemplateTemplate(s[i]);
    Pass(TemplateTemplateType(), NT(TemplateParam), s, i, c);
    Fails(NT(TemplateParam), s, i, c);
    NotQualified(s, i, c);
  }

  lemma NoTemplateTemplate(ch: char)
    requires ch != 'T' && ch != 'S'
    ensures !MayStart(TemplateTemplateType(), ch)
    ensures Consuming(TemplateTemplateType()) && Mute(TemplateTemplateType())
  {
    TemplateTemplateIsMute();
    hide MayStart, Consuming, Mute;
    KindStarts(ch);
    StartSteps(ch);
    ConsumingNames();
  }

  lemma TemplateTemplateIsMute()
    ensures Consuming(TemplateTemplateType()) && Mute(TemplateTemplateType())
  {
  }

  lemma LiteralAccepted(s: string, i: nat, letter: char, number: string, c: Context)
    requires TypeName(letter) != "" && letter != 'n' && IsOffset(number)
    requires At(s, i, "L" + ([letter] + (number + "E")))
    ensures Accepts(NT(TemplateArg), s, i, c, i + 3 + |number|)
  {
    hide Eval, Rule, At, TypeName, IsOffset, MayStart, Consuming, Mute, FloatLiteral, ExternalName, OldExternalName,
      IntegerLiteral, ExpressionArg;
    var j := i + 2 + |number|;
    AtParts(s, i, "L", [letter] + (number + "E"));
    AtParts(s, i + 1, [letter], number + "E");
    AtParts(s, i + 2, number, "E");
    AtCharacters(s, i, "L");
    AtCharacters(s, i + 1, [letter]);
    AtCharacters(s, j, "E");
    BuiltinLetter(letter);
    BuiltinAccepted(s, i + 1, c);
    var c1 := Eval(NT(Type), s, i + 1, c).c;
    NumberReads(number, s, i + 2, c1);
    TokIs("E", s, j, c1);
    TokIs("L", s, i, c);
    After(NT(Number), Tok("E"), s, i + 2, c1, j);
    AcceptSeq(NT(Type), Seq(NT(Number), Tok("E")), s, i + 1, c, i + 2, j + 1);
    After(Tok("L"), Seq(NT(Type), Seq(NT(Number), Tok("E"))), s, i, c, i + 1);
    LiteralRules();
    Take(IntegerLiteral(), Alt(FloatLiteral(), Alt(ExternalName(), OldExternalName())), s, i, c);
    Unfold(ExprPrimary, s, i, c);
    Take(NT(ExprPrimary), ExpressionArg(), s, i, c);
    LiteralIsNoType(s, i, c);
    Skip1(NT(Type), Alt(NT(ExprPrimary), ExpressionArg()), s, i, c);
    ArgumentStart(s[i]);
    ArgumentRule();
    Pass(ArgumentPack(), Alt(NT(Type), Alt(NT(ExprPrimary), ExpressionArg())), s, i, c);
    Unfold(TemplateArg, s, i, c);
  }

  lemma ArgumentAccepted(s: string, i: nat, p: Parameter, c: Context)
    requires IsArgument(p) && At(s, i, ParameterText(p)) && Free(s, i + |ParameterText(p)|)
    ensures Accepts(NT(TemplateArg), s, i, c, i + |ParameterText(p)|)
    decreases p, 2
  {
    hide Eval, At, ParameterText, IsArgument, IsParameter, MayStart, Consuming, Mute, Rule, Free;
    if p.Literal? {
      LiteralParts(p);
      LiteralAccepted(s, i, p.letter, p.number, c);
      return;
    }
    OtherIsParameter(p);
    ParameterStart(s, i, p);
    TypeAccepted(s, i, p, c);
    ArgumentStart(s[i]);
    ArgumentRule();
    Take(NT(Type), Alt(NT(ExprPrimary), ExpressionArg()), s, i, c);
    Pass(ArgumentPack(), Alt(NT(Type), Alt(NT(ExprPrimary), ExpressionArg())), s, i, c);
    Unfold(TemplateArg, s, i, c);
  }

  lemma LiteralParts(p: Parameter)
    requires p.Literal? && IsArgument(p)
    ensures TypeName(p.letter) != "" && p.letter != 'n' && IsOffset(p.number)
    ensures ParameterText(p) == "L" + ([p.letter] + (p.number + "E"))
  {
  }

  lemma OtherIsParameter(p: Parameter)
    requires !p.Literal?
    ensures IsArgument(p) <==> IsParameter(p)
  {
  }

  lemma ParametersAreArguments(ps: seq<Parameter>)
    requires AreParameters(ps)
    ensures AreArguments(ps)
    ensures ps != [] ==> IsParameter(ps[0]) && AreParameters(ps[1..])
  {
    hide IsParameter, IsArgument;
    forall k | 0 <= k < |ps| ensures IsArgument(ps[k]) { IsNoLiteral(ps[k]); OtherIsParameter(ps[k]); }
  }

  lemma IsNoLiteral(p: Parameter)
    requires IsParameter(p)
    ensures !p.Literal? && IsArgument(p)
  {
  }

  lemma {:induction false} ManyArgumentsAccepted(s: string, i: nat, ps: seq<Parameter>, c: Context)
    requires ParametersAt(s, i, ps) && i + |ParametersText(ps)| < |s| && s[i + |ParametersText(ps)|] == 'E'
    ensures Accepts(Many(NT(TemplateArg)), s, i, c, i + |ParametersText(ps)|)
    decreases ps, 1
  {
    hide Eval, ParametersAt, ParameterText, IsArgument, At, MayStart, Rule;
    UnfoldMany(NT(TemplateArg), s, i, c);
    if ps == [] {
      ParametersBegin(s, i, ps);
      ArgumentStart(s[i]);
      Fails(NT(TemplateArg), s, i, c);
    } else {
      ParametersSplit(s, i, ps);
      ArgumentAccepted(s, i, ps[0], c);
      ManyArgumentsAccepted(s, i + |ParameterText(ps[0])|, ps[1..], Eval(NT(TemplateArg), s, i, c).c);
    }
  }

  lemma SomeArgumentsAccepted(s: string, i: nat, list: seq<Parameter>, c: Context)
    requires ParametersAt(s, i, list) && list != []
    requires i + |ParametersText(list)| < |s| && s[i + |ParametersText(list)|] == 'E'
    ensures Accepts(Plus(NT(TemplateArg)), s, i, c, i + |ParametersText(list)|)
    decreases list, 2
  {
    hide Eval, ParametersAt, ParametersText, ParameterText, IsArgument, At;
    ParametersSplit(s, i, list);
    var j := i + |ParameterText(list[0])|;
    ArgumentAccepted(s, i, list[0], c);
    ManyArgumentsAccepted(s, j, list[1..], Eval(NT(TemplateArg), s, i, c).c);
    AcceptSeq(NT(TemplateArg), Many(NT(TemplateArg)), s, i, c, j, i + |ParametersText(list)|);
  }

  lemma ArgumentListAccepted(s: string, i: nat, list: seq<Parameter>, c: Context)
    requires list != [] && AreArguments(list) && At(s, i, ListText(list))
    ensures Accepts(ArgumentList(), s, i, c, i + |ListText(list)|)
    decreases list, 3
  {
    hide Eval, ParametersText, AreArguments, At, ArgumentList;
    var w := ParametersText(list);
    var e := i + 1 + |w|;
    AtParts(s, i, "I", w + "E");
    AtParts(s, i + 1, w, "E");
    AtCharacters(s, e, "E");
    assert ParametersAt(s, i + 1, list);
    hide ParametersAt;
    AcceptTok("I", s, i, c);
    SomeArgumentsAccepted(s, i + 1, list, c);
    AcceptTok("E", s, e, Eval(Plus(NT(TemplateArg)), s, i + 1, c).c);
    AcceptSeq(Plus(NT(TemplateArg)), Tok("E"), s, i + 1, c, e, e + 1);
    AcceptSeq(Tok("I"), Seq(Plus(NT(TemplateArg)), Tok("E")), s, i, c, i + 1, e + 1);
    ListRules();
  }

  /** Template arguments are read whole, and shown as a pair of brackets. */
  lemma ListReads(s: string, i: nat, list: seq<Parameter>, c: Context, v: Display, nest: int)
    requires list != [] && AreArguments(list) && At(s, i, ListText(list)) && Says(c, v, nest)
    ensures Reads(NT(TemplateArgs), s, i, c, i + |ListText(list)|, TemplateDisplay(v), nest)
    decreases list, 4
  {
    hide Eval, Rule, At, ListText, AreParameters, Says, NestNeutral, ArgumentList;
    var j := i + |ListText(list)|;
    ArgumentListAccepted(s, i, list, c.(append := false));
    ArgumentPartsKeep();
    QuietReads(ArgumentList(), s, i, c, j, v, nest);
    var c1 := Eval(Quiet(ArgumentList()), s, i, c).c;
    BracketsRead(s, j, c1, v, nest);
    Then(Quiet(ArgumentList()), Emit("<>"), s, i, c, j, v, nest, j, TemplateDisplay(v), nest);
    ListRules();
    ReadsRule(TemplateArgs, s, i, c, j, TemplateDisplay(v), nest);
  }

  lemma {:induction false} TypesAccepted(s: string, i: nat, ps: seq<Parameter>, c: Context)
    requires ParametersAt(s, i, ps) && AreParameters(ps)
    ensures Accepts(Many(NT(Type)), s, i, c, i + |ParametersText(ps)|)
    decreases ps, 1
  {
    hide Eval, ParametersAt, ParameterText, AreParameters, IsParameter, At, MayStart, Rule;
    ParametersBegin(s, i, ps);
    ParametersAreArguments(ps);
    if ps == [] {
      UnfoldMany(NT(Type), s, i, c);
      if i < |s| { TypeStarts(s[i]); }
      Fails(NT(Type), s, i, c);
    } else {
      ParametersSplit(s, i, ps);
      UnfoldMany(NT(Type), s, i, c);
      TypeAccepted(s, i, ps[0], c);
      TypesAccepted(s, i + |ParameterText(ps[0])|, ps[1..], Eval(NT(Type), s, i, c).c);
    }
  }

  lemma SomeTypesAccepted(s: string, i: nat, ps: seq<Parameter>, c: Context)
    requires ParametersAt(s, i, ps) && AreParameters(ps) && ps != []
    ensures Accepts(Plus(NT(Type)), s, i, c, i + |ParametersText(ps)|)
    decreases ps, 2
  {
    hide Eval, ParametersAt, AreParameters, At, ParameterText, ParametersText, IsParameter, IsArgument;
    ParametersSplit(s, i, ps);
    ParametersAreArguments(ps);
    var j := i + |ParameterText(ps[0])|;
    TypeAccepted(s, i, ps[0], c);
    TypesAccepted(s, j, ps[1..], Eval(NT(Type), s, i, c).c);
    AcceptSeq(NT(Type), Many(NT(Type)), s, i, c, j, i + |ParametersText(ps)|);
  }

  /** Parameters are read whole, and shown as a pair of parentheses. */
  lemma ParametersRead(s: string, i: nat, ps: seq<Parameter>, c: Context, v: Display, nest: int)
    requires ParametersAt(s, i, ps) && AreParameters(ps) && ps != [] && Says(c, v, nest)
    ensures Reads(NT(BareFunctionType), s, i, c, i + |ParametersText(ps)|, v.(out := v.out + "()"), nest)
    ensures Eval(NT(BareFunctionType), s, i, c).c.peak <= Max(c.peak, |v.out| + 2)
    decreases ps, 3
  {
    hide Eval, Says, Rule, ParametersAt, AreParameters, ParametersText, NestNeutral;
    var all, e := Plus(NT(Type)), i + |ParametersText(ps)|;
    SomeTypesAccepted(s, i, ps, c.(append := false));
    KeepSteps();
    QuietReads(all, s, i, c, e, v, nest);
    EmitReads("()", s, e, Eval(Quiet(all), s, i, c).c, v, nest);
    Then(Quiet(all), Emit("()"), s, i, c, e, v, nest, e, v.(out := v.out + "()"), nest);
    FunctionTypeRules();
    Sequence2(BareFunctionType, Quiet(all), Emit("()"), s, i, c);
    ReadsRule(BareFunctionType, s, i, c, e, v.(out := v.out + "()"), nest);
    SaysOut(Eval(Quiet(all), s, i, c).c, v, nest);
  }

  lemma BareTypeAccepted(s: string, i: nat, ps: seq<Parameter>, c: Context)
    requires ParametersAt(s, i, ps) && AreParameters(ps) && ps != []
    ensures Accepts(NT(BareFunctionType), s, i, c, i + |ParametersText(ps)|)
    decreases ps, 4
  {
    hide Eval, ParametersAt;
    SaysAtFirst(c.rewound);
    ParametersRead(s, i, ps, START.(rewound := c.rewound), BLANK, -1);
    AcceptedAnywhere(NT(BareFunctionType), s, i, i + |ParametersText(ps)|, c);
  }

  /** Every type of a parameter is read whole. */
  lemma {:induction false} TypeAccepted(s: string, i: nat, p: Parameter, c: Context)
    requires IsParameter(p) && At(s, i, ParameterText(p)) && Free(s, i + |ParameterText(p)|)
    ensures Accepts(NT(Type), s, i, c, i + |ParameterText(p)|)
    decreases p, 1
  {
    hide Eval, At, NameText, IsName, TypeName, PartText, IsPart, ParametersText, AreParameters, Says, Free, Accepts;
    match p
    case Builtin(letter) =>
      AtCharacters(s, i, [letter]);
      BuiltinAccepted(s, i, c);
    case OfClass(name) => ClassAccepted(s, i, name, c);
    case Indirect(letter, to) =>
      AtParts(s, i, [letter], ParameterText(to));
      AtCharacters(s, i, [letter]);
      TypeAccepted(s, i + 1, to, c);
      IndirectAccepted(s, i, c, i + |ParameterText(p)|);
    case Qualified(q, to) =>
      AtParts(s, i, q, ParameterText(to));
      ParameterStart(s, i + |q|, to);
      TypeAccepted(s, i + |q|, to, c);
      QualifiedAccepted(q, s, i, c, i + |ParameterText(p)|);
    case FunctionOf(ps) => FunctionOfAccepted(s, i, ps, c);
    case ArrayOf(bound, to) =>
      var head := "A" + (bound + "_");
      assert ParameterText(p) == head + ParameterText(to);
      AtParts(s, i, head, ParameterText(to));
      TypeAccepted(s, i + 2 + |bound|, to, c);
      ArrayAccepted(bound, s, i, c, i + |ParameterText(p)|);
    case MemberOf(_, _) => MemberOfAccepted(s, i, p, c);
    case Short(part) =>
      if part.Hole? {
        HoleLength(part.mark);
        HoleAccepted(s, i, part.mark, c);
      } else {
        ShortAccepted(s, i, part, c);
      }
  }

  lemma HoleLength(mark: string)
    ensures |PartText(Hole(mark))| == |mark| + 2
  {
  }

  lemma BuiltinAccepted(s: string, i: nat, c: Context)
    requires i < |s| && TypeName(s[i]) != ""
    ensures Accepts(NT(Type), s, i, c, i + 1)
  {
    hide Eval, TypeName;
    SaysAtFirst(c.rewound);
    BuiltinReads(s, i, START.(rewound := c.rewound), BLANK, -1);
    AcceptedAnywhere(NT(Type), s, i, i + 1, c);
  }

  lemma ClassAccepted(s: string, i: nat, name: SymbolName, c: Context)
    requires IsClassName(name) && At(s, i, NameText(name)) && Free(s, i + |NameText(name)|)
    ensures Accepts(NT(Type), s, i, c, i + |NameText(name)|)
    decreases name, 2
  {
    hide Eval, At, NameText, IsName, Free;
    var c0 := START.(rewound := c.rewound);
    NameStart(s, i, name);
    SaysAtFirst(c.rewound);
    NameReads(s, i, name, c0, BLANK, -1);
    TypeIsName(s, i, c0);
    AcceptedAnywhere(NT(Type), s, i, i + |NameText(name)|, c);
  }

  lemma FunctionOfAccepted(s: string, i: nat, ps: seq<Parameter>, c: Context)
    requires ps != [] && AreParameters(ps) && At(s, i, "F" + (ParametersText(ps) + "E"))
    ensures Accepts(NT(Type), s, i, c, i + |ParametersText(ps)| + 2)
    decreases ps, 5
  {
    hide Eval, At, ParametersText, AreParameters;
    var e := i + 1 + |ParametersText(ps)|;
    AtParts(s, i, "F", ParametersText(ps) + "E");
    AtParts(s, i + 1, ParametersText(ps), "E");
    AtCharacters(s, e, "E");
    ParametersAreArguments(ps);
    assert ParametersAt(s, i + 1, ps);
    hide ParametersAt, AreArguments, ParameterText, IsArgument, IsParameter, Accepts;
    ParametersSplit(s, i + 1, ps);
    BareTypeAccepted(s, i + 1, ps, c);
    FunctionAccepted(s, i, c, e);
  }

  lemma MemberParts(p: Parameter)
    requires p.MemberOf? && IsParameter(p)
    ensures IsParameter(p.owner) && IsParameter(p.to)
    ensures ParameterText(p) == "M" + (ParameterText(p.owner) + ParameterText(p.to))
  {
  }

  lemma MemberOfAccepted(s: string, i: nat, p: Parameter, c: Context)
    requires p.MemberOf? && IsParameter(p) && At(s, i, ParameterText(p)) && Free(s, i + |ParameterText(p)|)
    ensures Accepts(NT(Type), s, i, c, i + |ParameterText(p)|)
    decreases p, 0
  {
    hide Eval, At, ParameterText, IsParameter;
    MemberParts(p);
    var owner, to := p.owner, p.to;
    var j := i + 1 + |ParameterText(owner)|;
    AtParts(s, i, "M", ParameterText(owner) + ParameterText(to));
    AtParts(s, i + 1, ParameterText(owner), ParameterText(to));
    ParameterStart(s, j, to);
    TypeAccepted(s, i + 1, owner, c);
    TypeAccepted(s, j, to, Eval(NT(Type), s, i + 1, c).c);
    MemberAccepted(s, i, c, j, j + |ParameterText(to)|);
  }

  /** Every name is read whole, and shown. */
  lemma {:induction false} NameReads(s: string, i: nat, name: SymbolName, c: Context, v: Display, nest: int)
    requires IsName(name) && At(s, i, NameText(name)) && Free(s, i + |NameText(name)|) && Says(c, v, nest)
    ensures Reads(NT(Name), s, i, c, i + |NameText(name)|, NameDisplay(name, v), nest)
    decreases name, 1
  {
    hide Eval, At, PartText, PartDisplay, IsPart, ListText, AreParameters, Says, Free, Rule, ScopeText, ScopeDisplay,
      IsScope;
    NameStart(s, i, name);
    if name.Scoped? {
      NestedNameReads(s, i, name.qualifiers, name.scope, c, v, nest);
      PrefixRule();
      Take(NT(NestedName), Alt(NT(LocalName), Alt(TemplateName(), NT(UnscopedName))), s, i, c);
      Unfold(Name, s, i, c);
    } else if name.arguments.NoArguments? {
      assert NameText(name) == HeadText(name);
      BareNameReads(s, i, name, c, v, nest);
    } else {
      TemplateReads(s, i, name, c, v, nest);
    }
  }

  lemma TemplateParts(name: SymbolName, v: Display)
    requires IsName(name) && !name.Scoped? && name.arguments.Arguments?
    ensures var list := name.arguments.list;
      && list != [] && AreArguments(list) && IsPart(name.part) && (IsUnqualified(name.part) || IsShort(name.part))
      && (!IsUnqualified(name.part) ==> name.Plain?)
      && NameText(name) == HeadText(name) + ListText(list)
      && NameDisplay(name, v) == TemplateDisplay(HeadDisplay(name, v))
  {
    hide PartText, PartDisplay, IsPart, AreArguments, ListText, TemplateDisplay;
  }

  /** The name before the template arguments. */
  lemma TemplateHeadReads(s: string, i: nat, name: SymbolName, c: Context, v: Display, nest: int)
    requires IsName(name) && !name.Scoped? && name.arguments.Arguments? && At(s, i, HeadText(name)) && Says(c, v, nest)
    requires var j := i + |HeadText(name)|; j < |s| && s[j] == 'I'
    ensures Reads(NT(UnscopedTemplateName), s, i, c, i + |HeadText(name)|, HeadDisplay(name, v), nest)
  {
    TemplateParts(name, v);
    hide Eval, At, PartText, PartDisplay, IsPart, IsName, AreArguments, Says, Rule, ParametersText;
    if IsUnqualified(name.part) {
      HeadReads(s, i, name, c, v, nest);
    } else {
      ShortTemplateReads(s, i, name.part, c, v, nest);
    }
  }

  lemma TemplateReads(s: string, i: nat, name: SymbolName, c: Context, v: Display, nest: int)
    requires IsName(name) && !name.Scoped? && name.arguments.Arguments? && At(s, i, NameText(name)) && Says(c, v, nest)
    requires i < |s| && s[i] != 'N' && s[i] != 'Z'
    ensures Reads(NT(Name), s, i, c, i + |NameText(name)|, NameDisplay(name, v), nest)
    decreases name, 0
  {
    hide Eval, At, NameText, NameDisplay, HeadText, HeadDisplay, TemplateDisplay, IsPart, IsName, AreArguments, Says,
      Rule, ParametersText;
    TemplateParts(name, v);
    var list, w := name.arguments.list, HeadDisplay(name, v);
    var j := i + |HeadText(name)|;
    var e := j + |ListText(list)|;
    AtParts(s, i, HeadText(name), ListText(list));
    AtParts(s, j, "I", ParametersText(list) + "E");
    AtCharacters(s, j, "I");
    TemplateHeadReads(s, i, name, c, v, nest);
    ListReads(s, j, list, Eval(NT(UnscopedTemplateName), s, i, c).c, w, nest);
    Then(NT(UnscopedTemplateName), NT(TemplateArgs), s, i, c, j, w, nest, e, TemplateDisplay(w), nest);
    Take(TemplateName(), NT(UnscopedName), s, i, c);
    NotNestedNorLocal(s, i, c);
  }

  /** The inside of a nested name. */
  lemma {:induction false} ScopeReads(s: string, i: nat, scope: Scope, inside: bool, c: Context, v: Display, nest: nat)
    requires IsScope(scope, inside) && At(s, i, ScopeText(scope)) && Says(c, v, nest)
    requires var e := i + |ScopeText(scope)|; e < |s| && s[e] == 'E'
    ensures Reads(NT(Prefix), s, i, c, i + |ScopeText(scope)|, ScopeDisplay(scope, nest, v), nest + Depth(scope))
    decreases scope, 1
  {
    hide Eval, At, PartsText, PartsDisplay, AreParameters, Says, Rule, Component, IsPart, Reads;
    match scope
    case Parts(parts) =>
      if parts == [] {
        NoParts(nest, v);
        EmptyPrefixReads(s, i, c, v, nest);
      } else {
        var e, w := i + |PartsText(parts)|, PartsDisplay(parts, nest, v);
        assert PartsAt(s, i, parts);
        PlusPartsRead(s, i, parts, c, v, nest);
        var c1 := Eval(Plus(Component()), s, i, c).c;
        ReadsSays(Plus(Component()), s, i, c, e, w, nest + |parts|);
        NoArgumentsRead(s, e, c1, w, nest + |parts|);
        PrefixOf(s, i, c, e, w, nest + |parts|, e, w, nest + |parts|);
      }
    case Templated(_, _, _) => TemplatedReads(s, i, scope, c, v, nest);
  }

  lemma NoParts(nest: nat, v: Display)
    ensures PartsText([]) == "" && PartsDisplay([], nest, v) == v
  {
  }

  lemma ReadsSays(g: Grammar, s: string, i: nat, c: Context, j: nat, v: Display, nest: int)
    requires Reads(g, s, i, c, j, v, nest)
    ensures i <= |s| && Says(Eval(g, s, i, c).c, v, nest)
  {
    hide Eval;
  }

  lemma TemplatedParts(scope: Scope, nest: nat, v: Display)
    requires scope.Templated? && IsScope(scope, true)
    ensures scope.parts != [] && AreParts(scope.parts) && scope.list != [] && AreArguments(scope.list)
    ensures IsScope(scope.more, true) && Depth(scope) == |scope.parts| + Depth(scope.more)
    ensures ScopeText(scope) == PartsText(scope.parts) + (ListText(scope.list) + ScopeText(scope.more))
    ensures ScopeDisplay(scope, nest, v) ==
      ScopeDisplay(scope.more, nest + |scope.parts|, TemplateDisplay(PartsDisplay(scope.parts, nest, v)))
  {
    hide PartsText, PartsDisplay, ListText, AreParts, AreArguments, TemplateDisplay;
  }

  lemma PartsBeforeList(s: string, i: nat, parts: seq<Part>, list: seq<Parameter>)
    requires AreParts(parts) && At(s, i, PartsText(parts)) && At(s, i + |PartsText(parts)|, ListText(list))
    ensures PartsAt(s, i, parts)
  {
    hide At, AreParts, PartsText, ParametersText;
    var j := i + |PartsText(parts)|;
    AtParts(s, j, "I", ParametersText(list) + "E");
    AtCharacters(s, j, "I");
  }

  lemma TemplatedReads(s: string, i: nat, scope: Scope, c: Context, v: Display, nest: nat)
    requires scope.Templated? && IsScope(scope, true) && At(s, i, ScopeText(scope)) && Says(c, v, nest)
    requires var e := i + |ScopeText(scope)|; e < |s| && s[e] == 'E'
    ensures Reads(NT(Prefix), s, i, c, i + |ScopeText(scope)|, ScopeDisplay(scope, nest, v), nest + Depth(scope))
    decreases scope, 0
  {
    hide Eval, At, PartsText, PartsDisplay, AreParameters, AreParts, Says, Rule, Component, Reads, ScopeText,
      ScopeDisplay, ListText, IsScope, Depth, PartsAt, TemplateDisplay;
    TemplatedParts(scope, nest, v);
    var parts, list, more := scope.parts, scope.list, scope.more;
    var n, w := nest + |parts|, PartsDisplay(parts, nest, v);
    var j := i + |PartsText(parts)|;
    var k := j + |ListText(list)|;
    var e, w1 := k + |ScopeText(more)|, TemplateDisplay(w);
    var w2, n2 := ScopeDisplay(more, n, w1), n + Depth(more);
    AtParts(s, i, PartsText(parts), ListText(list) + ScopeText(more));
    AtParts(s, j, ListText(list), ScopeText(more));
    PartsBeforeList(s, i, parts, list);
    PlusPartsRead(s, i, parts, c, v, nest);
    var c1 := Eval(Plus(Component()), s, i, c).c;
    ReadsSays(Plus(Component()), s, i, c, j, w, n);
    ListReads(s, j, list, c1, w, n);
    ReadsSays(NT(TemplateArgs), s, j, c1, k, w1, n);
    ScopeReads(s, k, more, true, Eval(NT(TemplateArgs), s, j, c1).c, w1, n);
    Then(NT(TemplateArgs), NT(Prefix), s, j, c1, k, w1, n, e, w2, n2);
    OptReads(ArgumentsAndPrefix(), s, j, c1, e, w2, n2);
    PrefixOf(s, i, c, j, w, n, e, w2, n2);
  }

  lemma NestedNameReads(s: string, i: nat, q: string, scope: Scope, c: Context, v: Display, nest: int)
    requires AreQualifiers(q) && IsScope(scope, false) && At(s, i, "N" + (q + (ScopeText(scope) + "E")))
    requires Says(c, v, nest)
    ensures Reads(NT(NestedName), s, i, c, i + |q| + |ScopeText(scope)| + 2, ScopeDisplay(scope, 0, v), nest)
    decreases scope, 2
  {
    hide Eval, Rule, At, ScopeText, ScopeDisplay, IsScope, AreQualifiers;
    var w, j := ScopeDisplay(scope, 0, v), i + 1 + |q|;
    var inner, e := Seq(Opt(NT(CVQualifiers)), NT(Prefix)), j + |ScopeText(scope)|;
    AtParts(s, i, "N", q + (ScopeText(scope) + "E"));
    AtParts(s, i + 1, q, ScopeText(scope) + "E");
    AtParts(s, j, ScopeText(scope), "E");
    AtCharacters(s, e, "E");
    ScopeStart(s, j, scope);
    TokReads("N", s, i, c, v, nest);
    var c0 := c.(nest := 0);
    QualifiersShowNothing(q, s, i + 1, c0, v);
    ScopeReads(s, j, scope, false, c0, v, 0);
    Then(Opt(NT(CVQualifiers)), NT(Prefix), s, i + 1, c0, j, v, 0, e, w, Depth(scope));
    NestedReads(inner, s, i + 1, c, e, v, w, nest, Depth(scope));
    TokReads("E", s, e, Eval(Nested(inner), s, i + 1, c).c, w, nest);
    Then(Nested(inner), Tok("E"), s, i + 1, c, e, w, nest, e + 1, w, nest);
    Then(Tok("N"), Seq(Nested(inner), Tok("E")), s, i, c, i + 1, v, nest, e + 1, w, nest);
    PrefixRule();
    ReadsRule(NestedName, s, i, c, e + 1, w, nest);
  }

  lemma QualifiersShowNothing(q: string, s: string, i: nat, c: Context, v: Display)
    requires AreQualifiers(q) && At(s, i, q) && i + |q| < |s| && Says(c, v, 0)
    requires s[i + |q|] != 'r' && s[i + |q|] != 'V' && s[i + |q|] != 'K'
    ensures Reads(Opt(NT(CVQualifiers)), s, i, c, i + |q|, v, 0)
    ensures Eval(Opt(NT(CVQualifiers)), s, i, c).c == c
  {
    hide Eval, AreQualifiers, At;
    QualifiersRead(q, s, i, c);
    UnfoldOpt(NT(CVQualifiers), s, i, c);
  }

  lemma ScopeStart(s: string, i: nat, scope: Scope)
    requires IsScope(scope, false) && At(s, i, ScopeText(scope))
    ensures i < |s| && s[i] != 'r' && s[i] != 'V' && s[i] != 'K'
  {
    hide At, PartText, IsPart, ListText, AreParameters;
    var parts := scope.parts;
    var tail := if scope.Parts? then "" else ListText(scope.list) + ScopeText(scope.more);
    assert ScopeText(scope) == PartsText(parts) + tail;
    AtParts(s, i, PartsText(parts), tail);
    AtParts(s, i, PartText(parts[0]), PartsText(parts[1..]));
    PartStart(s, i, parts[0]);
    if parts[0].Conversion? {
      ConversionStart(s, i, parts[0].letter);
    }
  }

  lemma ConversionStart(s: string, i: nat, letter: char)
    requires At(s, i, PartText(Conversion(letter)))
    ensures i < |s| && s[i] == 'c'
  {
    hide At;
    AtCharacters(s, i, "cv" + [letter]);
  }

  // ---------------------------------------------------------------------------
  // Whole symbols

  lemma EncodingRules()
    ensures Rule(Encoding) == Alt(Seq(NT(Name), NT(BareFunctionType)), Alt(NT(Name), NT(SpecialName)))
    ensures Rule(MangledName) == Seq(Tok("_Z"), NT(Encoding))
  {
  }

  /** Where a symbol ends. */
  ghost predicate Ends(s: string, j: nat) { j <= |s| && (j < |s| ==> Closes(s[j])) }

  lemma FunctionReads(s: string, i: nat, name: SymbolName, ps: seq<Parameter>, c: Context, nest: int)
    requires IsName(name) && ps != [] && AreParameters(ps) && At(s, i, NameText(name) + ParametersText(ps))
    requires Ends(s, i + |NameText(name)| + |ParametersText(ps)|) && Says(c, BLANK, nest)
    ensures var w := NameDisplay(name, BLANK); var v := w.(out := w.out + "()");
      && Reads(NT(Encoding), s, i, c, i + |NameText(name)| + |ParametersText(ps)|, v, nest)
      && Eval(NT(Encoding), s, i, c).c.peak <= Max(c.peak, |v.out|)
  {
    hide Eval, Says, Rule, At, NameText, NameDisplay, ParametersText, AreParameters, IsName;
    var j, w := i + |NameText(name)|, NameDisplay(name, BLANK);
    var e, v := j + |ParametersText(ps)|, w.(out := w.out + "()");
    AtParts(s, i, NameText(name), ParametersText(ps));
    ParametersAreArguments(ps);
    assert ParametersAt(s, j, ps);
    hide ParametersAt;
    ParametersSplit(s, j, ps);
    NameReads(s, i, name, c, BLANK, nest);
    ParametersRead(s, j, ps, Eval(NT(Name), s, i, c).c, w, nest);
    Then(NT(Name), NT(BareFunctionType), s, i, c, j, w, nest, e, v, nest);
    Unfold2(NT(Name), NT(BareFunctionType), s, i, c);
    EncodingRules();
    Take(Seq(NT(Name), NT(BareFunctionType)), Alt(NT(Name), NT(SpecialName)), s, i, c);
    Unfold(Encoding, s, i, c);
  }

  /** A name that no parameters follow. */
  lemma AloneReads(s: string, i: nat, c: Context, j: nat, v: Display, nest: int)
    requires Says(c, BLANK, nest) && Ends(s, j)
    requires forall c' :: Says(c', BLANK, nest) ==> Reads(NT(Name), s, i, c', j, v, nest)
    ensures Reads(NT(Encoding), s, i, c, j, v, nest)
  {
    hide Eval, Rule, MayStart, Consuming, Mute;
    BareTypeConsumes();
    if j < |s| { TypeStarts(s[j]); }
    var others := Alt(NT(Name), NT(SpecialName));
    var c' := PassLate(NT(Name), NT(BareFunctionType), others, s, i, c, j, BLANK, nest, v);
    Take(NT(Name), NT(SpecialName), s, i, c');
    EncodingRules();
    Unfold(Encoding, s, i, c);
  }

  lemma BareTypeConsumes()
    ensures Consuming(NT(BareFunctionType)) && Mute(NT(BareFunctionType))
  {
  }

  lemma LocalRules()
    ensures Rule(LocalName) == Alt(LocalEntityName(), LocalString())
    ensures LocalEntityName() == Seq(Tok("Z"), Seq(NT(Encoding), Seq(Tok("E"), LocalEntity())))
    ensures LocalEntity() == Seq(Emit("::"), Seq(NT(Name), Opt(NT(Discriminator))))
  {
    hide LocalString;
  }

  /** The entity behind the function it is local in. */
  lemma EntityReads(s: string, i: nat, name: SymbolName, c: Context, v: Display, nest: int)
    requires IsName(name) && At(s, i, NameText(name)) && Ends(s, i + |NameText(name)|) && Says(c, v, nest)
    ensures Reads(LocalEntity(), s, i, c, i + |NameText(name)|, NameDisplay(name, v.(out := v.out + "::")), nest)
  {
    hide Eval, Says, Rule, At, NameText, NameDisplay, IsName, MayStart, LocalEntity;
    var j, v1 := i + |NameText(name)|, v.(out := v.out + "::");
    var w := NameDisplay(name, v1);
    NameStart(s, i, name);
    EmitReads("::", s, i, c, v, nest);
    var c1 := Eval(Emit("::"), s, i, c).c;
    NameReads(s, i, name, c1, v1, nest);
    if j < |s| { DiscriminatorStart(s[j]); }
    OptPasses(NT(Discriminator), s, j, Eval(NT(Name), s, i, c1).c, w, nest);
    Then(NT(Name), Opt(NT(Discriminator)), s, i, c1, j, w, nest, j, w, nest);
    Then(Emit("::"), Seq(NT(Name), Opt(NT(Discriminator))), s, i, c, i, v1, nest, j, w, nest);
    LocalRules();
  }

  lemma WithinIs(outer: Symbol, name: SymbolName)
    ensures SymbolText(Within(outer, name)) == "Z" + (SymbolText(outer) + ("E" + NameText(name)))
    ensures var v := SymbolDisplay(outer);
      SymbolDisplay(Within(outer, name)) == NameDisplay(name, v.(out := v.out + "::"))
  {
  }

  lemma ClosesAtE(s: string, j: nat)
    requires j < |s| && s[j] == 'E'
    ensures Ends(s, j)
  {
  }

  lemma WithinReads(s: string, i: nat, outer: Symbol, name: SymbolName, c: Context, nest: int)
    requires IsSymbol(outer) && IsName(name) && At(s, i, SymbolText(Within(outer, name)))
    requires Ends(s, i + |SymbolText(Within(outer, name))|) && Says(c, BLANK, nest)
    ensures Reads(NT(Name), s, i, c, i + |SymbolText(Within(outer, name))|, SymbolDisplay(Within(outer, name)), nest)
    decreases outer, 1
  {
    hide Eval, Says, Rule, At, NameText, NameDisplay, IsName, IsSymbol, MayStart, LocalEntity, LocalEntityName,
      LocalString, SymbolText, SymbolDisplay, Slack, Ends;
    WithinIs(outer, name);
    var j := i + 1 + |SymbolText(outer)|;
    var v, e := SymbolDisplay(outer), j + 1 + |NameText(name)|;
    var w := NameDisplay(name, v.(out := v.out + "::"));
    AtParts(s, i, "Z", SymbolText(outer) + ("E" + NameText(name)));
    AtParts(s, i + 1, SymbolText(outer), "E" + NameText(name));
    AtParts(s, j, "E", NameText(name));
    AtCharacters(s, j, "E");
    AtCharacters(s, i, "Z");
    TokReads("Z", s, i, c, BLANK, nest);
    ClosesAtE(s, j);
    SymbolReads(s, i + 1, outer, c, nest);
    var c1 := Eval(NT(Encoding), s, i + 1, c).c;
    TokReads("E", s, j, c1, v, nest);
    EntityReads(s, j + 1, name, c1, v, nest);
    Then(Tok("E"), LocalEntity(), s, j, c1, j + 1, v, nest, e, w, nest);
    Then(NT(Encoding), Seq(Tok("E"), LocalEntity()), s, i + 1, c, j, v, nest, e, w, nest);
    Then(Tok("Z"), Seq(NT(Encoding), Seq(Tok("E"), LocalEntity())), s, i, c, i + 1, BLANK, nest, e, w, nest);
    LocalRules();
    Take(LocalEntityName(), LocalString(), s, i, c);
    Unfold(LocalName, s, i, c);
    TokenStarts(s[i]);
    PrefixRule();
    Take(NT(LocalName), Alt(TemplateName(), NT(UnscopedName)), s, i, c);
    Pass(NT(NestedName), Alt(NT(LocalName), Alt(TemplateName(), NT(UnscopedName))), s, i, c);
    Unfold(Name, s, i, c);
  }

  // Special names

  lemma SpecialRules()
    ensures Rule(SpecialName) == Alt(AbiSpecialName(), GnuSpecialName())
    ensures AbiSpecialName() == Alt(Alt(VTableName(), CovariantThunk()), Alt(GuardVariable(), Thunk()))
    ensures VTableName() == Seq(Tok("T"), Seq(Class("VTIS"), NT(Type))) && GuardVariable() == Seq(Tok("GV"), NT(Name))
    ensures CovariantThunk() == Seq(Tok("Tc"), Seq(NT(CallOffset), Seq(NT(CallOffset), NT(Encoding))))
    ensures Thunk() == Seq(Tok("T"), Seq(NT(CallOffset), NT(Encoding)))
  {
    hide GnuSpecialName;
  }

  lemma OffsetRule()
    ensures Rule(CallOffset) ==
      Alt(Seq(Tok("h"), Seq(NT(NVOffset), Tok("_"))), Seq(Tok("v"), Seq(NT(VOffset), Tok("_"))))
  {
  }

  lemma OffsetRules()
    ensures Rule(CallOffset) ==
      Alt(Seq(Tok("h"), Seq(NT(NVOffset), Tok("_"))), Seq(Tok("v"), Seq(NT(VOffset), Tok("_"))))
    ensures Rule(NVOffset) == NT(Number) && Rule(VOffset) == Seq(NT(Number), Seq(Tok("_"), NT(Number)))
  {
    OffsetRule();
  }

  /** What starts with T or G is no name. */
  lemma SpecialIs(s: string, i: nat, c: Context)
    requires i < |s| && (s[i] == 'T' || s[i] == 'G')
    ensures Eval(NT(Encoding), s, i, c) == Eval(Alt(AbiSpecialName(), GnuSpecialName()), s, i, c)
  {
    hide Eval, Rule, MayStart, AbiSpecialName, GnuSpecialName, Consuming, Mute;
    NameRuleStart(s[i]);
    StartSteps(s[i]);
    EncodingConsumes();
    SpecialRules();
    Unfold(SpecialName, s, i, c);
    EncodingRules();
    Pass(NT(Name), NT(SpecialName), s, i, c);
    Pass(Seq(NT(Name), NT(BareFunctionType)), Alt(NT(Name), NT(SpecialName)), s, i, c);
    Unfold(Encoding, s, i, c);
  }

  lemma AbiIs(s: string, i: nat, c: Context)
    requires i < |s| && (s[i] == 'T' || s[i] == 'G') && Eval(AbiSpecialName(), s, i, c).ok
    ensures Eval(NT(Encoding), s, i, c) == Eval(AbiSpecialName(), s, i, c)
  {
    hide Eval, Rule, AbiSpecialName, GnuSpecialName;
    SpecialIs(s, i, c);
    Take(AbiSpecialName(), GnuSpecialName(), s, i, c);
  }

  lemma EncodingConsumes()
    ensures Consuming(NT(Name)) && Mute(NT(Name))
    ensures Consuming(Seq(NT(Name), NT(BareFunctionType))) && Mute(Seq(NT(Name), NT(BareFunctionType)))
  {
  }

  lemma TypeDataReads(s: string, i: nat, letter: char, name: SymbolName, c: Context, nest: int)
    requires letter in "VTIS" && IsClassName(name) && At(s, i, "T" + ([letter] + NameText(name)))
    requires Ends(s, i + 2 + |NameText(name)|) && Says(c, BLANK, nest)
    ensures Reads(NT(Encoding), s, i, c, i + 2 + |NameText(name)|, NameDisplay(name, BLANK), nest)
  {
    hide Eval, Rule, Says, At, NameText, NameDisplay, IsName, AbiSpecialName, VTableName, CovariantThunk, GuardVariable,
      Thunk;
    AtParts(s, i, "T", [letter] + NameText(name));
    AtParts(s, i + 1, [letter], NameText(name));
    AtCharacters(s, i, "T");
    AtCharacters(s, i + 1, [letter]);
    NameStart(s, i + 2, name);
    NameReads(s, i + 2, name, c, BLANK, nest);
    TypeIsName(s, i + 2, c);
    TokIs("T", s, i, c);
    ClassIs("VTIS", s, i + 1, c);
    After(Class("VTIS"), NT(Type), s, i + 1, c, i + 2);
    After(Tok("T"), Seq(Class("VTIS"), NT(Type)), s, i, c, i + 1);
    SpecialRules();
    Take(VTableName(), CovariantThunk(), s, i, c);
    Take(Alt(VTableName(), CovariantThunk()), Alt(GuardVariable(), Thunk()), s, i, c);
    AbiIs(s, i, c);
  }

  /** No table of a class, nor a covariant thunk. */
  lemma NoTable(s: string, i: nat, c: Context)
    requires i + 2 <= |s| && (s[i] != 'T' || (s[i + 1] != 'c' && s[i + 1] !in "VTIS"))
    ensures Eval(AbiSpecialName(), s, i, c) == Eval(Alt(GuardVariable(), Thunk()), s, i, c)
  {
    hide Eval, Rule, AbiSpecialName, VTableName, CovariantThunk, GuardVariable, Thunk;
    TokIs("T", s, i, c);
    TokIs("Tc", s, i, c);
    assert s[i..i + 1][0] == s[i] && s[i..i + 2][0] == s[i] && s[i..i + 2][1] == s[i + 1];
    ClassIs("VTIS", s, i + 1, c);
    SpecialRules();
    if s[i] == 'T' {
      NotFirst(Class("VTIS"), NT(Type), s, i + 1, c);
      assert At(s, i, "T");
      NotSecond(Tok("T"), Seq(Class("VTIS"), NT(Type)), s, i, c, i + 1);
    } else {
      NotFirst(Tok("T"), Seq(Class("VTIS"), NT(Type)), s, i, c);
    }
    NotFirst(Tok("Tc"), Seq(NT(CallOffset), Seq(NT(CallOffset), NT(Encoding))), s, i, c);
    Skip1(VTableName(), CovariantThunk(), s, i, c);
    Skip1(Alt(VTableName(), CovariantThunk()), Alt(GuardVariable(), Thunk()), s, i, c);
  }

  lemma GuardReads(s: string, i: nat, name: SymbolName, c: Context, nest: int)
    requires IsName(name) && At(s, i, "GV" + NameText(name)) && Ends(s, i + 2 + |NameText(name)|)
    requires Says(c, BLANK, nest)
    ensures Reads(NT(Encoding), s, i, c, i + 2 + |NameText(name)|, NameDisplay(name, BLANK), nest)
  {
    hide Eval, Rule, Says, At, NameText, NameDisplay, IsName, AbiSpecialName, GuardVariable, Thunk;
    AtParts(s, i, "GV", NameText(name));
    AtCharacters(s, i, "GV");
    assert s[i] == 'G';
    NameReads(s, i + 2, name, c, BLANK, nest);
    TokIs("GV", s, i, c);
    After(Tok("GV"), NT(Name), s, i, c, i + 2);
    SpecialRules();
    Take(GuardVariable(), Thunk(), s, i, c);
    NoTable(s, i, c);
    AbiIs(s, i, c);
  }

  /** A thunk, given that its offset is read. */
  lemma ThunkIs(s: string, i: nat, c: Context, j: nat)
    requires At(s, i, "T") && i + 2 <= |s| && (s[i + 1] == 'h' || s[i + 1] == 'v')
    requires j <= |s| && Eval(NT(CallOffset), s, i + 1, c) == Outcome(true, j, c) && Eval(NT(Encoding), s, j, c).ok
    ensures Eval(NT(Encoding), s, i, c) == Eval(NT(Encoding), s, j, c)
  {
    hide Eval, Rule, AbiSpecialName, GuardVariable, Thunk;
    AtCharacters(s, i, "T");
    TokIs("T", s, i, c);
    TokIs("GV", s, i, c);
    assert s[i..i + 2][0] == s[i];
    After(NT(CallOffset), NT(Encoding), s, i + 1, c, j);
    After(Tok("T"), Seq(NT(CallOffset), NT(Encoding)), s, i, c, i + 1);
    SpecialRules();
    NotFirst(Tok("GV"), NT(Name), s, i, c);
    Skip1(GuardVariable(), Thunk(), s, i, c);
    NoTable(s, i, c);
    AbiIs(s, i, c);
  }

  lemma OffsetReads(offset: string, s: string, i: nat, c: Context)
    requires IsOffset(offset) && At(s, i, "h" + (offset + "_"))
    ensures Eval(NT(CallOffset), s, i, c) == Outcome(true, i + 2 + |offset|, c)
  {
    hide Eval, Rule, At, IsOffset;
    var j := i + 1 + |offset|;
    AtParts(s, i, "h", offset + "_");
    AtParts(s, i + 1, offset, "_");
    AtCharacters(s, j, "_");
    NumberReads(offset, s, i + 1, c);
    TokIs("h", s, i, c);
    TokIs("_", s, j, c);
    OffsetRules();
    Unfold(NVOffset, s, i + 1, c);
    After(NT(NVOffset), Tok("_"), s, i + 1, c, j);
    After(Tok("h"), Seq(NT(NVOffset), Tok("_")), s, i, c, i + 1);
    Take(Seq(Tok("h"), Seq(NT(NVOffset), Tok("_"))), Seq(Tok("v"), Seq(NT(VOffset), Tok("_"))), s, i, c);
    Unfold(CallOffset, s, i, c);
  }

  lemma VirtualOffsetReads(offset: string, index: string, s: string, i: nat, c: Context)
    requires IsOffset(offset) && IsOffset(index) && At(s, i, "v" + (offset + ("_" + (index + "_"))))
    ensures Eval(NT(CallOffset), s, i, c) == Outcome(true, i + 3 + |offset| + |index|, c)
  {
    hide Eval, Rule, At, IsOffset;
    var j := i + 1 + |offset|;
    var k := j + 1 + |index|;
    AtParts(s, i, "v", offset + ("_" + (index + "_")));
    AtParts(s, i + 1, offset, "_" + (index + "_"));
    AtParts(s, j, "_", index + "_");
    AtParts(s, j + 1, index, "_");
    AtCharacters(s, i, "v");
    AtCharacters(s, j, "_");
    AtCharacters(s, k, "_");
    NumberReads(offset, s, i + 1, c);
    NumberReads(index, s, j + 1, c);
    TokIs("v", s, i, c);
    TokIs("h", s, i, c);
    assert !At(s, i, "h") by { NotOne(s, i, 'h'); }
    TokIs("_", s, j, c);
    TokIs("_", s, k, c);
    OffsetRules();
    After(Tok("_"), NT(Number), s, j, c, j + 1);
    After(NT(Number), Seq(Tok("_"), NT(Number)), s, i + 1, c, j);
    Unfold(VOffset, s, i + 1, c);
    After(NT(VOffset), Tok("_"), s, i + 1, c, k);
    After(Tok("v"), Seq(NT(VOffset), Tok("_")), s, i, c, i + 1);
    NotFirst(Tok("h"), Seq(NT(NVOffset), Tok("_")), s, i, c);
    Skip1(Seq(Tok("h"), Seq(NT(NVOffset), Tok("_"))), Seq(Tok("v"), Seq(NT(VOffset), Tok("_"))), s, i, c);
    Unfold(CallOffset, s, i, c);
  }

  lemma NotOne(s: string, i: nat, a: char)
    requires i < |s| && s[i] != a
    ensures !At(s, i, [a])
  {
    assert s[i..i + 1][0] == s[i];
  }

  lemma ShiftReads(shift: Shift, s: string, i: nat, c: Context)
    requires IsShift(shift) && At(s, i, ShiftText(shift))
    ensures i < |s| && (s[i] == 'h' || s[i] == 'v')
    ensures Eval(NT(CallOffset), s, i, c) == Outcome(true, i + |ShiftText(shift)|, c)
  {
    hide Eval, At, IsOffset;
    AtCharacters(s, i, ShiftText(shift));
    assert s[i] == ShiftText(shift)[0];
    match shift
    case By(offset) => OffsetReads(offset, s, i, c);
    case ByTable(offset, index) => VirtualOffsetReads(offset, index, s, i, c);
  }

  /** How much more than the result is printed on the way, at most. */
  function Slack(y: Symbol): nat {
    match y
    case Function(_, _) => 0
    case Shifted(_, to) => Slack(to)
    case Covariant(_, _, to) => Slack(to)
    case Alias(to) => Slack(to)
    case _ => 2
  }

  /** Every symbol is read whole, and shown. */
  lemma {:induction false} SymbolReads(s: string, i: nat, y: Symbol, c: Context, nest: int)
    requires IsSymbol(y) && At(s, i, SymbolText(y)) && Ends(s, i + |SymbolText(y)|) && Says(c, BLANK, nest)
    ensures Reads(NT(Encoding), s, i, c, i + |SymbolText(y)|, SymbolDisplay(y), nest)
    ensures Eval(NT(Encoding), s, i, c).c.peak <= Max(c.peak, |Shown(y)| + Slack(y))
    decreases y, 0
  {
    hide Eval, At, NameText, NameDisplay, IsName, ParametersText, AreParameters, Says, Ends, IsOffset;
    match y
    case Function(name, ps) => FunctionReads(s, i, name, ps, c, nest);
    case Variable(name) =>
      forall c' | Says(c', BLANK, nest)
        ensures Reads(NT(Name), s, i, c', i + |SymbolText(y)|, SymbolDisplay(y), nest)
      {
        EndsFree(s, i + |SymbolText(y)|);
        NameReads(s, i, name, c', BLANK, nest);
      }
      AloneReads(s, i, c, i + |SymbolText(y)|, SymbolDisplay(y), nest);
    case TypeData(letter, name) => TypeDataReads(s, i, letter, name, c, nest);
    case Guard(name) => GuardReads(s, i, name, c, nest);
    case Temporary(name) => TemporaryReads(s, i, name, c, nest);
    case Construction(name, offset, base) => ConstructionReads(s, i, name, offset, base, c, nest);
    case Alias(to) => AliasReads(s, i, to, c, nest);
    case Shifted(shift, to) => ThunkReads(s, i, shift, to, c, nest);
    case Covariant(shift, back, to) => CovariantReads(s, i, shift, back, to, c, nest);
    case Within(outer, name) =>
      forall c' | Says(c', BLANK, nest)
        ensures Reads(NT(Name), s, i, c', i + |SymbolText(y)|, SymbolDisplay(y), nest)
      {
        WithinReads(s, i, outer, name, c', nest);
      }
      AloneReads(s, i, c, i + |SymbolText(y)|, SymbolDisplay(y), nest);
  }

  lemma EndsFree(s: string, j: nat)
    requires Ends(s, j)
    ensures Free(s, j)
  {
  }

  lemma ThunkReads(s: string, i: nat, shift: Shift, target: Symbol, c: Context, nest: int)
    requires IsShift(shift) && IsSymbol(target) && At(s, i, "T" + (ShiftText(shift) + SymbolText(target)))
    requires Ends(s, i + 1 + |ShiftText(shift)| + |SymbolText(target)|) && Says(c, BLANK, nest)
    ensures var e := i + 1 + |ShiftText(shift)| + |SymbolText(target)|;
      Reads(NT(Encoding), s, i, c, e, SymbolDisplay(target), nest)
    ensures Eval(NT(Encoding), s, i, c).c.peak <= Max(c.peak, |Shown(target)| + Slack(target))
    decreases target, 1
  {
    hide Eval, At, Says, Ends, IsShift, ShiftText, SymbolText, SymbolDisplay, IsSymbol, Slack;
    var j := i + 1 + |ShiftText(shift)|;
    AtParts(s, i, "T", ShiftText(shift) + SymbolText(target));
    AtParts(s, i + 1, ShiftText(shift), SymbolText(target));
    ShiftReads(shift, s, i + 1, c);
    SymbolReads(s, j, target, c, nest);
    ThunkIs(s, i, c, j);
  }

  lemma CovariantIs(s: string, i: nat, c: Context, j: nat, k: nat)
    requires At(s, i, "Tc") && Eval(NT(CallOffset), s, i + 2, c) == Outcome(true, j, c) && j <= |s|
    requires Eval(NT(CallOffset), s, j, c) == Outcome(true, k, c) && k <= |s| && Eval(NT(Encoding), s, k, c).ok
    ensures Eval(NT(Encoding), s, i, c) == Eval(NT(Encoding), s, k, c)
  {
    hide Eval, Rule, AbiSpecialName, VTableName, CovariantThunk, GuardVariable, Thunk;
    AtCharacters(s, i, "Tc");
    assert s[i] == 'T' && s[i + 1] == 'c';
    TokIs("Tc", s, i, c);
    After(NT(CallOffset), NT(Encoding), s, j, c, k);
    After(NT(CallOffset), Seq(NT(CallOffset), NT(Encoding)), s, i + 2, c, j);
    After(Tok("Tc"), Seq(NT(CallOffset), Seq(NT(CallOffset), NT(Encoding))), s, i, c, i + 2);
    SpecialRules();
    TokIs("T", s, i, c);
    assert s[i..i + 1] == "T";
    ClassIs("VTIS", s, i + 1, c);
    NotFirst(Class("VTIS"), NT(Type), s, i + 1, c);
    NotSecond(Tok("T"), Seq(Class("VTIS"), NT(Type)), s, i, c, i + 1);
    Skip1(VTableName(), CovariantThunk(), s, i, c);
    Take(Alt(VTableName(), CovariantThunk()), Alt(GuardVariable(), Thunk()), s, i, c);
    AbiIs(s, i, c);
  }

  lemma CovariantReads(s: string, i: nat, shift: Shift, back: Shift, target: Symbol, c: Context, nest: int)
    requires IsShift(shift) && IsShift(back) && IsSymbol(target)
    requires At(s, i, "Tc" + (ShiftText(shift) + (ShiftText(back) + SymbolText(target))))
    requires Ends(s, i + 2 + |ShiftText(shift)| + |ShiftText(back)| + |SymbolText(target)|) && Says(c, BLANK, nest)
    ensures var e := i + 2 + |ShiftText(shift)| + |ShiftText(back)| + |SymbolText(target)|;
      Reads(NT(Encoding), s, i, c, e, SymbolDisplay(target), nest)
    ensures Eval(NT(Encoding), s, i, c).c.peak <= Max(c.peak, |Shown(target)| + Slack(target))
    decreases target, 1
  {
    hide Eval, At, Says, Ends, IsShift, ShiftText, SymbolText, SymbolDisplay, IsSymbol, Slack;
    var j := i + 2 + |ShiftText(shift)|;
    var k := j + |ShiftText(back)|;
    AtParts(s, i, "Tc", ShiftText(shift) + (ShiftText(back) + SymbolText(target)));
    AtParts(s, i + 2, ShiftText(shift), ShiftText(back) + SymbolText(target));
    AtParts(s, j, ShiftText(back), SymbolText(target));
    ShiftReads(shift, s, i + 2, c);
    ShiftReads(back, s, j, c);
    SymbolReads(s, k, target, c, nest);
    CovariantIs(s, i, c, j, k);
  }

  // What is special to GNU

  lemma GnuRules()
    ensures GnuSpecialName() ==
      Alt(ConstructionVTable(), Alt(JavaName(), Alt(ReferenceTemporary(), Alt(HiddenAlias(), OffsetThunk()))))
    ensures ReferenceTemporary() == Seq(Tok("GR"), NT(Name)) && HiddenAlias() == Seq(Tok("GA"), NT(Encoding))
    ensures JavaName() == Seq(Tok("T"), Seq(Class("FJ"), NT(Type)))
    ensures ConstructionVTable() ==
      Seq(Tok("TC"), Seq(NT(Type), Seq(NT(Number), Seq(Tok("_"), Quiet(NT(Type))))))
  {
    hide OffsetThunk;
  }

  /** No table, thunk or guard. */
  lemma GnuIs(s: string, i: nat, c: Context)
    requires i + 2 <= |s| && ((s[i] == 'G' && s[i + 1] != 'V') || (s[i] == 'T' && s[i + 1] == 'C'))
    ensures Eval(NT(Encoding), s, i, c) == Eval(GnuSpecialName(), s, i, c)
  {
    hide Eval, Rule, AbiSpecialName, GnuSpecialName, GuardVariable, Thunk;
    NoTable(s, i, c);
    TokIs("GV", s, i, c);
    TokIs("T", s, i, c);
    assert s[i..i + 1][0] == s[i] && s[i..i + 2][0] == s[i] && s[i..i + 2][1] == s[i + 1];
    SpecialRules();
    NotFirst(Tok("GV"), NT(Name), s, i, c);
    Skip1(GuardVariable(), Thunk(), s, i, c);
    if s[i] == 'T' {
      NoOffset(s, i + 1, c);
      NotFirst(NT(CallOffset), NT(Encoding), s, i + 1, c);
      assert At(s, i, "T");
      NotSecond(Tok("T"), Seq(NT(CallOffset), NT(Encoding)), s, i, c, i + 1);
    } else {
      NotFirst(Tok("T"), Seq(NT(CallOffset), NT(Encoding)), s, i, c);
    }
    SpecialIs(s, i, c);
    Skip1(AbiSpecialName(), GnuSpecialName(), s, i, c);
  }

  lemma NoOffset(s: string, i: nat, c: Context)
    requires i < |s| && s[i] != 'h' && s[i] != 'v'
    ensures Eval(NT(CallOffset), s, i, c) == Fail(i, c)
  {
    hide Eval, Rule;
    TokIs("h", s, i, c);
    TokIs("v", s, i, c);
    assert s[i..i + 1][0] == s[i];
    NotFirst(Tok("h"), Seq(NT(NVOffset), Tok("_")), s, i, c);
    NotFirst(Tok("v"), Seq(NT(VOffset), Tok("_")), s, i, c);
    OffsetRules();
    Skip1(Seq(Tok("h"), Seq(NT(NVOffset), Tok("_"))), Seq(Tok("v"), Seq(NT(VOffset), Tok("_"))), s, i, c);
    Unfold(CallOffset, s, i, c);
  }

  /** Behind the tables for the construction and the Java names. */
  lemma TemporaryOrAlias(s: string, i: nat, c: Context)
    requires i + 2 <= |s| && s[i] == 'G'
    ensures Eval(GnuSpecialName(), s, i, c) ==
      Eval(Alt(ReferenceTemporary(), Alt(HiddenAlias(), OffsetThunk())), s, i, c)
  {
    hide Eval, ConstructionVTable, JavaName, ReferenceTemporary, HiddenAlias, OffsetThunk, GnuSpecialName;
    TokIs("TC", s, i, c);
    TokIs("T", s, i, c);
    assert s[i..i + 1][0] == s[i] && s[i..i + 2][0] == s[i];
    GnuRules();
    var last := Alt(ReferenceTemporary(), Alt(HiddenAlias(), OffsetThunk()));
    NotFirst(Tok("TC"), Seq(NT(Type), Seq(NT(Number), Seq(Tok("_"), Quiet(NT(Type))))), s, i, c);
    Skip1(ConstructionVTable(), Alt(JavaName(), last), s, i, c);
    NotFirst(Tok("T"), Seq(Class("FJ"), NT(Type)), s, i, c);
    Skip1(JavaName(), last, s, i, c);
  }

  lemma TemporaryReads(s: string, i: nat, name: SymbolName, c: Context, nest: int)
    requires IsName(name) && At(s, i, "GR" + NameText(name)) && Ends(s, i + 2 + |NameText(name)|)
    requires Says(c, BLANK, nest)
    ensures Reads(NT(Encoding), s, i, c, i + 2 + |NameText(name)|, NameDisplay(name, BLANK), nest)
  {
    hide Eval, Rule, Says, At, NameText, NameDisplay, IsName, GnuSpecialName, ReferenceTemporary, HiddenAlias,
      OffsetThunk, ConstructionVTable, JavaName;
    AtParts(s, i, "GR", NameText(name));
    AtCharacters(s, i, "GR");
    assert s[i] == 'G' && s[i + 1] == 'R';
    NameReads(s, i + 2, name, c, BLANK, nest);
    TokIs("GR", s, i, c);
    After(Tok("GR"), NT(Name), s, i, c, i + 2);
    GnuRules();
    Take(ReferenceTemporary(), Alt(HiddenAlias(), OffsetThunk()), s, i, c);
    TemporaryOrAlias(s, i, c);
    GnuIs(s, i, c);
  }

  lemma AliasReads(s: string, i: nat, target: Symbol, c: Context, nest: int)
    requires IsSymbol(target) && At(s, i, "GA" + SymbolText(target)) && Ends(s, i + 2 + |SymbolText(target)|)
    requires Says(c, BLANK, nest)
    ensures Reads(NT(Encoding), s, i, c, i + 2 + |SymbolText(target)|, SymbolDisplay(target), nest)
    ensures Eval(NT(Encoding), s, i, c).c.peak <= Max(c.peak, |Shown(target)| + Slack(target))
    decreases target, 1
  {
    hide Eval, Rule, Says, Ends, At, SymbolText, SymbolDisplay, IsSymbol, Slack, GnuSpecialName, ReferenceTemporary,
      HiddenAlias, OffsetThunk, ConstructionVTable, JavaName;
    AtParts(s, i, "GA", SymbolText(target));
    AtCharacters(s, i, "GA");
    assert s[i] == 'G' && s[i + 1] == 'A';
    SymbolReads(s, i + 2, target, c, nest);
    TokIs("GA", s, i, c);
    TokIs("GR", s, i, c);
    NotTwo(s, i, 'G', 'R');
    After(Tok("GA"), NT(Encoding), s, i, c, i + 2);
    GnuRules();
    NotFirst(Tok("GR"), NT(Name), s, i, c);
    Skip1(ReferenceTemporary(), Alt(HiddenAlias(), OffsetThunk()), s, i, c);
    Take(HiddenAlias(), OffsetThunk(), s, i, c);
    TemporaryOrAlias(s, i, c);
    GnuIs(s, i, c);
  }

  /** The class whose table it is, and silently the class under construction. */
  lemma ConstructionParts(s: string, i: nat, offset: string, base: SymbolName, c: Context, v: Display, nest: int)
    requires IsOffset(offset) && IsClassName(base) && At(s, i, offset + ("_" + NameText(base))) && Says(c, v, nest)
    requires Ends(s, i + |offset| + 1 + |NameText(base)|)
    ensures var e := i + |offset| + 1 + |NameText(base)|;
      Reads(Seq(NT(Number), Seq(Tok("_"), Quiet(NT(Type)))), s, i, c, e, v, nest)
  {
    hide Eval, Rule, Says, At, NameText, IsName, IsOffset, NestNeutral;
    var j, e := i + |offset|, i + |offset| + 1 + |NameText(base)|;
    AtParts(s, i, offset, "_" + NameText(base));
    AtParts(s, j, "_", NameText(base));
    AtCharacters(s, j, "_");
    NumberReads(offset, s, i, c);
    EndsFree(s, e);
    ClassAccepted(s, j + 1, base, c.(append := false));
    KeepSteps();
    QuietReads(NT(Type), s, j + 1, c, e, v, nest);
    TokReads("_", s, j, c, v, nest);
    Then(Tok("_"), Quiet(NT(Type)), s, j, c, j + 1, v, nest, e, v, nest);
    assert Reads(NT(Number), s, i, c, j, v, nest) by { NumberSaysNothing(s, i, c, j, v, nest); }
    Then(NT(Number), Seq(Tok("_"), Quiet(NT(Type))), s, i, c, j, v, nest, e, v, nest);
  }

  lemma NumberSaysNothing(s: string, i: nat, c: Context, j: nat, v: Display, nest: int)
    requires i <= |s| && Eval(NT(Number), s, i, c) == Outcome(true, j, c) && Says(c, v, nest)
    ensures Reads(NT(Number), s, i, c, j, v, nest)
  {
    hide Eval;
  }

  lemma ConstructionReads(s: string, i: nat, name: SymbolName, offset: string, base: SymbolName, c: Context, nest: int)
    requires IsClassName(name) && IsOffset(offset) && IsClassName(base) && Says(c, BLANK, nest)
    requires At(s, i, "TC" + (NameText(name) + (offset + ("_" + NameText(base)))))
    requires Ends(s, i + 3 + |NameText(name)| + |offset| + |NameText(base)|)
    ensures var e := i + 3 + |NameText(name)| + |offset| + |NameText(base)|;
      Reads(NT(Encoding), s, i, c, e, NameDisplay(name, BLANK), nest)
  {
    hide Eval, Rule, Says, At, Ends, NameText, NameDisplay, IsName, IsClassName, IsOffset, GnuSpecialName, JavaName,
      ConstructionVTable;
    var j, v, tail := i + 2 + |NameText(name)|, NameDisplay(name, BLANK), offset + ("_" + NameText(base));
    var e := j + |tail|;
    AtParts(s, i, "TC", NameText(name) + tail);
    AtParts(s, i + 2, NameText(name), tail);
    AtCharacters(s, i, "TC");
    AtCharacters(s, j, tail);
    assert s[i] == 'T' && s[i + 1] == 'C';
    OffsetStart(offset);
    assert s[j] == tail[0] == offset[0];
    ClassReads(s, i + 2, name, c, nest);
    ConstructionParts(s, j, offset, base, Eval(NT(Type), s, i + 2, c).c, v, nest);
    var last := Seq(NT(Number), Seq(Tok("_"), Quiet(NT(Type))));
    Then(NT(Type), last, s, i + 2, c, j, v, nest, e, v, nest);
    TokReads("TC", s, i, c, BLANK, nest);
    Then(Tok("TC"), Seq(NT(Type), last), s, i, c, i + 2, BLANK, nest, e, v, nest);
    GnuRules();
    Take(ConstructionVTable(), Alt(JavaName(), Alt(ReferenceTemporary(), Alt(HiddenAlias(), OffsetThunk()))), s, i, c);
    GnuIs(s, i, c);
  }

  lemma OffsetStart(offset: string)
    requires IsOffset(offset)
    ensures offset != "" && offset[0] != 'I' && offset[0] != '_'
  {
    if IsNumber(offset) { assert offset[0] in offset; }
  }

  /** The type of a class, where something is to be shown. */
  lemma ClassReads(s: string, i: nat, name: SymbolName, c: Context, nest: int)
    requires IsClassName(name) && At(s, i, NameText(name)) && Free(s, i + |NameText(name)|) && Says(c, BLANK, nest)
    ensures Reads(NT(Type), s, i, c, i + |NameText(name)|, NameDisplay(name, BLANK), nest)
  {
    hide Eval, Says, At, Free, NameText, NameDisplay, IsName;
    NameStart(s, i, name);
    NameReads(s, i, name, c, BLANK, nest);
    TypeIsName(s, i, c);
  }

  lemma {:induction false} MarksAreCloneSuffix(marks: seq<(string, string)>)
    requires IsSuffix(Marks(marks))
    ensures IsCloneSuffix(MarksText(marks))
  {
    if marks == [] {
      EmptyCloneSuffix();
    } else {
      var (letters, number) := marks[0];
      var rest := MarksText(marks[1..]);
      MarksAreCloneSuffix(marks[1..]);
      OneMark(letters, number, rest);
    }
  }

  lemma OneMark(letters: string, number: string, rest: string)
    requires IsMarkOfClone(letters, number) && IsCloneSuffix(rest)
    ensures IsCloneSuffix("." + letters + "." + number + rest)
  {
    var w, a, b := "." + letters + "." + number + rest, |letters| + 1, |letters| + |number| + 2;
    assert w[1..a] == letters && w[a + 1..b] == number && w[b..] == rest;
    assert forall k :: 1 <= k < a ==> w[k] == letters[k - 1];
    assert forall k :: a < k < b ==> w[k] == number[k - a - 1];
    assert ClonePart(w, a, b);
  }

  lemma SuffixIs(suffix: Suffix)
    requires IsSuffix(suffix)
    ensures var w := SuffixText(suffix);
      (IsCloneSuffix(w) && SuffixShown(suffix) == "") || (w != "" && w[0] == '@' && SuffixShown(suffix) == w)
  {
    hide IsCloneSuffix;
    if suffix.Marks? { MarksAreCloneSuffix(suffix.marks); }
  }

  /** Demangling undoes mangling: for every symbol, with any suffix. No length below -1 is met, and no attempt on the
      way prints more than Slack says. */
  lemma DemanglingUndoesMangling(y: Symbol, suffix: Suffix)
    requires IsSymbol(y) && IsSuffix(suffix)
    ensures var r := TopLevel(Mangled(y) + SuffixText(suffix));
      && r.ok && r.c.out == Shown(y) + SuffixShown(suffix) && !r.c.rewound
      && r.c.peak <= |Shown(y)| + Max(Slack(y), |SuffixShown(suffix)|)
  {
    hide Eval, Rule, SymbolText, SymbolDisplay, IsSymbol, IsSuffix, SuffixText, SuffixShown, Print, IsCloneSuffix,
      Slack;
    var w := SuffixText(suffix);
    var s := Mangled(y) + w;
    var j := |Mangled(y)|;
    assert s[0..2] == "_Z" && s[2..j] == SymbolText(y) && s[j..] == w;
    SuffixIs(suffix);
    SuffixEnds(s, j, w);
    SaysStart();
    TokIs("_Z", s, 0, START);
    SymbolReads(s, 2, y, START, -1);
    After(Tok("_Z"), NT(Encoding), s, 0, START, 2);
    EncodingRules();
    Unfold(MangledName, s, 0, START);
    var c := Eval(NT(Encoding), s, 2, START).c;
    SaysOut(c, SymbolDisplay(y), -1);
    if w != "" && w[0] == '@' {
      NoCloneStart(w);
      PrintAdds(c, SymbolDisplay(y), w, -1);
    } else {
      assert Shown(y) + "" == Shown(y);
    }
  }

  lemma SuffixEnds(s: string, j: nat, w: string)
    requires IsCloneSuffix(w) || (w != "" && w[0] == '@')
    requires j <= |s| && s[j..] == w
    ensures Ends(s, j)
  {
    if w != "" && w[0] != '@' && w[0] != '.' { NoCloneStart(w); }
    assert w != "" ==> w[0] == s[j];
  }

  // ---------------------------------------------------------------------------
  // A nested name without parts

  lemma EmptyNestedNameReads(s: string, i: nat, c: Context, v: Display, nest: int)
    requires At(s, i, "NE") && Says(c, v, nest)
    ensures Reads(NT(NestedName), s, i, c, i + 2, v, nest)
  {
    hide Eval, Rule, At;
    var inner := Seq(Opt(NT(CVQualifiers)), NT(Prefix));
    assert "NE" == "N" + "E";
    AtParts(s, i, "N", "E");
    AtParts(s, i + 1, "", "E");
    AtCharacters(s, i + 1, "E");
    TokReads("N", s, i, c, v, nest);
    var c0 := c.(nest := 0);
    QualifiersShowNothing("", s, i + 1, c0, v);
    EmptyPrefixReads(s, i + 1, c0, v, 0);
    Then(Opt(NT(CVQualifiers)), NT(Prefix), s, i + 1, c0, i + 1, v, 0, i + 1, v, 0);
    NestedReads(inner, s, i + 1, c, i + 1, v, v, nest, 0);
    TokReads("E", s, i + 1, Eval(Nested(inner), s, i + 1, c).c, v, nest);
    Then(Nested(inner), Tok("E"), s, i + 1, c, i + 1, v, nest, i + 2, v, nest);
    Then(Tok("N"), Seq(Nested(inner), Tok("E")), s, i, c, i + 1, v, nest, i + 2, v, nest);
    PrefixRule();
    ReadsRule(NestedName, s, i, c, i + 2, v, nest);
  }

  lemma EmptyNameReads(s: string, i: nat, c: Context, v: Display, nest: int)
    requires At(s, i, "NE") && Says(c, v, nest)
    ensures Reads(NT(Name), s, i, c, i + 2, v, nest)
  {
    hide Eval, Rule, Says;
    EmptyNestedNameReads(s, i, c, v, nest);
    Take(NT(NestedName), Alt(NT(LocalName), Alt(TemplateName(), NT(UnscopedName))), s, i, c);
    PrefixRule();
    Unfold(Name, s, i, c);
  }

  /** The grammar in the comments of the source asks for a prefix in a nested name; the code does not. */
  lemma NestedNameMayBeEmpty()
    ensures var r := TopLevel("_ZNE"); r.ok && r.c.out == ""
  {
    hide Eval, Rule, Print;
    var s := "_ZNE";
    assert s[0..2] == "_Z" && s[2..4] == "NE" && s[4..] == "";
    SaysStart();
    TokIs("_Z", s, 0, START);
    forall c' | Says(c', BLANK, -1)
      ensures Reads(NT(Name), s, 2, c', 4, BLANK, -1)
    {
      EmptyNameReads(s, 2, c', BLANK, -1);
    }
    AloneReads(s, 2, START, 4, BLANK, -1);
    After(Tok("_Z"), NT(Encoding), s, 0, START, 2);
    EncodingRules();
    Unfold(MangledName, s, 0, START);
    EmptyCloneSuffix();
  }
}

/** The grammar that the demangler follows, and two readings of it.

    `Rule` writes down one right-hand side per nonterminal, in the order in which
    demangle.cc tries the alternatives. The table is read twice:

    - `Eval` is the ordered reading: first alternative that succeeds, greedy
      repetition, everything undone on failure. It also renders the demangled name,
      because the grammar carries the printing actions of the source.
    - `Derives` is the declarative reading: the language of a context-free grammar,
      in which order and greed mean nothing and the printing actions match "".

    `Sound` relates the two; `AcceptanceIgnoresOutput` and `QuietPrintsNothing` say
    that printing never influences recognition and is confined by the append flag. */
module DemangleGrammar {
  import opened Wrappers

  datatype Nonterminal =
    | MangledName | Encoding | Name | UnscopedName | UnscopedTemplateName | NestedName | Prefix
    | UnqualifiedName | SourceName | LocalSourceName | Number | FloatNumber | SeqId | OperatorName
    | SpecialName | CallOffset | NVOffset | VOffset | CtorDtorName | Type | CVQualifiers | BuiltinType
    | FunctionType | BareFunctionType | ClassEnumType | ArrayType | PointerToMemberType | TemplateParam
    | TemplateTemplateParam | TemplateArgs | TemplateArg | Expression | ExprPrimary | LocalName
    | Discriminator | Substitution

  datatype Table = Operators | Builtins | Substitutions

  /** Right-hand sides. The constructors after `Abbrev` match the empty text (or what
      their argument matches) and act on the rendering context. */
  datatype Grammar =
    | Tok(t: string)
    | Class(cs: string)
    | Seq(a: Grammar, b: Grammar)
    | Alt(a: Grammar, b: Grammar)
    | Opt(a: Grammar)
    | Many(a: Grammar)
    | NT(n: Nonterminal)
    | Counted                 // <length number> <identifier of that length>
    | Abbrev(table: Table)    // one row of an abbreviation table
    | Quiet(a: Grammar)       // with the append flag off
    | Nested(a: Grammar)      // with the nest level starting at 0
    | Emit(text: string)
    | EmitPrev                // the last identifier again, for constructors and destructors
    | Separator               // "::" when inside a nested name
    | Deeper                  // one level further into a nested name

  function Digits(): string { "0123456789" }
  function HexDigits(): string { "0123456789abcdef" }
  function SeqIdDigits(): string { "0123456789ABCDEFGHIJKLMNOPQRSTUVWXYZ" }
  function AnonPrefix(): string { "_GLOBAL__N_" }

  function Seq3(a: Grammar, b: Grammar, c: Grammar): Grammar { Seq(a, Seq(b, c)) }
  function Seq4(a: Grammar, b: Grammar, c: Grammar, d: Grammar): Grammar { Seq(a, Seq3(b, c, d)) }
  function Alt3(a: Grammar, b: Grammar, c: Grammar): Grammar { Alt(a, Alt(b, c)) }
  function Alt4(a: Grammar, b: Grammar, c: Grammar, d: Grammar): Grammar { Alt(a, Alt3(b, c, d)) }
  function Plus(a: Grammar): Grammar { Seq(a, Many(a)) }

  // The named alternatives of the longer rules, in the order of the source.

  function Component(): Grammar { Seq3(Separator, ComponentName(), Deeper) }
  function ComponentName(): Grammar { Alt3(NT(TemplateParam), NT(Substitution), NT(UnscopedName)) }

  function LocalEntityName(): Grammar { Seq4(Tok("Z"), NT(Encoding), Tok("E"), LocalEntity()) }
  function LocalEntity(): Grammar { Seq3(Emit("::"), NT(Name), Opt(NT(Discriminator))) }
  function LocalString(): Grammar { Seq4(Tok("Z"), NT(Encoding), Tok("Es"), Opt(NT(Discriminator))) }

  function AbiSpecialName(): Grammar {
    Alt(Alt(VTableName(), CovariantThunk()), Alt(GuardVariable(), Thunk()))
  }

  function VTableName(): Grammar { Seq3(Tok("T"), Class("VTIS"), NT(Type)) }
  function CovariantThunk(): Grammar { Seq4(Tok("Tc"), NT(CallOffset), NT(CallOffset), NT(Encoding)) }
  function GuardVariable(): Grammar { Seq(Tok("GV"), NT(Name)) }
  function Thunk(): Grammar { Seq3(Tok("T"), NT(CallOffset), NT(Encoding)) }

  function GnuSpecialName(): Grammar {
    Alt(ConstructionVTable(), Alt4(JavaName(), ReferenceTemporary(), HiddenAlias(), OffsetThunk()))
  }

  function ConstructionVTable(): Grammar {
    Seq4(Tok("TC"), NT(Type), NT(Number), Seq(Tok("_"), Quiet(NT(Type))))
  }

  function JavaName(): Grammar { Seq3(Tok("T"), Class("FJ"), NT(Type)) }
  function ReferenceTemporary(): Grammar { Seq(Tok("GR"), NT(Name)) }
  function HiddenAlias(): Grammar { Seq(Tok("GA"), NT(Encoding)) }
  function OffsetThunk(): Grammar { Seq4(Tok("T"), Class("hv"), NT(CallOffset), NT(Encoding)) }

  function CtorName(): Grammar { Seq3(Tok("C"), Class("123"), EmitPrev) }
  function DtorName(): Grammar { Seq4(Tok("D"), Class("012"), Emit("~"), EmitPrev) }

  function CastOperator(): Grammar { Seq3(Tok("cv"), Emit("operator "), Nested(NT(Type))) }
  function VendorOperator(): Grammar { Seq3(Tok("v"), Class(Digits()), NT(SourceName)) }

  function UnnumberedSubstitution(): Grammar { Seq(Tok("S_"), Emit("?")) }
  function NumberedSubstitution(): Grammar { Seq4(Tok("S"), NT(SeqId), Tok("_"), Emit("?")) }

  function QualifiedType(): Grammar {
    Alt(CVQualifiedType(), Alt4(PointerType(), PackExpansion(), Decltype(), VendorQualifiedType()))
  }

  function CVQualifiedType(): Grammar { Seq(NT(CVQualifiers), NT(Type)) }
  function PointerType(): Grammar { Seq(Class("OPRCG"), NT(Type)) }
  function PackExpansion(): Grammar { Seq(Tok("Dp"), NT(Type)) }
  function Decltype(): Grammar { Seq4(Tok("D"), Class("tT"), NT(Expression), Tok("E")) }
  function VendorQualifiedType(): Grammar { Seq3(Tok("U"), NT(SourceName), NT(Type)) }

  function PlainType(): Grammar {
    Alt4(NT(BuiltinType),
         NT(FunctionType),
         NT(ClassEnumType),
         Alt3(NT(ArrayType), NT(PointerToMemberType), NT(Substitution)))
  }

  function TemplateTemplateType(): Grammar { Seq(NT(TemplateTemplateParam), NT(TemplateArgs)) }

  function VendorBuiltinType(): Grammar { Seq(Tok("u"), NT(SourceName)) }

  function SizedArrayType(): Grammar { Seq4(Tok("A"), NT(Number), Tok("_"), NT(Type)) }
  function ExpressionArrayType(): Grammar { Seq4(Tok("A"), Opt(NT(Expression)), Tok("_"), NT(Type)) }

  function FirstTemplateParam(): Grammar { Seq(Tok("T_"), Emit("?")) }
  function LaterTemplateParam(): Grammar { Seq4(Tok("T"), NT(Number), Tok("_"), Emit("?")) }

  function ArgumentList(): Grammar { Seq3(Tok("I"), Plus(NT(TemplateArg)), Tok("E")) }
  function ArgumentPack(): Grammar { Seq3(Tok("I"), Many(NT(TemplateArg)), Tok("E")) }
  function ExpressionArg(): Grammar { Seq3(Tok("X"), NT(Expression), Tok("E")) }

  function OperatorExpression(): Grammar { Alt3(TrinaryExpression(), BinaryExpression(), UnaryExpression()) }
  function TrinaryExpression(): Grammar { Seq4(NT(OperatorName), NT(Expression), NT(Expression), NT(Expression)) }
  function BinaryExpression(): Grammar { Seq3(NT(OperatorName), NT(Expression), NT(Expression)) }
  function UnaryExpression(): Grammar { Seq(NT(OperatorName), NT(Expression)) }

  function ScopedExpression(): Grammar { Alt3(SizeofType(), ScopedTemplate(), ScopedName()) }
  function SizeofType(): Grammar { Seq(Tok("st"), NT(Type)) }
  function ScopedTemplate(): Grammar { Seq4(Tok("sr"), NT(Type), NT(UnqualifiedName), NT(TemplateArgs)) }
  function ScopedName(): Grammar { Seq3(Tok("sr"), NT(Type), NT(UnqualifiedName)) }

  function IntegerLiteral(): Grammar { Seq4(Tok("L"), NT(Type), NT(Number), Tok("E")) }
  function FloatLiteral(): Grammar { Seq4(Tok("L"), NT(Type), NT(FloatNumber), Tok("E")) }
  function ExternalName(): Grammar { Seq3(Tok("L"), NT(MangledName), Tok("E")) }
  function OldExternalName(): Grammar { Seq3(Tok("LZ"), NT(Encoding), Tok("E")) }

  function Rule(n: Nonterminal): Grammar {
    match n
    case MangledName => Seq(Tok("_Z"), NT(Encoding))
    case Encoding => Alt3(Seq(NT(Name), NT(BareFunctionType)), NT(Name), NT(SpecialName))
    case Name =>
      Alt4(NT(NestedName), NT(LocalName), Seq(NT(UnscopedTemplateName), NT(TemplateArgs)), NT(UnscopedName))
    case UnscopedName => Alt(NT(UnqualifiedName), Seq3(Tok("St"), Emit("std::"), NT(UnqualifiedName)))
    case UnscopedTemplateName => Alt(NT(UnscopedName), NT(Substitution))
    case NestedName => Seq3(Tok("N"), Nested(Seq(Opt(NT(CVQualifiers)), NT(Prefix))), Tok("E"))
    case Prefix => Opt(Seq(Plus(Component()), Opt(Seq(NT(TemplateArgs), NT(Prefix)))))
    case UnqualifiedName => Alt4(NT(OperatorName), NT(CtorDtorName), NT(SourceName), NT(LocalSourceName))
    case SourceName => Counted
    case LocalSourceName => Seq3(Tok("L"), NT(SourceName), Opt(NT(Discriminator)))
    case Number => Seq(Opt(Tok("n")), Plus(Class(Digits())))
    case FloatNumber => Plus(Class(HexDigits()))
    case SeqId => Plus(Class(SeqIdDigits()))
    case OperatorName => Alt3(CastOperator(), VendorOperator(), Abbrev(Operators))
    case SpecialName => Alt(AbiSpecialName(), GnuSpecialName())
    case CallOffset =>
      Alt(Seq3(Tok("h"), NT(NVOffset), Tok("_")), Seq3(Tok("v"), NT(VOffset), Tok("_")))
    case NVOffset => NT(Number)
    case VOffset => Seq3(NT(Number), Tok("_"), NT(Number))
    case CtorDtorName => Alt(CtorName(), DtorName())
    case Type => Alt4(QualifiedType(), PlainType(), TemplateTemplateType(), NT(TemplateParam))
    case CVQualifiers =>
      Alt3(Seq3(Tok("r"), Opt(Tok("V")), Opt(Tok("K"))), Seq(Tok("V"), Opt(Tok("K"))), Tok("K"))
    case BuiltinType => Alt(Abbrev(Builtins), VendorBuiltinType())
    case FunctionType => Seq4(Tok("F"), Opt(Tok("Y")), NT(BareFunctionType), Tok("E"))
    case BareFunctionType => Seq(Quiet(Plus(NT(Type))), Emit("()"))
    case ClassEnumType => NT(Name)
    case ArrayType => Alt(SizedArrayType(), ExpressionArrayType())
    case PointerToMemberType => Seq3(Tok("M"), NT(Type), NT(Type))
    case TemplateParam => Alt(FirstTemplateParam(), LaterTemplateParam())
    case TemplateTemplateParam => Alt(NT(TemplateParam), NT(Substitution))
    case TemplateArgs => Seq(Quiet(ArgumentList()), Emit("<>"))
    case TemplateArg => Alt4(ArgumentPack(), NT(Type), NT(ExprPrimary), ExpressionArg())
    case Expression => Alt4(NT(TemplateParam), NT(ExprPrimary), OperatorExpression(), ScopedExpression())
    case ExprPrimary => Alt4(IntegerLiteral(), FloatLiteral(), ExternalName(), OldExternalName())
    case LocalName => Alt(LocalEntityName(), LocalString())
    case Discriminator => Seq(Tok("_"), NT(Number))
    case Substitution => Alt3(UnnumberedSubstitution(), NumberedSubstitution(), Abbrev(Substitutions))
  }

  // ---------------------------------------------------------------------------
  // Abbreviation tables

  /** A row; as in a C string, the second character of a one-character abbreviation is NUL. */
  datatype AbbrevPair = Pair(first: char, second: char, realName: string)

  type OperatorPair = p: AbbrevPair | IsLower(p.first) && IsAlpha(p.second) witness Pair('n', 'w', "new")
  type BuiltinPair = p: AbbrevPair | IsLower(p.first) witness Pair('v', '\0', "void")
  type SubstitutionPair = p: AbbrevPair | p.first == 'S' && IsLower(p.second) witness Pair('S', 't', "")

  function OperatorRows(): seq<OperatorPair> {
    OperatorRows1() + OperatorRows2() + OperatorRows3() + OperatorRows4() + OperatorRows5()
  }

  function OperatorRows1(): seq<OperatorPair> {
    [
      Pair('n', 'w', "new"), Pair('n', 'a', "new[]"), Pair('d', 'l', "delete"), Pair('d', 'a', "delete[]"),
      Pair('p', 's', "+"), Pair('n', 'g', "-"), Pair('a', 'd', "&"), Pair('d', 'e', "*"),
      Pair('c', 'o', "~"), Pair('p', 'l', "+")
    ]
  }

  function OperatorRows2(): seq<OperatorPair> {
    [
      Pair('m', 'i', "-"), Pair('m', 'l', "*"), Pair('d', 'v', "/"), Pair('r', 'm', "%"),
      Pair('a', 'n', "&"), Pair('o', 'r', "|"), Pair('e', 'o', "^"), Pair('a', 'S', "="),
      Pair('p', 'L', "+="), Pair('m', 'I', "-=")
    ]
  }

  function OperatorRows3(): seq<OperatorPair> {
    [
      Pair('m', 'L', "*="), Pair('d', 'V', "/="), Pair('r', 'M', "%="), Pair('a', 'N', "&="),
      Pair('o', 'R', "|="), Pair('e', 'O', "^="), Pair('l', 's', "<<"), Pair('r', 's', ">>"),
      Pair('l', 'S', "<<="), Pair('r', 'S', ">>=")
    ]
  }

  function OperatorRows4(): seq<OperatorPair> {
    [
      Pair('e', 'q', "=="), Pair('n', 'e', "!="), Pair('l', 't', "<"), Pair('g', 't', ">"),
      Pair('l', 'e', "<="), Pair('g', 'e', ">="), Pair('n', 't', "!"), Pair('a', 'a', "&&"),
      Pair('o', 'o', "||"), Pair('p', 'p', "++")
    ]
  }

  function OperatorRows5(): seq<OperatorPair> {
    [
      Pair('m', 'm', "--"), Pair('c', 'm', ","), Pair('p', 'm', "->*"), Pair('p', 't', "->"),
      Pair('c', 'l', "()"), Pair('i', 'x', "[]"), Pair('q', 'u', "?"), Pair('s', 't', "sizeof"),
      Pair('s', 'z', "sizeof")
    ]
  }

  function BuiltinRows(): seq<BuiltinPair> {
    BuiltinRows1() + BuiltinRows2()
  }

  function BuiltinRows1(): seq<BuiltinPair> {
    [
      Pair('v', '\0', "void"), Pair('w', '\0', "wchar_t"), Pair('b', '\0', "bool"), Pair('c', '\0', "char"),
      Pair('a', '\0', "signed char"), Pair('h', '\0', "unsigned char"), Pair('s', '\0', "short"),
      Pair('t', '\0', "unsigned short"),
      Pair('i', '\0', "int"), Pair('j', '\0', "unsigned int"), Pair('l', '\0', "long"), Pair('m', '\0', "unsigned long")
    ]
  }

  function BuiltinRows2(): seq<BuiltinPair> {
    [
      Pair('x', '\0', "long long"), Pair('y', '\0', "unsigned long long"), Pair('n', '\0', "__int128"),
      Pair('o', '\0', "unsigned __int128"),
      Pair('f', '\0', "float"), Pair('d', '\0', "double"), Pair('e', '\0', "long double"),
      Pair('g', '\0', "__float128"),
      Pair('z', '\0', "ellipsis")
    ]
  }

  function SubstitutionRows(): seq<SubstitutionPair> {
    [
      Pair('S', 't', ""), Pair('S', 'a', "allocator"), Pair('S', 'b', "basic_string"), Pair('S', 's', "string"),
      Pair('S', 'i', "istream"), Pair('S', 'o', "ostream"), Pair('S', 'd', "iostream")
    ]
  }

  function Rows(t: Table): seq<AbbrevPair> {
    match t
    case Operators => OperatorRows()
    case Builtins => BuiltinRows()
    case Substitutions => SubstitutionRows()
  }

  function Width(t: Table): nat { if t == Builtins then 1 else 2 }

  /** The abbreviation of row p, of the given width, stands at position i of s. */
  predicate Stands(p: AbbrevPair, width: nat, s: string, i: nat) {
    i + width <= |s| && (width >= 1 ==> s[i] == p.first) && (width >= 2 ==> s[i + 1] == p.second)
  }

  /** Index of the first row at or after k whose abbreviation stands at position i of s, or the row count. */
  function FindRow(rows: seq<AbbrevPair>, width: nat, k: nat, s: string, i: nat): (r: nat)
    requires k <= |rows|
    ensures k <= r <= |rows|
    ensures r < |rows| ==> Stands(rows[r], width, s, i)
    ensures forall q :: k <= q < r ==> !Stands(rows[q], width, s, i)
    decreases |rows| - k
  {
    if k == |rows| || Stands(rows[k], width, s, i) then k else FindRow(rows, width, k + 1, s, i)
  }

  // ---------------------------------------------------------------------------
  // Rendering context

  /** What the parse has printed so far. `peak` is the longest output any attempt has
      reached, abandoned ones included; `rewound` records that a <source-name> with a
      length below -1 was met, where the source moves its cursor backwards. Both
      outlive backtracking. */
  datatype Context = Context(out: string, prev: string, nest: int, append: bool, peak: nat, rewound: bool)

  predicate IsLower(c: char) { 'a' <= c <= 'z' }
  predicate IsAlpha(c: char) { 'a' <= c <= 'z' || 'A' <= c <= 'Z' }
  predicate IsDigit(c: char) { '0' <= c <= '9' }

  predicate At(s: string, i: nat, t: string) { i + |t| <= |s| && s[i..i + |t|] == t }

  function Write(c: Context, text: string): Context {
    var out := c.out + text;
    c.(out := out, peak := Max(c.peak, |out|))
  }

  function Spaced(c: Context, text: string): Context
    requires text != ""
  {
    if text[0] == '<' && c.out != "" && c.out[|c.out| - 1] == '<' then Write(c, " ") else c
  }

  /** The effect of MaybeAppendWithLength. */
  function Print(c: Context, text: string): Context {
    if !c.append || text == "" then c
    else
      var c' := Write(Spaced(c, text), text);
      if IsAlpha(text[0]) || text[0] == '_' then c'.(prev := text) else c'
  }

  function PrintRow(table: Table, realName: string, c: Context): Context {
    match table
    case Builtins => Print(c, realName)
    case Operators =>
      var c' := Print(c, "operator");
      Print(if realName != "" && IsLower(realName[0]) then Print(c', " ") else c', realName)
    case Substitutions =>
      var c' := Print(c, "std");
      if realName == "" then c' else Print(Print(c', "::"), realName)
  }

  /** Return to context c, keeping the two facts of c' that outlive backtracking. */
  function Back(c: Context, c': Context): Context {
    c.(peak := c'.peak, rewound := c'.rewound)
  }

  // ---------------------------------------------------------------------------
  // Numbers and identifiers

  function RunEnd(s: string, i: nat, cs: string): (j: nat)
    requires i <= |s|
    ensures i <= j <= |s|
    ensures forall k :: i <= k < j ==> s[k] in cs
    ensures j < |s| ==> s[j] !in cs
    decreases |s| - i
  {
    if i < |s| && s[i] in cs then RunEnd(s, i + 1, cs) else i
  }

  function Decimal(w: string): nat {
    if w == "" then 0
    else
      var d := w[|w| - 1] as int - '0' as int;
      Decimal(w[..|w| - 1]) * 10 + if 0 <= d <= 9 then d else 0
  }

  /** Where the digits of the <number> at i begin. */
  function DigitsStart(s: string, i: nat): (j: nat)
    requires i <= |s|
    ensures i <= j <= |s|
  {
    if i < |s| && s[i] == 'n' then i + 1 else i
  }

  function DigitsEnd(s: string, i: nat): (j: nat)
    requires i <= |s|
    ensures DigitsStart(s, i) <= j <= |s|
  {
    RunEnd(s, DigitsStart(s, i), Digits())
  }

  function NumberAt(s: string, i: nat): int
    requires i <= |s|
  {
    var v: int := Decimal(s[DigitsStart(s, i)..DigitsEnd(s, i)]);
    if DigitsStart(s, i) == i then v else -v
  }

  function IdentifierText(id: string): string {
    if |id| > |AnonPrefix()| && At(id, 0, AnonPrefix()) then "(anonymous namespace)" else id
  }

  /** The result of a parse: the position and context are those after it, or on
      failure the starting ones. */
  datatype Outcome = Outcome(ok: bool, pos: nat, c: Context)

  function Fail(i: nat, c: Context): Outcome { Outcome(false, i, c) }

  /** Reading an identifier of the given length at i. */
  function IdentifierOutcome(length: int, s: string, i: nat, c: Context): (r: Outcome)
    requires i <= |s|
    ensures i <= r.pos <= |s|
    ensures !r.ok ==> r.pos == i && r.c == Back(c, r.c)
  {
    if length < -1 then Fail(i, c.(rewound := true))
    else if length == -1 || i + length > |s| then Fail(i, c)
    else Outcome(true, i + length, Print(c, IdentifierText(s[i..i + length])))
  }

  function EvalCounted(s: string, i: nat, c: Context): (r: Outcome)
    requires i <= |s|
    ensures i <= r.pos <= |s| && (r.ok ==> i < r.pos)
    ensures !r.ok ==> r.pos == i && r.c == Back(c, r.c)
  {
    hide Print, Decimal;
    var d := DigitsEnd(s, i);
    if d == DigitsStart(s, i) then Fail(i, c)
    else
      var r := IdentifierOutcome(NumberAt(s, i), s, d, c);
      if r.ok then r else Fail(i, r.c)
  }

  function EvalAbbrev(table: Table, s: string, i: nat, c: Context): (r: Outcome)
    requires i <= |s|
    ensures i <= r.pos <= |s| && (r.ok ==> i < r.pos)
    ensures !r.ok ==> r.pos == i && r.c == Back(c, r.c)
  {
    hide Rows;
    var rows := Rows(table);
    var k := FindRow(rows, Width(table), 0, s, i);
    if k == |rows| then Fail(i, c)
    else Outcome(true, i + Width(table), PrintRow(table, rows[k].realName, c))
  }

  // ---------------------------------------------------------------------------
  // The ordered reading

  /** g cannot match the empty text. */
  predicate Consuming(g: Grammar) {
    match g
    case Tok(t) => t != ""
    case Class(_) | Counted | Abbrev(_) => true
    case Seq(a, b) => Consuming(a) || Consuming(b)
    case Alt(a, b) => Consuming(a) && Consuming(b)
    case Quiet(a) => Consuming(a)
    case Nested(a) => Consuming(a)
    case NT(n) => n != Prefix
    case Opt(_) | Many(_) | Emit(_) | EmitPrev | Separator | Deeper => false
  }

  /** Position of a nonterminal in the order "may be entered by, before any text is consumed". */
  function Rank(n: Nonterminal): nat {
    match n
    case NVOffset | VOffset | TemplateTemplateParam | UnqualifiedName | Expression => 2
    case UnscopedName => 3
    case UnscopedTemplateName => 4
    case Name => 5
    case Encoding | ClassEnumType => 6
    case Type => 7
    case BareFunctionType | TemplateArg => 8
    case Prefix => 10
    case _ => 1
  }

  /** The highest rank that g can enter before consuming text; 9 stands for printing. */
  function Level(g: Grammar): nat {
    match g
    case NT(n) => Rank(n)
    case Seq(a, b) => if Consuming(a) then Level(a) else Max(Level(a), Level(b))
    case Alt(a, b) => Max(Level(a), Level(b))
    case Opt(a) => Level(a)
    case Many(a) => Level(a)
    case Quiet(a) => Level(a)
    case Nested(a) => Level(a)
    case Emit(_) | EmitPrev | Separator | Deeper => 9
    case Tok(_) | Class(_) | Counted | Abbrev(_) => 0
  }

  /** g prints nothing, and changes nothing else, before it consumes text. Only the loop over the parts of a
      nested name starts with something to print. */
  predicate Mute(g: Grammar) { Level(g) < 9 }

  /** No nonterminal can re-enter itself without consuming text: the grammar has no left recursion. (The code can, at
      a <source-name> of length below -1, which this reading lets fail; see `DemangleRewind`.) */
  lemma NoLeftRecursion(n: Nonterminal)
    ensures Level(Rule(n)) < Rank(n)
    ensures n != Prefix ==> Consuming(Rule(n))
  {
    if Rank(n) == 1 {
      NoLeftRecursionLow(n);
    } else if Rank(n) <= 4 {
      NoLeftRecursionMiddle(n);
    } else {
      NoLeftRecursionHigh(n);
    }
  }

  lemma NoLeftRecursionLow(n: Nonterminal)
    requires Rank(n) == 1
    ensures Level(Rule(n)) == 0 && Consuming(Rule(n))
  {
    hide Level, Consuming, Rule;
    if StartsType(n) {
      TypeLevel(n);
    } else if IsLexical(n) {
      LexicalLevel(n);
    } else {
      NameLevel(n);
    }
  }

  predicate StartsType(n: Nonterminal) {
    match n
    case CVQualifiers | BuiltinType | FunctionType | ArrayType | PointerToMemberType => true
    case TemplateParam | TemplateArgs | ExprPrimary => true
    case _ => false
  }

  predicate IsLexical(n: Nonterminal) {
    match n
    case Number | FloatNumber | SeqId | SourceName | Discriminator | CtorDtorName | Substitution => true
    case _ => false
  }

  lemma TypeLevel(n: Nonterminal)
    requires StartsType(n)
    ensures Level(Rule(n)) == 0 && Consuming(Rule(n))
  {
    hide Level, Consuming, Digits, HexDigits, SeqIdDigits;
    LevelSteps();
  }

  lemma LexicalLevel(n: Nonterminal)
    requires IsLexical(n)
    ensures Level(Rule(n)) == 0 && Consuming(Rule(n))
  {
    hide Level, Consuming, Digits, HexDigits, SeqIdDigits;
    LevelSteps();
  }

  lemma NameLevel(n: Nonterminal)
    requires Rank(n) == 1 && !StartsType(n) && !IsLexical(n)
    ensures Level(Rule(n)) == 0 && Consuming(Rule(n))
  {
    hide Level, Consuming, Digits, HexDigits, SeqIdDigits, AbiSpecialName, GnuSpecialName;
    LevelSteps();
    SpecialNameLevels();
  }

  lemma NoLeftRecursionMiddle(n: Nonterminal)
    requires 1 < Rank(n) <= 4
    ensures Level(Rule(n)) < Rank(n) && Consuming(Rule(n))
  {
    hide Level, Consuming, Rule;
    match n
    case NVOffset => NVOffsetLevel();
    case VOffset => VOffsetLevel();
    case TemplateTemplateParam => TemplateTemplateParamLevel();
    case UnqualifiedName => UnqualifiedNameLevel();
    case Expression => ExpressionLevel();
    case UnscopedName => UnscopedNameLevel();
    case UnscopedTemplateName => UnscopedTemplateNameLevel();
  }

  lemma NoLeftRecursionHigh(n: Nonterminal)
    requires 4 < Rank(n)
    ensures Level(Rule(n)) < Rank(n)
    ensures n != Prefix ==> Consuming(Rule(n))
  {
    hide Level, Consuming, Rule;
    match n
    case Name => NameRuleLevel();
    case Encoding => EncodingLevel();
    case ClassEnumType => ClassEnumTypeLevel();
    case Type => TypeRuleLevel();
    case BareFunctionType => BareFunctionTypeLevel();
    case TemplateArg => TemplateArgLevel();
    case Prefix => PrefixLevel();
  }

  lemma NVOffsetLevel()
    ensures Level(Rule(NVOffset)) < 2 && Consuming(Rule(NVOffset))
  {
    hide Level, Consuming, Digits, HexDigits, SeqIdDigits;
    LevelSteps();
  }

  lemma VOffsetLevel()
    ensures Level(Rule(VOffset)) < 2 && Consuming(Rule(VOffset))
  {
    hide Level, Consuming, Digits, HexDigits, SeqIdDigits;
    LevelSteps();
  }

  lemma TemplateTemplateParamLevel()
    ensures Level(Rule(TemplateTemplateParam)) < 2 && Consuming(Rule(TemplateTemplateParam))
  {
    hide Level, Consuming, Digits, HexDigits, SeqIdDigits;
    LevelSteps();
  }

  lemma UnqualifiedNameLevel()
    ensures Level(Rule(UnqualifiedName)) < 2 && Consuming(Rule(UnqualifiedName))
  {
    hide Level, Consuming, Digits, HexDigits, SeqIdDigits;
    LevelSteps();
  }

  lemma ExpressionLevel()
    ensures Level(Rule(Expression)) < 2 && Consuming(Rule(Expression))
  {
    hide Level, Consuming, Digits, HexDigits, SeqIdDigits, OperatorExpression, ScopedExpression;
    LevelSteps();
    ExpressionLevels();
  }

  lemma UnscopedNameLevel()
    ensures Level(Rule(UnscopedName)) < 3 && Consuming(Rule(UnscopedName))
  {
    hide Level, Consuming, Digits, HexDigits, SeqIdDigits;
    LevelSteps();
  }

  lemma UnscopedTemplateNameLevel()
    ensures Level(Rule(UnscopedTemplateName)) < 4 && Consuming(Rule(UnscopedTemplateName))
  {
    hide Level, Consuming, Digits, HexDigits, SeqIdDigits;
    LevelSteps();
  }

  lemma PrefixLevel()
    ensures Level(Rule(Prefix)) < 10
  {
    hide Level, Consuming, Digits, HexDigits, SeqIdDigits;
    LevelSteps();
  }

  lemma NameRuleLevel()
    ensures Level(Rule(Name)) < 5 && Consuming(Rule(Name))
  {
    hide Level, Consuming, Digits, HexDigits, SeqIdDigits;
    LevelSteps();
  }

  lemma EncodingLevel()
    ensures Level(Rule(Encoding)) < 6 && Consuming(Rule(Encoding))
  {
    hide Level, Consuming, Digits, HexDigits, SeqIdDigits;
    LevelSteps();
  }

  lemma ClassEnumTypeLevel()
    ensures Level(Rule(ClassEnumType)) < 6 && Consuming(Rule(ClassEnumType))
  {
    hide Level, Consuming, Digits, HexDigits, SeqIdDigits;
    LevelSteps();
  }

  lemma TypeRuleLevel()
    ensures Level(Rule(Type)) < 7 && Consuming(Rule(Type))
  {
    hide Level, Consuming, Digits, HexDigits, SeqIdDigits, QualifiedType, PlainType;
    LevelSteps();
    TypeLevels();
  }

  lemma BareFunctionTypeLevel()
    ensures Level(Rule(BareFunctionType)) < 8 && Consuming(Rule(BareFunctionType))
  {
    hide Level, Consuming, Digits, HexDigits, SeqIdDigits;
    LevelSteps();
  }

  lemma TemplateArgLevel()
    ensures Level(Rule(TemplateArg)) < 8 && Consuming(Rule(TemplateArg))
  {
    hide Level, Consuming, Digits, HexDigits, SeqIdDigits;
    LevelSteps();
  }

  lemma LevelSteps()
    ensures forall a, b {:trigger Level(Seq(a, b))} ::
      Level(Seq(a, b)) == if Consuming(a) then Level(a) else Max(Level(a), Level(b))
    ensures forall a, b {:trigger Level(Alt(a, b))} :: Level(Alt(a, b)) == Max(Level(a), Level(b))
    ensures forall a {:trigger Level(Opt(a))} :: Level(Opt(a)) == Level(a)
    ensures forall a {:trigger Level(Many(a))} :: Level(Many(a)) == Level(a)
    ensures forall a {:trigger Level(Quiet(a))} :: Level(Quiet(a)) == Level(a)
    ensures forall a {:trigger Level(Nested(a))} :: Level(Nested(a)) == Level(a)
    ensures forall n {:trigger Level(NT(n))} :: Level(NT(n)) == Rank(n)
    ensures forall t {:trigger Level(Tok(t))} :: Level(Tok(t)) == 0
    ensures forall cs {:trigger Level(Class(cs))} :: Level(Class(cs)) == 0
    ensures forall t {:trigger Level(Emit(t))} :: Level(Emit(t)) == 9
    ensures forall t {:trigger Level(Abbrev(t))} :: Level(Abbrev(t)) == 0
    ensures Level(Counted) == 0 && Level(EmitPrev) == Level(Separator) == Level(Deeper) == 9
    ensures forall a, b {:trigger Consuming(Seq(a, b))} :: Consuming(Seq(a, b)) == (Consuming(a) || Consuming(b))
    ensures forall a, b {:trigger Consuming(Alt(a, b))} :: Consuming(Alt(a, b)) == (Consuming(a) && Consuming(b))
    ensures forall a {:trigger Consuming(Quiet(a))} :: Consuming(Quiet(a)) == Consuming(a)
    ensures forall n {:trigger Consuming(NT(n))} :: Consuming(NT(n)) == (n != Prefix)
    ensures forall t {:trigger Consuming(Tok(t))} :: Consuming(Tok(t)) == (t != "")
    ensures forall cs {:trigger Consuming(Class(cs))} :: Consuming(Class(cs))
    ensures forall t {:trigger Consuming(Abbrev(t))} :: Consuming(Abbrev(t))
    ensures Consuming(Counted) && !Consuming(Separator)
  {
  }

  lemma SpecialNameLevels()
    ensures Level(AbiSpecialName()) == 0 && Consuming(AbiSpecialName())
    ensures Level(GnuSpecialName()) == 0 && Consuming(GnuSpecialName())
  {
    hide Level, Consuming;
    LevelSteps();
  }

  lemma ExpressionLevels()
    ensures Level(OperatorExpression()) == 1 && Consuming(OperatorExpression())
    ensures Level(ScopedExpression()) == 0 && Consuming(ScopedExpression())
  {
    hide Level, Consuming;
    LevelSteps();
  }

  lemma TypeLevels()
    ensures Level(QualifiedType()) == 1 && Consuming(QualifiedType())
    ensures Level(PlainType()) == 6 && Consuming(PlainType())
  {
    hide Level, Consuming;
    LevelSteps();
  }

  function Eval(g: Grammar, s: string, i: nat, c: Context): (r: Outcome)
    requires i <= |s|
    ensures i <= r.pos <= |s|
    ensures !r.ok ==> r.pos == i && r.c == Back(c, r.c)
    ensures r.ok && Consuming(g) ==> i < r.pos
    decreases |s| - i, Level(g), g
  {
    hide EvalAbbrev, EvalCounted, Rule, Rank, Print;
    match g
    case Tok(t) => if At(s, i, t) then Outcome(true, i + |t|, c) else Fail(i, c)
    case Class(cs) => if i < |s| && s[i] in cs then Outcome(true, i + 1, c) else Fail(i, c)
    case Seq(a, b) =>
      var ra := Eval(a, s, i, c);
      if !ra.ok then ra
      else
        var rb := Eval(b, s, ra.pos, ra.c);
        if rb.ok then rb else Fail(i, Back(c, rb.c))
    case Alt(a, b) =>
      var ra := Eval(a, s, i, c);
      if ra.ok then ra else Eval(b, s, i, ra.c)
    case Opt(a) =>
      var ra := Eval(a, s, i, c);
      Outcome(true, ra.pos, ra.c)
    case Many(a) =>
      var ra := Eval(a, s, i, c);
      if ra.ok && i < ra.pos then Eval(g, s, ra.pos, ra.c) else Outcome(true, i, Back(c, ra.c))
    case NT(n) =>
      NoLeftRecursion(n);
      Eval(Rule(n), s, i, c)
    case Counted => EvalCounted(s, i, c)
    case Abbrev(t) => EvalAbbrev(t, s, i, c)
    case Quiet(a) =>
      var ra := Eval(a, s, i, c.(append := false));
      if ra.ok then ra.(c := ra.c.(append := c.append)) else Fail(i, Back(c, ra.c))
    case Nested(a) =>
      var ra := Eval(a, s, i, c.(nest := 0));
      if ra.ok then ra.(c := ra.c.(nest := c.nest)) else Fail(i, Back(c, ra.c))
    case Emit(t) => Outcome(true, i, Print(c, t))
    case EmitPrev => Outcome(true, i, Print(c, c.prev))
    case Separator => Outcome(true, i, if c.nest >= 1 then Print(c, "::") else c)
    case Deeper => Outcome(true, i, if c.nest > -1 then c.(nest := c.nest + 1) else c)
  }
}

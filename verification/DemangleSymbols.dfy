/** C++ symbols, how section 5.1 of the Itanium C++ ABI mangles them, and what the demangler promises to show for them.
    Nothing here depends on the grammar or on the code: it is what `DemangleRoundTrip` measures them by. */
module DemangleSymbols {
  import FlagValues

  // ---------------------------------------------------------------------------
  // Letters and codes

  predicate IsLetter(c: char) { 'a' <= c <= 'z' || 'A' <= c <= 'Z' }
  predicate Numeric(c: char) { '0' <= c <= '9' }

  predicate Identifier(id: string) {
    id != "" && (IsLetter(id[0]) || id[0] == '_')
  }

  const ANONYMOUS := "_GLOBAL__N_"

  predicate IsAnonymous(id: string) { |id| > |ANONYMOUS| && id[..|ANONYMOUS|] == ANONYMOUS }

  /** The operator of a code; none is empty. */
  function OperatorSymbol(a: char, b: char): string {
    match a
    case 'n' =>
      if b == 'w' then "new" else if b == 'a' then "new[]" else if b == 'g' then "-" else if b == 'e' then "!="
      else if b == 't' then "!" else ""
    case 'd' =>
      if b == 'l' then "delete" else if b == 'a' then "delete[]" else if b == 'e' then "*" else if b == 'v' then "/"
      else if b == 'V' then "/=" else ""
    case 'p' =>
      if b == 's' || b == 'l' then "+" else if b == 'L' then "+=" else if b == 'p' then "++"
      else if b == 'm' then "->*" else if b == 't' then "->" else ""
    case 'm' =>
      if b == 'i' then "-" else if b == 'l' then "*" else if b == 'I' then "-=" else if b == 'L' then "*="
      else if b == 'm' then "--" else ""
    case 'a' =>
      if b == 'd' || b == 'n' then "&" else if b == 'S' then "=" else if b == 'N' then "&=" else if b == 'a' then "&&"
      else ""
    case 'r' =>
      if b == 'm' then "%" else if b == 'M' then "%=" else if b == 's' then ">>" else if b == 'S' then ">>=" else ""
    case 'l' =>
      if b == 's' then "<<" else if b == 'S' then "<<=" else if b == 't' then "<" else if b == 'e' then "<=" else ""
    case 'e' => if b == 'o' then "^" else if b == 'O' then "^=" else if b == 'q' then "==" else ""
    case 'o' => if b == 'r' then "|" else if b == 'R' then "|=" else if b == 'o' then "||" else ""
    case 'c' => if b == 'o' then "~" else if b == 'm' then "," else if b == 'l' then "()" else ""
    case 'g' => if b == 't' then ">" else if b == 'e' then ">=" else ""
    case 'i' => if b == 'x' then "[]" else ""
    case 'q' => if b == 'u' then "?" else ""
    case 's' => if b == 't' || b == 'z' then "sizeof" else ""
    case _ => ""
  }

  /** The built-in type of a letter. */
  function TypeName(letter: char): string {
    match letter
    case 'v' => "void"
    case 'w' => "wchar_t"
    case 'b' => "bool"
    case 'c' => "char"
    case 'a' => "signed char"
    case 'h' => "unsigned char"
    case 's' => "short"
    case 't' => "unsigned short"
    case 'i' => "int"
    case 'j' => "unsigned int"
    case 'l' => "long"
    case 'm' => "unsigned long"
    case 'x' => "long long"
    case 'y' => "unsigned long long"
    case 'n' => "__int128"
    case 'o' => "unsigned __int128"
    case 'f' => "float"
    case 'd' => "double"
    case 'e' => "long double"
    case 'g' => "__float128"
    case 'z' => "ellipsis"
    case _ => ""
  }

  /** The class of the standard library that S and this letter stand for. */
  function StandardName(letter: char): string {
    match letter
    case 'a' => "allocator"
    case 'b' => "basic_string"
    case 's' => "string"
    case 'i' => "istream"
    case 'o' => "ostream"
    case 'd' => "iostream"
    case _ => ""
  }

  // ---------------------------------------------------------------------------
  // Symbols

  /** One part of a name. */
  datatype Part =
    | Word(id: string)
    | Internal(id: string)               // of a name with internal linkage
    | Constructor(kind: char)
    | Destructor(kind: char)
    | Operator(first: char, second: char)
    | Conversion(letter: char)           // operator int
    | Std                                // the namespace
    | Standard(letter: char)
    | Again(mark: string)                // something that was named before
    | Hole(mark: string)                 // a template parameter

  datatype Arguments = NoArguments | Arguments(list: seq<Parameter>)

  /** The inside of a nested name: parts, and template arguments between them. */
  datatype Scope = Parts(parts: seq<Part>) | Templated(parts: seq<Part>, list: seq<Parameter>, more: Scope)

  datatype SymbolName =
    | Plain(part: Part, arguments: Arguments)
    | InStd(part: Part, arguments: Arguments)
    | Scoped(qualifiers: string, scope: Scope)

  datatype Parameter =
    | Builtin(letter: char)
    | OfClass(name: SymbolName)
    | Indirect(letter: char, to: Parameter)              // a pointer, a reference, or the like
    | Qualified(qualifiers: string, to: Parameter)
    | FunctionOf(parameters: seq<Parameter>)
    | ArrayOf(bound: string, to: Parameter)
    | MemberOf(owner: Parameter, to: Parameter)
    | Short(part: Part)                                  // a part that stands for a type
    | Literal(letter: char, number: string)              // a number as a template argument

  /** How far a thunk moves its object: by a number, or by what a table holds. */
  datatype Shift = By(offset: string) | ByTable(offset: string, index: string)

  datatype Symbol =
    | Function(name: SymbolName, parameters: seq<Parameter>)
    | Variable(name: SymbolName)
    | TypeData(letter: char, name: SymbolName)                 // the tables of a class
    | Guard(name: SymbolName)
    | Temporary(name: SymbolName)
    | Construction(name: SymbolName, offset: string, base: SymbolName)
    | Alias(to: Symbol)
    | Shifted(shift: Shift, to: Symbol)                         // a thunk
    | Covariant(shift: Shift, back: Shift, to: Symbol)
    | Within(outer: Symbol, name: SymbolName)                  // local in a function

  // ---------------------------------------------------------------------------
  // Which ones there are

  predicate IsMark(mark: string) { forall c :: c in mark ==> Numeric(c) || 'A' <= c <= 'Z' }
  predicate IsNumber(n: string) { n != "" && forall c :: c in n ==> Numeric(c) }
  predicate IsOffset(n: string) { IsNumber(n) || (n != "" && n[0] == 'n' && IsNumber(n[1..])) }
  predicate AreQualifiers(q: string) { q in ["", "r", "V", "K", "rV", "rK", "VK", "rVK"] }

  predicate IsPart(p: Part) {
    match p
    case Word(id) => Identifier(id)
    case Internal(id) => Identifier(id)
    case Constructor(kind) => kind in "123"
    case Destructor(kind) => kind in "012"
    case Operator(a, b) => OperatorSymbol(a, b) != ""
    case Conversion(letter) => TypeName(letter) != ""
    case Std => true
    case Standard(letter) => StandardName(letter) != ""
    case Again(mark) => IsMark(mark)
    case Hole(mark) => mark == "" || IsNumber(mark)
  }

  /** Parts that need no scope. */
  predicate IsUnqualified(p: Part) {
    p.Word? || p.Internal? || p.Constructor? || p.Destructor? || p.Operator? || p.Conversion?
  }

  ghost predicate AreParts(parts: seq<Part>) {
    forall k :: 0 <= k < |parts| ==> IsPart(parts[k])
  }

  ghost predicate IsArguments(a: Arguments) {
    a.Arguments? ==> a.list != [] && AreArguments(a.list)
  }

  ghost predicate AreArguments(ps: seq<Parameter>) {
    forall k :: 0 <= k < |ps| ==> IsArgument(ps[k])
  }

  /** A template argument is a type, or a number of a built-in type. The letter n would be taken for the sign of an
      identifier's length. */
  ghost predicate IsArgument(p: Parameter)
    decreases p, 1
  {
    if p.Literal? then TypeName(p.letter) != "" && p.letter != 'n' && IsOffset(p.number) else IsParameter(p)
  }

  ghost predicate AreParameters(ps: seq<Parameter>) {
    forall k :: 0 <= k < |ps| ==> IsParameter(ps[k])
  }

  /** inside: something stands before it. */
  ghost predicate IsScope(scope: Scope, inside: bool) {
    && (!inside ==> scope.parts != [] && !scope.parts[0].Operator?)
    && AreParts(scope.parts)
    && (scope.Templated? ==>
          scope.parts != [] && scope.list != [] && AreArguments(scope.list) && IsScope(scope.more, true))
  }

  ghost predicate IsName(name: SymbolName)
    decreases name, 0
  {
    match name
    case Plain(part, arguments) =>
      IsPart(part) && IsArguments(arguments) &&
      (IsUnqualified(part) || (arguments.Arguments? && (part.Standard? || part.Again?)))
    case InStd(part, arguments) => IsPart(part) && IsUnqualified(part) && IsArguments(arguments)
    case Scoped(qualifiers, scope) => AreQualifiers(qualifiers) && IsScope(scope, false)
  }

  /** The name of a class does not start like another type. */
  ghost predicate IsClassName(name: SymbolName)
    decreases name, 1
  {
    IsName(name) && (name.Plain? ==> name.part.Word? || name.part.Standard? || name.part.Again?)
  }

  ghost predicate IsParameter(p: Parameter)
    decreases p, 0
  {
    match p
    case Builtin(letter) => TypeName(letter) != ""
    case OfClass(name) => IsClassName(name)
    case Indirect(letter, to) => letter in "OPRCG" && IsParameter(to)
    case Qualified(qualifiers, to) =>
      qualifiers != "" && AreQualifiers(qualifiers) && !to.Qualified? && IsParameter(to)
    case FunctionOf(parameters) => parameters != [] && AreParameters(parameters)
    case ArrayOf(bound, to) => IsNumber(bound) && IsParameter(to)
    case MemberOf(owner, to) => IsParameter(owner) && IsParameter(to)
    case Short(part) => IsPart(part) && (part.Standard? || part.Again? || part.Hole?)
    case Literal(_, _) => false
  }

  predicate IsShift(shift: Shift) { IsOffset(shift.offset) && (shift.ByTable? ==> IsOffset(shift.index)) }

  ghost predicate IsSymbol(y: Symbol) {
    match y
    case Function(name, parameters) => IsName(name) && parameters != [] && AreParameters(parameters)
    case Variable(name) => IsName(name)
    case TypeData(letter, name) => letter in "VTIS" && IsClassName(name)
    case Guard(name) => IsName(name)
    case Temporary(name) => IsName(name)
    case Construction(name, offset, base) => IsClassName(name) && IsOffset(offset) && IsClassName(base)
    case Alias(to) => IsSymbol(to)
    case Shifted(shift, to) => IsShift(shift) && IsSymbol(to)
    case Covariant(shift, back, to) => IsShift(shift) && IsShift(back) && IsSymbol(to)
    case Within(outer, name) => IsSymbol(outer) && IsName(name)
  }

  // ---------------------------------------------------------------------------
  // Mangling

  function Counting(id: string): string { FlagValues.Numeral(|id|) + id }

  function PartText(p: Part): string {
    match p
    case Word(id) => Counting(id)
    case Internal(id) => "L" + Counting(id)
    case Constructor(kind) => "C" + [kind]
    case Destructor(kind) => "D" + [kind]
    case Operator(a, b) => [a, b]
    case Conversion(letter) => "cv" + [letter]
    case Std => "St"
    case Standard(letter) => "S" + [letter]
    case Again(mark) => "S" + (mark + "_")
    case Hole(mark) => "T" + (mark + "_")
  }

  function PartsText(parts: seq<Part>): string {
    if parts == [] then "" else PartText(parts[0]) + PartsText(parts[1..])
  }

  function ArgumentsText(a: Arguments): string {
    match a
    case NoArguments => ""
    case Arguments(list) => ListText(list)
  }

  /** Template arguments. */
  function ListText(list: seq<Parameter>): string
    decreases list, 1
  {
    "I" + (ParametersText(list) + "E")
  }

  function ScopeText(scope: Scope): string {
    match scope
    case Parts(parts) => PartsText(parts)
    case Templated(parts, list, more) => PartsText(parts) + (ListText(list) + ScopeText(more))
  }

  function NameText(name: SymbolName): string {
    match name
    case Plain(part, arguments) => PartText(part) + ArgumentsText(arguments)
    case InStd(part, arguments) => "St" + PartText(part) + ArgumentsText(arguments)
    case Scoped(qualifiers, scope) => "N" + (qualifiers + (ScopeText(scope) + "E"))
  }

  function ParameterText(p: Parameter): string {
    match p
    case Builtin(letter) => [letter]
    case OfClass(name) => NameText(name)
    case Indirect(letter, to) => [letter] + ParameterText(to)
    case Qualified(qualifiers, to) => qualifiers + ParameterText(to)
    case FunctionOf(parameters) => "F" + (ParametersText(parameters) + "E")
    case ArrayOf(bound, to) => "A" + (bound + ("_" + ParameterText(to)))
    case MemberOf(owner, to) => "M" + (ParameterText(owner) + ParameterText(to))
    case Short(part) => PartText(part)
    case Literal(letter, number) => "L" + ([letter] + (number + "E"))
  }

  function ParametersText(ps: seq<Parameter>): string
    decreases ps, 0
  {
    if ps == [] then "" else ParameterText(ps[0]) + ParametersText(ps[1..])
  }

  function ShiftText(shift: Shift): string {
    match shift
    case By(offset) => "h" + (offset + "_")
    case ByTable(offset, index) => "v" + (offset + ("_" + (index + "_")))
  }

  function SymbolText(y: Symbol): string {
    match y
    case Function(name, parameters) => NameText(name) + ParametersText(parameters)
    case Variable(name) => NameText(name)
    case TypeData(letter, name) => "T" + ([letter] + NameText(name))
    case Guard(name) => "GV" + NameText(name)
    case Temporary(name) => "GR" + NameText(name)
    case Construction(name, offset, base) => "TC" + (NameText(name) + (offset + ("_" + NameText(base))))
    case Alias(to) => "GA" + SymbolText(to)
    case Shifted(shift, to) => "T" + (ShiftText(shift) + SymbolText(to))
    case Covariant(shift, back, to) => "Tc" + (ShiftText(shift) + (ShiftText(back) + SymbolText(to)))
    case Within(outer, name) => "Z" + (SymbolText(outer) + ("E" + NameText(name)))
  }

  function Mangled(y: Symbol): string { "_Z" + SymbolText(y) }

  // ---------------------------------------------------------------------------
  // What may follow a mangled name

  /** The marks of a clone, each of letters and a number; or a version. */
  datatype Suffix = Marks(marks: seq<(string, string)>) | Version(text: string)

  predicate IsMarkOfClone(letters: string, number: string) {
    letters != "" && (forall k :: 0 <= k < |letters| ==> IsLetter(letters[k]))
    && number != "" && forall k :: 0 <= k < |number| ==> Numeric(number[k])
  }

  ghost predicate IsSuffix(suffix: Suffix) {
    suffix.Marks? ==>
      forall k :: 0 <= k < |suffix.marks| ==> IsMarkOfClone(suffix.marks[k].0, suffix.marks[k].1)
  }

  function MarksText(marks: seq<(string, string)>): string {
    if marks == [] then "" else "." + marks[0].0 + "." + marks[0].1 + MarksText(marks[1..])
  }

  function SuffixText(suffix: Suffix): string {
    match suffix
    case Marks(marks) => MarksText(marks)
    case Version(text) => "@" + text
  }

  /** A version is shown, the marks of a clone are not. */
  function SuffixShown(suffix: Suffix): string {
    match suffix
    case Marks(_) => ""
    case Version(text) => "@" + text
  }

  // ---------------------------------------------------------------------------
  // What is shown

  /** The text so far, and the last identifier in it, which a constructor repeats. */
  datatype Display = Display(out: string, last: string)

  const BLANK := Display("", "")

  function PartDisplay(p: Part, v: Display): Display {
    match p
    case Word(id) => WordDisplay(id, v)
    case Internal(id) => WordDisplay(id, v)
    case Constructor(_) => Display(v.out + v.last, v.last)
    case Destructor(_) => Display(v.out + "~" + v.last, v.last)
    case Operator(a, b) =>
      var symbol := OperatorSymbol(a, b);
      if symbol != "" && IsLetter(symbol[0]) then Display(v.out + "operator " + symbol, symbol)
      else Display(v.out + "operator" + symbol, "operator")
    case Conversion(letter) => Display(v.out + "operator " + TypeName(letter), TypeName(letter))
    case Std => Display(v.out + "std", "std")
    case Standard(letter) => Display(v.out + "std::" + StandardName(letter), StandardName(letter))
    case Again(_) => Display(v.out + "?", v.last)
    case Hole(_) => Display(v.out + "?", v.last)
  }

  function WordDisplay(id: string, v: Display): Display {
    if IsAnonymous(id) then Display(v.out + "(anonymous namespace)", v.last) else Display(v.out + id, id)
  }

  function PartsDisplay(parts: seq<Part>, nest: nat, v: Display): Display {
    if parts == [] then v
    else PartsDisplay(parts[1..], nest + 1, PartDisplay(parts[0], v.(out := v.out + if nest > 0 then "::" else "")))
  }

  /** Whatever the template arguments are. "<" and "<" are kept apart. */
  function TemplateDisplay(v: Display): Display {
    v.(out := v.out + if v.out != "" && v.out[|v.out| - 1] == '<' then " <>" else "<>")
  }

  function ArgumentsDisplay(a: Arguments, v: Display): Display {
    if a.NoArguments? then v else TemplateDisplay(v)
  }

  function ScopeDisplay(scope: Scope, nest: nat, v: Display): Display {
    match scope
    case Parts(parts) => PartsDisplay(parts, nest, v)
    case Templated(parts, _, more) =>
      ScopeDisplay(more, nest + |parts|, TemplateDisplay(PartsDisplay(parts, nest, v)))
  }

  function NameDisplay(name: SymbolName, v: Display): Display {
    match name
    case Plain(part, arguments) => ArgumentsDisplay(arguments, PartDisplay(part, v))
    case InStd(part, arguments) =>
      ArgumentsDisplay(arguments, PartDisplay(part, Display(v.out + "std::", "std::")))
    case Scoped(_, scope) => ScopeDisplay(scope, 0, v)
  }

  function SymbolDisplay(y: Symbol): Display {
    match y
    case Function(name, _) =>
      var v := NameDisplay(name, BLANK);
      v.(out := v.out + "()")
    case Variable(name) => NameDisplay(name, BLANK)
    case TypeData(_, name) => NameDisplay(name, BLANK)
    case Guard(name) => NameDisplay(name, BLANK)
    case Temporary(name) => NameDisplay(name, BLANK)
    case Construction(name, _, _) => NameDisplay(name, BLANK)
    case Alias(to) => SymbolDisplay(to)
    case Shifted(_, to) => SymbolDisplay(to)
    case Covariant(_, _, to) => SymbolDisplay(to)
    case Within(outer, name) =>
      var v := SymbolDisplay(outer);
      NameDisplay(name, v.(out := v.out + "::"))
  }

  function Shown(y: Symbol): string { SymbolDisplay(y).out }

  // ---------------------------------------------------------------------------
  // Members of classes, for example

  function Words(path: seq<string>): seq<Part> { seq(|path|, k requires 0 <= k < |path| => Word(path[k])) }

  function Joined(path: seq<string>): string {
    if path == [] then "" else if |path| == 1 then path[0] else path[0] + "::" + Joined(path[1..])
  }

  /** A path of identifiers, none of them an anonymous namespace. */
  ghost predicate IsPath(path: seq<string>) {
    path != [] && forall k :: 0 <= k < |path| ==> Identifier(path[k]) && !IsAnonymous(path[k])
  }

  lemma {:induction false} PathDisplay(path: seq<string>, nest: nat, rest: seq<Part>, v: Display)
    requires IsPath(path)
    ensures PartsDisplay(Words(path) + rest, nest, v) ==
      PartsDisplay(rest, nest + |path|,
                   Display(v.out + (if nest > 0 then "::" else "") + Joined(path), path[|path| - 1]))
  {
    hide PartDisplay;
    var parts, v1 := Words(path) + rest, v.(out := v.out + if nest > 0 then "::" else "");
    var v2 := Display(v1.out + path[0], path[0]);
    assert PartDisplay(Word(path[0]), v1) == v2 by { WordShown(path[0], v1); }
    assert parts[1..] == Words(path[1..]) + rest && parts[0] == Word(path[0]);
    assert PartsDisplay(parts, nest, v) == PartsDisplay(parts[1..], nest + 1, v2);
    if |path| > 1 {
      PathDisplay(path[1..], nest + 1, rest, v2);
      assert v2.out + "::" + Joined(path[1..]) == v1.out + (path[0] + "::" + Joined(path[1..]));
    } else {
      assert parts[1..] == rest;
    }
  }

  lemma WordShown(id: string, v: Display)
    requires !IsAnonymous(id)
    ensures PartDisplay(Word(id), v) == Display(v.out + id, id)
  {
  }

  function Member(path: seq<string>, part: Part, parameters: seq<Parameter>): Symbol {
    Function(Scoped("", Parts(Words(path) + [part])), parameters)
  }

  lemma ScopedShown(parts: seq<Part>, parameters: seq<Parameter>)
    ensures Shown(Function(Scoped("", Parts(parts)), parameters)) == PartsDisplay(parts, 0, BLANK).out + "()"
  {
  }

  lemma {:induction false} MemberShown(path: seq<string>, part: Part, parameters: seq<Parameter>)
    requires IsPath(path)
    ensures Shown(Member(path, part, parameters)) ==
      PartDisplay(part, Display(Joined(path) + "::", path[|path| - 1])).out + "()"
  {
    hide PartDisplay, PartsDisplay, Words, Joined, Shown;
    var v := Display(Joined(path), path[|path| - 1]);
    PathDisplay(path, 0, [part], BLANK);
    assert "" + "" + Joined(path) == Joined(path);
    LastPart(part, |path|, v);
    ScopedShown(Words(path) + [part], parameters);
  }

  /** Constructors and destructors bear the name of the last class of the path. */
  lemma {:induction false} MembersShown(path: seq<string>, kind: char, parameters: seq<Parameter>)
    requires IsPath(path)
    ensures Shown(Member(path, Constructor(kind), parameters)) == Joined(path) + "::" + path[|path| - 1] + "()"
    ensures Shown(Member(path, Destructor(kind), parameters)) == Joined(path) + "::~" + path[|path| - 1] + "()"
  {
    hide Shown, Member, Joined;
    MemberShown(path, Constructor(kind), parameters);
    MemberShown(path, Destructor(kind), parameters);
    assert Joined(path) + "::" + "~" == Joined(path) + "::~";
  }

  lemma LastPart(p: Part, nest: nat, v: Display)
    requires nest > 0
    ensures PartsDisplay([p], nest, v) == PartDisplay(p, v.(out := v.out + "::"))
  {
    assert [p][1..] == [];
  }

  lemma {:induction false} PartsConcat(parts: seq<Part>, part: Part)
    ensures PartsText(parts + [part]) == PartsText(parts) + PartText(part)
  {
    hide PartText;
    if parts == [] {
      assert [part][1..] == [];
    } else {
      assert (parts + [part])[1..] == parts[1..] + [part];
      PartsConcat(parts[1..], part);
    }
  }

  lemma {:induction false} MemberIsSymbol(path: seq<string>, part: Part, parameters: seq<Parameter>)
    requires IsPath(path) && IsPart(part) && parameters != [] && AreParameters(parameters)
    ensures IsSymbol(Member(path, part, parameters))
  {
    hide IsPart, AreParameters;
    var parts := Words(path) + [part];
    forall k | 0 <= k < |parts|
      ensures IsPart(parts[k]) && (k == 0 ==> !parts[k].Operator?)
    {
      if k < |path| { WordIsPart(path[k]); }
    }
    assert IsScope(Parts(parts), false);
  }

  lemma WordIsPart(id: string)
    requires Identifier(id)
    ensures IsPart(Word(id))
  {
  }

  lemma {:induction false} MemberText(path: seq<string>, part: Part, parameters: seq<Parameter>)
    ensures Mangled(Member(path, part, parameters)) ==
      "_ZN" + PartsText(Words(path)) + PartText(part) + "E" + ParametersText(parameters)
  {
    hide PartText, PartsText, ParametersText, Words;
    var text := PartsText(Words(path) + [part]);
    PartsConcat(Words(path), part);
    ScopedText(Parts(Words(path) + [part]), parameters);
    assert "_Z" + ("N" + ("" + (text + "E")) + ParametersText(parameters)) ==
      "_ZN" + text + "E" + ParametersText(parameters);
    assert "_ZN" + (PartsText(Words(path)) + PartText(part)) == "_ZN" + PartsText(Words(path)) + PartText(part);
  }

  lemma ScopedText(scope: Scope, parameters: seq<Parameter>)
    ensures Mangled(Function(Scoped("", scope), parameters)) ==
      "_Z" + ("N" + ("" + (ScopeText(scope) + "E")) + ParametersText(parameters))
    ensures scope.Parts? ==> ScopeText(scope) == PartsText(scope.parts)
  {
    hide PartsText, ParametersText;
  }
}

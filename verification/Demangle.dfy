/** The demangler of demangle.cc: one object per call of Demangle, holding the State
    struct that the parse functions share, and one method per parse function.

    Every method is proved against the ordered reading of its grammar rule. The ghost
    context `ctx` is what the method has rendered if the buffer is large enough; see
    `Faithful`. */
module Demangle {
  import opened Wrappers
  import opened DemangleGrammar
  import opened DemangleTheory
  import opened DemangleCode
  import opened DemangleRoundTrip
  import opened DemangleSymbols

  type CString = s: string | forall k :: 0 <= k < |s| ==> s[k] != '\0' witness ""

  /** The State struct. Cursors are offsets: `cur` into the mangled name, `outCur` and
      `prevName` into the output buffer. */
  datatype State = State(cur: nat, outCur: nat, prevName: nat, prevNameLength: int,
                         nestLevel: int, append: bool, overflowed: bool)

  /** A `const char *` argument: a text of its own, or a place in the output buffer. */
  datatype Chars = Text(text: string) | Output(at: nat)

  class Demangler {
    const mangled: CString
    const out: array<char>
    const memory: nat -> char  // what lies past the end of the output buffer
    var st: State
    ghost var ctx: Context

    /** s is the machine form of the context c, as far as that does not depend on the buffer. */
    ghost predicate Represents(s: State, c: Context) {
      && s.cur <= |mangled| && (s.outCur == 0 || s.outCur < out.Length)
      && s.nestLevel == c.nest && s.append == c.append && |c.out| <= c.peak
      && (c.peak < out.Length ==>
            && !s.overflowed && s.outCur == |c.out|
            && (if c.prev == "" then s.prevNameLength <= 0
                else s.prevNameLength == |c.prev| && At(c.out, s.prevName, c.prev)))
    }

    /** While no attempt has outgrown the buffer, it holds the rendered text. */
    ghost predicate Faithful()
      reads this, out
    {
      ctx.peak < out.Length ==> ctx.out <= out[..]
    }

    ghost predicate Valid()
      reads this, out
    {
      && st.cur <= |mangled| && st.nestLevel == ctx.nest && st.append == ctx.append
      && Represents(st, ctx) && Faithful()
    }

    /** Reading g from state s0 and context c0 gives ok and, if ok, the current state. */
    ghost predicate Tried(g: Grammar, s0: State, c0: Context, ok: bool)
      reads this
    {
      && s0.cur <= |mangled|
      && Eval(g, mangled, s0.cur, c0) ==
         (if ok then Outcome(true, st.cur, ctx) else Fail(s0.cur, Back(c0, ctx)))
      && Grew(c0, ctx)
    }

    /** The same, and a failure leaves the state as it was. */
    ghost predicate Ran(g: Grammar, s0: State, c0: Context, ok: bool)
      reads this
    {
      && s0.cur <= |mangled|
      && Eval(g, mangled, s0.cur, c0) == Outcome(ok, st.cur, ctx)
      && Grew(c0, ctx)
      && (!ok ==> st == s0)
    }

    constructor (mangled: CString, out: array<char>, memory: nat -> char)
      ensures Valid() && this.mangled == mangled && this.out == out
      ensures st.cur == 0 && ctx == Context("", "", -1, true, 0, false) && !st.overflowed
    {
      this.mangled, this.out, this.memory := mangled, out, memory;
      st := State(0, 0, 0, -1, -1, true, false);
      ctx := Context("", "", -1, true, 0, false);
    }

    function CharAt(i: nat): char {
      if i < |mangled| then mangled[i] else '\0'
    }

    method Restore(copy: State, ghost c0: Context)
      requires Valid() && Represents(copy, c0) && Grew(c0, ctx)
      modifies this
      ensures Valid() && st == copy && ctx == Back(c0, old(ctx))
    {
      st := copy;
      ctx := Back(c0, ctx);
    }

    // -------------------------------------------------------------------------
    // Tokens

    method ParseOneCharToken(token: char) returns (ok: bool)
      requires Valid() && token != '\0'
      modifies this
      ensures Valid() && Ran(Tok([token]), old(st), old(ctx), ok)
      ensures st == old(st).(cur := st.cur) && ctx == old(ctx)
    {
      if CharAt(st.cur) == token {
        st := st.(cur := st.cur + 1);
        return true;
      }
      return false;
    }

    method ParseTwoCharToken(token: string) returns (ok: bool)
      requires Valid() && |token| == 2 && token[0] != '\0' && token[1] != '\0'
      modifies this
      ensures Valid() && Ran(Tok(token), old(st), old(ctx), ok)
      ensures st == old(st).(cur := st.cur) && ctx == old(ctx)
    {
      TwoCharacters(mangled, st.cur, token);
      if CharAt(st.cur) == token[0] && CharAt(st.cur + 1) == token[1] {
        st := st.(cur := st.cur + 2);
        return true;
      }
      return false;
    }

    method ParseCharClass(charClass: string) returns (ok: bool)
      requires Valid() && '\0' !in charClass
      modifies this
      ensures Valid() && Ran(Class(charClass), old(st), old(ctx), ok)
      ensures st == old(st).(cur := st.cur) && ctx == old(ctx)
    {
      var p := 0;
      while p < |charClass|
        invariant 0 <= p <= |charClass|
        invariant CharAt(st.cur) !in charClass[..p]
        invariant st == old(st) && ctx == old(ctx)
      {
        if CharAt(st.cur) == charClass[p] {
          st := st.(cur := st.cur + 1);
          return true;
        }
        p := p + 1;
      }
      return false;
    }

    method MoveBy(n: int)
      requires Valid() && 0 <= st.cur + n <= |mangled|
      modifies this
      ensures Valid() && st == old(st).(cur := old(st.cur) + n) && ctx == old(ctx)
    {
      st := st.(cur := st.cur + n);
    }

    method AtLeastNumCharsRemaining(n: int) returns (ok: bool)
      requires Valid()
      ensures ok == (st.cur + n <= |mangled| || n <= 0)
    {
      var i := 0;
      while i < n
        invariant 0 <= i && (i <= n || n < 0) && (i > 0 ==> st.cur + i <= |mangled|)
      {
        if CharAt(st.cur + i) == '\0' { return false; }
        i := i + 1;
      }
      return true;
    }

    // -------------------------------------------------------------------------
    // Output

    function CharOf(str: Chars, i: nat): char
      requires str.Text? ==> i < |str.text|
      reads out
    {
      match str
      case Text(text) => text[i]
      case Output(at) => if at + i < out.Length then out[at + i] else memory(at + i)
    }

    /** text is what the first length characters at str are, whenever ctx is faithful. */
    ghost predicate Denotes(str: Chars, length: int, text: string)
      reads this
    {
      match str
      case Text(t) => text == t && length == |t|
      case Output(at) => text == ctx.prev && at == st.prevName && length == st.prevNameLength
    }

    /** Only the output part of the state differs from s0. */
    ghost predicate SameInput(s0: State)
      reads this
    {
      st.cur == s0.cur && st.nestLevel == s0.nestLevel && st.append == s0.append
    }

    /** Copies what fits; says so if not all of it does; and ends the output, unless some of it was ever lost. */
    method Append(str: Chars, length: int, ghost text: string, ghost fits: bool)
      requires length >= 1 && (str.Text? ==> |str.text| == length)
      requires st.outCur == 0 || st.outCur < out.Length
      requires fits ==>
        st.outCur + length < out.Length && |text| == length && forall i :: 0 <= i < length ==>
          CharOf(str, i) == text[i] && (str.Output? ==> str.at + i < st.outCur)
      modifies this`st, out
      ensures st == old(st).(outCur := st.outCur, overflowed := st.overflowed)
      ensures st.outCur == 0 || st.outCur < out.Length
      ensures st.outCur == if old(st.outCur) + length < out.Length then old(st.outCur) + length
                           else if old(st.outCur) < out.Length then out.Length - 1 else old(st.outCur)
      ensures st.overflowed <==> old(st.overflowed) || old(st.outCur) + length >= out.Length
      ensures !st.overflowed ==> out[st.outCur] == '\0'
      ensures out[..old(st.outCur)] == old(out[..st.outCur])
      ensures fits ==> out[..st.outCur] == old(out[..st.outCur]) + text
    {
      var i := 0;
      while i < length
        invariant 0 <= i <= length
        invariant st == old(st).(outCur := old(st.outCur) + i)
        invariant i > 0 ==> st.outCur < out.Length
        invariant forall k :: 0 <= k < old(st.outCur) ==> out[k] == old(out[k])
        invariant fits ==> forall k :: 0 <= k < i ==> out[old(st.outCur) + k] == text[k]
      {
        if st.outCur + 1 < out.Length {
          out[st.outCur] := CharOf(str, i);
          st := st.(outCur := st.outCur + 1);
        } else {
          st := st.(overflowed := true);
          break;
        }
        i := i + 1;
      }
      if !st.overflowed {
        out[st.outCur] := '\0';
      }
    }

    /** text, preceded by whatever Print puts before it, fits and is about to be copied from str. */
    ghost predicate Ready(str: Chars, length: int, text: string, before: string)
      requires str.Text? ==> |str.text| == length
      reads this, out
    {
      && text != "" && |text| == length && !st.overflowed
      && st.outCur + length < out.Length && out[..st.outCur] == before
      && forall i :: 0 <= i < length ==> CharOf(str, i) == text[i] && (str.Output? ==> str.at + i < st.outCur)
    }

    lemma ReadyNow(str: Chars, length: int, text: string)
      requires Valid() && Denotes(str, length, text) && st.append && length > 0
      requires Print(ctx, text).peak < out.Length
      ensures text != "" && Ready(str, length, text, ctx.out)
      ensures st.outCur + |text| + (if Spaced(ctx, text) == ctx then 0 else 1) < out.Length
    {
    }

    /** The space that keeps "<" and "<" apart. */
    method AppendSpace(str: Chars, length: int, ghost text: string)
      requires Valid() && Denotes(str, length, text) && st.append && length > 0
      modifies this`st, out
      ensures st == old(st).(outCur := st.outCur, overflowed := st.overflowed)
      ensures st.outCur == 0 || st.outCur < out.Length
      ensures Print(ctx, text).peak < out.Length ==> text != "" && Ready(str, length, text, Spaced(ctx, text).out)
    {
      ghost var fits := Print(ctx, text).peak < out.Length;
      if fits { ReadyNow(str, length, text); }
      hide Represents, Faithful, Print;
      if CharOf(str, 0) == '<' && 0 < st.outCur && out[st.outCur - 1] == '<' {
        Append(Text(" "), 1, " ", fits);
      }
    }

    predicate NamesIt(text: string) { text != "" && (IsAlpha(text[0]) || text[0] == '_') }

    lemma RepresentsPrinted(s0: State, s: State, c: Context, text: string)
      requires Represents(s0, c) && c.append
      requires s.cur == s0.cur && s.nestLevel == s0.nestLevel && s.append && (s.outCur == 0 || s.outCur < out.Length)
      requires Print(c, text).peak < out.Length ==>
        && text != "" && !s.overflowed && s.outCur == |Spaced(c, text).out| + |text|
        && if NamesIt(text) then s.prevName == |Spaced(c, text).out| && s.prevNameLength == |text|
           else s.prevName == s0.prevName && s.prevNameLength == s0.prevNameLength
      ensures Represents(s, Print(c, text))
    {
      hide Print, Spaced, Write, At;
      PrintGrows(c, text);
      if text != "" { Printed(c, text, s0.prevName); }
    }

    method MaybeAppendWithLength(str: Chars, length: int, ghost text: string)
      requires Valid() && Denotes(str, length, text)
      modifies this, out
      ensures Valid() && SameInput(old(st)) && ctx == Print(old(ctx), text) && Grew(old(ctx), ctx)
      ensures str.Text? && !NamesIt(text) ==>
        st.prevName == old(st.prevName) && st.prevNameLength == old(st.prevNameLength)
    {
      PrintGrows(ctx, text);
      if st.append && length > 0 {
        AppendName(str, length, text);
      } else {
        ctx := Print(ctx, text);
      }
    }

    /** Remember the last identifier for constructors and destructors. */
    method RememberName(str: Chars, length: int)
      requires length > 0 && (str.Text? ==> |str.text| == length)
      modifies this`st
      ensures st == if IsAlpha(CharOf(str, 0)) || CharOf(str, 0) == '_'
                    then old(st).(prevName := old(st).outCur, prevNameLength := length) else old(st)
    {
      if IsAlpha(CharOf(str, 0)) || CharOf(str, 0) == '_' {
        st := st.(prevName := st.outCur, prevNameLength := length);
      }
    }

    method AppendName(str: Chars, length: int, ghost text: string)
      requires Valid() && Denotes(str, length, text) && st.append && length > 0
      modifies this, out
      ensures Valid() && SameInput(old(st)) && ctx == Print(old(ctx), text)
      ensures str.Text? && !NamesIt(text) ==>
        st.prevName == old(st.prevName) && st.prevNameLength == old(st.prevNameLength)
    {
      ghost var s0, c0, c1 := st, ctx, Print(ctx, text);
      ghost var fits := c1.peak < out.Length;
      AppendSpace(str, length, text);
      RememberName(str, length);
      Append(str, length, text, fits);
      ctx := c1;
      if text != "" { Printed(c0, text, s0.prevName); }
      assert fits ==> out[..st.outCur] == c1.out && c1.out <= out[..];
      RepresentsPrinted(s0, st, c0, text);
      hide Print, Spaced, Write, Grew, At, Represents;
    }

    method MaybeAppend(str: string)
      requires Valid()
      modifies this, out
      ensures Valid() && SameInput(old(st)) && ctx == Print(old(ctx), str) && Grew(old(ctx), ctx)
      ensures !NamesIt(str) ==>
        st.prevName == old(st.prevName) && st.prevNameLength == old(st.prevNameLength)
    {
      PrintGrows(ctx, str);
      hide Represents, Faithful, Print, Grew;
      if st.append {
        MaybeAppendWithLength(Text(str), |str|, str);
      }
    }

    // -------------------------------------------------------------------------
    // Flags

    method EnterNestedName()
      requires Valid()
      modifies this
      ensures Valid() && st == old(st).(nestLevel := 0)
      ensures ctx == old(ctx).(nest := 0) && Grew(old(ctx), ctx)
    {
      st := st.(nestLevel := 0);
      ctx := ctx.(nest := 0);
    }

    method LeaveNestedName(prev: int)
      requires Valid()
      modifies this
      ensures Valid() && st == old(st).(nestLevel := prev)
      ensures ctx == old(ctx).(nest := prev) && Grew(old(ctx), ctx)
    {
      st := st.(nestLevel := prev);
      ctx := ctx.(nest := prev);
    }

    method DisableAppend()
      requires Valid()
      modifies this
      ensures Valid() && st == old(st).(append := false)
      ensures ctx == old(ctx).(append := false) && Grew(old(ctx), ctx)
    {
      st := st.(append := false);
      ctx := ctx.(append := false);
    }

    method RestoreAppend(prev: bool)
      requires Valid()
      modifies this
      ensures Valid() && st == old(st).(append := prev)
      ensures ctx == old(ctx).(append := prev) && Grew(old(ctx), ctx)
    {
      st := st.(append := prev);
      ctx := ctx.(append := prev);
    }

    method MaybeIncreaseNestLevel()
      requires Valid()
      modifies this
      ensures Valid() && Ran(Deeper, old(st), old(ctx), true)
    {
      UnfoldLeaf(mangled, st.cur, ctx);
      hide Eval, EvalAbbrev, EvalCounted;
      if st.nestLevel > -1 {
        st := st.(nestLevel := st.nestLevel + 1);
        ctx := ctx.(nest := ctx.nest + 1);
      }
    }

    method MaybeAppendSeparator()
      requires Valid()
      modifies this, out
      ensures Valid() && SameInput(old(st)) && Ran(Separator, old(st), old(ctx), true)
      ensures st.prevName == old(st.prevName) && st.prevNameLength == old(st.prevNameLength)
    {
      UnfoldLeaf(mangled, st.cur, ctx);
      hide Eval, EvalAbbrev, EvalCounted, Represents, Faithful, Print;
      GrewSteps();
      if st.nestLevel >= 1 {
        MaybeAppend("::");
      }
    }

    /** Undo the separator appended in state s0 and context c0, if one was. */
    method MaybeCancelLastSeparator(ghost s0: State, ghost c0: Context)
      requires Valid() && Represents(s0, c0) && SameInput(s0) && Grew(c0, ctx)
      requires st.prevName == s0.prevName && st.prevNameLength == s0.prevNameLength
      requires ctx.out == if c0.nest >= 1 then Print(c0, "::").out else c0.out
      modifies this, out
      ensures Valid() && SameInput(s0) && ctx == Back(c0, old(ctx)) && Grew(c0, ctx)
    {
      if st.nestLevel >= 1 && st.append && 2 <= st.outCur {
        st := st.(outCur := st.outCur - 2);
        out[st.outCur] := '\0';
      }
      ctx := Back(c0, ctx);
    }

    // -------------------------------------------------------------------------
    // Numbers and identifiers

    /** The digit loop of ParseNumber: p is where it stops. */
    method ScanDigits() returns (p: nat, number: int)
      requires st.cur <= |mangled|
      ensures p == RunEnd(mangled, st.cur, Digits()) && st.cur <= p <= |mangled|
      ensures number == Decimal(mangled[st.cur..p])
    {
      hide Digits, Decimal;
      p := st.cur;
      assert mangled[p..p] == "";
      EmptyDecimal();
      number := 0;
      while p < |mangled|
        invariant st.cur <= p <= |mangled|
        invariant RunEnd(mangled, st.cur, Digits()) == RunEnd(mangled, p, Digits())
        invariant number == Decimal(mangled[st.cur..p])
      {
        DigitClass(mangled[p]);
        if IsDigit(mangled[p]) {
          DecimalStep(mangled, st.cur, p);
          number := number * 10 + (mangled[p] as int - '0' as int);
        } else {
          break;
        }
        p := p + 1;
      }
    }

    method ParseNumber() returns (ok: bool, number: int)
      requires Valid()
      modifies this
      ensures Valid() && Tried(NT(Number), old(st), old(ctx), ok) && ctx == old(ctx)
      ensures ok == (DigitsEnd(mangled, old(st.cur)) > DigitsStart(mangled, old(st.cur)))
      ensures ok ==> number == NumberAt(mangled, old(st.cur)) && st == old(st).(cur := DigitsEnd(mangled, old(st.cur)))
      ensures !ok ==> st == old(st).(cur := st.cur)
      decreases |mangled| - st.cur, 1, 1
    {
      NumberOutcome(mangled, st.cur, ctx);
      GrewSteps();
      var minus := ParseSign();  // the optional n
      var sign := if minus then -1 else 1;
      var p;
      p, number := ScanDigits();
      hide Eval, Represents, Faithful, Grew, Decimal, RunEnd, DigitsStart, Digits;
      ok := p != st.cur;
      if ok {
        MoveBy(p - st.cur);
        number := number * sign;
      }
    }

    method ParseSign() returns (minus: bool)
      requires Valid()
      modifies this
      ensures Valid() && st == old(st).(cur := DigitsStart(mangled, old(st.cur))) && ctx == old(ctx)
      ensures minus == (DigitsStart(mangled, old(st.cur)) != old(st.cur))
    {
      minus := ParseOneCharToken('n');
    }

    method ScanHexDigits() returns (p: nat)
      requires st.cur <= |mangled|
      ensures p == RunEnd(mangled, st.cur, HexDigits())
    {
      hide HexDigits;
      p := st.cur;
      while p < |mangled|
        invariant st.cur <= p <= |mangled|
        invariant RunEnd(mangled, st.cur, HexDigits()) == RunEnd(mangled, p, HexDigits())
      {
        HexClass(mangled[p]);
        if !IsDigit(mangled[p]) && !('a' <= mangled[p] <= 'f') { break; }
        p := p + 1;
      }
    }

    method ScanSeqId() returns (p: nat)
      requires st.cur <= |mangled|
      ensures p == RunEnd(mangled, st.cur, SeqIdDigits())
    {
      hide SeqIdDigits;
      p := st.cur;
      while p < |mangled|
        invariant st.cur <= p <= |mangled|
        invariant RunEnd(mangled, st.cur, SeqIdDigits()) == RunEnd(mangled, p, SeqIdDigits())
      {
        SeqIdClass(mangled[p]);
        if !IsDigit(mangled[p]) && !('A' <= mangled[p] <= 'Z') { break; }
        p := p + 1;
      }
    }

    method ParseFloatNumber() returns (ok: bool)
      requires Valid()
      modifies this
      ensures Valid() && Ran(NT(FloatNumber), old(st), old(ctx), ok)
      decreases |mangled| - st.cur, 1, 1
    {
      hide Eval, Represents, Faithful, Grew, RunEnd;
      RunOutcome(FloatNumber, HexDigits(), mangled, st.cur, ctx);
      GrewSteps();
      var p := ScanHexDigits();
      ok := p != st.cur;
      MoveBy(p - st.cur);
    }

    method ParseSeqId() returns (ok: bool)
      requires Valid()
      modifies this
      ensures Valid() && Ran(NT(SeqId), old(st), old(ctx), ok)
      decreases |mangled| - st.cur, 1, 1
    {
      hide Eval, Represents, Faithful, Grew, RunEnd;
      RunOutcome(SeqId, SeqIdDigits(), mangled, st.cur, ctx);
      GrewSteps();
      var p := ScanSeqId();
      ok := p != st.cur;
      MoveBy(p - st.cur);
    }

    method IdentifierIsAnonymousNamespace(length: int) returns (anonymous: bool)
      requires Valid() && st.cur + length <= |mangled|
      ensures anonymous == (length > |AnonPrefix()| && At(mangled[st.cur..st.cur + length], 0, AnonPrefix()))
    {
      if length <= |AnonPrefix()| { return false; }
      var i := 0;
      while i < |AnonPrefix()|
        invariant 0 <= i <= |AnonPrefix()|
        invariant forall j :: 0 <= j < i ==> mangled[st.cur + j] == AnonPrefix()[j]
      {
        if CharAt(st.cur + i) != AnonPrefix()[i] {
          assert mangled[st.cur..st.cur + length][..|AnonPrefix()|][i] == mangled[st.cur + i];
          return false;
        }
        i := i + 1;
      }
      assert mangled[st.cur..st.cur + length][..|AnonPrefix()|] == AnonPrefix();
      return true;
    }

    /** A length below -1 passes both tests and takes the cursor back; asks that it stay in the text then. */
    method ParseIdentifier(length: int) returns (ok: bool)
      requires Valid() && (length < -1 ==> -length <= st.cur)
      modifies this, out
      ensures Valid() && Grew(old(ctx), ctx)
      ensures length >= -1 ==> IdentifierOutcome(length, mangled, old(st.cur), old(ctx)) == Outcome(ok, st.cur, ctx)
      ensures length < -1 ==> ok && st == old(st).(cur := old(st.cur) + length) && ctx == old(ctx)
      ensures !ok ==> st == old(st)
    {
      GrewSteps();
      hide Print, Grew;
      var enough := AtLeastNumCharsRemaining(length);
      if length == -1 || !enough { return false; }
      if length >= 0 { PrintIdentifier(length); }  // a negative length prints nothing
      MoveBy(length);
      ok := true;
    }

    method PrintIdentifier(length: nat)
      requires Valid() && st.cur + length <= |mangled|
      modifies this, out
      ensures Valid() && SameInput(old(st)) && Grew(old(ctx), ctx)
      ensures ctx == Print(old(ctx), IdentifierText(mangled[st.cur..st.cur + length]))
    {
      hide Represents, Faithful, Print, Grew;
      var id := mangled[st.cur..st.cur + length];
      var anonymous := IdentifierIsAnonymousNamespace(length);
      if anonymous {
        MaybeAppend("(anonymous namespace)");
      } else {
        MaybeAppendWithLength(Text(id), length, id);
      }
    }

    ghost method LeaveGrammar()
      requires Valid()
      modifies `ctx
      ensures Valid() && ctx == old(ctx).(rewound := true) && Grew(old(ctx), ctx)
    {
      ctx := ctx.(rewound := true);
    }

    /** Where a length below -1 is met, the run that the grammar describes is over: this is recorded, and the
        name counts as not read. See `DemangleCode` for what the code does then. */
    method ParseSourceName() returns (ok: bool)
      requires Valid()
      modifies this, out
      ensures Valid() && Ran(NT(SourceName), old(st), old(ctx), ok)
      decreases |mangled| - st.cur, 1, 1
    {
      UnfoldLeaf(mangled, st.cur, ctx);
      GrewSteps();
      hide Eval, EvalAbbrev, Represents, Faithful, Grew, RunEnd, NumberAt, DigitsEnd, DigitsStart, IdentifierOutcome;
      var copy := st;
      ghost var c0 := ctx;
      var length;
      ok, length := ParseNumber();
      if ok && length < -1 {
        LeaveGrammar();
        ok := false;
      } else if ok {
        ok := ParseIdentifier(length);
      }
      if !ok { Restore(copy, c0); }
    }

    // -------------------------------------------------------------------------
    // Names

    /** Does not restore the state on failure; its caller does. */
    method ParseMangledName() returns (ok: bool)
      requires Valid()
      modifies this, out
      ensures Valid() && Tried(NT(MangledName), old(st), old(ctx), ok)
      decreases |mangled| - st.cur, 1, 1
    {
      hide Eval, Back, Grew, Rank, Represents, Faithful, CharAt;
      GrewSteps();
      Sequence2(MangledName, Tok("_Z"), NT(Encoding), mangled, st.cur, ctx);
      ok := ParseTwoCharToken("_Z");
      if ok { ok := ParseEncoding(); }
    }

    method ParseEncoding() returns (ok: bool)
      requires Valid()
      modifies this, out
      ensures Valid() && Ran(NT(Encoding), old(st), old(ctx), ok)
      decreases |mangled| - st.cur, 6, 1
    {
      hide Eval, Back, Grew, Rank, Represents, Faithful, CharAt;
      GrewSteps();
      var copy := st;
      ghost var c0 := ctx;
      Alternatives3(Encoding, Seq(NT(Name), NT(BareFunctionType)), NT(Name), NT(SpecialName), mangled, st.cur, ctx);
      Unfold2(NT(Name), NT(BareFunctionType), mangled, st.cur, ctx);
      ok := ParseName();
      if ok { ok := ParseBareFunctionType(); }
      if !ok {
        Restore(copy, c0);
        ok := ParseName();
        if !ok { ok := ParseSpecialName(); }
      }
    }

    method ParseName() returns (ok: bool)
      requires Valid()
      modifies this, out
      ensures Valid() && Ran(NT(Name), old(st), old(ctx), ok)
      decreases |mangled| - st.cur, 5, 1
    {
      hide Eval, Back, Grew, Rank, Represents, Faithful, CharAt;
      GrewSteps();
      Alternatives4(Name, NT(NestedName),
                    NT(LocalName),
                    Seq(NT(UnscopedTemplateName), NT(TemplateArgs)),
                    NT(UnscopedName),
                    mangled, st.cur, ctx);
      ok := ParseNestedName();
      if !ok { ok := ParseLocalName(); }
      if ok { return; }

      var copy := st;
      ghost var c0 := ctx;
      Unfold2(NT(UnscopedTemplateName), NT(TemplateArgs), mangled, st.cur, ctx);
      ok := ParseUnscopedTemplateName();
      if ok { ok := ParseTemplateArgs(); }
      if !ok {
        Restore(copy, c0);
        ok := ParseUnscopedName();
      }
    }

    method ParseUnscopedName() returns (ok: bool)
      requires Valid()
      modifies this, out
      ensures Valid() && Ran(NT(UnscopedName), old(st), old(ctx), ok)
      decreases |mangled| - st.cur, 3, 1
    {
      hide Eval, Back, Grew, Rank, Represents, Faithful, CharAt;
      GrewSteps();
      Alternatives2(UnscopedName, NT(UnqualifiedName),
                    Seq3(Tok("St"), Emit("std::"), NT(UnqualifiedName)),
                    mangled, st.cur, ctx);
      ok := ParseUnqualifiedName();
      if ok { return; }

      var copy := st;
      ghost var c0 := ctx;
      Unfold3(Tok("St"), Emit("std::"), NT(UnqualifiedName), mangled, st.cur, ctx);
      ok := ParseTwoCharToken("St");
      if ok {
        UnfoldEmit("std::", mangled, st.cur, ctx);
        MaybeAppend("std::");
        ok := ParseUnqualifiedName();
      }
      if !ok { Restore(copy, c0); }
    }

    method ParseUnscopedTemplateName() returns (ok: bool)
      requires Valid()
      modifies this, out
      ensures Valid() && Ran(NT(UnscopedTemplateName), old(st), old(ctx), ok)
      decreases |mangled| - st.cur, 4, 1
    {
      hide Eval, Back, Grew, Rank, Represents, Faithful, CharAt;
      GrewSteps();
      Alternatives2(UnscopedTemplateName, NT(UnscopedName), NT(Substitution), mangled, st.cur, ctx);
      ok := ParseUnscopedName();
      if !ok { ok := ParseSubstitution(); }
    }

    method ParseNestedName() returns (ok: bool)
      requires Valid()
      modifies this, out
      ensures Valid() && Ran(NT(NestedName), old(st), old(ctx), ok)
      decreases |mangled| - st.cur, 1, 1
    {
      hide Eval, Back, Grew, Rank, Represents, Faithful, CharAt;
      GrewSteps();
      var copy := st;
      ghost var c0 := ctx;
      Sequence3(NestedName, Tok("N"),
                Nested(Seq(Opt(NT(CVQualifiers)), NT(Prefix))),
                Tok("E"),
                mangled, st.cur, ctx);
      ok := ParseOneCharToken('N');
      if ok {
        UnfoldNested(Seq(Opt(NT(CVQualifiers)), NT(Prefix)), mangled, st.cur, ctx);
        EnterNestedName();
        Unfold2(Opt(NT(CVQualifiers)), NT(Prefix), mangled, st.cur, ctx);
        UnfoldOpt(NT(CVQualifiers), mangled, st.cur, ctx);
        var _ := ParseCVQualifiers();
        ok := ParsePrefix();
        LeaveNestedName(copy.nestLevel);
        ok := ParseOneCharToken('E');
      }
      if !ok { Restore(copy, c0); }
    }

    method ParseUnqualifiedName() returns (ok: bool)
      requires Valid()
      modifies this, out
      ensures Valid() && Ran(NT(UnqualifiedName), old(st), old(ctx), ok)
      decreases |mangled| - st.cur, 2, 1
    {
      hide Eval, Back, Grew, Rank, Represents, Faithful, CharAt;
      GrewSteps();
      Alternatives4(UnqualifiedName, NT(OperatorName),
                    NT(CtorDtorName),
                    NT(SourceName),
                    NT(LocalSourceName),
                    mangled, st.cur, ctx);
      ok := ParseOperatorName();
      if !ok { ok := ParseCtorDtorName(); }
      if !ok { ok := ParseSourceName(); }
      if !ok { ok := ParseLocalSourceName(); }
    }

    method ParseLocalSourceName() returns (ok: bool)
      requires Valid()
      modifies this, out
      ensures Valid() && Ran(NT(LocalSourceName), old(st), old(ctx), ok)
      decreases |mangled| - st.cur, 1, 1
    {
      hide Eval, Back, Grew, Rank, Represents, Faithful, CharAt;
      GrewSteps();
      var copy := st;
      ghost var c0 := ctx;
      Sequence3(LocalSourceName, Tok("L"), NT(SourceName), Opt(NT(Discriminator)), mangled, st.cur, ctx);
      ok := ParseOneCharToken('L');
      if ok { ok := ParseSourceName(); }
      if ok {
        UnfoldOpt(NT(Discriminator), mangled, st.cur, ctx);
        var _ := ParseDiscriminator();
      }
      if !ok { Restore(copy, c0); }
    }

    method ParseDiscriminator() returns (ok: bool)
      requires Valid()
      modifies this, out
      ensures Valid() && Ran(NT(Discriminator), old(st), old(ctx), ok)
      decreases |mangled| - st.cur, 1, 1
    {
      hide Eval, Back, Grew, Rank, Represents, Faithful, CharAt;
      GrewSteps();
      var copy := st;
      ghost var c0 := ctx;
      Sequence2(Discriminator, Tok("_"), NT(Number), mangled, st.cur, ctx);
      ok := ParseOneCharToken('_');
      if ok {
        var value;
        ok, value := ParseNumber();
      }
      if !ok { Restore(copy, c0); }
    }

    method ParseLocalName() returns (ok: bool)
      requires Valid()
      modifies this, out
      ensures Valid() && Ran(NT(LocalName), old(st), old(ctx), ok)
      decreases |mangled| - st.cur, 1, 1
    {
      hide Eval, Back, Grew, Rank, Represents, Faithful, CharAt;
      GrewSteps();
      Alternatives2(LocalName, LocalEntityName(), LocalString(), mangled, st.cur, ctx);
      ok := ParseLocalEntityName();
      if !ok { ok := ParseLocalString(); }
    }

    method ParseLocalEntityName() returns (ok: bool)
      requires Valid()
      modifies this, out
      ensures Valid() && Ran(LocalEntityName(), old(st), old(ctx), ok)
      decreases |mangled| - st.cur, 1, 0
    {
      hide Eval, Back, Grew, Rank, Represents, Faithful, CharAt;
      GrewSteps();
      var copy := st;
      ghost var c0 := ctx;
      Unfold4(Tok("Z"), NT(Encoding), Tok("E"), LocalEntity(), mangled, st.cur, ctx);
      ok := ParseOneCharToken('Z');
      if ok { ok := ParseEncoding(); }
      if ok { ok := ParseOneCharToken('E'); }
      if ok { ok := ParseLocalEntity(); }
      if !ok { Restore(copy, c0); }
    }

    method ParseLocalString() returns (ok: bool)
      requires Valid()
      modifies this, out
      ensures Valid() && Ran(LocalString(), old(st), old(ctx), ok)
      decreases |mangled| - st.cur, 1, 0
    {
      hide Eval, Back, Grew, Rank, Represents, Faithful, CharAt;
      GrewSteps();
      var copy := st;
      ghost var c0 := ctx;
      Unfold4(Tok("Z"), NT(Encoding), Tok("Es"), Opt(NT(Discriminator)), mangled, st.cur, ctx);
      ok := ParseOneCharToken('Z');
      if ok { ok := ParseEncoding(); }
      if ok { ok := ParseTwoCharToken("Es"); }
      if ok {
        UnfoldOpt(NT(Discriminator), mangled, st.cur, ctx);
        var _ := ParseDiscriminator();
      }
      if !ok { Restore(copy, c0); }
    }

    /** The rest of a local name, after the E that ends its function's encoding. */
    method ParseLocalEntity() returns (ok: bool)
      requires Valid()
      modifies this, out
      ensures Valid() && Tried(LocalEntity(), old(st), old(ctx), ok)
      decreases |mangled| - st.cur, 6, 0
    {
      hide Eval, Back, Grew, Rank, Represents, Faithful, CharAt;
      GrewSteps();
      Unfold3(Emit("::"), NT(Name), Opt(NT(Discriminator)), mangled, st.cur, ctx);
      UnfoldEmit("::", mangled, st.cur, ctx);
      MaybeAppend("::");
      ok := ParseName();
      if ok {
        UnfoldOpt(NT(Discriminator), mangled, st.cur, ctx);
        var _ := ParseDiscriminator();
      }
    }

    // -------------------------------------------------------------------------
    // Special names and offsets

    method ParseSpecialName() returns (ok: bool)
      requires Valid()
      modifies this, out
      ensures Valid() && Ran(NT(SpecialName), old(st), old(ctx), ok)
      decreases |mangled| - st.cur, 1, 1
    {
      hide Eval, Back, Grew, Rank, Represents, Faithful, CharAt;
      GrewSteps();
      Alternatives2(SpecialName, AbiSpecialName(), GnuSpecialName(), mangled, st.cur, ctx);
      ok := ParseAbiSpecialName();
      if !ok { ok := ParseGnuSpecialName(); }
    }

    method ParseAbiSpecialName() returns (ok: bool)
      requires Valid()
      modifies this, out
      ensures Valid() && Ran(AbiSpecialName(), old(st), old(ctx), ok)
      decreases |mangled| - st.cur, 1, 0
    {
      hide Eval, Back, Grew, Rank, Represents, Faithful, CharAt;
      GrewSteps();
      Choose(Alt(VTableName(), CovariantThunk()), Alt(GuardVariable(), Thunk()), mangled, st.cur, ctx);
      Choose(VTableName(), CovariantThunk(), mangled, st.cur, ctx);
      ok := ParseVTableName();
      if !ok { ok := ParseCovariantThunk(); }
      if !ok {
          Choose(GuardVariable(), Thunk(), mangled, st.cur, ctx);
          ok := ParseGuardVariable();
      }
      if !ok { ok := ParseThunk(); }
    }

    method ParseVTableName() returns (ok: bool)
      requires Valid()
      modifies this, out
      ensures Valid() && Ran(VTableName(), old(st), old(ctx), ok)
      decreases |mangled| - st.cur, 0, 0
    {
      hide Eval, Back, Grew, Rank, Represents, Faithful, CharAt;
      GrewSteps();
      var copy := st;
      ghost var c0 := ctx;
      Unfold3(Tok("T"), Class("VTIS"), NT(Type), mangled, st.cur, ctx);
      ok := ParseOneCharToken('T');
      if ok { ok := ParseCharClass("VTIS"); }
      if ok { ok := ParseType(); }
      if !ok { Restore(copy, c0); }
    }

    method ParseCovariantThunk() returns (ok: bool)
      requires Valid()
      modifies this, out
      ensures Valid() && Ran(CovariantThunk(), old(st), old(ctx), ok)
      decreases |mangled| - st.cur, 0, 0
    {
      hide Eval, Back, Grew, Rank, Represents, Faithful, CharAt;
      GrewSteps();
      var copy := st;
      ghost var c0 := ctx;
      Unfold4(Tok("Tc"), NT(CallOffset), NT(CallOffset), NT(Encoding), mangled, st.cur, ctx);
      ok := ParseTwoCharToken("Tc");
      if ok { ok := ParseCallOffset(); }
      if ok { ok := ParseCallOffset(); }
      if ok { ok := ParseEncoding(); }
      if !ok { Restore(copy, c0); }
    }

    method ParseGuardVariable() returns (ok: bool)
      requires Valid()
      modifies this, out
      ensures Valid() && Ran(GuardVariable(), old(st), old(ctx), ok)
      decreases |mangled| - st.cur, 0, 0
    {
      hide Eval, Back, Grew, Rank, Represents, Faithful, CharAt;
      GrewSteps();
      var copy := st;
      ghost var c0 := ctx;
      Unfold2(Tok("GV"), NT(Name), mangled, st.cur, ctx);
      ok := ParseTwoCharToken("GV");
      if ok { ok := ParseName(); }
      if !ok { Restore(copy, c0); }
    }

    method ParseThunk() returns (ok: bool)
      requires Valid()
      modifies this, out
      ensures Valid() && Ran(Thunk(), old(st), old(ctx), ok)
      decreases |mangled| - st.cur, 0, 0
    {
      hide Eval, Back, Grew, Rank, Represents, Faithful, CharAt;
      GrewSteps();
      var copy := st;
      ghost var c0 := ctx;
      Unfold3(Tok("T"), NT(CallOffset), NT(Encoding), mangled, st.cur, ctx);
      ok := ParseOneCharToken('T');
      if ok { ok := ParseCallOffset(); }
      if ok { ok := ParseEncoding(); }
      if !ok { Restore(copy, c0); }
    }

    method ParseGnuSpecialName() returns (ok: bool)
      requires Valid()
      modifies this, out
      ensures Valid() && Ran(GnuSpecialName(), old(st), old(ctx), ok)
      decreases |mangled| - st.cur, 1, 0
    {
      hide Eval, Back, Grew, Rank, Represents, Faithful, CharAt;
      GrewSteps();
      Choose(ConstructionVTable(),
             Alt4(JavaName(), ReferenceTemporary(), HiddenAlias(), OffsetThunk()),
             mangled, st.cur, ctx);
      ok := ParseConstructionVTable();
      if !ok {
          Choose4(JavaName(), ReferenceTemporary(), HiddenAlias(), OffsetThunk(), mangled, st.cur, ctx);
          ok := ParseJavaName();
          if !ok { ok := ParseReferenceTemporary(); }
          if !ok { ok := ParseHiddenAlias(); }
          if !ok { ok := ParseOffsetThunk(); }
      }
    }

    method ParseConstructionVTable() returns (ok: bool)
      requires Valid()
      modifies this, out
      ensures Valid() && Ran(ConstructionVTable(), old(st), old(ctx), ok)
      decreases |mangled| - st.cur, 0, 0
    {
      hide Eval, Back, Grew, Rank, Represents, Faithful, CharAt;
      GrewSteps();
      var copy := st;
      ghost var c0 := ctx;
      Unfold4(Tok("TC"), NT(Type), NT(Number), Seq(Tok("_"), Quiet(NT(Type))), mangled, st.cur, ctx);
      ok := ParseTwoCharToken("TC");
      if ok {
        AppendKept(NT(Type), mangled, st.cur, ctx);
        ok := ParseType();
      }
      if ok {
        var value;
        ok, value := ParseNumber();
      }
      if ok {
        Unfold2(Tok("_"), Quiet(NT(Type)), mangled, st.cur, ctx);
        ok := ParseOneCharToken('_');
      }
      if ok {
        UnfoldQuiet(NT(Type), mangled, st.cur, ctx);
        DisableAppend();
        ok := ParseType();
        if ok { RestoreAppend(copy.append); }
      }
      if !ok { Restore(copy, c0); }
    }

    method ParseJavaName() returns (ok: bool)
      requires Valid()
      modifies this, out
      ensures Valid() && Ran(JavaName(), old(st), old(ctx), ok)
      decreases |mangled| - st.cur, 0, 0
    {
      hide Eval, Back, Grew, Rank, Represents, Faithful, CharAt;
      GrewSteps();
      var copy := st;
      ghost var c0 := ctx;
      Unfold3(Tok("T"), Class("FJ"), NT(Type), mangled, st.cur, ctx);
      ok := ParseOneCharToken('T');
      if ok { ok := ParseCharClass("FJ"); }
      if ok { ok := ParseType(); }
      if !ok { Restore(copy, c0); }
    }

    method ParseReferenceTemporary() returns (ok: bool)
      requires Valid()
      modifies this, out
      ensures Valid() && Ran(ReferenceTemporary(), old(st), old(ctx), ok)
      decreases |mangled| - st.cur, 0, 0
    {
      hide Eval, Back, Grew, Rank, Represents, Faithful, CharAt;
      GrewSteps();
      var copy := st;
      ghost var c0 := ctx;
      Unfold2(Tok("GR"), NT(Name), mangled, st.cur, ctx);
      ok := ParseTwoCharToken("GR");
      if ok { ok := ParseName(); }
      if !ok { Restore(copy, c0); }
    }

    method ParseHiddenAlias() returns (ok: bool)
      requires Valid()
      modifies this, out
      ensures Valid() && Ran(HiddenAlias(), old(st), old(ctx), ok)
      decreases |mangled| - st.cur, 0, 0
    {
      hide Eval, Back, Grew, Rank, Represents, Faithful, CharAt;
      GrewSteps();
      var copy := st;
      ghost var c0 := ctx;
      Unfold2(Tok("GA"), NT(Encoding), mangled, st.cur, ctx);
      ok := ParseTwoCharToken("GA");
      if ok { ok := ParseEncoding(); }
      if !ok { Restore(copy, c0); }
    }

    method ParseOffsetThunk() returns (ok: bool)
      requires Valid()
      modifies this, out
      ensures Valid() && Ran(OffsetThunk(), old(st), old(ctx), ok)
      decreases |mangled| - st.cur, 0, 0
    {
      hide Eval, Back, Grew, Rank, Represents, Faithful, CharAt;
      GrewSteps();
      var copy := st;
      ghost var c0 := ctx;
      Unfold4(Tok("T"), Class("hv"), NT(CallOffset), NT(Encoding), mangled, st.cur, ctx);
      ok := ParseOneCharToken('T');
      if ok { ok := ParseCharClass("hv"); }
      if ok { ok := ParseCallOffset(); }
      if ok { ok := ParseEncoding(); }
      if !ok { Restore(copy, c0); }
    }

    method ParseCallOffset() returns (ok: bool)
      requires Valid()
      modifies this, out
      ensures Valid() && Ran(NT(CallOffset), old(st), old(ctx), ok)
      decreases |mangled| - st.cur, 1, 1
    {
      hide Eval, Back, Grew, Rank, Represents, Faithful, CharAt;
      GrewSteps();
      var copy := st;
      ghost var c0 := ctx;
      Alternatives2(CallOffset, Seq3(Tok("h"), NT(NVOffset), Tok("_")),
                    Seq3(Tok("v"), NT(VOffset), Tok("_")),
                    mangled, st.cur, ctx);
      Unfold3(Tok("h"), NT(NVOffset), Tok("_"), mangled, st.cur, ctx);
      ok := ParseOneCharToken('h');
      if ok { ok := ParseNVOffset(); }
      if ok { ok := ParseOneCharToken('_'); }
      if !ok {
        Restore(copy, c0);
        Unfold3(Tok("v"), NT(VOffset), Tok("_"), mangled, st.cur, ctx);
        ok := ParseOneCharToken('v');
        if ok { ok := ParseVOffset(); }
        if ok { ok := ParseOneCharToken('_'); }
      }
      if !ok { Restore(copy, c0); }
    }

    /** Does not restore the state on failure; its caller does. */
    method ParseNVOffset() returns (ok: bool)
      requires Valid()
      modifies this, out
      ensures Valid() && Tried(NT(NVOffset), old(st), old(ctx), ok)
      decreases |mangled| - st.cur, 2, 1
    {
      hide Eval, Grew, Represents, Faithful;
      Unfold(NVOffset, mangled, st.cur, ctx);
      var value;
      ok, value := ParseNumber();
    }

    method ParseVOffset() returns (ok: bool)
      requires Valid()
      modifies this, out
      ensures Valid() && Ran(NT(VOffset), old(st), old(ctx), ok)
      decreases |mangled| - st.cur, 2, 1
    {
      hide Eval, Back, Grew, Rank, Represents, Faithful, CharAt;
      GrewSteps();
      var copy := st;
      ghost var c0 := ctx;
      Sequence3(VOffset, NT(Number), Tok("_"), NT(Number), mangled, st.cur, ctx);
      var value;
      ok, value := ParseNumber();
      if ok { ok := ParseOneCharToken('_'); }
      if ok { ok, value := ParseNumber(); }
      if !ok { Restore(copy, c0); }
    }

    method ParseCtorDtorName() returns (ok: bool)
      requires Valid()
      modifies this, out
      ensures Valid() && Ran(NT(CtorDtorName), old(st), old(ctx), ok)
      decreases |mangled| - st.cur, 1, 1
    {
      hide Eval, Back, Grew, Rank, Represents, Faithful, CharAt;
      GrewSteps();
      Alternatives2(CtorDtorName, CtorName(), DtorName(), mangled, st.cur, ctx);
      ok := ParseCtorName();
      if !ok { ok := ParseDtorName(); }
    }

    method ParseCtorName() returns (ok: bool)
      requires Valid()
      modifies this, out
      ensures Valid() && Ran(CtorName(), old(st), old(ctx), ok)
      decreases |mangled| - st.cur, 0, 0
    {
      hide Eval, Back, Grew, Rank, Represents, Faithful, CharAt;
      GrewSteps();
      var copy := st;
      ghost var c0 := ctx;
      Unfold3(Tok("C"), Class("123"), EmitPrev, mangled, st.cur, ctx);
      ok := ParseOneCharToken('C');
      if ok { ok := ParseCharClass("123"); }
      if ok {
        UnfoldEmitPrev(mangled, st.cur, ctx);
        MaybeAppendWithLength(Output(st.prevName), st.prevNameLength, ctx.prev);
      }
      if !ok { Restore(copy, c0); }
    }

    method ParseDtorName() returns (ok: bool)
      requires Valid()
      modifies this, out
      ensures Valid() && Ran(DtorName(), old(st), old(ctx), ok)
      decreases |mangled| - st.cur, 0, 0
    {
      hide Eval, Back, Grew, Rank, Represents, Faithful, CharAt;
      GrewSteps();
      var copy := st;
      ghost var c0 := ctx;
      Unfold4(Tok("D"), Class("012"), Emit("~"), EmitPrev, mangled, st.cur, ctx);
      ok := ParseOneCharToken('D');
      if ok { ok := ParseCharClass("012"); }
      if ok {
        UnfoldEmit("~", mangled, st.cur, ctx);
        MaybeAppend("~");
        UnfoldEmitPrev(mangled, st.cur, ctx);
        MaybeAppendWithLength(Output(st.prevName), st.prevNameLength, ctx.prev);
      }
      if !ok { Restore(copy, c0); }
    }

    // -------------------------------------------------------------------------
    // Operators and substitutions

    /** The search of an abbreviation table, for the row standing at the given position. */
    method FindAbbrev(table: Table, at: nat) returns (k: nat)
      requires at <= |mangled|
      ensures k == FindRow(Rows(table), Width(table), 0, mangled, at)
    {
      RowFacts(table);
      hide Rows;
      var rows := Rows(table);
      k := 0;
      while k < |rows|
        invariant 0 <= k <= |rows|
        invariant FindRow(rows, Width(table), 0, mangled, at) == FindRow(rows, Width(table), k, mangled, at)
      {
        if CharAt(at) == rows[k].first && (Width(table) == 1 || CharAt(at + 1) == rows[k].second) { return; }
        k := k + 1;
      }
    }

    method ParseOperatorName() returns (ok: bool)
      requires Valid()
      modifies this, out
      ensures Valid() && Ran(NT(OperatorName), old(st), old(ctx), ok)
      decreases |mangled| - st.cur, 1, 1
    {
      hide Eval, EvalAbbrev, Back, Grew, Rank, Represents, Faithful, CharAt, Rows;
      GrewSteps();
      var enough := AtLeastNumCharsRemaining(2);
      if !enough {
        OperatorNeedsTwo(mangled, st.cur, ctx);
        return false;
      }
      Alternatives3(OperatorName, CastOperator(), VendorOperator(), Abbrev(Operators), mangled, st.cur, ctx);
      ok := ParseCastOperator();
      if !ok { ok := ParseVendorOperator(); }
      if !ok { ok := ParseNamedOperator(); }
    }

    method ParseCastOperator() returns (ok: bool)
      requires Valid()
      modifies this, out
      ensures Valid() && Ran(CastOperator(), old(st), old(ctx), ok)
      decreases |mangled| - st.cur, 0, 0
    {
      hide Eval, Back, Grew, Rank, Represents, Faithful, CharAt;
      GrewSteps();
      var copy := st;
      ghost var c0 := ctx;
      Unfold3(Tok("cv"), Emit("operator "), Nested(NT(Type)), mangled, st.cur, ctx);
      ok := ParseTwoCharToken("cv");
      if ok {
        UnfoldEmit("operator ", mangled, st.cur, ctx);
        PrintGrows(ctx, "operator ");
        MaybeAppend("operator ");
        UnfoldNested(NT(Type), mangled, st.cur, ctx);
        EnterNestedName();
        ok := ParseType();
        if ok { LeaveNestedName(copy.nestLevel); }
      }
      if !ok { Restore(copy, c0); }
    }

    method ParseVendorOperator() returns (ok: bool)
      requires Valid()
      modifies this, out
      ensures Valid() && Ran(VendorOperator(), old(st), old(ctx), ok)
      decreases |mangled| - st.cur, 0, 0
    {
      hide Eval, Back, Grew, Rank, Represents, Faithful, CharAt;
      GrewSteps();
      var copy := st;
      ghost var c0 := ctx;
      Unfold3(Tok("v"), Class(Digits()), NT(SourceName), mangled, st.cur, ctx);
      ok := ParseOneCharToken('v');
      if ok { ok := ParseCharClass("0123456789"); }
      if ok { ok := ParseSourceName(); }
      if !ok { Restore(copy, c0); }
    }

    method ParseNamedOperator() returns (ok: bool)
      requires Valid()
      modifies this, out
      ensures Valid() && Ran(Abbrev(Operators), old(st), old(ctx), ok)
      decreases |mangled| - st.cur, 0, 0
    {
      hide Eval, Back, Grew, Represents, Faithful, Rows, Print;
      GrewSteps();
      UnfoldAbbrev(Operators, mangled, st.cur, ctx);
      RowFacts(Operators);
      var first, second := CharAt(st.cur), CharAt(st.cur + 1);
      // Operator names start with a lower-case letter followed by a letter.
      if !(IsLower(first) && IsAlpha(second)) {
        NotAnOperator(mangled, st.cur);
        return false;
      }
      var k := FindAbbrev(Operators, st.cur);
      ok := k < |Rows(Operators)|;
      if ok {
        PrintOperator(Rows(Operators)[k].realName);
        MoveBy(2);
      }
    }

    method PrintOperator(realName: string)
      requires Valid()
      modifies this, out
      ensures Valid() && SameInput(old(st)) && ctx == PrintRow(Operators, realName, old(ctx)) && Grew(old(ctx), ctx)
    {
      GrewSteps();
      hide Grew, Represents, Faithful, Print;
      MaybeAppend("operator");
      if realName != "" && IsLower(realName[0]) {  // new, delete, etc.
        MaybeAppend(" ");
      }
      MaybeAppend(realName);
    }

    method ParseSubstitution() returns (ok: bool)
      requires Valid()
      modifies this, out
      ensures Valid() && Ran(NT(Substitution), old(st), old(ctx), ok)
      decreases |mangled| - st.cur, 1, 1
    {
      hide Eval, Back, Grew, Rank, Represents, Faithful, CharAt;
      GrewSteps();
      Alternatives3(Substitution, UnnumberedSubstitution(),
                    NumberedSubstitution(),
                    Abbrev(Substitutions),
                    mangled, st.cur, ctx);
      ok := ParseUnnumberedSubstitution();
      if !ok { ok := ParseNumberedSubstitution(); }
      if !ok { ok := ParseStandardSubstitution(); }
    }

    method ParseUnnumberedSubstitution() returns (ok: bool)
      requires Valid()
      modifies this, out
      ensures Valid() && Ran(UnnumberedSubstitution(), old(st), old(ctx), ok)
      decreases |mangled| - st.cur, 0, 0
    {
      hide Eval, Back, Grew, Rank, Represents, Faithful, CharAt;
      GrewSteps();
      Unfold2(Tok("S_"), Emit("?"), mangled, st.cur, ctx);
      ok := ParseTwoCharToken("S_");
      if ok {
        UnfoldEmit("?", mangled, st.cur, ctx);
        MaybeAppend("?");
      }
    }

    method ParseNumberedSubstitution() returns (ok: bool)
      requires Valid()
      modifies this, out
      ensures Valid() && Ran(NumberedSubstitution(), old(st), old(ctx), ok)
      decreases |mangled| - st.cur, 0, 0
    {
      hide Eval, Back, Grew, Rank, Represents, Faithful, CharAt;
      GrewSteps();
      var copy := st;
      ghost var c0 := ctx;
      Unfold4(Tok("S"), NT(SeqId), Tok("_"), Emit("?"), mangled, st.cur, ctx);
      ok := ParseOneCharToken('S');
      if ok { ok := ParseSeqId(); }
      if ok { ok := ParseOneCharToken('_'); }
      if ok {
        UnfoldEmit("?", mangled, st.cur, ctx);
        MaybeAppend("?");
      }
      if !ok { Restore(copy, c0); }
    }

    /** Abbreviations like "St" for "std". */
    method ParseStandardSubstitution() returns (ok: bool)
      requires Valid()
      modifies this, out
      ensures Valid() && Ran(Abbrev(Substitutions), old(st), old(ctx), ok)
      decreases |mangled| - st.cur, 0, 0
    {
      UnfoldAbbrev(Substitutions, mangled, st.cur, ctx);
      GrewSteps();
      hide Eval, Back, Grew, Represents, Faithful, Rows, Print;
      var k := FindAbbrev(Substitutions, st.cur);
      ok := k < |Rows(Substitutions)|;
      if ok {
        PrintSubstitution(Rows(Substitutions)[k].realName);
        MoveBy(2);
      }
    }

    method PrintSubstitution(realName: string)
      requires Valid()
      modifies this, out
      ensures Valid() && SameInput(old(st)) && ctx == PrintRow(Substitutions, realName, old(ctx)) && Grew(old(ctx), ctx)
    {
      GrewSteps();
      hide Grew, Represents, Faithful, Print;
      MaybeAppend("std");
      if realName != "" {
        MaybeAppend("::");
        MaybeAppend(realName);
      }
    }

    // -------------------------------------------------------------------------
    // Types

    method ParseType() returns (ok: bool)
      requires Valid()
      modifies this, out
      ensures Valid() && Ran(NT(Type), old(st), old(ctx), ok)
      decreases |mangled| - st.cur, 7, 1
    {
      hide Eval, Back, Grew, Rank, Represents, Faithful, CharAt;
      GrewSteps();
      Alternatives4(Type, QualifiedType(),
                    PlainType(),
                    TemplateTemplateType(),
                    NT(TemplateParam),
                    mangled, st.cur, ctx);
      ok := ParseQualifiedType();
      if !ok { ok := ParsePlainType(); }
      if !ok { ok := ParseTemplateTemplateType(); }
      if !ok { ok := ParseTemplateParam(); }
    }

    method ParseQualifiedType() returns (ok: bool)
      requires Valid()
      modifies this, out
      ensures Valid() && Ran(QualifiedType(), old(st), old(ctx), ok)
      decreases |mangled| - st.cur, 6, 0
    {
      hide Eval, Back, Grew, Rank, Represents, Faithful, CharAt;
      GrewSteps();
      Choose(CVQualifiedType(),
             Alt4(PointerType(), PackExpansion(), Decltype(), VendorQualifiedType()),
             mangled, st.cur, ctx);
      ok := ParseCVQualifiedType();
      if !ok {
          Choose4(PointerType(), PackExpansion(), Decltype(), VendorQualifiedType(), mangled, st.cur, ctx);
          ok := ParsePointerType();
          if !ok { ok := ParsePackExpansion(); }
          if !ok { ok := ParseDecltype(); }
          if !ok { ok := ParseVendorQualifiedType(); }
      }
    }

    method ParseCVQualifiedType() returns (ok: bool)
      requires Valid()
      modifies this, out
      ensures Valid() && Ran(CVQualifiedType(), old(st), old(ctx), ok)
      decreases |mangled| - st.cur, 2, 0
    {
      hide Eval, Back, Grew, Rank, Represents, Faithful, CharAt;
      GrewSteps();
      var copy := st;
      ghost var c0 := ctx;
      Unfold2(NT(CVQualifiers), NT(Type), mangled, st.cur, ctx);
      ok := ParseCVQualifiers();
      if ok { ok := ParseType(); }
      if !ok { Restore(copy, c0); }
    }

    method ParsePointerType() returns (ok: bool)
      requires Valid()
      modifies this, out
      ensures Valid() && Ran(PointerType(), old(st), old(ctx), ok)
      decreases |mangled| - st.cur, 0, 0
    {
      hide Eval, Back, Grew, Rank, Represents, Faithful, CharAt;
      GrewSteps();
      var copy := st;
      ghost var c0 := ctx;
      Unfold2(Class("OPRCG"), NT(Type), mangled, st.cur, ctx);
      ok := ParseCharClass("OPRCG");
      if ok { ok := ParseType(); }
      if !ok { Restore(copy, c0); }
    }

    method ParsePackExpansion() returns (ok: bool)
      requires Valid()
      modifies this, out
      ensures Valid() && Ran(PackExpansion(), old(st), old(ctx), ok)
      decreases |mangled| - st.cur, 0, 0
    {
      hide Eval, Back, Grew, Rank, Represents, Faithful, CharAt;
      GrewSteps();
      var copy := st;
      ghost var c0 := ctx;
      Unfold2(Tok("Dp"), NT(Type), mangled, st.cur, ctx);
      ok := ParseTwoCharToken("Dp");
      if ok { ok := ParseType(); }
      if !ok { Restore(copy, c0); }
    }

    method ParseDecltype() returns (ok: bool)
      requires Valid()
      modifies this, out
      ensures Valid() && Ran(Decltype(), old(st), old(ctx), ok)
      decreases |mangled| - st.cur, 0, 0
    {
      hide Eval, Back, Grew, Rank, Represents, Faithful, CharAt;
      GrewSteps();
      var copy := st;
      ghost var c0 := ctx;
      Unfold4(Tok("D"), Class("tT"), NT(Expression), Tok("E"), mangled, st.cur, ctx);
      ok := ParseOneCharToken('D');
      if ok { ok := ParseCharClass("tT"); }
      if ok { ok := ParseExpression(); }
      if ok { ok := ParseOneCharToken('E'); }
      if !ok { Restore(copy, c0); }
    }

    method ParseVendorQualifiedType() returns (ok: bool)
      requires Valid()
      modifies this, out
      ensures Valid() && Ran(VendorQualifiedType(), old(st), old(ctx), ok)
      decreases |mangled| - st.cur, 0, 0
    {
      hide Eval, Back, Grew, Rank, Represents, Faithful, CharAt;
      GrewSteps();
      var copy := st;
      ghost var c0 := ctx;
      Unfold3(Tok("U"), NT(SourceName), NT(Type), mangled, st.cur, ctx);
      ok := ParseOneCharToken('U');
      if ok { ok := ParseSourceName(); }
      if ok { ok := ParseType(); }
      if !ok { Restore(copy, c0); }
    }

    method ParsePlainType() returns (ok: bool)
      requires Valid()
      modifies this, out
      ensures Valid() && Ran(PlainType(), old(st), old(ctx), ok)
      decreases |mangled| - st.cur, 7, 0
    {
      hide Eval, Back, Grew, Rank, Represents, Faithful, CharAt;
      GrewSteps();
      Choose4(NT(BuiltinType),
              NT(FunctionType),
              NT(ClassEnumType),
              Alt3(NT(ArrayType), NT(PointerToMemberType), NT(Substitution)),
              mangled, st.cur, ctx);
      ok := ParseBuiltinType();
      if !ok { ok := ParseFunctionType(); }
      if !ok { ok := ParseClassEnumType(); }
      if !ok {
          Choose3(NT(ArrayType), NT(PointerToMemberType), NT(Substitution), mangled, st.cur, ctx);
          ok := ParseArrayType();
          if !ok { ok := ParsePointerToMemberType(); }
          if !ok { ok := ParseSubstitution(); }
      }
    }

    method ParseTemplateTemplateType() returns (ok: bool)
      requires Valid()
      modifies this, out
      ensures Valid() && Ran(TemplateTemplateType(), old(st), old(ctx), ok)
      decreases |mangled| - st.cur, 6, 0
    {
      hide Eval, Back, Grew, Rank, Represents, Faithful, CharAt;
      GrewSteps();
      var copy := st;
      ghost var c0 := ctx;
      Unfold2(NT(TemplateTemplateParam), NT(TemplateArgs), mangled, st.cur, ctx);
      ok := ParseTemplateTemplateParam();
      if ok { ok := ParseTemplateArgs(); }
      if !ok { Restore(copy, c0); }
    }

    method ParseCVQualifiers() returns (ok: bool)
      requires Valid()
      modifies this
      ensures Valid() && Ran(NT(CVQualifiers), old(st), old(ctx), ok)
      decreases |mangled| - st.cur, 1, 1
    {
      hide Eval, Grew, Represents, Faithful, Skip;
      GrewSteps();
      CVQualifiersOutcome(mangled, st.cur, ctx);
      var first := SkipChar('r');
      var second := SkipChar('V');
      var third := SkipChar('K');
      ok := first || second || third;
    }

    /** An optional one-character token. */
    method SkipChar(token: char) returns (ok: bool)
      requires Valid() && token != '\0'
      modifies this
      ensures Valid() && st == old(st).(cur := Skip(mangled, old(st.cur), token)) && ctx == old(ctx)
      ensures ok == (st.cur > old(st.cur)) && (!ok ==> st == old(st))
    {
      hide Eval, Grew, Represents, Faithful;
      TokOutcome(token, mangled, st.cur, ctx);
      ok := ParseOneCharToken(token);
    }

    method ParseBuiltinType() returns (ok: bool)
      requires Valid()
      modifies this, out
      ensures Valid() && Ran(NT(BuiltinType), old(st), old(ctx), ok)
      decreases |mangled| - st.cur, 1, 1
    {
      hide Eval, Back, Grew, Rank, Represents, Faithful, CharAt;
      GrewSteps();
      Alternatives2(BuiltinType, Abbrev(Builtins), VendorBuiltinType(), mangled, st.cur, ctx);
      ok := ParseNamedBuiltin();
      if !ok { ok := ParseVendorBuiltinType(); }
    }

    method ParseNamedBuiltin() returns (ok: bool)
      requires Valid()
      modifies this, out
      ensures Valid() && Ran(Abbrev(Builtins), old(st), old(ctx), ok)
      decreases |mangled| - st.cur, 0, 0
    {
      hide Eval, Back, Grew, Rank, Represents, Faithful, CharAt;
      GrewSteps();
      UnfoldAbbrev(Builtins, mangled, st.cur, ctx);
      hide Rows, Print;
      var k := FindAbbrev(Builtins, st.cur);
      ok := k < |Rows(Builtins)|;
      if ok {
        MaybeAppend(Rows(Builtins)[k].realName);
        MoveBy(1);
      }
    }

    method ParseVendorBuiltinType() returns (ok: bool)
      requires Valid()
      modifies this, out
      ensures Valid() && Ran(VendorBuiltinType(), old(st), old(ctx), ok)
      decreases |mangled| - st.cur, 0, 0
    {
      hide Eval, Back, Grew, Rank, Represents, Faithful, CharAt;
      GrewSteps();
      var copy := st;
      ghost var c0 := ctx;
      Unfold2(Tok("u"), NT(SourceName), mangled, st.cur, ctx);
      ok := ParseOneCharToken('u');
      if ok { ok := ParseSourceName(); }
      if !ok { Restore(copy, c0); }
    }

    method ParseFunctionType() returns (ok: bool)
      requires Valid()
      modifies this, out
      ensures Valid() && Ran(NT(FunctionType), old(st), old(ctx), ok)
      decreases |mangled| - st.cur, 1, 1
    {
      hide Eval, Back, Grew, Rank, Represents, Faithful, CharAt;
      GrewSteps();
      var copy := st;
      ghost var c0 := ctx;
      Sequence4(FunctionType, Tok("F"), Opt(Tok("Y")), NT(BareFunctionType), Tok("E"), mangled, st.cur, ctx);
      ok := ParseOneCharToken('F');
      if ok {
        UnfoldOpt(Tok("Y"), mangled, st.cur, ctx);
        var _ := ParseOneCharToken('Y');
        ok := ParseBareFunctionType();
      }
      if ok { ok := ParseOneCharToken('E'); }
      if !ok { Restore(copy, c0); }
    }

    method ParseBareFunctionType() returns (ok: bool)
      requires Valid()
      modifies this, out
      ensures Valid() && Ran(NT(BareFunctionType), old(st), old(ctx), ok)
      decreases |mangled| - st.cur, 8, 1
    {
      hide Eval, Back, Grew, Rank, Represents, Faithful, CharAt;
      GrewSteps();
      var copy := st;
      ghost var c0 := ctx;
      Sequence2(BareFunctionType, Quiet(Plus(NT(Type))), Emit("()"), mangled, st.cur, ctx);
      UnfoldQuiet(Plus(NT(Type)), mangled, st.cur, ctx);
      DisableAppend();
      ok := OneOrMore(Type);
      if ok {
        RestoreAppend(copy.append);
        UnfoldEmit("()", mangled, st.cur, ctx);
        MaybeAppend("()");
      }
      if !ok { Restore(copy, c0); }
    }

    method ParseClassEnumType() returns (ok: bool)
      requires Valid()
      modifies this, out
      ensures Valid() && Ran(NT(ClassEnumType), old(st), old(ctx), ok)
      decreases |mangled| - st.cur, 6, 1
    {
      hide Eval, Back, Grew, Rank, Represents, Faithful, CharAt;
      GrewSteps();
      Unfold(ClassEnumType, mangled, st.cur, ctx);
      ok := ParseName();
    }

    method ParseArrayType() returns (ok: bool)
      requires Valid()
      modifies this, out
      ensures Valid() && Ran(NT(ArrayType), old(st), old(ctx), ok)
      decreases |mangled| - st.cur, 1, 1
    {
      hide Eval, Back, Grew, Rank, Represents, Faithful, CharAt;
      GrewSteps();
      Alternatives2(ArrayType, SizedArrayType(), ExpressionArrayType(), mangled, st.cur, ctx);
      ok := ParseSizedArrayType();
      if !ok { ok := ParseExpressionArrayType(); }
    }

    method ParseSizedArrayType() returns (ok: bool)
      requires Valid()
      modifies this, out
      ensures Valid() && Ran(SizedArrayType(), old(st), old(ctx), ok)
      decreases |mangled| - st.cur, 0, 0
    {
      hide Eval, Back, Grew, Rank, Represents, Faithful, CharAt;
      GrewSteps();
      var copy := st;
      ghost var c0 := ctx;
      Unfold4(Tok("A"), NT(Number), Tok("_"), NT(Type), mangled, st.cur, ctx);
      ok := ParseOneCharToken('A');
      if ok {
        var value;
        ok, value := ParseNumber();
      }
      if ok { ok := ParseOneCharToken('_'); }
      if ok { ok := ParseType(); }
      if !ok { Restore(copy, c0); }
    }

    method ParseExpressionArrayType() returns (ok: bool)
      requires Valid()
      modifies this, out
      ensures Valid() && Ran(ExpressionArrayType(), old(st), old(ctx), ok)
      decreases |mangled| - st.cur, 0, 0
    {
      hide Eval, Back, Grew, Rank, Represents, Faithful, CharAt;
      GrewSteps();
      var copy := st;
      ghost var c0 := ctx;
      Unfold4(Tok("A"), Opt(NT(Expression)), Tok("_"), NT(Type), mangled, st.cur, ctx);
      ok := ParseOneCharToken('A');
      if ok {
        UnfoldOpt(NT(Expression), mangled, st.cur, ctx);
        var _ := ParseExpression();
        ok := ParseOneCharToken('_');
      }
      if ok { ok := ParseType(); }
      if !ok { Restore(copy, c0); }
    }

    method ParsePointerToMemberType() returns (ok: bool)
      requires Valid()
      modifies this, out
      ensures Valid() && Ran(NT(PointerToMemberType), old(st), old(ctx), ok)
      decreases |mangled| - st.cur, 1, 1
    {
      hide Eval, Back, Grew, Rank, Represents, Faithful, CharAt;
      GrewSteps();
      var copy := st;
      ghost var c0 := ctx;
      Sequence3(PointerToMemberType, Tok("M"), NT(Type), NT(Type), mangled, st.cur, ctx);
      ok := ParseOneCharToken('M');
      if ok { ok := ParseType(); }
      if ok { ok := ParseType(); }
      if !ok { Restore(copy, c0); }
    }

    // -------------------------------------------------------------------------
    // Templates

    method ParseTemplateParam() returns (ok: bool)
      requires Valid()
      modifies this, out
      ensures Valid() && Ran(NT(TemplateParam), old(st), old(ctx), ok)
      decreases |mangled| - st.cur, 1, 1
    {
      hide Eval, Back, Grew, Rank, Represents, Faithful, CharAt;
      GrewSteps();
      Alternatives2(TemplateParam, FirstTemplateParam(), LaterTemplateParam(), mangled, st.cur, ctx);
      ok := ParseFirstTemplateParam();
      if !ok { ok := ParseLaterTemplateParam(); }
    }

    method ParseFirstTemplateParam() returns (ok: bool)
      requires Valid()
      modifies this, out
      ensures Valid() && Ran(FirstTemplateParam(), old(st), old(ctx), ok)
      decreases |mangled| - st.cur, 0, 0
    {
      hide Eval, Back, Grew, Rank, Represents, Faithful, CharAt;
      GrewSteps();
      Unfold2(Tok("T_"), Emit("?"), mangled, st.cur, ctx);
      ok := ParseTwoCharToken("T_");
      if ok {
        UnfoldEmit("?", mangled, st.cur, ctx);
        MaybeAppend("?");
      }
    }

    method ParseLaterTemplateParam() returns (ok: bool)
      requires Valid()
      modifies this, out
      ensures Valid() && Ran(LaterTemplateParam(), old(st), old(ctx), ok)
      decreases |mangled| - st.cur, 0, 0
    {
      hide Eval, Back, Grew, Rank, Represents, Faithful, CharAt;
      GrewSteps();
      var copy := st;
      ghost var c0 := ctx;
      Unfold4(Tok("T"), NT(Number), Tok("_"), Emit("?"), mangled, st.cur, ctx);
      ok := ParseOneCharToken('T');
      if ok {
        var value;
        ok, value := ParseNumber();
      }
      if ok { ok := ParseOneCharToken('_'); }
      if ok {
        UnfoldEmit("?", mangled, st.cur, ctx);
        MaybeAppend("?");
      }
      if !ok { Restore(copy, c0); }
    }

    method ParseTemplateTemplateParam() returns (ok: bool)
      requires Valid()
      modifies this, out
      ensures Valid() && Ran(NT(TemplateTemplateParam), old(st), old(ctx), ok)
      decreases |mangled| - st.cur, 2, 1
    {
      hide Eval, Back, Grew, Rank, Represents, Faithful, CharAt;
      GrewSteps();
      Alternatives2(TemplateTemplateParam, NT(TemplateParam), NT(Substitution), mangled, st.cur, ctx);
      ok := ParseTemplateParam();
      if !ok { ok := ParseSubstitution(); }
    }

    method ParseTemplateArgs() returns (ok: bool)
      requires Valid()
      modifies this, out
      ensures Valid() && Ran(NT(TemplateArgs), old(st), old(ctx), ok)
      decreases |mangled| - st.cur, 1, 1
    {
      hide Eval, Back, Grew, Rank, Represents, Faithful, CharAt;
      GrewSteps();
      var copy := st;
      ghost var c0 := ctx;
      Sequence2(TemplateArgs, Quiet(ArgumentList()), Emit("<>"), mangled, st.cur, ctx);
      UnfoldQuiet(ArgumentList(), mangled, st.cur, ctx);
      DisableAppend();
      ok := ParseArgumentList();
      if ok {
        RestoreAppend(copy.append);
        UnfoldEmit("<>", mangled, st.cur, ctx);
        MaybeAppend("<>");
      }
      if !ok { Restore(copy, c0); }
    }

    /** The arguments between I and E; does not restore the state on failure, its caller does. */
    method ParseArgumentList() returns (ok: bool)
      requires Valid()
      modifies this, out
      ensures Valid() && Tried(ArgumentList(), old(st), old(ctx), ok)
      decreases |mangled| - st.cur, 1, 0
    {
      hide Eval, Back, Grew, Rank, Represents, Faithful, CharAt;
      GrewSteps();
      Unfold3(Tok("I"), Plus(NT(TemplateArg)), Tok("E"), mangled, st.cur, ctx);
      ok := ParseOneCharToken('I');
      if ok { ok := OneOrMore(TemplateArg); }
      if ok { ok := ParseOneCharToken('E'); }
    }

    method ParseTemplateArg() returns (ok: bool)
      requires Valid()
      modifies this, out
      ensures Valid() && Ran(NT(TemplateArg), old(st), old(ctx), ok)
      decreases |mangled| - st.cur, 8, 1
    {
      hide Eval, Back, Grew, Rank, Represents, Faithful, CharAt;
      GrewSteps();
      Alternatives4(TemplateArg, ArgumentPack(), NT(Type), NT(ExprPrimary), ExpressionArg(), mangled, st.cur, ctx);
      ok := ParseArgumentPack();
      if !ok { ok := ParseType(); }
      if !ok { ok := ParseExprPrimary(); }
      if !ok { ok := ParseExpressionArg(); }
    }

    method ParseArgumentPack() returns (ok: bool)
      requires Valid()
      modifies this, out
      ensures Valid() && Ran(ArgumentPack(), old(st), old(ctx), ok)
      decreases |mangled| - st.cur, 0, 0
    {
      hide Eval, Back, Grew, Rank, Represents, Faithful, CharAt;
      GrewSteps();
      var copy := st;
      ghost var c0 := ctx;
      Unfold3(Tok("I"), Many(NT(TemplateArg)), Tok("E"), mangled, st.cur, ctx);
      ok := ParseOneCharToken('I');
      if ok {
        ZeroOrMore(TemplateArg);
        ok := ParseOneCharToken('E');
      }
      if !ok { Restore(copy, c0); }
    }

    method ParseExpressionArg() returns (ok: bool)
      requires Valid()
      modifies this, out
      ensures Valid() && Ran(ExpressionArg(), old(st), old(ctx), ok)
      decreases |mangled| - st.cur, 0, 0
    {
      hide Eval, Back, Grew, Rank, Represents, Faithful, CharAt;
      GrewSteps();
      var copy := st;
      ghost var c0 := ctx;
      Unfold3(Tok("X"), NT(Expression), Tok("E"), mangled, st.cur, ctx);
      ok := ParseOneCharToken('X');
      if ok { ok := ParseExpression(); }
      if ok { ok := ParseOneCharToken('E'); }
      if !ok { Restore(copy, c0); }
    }

    /** The two functions that are passed to OneOrMore and ZeroOrMore. */
    method Apply(n: Nonterminal) returns (ok: bool)
      requires Valid() && (n == Type || n == TemplateArg)
      modifies this, out
      ensures Valid() && Ran(NT(n), old(st), old(ctx), ok)
      decreases |mangled| - st.cur, if n == Type then 7 else 8, 2
    {
      hide Eval, Represents, Faithful;
      if n == Type {
        ok := ParseType();
      } else {
        ok := ParseTemplateArg();
      }
    }

    method OneOrMore(n: Nonterminal) returns (ok: bool)
      requires Valid() && (n == Type || n == TemplateArg)
      modifies this, out
      ensures Valid() && Ran(Plus(NT(n)), old(st), old(ctx), ok)
      decreases |mangled| - st.cur, if n == Type then 7 else 8, 4
    {
      hide Eval, Grew, Back, Represents, Faithful, Rule;
      GrewSteps();
      Unfold2(NT(n), Many(NT(n)), mangled, st.cur, ctx);
      ok := Apply(n);
      if ok { ZeroOrMore(n); }
    }

    method ZeroOrMore(n: Nonterminal)
      requires Valid() && (n == Type || n == TemplateArg)
      modifies this, out
      ensures Valid() && Ran(Many(NT(n)), old(st), old(ctx), true)
      decreases |mangled| - st.cur, if n == Type then 7 else 8, 3
    {
      hide Eval, Grew, Back, Represents, Faithful, Rule;
      GrewSteps();
      ghost var s0, c0 := st, ctx;
      var more := true;
      while more
        invariant Valid() && Grew(c0, ctx) && s0.cur <= st.cur
        invariant more ==> Eval(Many(NT(n)), mangled, s0.cur, c0) == Eval(Many(NT(n)), mangled, st.cur, ctx)
        invariant !more ==> Eval(Many(NT(n)), mangled, s0.cur, c0) == Outcome(true, st.cur, ctx)
        decreases |mangled| - st.cur, more
      {
        UnfoldMany(NT(n), mangled, st.cur, ctx);
        more := Apply(n);
      }
    }

    // -------------------------------------------------------------------------
    // Prefixes

    /** One step of the loop of ParsePrefix: a separator and a component, or neither. */
    method ParseComponent() returns (ok: bool)
      requires Valid()
      modifies this, out
      ensures Valid() && Tried(Component(), old(st), old(ctx), ok)
      ensures !ok ==> st.cur == old(st.cur) && ctx == Back(old(ctx), ctx)
      decreases |mangled| - st.cur, 3, 3
    {
      hide Eval, Grew, Rank, Represents, Faithful, Print;
      GrewSteps();
      ghost var s0, c0 := st, ctx;
      Unfold3(Separator, ComponentName(), Deeper, mangled, st.cur, ctx);
      UnfoldLeaf(mangled, st.cur, ctx);
      MaybeAppendSeparator();
      ok := ParseComponentName();
      if ok {
        MaybeIncreaseNestLevel();
      } else {
        MaybeCancelLastSeparator(s0, c0);
      }
    }

    method ParseComponentName() returns (ok: bool)
      requires Valid()
      modifies this, out
      ensures Valid() && Ran(ComponentName(), old(st), old(ctx), ok)
      decreases |mangled| - st.cur, 3, 2
    {
      hide Eval, Back, Grew, Rank, Represents, Faithful, CharAt;
      GrewSteps();
      Choose3(NT(TemplateParam), NT(Substitution), NT(UnscopedName), mangled, st.cur, ctx);
      ok := ParseTemplateParam();
      if !ok { ok := ParseSubstitution(); }
      if !ok { ok := ParseUnscopedName(); }
    }

    method ParsePrefix() returns (ok: bool)
      requires Valid()
      modifies this, out
      ensures Valid() && Ran(NT(Prefix), old(st), old(ctx), ok) && ok
      decreases |mangled| - st.cur, 4, 1
    {
      hide Eval, Grew, Back, Rank, Represents, Faithful, Component;
      GrewSteps();
      ghost var s0, c0 := st, ctx;
      ghost var many, rest := Many(Component()), Seq(NT(TemplateArgs), NT(Prefix));
      Unfold(Prefix, mangled, st.cur, ctx);
      UnfoldOpt(Seq(Plus(Component()), Opt(rest)), mangled, st.cur, ctx);
      Unfold2(Plus(Component()), Opt(rest), mangled, st.cur, ctx);
      Unfold2(Component(), many, mangled, st.cur, ctx);
      var hasSomething := false;
      while true
        invariant Valid() && Grew(c0, ctx) && s0.cur <= st.cur
        invariant !hasSomething ==> st == s0 && ctx == c0
        invariant hasSomething ==> s0.cur < st.cur
        invariant hasSomething ==>
          Eval(Plus(Component()), mangled, s0.cur, c0) == Eval(many, mangled, st.cur, ctx)
        decreases |mangled| - st.cur
      {
        UnfoldComponents(mangled, st.cur, ctx);
        var found := ParseComponent();
        if found {
          hasSomething := true;
        } else {
          if hasSomething {
            UnfoldOpt(rest, mangled, st.cur, ctx);
            Unfold2(NT(TemplateArgs), NT(Prefix), mangled, st.cur, ctx);
            var args := ParseTemplateArgs();
            if args { ok := ParsePrefix(); }
          }
          return true;
        }
      }
    }

    // -------------------------------------------------------------------------
    // Expressions

    method ParseExpression() returns (ok: bool)
      requires Valid()
      modifies this, out
      ensures Valid() && Ran(NT(Expression), old(st), old(ctx), ok)
      decreases |mangled| - st.cur, 2, 1
    {
      hide Eval, Back, Grew, Rank, Represents, Faithful, CharAt;
      GrewSteps();
      Alternatives4(Expression, NT(TemplateParam),
                    NT(ExprPrimary),
                    OperatorExpression(),
                    ScopedExpression(),
                    mangled, st.cur, ctx);
      ok := ParseTemplateParam();
      if !ok { ok := ParseExprPrimary(); }
      if !ok { ok := ParseOperatorExpression(); }
      if !ok { ok := ParseScopedExpression(); }
    }

    method ParseOperatorExpression() returns (ok: bool)
      requires Valid()
      modifies this, out
      ensures Valid() && Ran(OperatorExpression(), old(st), old(ctx), ok)
      decreases |mangled| - st.cur, 2, 0
    {
      hide Eval, Back, Grew, Rank, Represents, Faithful, CharAt;
      GrewSteps();
      Choose3(TrinaryExpression(), BinaryExpression(), UnaryExpression(), mangled, st.cur, ctx);
      ok := ParseTrinaryExpression();
      if !ok { ok := ParseBinaryExpression(); }
      if !ok { ok := ParseUnaryExpression(); }
    }

    method ParseTrinaryExpression() returns (ok: bool)
      requires Valid()
      modifies this, out
      ensures Valid() && Ran(TrinaryExpression(), old(st), old(ctx), ok)
      decreases |mangled| - st.cur, 1, 2
    {
      hide Eval, Back, Grew, Rank, Represents, Faithful, CharAt;
      GrewSteps();
      var copy := st;
      ghost var c0 := ctx;
      Unfold4(NT(OperatorName), NT(Expression), NT(Expression), NT(Expression), mangled, st.cur, ctx);
      ok := ParseOperatorName();
      if ok { ok := ParseExpression(); }
      if ok { ok := ParseExpression(); }
      if ok { ok := ParseExpression(); }
      if !ok { Restore(copy, c0); }
    }

    method ParseBinaryExpression() returns (ok: bool)
      requires Valid()
      modifies this, out
      ensures Valid() && Ran(BinaryExpression(), old(st), old(ctx), ok)
      decreases |mangled| - st.cur, 1, 2
    {
      hide Eval, Back, Grew, Rank, Represents, Faithful, CharAt;
      GrewSteps();
      var copy := st;
      ghost var c0 := ctx;
      Unfold3(NT(OperatorName), NT(Expression), NT(Expression), mangled, st.cur, ctx);
      ok := ParseOperatorName();
      if ok { ok := ParseExpression(); }
      if ok { ok := ParseExpression(); }
      if !ok { Restore(copy, c0); }
    }

    method ParseUnaryExpression() returns (ok: bool)
      requires Valid()
      modifies this, out
      ensures Valid() && Ran(UnaryExpression(), old(st), old(ctx), ok)
      decreases |mangled| - st.cur, 1, 2
    {
      hide Eval, Back, Grew, Rank, Represents, Faithful, CharAt;
      GrewSteps();
      var copy := st;
      ghost var c0 := ctx;
      Unfold2(NT(OperatorName), NT(Expression), mangled, st.cur, ctx);
      ok := ParseOperatorName();
      if ok { ok := ParseExpression(); }
      if !ok { Restore(copy, c0); }
    }

    method ParseScopedExpression() returns (ok: bool)
      requires Valid()
      modifies this, out
      ensures Valid() && Ran(ScopedExpression(), old(st), old(ctx), ok)
      decreases |mangled| - st.cur, 2, 0
    {
      hide Eval, Back, Grew, Rank, Represents, Faithful, CharAt;
      GrewSteps();
      Choose3(SizeofType(), ScopedTemplate(), ScopedName(), mangled, st.cur, ctx);
      ok := ParseSizeofType();
      if !ok { ok := ParseScopedTemplate(); }
      if !ok { ok := ParseScopedName(); }
    }

    method ParseSizeofType() returns (ok: bool)
      requires Valid()
      modifies this, out
      ensures Valid() && Ran(SizeofType(), old(st), old(ctx), ok)
      decreases |mangled| - st.cur, 0, 0
    {
      hide Eval, Back, Grew, Rank, Represents, Faithful, CharAt;
      GrewSteps();
      var copy := st;
      ghost var c0 := ctx;
      Unfold2(Tok("st"), NT(Type), mangled, st.cur, ctx);
      ok := ParseTwoCharToken("st");
      if ok { ok := ParseType(); }
      if !ok { Restore(copy, c0); }
    }

    method ParseScopedTemplate() returns (ok: bool)
      requires Valid()
      modifies this, out
      ensures Valid() && Ran(ScopedTemplate(), old(st), old(ctx), ok)
      decreases |mangled| - st.cur, 0, 0
    {
      hide Eval, Back, Grew, Rank, Represents, Faithful, CharAt;
      GrewSteps();
      var copy := st;
      ghost var c0 := ctx;
      Unfold4(Tok("sr"), NT(Type), NT(UnqualifiedName), NT(TemplateArgs), mangled, st.cur, ctx);
      ok := ParseTwoCharToken("sr");
      if ok { ok := ParseType(); }
      if ok { ok := ParseUnqualifiedName(); }
      if ok { ok := ParseTemplateArgs(); }
      if !ok { Restore(copy, c0); }
    }

    method ParseScopedName() returns (ok: bool)
      requires Valid()
      modifies this, out
      ensures Valid() && Ran(ScopedName(), old(st), old(ctx), ok)
      decreases |mangled| - st.cur, 0, 0
    {
      hide Eval, Back, Grew, Rank, Represents, Faithful, CharAt;
      GrewSteps();
      var copy := st;
      ghost var c0 := ctx;
      Unfold3(Tok("sr"), NT(Type), NT(UnqualifiedName), mangled, st.cur, ctx);
      ok := ParseTwoCharToken("sr");
      if ok { ok := ParseType(); }
      if ok { ok := ParseUnqualifiedName(); }
      if !ok { Restore(copy, c0); }
    }

    method ParseExprPrimary() returns (ok: bool)
      requires Valid()
      modifies this, out
      ensures Valid() && Ran(NT(ExprPrimary), old(st), old(ctx), ok)
      decreases |mangled| - st.cur, 1, 1
    {
      hide Eval, Back, Grew, Rank, Represents, Faithful, CharAt;
      GrewSteps();
      Alternatives4(ExprPrimary, IntegerLiteral(),
                    FloatLiteral(),
                    ExternalName(),
                    OldExternalName(),
                    mangled, st.cur, ctx);
      ok := ParseIntegerLiteral();
      if !ok { ok := ParseFloatLiteral(); }
      if !ok { ok := ParseExternalName(); }
      if !ok { ok := ParseOldExternalName(); }
    }

    method ParseIntegerLiteral() returns (ok: bool)
      requires Valid()
      modifies this, out
      ensures Valid() && Ran(IntegerLiteral(), old(st), old(ctx), ok)
      decreases |mangled| - st.cur, 0, 0
    {
      hide Eval, Back, Grew, Rank, Represents, Faithful, CharAt;
      GrewSteps();
      var copy := st;
      ghost var c0 := ctx;
      Unfold4(Tok("L"), NT(Type), NT(Number), Tok("E"), mangled, st.cur, ctx);
      ok := ParseOneCharToken('L');
      if ok { ok := ParseType(); }
      if ok {
        var value;
        ok, value := ParseNumber();
      }
      if ok { ok := ParseOneCharToken('E'); }
      if !ok { Restore(copy, c0); }
    }

    method ParseFloatLiteral() returns (ok: bool)
      requires Valid()
      modifies this, out
      ensures Valid() && Ran(FloatLiteral(), old(st), old(ctx), ok)
      decreases |mangled| - st.cur, 0, 0
    {
      hide Eval, Back, Grew, Rank, Represents, Faithful, CharAt;
      GrewSteps();
      var copy := st;
      ghost var c0 := ctx;
      Unfold4(Tok("L"), NT(Type), NT(FloatNumber), Tok("E"), mangled, st.cur, ctx);
      ok := ParseOneCharToken('L');
      if ok { ok := ParseType(); }
      if ok { ok := ParseFloatNumber(); }
      if ok { ok := ParseOneCharToken('E'); }
      if !ok { Restore(copy, c0); }
    }

    method ParseExternalName() returns (ok: bool)
      requires Valid()
      modifies this, out
      ensures Valid() && Ran(ExternalName(), old(st), old(ctx), ok)
      decreases |mangled| - st.cur, 0, 0
    {
      hide Eval, Back, Grew, Rank, Represents, Faithful, CharAt;
      GrewSteps();
      var copy := st;
      ghost var c0 := ctx;
      Unfold3(Tok("L"), NT(MangledName), Tok("E"), mangled, st.cur, ctx);
      ok := ParseOneCharToken('L');
      if ok { ok := ParseMangledName(); }
      if ok { ok := ParseOneCharToken('E'); }
      if !ok { Restore(copy, c0); }
    }

    method ParseOldExternalName() returns (ok: bool)
      requires Valid()
      modifies this, out
      ensures Valid() && Ran(OldExternalName(), old(st), old(ctx), ok)
      decreases |mangled| - st.cur, 0, 0
    {
      hide Eval, Back, Grew, Rank, Represents, Faithful, CharAt;
      GrewSteps();
      var copy := st;
      ghost var c0 := ctx;
      Unfold3(Tok("LZ"), NT(Encoding), Tok("E"), mangled, st.cur, ctx);
      ok := ParseTwoCharToken("LZ");
      if ok { ok := ParseEncoding(); }
      if ok { ok := ParseOneCharToken('E'); }
      if !ok { Restore(copy, c0); }
    }

    // -------------------------------------------------------------------------
    // Whole names

    method ParseTopLevelMangledName() returns (ok: bool)
      requires Valid() && st.cur == 0 && ctx == START
      modifies this, out
      ensures Valid()
      ensures var r := TopLevel(mangled);
        !r.c.rewound ==> ok == r.ok && ctx.peak == r.c.peak && (ok ==> ctx == r.c)
    {
      hide Eval, Represents, Faithful, Print, IsCloneSuffix;
      EmptyCloneSuffix();
      ok := ParseMangledName();
      assert mangled[st.cur..] == "" || mangled[st.cur..][0] == mangled[st.cur];
      if ok && CharAt(st.cur) != '\0' {
        var suffix := mangled[st.cur..];
        var clone := IsFunctionCloneSuffix(suffix);
        if !clone {
          if CharAt(st.cur) == '@' {
            MaybeAppend(suffix);
          } else {
            ok := false;
          }
        }
      }
    }
  }

  method IsFunctionCloneSuffix(str: CString) returns (clone: bool)
    ensures clone == IsCloneSuffix(str)
  {
    hide IsCloneSuffix;
    EmptyCloneSuffix();
    var i := 0;
    assert str[0..] == str;
    while i < |str|
      invariant 0 <= i <= |str|
      invariant IsCloneSuffix(str) == IsCloneSuffix(str[i..])
    {
      // Consume one part.
      ghost var start, w := i, str[i..];
      if str[i] != '.' || i + 1 == |str| || !IsAlpha(str[i + 1]) {
        NoCloneStart(w);
        return false;
      }
      i := i + 2;
      while i < |str| && IsAlpha(str[i])
        invariant start + 2 <= i <= |str|
        invariant forall k :: 1 <= k < i - start ==> IsAlpha(w[k])
      {
        i := i + 1;
      }
      ghost var a := i - start;
      if i == |str| || str[i] != '.' || i + 1 == |str| || !IsDigit(str[i + 1]) {
        NoClonePart(w, a);
        return false;
      }
      i := i + 2;
      while i < |str| && IsDigit(str[i])
        invariant start + a + 2 <= i <= |str|
        invariant forall k :: a < k < i - start ==> IsDigit(w[k])
      {
        i := i + 1;
      }
      CloneSplit(w, a, i - start);
      assert w[i - start..] == str[i..];
    }
    assert str[i..] == "";
    return true;
  }

  /** Demangle the name into the buffer. Nothing is claimed of a text in which a length below -1 is met: what is
      accepted there need not be a mangled name, and the code may not come to an end (see `DemangleRewind`). */
  method Demangle(mangled: CString, out: array<char>, memory: nat -> char) returns (ok: bool)
    modifies out
    ensures !TopLevel(mangled).c.rewound ==> (ok ==> TopLevel(mangled).ok && IsMangledName(mangled))
    ensures !TopLevel(mangled).c.rewound && TopLevel(mangled).c.peak < out.Length ==>
      ok == TopLevel(mangled).ok && (ok ==> TopLevel(mangled).c.out <= out[..])
    ensures NoNegativeLength(mangled) && ok ==> IsMangledName(mangled)
  {
    var d := new Demangler(mangled, out, memory);
    hide TopLevel, IsMangledName, NoNegativeLength;
    ok := d.ParseTopLevelMangledName();
    ok := ok && !d.st.overflowed;
    if NoNegativeLength(mangled) { WithoutNegativeLengths(mangled); }
    if TopLevel(mangled).ok && !TopLevel(mangled).c.rewound { AcceptedNamesAreMangled(mangled); }
  }

  /** Every symbol that was mangled is demangled into every buffer with room for what it shows, for what may be printed
      on the way, and for the terminator. */
  method DemangleMangled(mangled: CString, out: array<char>, memory: nat -> char, ghost y: Symbol, ghost suffix: Suffix)
    returns (ok: bool)
    requires IsSymbol(y) && IsSuffix(suffix) && mangled == Mangled(y) + SuffixText(suffix)
    requires |Shown(y)| + Max(Slack(y), |SuffixShown(suffix)|) < out.Length
    modifies out
    ensures ok && Shown(y) + SuffixShown(suffix) <= out[..]
  {
    hide TopLevel, Mangled, Shown, IsSymbol, Slack, SuffixShown, SuffixText, IsSuffix;
    DemanglingUndoesMangling(y, suffix);
    ok := Demangle(mangled, out, memory);
  }

  /** In particular, constructors and destructors are called by their class. */
  method DemangleMember(mangled: CString, out: array<char>, memory: nat -> char, ghost path: seq<string>,
                        ghost member: Part, ghost parameters: seq<Parameter>)
    returns (ok: bool)
    requires IsPath(path) && IsPart(member) && (member.Constructor? || member.Destructor?)
    requires parameters != [] && AreParameters(parameters)
    requires mangled == "_ZN" + PartsText(Words(path)) + PartText(member) + "E" + ParametersText(parameters)
    requires |Joined(path)| + |path[|path| - 1]| + 5 < out.Length
    modifies out
    ensures ok
    ensures member.Constructor? ==> Joined(path) + "::" + path[|path| - 1] + "()" <= out[..]
    ensures member.Destructor? ==> Joined(path) + "::~" + path[|path| - 1] + "()" <= out[..]
  {
    ghost var y := Member(path, member, parameters);
    MemberIsSymbol(path, member, parameters);
    MemberText(path, member, parameters);
    MembersShown(path, member.kind, parameters);
    hide Mangled, Shown, IsSymbol, Slack, PartsText, Words, Joined, Member, ParametersText;
    assert SuffixText(Marks([])) == "" && Mangled(y) + "" == Mangled(y);
    assert Shown(y) + "" == Shown(y);
    ok := DemangleMangled(mangled, out, memory, y, Marks([]));
  }
}

/** What one flag of gflags.cc holds, what setting it does in each of the three modes, and what holds
    over every run of such calls. */
module FlagSemantics {
  import opened Wrappers
  import opened FlagValues

  /** A registered validate function; it is taken to answer the same each time it is asked. */
  type Validator = (string, Value) -> bool

  datatype FlagState = FlagState(name: string, ty: ValueType, modified: bool, current: Value, defvalue: Value,
                                 validator: Option<Validator>)

  ghost predicate Typed(f: FlagState) {
    TypeOf(f.current) == f.ty && TypeOf(f.defvalue) == f.ty
  }

  datatype Mode = SetFlagsValue | SetFlagIfDefault | SetFlagsDefault

  /** CommandLineFlag::Validate */
  predicate Accepts(f: FlagState, v: Value) {
    match f.validator
    case None => true
    case Some(validate) => validate(f.name, v)
  }

  /** TryParseLocked: the value, if the text is legal for the type and passes the validator. */
  function TryParse(f: FlagState, text: string): Option<Value> {
    match ParseFrom(f.ty, text)
    case Some(v) => if Accepts(f, v) then Some(v) else None
    case None => None
  }

  /** CommandLineFlag::UpdateModifiedBit: someone may have written the variable directly. */
  function UpdateModified(f: FlagState): FlagState {
    f.(modified := f.modified || f.current != f.defvalue)
  }

  /** FlagRegistry::SetFlagLocked: the new state, and whether the call succeeds. */
  function SetFlag(f0: FlagState, text: string, mode: Mode): (FlagState, bool) {
    var f := UpdateModified(f0);
    match mode
    case SetFlagsValue =>
      (match TryParse(f, text)
       case Some(v) => (f.(current := v, modified := true), true)
       case None => (f, false))
    case SetFlagIfDefault =>
      if f.modified then (f, true)
      else
        (match TryParse(f, text)
         case Some(v) => (f.(current := v, modified := true), true)
         case None => (f, false))
    case SetFlagsDefault =>
      match TryParse(f, text)
      case Some(v) => (if f.modified then f.(defvalue := v) else f.(defvalue := v, current := v), true)
      case None => (f, false)
  }

  // ---------------------------------------------------------------------------
  // Runs

  /** What a program can do to a flag: assign its variable, or call SetFlagLocked. */
  datatype Op = Write(v: Value) | Set(text: string, mode: Mode)

  function Step(f: FlagState, op: Op): FlagState {
    match op
    case Write(v) => f.(current := v)
    case Set(text, mode) => SetFlag(f, text, mode).0
  }

  function Run(f: FlagState, ops: seq<Op>): FlagState {
    if ops == [] then f else Step(Run(f, ops[..|ops| - 1]), ops[|ops| - 1])
  }

  ghost predicate OnlySets(ops: seq<Op>) {
    forall k :: 0 <= k < |ops| ==> ops[k].Set?
  }

  /** A flag nobody has touched still has its default value. */
  ghost predicate Settled(f: FlagState) {
    !f.modified ==> f.current == f.defvalue
  }

  ghost predicate SameFlag(f: FlagState, g: FlagState) {
    f.name == g.name && f.ty == g.ty && f.validator == g.validator
  }

  /** A run never changes what a flag is; what was marked modified stays so. */
  lemma {:induction false} ModifiedIsSticky(f: FlagState, ops: seq<Op>)
    ensures SameFlag(Run(f, ops), f)
    ensures f.modified ==> Run(f, ops).modified
  {
    hide TryParse;
    if ops != [] {
      ModifiedIsSticky(f, ops[..|ops| - 1]);
    }
  }

  /** Whatever was written directly before, after a call of SetFlagLocked a flag that is not marked
      modified has its default value, and a failing call has changed neither value. */
  lemma CallsSettle(f: FlagState, ops: seq<Op>, text: string, mode: Mode)
    ensures Settled(Run(f, ops + [Set(text, mode)]))
    ensures !SetFlag(f, text, mode).1 ==>
      SetFlag(f, text, mode).0.current == f.current && SetFlag(f, text, mode).0.defvalue == f.defvalue
    ensures SetFlag(f, text, mode).1 <==>
      (TryParse(f, text).Some? || (mode.SetFlagIfDefault? && (f.modified || f.current != f.defvalue)))
  {
    assert (ops + [Set(text, mode)])[..|ops|] == ops;
    hide TryParse, Run;
    assert Run(f, ops + [Set(text, mode)]) ==
      Step(Run(f, ops), Set(text, mode)) by { RunAppend(f, ops, Set(text, mode)); }
    SameTry(f, UpdateModified(f), text);
  }

  lemma RunAppend(f: FlagState, ops: seq<Op>, op: Op)
    ensures Run(f, ops + [op]) == Step(Run(f, ops), op)
  {
    assert (ops + [op])[..|ops|] == ops;
  }

  lemma SameTry(f: FlagState, g: FlagState, text: string)
    requires SameFlag(f, g)
    ensures TryParse(f, text) == TryParse(g, text)
  {
  }

  /** A value that differs from the default, however it got there, survives any number of calls that set
      the default or set the flag if it is at its default. */
  lemma {:induction false} ChangedValueSurvives(f: FlagState, ops: seq<Op>)
    requires f.modified || f.current != f.defvalue
    requires forall k :: 0 <= k < |ops| ==> ops[k].Set? && !ops[k].mode.SetFlagsValue?
    ensures Run(f, ops).current == f.current
    ensures ops != [] ==> Run(f, ops).modified
  {
    hide TryParse;
    if ops != [] {
      ChangedValueSurvives(f, ops[..|ops| - 1]);
      if |ops| == 1 { assert Run(f, ops[..0]) == f; }
    }
  }

  /** Without direct writes, values that pass the validator go on passing it. */
  lemma {:induction false} ValidatorsHold(f: FlagState, ops: seq<Op>)
    requires OnlySets(ops) && Accepts(f, f.current) && Accepts(f, f.defvalue)
    ensures Accepts(f, Run(f, ops).current) && Accepts(f, Run(f, ops).defvalue)
  {
    hide TryParse, SetFlag;
    if ops != [] {
      ValidatorsHold(f, ops[..|ops| - 1]);
      ModifiedIsSticky(f, ops[..|ops| - 1]);
      StepAccepts(Run(f, ops[..|ops| - 1]), ops[|ops| - 1]);
    }
  }

  lemma StepAccepts(f: FlagState, op: Op)
    requires op.Set? && Accepts(f, f.current) && Accepts(f, f.defvalue)
    ensures SameFlag(Step(f, op), f) && Accepts(f, Step(f, op).current) && Accepts(f, Step(f, op).defvalue)
  {
    hide ParseFrom;
  }

  /** The last text of the given mode that is accepted. */
  function LastAccepted(f: FlagState, ops: seq<Op>, mode: Mode): Option<Value> {
    if ops == [] then None
    else
      var op := ops[|ops| - 1];
      if op.Set? && op.mode == mode && TryParse(f, op.text).Some? then TryParse(f, op.text)
      else LastAccepted(f, ops[..|ops| - 1], mode)
  }

  /** The first text of the given mode that is accepted. */
  function FirstAccepted(f: FlagState, ops: seq<Op>, mode: Mode): Option<Value> {
    if ops == [] then None
    else if ops[0].Set? && ops[0].mode == mode && TryParse(f, ops[0].text).Some? then TryParse(f, ops[0].text)
    else FirstAccepted(f, ops[1..], mode)
  }

  lemma {:induction false} FirstAcceptedAppend(f: FlagState, ops: seq<Op>, op: Op, mode: Mode)
    ensures FirstAccepted(f, ops + [op], mode) ==
            if FirstAccepted(f, ops, mode).Some? then FirstAccepted(f, ops, mode)
            else if op.Set? && op.mode == mode then TryParse(f, op.text) else None
  {
    hide TryParse;
    if ops == [] {
      assert (ops + [op])[1..] == [];
    } else {
      assert (ops + [op])[1..] == ops[1..] + [op];
      FirstAcceptedAppend(f, ops[1..], op, mode);
    }
  }

  function OrElse(o: Option<Value>, v: Value): Value {
    match o
    case Some(w) => w
    case None => v
  }

  /** Whatever is written directly, whatever the flag was before and whatever else is set: the default is the last
      one that was accepted. */
  lemma {:induction false} LastDefaultCounts(f: FlagState, ops: seq<Op>)
    ensures Run(f, ops).defvalue == OrElse(LastAccepted(f, ops, SetFlagsDefault), f.defvalue)
  {
    hide TryParse;
    if ops != [] {
      var prior, op := ops[..|ops| - 1], ops[|ops| - 1];
      LastDefaultCounts(f, prior);
      ModifiedIsSticky(f, prior);
      if op.Set? { SameTry(f, UpdateModified(Run(f, prior)), op.text); }
    }
  }

  /** What the modes are for: in whatever order the calls come, an explicit setting beats a conditional
      one and both beat a new default; the last explicit setting counts, the first conditional one, and
      the last default. */
  lemma {:induction false} ModesHavePriorities(f: FlagState, ops: seq<Op>)
    requires !f.modified && f.current == f.defvalue && OnlySets(ops)
    ensures Run(f, ops).defvalue == OrElse(LastAccepted(f, ops, SetFlagsDefault), f.defvalue)
    ensures Run(f, ops).current ==
            OrElse(LastAccepted(f, ops, SetFlagsValue),
                   OrElse(FirstAccepted(f, ops, SetFlagIfDefault), Run(f, ops).defvalue))
    ensures Run(f, ops).modified <==>
      LastAccepted(f, ops, SetFlagsValue).Some? || FirstAccepted(f, ops, SetFlagIfDefault).Some?
  {
    hide TryParse, SetFlag;
    if ops != [] {
      var prior, op := ops[..|ops| - 1], ops[|ops| - 1];
      assert ops == prior + [op];
      ModesHavePriorities(f, prior);
      LastDefaultCounts(f, ops);
      ModifiedIsSticky(f, prior);
      RunAppend(f, prior, op);
      FirstAcceptedAppend(f, prior, op, SetFlagIfDefault);
      SameTry(f, Run(f, prior), op.text);
      PriorityStep(f, Run(f, prior), op.text, op.mode);
    }
  }

  lemma PriorityStep(f: FlagState, g: FlagState, text: string, mode: Mode)
    requires SameFlag(f, g) && (g.modified || g.current == g.defvalue)
    ensures var r := SetFlag(g, text, mode).0; var t := TryParse(f, text);
            && r.defvalue == (if mode.SetFlagsDefault? then OrElse(t, g.defvalue) else g.defvalue)
            && (mode.SetFlagsValue? ==> r.current == OrElse(t, g.current) && r.modified == (g.modified || t.Some?))
            && (mode.SetFlagIfDefault? ==>
              r.current == (if g.modified then g.current else OrElse(t, g.current)) &&
              r.modified == (g.modified || t.Some?))
            && (mode.SetFlagsDefault? ==>
              r.current == (if g.modified then g.current else OrElse(t, g.current)) && r.modified == g.modified)
  {
    hide TryParse;
    SameTry(f, UpdateModified(g), text);
  }

  // ---------------------------------------------------------------------------
  // The whole registry

  /** The program goes on; it has ended itself; or flag files and variables refer to each other more deeply than
      the bound that is given. */
  datatype Status = Running | Exited | TooDeep

  /** The registry's flags by name, the flags for which the parser has noted an error, and the names without a flag. */
  datatype World = World(flags: map<string, FlagState>, errors: set<string>, undefined: set<string>, status: Status)

  ghost predicate WellFormed(flags: map<string, FlagState>) {
    forall n :: n in flags ==> flags[n].name == n && Typed(flags[n])
  }

  /** What one setting does to its own flag: the first half of CommandLineFlagParser::ProcessSingleOptionLocked. */
  function Assign(w: World, name: string, text: string, mode: Mode): World {
    if name !in w.flags then w
    else
      var (f, ok) := SetFlag(w.flags[name], text, mode);
      w.(flags := w.flags[name := f], errors := if ok then w.errors else w.errors + {name})
  }

  type Assignments = seq<(string, string)>

  function AssignAll(w: World, a: Assignments, mode: Mode): World {
    if a == [] then w else Assign(AssignAll(w, a[..|a| - 1], mode), a[|a| - 1].0, a[|a| - 1].1, mode)
  }

  /** The texts meant for one flag, as calls. */
  function CallsFor(name: string, a: Assignments, mode: Mode): seq<Op> {
    if a == [] then []
    else CallsFor(name, a[..|a| - 1], mode) + if a[|a| - 1].0 == name then [Set(a[|a| - 1].1, mode)] else []
  }

  predicate SomeCallFails(f: FlagState, ops: seq<Op>) {
    ops != [] &&
    var prior, op := ops[..|ops| - 1], ops[|ops| - 1];
    SomeCallFails(f, prior) || (op.Set? && !SetFlag(Run(f, prior), op.text, op.mode).1)
  }

  lemma SomeCallFailsAppend(f: FlagState, ops: seq<Op>, op: Op)
    ensures SomeCallFails(f, ops + [op]) <==>
      SomeCallFails(f, ops) || (op.Set? && !SetFlag(Run(f, ops), op.text, op.mode).1)
  {
    hide SetFlag, Run;
    assert (ops + [op])[..|ops|] == ops;
  }

  /** One more setting, as one flag sees it. */
  lemma AssignOne(w: World, name: string, other: string, text: string, mode: Mode)
    requires name in w.flags
    ensures var r := Assign(w, other, text, mode);
      && r.flags.Keys == w.flags.Keys
      && r.flags[name] == (if other == name then SetFlag(w.flags[name], text, mode).0 else w.flags[name])
      && (name in r.errors <==> name in w.errors || (other == name && !SetFlag(w.flags[name], text, mode).1))
  {
    hide SetFlag;
  }

  lemma CallsForOne(f: FlagState, name: string, a: Assignments, mode: Mode)
    requires a != []
    ensures var prior, calls := CallsFor(name, a[..|a| - 1], mode), CallsFor(name, a, mode);
      var s := a[|a| - 1];
      && Run(f, calls) == (if s.0 == name then SetFlag(Run(f, prior), s.1, mode).0 else Run(f, prior))
      && (SomeCallFails(f, calls) <==>
        SomeCallFails(f, prior) || (s.0 == name && !SetFlag(Run(f, prior), s.1, mode).1))
  {
    hide SetFlag, Run, SomeCallFails;
    var prior, s := CallsFor(name, a[..|a| - 1], mode), a[|a| - 1];
    if s.0 == name {
      RunAppend(f, prior, Set(s.1, mode));
      SomeCallFailsAppend(f, prior, Set(s.1, mode));
    } else {
      assert CallsFor(name, a, mode) == prior;
    }
  }

  /** Flags do not interfere: each one sees exactly the texts meant for it; an error is noted for it just
      when one of the calls fails. */
  lemma {:induction false} EachFlagRunsAlone(w: World, a: Assignments, mode: Mode, name: string)
    requires name in w.flags
    ensures AssignAll(w, a, mode).flags.Keys == w.flags.Keys
    ensures AssignAll(w, a, mode).flags[name] == Run(w.flags[name], CallsFor(name, a, mode))
    ensures name in AssignAll(w, a, mode).errors <==>
      name in w.errors || SomeCallFails(w.flags[name], CallsFor(name, a, mode))
  {
    hide SetFlag;
    if a != [] {
      hide Run, SomeCallFails, CallsFor, Assign;
      EachFlagRunsAlone(w, a[..|a| - 1], mode, name);
      AssignOne(AssignAll(w, a[..|a| - 1], mode), name, a[|a| - 1].0, a[|a| - 1].1, mode);
      CallsForOne(w.flags[name], name, a, mode);
    }
  }

  /** On the command line the last legal setting of a flag counts. */
  lemma {:induction false} LastSettingWins(f: FlagState, ops: seq<Op>)
    requires forall k :: 0 <= k < |ops| ==> ops[k].Set? && ops[k].mode.SetFlagsValue?
    ensures Run(f, ops).current == OrElse(LastAccepted(f, ops, SetFlagsValue), f.current)
    ensures Run(f, ops).defvalue == f.defvalue
  {
    hide TryParse;
    if ops != [] {
      var prior, op := ops[..|ops| - 1], ops[|ops| - 1];
      LastSettingWins(f, prior);
      ModifiedIsSticky(f, prior);
      SameTry(f, UpdateModified(Run(f, prior)), op.text);
    }
  }
}

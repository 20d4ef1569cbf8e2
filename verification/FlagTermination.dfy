/** When the reading of flag files and variables ends: exactly if no flag file and no list of variables is asked for
    again while it is being read. */
module FlagTermination {
  import opened Wrappers
  import opened FlagValues
  import opened FlagSemantics
  import opened CommandLine
  import opened FlagFile
  import opened FlagRecursion

  /** What stays as it is during a reading: names, types and validators of the flags; the mode; the outside. */
  datatype Setup = Setup(flags: map<string, FlagState>, mode: Mode, host: Host) {
    /** The outside, with a bound on the depth. */
    function At(levels: nat): Host { host.(levels := levels) }
  }

  /** A recursive flag and a value it acts on. */
  type Node = (string, string)

  function Asked(node: Node, u: Setup): Expansion {
    Expand(node.0, node.1, TypesOf(u.flags), u.host)
  }

  /** A recursive flag that someone has changed. */
  predicate Changed(name: string, f: FlagState) {
    && Recursive(name) && f.ty == FvString && f.current.StringValue?
    && (f.modified || f.current != f.defvalue)
  }

  /** The values of recursive flags that the mode does not replace: a further setting acts on the value again. */
  function Held(flags: map<string, FlagState>, mode: Mode): map<string, string> {
    if mode.SetFlagsValue? then map[]
    else map n | n in flags && Changed(n, flags[n]) :: flags[n].current.s
  }

  /** A recursive flag takes this text. */
  predicate Legal(name: string, text: string, u: Setup) {
    Recursive(name) && name in u.flags && u.flags[name].ty == FvString && Accepts(u.flags[name], StringValue(text))
  }

  /** The value that a setting makes its flag act on. */
  function Target(held: map<string, string>, name: string, text: string, u: Setup): Option<string> {
    var value := if name in held then held[name] else text;
    if value != "" && (Legal(name, text, u) || (u.mode.SetFlagIfDefault? && name in held)) then Some(value) else None
  }

  function Hold(held: map<string, string>, name: string, text: string, u: Setup): map<string, string> {
    if u.mode.SetFlagIfDefault? && name !in held && Legal(name, text, u) then held[name := text] else held
  }

  // ---------------------------------------------------------------------------
  // The search for something that is asked for again

  datatype Course = Passed | Ended | Unfinished | Again

  /** The course of a reading that stops at the first value asked for again while a flag acts on it. */
  datatype Search = Search(held: map<string, string>, course: Course)

  function Follow(s: Search, name: string, text: string, active: set<Node>, u: Setup, levels: nat): Search
    decreases levels, 0, 0
  {
    if s.course != Passed then s
    else
      var held := Hold(s.held, name, text, u);
      match Target(s.held, name, text, u)
      case None => Search(held, Passed)
      case Some(value) =>
        if (name, value) in active then Search(held, Again)
        else if levels == 0 then Search(held, Unfinished)
        else
          var x := Asked((name, value), u);
          var r := FollowAll(Search(held, Passed), x.settings, active + {(name, value)}, u, levels - 1);
          if r.course == Passed && x.exits then Search(r.held, Ended) else r
  }

  function FollowAll(s: Search, a: Assignments, active: set<Node>, u: Setup, levels: nat): Search
    decreases levels, 1, |a|
  {
    if a == [] then s
    else Follow(FollowAll(s, a[..|a| - 1], active, u, levels), a[|a| - 1].0, a[|a| - 1].1, active, u, levels)
  }

  // ---------------------------------------------------------------------------
  // The search and the reading

  ghost predicate AllTyped(flags: map<string, FlagState>) {
    forall n :: n in flags ==> Typed(flags[n])
  }

  /** The program runs, and the flags are those of the set-up with these values held. */
  ghost predicate Fits(w: World, held: map<string, string>, u: Setup) {
    w.status == Running && AllTyped(w.flags) && SameFlags(w.flags, u.flags) && Held(w.flags, u.mode) == held
  }

  lemma SetStep(f: FlagState, text: string, mode: Mode)
    requires Typed(f) && f.ty == FvString
    ensures var (g, ok) := SetFlag(f, text, mode); var kept := f.modified || f.current != f.defvalue;
      && SameFlag(g, f) && Typed(g)
      && (ok <==> Accepts(f, StringValue(text)) || (mode.SetFlagIfDefault? && kept))
      && (ok ==> g.current == if kept && !mode.SetFlagsValue? then f.current else StringValue(text))
      && (!ok ==> g.current == f.current)
      && (!mode.SetFlagsValue? ==>
        ((g.modified || g.current != g.defvalue) <==> kept || (ok && mode.SetFlagIfDefault?)))
  {
    StringReads(text);
  }

  lemma OtherStep(f: FlagState, text: string, mode: Mode)
    requires Typed(f)
    ensures var g := SetFlag(f, text, mode).0; SameFlag(g, f) && Typed(g)
  {
    hide StrTo64, StrToU64, EqualIgnoringCase;
  }

  lemma HeldUpdate(flags: map<string, FlagState>, name: string, g: FlagState, mode: Mode)
    requires name in flags && !mode.SetFlagsValue?
    ensures Held(flags[name := g], mode) ==
      if Changed(name, g) then Held(flags, mode)[name := g.current.s] else Held(flags, mode) - {name}
  {
    hide Changed;
  }

  lemma HeldStep(f: FlagState, name: string, text: string, held: map<string, string>, u: Setup)
    requires name in u.flags && Typed(f) && SameFlag(f, u.flags[name])
    requires !u.mode.SetFlagsValue?
    requires if Changed(name, f) then name in held && held[name] == f.current.s else name !in held
    ensures var g := SetFlag(f, text, u.mode).0; var next := Hold(held, name, text, u);
      if Changed(name, g) then next == held[name := g.current.s] else next == held - {name} && next == held
    ensures var (g, ok) := SetFlag(f, text, u.mode);
      Target(held, name, text, u) == if ok && Acts(name, g) then Some(g.current.s) else None
  {
    hide SetFlag;
    OtherStep(f, text, u.mode);
    if f.ty == FvString { SetStep(f, text, u.mode); }
  }

  lemma AssignKeepsTypes(w: World, name: string, text: string, mode: Mode)
    requires AllTyped(w.flags)
    ensures AllTyped(Assign(w, name, text, mode).flags)
  {
    hide SetFlag;
    if name in w.flags { OtherStep(w.flags[name], text, mode); }
  }

  /** One setting, without what it leads to. */
  lemma SettingFits(w: World, name: string, text: string, held: map<string, string>, u: Setup)
    requires Fits(w, held, u) && name in w.flags
    ensures Fits(Assign(w, name, text, u.mode), Hold(held, name, text, u), u)
    ensures var (f, ok) := SetFlag(w.flags[name], text, u.mode);
      Target(held, name, text, u) == if ok && Acts(name, f) then Some(f.current.s) else None
  {
    var f, w' := w.flags[name], Assign(w, name, text, u.mode);
    AssignKeepsTypes(w, name, text, u.mode);
    AssignKeepsFlags(w, name, text, u.mode);
    SameFlagsTwice(w'.flags, w.flags, u.flags);
    assert Typed(f) && SameFlag(f, u.flags[name]);
    hide AllTyped, SameFlags;
    if u.mode.SetFlagsValue? {
      if f.ty == FvString { SetStep(f, text, u.mode); }
    } else {
      hide SetFlag, Hold, Target, Changed;
      HeldUpdate(w.flags, name, SetFlag(f, text, u.mode).0, u.mode);
      HeldStep(f, name, text, held, u);
    }
  }

  /** What a setting does, in terms of the values held. */
  lemma ProcessFits(w: World, name: string, text: string, held: map<string, string>, u: Setup, levels: nat)
    requires Fits(w, held, u)
    ensures var w', t := Assign(w, name, text, u.mode), Target(held, name, text, u);
      && Fits(w', Hold(held, name, text, u), u)
      && Process(w, name, text, u.mode, u.At(levels)) ==
           if t.None? then w' else Act(w', name, t.value, u.mode, u.At(levels))
  {
    hide SetFlag, Act;
    if name in w.flags { SettingFits(w, name, text, held, u); } else { assert name !in held; }
  }

  /** What acting on a value amounts to. */
  lemma ActFits(w: World, node: Node, u: Setup, levels: nat)
    requires SameFlags(w.flags, u.flags)
    ensures Act(w, node.0, node.1, u.mode, u.At(levels)) ==
      if levels == 0 then w.(status := TooDeep)
      else Carry(ProcessAll(w, Asked(node, u).settings, u.mode, u.At(levels - 1)), Asked(node, u))
  {
    hide Expand, ProcessAll;
    assert TypesOf(w.flags) == TypesOf(u.flags);
    SameExpansion(node.0, node.1, TypesOf(u.flags), u.host, u.At(levels));
  }

  // ---------------------------------------------------------------------------
  // A search that comes to an end is the reading

  /** Where the search passes, so does the reading, with the same values held; where it ends, so does the program. */
  ghost predicate Agrees(w: World, r: Search, u: Setup) {
    && (r.course == Passed ==> Fits(w, r.held, u))
    && (r.course == Ended ==> w.status == Exited)
  }

  lemma FollowSticks(s: Search, name: string, text: string, active: set<Node>, u: Setup, levels: nat)
    ensures s.course != Passed ==> Follow(s, name, text, active, u, levels) == s
  {
  }

  lemma {:induction false} SearchIsReading(w: World, held: map<string, string>, a: Assignments, active: set<Node>,
                                           u: Setup, levels: nat)
    requires Fits(w, held, u)
    ensures Agrees(ProcessAll(w, a, u.mode, u.At(levels)), FollowAll(Search(held, Passed), a, active, u, levels), u)
    decreases levels, 1, |a|
  {
    hide Process, Follow, Fits;
    if a != [] {
      var prior, name, text := a[..|a| - 1], a[|a| - 1].0, a[|a| - 1].1;
      var w', r := ProcessAll(w, prior, u.mode, u.At(levels)),
                   FollowAll(Search(held, Passed), prior, active, u, levels);
      SearchIsReading(w, held, prior, active, u, levels);
      StatusSticks(w', name, text, u.mode, u.At(levels));
      FollowSticks(r, name, text, active, u, levels);
      if r.course == Passed { SearchIsReadingOnce(w', r.held, name, text, active, u, levels); }
    }
  }

  lemma {:induction false} SearchIsReadingOnce(w: World, held: map<string, string>, name: string, text: string,
                                               active: set<Node>, u: Setup, levels: nat)
    requires Fits(w, held, u)
    ensures Agrees(Process(w, name, text, u.mode, u.At(levels)),
                   Follow(Search(held, Passed), name, text, active, u, levels), u)
    decreases levels, 0, 0
  {
    hide Process, Act, FollowAll, ProcessAll, Asked, Target, Hold, Held, AllTyped;
    ProcessFits(w, name, text, held, u, levels);
    var t := Target(held, name, text, u);
    if t.Some? && (name, t.value) !in active && levels > 0 {
      var w', next, node := Assign(w, name, text, u.mode), Hold(held, name, text, u), (name, t.value);
      ActFits(w', node, u, levels);
      SearchIsReading(w', next, Asked(node, u).settings, active + {node}, u, levels - 1);
    }
  }

  /** What a search with any bound passes, a reading with any other bound passes too, or it is too deep for it. */
  lemma PassedAtAnyLevel(w: World, held: map<string, string>, a: Assignments, active: set<Node>, u: Setup, levels: nat,
                         other: nat)
    requires Fits(w, held, u) && FollowAll(Search(held, Passed), a, active, u, levels).course == Passed
    ensures var w' := ProcessAll(w, a, u.mode, u.At(other));
      w'.status == TooDeep || Fits(w', FollowAll(Search(held, Passed), a, active, u, levels).held, u)
  {
    hide ProcessAll, FollowAll, AllTyped, Held, SameFlags;
    SearchIsReading(w, held, a, active, u, levels);
    if other >= levels {
      BoundIsEnough(w, a, u.mode, u.At(levels), u.At(other));
    } else if ProcessAll(w, a, u.mode, u.At(other)).status != TooDeep {
      BoundIsEnough(w, a, u.mode, u.At(other), u.At(levels));
    }
  }

  // ---------------------------------------------------------------------------
  // Traps

  /** The setting leads to nothing but the given nodes, and no further value is held after it. */
  ghost predicate LeadsInto(held: map<string, string>, nodes: set<Node>, s: (string, string), u: Setup) {
    && Hold(held, s.0, s.1, u) == held
    && (Target(held, s.0, s.1, u).Some? ==> (s.0, Target(held, s.0, s.1, u).value) in nodes)
  }

  ghost predicate AllLeadInto(held: map<string, string>, nodes: set<Node>, a: Assignments, u: Setup) {
    forall k :: 0 <= k < |a| ==> LeadsInto(held, nodes, a[k], u)
  }

  /** Acting on this node comes to an end, if acting on the given nodes does. */
  ghost predicate Harmless(node: Node, held: map<string, string>, nodes: set<Node>, u: Setup) {
    !Asked(node, u).exits && AllLeadInto(held, nodes, Asked(node, u).settings, u)
  }

  /** The k-th setting leads to one of the given traps, those before it into the given nodes. */
  ghost predicate TrappedAt(a: Assignments, k: nat, held: map<string, string>, nodes: set<Node>, traps: set<Node>,
                            u: Setup) {
    && k < |a| && AllLeadInto(held, nodes, a[..k], u)
    && LeadsInto(held, traps, a[k], u) && Target(held, a[k].0, a[k].1, u).Some?
  }

  ghost predicate Trapped(node: Node, held: map<string, string>, nodes: set<Node>, traps: set<Node>, u: Setup) {
    exists k: nat :: TrappedAt(Asked(node, u).settings, k, held, nodes, traps, u)
  }

  /** Every trap leads to a trap, and everything else to harmless nodes. */
  ghost predicate Closed(held: map<string, string>, nodes: set<Node>, traps: set<Node>, u: Setup) {
    && traps <= nodes
    && forall node :: node in nodes ==>
         if node in traps then Trapped(node, held, nodes, traps, u) else Harmless(node, held, nodes, u)
  }

  /** Too deep, or over without any further value held. */
  ghost predicate Stays(w: World, held: map<string, string>, u: Setup) {
    w.status == TooDeep || Fits(w, held, u)
  }

  /** Nothing comes back from a trap, at any bound. */
  lemma {:induction false} TrapHolds(node: Node, w: World, held: map<string, string>, nodes: set<Node>,
                                     traps: set<Node>, u: Setup, levels: nat)
    requires Closed(held, nodes, traps, u) && node in nodes && Fits(w, held, u)
    ensures Stays(Act(w, node.0, node.1, u.mode, u.At(levels)), held, u)
    ensures node in traps ==> Act(w, node.0, node.1, u.mode, u.At(levels)).status == TooDeep
    decreases levels, 0, 0
  {
    hide Act, ProcessAll, Asked, LeadsInto, Held, AllTyped;
    ActFits(w, node, u, levels);
    if levels > 0 {
      var x := Asked(node, u);
      if node in traps {
        var k: nat :| TrappedAt(x.settings, k, held, nodes, traps, u);
        TrapInList(x.settings, k, w, held, nodes, traps, u, levels - 1);
      } else {
        ListStays(x.settings, w, held, nodes, traps, u, levels - 1);
      }
    }
  }

  lemma {:induction false} SettingStays(s: (string, string), w: World, held: map<string, string>, nodes: set<Node>,
                                        traps: set<Node>, u: Setup, levels: nat)
    requires Closed(held, nodes, traps, u) && Fits(w, held, u) && LeadsInto(held, nodes, s, u)
    ensures Stays(Process(w, s.0, s.1, u.mode, u.At(levels)), held, u)
    ensures LeadsInto(held, traps, s, u) && Target(held, s.0, s.1, u).Some? ==>
      Process(w, s.0, s.1, u.mode, u.At(levels)).status == TooDeep
    decreases levels, 1, 0
  {
    hide Process, Act, Closed, Held, AllTyped, Hold, Target;
    ProcessFits(w, s.0, s.1, held, u, levels);
    var t := Target(held, s.0, s.1, u);
    if t.Some? {
      TrapHolds((s.0, t.value), Assign(w, s.0, s.1, u.mode), held, nodes, traps, u, levels);
    }
  }

  lemma {:induction false} ListStays(a: Assignments, w: World, held: map<string, string>, nodes: set<Node>,
                                     traps: set<Node>, u: Setup, levels: nat)
    requires Closed(held, nodes, traps, u) && Fits(w, held, u) && AllLeadInto(held, nodes, a, u)
    ensures Stays(ProcessAll(w, a, u.mode, u.At(levels)), held, u)
    decreases levels, 2, |a|
  {
    hide Process, Closed, Fits, LeadsInto;
    if a != [] {
      var prior, s := a[..|a| - 1], a[|a| - 1];
      var w' := ProcessAll(w, prior, u.mode, u.At(levels));
      ListStays(prior, w, held, nodes, traps, u, levels);
      StatusSticks(w', s.0, s.1, u.mode, u.At(levels));
      if w'.status != TooDeep { SettingStays(s, w', held, nodes, traps, u, levels); }
    }
  }

  lemma {:induction false} TrapInList(a: Assignments, k: nat, w: World, held: map<string, string>, nodes: set<Node>,
                                      traps: set<Node>, u: Setup, levels: nat)
    requires Closed(held, nodes, traps, u) && Fits(w, held, u) && TrappedAt(a, k, held, nodes, traps, u)
    ensures ProcessAll(w, a, u.mode, u.At(levels)).status == TooDeep
    decreases levels, 3, |a|
  {
    hide Process, ProcessAll, Closed, Fits, LeadsInto, AllLeadInto;
    var w' := ProcessAll(w, a[..k], u.mode, u.At(levels));
    ListStays(a[..k], w, held, nodes, traps, u, levels);
    StatusSticks(w', a[k].0, a[k].1, u.mode, u.At(levels));
    if w'.status != TooDeep {
      TrapIsNode(a[k], held, nodes, traps, u);
      SettingStays(a[k], w', held, nodes, traps, u, levels);
    }
    ListStartsTooDeep(w, a, k, u, levels);
  }

  lemma TrapIsNode(s: (string, string), held: map<string, string>, nodes: set<Node>, traps: set<Node>, u: Setup)
    requires Closed(held, nodes, traps, u) && LeadsInto(held, traps, s, u)
    ensures LeadsInto(held, nodes, s, u)
  {
    hide Trapped, Harmless;
  }

  /** What has become too deep stays so. */
  lemma ListStartsTooDeep(w: World, a: Assignments, k: nat, u: Setup, levels: nat)
    requires k < |a|
    requires Process(ProcessAll(w, a[..k], u.mode, u.At(levels)), a[k].0, a[k].1, u.mode, u.At(levels)).status
      == TooDeep
    ensures ProcessAll(w, a, u.mode, u.At(levels)).status == TooDeep
  {
    hide Process, ProcessAll;
    var begin := a[..k] + [a[k]];
    assert a == begin + a[k + 1..];
    ProcessAllAppend(w, a[..k], a[k].0, a[k].1, u.mode, u.At(levels));
    ProcessAllConcat(w, begin, a[k + 1..], u.mode, u.At(levels));
    EndSticks(ProcessAll(w, begin, u.mode, u.At(levels)), a[k + 1..], u.mode, u.At(levels));
  }

  // ---------------------------------------------------------------------------
  // What is asked for again is a trap

  /** More values may have come to be held, those of the given nodes, or empty ones. */
  ghost predicate Grown(held: map<string, string>, next: map<string, string>, nodes: set<Node>, u: Setup) {
    && (u.mode.SetFlagIfDefault? || next == held)
    && (forall n :: n in held ==> n in next && next[n] == held[n])
    && (forall n :: n in next && n !in held ==> next[n] == "" || (n, next[n]) in nodes)
  }

  lemma GrownTwice(a: map<string, string>, b: map<string, string>, c: map<string, string>, nodes: set<Node>,
                   more: set<Node>, u: Setup)
    requires Grown(a, b, nodes, u) && Grown(b, c, more, u) && nodes <= more
    ensures Grown(a, c, more, u)
  {
  }

  lemma LeadsGrow(held: map<string, string>, next: map<string, string>, nodes: set<Node>, more: set<Node>,
                  s: (string, string), u: Setup)
    requires LeadsInto(held, nodes, s, u) && Grown(held, next, more, u) && nodes <= more
    ensures LeadsInto(next, more, s, u)
    ensures Target(held, s.0, s.1, u).Some? ==> Target(next, s.0, s.1, u) == Target(held, s.0, s.1, u)
  {
    hide Legal;
  }

  lemma AllLeadGrow(held: map<string, string>, next: map<string, string>, nodes: set<Node>, more: set<Node>,
                    a: Assignments, u: Setup)
    requires AllLeadInto(held, nodes, a, u) && Grown(held, next, more, u) && nodes <= more
    ensures AllLeadInto(next, more, a, u)
  {
    hide LeadsInto, Grown;
    forall k | 0 <= k < |a| ensures LeadsInto(next, more, a[k], u) { LeadsGrow(held, next, nodes, more, a[k], u); }
  }

  ghost predicate AllHarmless(done: set<Node>, held: map<string, string>, nodes: set<Node>, u: Setup) {
    forall node :: node in done ==> Harmless(node, held, nodes, u)
  }

  lemma HarmlessGrow(done: set<Node>, held: map<string, string>, next: map<string, string>, nodes: set<Node>,
                     more: set<Node>, u: Setup)
    requires AllHarmless(done, held, nodes, u) && Grown(held, next, more, u) && nodes <= more
    ensures AllHarmless(done, next, more, u)
  {
    hide AllLeadInto, Grown, Asked;
    forall node | node in done ensures Harmless(node, next, more, u) {
      AllLeadGrow(held, next, nodes, more, Asked(node, u).settings, u);
    }
  }

  lemma TrappedGrows(node: Node, held: map<string, string>, next: map<string, string>, nodes: set<Node>,
                     more: set<Node>, traps: set<Node>, moreTraps: set<Node>, u: Setup)
    requires Trapped(node, held, nodes, traps, u) && Grown(held, next, more, u) && nodes <= more && traps <= moreTraps
    ensures Trapped(node, next, more, moreTraps, u)
  {
    hide AllLeadInto, Asked, Target, Hold;
    var a := Asked(node, u).settings;
    var k: nat :| TrappedAt(a, k, held, nodes, traps, u);
    AllLeadGrow(held, next, nodes, more, a[..k], u);
    TrapGrows(held, next, traps, moreTraps, more, a[k], u);
    assert TrappedAt(a, k, next, more, moreTraps, u);
  }

  lemma TrapGrows(held: map<string, string>, next: map<string, string>, traps: set<Node>, moreTraps: set<Node>,
                  more: set<Node>, s: (string, string), u: Setup)
    requires LeadsInto(held, traps, s, u) && Target(held, s.0, s.1, u).Some?
    requires Grown(held, next, more, u) && traps <= moreTraps
    ensures LeadsInto(next, moreTraps, s, u) && Target(next, s.0, s.1, u).Some?
  {
    hide Legal;
  }

  /** A setting makes at most the value held that it acts on. */
  lemma HoldGrows(held: map<string, string>, name: string, text: string, nodes: set<Node>, u: Setup)
    requires Target(held, name, text, u).Some? ==> (name, Target(held, name, text, u).value) in nodes
    ensures Grown(held, Hold(held, name, text, u), nodes, u)
    ensures LeadsInto(Hold(held, name, text, u), nodes, (name, text), u)
    ensures Target(held, name, text, u).Some? ==>
      Target(Hold(held, name, text, u), name, text, u) == Target(held, name, text, u)
  {
    hide Legal;
  }

  /** What the search passes is harmless from then on. */
  lemma {:induction false} PassedIsHarmless(held: map<string, string>, a: Assignments, active: set<Node>,
                                            done: set<Node>, u: Setup, levels: nat) returns (more: set<Node>)
    requires AllHarmless(done, held, done + active, u)
    requires FollowAll(Search(held, Passed), a, active, u, levels).course == Passed
    ensures var next := FollowAll(Search(held, Passed), a, active, u, levels).held;
      && done <= more && Grown(held, next, more + active, u)
      && AllHarmless(more, next, more + active, u) && AllLeadInto(next, more + active, a, u)
    decreases levels, 1, |a|
  {
    hide Follow, Harmless, LeadsInto;
    if a == [] {
      more := done;
    } else {
      hide Grown, AllHarmless;
      var prior, s := a[..|a| - 1], a[|a| - 1];
      var r := FollowAll(Search(held, Passed), prior, active, u, levels);
      FollowSticks(r, s.0, s.1, active, u, levels);
      var some := PassedIsHarmless(held, prior, active, done, u, levels);
      more := PassedOnceIsHarmless(r.held, s, active, some, u, levels);
      var next := Follow(r, s.0, s.1, active, u, levels).held;
      AllLeadGrow(r.held, next, some + active, more + active, prior, u);
      GrownTwice(held, r.held, next, some + active, more + active, u);
    }
  }

  lemma {:induction false} PassedOnceIsHarmless(held: map<string, string>, s: (string, string), active: set<Node>,
                                                done: set<Node>, u: Setup, levels: nat) returns (more: set<Node>)
    requires AllHarmless(done, held, done + active, u)
    requires Follow(Search(held, Passed), s.0, s.1, active, u, levels).course == Passed
    ensures var next := Follow(Search(held, Passed), s.0, s.1, active, u, levels).held;
      && done <= more && Grown(held, next, more + active, u)
      && AllHarmless(more, next, more + active, u) && LeadsInto(next, more + active, s, u)
    decreases levels, 0, 0
  {
    hide FollowAll, AllHarmless, Target, Hold, Grown, LeadsInto, AllLeadInto, Asked;
    var t, next := Target(held, s.0, s.1, u), Hold(held, s.0, s.1, u);
    if t.None? {
      HoldGrows(held, s.0, s.1, done + active, u);
      HarmlessGrow(done, held, next, done + active, done + active, u);
      more := done;
    } else {
      var node := (s.0, t.value);
      var x := Asked(node, u);
      var now := active + {node};
      HoldGrows(held, s.0, s.1, done + now, u);
      HarmlessGrow(done, held, next, done + active, done + now, u);
      var some := PassedIsHarmless(next, x.settings, now, done, u, levels - 1);
      var last := FollowAll(Search(next, Passed), x.settings, now, u, levels - 1).held;
      more := some + {node};
      assert some + now == more + active;
      HarmlessJoin(some, node, last, more + active, u);
      LeadsGrow(next, last, done + now, more + active, s, u);
      GrownTwice(held, next, last, done + now, more + active, u);
    }
  }

  lemma HarmlessJoin(done: set<Node>, node: Node, held: map<string, string>, nodes: set<Node>, u: Setup)
    requires AllHarmless(done, held, nodes, u) && Harmless(node, held, nodes, u)
    ensures AllHarmless(done + {node}, held, nodes, u)
  {
    hide Harmless;
  }

  /** All nodes that are acted on but the last lead to another one. */
  ghost predicate AllTrapped(held: map<string, string>, nodes: set<Node>, active: set<Node>, top: Option<Node>,
                             u: Setup) {
    && (top == None ==> active == {})
    && (forall node :: node in active && top != Some(node) ==> Trapped(node, held, nodes, active, u))
  }

  lemma AllTrappedGrow(held: map<string, string>, next: map<string, string>, nodes: set<Node>, more: set<Node>,
                       active: set<Node>, now: set<Node>, top: Option<Node>, u: Setup)
    requires AllTrapped(held, nodes, active, top, u) && Grown(held, next, more, u) && nodes <= more && active <= now
    ensures forall node :: node in active && top != Some(node) ==> Trapped(node, next, more, now, u)
  {
    hide Trapped, Grown;
    forall node | node in active && top != Some(node) ensures Trapped(node, next, more, now, u) {
      TrappedGrows(node, held, next, nodes, more, active, now, u);
    }
  }

  /** The settings are the first ones of what the flag acts on. */
  ghost predicate Begins(a: Assignments, top: Option<Node>, u: Setup) {
    top.Some? ==> |a| <= |Asked(top.value, u).settings| && a == Asked(top.value, u).settings[..|a|]
  }

  /** If the search comes to what is asked for again, every reading is too deep. */
  lemma {:induction false} AgainIsTooDeep(held: map<string, string>, a: Assignments, top: Option<Node>,
                                          active: set<Node>, done: set<Node>, u: Setup, levels: nat,
                                          w: World, other: nat)
    requires Fits(w, held, u) && AllHarmless(done, held, done + active, u)
    requires AllTrapped(held, done + active, active, top, u) && Begins(a, top, u)
    requires FollowAll(Search(held, Passed), a, active, u, levels).course == Again
    ensures ProcessAll(w, a, u.mode, u.At(other)).status == TooDeep
    decreases levels, 1, |a|
  {
    hide Follow, Process, Harmless, Trapped, Fits, Grown, AllHarmless, LeadsInto, AllLeadInto, Asked;
    assert a != [];
    var prior, s := a[..|a| - 1], a[|a| - 1];
    var r, w' := FollowAll(Search(held, Passed), prior, active, u, levels),
                 ProcessAll(w, prior, u.mode, u.At(other));
    FollowSticks(r, s.0, s.1, active, u, levels);
    StatusSticks(w', s.0, s.1, u.mode, u.At(other));
    if r.course == Again {
      AgainIsTooDeep(held, prior, top, active, done, u, levels, w, other);
    } else {
      var more := PassedIsHarmless(held, prior, active, done, u, levels);
      PassedAtAnyLevel(w, held, prior, active, u, levels, other);
      AllTrappedGrow(held, r.held, done + active, more + active, active, active, top, u);
      if w'.status != TooDeep {
        AgainOnceIsTooDeep(r.held, prior, s, top, active, more, u, levels, w', other);
      }
    }
  }

  lemma {:induction false} AgainOnceIsTooDeep(held: map<string, string>, prior: Assignments, s: (string, string),
                                              top: Option<Node>, active: set<Node>, done: set<Node>, u: Setup,
                                              levels: nat, w: World, other: nat)
    requires Fits(w, held, u) && AllHarmless(done, held, done + active, u)
    requires AllTrapped(held, done + active, active, top, u) && Begins(prior + [s], top, u)
    requires AllLeadInto(held, done + active, prior, u)
    requires Follow(Search(held, Passed), s.0, s.1, active, u, levels).course == Again
    ensures Process(w, s.0, s.1, u.mode, u.At(other)).status == TooDeep
    decreases levels, 0, 0
  {
    hide FollowAll, Process, ProcessAll, Act, Harmless, Trapped, Grown, AllHarmless, LeadsInto, AllLeadInto, Asked,
         Hold, Target, AllTyped, Held, Closed, Begins;
    var t, next := Target(held, s.0, s.1, u), Hold(held, s.0, s.1, u);
    var node, w' := (s.0, t.value), Assign(w, s.0, s.1, u.mode);
    var now := active + {node};
    ProcessFits(w, s.0, s.1, held, u, other);
    HoldGrows(held, s.0, s.1, done + now, u);
    HarmlessGrow(done, held, next, done + active, done + now, u);
    AllTrappedGrow(held, next, done + active, done + now, active, now, top, u);
    if top.Some? { TopIsTrapped(held, next, prior, s, top.value, done + active, done + now, now, u); }
    if node in active {
      assert now == active;
      ClosedByThen(done, next, active, u);
      TrapHolds(node, w', next, done + active, active, u, other);
    } else {
      ActFits(w', node, u, other);
      if other > 0 {
        var x := Asked(node, u);
        BeginsWhole(node, u);
        AgainIsTooDeep(next, x.settings, Some(node), now, done, u, levels - 1, w', other - 1);
      }
    }
  }

  lemma BeginsWhole(node: Node, u: Setup)
    ensures Begins(Asked(node, u).settings, Some(node), u)
  {
    hide Asked;
  }

  lemma TopIsTrapped(held: map<string, string>, next: map<string, string>, prior: Assignments, s: (string, string),
                     top: Node, nodes: set<Node>, more: set<Node>, now: set<Node>, u: Setup)
    requires Begins(prior + [s], Some(top), u) && AllLeadInto(held, nodes, prior, u)
    requires Grown(held, next, more, u) && nodes <= more && next == Hold(held, s.0, s.1, u)
    requires Target(held, s.0, s.1, u).Some? && (s.0, Target(held, s.0, s.1, u).value) in now
    ensures Trapped(top, next, more, now, u)
  {
    hide AllLeadInto, Asked, Target, Hold, Grown, LeadsInto;
    var a, k := Asked(top, u).settings, |prior|;
    assert a[..k] == prior && a[k] == s by { assert (prior + [s])[..k] == prior && (prior + [s])[k] == s; }
    AllLeadGrow(held, next, nodes, more, prior, u);
    HoldGrows(held, s.0, s.1, now, u);
    assert TrappedAt(a, k, next, more, now, u);
  }

  lemma ClosedByThen(done: set<Node>, held: map<string, string>, active: set<Node>, u: Setup)
    requires AllHarmless(done, held, done + active, u)
    requires forall node :: node in active ==> Trapped(node, held, done + active, active, u)
    ensures Closed(held, done + active, active, u)
  {
    hide Trapped, Harmless;
  }

  // ---------------------------------------------------------------------------
  // A bound that is always enough

  const NAMES := {"flagfile", "fromenv", "tryfromenv"}

  ghost function TextsOf(a: Assignments): set<string> {
    set k | 0 <= k < |a| :: a[k].1
  }

  ghost function FileTexts(u: Setup): set<string> {
    set f, t | f in u.host.files && t in TextsOf(Settings(u.host.files[f], TypesOf(u.flags), u.host.matches)) :: t
  }

  ghost function OutsideTexts(u: Setup): set<string> { FileTexts(u) + u.host.environment.Values }

  /** All texts that a recursive flag could be given. */
  ghost function AllTexts(held: map<string, string>, a: Assignments, u: Setup): set<string> {
    held.Values + TextsOf(a) + OutsideTexts(u)
  }

  ghost function Nodes(texts: set<string>): set<Node> {
    set n, t | n in NAMES && t in texts :: (n, t)
  }

  /** In the mode that keeps values each flag can act only once at a time; in the others each value of each flag. */
  ghost function Enough(w: World, a: Assignments, mode: Mode, host: Host): nat {
    if mode.SetFlagIfDefault? then 3
    else |Nodes(AllTexts(Held(w.flags, mode), a, Setup(w.flags, mode, host)))|
  }

  lemma {:induction false} FilesHaveTexts(names: seq<string>, u: Setup, host: Host)
    requires host == u.host
    ensures TextsOf(FromFiles(names, TypesOf(u.flags), host).settings) <= FileTexts(u)
  {
    hide Settings;
    if names != [] && names[0] in host.files {
      FilesHaveTexts(names[1..], u, host);
      var first := Settings(host.files[names[0]], TypesOf(u.flags), host.matches);
      TextsJoin(first, FromFiles(names[1..], TypesOf(u.flags), host).settings);
      forall t | t in TextsOf(first) ensures t in FileTexts(u) { }
    }
  }

  lemma TextsJoin(a: Assignments, b: Assignments)
    ensures TextsOf(a + b) == TextsOf(a) + TextsOf(b)
  {
    forall k | 0 <= k < |a + b|
      ensures (a + b)[k].1 in TextsOf(a) + TextsOf(b)
    {
      assert if k < |a| then (a + b)[k] == a[k] else (a + b)[k] == b[k - |a|];
    }
    forall k | 0 <= k < |a| ensures a[k].1 in TextsOf(a + b) { assert (a + b)[k] == a[k]; }
    forall k | 0 <= k < |b| ensures b[k].1 in TextsOf(a + b) { assert (a + b)[|a| + k] == b[k]; }
  }

  lemma {:induction false} VariablesHaveTexts(names: seq<string>, types: Types, host: Host, fatal: bool)
    ensures TextsOf(FromEnvironment(names, types, host, fatal).settings) <= host.environment.Values
  {
    if names != [] {
      VariablesHaveTexts(names[1..], types, host, fatal);
      TextsJoin(FromVariable(names[0], types, host, fatal).settings,
        FromEnvironment(names[1..], types, host, fatal).settings);
    }
  }

  lemma AskedTexts(node: Node, u: Setup)
    ensures TextsOf(Asked(node, u).settings) <= OutsideTexts(u)
  {
    hide FromFiles, FromEnvironment, IndexOf, FlagList, FileTexts;
    var list := FlagList(node.1[..IndexOf(node.1, '\0')]);
    if list.Some? {
      FilesHaveTexts(list.value, u, u.host);
      VariablesHaveTexts(list.value, TypesOf(u.flags), u.host, node.0 == "fromenv");
    }
  }

  /** There is room for what is acted on, and for as many levels. */
  ghost predicate Room(active: set<Node>, held: map<string, string>, texts: set<string>, u: Setup, levels: nat) {
    if u.mode.SetFlagIfDefault? then
      && held.Keys <= NAMES && |active| + levels >= 3
      && (forall node :: node in active ==> node.0 in held && held[node.0] == node.1)
    else
      active <= Nodes(texts) && held.Values <= texts && |active| + levels >= |Nodes(texts)|
  }

  lemma Fewer(a: set<Node>, b: set<Node>)
    requires a <= b
    ensures |a| <= |b|
  {
    assert |b - a| == |b| - |a|;
  }

  lemma AtMostThree(active: set<Node>, held: map<string, string>)
    requires held.Keys <= NAMES && forall node :: node in active ==> node.0 in held && held[node.0] == node.1
    ensures |active| <= 3
  {
    var of := (n: string) => (n, if n in held then held[n] else "");
    var all := {of("flagfile"), of("fromenv"), of("tryfromenv")};
    Fewer(active, all);
  }

  lemma RoomForOne(active: set<Node>, held: map<string, string>, name: string, text: string, texts: set<string>,
                   u: Setup, levels: nat)
    requires Room(active, held, texts, u, levels) && text in texts
    ensures var next, t := Hold(held, name, text, u), Target(held, name, text, u);
      && Room(active, next, texts, u, levels)
      && (t.Some? && (name, t.value) !in active ==>
        levels > 0 && Room(active + {(name, t.value)}, next, texts, u, levels - 1))
  {
    var next, t := Hold(held, name, text, u), Target(held, name, text, u);
    if t.Some? && (name, t.value) !in active {
      var now := active + {(name, t.value)};
      assert |now| == |active| + 1;
      if u.mode.SetFlagIfDefault? { AtMostThree(now, next); } else { Fewer(now, Nodes(texts)); }
    }
  }

  lemma {:induction false} EnoughLevels(held: map<string, string>, a: Assignments, active: set<Node>,
                                        texts: set<string>, u: Setup, levels: nat)
    requires Room(active, held, texts, u, levels) && TextsOf(a) <= texts
    requires OutsideTexts(u) <= texts
    ensures var r := FollowAll(Search(held, Passed), a, active, u, levels);
      r.course != Unfinished && (r.course == Passed ==> Room(active, r.held, texts, u, levels))
    decreases levels, 1, |a|
  {
    hide Follow, Room, OutsideTexts;
    if a != [] {
      var prior, s := a[..|a| - 1], a[|a| - 1];
      assert a == prior + [s];
      TextsJoin(prior, [s]);
      var r := FollowAll(Search(held, Passed), prior, active, u, levels);
      EnoughLevels(held, prior, active, texts, u, levels);
      FollowSticks(r, s.0, s.1, active, u, levels);
      if r.course == Passed {
        assert s.1 in TextsOf(a);
        EnoughLevelsOnce(r.held, s.0, s.1, active, texts, u, levels);
      }
    }
  }

  lemma {:induction false} EnoughLevelsOnce(held: map<string, string>, name: string, text: string, active: set<Node>,
                                            texts: set<string>, u: Setup, levels: nat)
    requires Room(active, held, texts, u, levels) && text in texts
    requires OutsideTexts(u) <= texts
    ensures var r := Follow(Search(held, Passed), name, text, active, u, levels);
      r.course != Unfinished && (r.course == Passed ==> Room(active, r.held, texts, u, levels))
    decreases levels, 0, 0
  {
    hide FollowAll, OutsideTexts, TextsOf, Asked, Hold, Target, Room;
    var next, t := Hold(held, name, text, u), Target(held, name, text, u);
    RoomForOne(active, held, name, text, texts, u, levels);
    if t.Some? && (name, t.value) !in active {
      var node := (name, t.value);
      AskedTexts(node, u);
      EnoughLevels(next, Asked(node, u).settings, active + {node}, texts, u, levels - 1);
      var r := FollowAll(Search(next, Passed), Asked(node, u).settings, active + {node}, u, levels - 1);
      RoomAfter(active, node, r.held, texts, u, levels);
    }
  }

  lemma RoomAfter(active: set<Node>, node: Node, held: map<string, string>, texts: set<string>, u: Setup, levels: nat)
    requires levels > 0 && node !in active
    ensures Room(active + {node}, held, texts, u, levels - 1) ==> Room(active, held, texts, u, levels)
  {
    assert |active + {node}| == |active| + 1;
  }

  // ---------------------------------------------------------------------------
  // When reading ends

  /** In the course of the settings a recursive flag is asked to act on a value while it is acting on it. */
  ghost predicate AsksAgain(w: World, a: Assignments, mode: Mode, host: Host) {
    FollowAll(Search(Held(w.flags, mode), Passed), a, {}, Setup(w.flags, mode, host), Enough(w, a, mode, host)).course
    == Again
  }

  /** For every mode: settings are carried out within some bound on the depth exactly if nothing is asked for again
      while it is being read, and Enough is such a bound; otherwise every bound is too small: the code goes on for
      ever. */
  lemma EndsExactly(w: World, a: Assignments, mode: Mode, host: Host, levels: nat)
    requires w.status == Running && AllTyped(w.flags)
    ensures var r := ProcessAll(w, a, mode, host.(levels := levels));
      && (AsksAgain(w, a, mode, host) ==> r.status == TooDeep)
      && (levels >= Enough(w, a, mode, host) ==> (r.status == TooDeep <==> AsksAgain(w, a, mode, host)))
  {
    hide ProcessAll, FollowAll, FileTexts, TextsOf, Nodes, AllTyped, Held, Harmless, Trapped;
    var held, u, n := Held(w.flags, mode), Setup(w.flags, mode, host), Enough(w, a, mode, host);
    assert Fits(w, held, u);
    if AsksAgain(w, a, mode, host) {
      AgainIsTooDeep(held, a, None, {}, {}, u, n, w, levels);
    } else {
      RoomAtFirst(w, a, mode, host);
      EnoughLevels(held, a, {}, AllTexts(held, a, u), u, n);
      SearchIsReading(w, held, a, {}, u, n);
      if levels >= n { BoundIsEnough(w, a, mode, u.At(n), u.At(levels)); }
    }
  }

  lemma RoomAtFirst(w: World, a: Assignments, mode: Mode, host: Host)
    ensures var held, u := Held(w.flags, mode), Setup(w.flags, mode, host);
      Room({}, held, AllTexts(held, a, u), u, Enough(w, a, mode, host))
  {
    hide FileTexts, TextsOf, Nodes;
    assert {} <= Nodes(AllTexts(Held(w.flags, mode), a, Setup(w.flags, mode, host)));
  }

  // ---------------------------------------------------------------------------
  // Conditions on the files and the environment alone

  /** Values that may be held later in a reading. */
  ghost predicate Later(held: map<string, string>, next: map<string, string>, u: Setup) {
    && (u.mode.SetFlagIfDefault? || next == held)
    && next.Keys <= NAMES && (forall n :: n in held ==> n in next && next[n] == held[n])
  }

  /** How many levels a node may need. */
  type Grading = (Node, nat) -> bool

  /** Whatever the settings make a flag act on has this grade. */
  ghost predicate AllLow(a: Assignments, low: Grading, d: nat, held: map<string, string>, u: Setup) {
    forall k, next :: 0 <= k < |a| && Later(held, next, u) && Target(next, a[k].0, a[k].1, u).Some? ==>
      low((a[k].0, Target(next, a[k].0, a[k].1, u).value), d)
  }

  /** Everything leads only to what has a lower grade. */
  ghost predicate Descends(low: Grading, held: map<string, string>, u: Setup) {
    forall node, d: nat :: low(node, d) ==> d > 0 && AllLow(Asked(node, u).settings, low, d - 1, held, u)
  }

  lemma LaterTwice(a: map<string, string>, b: map<string, string>, u: Setup)
    requires Later(a, b, u)
    ensures forall c :: Later(b, c, u) ==> Later(a, c, u)
  {
  }

  lemma AllLowLater(a: Assignments, low: Grading, d: nat, held: map<string, string>, next: map<string, string>,
                    u: Setup)
    requires AllLow(a, low, d, held, u) && Later(held, next, u)
    ensures AllLow(a, low, d, next, u)
  {
    hide Target;
    LaterTwice(held, next, u);
    hide Later;
  }

  lemma DescendsLater(low: Grading, held: map<string, string>, next: map<string, string>, u: Setup)
    requires Descends(low, held, u) && Later(held, next, u)
    ensures Descends(low, next, u)
  {
    hide AllLow, Asked, Later;
    forall node, d: nat | low(node, d)
      ensures d > 0 && AllLow(Asked(node, u).settings, low, d - 1, next, u)
    {
      AllLowLater(Asked(node, u).settings, low, d - 1, held, next, u);
    }
  }

  /** The reading is over, and if the program runs on, these or more values are held. */
  ghost predicate Over(r: World, held: map<string, string>, u: Setup) {
    && r.status != TooDeep
    && (r.status == Running ==> Fits(r, Held(r.flags, u.mode), u) && Later(held, Held(r.flags, u.mode), u))
  }

  lemma FitsIsOver(w: World, held: map<string, string>, next: map<string, string>, u: Setup)
    requires Fits(w, next, u) && Later(held, next, u)
    ensures Over(w, held, u)
  {
  }

  lemma OverTwice(held: map<string, string>, next: map<string, string>, r: World, u: Setup)
    requires Later(held, next, u) && Over(r, next, u)
    ensures Over(r, held, u)
  {
    hide Fits, Held;
  }

  /** In every mode: if the values can be graded so that each leads only to lower ones, reading ends, and as many
      levels as grades are enough. */
  lemma {:induction false} GradedEnds(w: World, held: map<string, string>, a: Assignments, low: Grading, d: nat,
                                      u: Setup, levels: nat)
    requires Fits(w, held, u) && held.Keys <= NAMES && Descends(low, held, u) && levels >= d
    requires AllLow(a, low, d, held, u)
    ensures Over(ProcessAll(w, a, u.mode, u.At(levels)), held, u)
    decreases levels, 1, |a|
  {
    hide Process, Descends, Fits, Target, Held;
    if a == [] {
      FitsIsOver(w, held, held, u);
    } else {
      var prior, s := a[..|a| - 1], a[|a| - 1];
      GradedEnds(w, held, prior, low, d, u, levels);
      var r := ProcessAll(w, prior, u.mode, u.At(levels));
      StatusSticks(r, s.0, s.1, u.mode, u.At(levels));
      if r.status == Running {
        var next := Held(r.flags, u.mode);
        LowTarget(a, |a| - 1, low, d, held, next, u);
        DescendsLater(low, held, next, u);
        GradedEndsOnce(r, next, s, low, d, u, levels);
        OverTwice(held, next, Process(r, s.0, s.1, u.mode, u.At(levels)), u);
      }
    }
  }

  lemma LowTarget(a: Assignments, k: nat, low: Grading, d: nat, held: map<string, string>, next: map<string, string>,
                  u: Setup)
    requires AllLow(a, low, d, held, u) && k < |a| && Later(held, next, u)
    ensures Target(next, a[k].0, a[k].1, u).Some? ==> low((a[k].0, Target(next, a[k].0, a[k].1, u).value), d)
  {
    hide Target, Later;
  }

  lemma {:induction false} GradedEndsOnce(w: World, held: map<string, string>, s: (string, string), low: Grading,
                                          d: nat, u: Setup, levels: nat)
    requires Fits(w, held, u) && held.Keys <= NAMES && Descends(low, held, u) && levels >= d
    requires Target(held, s.0, s.1, u).Some? ==> low((s.0, Target(held, s.0, s.1, u).value), d)
    ensures Over(Process(w, s.0, s.1, u.mode, u.At(levels)), held, u)
    decreases levels, 0, 0
  {
    hide Process, ProcessAll, Act, AllTyped, Held, Asked, Target, Hold, AllLow, Later;
    var t, next, w' := Target(held, s.0, s.1, u), Hold(held, s.0, s.1, u), Assign(w, s.0, s.1, u.mode);
    ProcessFits(w, s.0, s.1, held, u, levels);
    HoldIsLater(held, s.0, s.1, u);
    if t.None? {
      FitsIsOver(w', held, next, u);
    } else {
      var node := (s.0, t.value);
      DescendsLater(low, held, next, u);
      ActFits(w', node, u, levels);
      GradedEnds(w', next, Asked(node, u).settings, low, d - 1, u, levels - 1);
      var r := ProcessAll(w', Asked(node, u).settings, u.mode, u.At(levels - 1));
      CarryIsOver(r, Asked(node, u), next, u);
      OverTwice(held, next, Carry(r, Asked(node, u)), u);
    }
  }

  lemma HoldIsLater(held: map<string, string>, name: string, text: string, u: Setup)
    requires held.Keys <= NAMES
    ensures Later(held, Hold(held, name, text, u), u) && Hold(held, name, text, u).Keys <= NAMES
  {
  }

  lemma CarryIsOver(r: World, x: Expansion, held: map<string, string>, u: Setup)
    requires Over(r, held, u)
    ensures Over(Carry(r, x), held, u)
  {
    hide Later;
  }

  lemma GradedReadingEnds(w: World, a: Assignments, mode: Mode, host: Host, low: Grading, d: nat)
    requires w.status == Running && AllTyped(w.flags) && host.levels >= d
    requires Descends(low, Held(w.flags, mode), Setup(w.flags, mode, host))
    requires AllLow(a, low, d, Held(w.flags, mode), Setup(w.flags, mode, host))
    ensures ProcessAll(w, a, mode, host).status != TooDeep && !AsksAgain(w, a, mode, host)
  {
    hide ProcessAll, Descends, AllLow, AsksAgain, AllTyped, Enough;
    var u := Setup(w.flags, mode, host);
    assert host.(levels := host.levels) == host;
    GradedEnds(w, Held(w.flags, mode), a, low, d, u, host.levels);
    EndsExactly(w, a, mode, host, host.levels);
  }

  // Two modes: files and variables by height

  datatype Heights = Heights(file: string -> nat, variable: string -> nat)

  /** The value lists only files, or variables, of less than this height. */
  ghost predicate Below(node: Node, height: nat, h: Heights) {
    match FlagList(node.1[..IndexOf(node.1, '\0')])
    case None => true
    case Some(names) => forall n :: n in names ==> (if node.0 == "flagfile" then h.file(n) else h.variable(n)) < height
  }

  ghost predicate AllBelow(a: Assignments, height: nat, h: Heights, held: map<string, string>, u: Setup) {
    forall k :: 0 <= k < |a| && Target(held, a[k].0, a[k].1, u).Some? ==>
      Below((a[k].0, Target(held, a[k].0, a[k].1, u).value), height, h)
  }

  /** Every file, and every variable of a known flag, lists only what is below it. */
  ghost predicate Ranked(h: Heights, held: map<string, string>, u: Setup) {
    && (forall f :: f in u.host.files ==>
          AllBelow(Settings(u.host.files[f], TypesOf(u.flags), u.host.matches), h.file(f), h, held, u))
    && (forall n :: n in u.flags && "FLAGS_" + n in u.host.environment ==>
          AllBelow([(n, u.host.environment["FLAGS_" + n])], h.variable(n), h, held, u))
  }

  lemma AllBelowJoin(a: Assignments, b: Assignments, height: nat, h: Heights, held: map<string, string>, u: Setup)
    requires AllBelow(a, height, h, held, u) && AllBelow(b, height, h, held, u)
    ensures AllBelow(a + b, height, h, held, u)
  {
    hide Target, Below;
  }

  lemma AllBelowMore(a: Assignments, height: nat, more: nat, h: Heights, held: map<string, string>, u: Setup)
    requires AllBelow(a, height, h, held, u) && height <= more
    ensures AllBelow(a, more, h, held, u)
  {
    hide Target, FlagList, IndexOf;
  }

  lemma {:induction false} FilesAreBelow(names: seq<string>, height: nat, h: Heights, held: map<string, string>,
                                         u: Setup)
    requires Ranked(h, held, u) && forall n :: n in names ==> h.file(n) <= height
    ensures AllBelow(FromFiles(names, TypesOf(u.flags), u.host).settings, height, h, held, u)
  {
    hide Settings, AllBelow;
    if names == [] || names[0] !in u.host.files {
      NothingIsBelow(height, h, held, u);
    } else {
      var first := Settings(u.host.files[names[0]], TypesOf(u.flags), u.host.matches);
      FilesAreBelow(names[1..], height, h, held, u);
      AllBelowMore(first, h.file(names[0]), height, h, held, u);
      AllBelowJoin(first, FromFiles(names[1..], TypesOf(u.flags), u.host).settings, height, h, held, u);
    }
  }

  lemma NothingIsBelow(height: nat, h: Heights, held: map<string, string>, u: Setup)
    ensures AllBelow([], height, h, held, u)
  {
  }

  lemma {:induction false} VariablesAreBelow(names: seq<string>, fatal: bool, height: nat, h: Heights,
                                             held: map<string, string>, u: Setup)
    requires Ranked(h, held, u) && forall n :: n in names ==> h.variable(n) <= height
    ensures AllBelow(FromEnvironment(names, TypesOf(u.flags), u.host, fatal).settings, height, h, held, u)
  {
    hide AllBelow, Settings;
    NothingIsBelow(height, h, held, u);
    if names != [] {
      var first := FromVariable(names[0], TypesOf(u.flags), u.host, fatal).settings;
      VariablesAreBelow(names[1..], fatal, height, h, held, u);
      if first != [] {
        AllBelowMore(first, h.variable(names[0]), height, h, held, u);
      }
      AllBelowJoin(first, FromEnvironment(names[1..], TypesOf(u.flags), u.host, fatal).settings, height, h, held, u);
    }
  }

  lemma AskedIsBelow(node: Node, height: nat, h: Heights, held: map<string, string>, u: Setup)
    requires Ranked(h, held, u) && Below(node, height, h)
    ensures Asked(node, u).settings == [] || (height > 0 && AllBelow(Asked(node, u).settings, height - 1, h, held, u))
  {
    hide FromFiles, FromEnvironment, IndexOf, FlagList, Ranked, AllBelow;
    var list := FlagList(node.1[..IndexOf(node.1, '\0')]);
    if list.Some? {
      NoneAsked(u, node.0 == "fromenv");
      if list.value != [] {
        assert list.value[0] in list.value;
        if node.0 == "flagfile" {
          FilesAreBelow(list.value, height - 1, h, held, u);
        } else {
          VariablesAreBelow(list.value, node.0 == "fromenv", height - 1, h, held, u);
        }
      }
    }
  }

  lemma NoneAsked(u: Setup, fatal: bool)
    ensures FromFiles([], TypesOf(u.flags), u.host) == FromEnvironment([], TypesOf(u.flags), u.host, fatal) == EMPTY
  {
  }

  /** Explicit settings and new defaults: if every file and every variable of a known flag lists only files and
      variables below it, reading ends, within as many levels as there are heights. */
  lemma RankedEnds(w: World, a: Assignments, mode: Mode, host: Host, h: Heights, height: nat)
    requires w.status == Running && AllTyped(w.flags) && !mode.SetFlagIfDefault? && host.levels > height
    requires Ranked(h, Held(w.flags, mode), Setup(w.flags, mode, host))
    requires AllBelow(a, height, h, Held(w.flags, mode), Setup(w.flags, mode, host))
    ensures ProcessAll(w, a, mode, host).status != TooDeep && !AsksAgain(w, a, mode, host)
  {
    hide ProcessAll, AsksAgain, AllTyped, Held, Ranked, Asked, Below, Target, Enough;
    var held, u := Held(w.flags, mode), Setup(w.flags, mode, host);
    var low: Grading := (n: Node, d: nat) => d > 0 && Below(n, d - 1, h);
    forall node, d: nat | low(node, d)
      ensures d > 0 && AllLow(Asked(node, u).settings, low, d - 1, held, u)
    {
      AskedIsBelow(node, d - 1, h, held, u);
    }
    GradedReadingEnds(w, a, mode, host, low, height + 1);
  }

  // The third mode: a flag keeps its first value, so what counts is which flags are set

  type Ranks = string -> nat

  /** Every recursive flag that is set in a file ranks below flagfile, and every one that has a variable ranks below
      fromenv and tryfromenv. */
  ghost predicate NamesRanked(r: Ranks, u: Setup) {
    && (forall f :: f in u.host.files ==>
          SettingsRanked(Settings(u.host.files[f], TypesOf(u.flags), u.host.matches), r, r("flagfile")))
    && (forall n :: n in u.flags && Recursive(n) && "FLAGS_" + n in u.host.environment ==>
          r(n) < r("fromenv") && r(n) < r("tryfromenv"))
  }

  ghost predicate SettingsRanked(a: Assignments, r: Ranks, rank: nat) {
    forall k :: 0 <= k < |a| && Recursive(a[k].0) ==> r(a[k].0) < rank
  }

  lemma {:induction false} FilesAreRanked(names: seq<string>, r: Ranks, u: Setup)
    requires NamesRanked(r, u)
    ensures SettingsRanked(FromFiles(names, TypesOf(u.flags), u.host).settings, r, r("flagfile"))
  {
    hide Settings;
    if names != [] { FilesAreRanked(names[1..], r, u); }
  }

  lemma {:induction false} VariablesAreRanked(names: seq<string>, fatal: bool, r: Ranks, u: Setup)
    requires NamesRanked(r, u)
    ensures SettingsRanked(FromEnvironment(names, TypesOf(u.flags), u.host, fatal).settings, r,
                           r(if fatal then "fromenv" else "tryfromenv"))
  {
    hide Settings;
    if names != [] { VariablesAreRanked(names[1..], fatal, r, u); }
  }

  lemma AskedIsRanked(node: Node, r: Ranks, u: Setup)
    requires NamesRanked(r, u) && Recursive(node.0)
    ensures SettingsRanked(Asked(node, u).settings, r, r(node.0))
  {
    hide FromFiles, FromEnvironment, IndexOf, FlagList, NamesRanked;
    var list := FlagList(node.1[..IndexOf(node.1, '\0')]);
    if list.Some? {
      FilesAreRanked(list.value, r, u);
      VariablesAreRanked(list.value, node.0 == "fromenv", r, u);
    }
  }

  /** Settings of flags at their default: if the recursive flags can be ranked so, reading ends, within three levels. */
  lemma RankedNamesEnd(w: World, a: Assignments, host: Host, r: Ranks)
    requires w.status == Running && AllTyped(w.flags) && host.levels >= 3
    requires NamesRanked(r, Setup(w.flags, SetFlagIfDefault, host))
    ensures ProcessAll(w, a, SetFlagIfDefault, host).status != TooDeep && !AsksAgain(w, a, SetFlagIfDefault, host)
  {
    hide ProcessAll, AsksAgain, AllTyped, Held, Asked, NamesRanked, Legal;
    var mode := SetFlagIfDefault;
    var held, u := Held(w.flags, mode), Setup(w.flags, mode, host);
    var top := r("flagfile") + r("fromenv") + r("tryfromenv") + 1;
    var low: Grading := (n: Node, d: nat) => Recursive(n.0) && r(n.0) < d;
    forall node, d: nat | low(node, d)
      ensures d > 0 && AllLow(Asked(node, u).settings, low, d - 1, held, u)
    {
      AskedIsRanked(node, r, u);
      RankedIsLow(Asked(node, u).settings, r, low, d - 1, held, u);
    }
    RecursiveIsLow(a, low, top, held, u);
    EndsExactly(w, a, mode, host, top);
    EndsExactly(w, a, mode, host, host.levels);
    assert host.(levels := host.levels) == host;
    HeldAreNames(w.flags, mode);
    GradedEnds(w, held, a, low, top, u, top);
  }

  lemma HeldAreNames(flags: map<string, FlagState>, mode: Mode)
    ensures Held(flags, mode).Keys <= NAMES
  {
  }

  lemma TargetIsRecursive(held: map<string, string>, next: map<string, string>, name: string, text: string, u: Setup)
    requires Later(held, next, u) && Target(next, name, text, u).Some?
    ensures Recursive(name)
  {
  }

  lemma RankedIsLow(a: Assignments, r: Ranks, low: Grading, d: nat, held: map<string, string>, u: Setup)
    requires SettingsRanked(a, r, d) && forall n: Node :: Recursive(n.0) && r(n.0) < d ==> low(n, d)
    ensures AllLow(a, low, d, held, u)
  {
    hide Target, Later, Recursive;
    forall k, next | 0 <= k < |a| && Later(held, next, u) && Target(next, a[k].0, a[k].1, u).Some?
      ensures low((a[k].0, Target(next, a[k].0, a[k].1, u).value), d)
    {
      TargetIsRecursive(held, next, a[k].0, a[k].1, u);
    }
  }

  lemma RecursiveIsLow(a: Assignments, low: Grading, d: nat, held: map<string, string>, u: Setup)
    requires forall n: Node :: Recursive(n.0) ==> low(n, d)
    ensures AllLow(a, low, d, held, u)
  {
    hide Target, Later, Recursive;
    forall k, next | 0 <= k < |a| && Later(held, next, u) && Target(next, a[k].0, a[k].1, u).Some?
      ensures low((a[k].0, Target(next, a[k].0, a[k].1, u).value), d)
    {
      TargetIsRecursive(held, next, a[k].0, a[k].1, u);
    }
  }

  // ---------------------------------------------------------------------------
  // What never ends

  /** If the first recursive setting that a value leads to makes the same flag act on the same value, the code goes
      on for ever: no bound on the depth is enough. */
  lemma AskedAgainNeverEnds(w: World, name: string, text: string, mode: Mode, host: Host, k: nat)
    requires w.status == Running && AllTyped(w.flags)
    requires var held, u := Held(w.flags, mode), Setup(w.flags, mode, host); var t := Target(held, name, text, u);
      t.Some? &&
      var next, a := Hold(held, name, text, u), Asked((name, t.value), u).settings;
      && k < |a| && (forall j :: 0 <= j < k ==> !Recursive(a[j].0))
      && a[k].0 == name && Target(next, name, a[k].1, u) == t
    ensures Process(w, name, text, mode, host).status == TooDeep
  {
    hide Process, Act, Asked, Held, AllTyped, Legal;
    var held, u := Held(w.flags, mode), Setup(w.flags, mode, host);
    var next, node := Hold(held, name, text, u), (name, Target(held, name, text, u).value);
    var a := Asked(node, u).settings;
    assert Fits(w, held, u) && u.At(host.levels) == host;
    ProcessFits(w, name, text, held, u, host.levels);
    HeldAreNames(w.flags, mode);
    HoldIsLater(held, name, text, u);
    forall j | 0 <= j < k ensures LeadsInto(next, {node}, a[..k][j], u) { OthersLeadNowhere(next, {node}, a[j], u); }
    assert TrappedAt(a, k, next, {node}, {node}, u);
    TrapHolds(node, Assign(w, name, text, mode), next, {node}, {node}, u, host.levels);
  }

  lemma OthersLeadNowhere(held: map<string, string>, nodes: set<Node>, s: (string, string), u: Setup)
    requires !Recursive(s.0) && s.0 !in held
    ensures LeadsInto(held, nodes, s, u)
  {
  }

  /** A flag file whose first recursive setting asks for that file again is read for ever; in the mode that keeps
      values it may ask for any file, or for none. */
  lemma SelfReferenceNeverEnds(w: World, file: string, mode: Mode, host: Host, k: nat)
    requires w.status == Running && AllTyped(w.flags) && "flagfile" !in Held(w.flags, mode) && file != ""
    requires Legal("flagfile", file, Setup(w.flags, mode, host)) && file in host.files
    requires FlagList(file[..IndexOf(file, '\0')]) == Some([file])
    requires var a := Settings(host.files[file], TypesOf(w.flags), host.matches);
      && k < |a| && (forall j :: 0 <= j < k ==> !Recursive(a[j].0))
      && a[k].0 == "flagfile" && (mode.SetFlagIfDefault? || a[k].1 == file)
    ensures Process(w, "flagfile", file, mode, host).status == TooDeep
  {
    hide Process, Settings, FlagList, IndexOf, Held, AllTyped, Legal;
    var a := Settings(host.files[file], TypesOf(w.flags), host.matches);
    var names := [file];
    assert names[1..] == [] && a + [] == a;
    assert FromFiles([], TypesOf(w.flags), host) == EMPTY;
    AskedAgainNeverEnds(w, "flagfile", file, mode, host, k);
  }
}

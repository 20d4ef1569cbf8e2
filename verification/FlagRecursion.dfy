/** The flags of gflags.cc that set other flags, as soon as they are set themselves: flagfile reads files, fromenv
    and tryfromenv read the environment. What a setting does with them, and that reading what was printed restores
    the flags. */
module FlagRecursion {
  import opened Wrappers
  import opened FlagValues
  import opened FlagSemantics
  import opened CommandLine
  import opened FlagFile

  /** What is outside of the program: the files by name, the environment, which words of a flag file name this
      program; and how deeply files and variables may refer to each other here. The code has no such bound; which one
      is enough, and when none is, is said in FlagTermination. */
  datatype Host = Host(files: map<string, string>, environment: map<string, string>, matches: Matcher, levels: nat)

  predicate Recursive(name: string) { name == "flagfile" || name == "fromenv" || name == "tryfromenv" }

  /** The flag acts on its value: it is a recursive one, and its value is not empty. */
  predicate Acts(name: string, f: FlagState) {
    Recursive(name) && f.current.StringValue? && f.current.s != ""
  }

  /** ParseFlagList: the entries between commas. An empty entry, or one that starts with a dash, ends the program. */
  function FlagList(value: string): Option<seq<string>> {
    if value == "" then Some([])
    else
      var e := IndexOf(value, ',');
      if e == 0 || value[0] == '-' then None
      else if e == |value| then Some([value])
      else
        match FlagList(value[e + 1..])
        case None => None
        case Some(rest) => Some([value[..e]] + rest)
  }

  /** What acting on a value asks for: settings, in order; names with an error; names without a flag; and whether the
      program ends itself after those settings. */
  datatype Expansion = Expansion(settings: Assignments, errors: set<string>, undefined: set<string>, exits: bool)

  const EMPTY := Expansion([], {}, {}, false)

  /** ProcessFlagfileLocked: the settings of all files, up to the first file that cannot be read. */
  function FromFiles(names: seq<string>, types: Types, host: Host): Expansion {
    if names == [] then EMPTY
    else if names[0] !in host.files then EMPTY.(exits := true)
    else
      var rest := FromFiles(names[1..], types, host);
      rest.(settings := Settings(host.files[names[0]], types, host.matches) + rest.settings)
  }

  /** One turn of the loop in ProcessFromenvLocked. */
  function FromVariable(name: string, types: Types, host: Host, errorsAreFatal: bool): (x: Expansion)
    ensures !x.exits
  {
    var variable := "FLAGS_" + name;
    if name !in types then EMPTY.(errors := {name}, undefined := {name})
    else if variable !in host.environment then EMPTY.(errors := if errorsAreFatal then {name} else {})
    else if host.environment[variable] == "fromenv" || host.environment[variable] == "tryfromenv" then
      EMPTY.(errors := {name})
    else EMPTY.(settings := [(name, host.environment[variable])])
  }

  function FromEnvironment(names: seq<string>, types: Types, host: Host, errorsAreFatal: bool): Expansion {
    if names == [] then EMPTY
    else
      var x, y := FromVariable(names[0], types, host, errorsAreFatal),
                  FromEnvironment(names[1..], types, host, errorsAreFatal);
      Expansion(x.settings + y.settings, x.errors + y.errors, x.undefined + y.undefined, false)
  }

  function Expand(name: string, value: string, types: Types, host: Host): Expansion {
    match FlagList(value[..IndexOf(value, '\0')])
    case None => EMPTY.(exits := true)
    case Some(names) =>
      if name == "flagfile" then FromFiles(names, types, host)
      else FromEnvironment(names, types, host, name == "fromenv")
  }

  /** The state after the settings of an expansion, with its errors and its end. */
  function Carry(r: World, x: Expansion): World {
    World(r.flags, r.errors + x.errors, r.undefined + x.undefined,
          if r.status == Running && x.exits then Exited else r.status)
  }

  /** CommandLineFlagParser::ProcessSingleOptionLocked. After a success, a recursive flag acts on the value it has
      now, whether this call has changed it or not. */
  function Process(w: World, name: string, text: string, mode: Mode, host: Host): World
    decreases host.levels, 1, 0
  {
    if w.status != Running || name !in w.flags then w
    else
      var (f, ok) := SetFlag(w.flags[name], text, mode);
      var w' := Assign(w, name, text, mode);
      if ok && Acts(name, f) then Act(w', name, f.current.s, mode, host) else w'
  }

  function Act(w: World, name: string, value: string, mode: Mode, host: Host): World
    decreases host.levels, 0, 0
  {
    if host.levels == 0 then w.(status := TooDeep)
    else
      var x := Expand(name, value, TypesOf(w.flags), host);
      Carry(ProcessAll(w, x.settings, mode, host.(levels := host.levels - 1)), x)
  }

  function ProcessAll(w: World, a: Assignments, mode: Mode, host: Host): World
    decreases host.levels, 2, |a|
  {
    if a == [] then w
    else
      var (name, text) := a[|a| - 1];
      Process(ProcessAll(w, a[..|a| - 1], mode, host), name, text, mode, host)
  }

  lemma ProcessAllAppend(w: World, a: Assignments, name: string, text: string, mode: Mode, host: Host)
    ensures ProcessAll(w, a + [(name, text)], mode, host) ==
      Process(ProcessAll(w, a, mode, host), name, text, mode, host)
  {
    hide Process;
    assert (a + [(name, text)])[..|a|] == a;
  }

  lemma ProcessOne(w: World, name: string, text: string, mode: Mode, host: Host)
    ensures ProcessAll(w, [(name, text)], mode, host) == Process(w, name, text, mode, host)
  {
    hide Process;
    assert [(name, text)][..0] == [];
  }

  lemma {:induction false} ProcessAllConcat(w: World, a: Assignments, b: Assignments, mode: Mode, host: Host)
    ensures ProcessAll(w, a + b, mode, host) == ProcessAll(ProcessAll(w, a, mode, host), b, mode, host)
    decreases |b|
  {
    hide Process;
    if b == [] {
      assert a + b == a;
    } else {
      var c := b[..|b| - 1];
      assert a + b == (a + c) + [b[|b| - 1]];
      ProcessAllAppend(w, a + c, b[|b| - 1].0, b[|b| - 1].1, mode, host);
      ProcessAllConcat(w, a, c, mode, host);
    }
  }

  // ---------------------------------------------------------------------------
  // What every setting keeps

  ghost predicate SameFlags(a: map<string, FlagState>, b: map<string, FlagState>) {
    a.Keys == b.Keys && forall n :: n in a ==> SameFlag(a[n], b[n])
  }

  lemma AssignKeepsFlags(w: World, name: string, text: string, mode: Mode)
    ensures SameFlags(Assign(w, name, text, mode).flags, w.flags) && Assign(w, name, text, mode).status == w.status
  {
    hide TryParse;
  }

  /** Which flags there are, their types and validators: no setting changes them, whatever it leads to. */
  lemma {:induction false} FlagsKept(w: World, a: Assignments, mode: Mode, host: Host)
    ensures SameFlags(ProcessAll(w, a, mode, host).flags, w.flags)
    decreases host.levels, 1, |a|
  {
    hide Process;
    if a != [] {
      var w' := ProcessAll(w, a[..|a| - 1], mode, host);
      FlagsKept(w, a[..|a| - 1], mode, host);
      FlagsKeptOnce(w', a[|a| - 1].0, a[|a| - 1].1, mode, host);
    }
  }

  lemma {:induction false} FlagsKeptOnce(w: World, name: string, text: string, mode: Mode, host: Host)
    ensures SameFlags(Process(w, name, text, mode, host).flags, w.flags)
    decreases host.levels, 0, 0
  {
    hide SetFlag, Expand, ProcessAll, Assign;
    AssignKeepsFlags(w, name, text, mode);
    if name in w.flags && host.levels > 0 {
      var w' := Assign(w, name, text, mode);
      var f := SetFlag(w.flags[name], text, mode).0;
      if Acts(name, f) {
        var x := Expand(name, f.current.s, TypesOf(w'.flags), host);
        FlagsKept(w', x.settings, mode, host.(levels := host.levels - 1));
      }
    }
  }

  /** Errors that were noted before make no difference. */
  function More(w: World, errors: set<string>, undefined: set<string>): World {
    w.(errors := w.errors + errors, undefined := w.undefined + undefined)
  }

  lemma AssignMore(w: World, e: set<string>, u: set<string>, name: string, text: string, mode: Mode)
    ensures Assign(More(w, e, u), name, text, mode) == More(Assign(w, name, text, mode), e, u)
  {
    hide SetFlag;
    if name in w.flags {
      assert w.errors + e + {name} == w.errors + {name} + e;
    }
  }

  lemma CarryMore(r: World, x: Expansion, e: set<string>, u: set<string>)
    ensures Carry(More(r, e, u), x) == More(Carry(r, x), e, u)
  {
    assert r.errors + e + x.errors == r.errors + x.errors + e;
    assert r.undefined + u + x.undefined == r.undefined + x.undefined + u;
  }

  lemma {:induction false} ProcessAllMore(w: World, e: set<string>, u: set<string>, a: Assignments, mode: Mode,
                                          host: Host)
    ensures ProcessAll(More(w, e, u), a, mode, host) == More(ProcessAll(w, a, mode, host), e, u)
    decreases host.levels, 1, |a|
  {
    hide Process;
    if a != [] {
      var w' := ProcessAll(w, a[..|a| - 1], mode, host);
      ProcessAllMore(w, e, u, a[..|a| - 1], mode, host);
      ProcessMore(w', e, u, a[|a| - 1].0, a[|a| - 1].1, mode, host);
    }
  }

  lemma {:induction false} ProcessMore(w: World, e: set<string>, u: set<string>, name: string, text: string,
                                       mode: Mode, host: Host)
    ensures Process(More(w, e, u), name, text, mode, host) == More(Process(w, name, text, mode, host), e, u)
    decreases host.levels, 0, 0
  {
    hide SetFlag, Expand, ProcessAll, Assign, Carry;
    AssignMore(w, e, u, name, text, mode);
    if name in w.flags && host.levels > 0 {
      var w' := Assign(w, name, text, mode);
      var f := SetFlag(w.flags[name], text, mode).0;
      if Acts(name, f) {
        var x, less := Expand(name, f.current.s, TypesOf(w'.flags), host), host.(levels := host.levels - 1);
        ProcessAllMore(w', e, u, x.settings, mode, less);
        CarryMore(ProcessAll(w', x.settings, mode, less), x, e, u);
      }
    }
  }

  // ---------------------------------------------------------------------------
  // The bound on the depth

  /** If a bound is enough, every greater one gives the same: what the settings do does not depend on it. */
  lemma {:induction false} BoundIsEnough(w: World, a: Assignments, mode: Mode, host: Host, deeper: Host)
    requires deeper == host.(levels := deeper.levels) && deeper.levels >= host.levels
    requires ProcessAll(w, a, mode, host).status != TooDeep
    ensures ProcessAll(w, a, mode, deeper) == ProcessAll(w, a, mode, host)
    decreases host.levels, 1, |a|
  {
    hide Process;
    if a != [] {
      var (name, text) := a[|a| - 1];
      var w' := ProcessAll(w, a[..|a| - 1], mode, host);
      StatusSticks(w', name, text, mode, host);
      BoundIsEnough(w, a[..|a| - 1], mode, host, deeper);
      BoundIsEnoughOnce(w', name, text, mode, host, deeper);
    }
  }

  lemma StatusSticks(w: World, name: string, text: string, mode: Mode, host: Host)
    ensures w.status != Running ==> Process(w, name, text, mode, host) == w
  {
  }

  lemma {:induction false} BoundIsEnoughOnce(w: World, name: string, text: string, mode: Mode, host: Host, deeper: Host)
    requires deeper == host.(levels := deeper.levels) && deeper.levels >= host.levels
    requires Process(w, name, text, mode, host).status != TooDeep
    ensures Process(w, name, text, mode, deeper) == Process(w, name, text, mode, host)
    decreases host.levels, 0, 0
  {
    hide SetFlag, Expand, ProcessAll, Assign;
    AssignKeepsFlags(w, name, text, mode);
    if name in w.flags && w.status == Running && host.levels > 0 {
      var w' := Assign(w, name, text, mode);
      var (f, ok) := SetFlag(w.flags[name], text, mode);
      if ok && Acts(name, f) {
        var x := Expand(name, f.current.s, TypesOf(w'.flags), host);
        SameExpansion(name, f.current.s, TypesOf(w'.flags), host, deeper);
        BoundIsEnough(w', x.settings, mode, host.(levels := host.levels - 1), deeper.(levels := deeper.levels - 1));
      }
    }
  }

  lemma {:induction false} SameFiles(names: seq<string>, types: Types, host: Host, deeper: Host)
    requires deeper == host.(levels := deeper.levels)
    ensures FromFiles(names, types, deeper) == FromFiles(names, types, host)
  {
    hide Settings;
    if names != [] { SameFiles(names[1..], types, host, deeper); }
  }

  lemma {:induction false} SameVariables(names: seq<string>, types: Types, host: Host, deeper: Host, fatal: bool)
    requires deeper == host.(levels := deeper.levels)
    ensures FromEnvironment(names, types, deeper, fatal) == FromEnvironment(names, types, host, fatal)
  {
    if names != [] { SameVariables(names[1..], types, host, deeper, fatal); }
  }

  lemma SameExpansion(name: string, value: string, types: Types, host: Host, deeper: Host)
    requires deeper == host.(levels := deeper.levels)
    ensures Expand(name, value, types, deeper) == Expand(name, value, types, host)
  {
    hide FromFiles, FromEnvironment, IndexOf, FlagList;
    var list := FlagList(value[..IndexOf(value, '\0')]);
    if list.Some? {
      SameFiles(list.value, types, host, deeper);
      SameVariables(list.value, types, host, deeper, name == "fromenv");
    }
  }

  // ---------------------------------------------------------------------------
  // Round trip

  /** The value of a flag can be written in one line. */
  predicate Clean(v: Value) {
    v.StringValue? ==> '\n' !in v.s && '\0' !in v.s
  }

  /** Flags as GetAllFlags reports them, in any order. */
  ghost predicate Reports(infos: Assignments, saved: map<string, FlagState>) {
    && (forall k :: 0 <= k < |infos| ==> infos[k].0 in saved && infos[k].1 == ToString(saved[infos[k].0].current))
    && (forall n :: n in saved ==> exists k :: 0 <= k < |infos| && infos[k].0 == n)
  }

  /** Names are C++ identifiers in practice; values have their C++ type and pass the validators. */
  ghost predicate Savable(saved: map<string, FlagState>) {
    forall n :: n in saved ==>
      && FitsLine(n, "")
      && Typed(saved[n])
      && (saved[n].current.StringValue? || Representable(saved[n].current))
      && Accepts(saved[n], saved[n].current)
  }

  lemma PrintedParses(f: FlagState, g: FlagState)
    requires SameFlag(f, g) && TypeOf(f.current) == f.ty && Accepts(f, f.current)
    requires f.current.StringValue? || Representable(f.current)
    ensures TryParse(g, ToString(f.current)) == Some(f.current)
  {
    hide ParseFrom, Representable;
    if f.current.StringValue? { StringReads(f.current.s); } else { ParsePrinted(f.current); }
  }

  /** The settings for the recursive flags are empty, so that none of them acts. */
  ghost predicate Quiet(a: Assignments) {
    forall k :: 0 <= k < |a| && Recursive(a[k].0) ==> a[k].1 == ""
  }

  lemma QuietOnce(w: World, name: string, text: string, host: Host)
    requires w.status == Running && (Recursive(name) ==> text == "")
    ensures Process(w, name, text, SetFlagsValue, host) == Assign(w, name, text, SetFlagsValue)
  {
    hide Act;
    if name in w.flags && Recursive(name) { StringReadsEmpty(w.flags[name]); }
  }

  lemma StringReadsEmpty(f: FlagState)
    ensures var (g, ok) := SetFlag(f, "", SetFlagsValue); ok && g.current.StringValue? ==> g.current.s == ""
  {
    hide StrTo64, StrToU64, EqualIgnoringCase;
  }

  /** Quiet settings do what they do to their own flags, and nothing else. */
  lemma {:induction false} QuietIsPlain(w: World, a: Assignments, host: Host)
    requires w.status == Running && Quiet(a)
    ensures ProcessAll(w, a, SetFlagsValue, host) == AssignAll(w, a, SetFlagsValue)
    ensures ProcessAll(w, a, SetFlagsValue, host).status == Running
    decreases |a|
  {
    hide Process, Assign;
    if a != [] {
      var w' := ProcessAll(w, a[..|a| - 1], SetFlagsValue, host);
      QuietIsPlain(w, a[..|a| - 1], host);
      QuietOnce(w', a[|a| - 1].0, a[|a| - 1].1, host);
      AssignKeepsFlags(w', a[|a| - 1].0, a[|a| - 1].1, SetFlagsValue);
    }
  }

  lemma AssignRestores(w: World, saved: map<string, FlagState>, name: string)
    requires SameFlags(w.flags, saved) && Savable(saved) && name in saved
    ensures var r := Assign(w, name, ToString(saved[name].current), SetFlagsValue);
      && SameFlags(r.flags, saved)
      && r.errors == w.errors
      && r.flags[name].current == saved[name].current
      && (forall n :: n in saved && n != name ==> r.flags[n] == w.flags[n])
  {
    hide TryParse, ToString, Accepts, Representable, FitsLine;
    var f := w.flags[name];
    PrintedParses(saved[name], f);
    SameTry(f, UpdateModified(f), ToString(saved[name].current));
  }

  lemma {:induction false} AssignmentsRestore(w: World, saved: map<string, FlagState>, infos: Assignments)
    requires SameFlags(w.flags, saved) && Savable(saved)
    requires forall k :: 0 <= k < |infos| ==> infos[k].0 in saved && infos[k].1 == ToString(saved[infos[k].0].current)
    ensures var r := AssignAll(w, infos, SetFlagsValue);
      && SameFlags(r.flags, saved)
      && r.errors == w.errors
      && (forall k :: 0 <= k < |infos| ==> r.flags[infos[k].0].current == saved[infos[k].0].current)
  {
    hide Assign, Savable, ToString;
    if infos != [] {
      var prior := infos[..|infos| - 1];
      AssignmentsRestore(w, saved, prior);
      AssignRestores(AssignAll(w, prior, SetFlagsValue), saved, infos[|infos| - 1].0);
      forall k | 0 <= k < |infos| - 1
        ensures infos[k] == prior[k]
      {
      }
    }
  }

  ghost predicate Restored(w: World, saved: map<string, FlagState>) {
    && w.status == Running
    && w.flags.Keys == saved.Keys && forall n :: n in saved ==> w.flags[n].current == saved[n].current
  }

  lemma ReportsArePrintable(saved: map<string, FlagState>, infos: Assignments)
    requires Savable(saved) && Reports(infos, saved)
    requires forall n :: n in saved ==> Clean(saved[n].current)
    ensures Printable(infos, saved.Keys)
  {
    hide ToString, Clean, Representable, Accepts;
    forall k | 0 <= k < |infos|
      ensures FitsLine(infos[k].0, infos[k].1) && infos[k].0 in saved.Keys
    {
      PrintedTextIsClean(saved[infos[k].0].current);
    }
  }

  lemma PrintedTextIsClean(v: Value)
    requires Clean(v) && (v.StringValue? || Representable(v))
    ensures forall c :: c in ToString(v) ==> c != '\n' && c != '\0'
  {
    hide Signed;
    match v
    case BoolValue(b) =>
    case Int32Value(i) => SignedIsClean(i);
    case Int64Value(i) => SignedIsClean(i);
    case UInt64Value(i) => SignedIsClean(i);
    case StringValue(s) =>
  }

  lemma SignedIsClean(i: int)
    ensures forall c :: c in Signed(i) ==> c != '\n' && c != '\0'
  {
    var n := if i < 0 then -i else i;
    NumeralDenotes(n);
    hide Numeral, Magnitude, AllDigits;
    forall c | c in Signed(i)
      ensures c == '-' || '0' <= c <= '9'
    {
      if c in Numeral(n) {
        var k :| 0 <= k < |Numeral(n)| && Numeral(n)[k] == c;
      }
    }
  }

  /** Nothing is saved that a recursive flag would act on. */
  ghost predicate NothingToActOn(saved: map<string, FlagState>) {
    forall n :: n in saved && Recursive(n) ==> saved[n].current == StringValue("")
  }

  lemma ReportsAreQuiet(saved: map<string, FlagState>, infos: Assignments)
    requires Reports(infos, saved) && NothingToActOn(saved)
    ensures Quiet(infos)
  {
  }

  /** What a printed report asks for, and does, when it is read. */
  ghost function Reread(infos: Assignments, w: World, host: Host): World {
    ProcessAll(w, Settings(Printed(infos), TypesOf(w.flags), host.matches), SetFlagsValue, host)
  }

  /** Reading a printed report restores every value, whatever the values were by then, and reports no
      error. */
  lemma RoundTrip(saved: map<string, FlagState>, infos: Assignments, w: World, host: Host)
    requires Savable(saved) && Reports(infos, saved) && SameFlags(w.flags, saved) && w.status == Running
    requires NothingToActOn(saved) && forall n :: n in saved ==> Clean(saved[n].current)
    ensures var r := Reread(infos, w, host); Restored(r, saved) && r.errors == w.errors
  {
    hide Settings, Printed, AssignAll, ProcessAll, ToString, Clean, Savable, Printable;
    ReportsArePrintable(saved, infos);
    assert TypesOf(w.flags).Keys == saved.Keys;
    PrintedTextReads(infos, TypesOf(w.flags), host.matches);
    ReportsAreQuiet(saved, infos);
    QuietIsPlain(w, infos, host);
    AssignmentsRestore(w, saved, infos);
  }

  // ---------------------------------------------------------------------------
  // Why the recursive flags must be empty

  /** The value lists no files, or one that cannot be read. */
  ghost predicate Unreadable(value: string, host: Host) {
    match FlagList(value[..IndexOf(value, '\0')])
    case None => true
    case Some(names) => exists k :: 0 <= k < |names| && names[k] !in host.files
  }

  lemma {:induction false} MissingFileExits(names: seq<string>, types: Types, host: Host, k: nat)
    requires k < |names| && names[k] !in host.files
    ensures FromFiles(names, types, host).exits
  {
    hide Settings;
    if k > 0 { MissingFileExits(names[1..], types, host, k - 1); }
  }

  lemma UnreadableExits(value: string, types: Types, host: Host)
    requires Unreadable(value, host)
    ensures Expand("flagfile", value, types, host).exits
  {
    hide FromFiles, FromEnvironment, IndexOf, FlagList;
    var list := FlagList(value[..IndexOf(value, '\0')]);
    if list.Some? {
      var k :| 0 <= k < |list.value| && list.value[k] !in host.files;
      MissingFileExits(list.value, types, host, k);
    }
  }

  lemma {:induction false} EndSticks(w: World, a: Assignments, mode: Mode, host: Host)
    requires w.status != Running
    ensures ProcessAll(w, a, mode, host) == w
    decreases |a|
  {
    hide Process;
    if a != [] {
      EndSticks(w, a[..|a| - 1], mode, host);
      StatusSticks(w, a[|a| - 1].0, a[|a| - 1].1, mode, host);
    }
  }

  lemma UnreadableEnds(w: World, saved: map<string, FlagState>, host: Host)
    requires SameFlags(w.flags, saved) && Savable(saved) && "flagfile" in saved
    requires saved["flagfile"].current.StringValue? && saved["flagfile"].current.s != ""
    requires Unreadable(saved["flagfile"].current.s, host)
    ensures Process(w, "flagfile", ToString(saved["flagfile"].current), SetFlagsValue, host).status != Running
  {
    hide Expand, ProcessAll, TryParse, ToString, Accepts, Representable, FitsLine, Unreadable;
    var f, s := w.flags["flagfile"], saved["flagfile"].current.s;
    PrintedParses(saved["flagfile"], f);
    SameTry(f, UpdateModified(f), ToString(saved["flagfile"].current));
    UnreadableExits(s, TypesOf(Assign(w, "flagfile", ToString(saved["flagfile"].current), SetFlagsValue).flags), host);
  }

  /** If a file that the saved flagfile names cannot be read by then, reading the printed report ends the program. */
  lemma UnreadableFlagfile(saved: map<string, FlagState>, infos: Assignments, w: World, host: Host)
    requires Savable(saved) && Reports(infos, saved) && SameFlags(w.flags, saved)
    requires forall n :: n in saved ==> Clean(saved[n].current)
    requires "flagfile" in saved && saved["flagfile"].current.StringValue? && saved["flagfile"].current.s != ""
    requires Unreadable(saved["flagfile"].current.s, host)
    ensures Reread(infos, w, host).status != Running && !Restored(Reread(infos, w, host), saved)
  {
    hide Settings, Printed, ProcessAll, Process, ToString, Clean, Savable, Printable, Unreadable;
    ReportsArePrintable(saved, infos);
    assert TypesOf(w.flags).Keys == saved.Keys;
    PrintedTextReads(infos, TypesOf(w.flags), host.matches);
    var k :| 0 <= k < |infos| && infos[k].0 == "flagfile";
    var before, after := infos[..k], infos[k + 1..];
    assert infos == before + [infos[k]] + after;
    FlagsKept(w, before, SetFlagsValue, host);
    var w' := ProcessAll(w, before, SetFlagsValue, host);
    SameFlagsTwice(w'.flags, w.flags, saved);
    UnreadableEnds(w', saved, host);
    ProcessAllAppend(w, before, "flagfile", infos[k].1, SetFlagsValue, host);
    ProcessAllConcat(w, before + [infos[k]], after, SetFlagsValue, host);
    EndSticks(Process(w', "flagfile", infos[k].1, SetFlagsValue, host), after, SetFlagsValue, host);
  }

  lemma SameFlagsTwice(a: map<string, FlagState>, b: map<string, FlagState>, c: map<string, FlagState>)
    requires SameFlags(a, b) && SameFlags(b, c)
    ensures SameFlags(a, c)
  {
  }

  // ---------------------------------------------------------------------------
  // Why the values must be clean

  ghost predicate AllClean(flags: map<string, FlagState>) {
    forall n :: n in flags ==> Clean(flags[n].current) && Clean(flags[n].defvalue)
  }

  lemma ParsedIsClean(ty: ValueType, text: string)
    requires '\n' !in text && '\0' !in text
    ensures ParseFrom(ty, text).Some? ==> Clean(ParseFrom(ty, text).value)
  {
    hide StrTo64, StrToU64, EqualIgnoringCase;
  }

  lemma AssignKeepsClean(w: World, name: string, text: string, mode: Mode)
    requires AllClean(w.flags) && '\n' !in text && '\0' !in text
    ensures AllClean(Assign(w, name, text, mode).flags)
  {
    hide ParseFrom, Clean, Accepts;
    if name in w.flags { ParsedIsClean(w.flags[name].ty, text); }
  }

  /** The environment gives no value that does not fit a line. */
  ghost predicate CleanEnvironment(host: Host) {
    forall v :: v in host.environment ==> OneLine(host.environment[v])
  }

  lemma OneLinersConcat(a: Assignments, b: Assignments)
    requires OneLiners(a) && OneLiners(b)
    ensures OneLiners(a + b)
  {
    hide OneLine;
  }

  lemma {:induction false} FilesAreOneLiners(names: seq<string>, types: Types, host: Host)
    ensures OneLiners(FromFiles(names, types, host).settings)
  {
    hide Settings, OneLiners;
    if names != [] {
      FilesAreOneLiners(names[1..], types, host);
      if names[0] in host.files {
        SettingsAreOneLiners(host.files[names[0]], types, host.matches);
        OneLinersConcat(Settings(host.files[names[0]], types, host.matches),
          FromFiles(names[1..], types, host).settings);
      }
    }
    NoOneLiners();
  }

  lemma NoOneLiners()
    ensures OneLiners([])
  {
  }

  lemma {:induction false} VariablesAreOneLiners(names: seq<string>, types: Types, host: Host, fatal: bool)
    requires CleanEnvironment(host)
    ensures OneLiners(FromEnvironment(names, types, host, fatal).settings)
  {
    hide OneLine;
    if names != [] {
      VariablesAreOneLiners(names[1..], types, host, fatal);
    }
  }

  lemma ExpansionIsOneLiners(name: string, value: string, types: Types, host: Host)
    requires CleanEnvironment(host)
    ensures OneLiners(Expand(name, value, types, host).settings)
  {
    hide FromFiles, FromEnvironment, IndexOf, FlagList, OneLiners, CleanEnvironment;
    NoOneLiners();
    var list := FlagList(value[..IndexOf(value, '\0')]);
    if list.Some? {
      FilesAreOneLiners(list.value, types, host);
      VariablesAreOneLiners(list.value, types, host, name == "fromenv");
    }
  }

  lemma {:induction false} ProcessAllKeepsClean(w: World, a: Assignments, mode: Mode, host: Host)
    requires AllClean(w.flags) && OneLiners(a) && CleanEnvironment(host)
    ensures AllClean(ProcessAll(w, a, mode, host).flags)
    decreases host.levels, 1, |a|
  {
    hide Process, AllClean, OneLine, CleanEnvironment;
    if a != [] {
      ProcessAllKeepsClean(w, a[..|a| - 1], mode, host);
      ProcessKeepsClean(ProcessAll(w, a[..|a| - 1], mode, host), a[|a| - 1].0, a[|a| - 1].1, mode, host);
    }
  }

  lemma {:induction false} ProcessKeepsClean(w: World, name: string, text: string, mode: Mode, host: Host)
    requires AllClean(w.flags) && OneLine(text) && CleanEnvironment(host)
    ensures AllClean(Process(w, name, text, mode, host).flags)
    decreases host.levels, 0, 0
  {
    hide SetFlag, Expand, ProcessAll, Assign, AllClean, OneLiners;
    AssignKeepsClean(w, name, text, mode);
    if name in w.flags && host.levels > 0 {
      var w' := Assign(w, name, text, mode);
      var f := SetFlag(w.flags[name], text, mode).0;
      if Acts(name, f) {
        var x := Expand(name, f.current.s, TypesOf(w'.flags), host);
        ExpansionIsOneLiners(name, f.current.s, TypesOf(w'.flags), host);
        ProcessAllKeepsClean(w', x.settings, mode, host.(levels := host.levels - 1));
      }
    }
  }

  /** No text whatever, and no file it refers to, can give a flag a value with a newline or a NUL in it; only the
      environment could. */
  lemma TextsGiveCleanValues(contents: string, w: World, mode: Mode, host: Host)
    requires AllClean(w.flags) && CleanEnvironment(host)
    ensures AllClean(ProcessAll(w, Settings(contents, TypesOf(w.flags), host.matches), mode, host).flags)
  {
    hide Settings, ProcessAll, AllClean, OneLiners, CleanEnvironment;
    SettingsAreOneLiners(contents, TypesOf(w.flags), host.matches);
    ProcessAllKeepsClean(w, Settings(contents, TypesOf(w.flags), host.matches), mode, host);
  }

  /** A string flag that takes any text. */
  ghost predicate PlainString(w: World, name: string) {
    name in w.flags && w.flags[name].ty == FvString && w.flags[name].validator == None
  }

  lemma PlainStringSet(w: World, name: string, text: string)
    requires PlainString(w, name)
    ensures var (f, ok) := SetFlag(w.flags[name], text, SetFlagsValue); ok && f.current == StringValue(text)
    ensures forall n :: PlainString(w, n) ==> PlainString(Assign(w, name, text, SetFlagsValue), n)
  {
    StringReads(text);
  }

  /** The environment is not read by lines: what it holds for a string flag becomes its value, newlines included. */
  lemma EnvironmentIsTaken(w: World, name: string, text: string, host: Host)
    requires w.status == Running && host.levels > 0
    requires PlainString(w, "fromenv") && PlainString(w, name) && !Recursive(name)
    requires name != "" && FlagList(name[..IndexOf(name, '\0')]) == Some([name])
    requires "FLAGS_" + name in host.environment && host.environment["FLAGS_" + name] == text
    requires text != "fromenv" && text != "tryfromenv"
    ensures var r := Process(w, "fromenv", name, SetFlagsValue, host);
      name in r.flags && r.flags[name].current == StringValue(text) && (!OneLine(text) ==> !AllClean(r.flags))
  {
    hide SetFlag, FlagList, IndexOf, ProcessAll, FromFiles, FromEnvironment;
    var w', less := Assign(w, "fromenv", name, SetFlagsValue), host.(levels := host.levels - 1);
    PlainStringSet(w, "fromenv", name);
    AssignKeepsFlags(w, "fromenv", name, SetFlagsValue);
    FromOneVariable(name, TypesOf(w'.flags), host);
    ProcessOne(w', name, text, SetFlagsValue, less);
    PlainStringSet(w', name, text);
  }

  lemma FromOneVariable(name: string, types: Types, host: Host)
    requires name in types && "FLAGS_" + name in host.environment
    requires var text := host.environment["FLAGS_" + name]; text != "fromenv" && text != "tryfromenv"
    ensures FromEnvironment([name], types, host, true) ==
      EMPTY.(settings := [(name, host.environment["FLAGS_" + name])])
  {
    var names := [name];
    var settings := [(name, host.environment["FLAGS_" + name])];
    assert names[1..] == [] && settings + [] == settings;
    assert FromEnvironment([], types, host, true) == EMPTY;
  }

  /** So the round trip from a state with clean values works exactly when the saved values are clean. */
  lemma RoundTripExactly(saved: map<string, FlagState>, infos: Assignments, w: World, host: Host)
    requires Savable(saved) && Reports(infos, saved) && SameFlags(w.flags, saved) && w.status == Running
    requires NothingToActOn(saved) && AllClean(w.flags) && CleanEnvironment(host)
    ensures Restored(Reread(infos, w, host), saved) <==> forall n :: n in saved ==> Clean(saved[n].current)
  {
    hide Settings, Printed, ProcessAll, ToString, Clean, Savable, CleanEnvironment;
    if forall n :: n in saved ==> Clean(saved[n].current) {
      RoundTrip(saved, infos, w, host);
    } else {
      TextsGiveCleanValues(Printed(infos), w, SetFlagsValue, host);
    }
  }
}

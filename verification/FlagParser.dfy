/** CommandLineFlagParser and FlagSaverImpl of gflags.cc. */
module FlagParser {
  import opened Wrappers
  import opened FlagValues
  import opened FlagSemantics
  import opened CommandLine
  import opened FlagFile
  import opened FlagRecursion
  import opened FlagTermination
  import opened FlagSections
  import opened Gflags
  import opened Invocation

  // ---------------------------------------------------------------------------
  // What a reading of the command line does to the flags

  function NamesOf(missing: Option<string>): set<string> {
    match missing
    case Some(name) => {name}
    case None => {}
  }

  function Effect(w: World, p: Parsed, host: Host): World {
    More(ProcessAll(w, p.assignments, SetFlagsValue, host), p.unknown + NamesOf(p.missing), p.unknown)
  }

  lemma RegistryIsWellFormed(registry: FlagRegistry)
    requires registry.Valid()
    ensures WellFormed(registry.State())
  {
  }

  lemma RegistryIsTyped(registry: FlagRegistry)
    requires registry.Valid()
    ensures AllTyped(registry.State())
  {
  }

  /** Reading the command line goes on for ever exactly if something is asked for again. */
  lemma EffectEnds(registry: FlagRegistry, w: World, p: Parsed, host: Host)
    requires registry.Valid() && w.flags == registry.State() && w.status == Running
    requires host.levels >= Enough(w, p.assignments, SetFlagsValue, host)
    ensures Effect(w, p, host).status == TooDeep <==> AsksAgain(w, p.assignments, SetFlagsValue, host)
  {
    hide ProcessAll, AsksAgain, Enough, FlagRegistry.Valid, FlagRegistry.State;
    RegistryIsTyped(registry);
    assert host.(levels := host.levels) == host;
    EndsExactly(w, p.assignments, SetFlagsValue, host, host.levels);
  }

  lemma EffectOfNothing(w: World, host: Host)
    ensures Effect(w, NOTHING, host) == w
  {
  }

  /** One more piece of the command line is taken after the pieces before it. */
  lemma EffectJoin(w: World, p: Parsed, q: Parsed, host: Host)
    requires p.missing.None?
    ensures Effect(w, Join(p, q), host) == Effect(Effect(w, p, host), q, host)
  {
    hide ProcessAll;
    var r, m := ProcessAll(w, p.assignments, SetFlagsValue, host), NamesOf(q.missing);
    ProcessAllConcat(w, p.assignments, q.assignments, SetFlagsValue, host);
    ProcessAllMore(r, p.unknown, p.unknown, q.assignments, SetFlagsValue, host);
    assert NamesOf(p.missing) == {} && p.unknown + {} == p.unknown;
    MoreTwice(ProcessAll(r, q.assignments, SetFlagsValue, host), p.unknown, q.unknown, m);
  }

  /** The effect of a command line that is read as it is written. */
  lemma EffectTold(w: World, p: Parsed, items: seq<Item>, end: End, host: Host)
    requires WellFormed(w.flags) && w.status == Running
    requires Reads(p, items, end, TypesOf(w.flags)) && SetsNoOthers(AllSaid(items, TypesOf(w.flags)))
    ensures Told(Effect(w, p, host), w, items, end)
  {
    hide ProcessAll, Obeys, Refused, AllSaid, WellFormed, Agree, SetsNoOthers, TypesOf;
    SaidIsObeyed(w, p.assignments, AllSaid(items, TypesOf(w.flags)), host);
  }

  /** The parts of the arguments that are left, by what the command line is made of. */
  lemma LeftArguments(full: seq<string>, program: string, p: Parsed, items: seq<Item>, end: End,
                      flags: map<string, FlagState>, start: nat)
    requires Reads(p, items, end, TypesOf(flags))
    ensures var kept := (if end.Cut? then end.rest else []) + Words(items);
      && (start <= |full| && full[start..] == [program] + p.rest + p.nonoptions ==> full[start..] == [program] + kept)
      && (full == [program] + Permuted(p) ==>
            && full[1 + |p.options|..] == kept
            && full[..1 + |p.options|] == [program] + Options(items) + EndOption(end))
  {
    hide Words, Options, EndOption, AllSaid, Agree, Strays, TypesOf;
    assert [program] + p.rest + p.nonoptions == [program] + (p.rest + p.nonoptions);
    assert [program] + Permuted(p) == ([program] + p.options) + (p.rest + p.nonoptions);
    assert [program] + (Options(items) + EndOption(end)) == [program] + Options(items) + EndOption(end);
  }

  lemma MoreTwice(w: World, p: set<string>, q: set<string>, m: set<string>)
    ensures More(More(w, p, p), q + m, q) == More(w, p + q + m, p + q)
  {
    assert w.errors + p + (q + m) == w.errors + (p + q + m);
    assert w.undefined + p + q == w.undefined + (p + q);
  }

  // ---------------------------------------------------------------------------
  // Where the arguments are while the command line is read

  /** The arguments before the loop looks at todo: the program, the options so far, todo, the others. */
  ghost predicate Layout(full: seq<string>, program: string, done: Parsed, todo: seq<string>) {
    full == [program] + done.options + todo + done.nonoptions
  }

  ghost predicate Continues(done: Parsed, todo: seq<string>, all: Parsed, types: Types) {
    all == Join(done, Scan(todo, types)) && !done.dashes && done.rest == [] && done.missing.None?
  }

  lemma LayoutPlain(full: seq<string>, program: string, done: Parsed, todo: seq<string>, types: Types)
    requires Layout(full, program, done, todo) && todo != [] && Classify(todo[0], types).Plain?
    ensures var i := 1 + |done.options|;
      && full[i] == todo[0]
      && Layout(full[..i] + full[i + 1..] + [full[i]], program, Join(done, Piece(todo[0], types)), todo[1..])
  {
    hide Classify, Piece, Join;
    var i := 1 + |done.options|;
    var a := todo[0];
    PieceFields(a, types);
    JoinFields(done, Piece(a, types));
    var front := [program] + done.options;
    assert todo == [a] + todo[1..];
    assert full == front + [a] + (todo[1..] + done.nonoptions);
    assert full[..i] == front && full[i + 1..] == todo[1..] + done.nonoptions;
    assert done.options + [] == done.options;
  }

  lemma LayoutComplete(full: seq<string>, program: string, done: Parsed, todo: seq<string>, types: Types)
    requires Layout(full, program, done, todo) && todo != [] && !Classify(todo[0], types).Plain?
    ensures full[1 + |done.options|] == todo[0]
    ensures Layout(full, program, Join(done, Piece(todo[0], types)), todo[1..])
  {
    hide Classify, Piece, Join;
    var a := todo[0];
    PieceFields(a, types);
    JoinFields(done, Piece(a, types));
    assert todo == [a] + todo[1..];
    assert done.nonoptions + [] == done.nonoptions;
    assert [program] + (done.options + [a]) + todo[1..] + done.nonoptions ==
      [program] + done.options + ([a] + todo[1..]) + done.nonoptions;
  }

  lemma LayoutTaking(full: seq<string>, program: string, done: Parsed, todo: seq<string>, name: string)
    requires Layout(full, program, done, todo) && |todo| >= 2
    ensures full[1 + |done.options|] == todo[0] && full[2 + |done.options|] == todo[1]
    ensures Layout(full, program, Join(done, Taking(todo[0], name, todo[1])), todo[2..])
  {
    hide Join, Taking;
    var a, b := todo[0], todo[1];
    TakingFields(a, name, b);
    JoinFields(done, Taking(a, name, b));
    assert todo == [a, b] + todo[2..];
    assert done.nonoptions + [] == done.nonoptions;
    assert [program] + (done.options + [a, b]) + todo[2..] + done.nonoptions ==
      [program] + done.options + ([a, b] + todo[2..]) + done.nonoptions;
  }

  lemma ContinuesOne(done: Parsed, todo: seq<string>, all: Parsed, types: Types)
    requires Continues(done, todo, all, types) && todo != []
    requires Classify(todo[0], types).Plain? || Classify(todo[0], types).Complete?
    ensures Continues(Join(done, Piece(todo[0], types)), todo[1..], all, types)
  {
    hide Scan, Classify, Piece, Join;
    var a := todo[0];
    assert todo == [a] + todo[1..];
    ScanOne(a, todo[1..], types);
    JoinAssociates(done, Piece(a, types), Scan(todo[1..], types));
    JoinFields(done, Piece(a, types));
    PieceRest(a, types);
  }

  lemma PieceRest(a: string, types: Types)
    ensures Piece(a, types).rest == [] && |Piece(a, types).assignments| <= 1
    ensures Classify(a, types).Plain? || Classify(a, types).Complete? ==>
      !Piece(a, types).dashes && Piece(a, types).missing.None?
    ensures Classify(a, types).Waiting? ==> !Piece(a, types).dashes && Piece(a, types).assignments == []
  {
    hide SplitArgument, IsOption;
  }

  lemma ContinuesTwo(done: Parsed, todo: seq<string>, all: Parsed, types: Types)
    requires Continues(done, todo, all, types) && |todo| >= 2 && Classify(todo[0], types).Waiting?
    ensures Continues(Join(done, Taking(todo[0], Classify(todo[0], types).name, todo[1])), todo[2..], all, types)
  {
    hide Scan, Classify, Join;
    var a, b, name := todo[0], todo[1], Classify(todo[0], types).name;
    assert todo == [a, b] + todo[2..];
    ScanTwo(a, b, todo[2..], types);
    JoinAssociates(done, Taking(a, name, b), Scan(todo[2..], types));
    JoinFields(done, Taking(a, name, b));
  }

  /** "--", or an option without its value, is the last argument that is looked at. */
  lemma ContinuesLast(done: Parsed, todo: seq<string>, all: Parsed, types: Types)
    requires Continues(done, todo, all, types) && todo != []
    requires Classify(todo[0], types).Dashes? || (Classify(todo[0], types).Waiting? && |todo| == 1)
    ensures all == Join(done, Piece(todo[0], types)).(rest := todo[1..])
  {
    hide Scan, Classify, Piece;
    var a := todo[0];
    assert todo == [a] + todo[1..];
    if |todo| == 1 { assert todo == [a]; }
    ScanLast(a, todo[1..], types);
    PieceRest(a, types);
  }

  // ---------------------------------------------------------------------------
  // The parser

  class CommandLineFlagParser {
    const registry: FlagRegistry
    /** The names for which there is an error message. */
    var errorFlags: set<string>
    /** The options that named no flag. */
    var undefinedNames: set<string>
    /** Whether the program is still there; if not, no further call changes a flag. */
    var status: Status

    constructor (registry: FlagRegistry)
      ensures this.registry == registry && errorFlags == {} && undefinedNames == {} && status == Running
    {
      this.registry := registry;
      errorFlags, undefinedNames, status := {}, {}, Running;
    }

    ghost function World(): (w: World)
      reads this, registry, registry.flags.Values
    {
      FlagSemantics.World(registry.State(), errorFlags, undefinedNames, status)
    }

    method SetOne(flag: CommandLineFlag, text: string, mode: Mode) returns (ok: bool)
      requires registry.Valid() && flag.name in registry.flags && registry.flags[flag.name] == flag
      modifies this`errorFlags, flag
      ensures registry.Valid()
      ensures World() == Assign(old(World()), flag.name, text, mode)
      ensures (flag.State(), ok) == SetFlag(old(flag.State()), text, mode)
    {
      hide SetFlag;
      ok := registry.SetFlagLocked(flag, text, mode);
      if !ok {
        errorFlags := errorFlags + {flag.name};
      }
      assert registry.State() == old(registry.State())[flag.name := flag.State()];
    }

    /** Sets the flag, and acts on it at once if it is a recursive one. */
    method ProcessSingleOptionLocked(flag: CommandLineFlag, text: string, mode: Mode, host: Host)
      requires registry.Valid() && flag.name in registry.flags && registry.flags[flag.name] == flag
      modifies this, registry.flags.Values
      ensures registry.Valid()
      ensures World() == Process(old(World()), flag.name, text, mode, host)
      decreases host.levels, 1, 0
    {
      hide SetFlag, Act, Assign;
      if status != Running { return; }
      ghost var w := World();
      assert w.flags[flag.name] == flag.State();
      AssignKeepsFlags(w, flag.name, text, mode);
      var ok := SetOne(flag, text, mode);
      if ok { ActOn(flag.name, flag.current, mode, host); }
    }

    method ActOn(name: string, current: Value, mode: Mode, host: Host)
      requires registry.Valid() && status == Running
      modifies this, registry.flags.Values
      ensures registry.Valid()
      ensures World() == if Recursive(name) && current.StringValue? && current.s != ""
                         then Act(old(World()), name, current.s, mode, host) else old(World())
      decreases host.levels, 0, 1
    {
      hide Act;
      var value := if current.StringValue? then current.s else "";
      if name == "flagfile" {
        ProcessFlagfileLocked(value, mode, host);
      } else if name == "fromenv" {
        ProcessFromenvLocked(value, mode, true, host);
      } else if name == "tryfromenv" {
        ProcessFromenvLocked(value, mode, false, host);
      }
    }

    /** Reads the files, one after the other, if they are there. */
    method ProcessFlagfileLocked(value: string, mode: Mode, host: Host)
      requires registry.Valid() && status == Running
      modifies this, registry.flags.Values
      ensures registry.Valid()
      ensures World() == if value == "" then old(World()) else Act(old(World()), "flagfile", value, mode, host)
      decreases host.levels, 0, 0
    {
      hide ProcessAll, IndexOf, FlagList, Settings, FromFiles, FromEnvironment;
      if value == "" { return; }
      if host.levels == 0 {
        status := TooDeep;
        return;
      }
      TypesStay();
      var list := FlagList(value[..IndexOf(value, '\0')]);
      if list == None {
        NothingAsked(World(), mode, host.(levels := host.levels - 1));
        status := Exited;
        return;
      }
      ReadFiles(list.value, mode, host);
    }

    method ReadFiles(names: seq<string>, mode: Mode, host: Host)
      requires registry.Valid() && status == Running && host.levels > 0
      modifies this, registry.flags.Values
      ensures registry.Valid()
      ensures var x := FromFiles(names, Types(), host);
        World() == Carry(ProcessAll(old(World()), x.settings, mode, host.(levels := host.levels - 1)), x)
      decreases host.levels - 1, 5, 0
    {
      hide ProcessAll, Settings, FromFiles, CommandLineFlagParser.Types, FlagRegistry.State, FlagRegistry.Valid;
      ghost var w, types, done := World(), Types(), [];
      var less := host.(levels := host.levels - 1);
      var i := 0;
      NothingAsked(w, mode, less);
      assert names[0..] == names && [] + FromFiles(names, types, host).settings ==
        FromFiles(names, types, host).settings;
      while i < |names| && names[i] in host.files
        invariant i <= |names| && registry.Valid() && Types() == types
        invariant World() == ProcessAll(w, done, mode, less)
        invariant FromFiles(names, types, host) == After(done, FromFiles(names[i..], types, host))
      {
        NextFile(names, i, types, host, done);
        ProcessAllConcat(w, done, Settings(host.files[names[i]], types, host.matches), mode, less);
        ProcessOptionsFromStringLocked(host.files[names[i]], mode, less);
        done := done + Settings(host.files[names[i]], types, host.matches);
        i := i + 1;
      }
      LastFile(names, i, types, host, done);
      if i < |names| && status == Running {
        status := Exited;
      }
    }

    /** Sets the flags that are named to what their variables say. */
    method ProcessFromenvLocked(value: string, mode: Mode, errorsAreFatal: bool, host: Host)
      requires registry.Valid() && status == Running
      modifies this, registry.flags.Values
      ensures registry.Valid()
      ensures World() == if value == "" then old(World())
                         else Act(old(World()), if errorsAreFatal then "fromenv" else "tryfromenv", value, mode, host)
      decreases host.levels, 0, 0
    {
      hide ProcessAll, IndexOf, FlagList, FromFiles, FromEnvironment;
      if value == "" { return; }
      if host.levels == 0 {
        status := TooDeep;
        return;
      }
      TypesStay();
      var list := FlagList(value[..IndexOf(value, '\0')]);
      if list == None {
        NothingAsked(World(), mode, host.(levels := host.levels - 1));
        status := Exited;
        return;
      }
      ReadVariables(list.value, mode, errorsAreFatal, host);
    }

    method ReadVariables(names: seq<string>, mode: Mode, errorsAreFatal: bool, host: Host)
      requires registry.Valid() && status == Running && host.levels > 0
      modifies this, registry.flags.Values
      ensures registry.Valid()
      ensures var x := FromEnvironment(names, Types(), host, errorsAreFatal);
        World() == Carry(ProcessAll(old(World()), x.settings, mode, host.(levels := host.levels - 1)), x)
      decreases host.levels - 1, 5, 0
    {
      hide ProcessAll, FromEnvironment, FromVariable, Carry;
      ghost var w, types, x := World(), Types(), EMPTY;
      var less := host.(levels := host.levels - 1);
      var i := 0;
      NothingAsked(w, mode, less);
      assert names[..0] == [];
      NoVariables(types, host, errorsAreFatal);
      while i < |names|
        invariant i <= |names| && registry.Valid() && Types() == types
        invariant x == FromEnvironment(names[..i], types, host, errorsAreFatal) && !x.exits
        invariant World() == Carry(ProcessAll(w, x.settings, mode, less), x)
      {
        NextVariable(names, i, types, host, errorsAreFatal);
        CarryNext(w, x, FromVariable(names[i], types, host, errorsAreFatal), mode, less);
        ReadVariable(names[i], mode, errorsAreFatal, host);
        x := FromEnvironment(names[..i + 1], types, host, errorsAreFatal);
        i := i + 1;
      }
      assert names[..i] == names;
    }

    /** One turn of the loop over the names. */
    method ReadVariable(name: string, mode: Mode, errorsAreFatal: bool, host: Host)
      requires registry.Valid() && host.levels > 0
      modifies this, registry.flags.Values
      ensures registry.Valid()
      ensures var x := FromVariable(name, Types(), host, errorsAreFatal);
        World() == Carry(ProcessAll(old(World()), x.settings, mode, host.(levels := host.levels - 1)), x)
      decreases host.levels - 1, 4, 0
    {
      hide ProcessAll, Process, FromVariable, Carry, FlagRegistry.State;
      VariableEffect(World(), name, Types(), mode, errorsAreFatal, host);
      var flag := registry.FindFlagLocked(name);
      var variable := "FLAGS_" + name;
      if flag == null {
        errorFlags := errorFlags + {name};
        undefinedNames := undefinedNames + {name};
      } else if variable !in host.environment {
        if errorsAreFatal {
          errorFlags := errorFlags + {name};
        }
      } else if host.environment[variable] == "fromenv" || host.environment[variable] == "tryfromenv" {
        errorFlags := errorFlags + {name};
      } else {
        ProcessSingleOptionLocked(flag, host.environment[variable], mode, host.(levels := host.levels - 1));
      }
    }

    /** The argument at place i goes to the end, those after it move up. */
    method MoveToEnd(argv: array<string>, i: nat)
      requires i < argv.Length
      modifies argv
      ensures argv[..] == old(argv[..i] + argv[i + 1..] + [argv[i]])
    {
      var arg := argv[i];
      var k := i;
      while k + 1 < argv.Length
        invariant i <= k < argv.Length
        invariant forall j :: 0 <= j < i || k < j < argv.Length ==> argv[j] == old(argv[j])
        invariant forall j :: i <= j < k ==> argv[j] == old(argv[j + 1])
      {
        argv[k] := argv[k + 1];
        k := k + 1;
      }
      var n := argv.Length - 1;
      argv[n] := arg;
      MovedToEnd(old(argv[..]), argv[..], i);
    }

    lemma TypesStay()
      requires registry.Valid()
      ensures TypesOf(registry.State()) == Types()
    {
    }

    ghost function Types(): (t: CommandLine.Types)
      reads registry
    {
      map n | n in registry.flags :: registry.flags[n].ty
    }

    /** What happens at one argument that names a flag or tries to: its value may be the next argument. */
    method ReadOption(argv: array<string>, i: nat, first: nat, host: Host) returns (next: nat, stop: bool)
      requires registry.Valid() && 1 <= i < first <= argv.Length
      requires Classify(argv[i], Types()).Complete? || Classify(argv[i], Types()).Waiting?
      modifies this, registry.flags.Values
      ensures registry.Valid()
      ensures var a := argv[i]; var k := Classify(a, Types());
        && (stop <==> k.Waiting? && i + 1 >= first)
        && (k.Complete? || stop ==> next == i + 1 && World() == Effect(old(World()), Piece(a, Types()), host))
        && (k.Waiting? && !stop ==>
              next == i + 2 && World() == Effect(old(World()), Taking(a, k.name, argv[i + 1]), host))
    {
      hide SplitArgument, Process, IsOption, Classify, Effect, Piece, Taking, StripDashes, TypesOf;
      TypesStay();
      ghost var w := World();
      OptionEffect(w, argv[i], Types(), host);
      next, stop := i + 1, false;
      var flag, key, text := registry.SplitArgumentLocked(StripDashes(argv[i]));
      if flag == null {
        undefinedNames := undefinedNames + {key};
        errorFlags := errorFlags + {key};
      } else {
        if text == None {
          if i + 1 >= first {
            errorFlags := errorFlags + {key};
            stop := true;
          } else {
            text := Some(argv[i + 1]);
            next := i + 2;
          }
        }
        if text.Some? {
          TakingEffect(w, argv[i], flag.name, text.value, host);
          ProcessSingleOptionLocked(flag, text.value, SetFlagsValue, host);
        }
      }
    }

    /** One turn of the loop over the arguments. */
    method ReadArgument(argv: array<string>, i: nat, first0: nat, host: Host)
      returns (next: nat, first: nat, stop: bool)
      requires registry.Valid() && 1 <= i < first0 <= argv.Length
      modifies argv, this, registry.flags.Values
      ensures registry.Valid()
      ensures var a := old(argv[i]); var k := Classify(a, Types());
        && (k.Plain? ==> next == i && first == first0 - 1 && argv[..] == old(argv[..i] + argv[i + 1..] + [argv[i]]))
        && (!k.Plain? ==> argv[..] == old(argv[..]))
        && (k.Dashes? ==> first == i + 1)
        && (stop <==> k.Dashes? || (k.Waiting? && i + 1 >= first0))
        && (k.Complete? || k.Waiting? ==> first == first0 && next == if stop || k.Complete? then i + 1 else i + 2)
        && var taken := if k.Waiting? && !stop then Taking(a, k.name, old(argv[i + 1])) else Piece(a, Types());
           World() == Effect(old(World()), taken, host)
    {
      hide Classify, Effect, IsOption, Piece;
      var arg := argv[i];
      ghost var w := World();
      PlainEffect(w, arg, Types(), host);
      next, first, stop := i, first0, false;
      if !IsOption(arg) {
        MoveToEnd(argv, i);
        first := first0 - 1;
      } else if arg == "--" {
        first := i + 1;
        stop := true;
      } else {
        KindOfOption(arg, Types());
        next, stop := ReadOption(argv, i, first0, host);
      }
    }

    /** The loop over the arguments. */
    method ReadArguments(argv: array<string>, host: Host) returns (firstNonopt: nat)
      requires registry.Valid() && argv.Length > 0
      modifies argv, this, registry.flags.Values
      ensures registry.Valid()
      ensures World() == Effect(old(World()), Scan(old(argv[1..]), Types()), host)
      ensures firstNonopt == 1 + |Scan(old(argv[1..]), Types()).options|
      ensures argv[..] == [old(argv[0])] + Permuted(Scan(old(argv[1..]), Types()))
    {
      hide Scan, Effect, Piece, Taking, Join, Classify, Layout, Continues, Permuted;
      ghost var w, types, all, program := World(), Types(), Scan(argv[1..], Types()), argv[0];
      ghost var done, todo := NOTHING, argv[1..];
      LoopStart(argv[..], w, types, host);
      var i, stop := 1, false;
      firstNonopt := argv.Length;
      while i < firstNonopt && !stop
        invariant registry.Valid() && Types() == types
        invariant firstNonopt <= argv.Length && (!stop ==> 1 <= i <= firstNonopt)
        invariant Layout(argv[..], program, done, todo)
        invariant i == 1 + |done.options| || stop
        invariant World() == Effect(w, done, host)
        invariant !stop ==> Continues(done, todo, all, types) && firstNonopt == i + |todo|
        invariant stop ==> all == done.(rest := todo) && firstNonopt == 1 + |done.options|
        decreases if stop then 0 else 1 + firstNonopt - i
      {
        LayoutHere(argv[..], program, done, todo);
        i, firstNonopt, stop, done, todo := OneTurn(argv, i, firstNonopt, host, w, program, done, todo, all);
      }
      AllRead(argv[..], program, done, todo, all, w, types, host);
    }

    /** One turn of the loop, with what it does to the loop's ghost state. */
    method OneTurn(argv: array<string>, i: nat, first: nat, host: Host, ghost w: FlagSemantics.World,
                   ghost program: string,
                   ghost done: Parsed, ghost todo: seq<string>, ghost all: Parsed)
      returns (next: nat, first': nat, stop: bool, ghost done': Parsed, ghost todo': seq<string>)
      requires registry.Valid() && 1 <= i < first <= argv.Length && i == 1 + |done.options| && first == i + |todo|
      requires Layout(argv[..], program, done, todo) && Continues(done, todo, all, Types())
      requires World() == Effect(w, done, host)
      modifies argv, this, registry.flags.Values
      ensures registry.Valid()
      ensures first' <= argv.Length && (!stop ==> 1 <= next <= first')
      ensures Layout(argv[..], program, done', todo')
      ensures World() == Effect(w, done', host)
      ensures if stop then all == done'.(rest := todo') && first' == 1 + |done'.options|
              else Continues(done', todo', all, Types()) && next == 1 + |done'.options| && first' == next + |todo'|
                   && first' - next < first - i
    {
      hide Scan, Effect, Piece, Taking, Join, Classify, Layout, Continues;
      ghost var full := argv[..];
      LayoutHere(full, program, done, todo);
      next, first', stop := ReadArgument(argv, i, first, host);
      done', todo' := NextTurn(w, full, argv[..], program, done, todo, all, Types(), host);
    }

    /** The last lines of ParseNewCommandLineFlags: argv starts right before the first argument that is left. */
    method RemoveOptions(argv: array<string>, removeFlags: bool, first: nat, ghost p: Parsed)
      returns (firstNonopt: nat, start: nat)
      requires argv.Length > 0 && first == 1 + |p.options| && argv[..] == [argv[0]] + Permuted(p)
      modifies argv
      ensures if removeFlags
        then start == |p.options| && firstNonopt == 1 && start < argv.Length &&
          argv[start..] == [old(argv[0])] + p.rest + p.nonoptions
        else start == 0 && firstNonopt == first && argv[..] == old(argv[..])
    {
      firstNonopt, start := first, 0;
      if removeFlags {
        WithoutOptions(argv[..], argv[0], p);
        ghost var program := argv[0];
        argv[first - 1] := argv[0];
        firstNonopt, start := 1, first - 1;
        assert argv[start + 1..] == p.rest + p.nonoptions;
        assert argv[start..] == [program] + argv[start + 1..];
      }
    }

    /** The arguments keep their meaning and end up as options, arguments after "--", other arguments;
        the latter two begin at the result, counted from where argv then starts. */
    method ParseNewCommandLineFlags(argv: array<string>, removeFlags: bool, host: Host)
      returns (firstNonopt: nat, start: nat)
      requires registry.Valid() && argv.Length > 0
      modifies argv, this, registry.flags.Values
      ensures registry.Valid()
      ensures var p := Scan(old(argv[1..]), Types());
        && World() == Effect(old(World()), p, host)
        && |p.options| < argv.Length
        && (if removeFlags
            then start == |p.options| && firstNonopt == 1 && argv[start..] == [old(argv[0])] + p.rest + p.nonoptions
            else start == 0 && firstNonopt == 1 + |p.options| && argv[..] == [old(argv[0])] + Permuted(p))
        && (old(status) == Running && host.levels >= Enough(old(World()), p.assignments, SetFlagsValue, host) ==>
              (status == TooDeep <==> AsksAgain(old(World()), p.assignments, SetFlagsValue, host)))
    {
      hide Scan, Effect, AsksAgain, Enough;
      ghost var program, p := argv[0], Scan(argv[1..], Types());
      if status == Running && host.levels >= Enough(World(), p.assignments, SetFlagsValue, host) {
        EffectEnds(registry, World(), p, host);
      }
      firstNonopt := ReadArguments(argv, host);
      assert |p.options| < argv.Length by { WithoutOptions(argv[..], program, p); }
      firstNonopt, start := RemoveOptions(argv, removeFlags, firstNonopt, p);
    }

    /** What a command line says is what the flags are afterwards, and the arguments keep their order by kind. */
    method ParseItems(argv: array<string>, removeFlags: bool, host: Host, ghost items: seq<Item>, ghost end: End)
      returns (firstNonopt: nat, start: nat)
      requires registry.Valid() && status == Running && argv.Length > 0
      requires AllFit(items, Types()) && EndFits(end, Types()) && SetsNoOthers(AllSaid(items, Types()))
      requires argv[1..] == AllWritten(items) + EndWritten(end)
      modifies argv, this, registry.flags.Values
      ensures registry.Valid()
      ensures Told(World(), old(World()), items, end)
      ensures var kept := (if end.Cut? then end.rest else []) + Words(items);
        if removeFlags then firstNonopt == 1 && start < argv.Length && argv[start..] == [old(argv[0])] + kept
        else start == 0 && 1 <= firstNonopt <= argv.Length && argv[firstNonopt..] == kept &&
             argv[..firstNonopt] == [old(argv[0])] + Options(items) + EndOption(end)
    {
      hide Effect, Scan, AllFit, EndFits, AllWritten, EndWritten, Told, Reads, AllSaid, Words, Options, EndOption,
        Permuted, SetsNoOthers, TypesOf, Enough, AsksAgain, WellFormed, FlagRegistry.State, FlagRegistry.Valid;
      ghost var w, p, program := World(), Scan(argv[1..], Types()), argv[0];
      TypesStay();
      RegistryIsWellFormed(registry);
      CommandLineIsRead(items, end, Types());
      EffectTold(w, p, items, end, host);
      firstNonopt, start := ParseNewCommandLineFlags(argv, removeFlags, host);
      LeftArguments(argv[..], program, p, items, end, w.flags, start);
    }

    /** A line that starts with a dash: an unknown flag or a missing value is ignored. */
    method ProcessFlagLine(line: string, mode: Mode, host: Host)
      requires registry.Valid() && line != "" && line[0] == '-'
      modifies this, registry.flags.Values
      ensures registry.Valid()
      ensures World() == ProcessAll(old(World()), FlagLine(line, Types()), mode, host)
      decreases host.levels, 2, 0
    {
      hide SplitArgument, Process, ProcessAll, TypesOf;
      TypesStay();
      var arg := line[1..];
      if arg != "" && arg[0] == '-' {
        arg := arg[1..];
      }
      assert arg == if "--" <= line then line[2..] else line[1..];
      var flag, key, text := registry.SplitArgumentLocked(arg);
      NothingAsked(World(), mode, host);
      if flag != null && text.Some? {
        ProcessOne(World(), flag.name, text.value, mode, host);
        ProcessSingleOptionLocked(flag, text.value, mode, host);
      }
    }

    method ProcessLine(line: string, relevant: bool, inFilenames: bool, mode: Mode, host: Host)
      returns (relevant': bool, inFilenames': bool)
      requires registry.Valid()
      modifies this, registry.flags.Values
      ensures registry.Valid()
      ensures var r := OnLine(line, Reading([], relevant, inFilenames), Types(), host.matches);
        && relevant' == r.relevant && inFilenames' == r.inFilenames
        && World() == ProcessAll(old(World()), r.settings, mode, host)
      decreases host.levels, 3, 0
    {
      hide FlagLine, SomeWordMatches, ProcessAll;
      relevant', inFilenames' := relevant, inFilenames;
      NothingAsked(World(), mode, host);
      if line == "" || line[0] == '#' {
      } else if line[0] == '-' {
        inFilenames' := false;
        LineSettings(line, relevant, inFilenames, Types(), host.matches);
        if relevant {
          ProcessFlagLine(line, mode, host);
        }
      } else {
        if !inFilenames {
          inFilenames' := true;
          relevant' := false;
        }
        if !relevant' {
          relevant' := MatchWords(line, host.matches);
        }
      }
    }

    /** A flag file is read a line at a time; the flags after lines of file names apply only if one of
        them matches this program. */
    method ProcessOptionsFromStringLocked(contents: string, mode: Mode, host: Host)
      requires registry.Valid()
      modifies this, registry.flags.Values
      ensures registry.Valid()
      ensures World() == ProcessAll(old(World()), Settings(contents, Types(), host.matches), mode, host)
      decreases host.levels, 4, 0
    {
      hide OnLine, ReadLines, SkipSpaces, IndexOf, ProcessAll, CommandLineFlagParser.World, CommandLineFlagParser.Types,
        FlagRegistry.State, FlagRegistry.Valid;
      ghost var w, types, done := World(), Types(), [];
      var text := contents[..IndexOf(contents, '\0')];
      var relevant, inFilenames := true, false;
      var p, more := 0, true;
      ghost var end := ReadLines(text, Reading(done, relevant, inFilenames), types, host.matches);
      NothingAsked(w, mode, host);
      assert text[0..] == text;
      while more
        invariant registry.Valid() && Types() == types && World() == ProcessAll(w, done, mode, host)
        invariant more ==>
          p <= |text| && end == ReadLines(text[p..], Reading(done, relevant, inFilenames), types, host.matches)
        invariant !more ==> done == end.settings
        decreases more, |text| - p
      {
        var q := SkipBlanksIn(text, p);
        var e := q + IndexOf(text[q..], '\n');
        var line := text[q..e];
        ghost var st := Reading(done, relevant, inFilenames);
        LineAt(text, p, q, e, st, types, host.matches);
        relevant, inFilenames := ProcessLine(line, relevant, inFilenames, mode, host);
        done := LineAdds(w, line, st, types, mode, host);
        more := e < |text|;
        p := e + 1;
      }
    }

    /** What a file of flags and sections says for this program is what the flags are afterwards. */
    method ReadSections(contents: string, host: Host, ghost before: seq<Line>, ghost sections: seq<Section>,
                        ghost end: string)
      requires registry.Valid() && status == Running
      requires IsFile(contents, before, sections, end, Types())
      requires SetsNoOthers(BodySaid(before, Types()) + SectionsSaid(sections, Types(), host.matches))
      modifies this, registry.flags.Values
      ensures registry.Valid()
      ensures AllObey(World(), old(World()),
                      BodySaid(before, Types()) + SectionsSaid(sections, Types(), host.matches))
    {
      hide Settings, IsFile, AllObey, Agree, BodySaid, SectionsSaid, ProcessAll, SetsNoOthers, TypesOf, WellFormed,
        FlagRegistry.State, FlagRegistry.Valid;
      ghost var w, said := World(), BodySaid(before, Types()) + SectionsSaid(sections, Types(), host.matches);
      TypesStay();
      RegistryIsWellFormed(registry);
      SectionedFileReads(contents, before, sections, end, Types(), host.matches);
      SaidIsObeyed(w, Settings(contents, Types(), host.matches), said, host);
      ProcessOptionsFromStringLocked(contents, SetFlagsValue, host);
    }

    /** Whether there are errors, apart from the undefined names that --undefok declares to be fine; a bad list
        there ends the program. */
    method ReportErrors(reparsing: bool) returns (found: bool)
      requires registry.Valid()
      modifies this`errorFlags, this`status
      ensures match Undefok(registry.State())
        case None => status == (if old(status) == Running then Exited else old(status))
        case Some(undefok) =>
          && status == old(status)
          && errorFlags ==
               old(errorFlags) - Excused(undefok, undefinedNames) - (if reparsing then undefinedNames else {})
          && (found <==> errorFlags != {})
    {
      hide IndexOf, FlagList;
      var flag := registry.FindFlagLocked("undefok");
      var value := if flag != null && flag.current.StringValue? then flag.current.s else "";
      var list := FlagList(value[..IndexOf(value, '\0')]);
      if list == None {
        if status == Running { status := Exited; }
        return true;
      }
      Excuse(list.value);
      if reparsing {
        errorFlags := errorFlags - undefinedNames;
      }
      found := errorFlags != {};
    }

    method Excuse(undefok: seq<string>)
      modifies this`errorFlags
      ensures errorFlags == old(errorFlags) - Excused(undefok, undefinedNames)
    {
      var k := 0;
      assert undefok[..0] == [];
      while k < |undefok|
        invariant k <= |undefok|
        invariant errorFlags == old(errorFlags) - Excused(undefok[..k], undefinedNames)
      {
        assert undefok[..k + 1] == undefok[..k] + [undefok[k]];
        ExcusedAppend(undefok[..k], undefok[k], undefinedNames);
        if undefok[k] in undefinedNames {
          errorFlags := errorFlags - {undefok[k]};
        } else if "no" + undefok[k] in undefinedNames {
          errorFlags := errorFlags - {"no" + undefok[k]};
        }
        k := k + 1;
      }
      assert undefok[..k] == undefok;
    }
  }

  /** The names in the flag undefok, if that is a list. */
  function Undefok(flags: map<string, FlagState>): Option<seq<string>> {
    var value := if "undefok" in flags && flags["undefok"].current.StringValue? then flags["undefok"].current.s else "";
    FlagList(value[..IndexOf(value, '\0')])
  }

  lemma NothingAsked(w: World, mode: Mode, host: Host)
    ensures ProcessAll(w, [], mode, host) == w && Carry(w, EMPTY) == w
  {
  }

  lemma VariableEffect(w: World, name: string, types: Types, mode: Mode, fatal: bool, host: Host)
    requires host.levels > 0
    ensures var variable := "FLAGS_" + name;
      var x, less := FromVariable(name, types, host, fatal), host.(levels := host.levels - 1);
      Carry(ProcessAll(w, x.settings, mode, less), x) ==
        if name !in types then More(w, {name}, {name})
        else if variable !in host.environment then (if fatal then More(w, {name}, {}) else w)
        else if host.environment[variable] == "fromenv" || host.environment[variable] == "tryfromenv" then
          More(w, {name}, {})
        else Process(w, name, host.environment[variable], mode, less)
  {
    hide ProcessAll, Process;
    var variable, less := "FLAGS_" + name, host.(levels := host.levels - 1);
    NothingAsked(w, mode, less);
    if variable in host.environment { ProcessOne(w, name, host.environment[variable], mode, less); }
  }

  /** Settings that were made before those of an expansion. */
  function After(done: Assignments, x: Expansion): Expansion { x.(settings := done + x.settings) }

  lemma NextFile(names: seq<string>, i: nat, types: Types, host: Host, done: Assignments)
    requires i < |names| && names[i] in host.files
    ensures After(done, FromFiles(names[i..], types, host)) ==
      After(done + Settings(host.files[names[i]], types, host.matches), FromFiles(names[i + 1..], types, host))
  {
    hide Settings;
    var s, rest := Settings(host.files[names[i]], types, host.matches), FromFiles(names[i + 1..], types, host).settings;
    assert names[i..][1..] == names[i + 1..];
    assert done + (s + rest) == done + s + rest;
  }

  lemma LastFile(names: seq<string>, i: nat, types: Types, host: Host, done: Assignments)
    requires i <= |names| && (i < |names| ==> names[i] !in host.files)
    ensures After(done, FromFiles(names[i..], types, host)) == Expansion(done, {}, {}, i < |names|)
  {
    assert done + [] == done;
  }

  lemma NoVariables(types: Types, host: Host, fatal: bool)
    ensures FromEnvironment([], types, host, fatal) == EMPTY
  {
  }

  lemma {:induction false} NextVariable(names: seq<string>, i: nat, types: Types, host: Host, fatal: bool)
    requires i < |names|
    ensures var x, y := FromEnvironment(names[..i], types, host, fatal), FromVariable(names[i], types, host, fatal);
      FromEnvironment(names[..i + 1], types, host, fatal) ==
        Expansion(x.settings + y.settings, x.errors + y.errors, x.undefined + y.undefined, false)
    decreases i
  {
    hide FromVariable;
    var now := names[..i + 1];
    if i == 0 {
      assert now[1..] == [] && names[..0] == [];
      var y := FromVariable(names[0], types, host, fatal);
      assert y.settings + [] == y.settings == [] + y.settings;
      assert y.errors + {} == y.errors == {} + y.errors && y.undefined + {} == y.undefined == {} + y.undefined;
    } else {
      assert now[1..] == names[1..][..i] && names[..i][1..] == names[1..][..i - 1] && names[1..][i - 1] == names[i];
      NextVariable(names[1..], i - 1, types, host, fatal);
      ExpansionsAssociate(FromVariable(names[0], types, host, fatal),
                          FromEnvironment(names[1..][..i - 1], types, host, fatal),
                          FromVariable(names[i], types, host, fatal));
    }
  }

  lemma ExpansionsAssociate(x: Expansion, y: Expansion, z: Expansion)
    ensures x.settings + (y.settings + z.settings) == x.settings + y.settings + z.settings
    ensures x.errors + (y.errors + z.errors) == x.errors + y.errors + z.errors
    ensures x.undefined + (y.undefined + z.undefined) == x.undefined + y.undefined + z.undefined
  {
  }

  /** What one more variable adds to what the variables before it did. */
  lemma CarryNext(w: World, x: Expansion, y: Expansion, mode: Mode, host: Host)
    requires !x.exits && !y.exits
    ensures Carry(ProcessAll(Carry(ProcessAll(w, x.settings, mode, host), x), y.settings, mode, host), y) ==
      Carry(ProcessAll(w, x.settings + y.settings, mode, host),
            Expansion(x.settings + y.settings, x.errors + y.errors, x.undefined + y.undefined, false))
  {
    hide ProcessAll;
    var r := ProcessAll(w, x.settings, mode, host);
    ProcessAllConcat(w, x.settings, y.settings, mode, host);
    ProcessAllMore(r, x.errors, x.undefined, y.settings, mode, host);
    var q := ProcessAll(r, y.settings, mode, host);
    assert q.errors + x.errors + y.errors == q.errors + (x.errors + y.errors);
    assert q.undefined + x.undefined + y.undefined == q.undefined + (x.undefined + y.undefined);
  }

  lemma LineSettings(line: string, relevant: bool, inFilenames: bool, types: Types, matches: Matcher)
    requires line != "" && line[0] == '-'
    ensures OnLine(line, Reading([], relevant, inFilenames), types, matches) ==
      Reading(if relevant then FlagLine(line, types) else [], relevant, false)
  {
    hide FlagLine;
    var a: Assignments := if relevant then FlagLine(line, types) else [];
    assert [] + a == a;
  }

  /** The settings after one more line. */
  lemma LineAdds(w: World, line: string, st: Reading, types: Types, mode: Mode, host: Host) returns (done: Assignments)
    ensures var next := OnLine(line, Reading([], st.relevant, st.inFilenames), types, host.matches);
      && done == st.settings + next.settings
      && OnLine(line, st, types, host.matches) == next.(settings := done)
      && ProcessAll(ProcessAll(w, st.settings, mode, host), next.settings, mode, host) ==
        ProcessAll(w, done, mode, host)
  {
    hide ProcessAll, FlagLine, SomeWordMatches;
    var next := OnLine(line, Reading([], st.relevant, st.inFilenames), types, host.matches);
    done := st.settings + next.settings;
    ProcessAllConcat(w, st.settings, next.settings, mode, host);
    assert st.settings + [] == st.settings;
    if line != "" && line[0] == '-' { assert [] + FlagLine(line, types) == FlagLine(line, types); }
  }

  /** The undefined names excused by --undefok; a name excuses its negation if it is not undefined itself. */
  ghost function Excused(undefok: seq<string>, undefinedNames: set<string>): set<string> {
    set n | n in undefinedNames &&
      (n in undefok || exists k :: 0 <= k < |undefok| && n == "no" + undefok[k] && undefok[k] !in undefinedNames)
  }

  lemma ExcusedAppend(undefok: seq<string>, name: string, undefinedNames: set<string>)
    ensures Excused(undefok + [name], undefinedNames) ==
            Excused(undefok, undefinedNames) + if name in undefinedNames then {name} else {"no" + name} * undefinedNames
  {
    var a := Excused(undefok + [name], undefinedNames);
    var b := Excused(undefok, undefinedNames) +
      if name in undefinedNames then {name} else {"no" + name} * undefinedNames;
    forall n | n in undefinedNames
      ensures n in a <==> n in b
    {
      if name !in undefinedNames && n == "no" + name {
        assert (undefok + [name])[|undefok|] == name;
      }
      if k :| 0 <= k < |undefok| && n == "no" + undefok[k] && undefok[k] !in undefinedNames {
        assert (undefok + [name])[k] == undefok[k];
      }
    }
  }

  lemma FirstWord(line: string, word: nat, matches: Matcher)
    requires word <= |line|
    ensures var e := IndexOf(line[word..], ' ');
      SomeWordMatches(line[word..], matches) <==>
        matches(line[word..word + e]) || (word + e < |line| && SomeWordMatches(line[word + e + 1..], matches))
  {
    hide IndexOf;
    var e := IndexOf(line[word..], ' ');
    assert line[word..][..e] == line[word..word + e];
    if word + e < |line| { assert line[word..][e + 1..] == line[word + e + 1..]; }
  }

  /** The words of a line are its parts between single spaces. */
  method MatchWords(line: string, matches: Matcher) returns (found: bool)
    ensures found <==> SomeWordMatches(line, matches)
  {
    hide SomeWordMatches, IndexOf;
    var word, more := 0, true;
    found := false;
    assert line[0..] == line;
    while more && !found
      invariant more && !found ==>
        word <= |line| && (SomeWordMatches(line, matches) <==> SomeWordMatches(line[word..], matches))
      invariant found ==> SomeWordMatches(line, matches)
      invariant !more && !found ==> !SomeWordMatches(line, matches)
      decreases more && !found, |line| - word
    {
      var e := IndexOf(line[word..], ' ');
      FirstWord(line, word, matches);
      found := matches(line[word..word + e]);
      more := word + e < |line|;
      word := word + e + 1;
    }
  }

  method SkipBlanksIn(text: string, p: nat) returns (q: nat)
    requires p <= |text|
    ensures p <= q <= |text| && SkipSpaces(text[p..]) == text[q..]
  {
    q := p;
    while q < |text| && IsSpace(text[q])
      invariant p <= q <= |text| && SkipSpaces(text[p..]) == SkipSpaces(text[q..])
    {
      assert text[q..][1..] == text[q + 1..];
      q := q + 1;
    }
  }

  lemma LineAt(text: string, p: nat, q: nat, e: nat, st: Reading, types: Types, matches: Matcher)
    requires p <= q <= e <= |text| && SkipSpaces(text[p..]) == text[q..] && e == q + IndexOf(text[q..], '\n')
    ensures ReadLines(text[p..], st, types, matches) ==
            var next := OnLine(text[q..e], st, types, matches);
            if e < |text| then ReadLines(text[e + 1..], next, types, matches) else next
  {
    hide OnLine, IndexOf, SkipSpaces;
    assert text[q..][..e - q] == text[q..e];
    if e < |text| { assert text[q..][e - q + 1..] == text[e + 1..]; }
  }

  // ---------------------------------------------------------------------------
  // Saving and restoring

  class FlagSaverImpl {
    const registry: FlagRegistry
    var backup: seq<CommandLineFlag>
    ghost var saved: map<string, FlagState>

    /** The backups are copies of their own, one for each flag there was. */
    ghost predicate Valid()
      reads this, backup
    {
      Copies(backup, saved)
    }

    ghost predicate Apart()
      reads this, registry
    {
      forall k :: 0 <= k < |backup| ==> backup[k] !in registry.flags.Values
    }

    /** The flags are still those that were saved. */
    ghost predicate Compatible()
      reads this, registry
    {
      && WellFormed(saved)
      && forall n :: n in saved && n in registry.flags ==> saved[n].ty == registry.flags[n].ty
    }

    constructor (registry: FlagRegistry)
      ensures this.registry == registry && backup == [] && Valid() && saved == map[]
    {
      this.registry := registry;
      backup, saved := [], map[];
    }

    method SaveFromRegistry()
      requires registry.Valid() && backup == []
      modifies this
      ensures Valid() && saved == registry.State() && Apart() && Compatible() && fresh(backup)
    {
      hide Copies;
      SaveAll();
    }

    /** One copy for each flag in the registry. */
    method SaveAll()
      requires registry.Valid() && backup == []
      modifies this
      ensures Valid() && fresh(backup) && saved.Keys == registry.flags.Keys
      ensures forall n :: n in saved ==> saved[n] == registry.flags[n].State()
    {
      hide Copies;
      var todo := registry.flags.Keys;
      saved := map[];
      NoCopies();
      while todo != {}
        invariant fresh(backup) && Valid()
        invariant todo <= registry.flags.Keys
        invariant saved.Keys == registry.flags.Keys - todo
        invariant forall n :: n in saved ==> saved[n] == registry.flags[n].State()
        decreases |todo|
      {
        var name :| name in todo;
        SaveOne(registry.flags[name]);
        todo := todo - {name};
      }
    }

    method SaveOne(flag: CommandLineFlag)
      requires Valid() && flag.Valid() && flag.name !in saved
      modifies this
      ensures Valid() && saved == old(saved)[flag.name := flag.State()]
      ensures |backup| == |old(backup)| + 1 && backup[..|old(backup)|] == old(backup) && fresh(backup[|old(backup)|])
    {
      hide Copies;
      var copy := Duplicate(flag);
      CopiesAppend(backup, saved, copy);
      saved := saved[flag.name := copy.State()];
      backup := backup + [copy];
    }

    /** Every flag that was saved gets back everything it had, whatever happened to it since. */
    method RestoreToRegistry()
      requires registry.Valid() && Valid() && Apart() && Compatible()
      modifies registry.flags.Values
      ensures registry.Valid() && Valid()
      ensures forall n :: n in registry.flags ==>
                registry.flags[n].State() == if n in saved then saved[n] else old(registry.flags[n].State())
      ensures saved.Keys == registry.flags.Keys ==> registry.State() == saved
    {
      hide Copies;
      var k := 0;
      ghost var done := {};
      while k < |backup|
        invariant k <= |backup| && registry.Valid() && Valid()
        invariant done <= saved.Keys
        invariant forall j :: 0 <= j < k ==> backup[j].name in done
        invariant forall n :: n in registry.flags ==>
                    registry.flags[n].State() == if n in done then saved[n] else old(registry.flags[n].State())
      {
        CopyIs(backup, saved, k);
        RestoreOne(backup[k]);
        done := done + {backup[k].name};
        k := k + 1;
      }
      AllCopied(backup, saved, done);
    }

    method RestoreOne(copy: CommandLineFlag)
      requires registry.Valid() && copy !in registry.flags.Values && copy.Valid()
      requires copy.name in registry.flags ==> registry.flags[copy.name].ty == copy.ty
      modifies registry.flags.Values
      ensures registry.Valid()
      ensures forall n :: n in registry.flags ==>
                registry.flags[n].State() == if n == copy.name then copy.State() else old(registry.flags[n].State())
    {
      var flag := registry.FindFlagLocked(copy.name);
      if flag != null {
        flag.CopyFrom(copy);
      }
    }
  }

  ghost predicate Copies(backup: seq<CommandLineFlag>, saved: map<string, FlagState>)
    reads backup
  {
    && (forall k :: 0 <= k < |backup| ==> backup[k].name in saved && backup[k].State() == saved[backup[k].name])
    && (forall n :: n in saved ==> exists k :: 0 <= k < |backup| && backup[k].name == n)
  }

  lemma NoCopies()
    ensures Copies([], map[])
  {
  }

  lemma CopiesAppend(backup: seq<CommandLineFlag>, saved: map<string, FlagState>, copy: CommandLineFlag)
    requires Copies(backup, saved) && copy.name !in saved
    ensures Copies(backup + [copy], saved[copy.name := copy.State()])
  {
    var b := backup + [copy];
    assert b[|backup|] == copy;
    forall n | n in saved
      ensures exists k :: 0 <= k < |b| && b[k].name == n
    {
      var k :| 0 <= k < |backup| && backup[k].name == n;
      assert b[k] == backup[k];
    }
  }

  lemma CopyIs(backup: seq<CommandLineFlag>, saved: map<string, FlagState>, k: nat)
    requires Copies(backup, saved) && k < |backup|
    ensures backup[k].name in saved && backup[k].State() == saved[backup[k].name]
  {
  }

  lemma AllCopied(backup: seq<CommandLineFlag>, saved: map<string, FlagState>, done: set<string>)
    requires Copies(backup, saved) && forall j :: 0 <= j < |backup| ==> backup[j].name in done
    ensures saved.Keys <= done
  {
  }

  method Duplicate(flag: CommandLineFlag) returns (copy: CommandLineFlag)
    requires flag.Valid()
    ensures fresh(copy) && copy.State() == flag.State()
  {
    copy := new CommandLineFlag(flag.name, NewValue(flag.ty), NewValue(flag.ty));
    copy.CopyFrom(flag);
  }

  // ---------------------------------------------------------------------------
  // Reading and printing the flags of a registry

  /** GetAllFlags brings the modified bits up to date. The order of the report is left open: it is sorted
      by file and name afterwards. */
  method GetAllFlags(registry: FlagRegistry) returns (infos: Assignments)
    requires registry.Valid()
    modifies registry.flags.Values
    ensures registry.Valid()
    ensures forall n :: n in registry.flags ==>
      registry.flags[n].State() == UpdateModified(old(registry.flags[n].State()))
    ensures Reports(infos, registry.State())
  {
    hide Listed;
    var todo := registry.flags.Keys;
    infos := [];
    NoneListed(registry.State());
    assert registry.State().Keys == todo;
    while todo != {}
      invariant registry.Valid() && todo <= registry.flags.Keys
      invariant forall n :: n in registry.flags ==>
                  registry.flags[n].State() ==
                    if n in todo then old(registry.flags[n].State())
                    else UpdateModified(old(registry.flags[n].State()))
      invariant Listed(infos, registry.State(), todo)
      decreases |todo|
    {
      var name :| name in todo;
      infos := ReportOne(registry, name, infos, todo);
      todo := todo - {name};
    }
    AllListed(infos, registry.State());
  }

  method ReportOne(registry: FlagRegistry, name: string, infos: Assignments, ghost todo: set<string>)
    returns (more: Assignments)
    requires registry.Valid() && name in registry.flags && Listed(infos, registry.State(), todo)
    modifies registry.flags.Values
    ensures registry.Valid()
    ensures forall n :: n in registry.flags ==>
              registry.flags[n].State() ==
                if n == name then UpdateModified(old(registry.flags[n].State()))
                else old(registry.flags[n].State())
    ensures Listed(more, registry.State(), todo - {name})
  {
    hide ToString, Listed;
    var flag := registry.flags[name];
    ghost var before := registry.State();
    flag.UpdateModifiedBit();
    ListedAppend(infos, before, registry.State(), todo, name);
    more := infos + [(name, ToString(flag.current))];
  }

  lemma NoneListed(flags: map<string, FlagState>)
    ensures Listed([], flags, flags.Keys)
  {
  }

  lemma AllListed(infos: Assignments, flags: map<string, FlagState>)
    requires Listed(infos, flags, {})
    ensures Reports(infos, flags)
  {
    hide ToString;
  }

  /** The report covers all flags but those still to do. */
  ghost predicate Listed(infos: Assignments, flags: map<string, FlagState>, todo: set<string>) {
    && (forall k :: 0 <= k < |infos| ==> infos[k].0 in flags && infos[k].1 == ToString(flags[infos[k].0].current))
    && (forall n :: n in flags && n !in todo ==> exists k :: 0 <= k < |infos| && infos[k].0 == n)
  }

  lemma ListedAppend(infos: Assignments, flags: map<string, FlagState>, flags': map<string, FlagState>,
                     todo: set<string>, name: string)
    requires Listed(infos, flags, todo) && name in flags
    requires flags'.Keys == flags.Keys && forall n :: n in flags ==> flags'[n].current == flags[n].current
    ensures Listed(infos + [(name, ToString(flags[name].current))], flags', todo - {name})
  {
    hide ToString;
    var more := infos + [(name, ToString(flags[name].current))];
    assert more[|infos|].0 == name;
    forall n | n in flags' && n !in todo - {name}
      ensures exists k :: 0 <= k < |more| && more[k].0 == n
    {
      if n != name {
        var k :| 0 <= k < |infos| && infos[k].0 == n;
        assert more[k] == infos[k];
      }
    }
  }

  method TheseCommandlineFlagsIntoString(infos: Assignments) returns (text: string)
    ensures text == Printed(infos)
  {
    text := "";
    var k := 0;
    while k < |infos|
      invariant k <= |infos|
      invariant text + Printed(infos[k..]) == Printed(infos)
    {
      ghost var before := text;
      text := text + "--";
      text := text + infos[k].0;
      text := text + "=";
      text := text + infos[k].1;
      text := text + "\n";
      PrintedNext(infos, k, before);
      k := k + 1;
    }
    assert infos[k..] == [];
  }

  lemma PrintedNext(infos: Assignments, k: nat, text: string)
    requires k < |infos|
    ensures text + "--" + infos[k].0 + "=" + infos[k].1 + "\n" + Printed(infos[k + 1..]) == text + Printed(infos[k..])
  {
    var rest := infos[k..];
    assert rest[0] == infos[k] && rest[1..] == infos[k + 1..];
    var line := "--" + infos[k].0 + "=" + infos[k].1 + "\n";
    assert text + "--" + infos[k].0 + "=" + infos[k].1 + "\n" == text + line;
  }

  method CommandlineFlagsIntoString(registry: FlagRegistry) returns (text: string)
    requires registry.Valid()
    modifies registry.flags.Values
    ensures registry.Valid()
    ensures forall n :: n in registry.flags ==>
      registry.flags[n].State() == UpdateModified(old(registry.flags[n].State()))
    ensures exists infos :: Reports(infos, registry.State()) && text == Printed(infos)
  {
    var infos := GetAllFlags(registry);
    text := TheseCommandlineFlagsIntoString(infos);
  }

  /** What reading a text does. */
  ghost function AfterText(flags: map<string, FlagState>, contents: string, host: Host): World {
    ProcessAll(World(flags, {}, {}, Running), Settings(contents, TypesOf(flags), host.matches), SetFlagsValue, host)
  }

  /** Levels that are enough for a text, unless something is asked for again. */
  ghost function LevelsFor(flags: map<string, FlagState>, contents: string, host: Host): nat {
    Enough(World(flags, {}, {}, Running), Settings(contents, TypesOf(flags), host.matches), SetFlagsValue, host)
  }

  ghost predicate TextAsksAgain(flags: map<string, FlagState>, contents: string, host: Host) {
    AsksAgain(World(flags, {}, {}, Running), Settings(contents, TypesOf(flags), host.matches), SetFlagsValue, host)
  }

  lemma TextEnds(registry: FlagRegistry, contents: string, host: Host)
    requires registry.Valid()
    ensures var flags := registry.State(); host.levels >= LevelsFor(flags, contents, host) ==>
      (StatusAfter(AfterText(flags, contents, host)) == TooDeep <==> TextAsksAgain(flags, contents, host))
  {
    hide ProcessAll, AsksAgain, Enough, Settings, Undefok, FlagRegistry.Valid, FlagRegistry.State;
    RegistryIsTyped(registry);
    var w := World(registry.State(), {}, {}, Running);
    assert host.(levels := host.levels) == host;
    EndsExactly(w, Settings(contents, TypesOf(w.flags), host.matches), SetFlagsValue, host, host.levels);
  }

  /** Whether the program is still there once the errors have been looked at. */
  ghost function StatusAfter(r: World): Status {
    if r.status == Running && Undefok(r.flags) == None then Exited else r.status
  }

  /** Some error counts. */
  ghost predicate Faulty(r: World, reparsing: bool) {
    var list := Undefok(r.flags);
    list.Some? && r.errors - Excused(list.value, r.undefined) - (if reparsing then r.undefined else {}) != {}
  }

  /** Reads the text and counts the errors. */
  method ProcessText(registry: FlagRegistry, contents: string, reparsing: bool, host: Host)
    returns (found: bool, status: Status)
    requires registry.Valid()
    modifies registry.flags.Values
    ensures registry.Valid()
    ensures var r := AfterText(old(registry.State()), contents, host);
      && registry.State() == r.flags && status == StatusAfter(r)
      && (status == Running ==> (found <==> Faulty(r, reparsing)))
  {
    hide ProcessAll, Settings, Undefok, Excused, FlagRegistry.State, FlagRegistry.Valid;
    var parser := new CommandLineFlagParser(registry);
    parser.TypesStay();
    ghost var r := AfterText(registry.State(), contents, host);
    parser.ProcessOptionsFromStringLocked(contents, SetFlagsValue, host);
    assert parser.World() == r;
    found := parser.ReportErrors(reparsing);
    status := parser.status;
  }

  /** All or nothing: if there is an error in the text, every flag is put back, or the program ends. */
  method ReadFlagsFromString(registry: FlagRegistry, contents: string, errorsAreFatal: bool, reparsing: bool,
                             host: Host)
    returns (ok: bool, status: Status)
    requires registry.Valid()
    modifies registry.flags.Values
    ensures registry.Valid()
    ensures var r := AfterText(old(registry.State()), contents, host);
      && (StatusAfter(r) != Running ==> status == StatusAfter(r))
      && (StatusAfter(r) == Running ==>
            && (ok <==> !Faulty(r, reparsing))
            && status == (if ok || !errorsAreFatal then Running else Exited)
            && (ok ==> registry.State() == r.flags)
            && (!ok && !errorsAreFatal ==> registry.State() == old(registry.State())))
    ensures host.levels >= LevelsFor(old(registry.State()), contents, host) ==>
      (status == TooDeep <==> TextAsksAgain(old(registry.State()), contents, host))
  {
    hide AfterText, StatusAfter, Faulty, FlagSaverImpl.Valid, LevelsFor, TextAsksAgain;
    TextEnds(registry, contents, host);
    var saver := new FlagSaverImpl(registry);
    saver.SaveFromRegistry();
    var found;
    found, status := ProcessText(registry, contents, reparsing, host);
    ok := !found;
    if status == Running && found {
      if errorsAreFatal {
        status := Exited;
      } else {
        saver.RestoreToRegistry();
      }
    }
  }

  lemma OptionEffect(w: World, arg: string, types: Types, host: Host)
    requires Classify(arg, types).Complete? || Classify(arg, types).Waiting?
    ensures IsOption(arg)
    ensures var k := Classify(arg, types); var e := Effect(w, Piece(arg, types), host);
      var s := SplitArgument(StripDashes(arg), types);
      if s.Unknown? then k.Complete? && e == More(w, {s.key}, {s.key})
      else if s.text.Some? then k.Complete? && e == Process(w, s.name, s.text.value, SetFlagsValue, host)
      else k == Waiting(s.name) && e == More(w, {s.name}, {})
  {
    hide SplitArgument, Process;
    match SplitArgument(StripDashes(arg), types)
    case Known(name, Some(text)) => ProcessOne(w, name, text, SetFlagsValue, host);
    case _ =>
  }

  lemma TakingEffect(w: World, arg: string, name: string, text: string, host: Host)
    ensures Effect(w, Taking(arg, name, text), host) == Process(w, name, text, SetFlagsValue, host)
  {
    hide Process;
    ProcessOne(w, name, text, SetFlagsValue, host);
  }

  lemma WithoutOptions(full: seq<string>, program: string, p: Parsed)
    requires full == [program] + Permuted(p)
    ensures |p.options| < |full| && full[0] == program && full[1 + |p.options|..] == p.rest + p.nonoptions
    ensures [program] + (p.rest + p.nonoptions) == [program] + p.rest + p.nonoptions
  {
    assert full == [program] + p.options + (p.rest + p.nonoptions);
  }

  lemma MovedToEnd(before: seq<string>, after: seq<string>, i: nat)
    requires |before| == |after| && i < |before|
    requires forall j :: 0 <= j < i ==> after[j] == before[j]
    requires forall j :: i <= j < |after| - 1 ==> after[j] == before[j + 1]
    requires after[|after| - 1] == before[i]
    ensures after == before[..i] + before[i + 1..] + [before[i]]
  {
  }

  lemma PlainEffect(w: World, arg: string, types: Types, host: Host)
    ensures Classify(arg, types).Plain? || Classify(arg, types).Dashes? ==> Effect(w, Piece(arg, types), host) == w
    ensures !IsOption(arg) <==> Classify(arg, types).Plain?
    ensures Classify(arg, types).Dashes? <==> arg == "--"
  {
    hide SplitArgument;
  }

  lemma KindOfOption(arg: string, types: Types)
    requires IsOption(arg) && arg != "--"
    ensures Classify(arg, types).Complete? || Classify(arg, types).Waiting?
  {
    hide SplitArgument;
  }

  lemma LayoutHere(full: seq<string>, program: string, done: Parsed, todo: seq<string>)
    requires Layout(full, program, done, todo)
    ensures |full| == 1 + |done.options| + |todo| + |done.nonoptions|
    ensures todo != [] ==> full[1 + |done.options|] == todo[0]
    ensures |todo| > 1 ==> full[2 + |done.options|] == todo[1]
  {
  }

  ghost predicate IsLast(todo: seq<string>, types: Types)
    requires todo != []
  {
    var k := Classify(todo[0], types);
    k.Dashes? || (k.Waiting? && |todo| == 1)
  }

  /** What one turn of the loop adds. */
  ghost function Turn(todo: seq<string>, types: Types): Parsed
    requires todo != []
  {
    var k := Classify(todo[0], types);
    if k.Waiting? && |todo| > 1 then Taking(todo[0], k.name, todo[1]) else Piece(todo[0], types)
  }

  /** What one turn of the loop leaves behind. */
  lemma NextTurn(w: World, full: seq<string>, full': seq<string>, program: string, done: Parsed, todo: seq<string>,
                 all: Parsed, types: Types, host: Host)
    returns (done': Parsed, todo': seq<string>)
    requires Layout(full, program, done, todo) && Continues(done, todo, all, types) && todo != []
    requires 1 + |done.options| < |full|
    requires var i := 1 + |done.options|;
      full' == if Classify(todo[0], types).Plain? then full[..i] + full[i + 1..] + [full[i]] else full
    ensures done' == Join(done, Turn(todo, types))
    ensures todo' == if Classify(todo[0], types).Waiting? && |todo| > 1 then todo[2..] else todo[1..]
    ensures |done'.options| == |done.options| + if Classify(todo[0], types).Plain? then 0 else |todo| - |todo'|
    ensures Layout(full', program, done', todo')
    ensures if IsLast(todo, types) then all == done'.(rest := todo') else Continues(done', todo', all, types)
    ensures Effect(w, done', host) == Effect(Effect(w, done, host), Turn(todo, types), host)
  {
    hide Scan, Effect, Piece, Taking, Join, Classify, Layout, Continues, IsOption;
    var a, k := todo[0], Classify(todo[0], types);
    done' := Join(done, Turn(todo, types));
    todo' := if k.Waiting? && |todo| > 1 then todo[2..] else todo[1..];
    PieceFields(a, types);
    PieceRest(a, types);
    if k.Waiting? && |todo| > 1 {
      LayoutTaking(full, program, done, todo, k.name);
      ContinuesTwo(done, todo, all, types);
      TakingFields(a, k.name, todo[1]);
    } else if k.Plain? {
      LayoutPlain(full, program, done, todo, types);
      ContinuesOne(done, todo, all, types);
    } else {
      LayoutComplete(full, program, done, todo, types);
      if k.Complete? { ContinuesOne(done, todo, all, types); } else { ContinuesLast(done, todo, all, types); }
    }
    JoinFields(done, Turn(todo, types));
    ContinuesWithoutMissing(done, todo, all, types);
    EffectJoin(w, done, Turn(todo, types), host);
  }

  lemma ContinuesWithoutMissing(done: Parsed, todo: seq<string>, all: Parsed, types: Types)
    requires Continues(done, todo, all, types)
    ensures done.missing.None?
  {
    hide Scan, Join;
  }

  lemma LoopStart(full: seq<string>, w: World, types: Types, host: Host)
    requires full != []
    ensures Layout(full, full[0], NOTHING, full[1..])
    ensures Continues(NOTHING, full[1..], Scan(full[1..], types), types)
    ensures Effect(w, NOTHING, host) == w
  {
    hide Scan, Effect;
    EffectOfNothing(w, host);
    JoinNothing(Scan(full[1..], types));
  }

  /** When the loop ends, everything has been read. */
  lemma AllRead(full: seq<string>, program: string, done: Parsed, todo: seq<string>, all: Parsed, w: World,
                types: Types, host: Host)
    requires Layout(full, program, done, todo)
    requires all == done.(rest := todo) || (Continues(done, todo, all, types) && todo == [])
    ensures Effect(w, all, host) == Effect(w, done, host) && all.options == done.options
    ensures full == [program] + Permuted(all)
    ensures full[..1 + |all.options|] == [program] + all.options &&
      full[1 + |all.options|..] == all.rest + all.nonoptions
  {
    if todo == [] {
      ScanNothing(types);
      JoinNothing(done);
    }
    assert all.options == done.options && all.rest == todo && all.nonoptions == done.nonoptions;
    assert full == [program] + all.options + (all.rest + all.nonoptions);
    assert full == [program] + (all.options + all.rest + all.nonoptions);
  }
}

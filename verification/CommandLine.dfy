/** How gflags.cc reads a command line: which arguments are options, which option takes its value from the
    next argument, and in what order the arguments end up. */
module CommandLine {
  import opened Wrappers
  import opened FlagValues
  import opened FlagSemantics

  type Types = map<string, ValueType>

  /** A flag and the text for it (None: the text is still to come), or no flag of that name. */
  datatype Split = Known(name: string, text: Option<string>) | Unknown(key: string)

  /** FlagRegistry::SplitArgumentLocked, on an argument without its dashes. The text of a boolean flag set
      as noname is always 0, even if the argument gives another one. */
  function SplitArgument(arg: string, types: Types): Split {
    var e := IndexOf(arg, '=');
    var key := arg[..e];
    var text := if e < |arg| then Some(arg[e + 1..]) else None;
    if key in types then Known(key, if text.None? && types[key].FvBool? then Some("1") else text)
    else if "no" <= key && key[2..] in types && types[key[2..]].FvBool? then Known(key[2..], Some("0"))
    else Unknown(key)
  }

  /** Only a known flag that is not boolean is left waiting for its text. */
  lemma WaitingFlags(arg: string, types: Types)
    ensures var s := SplitArgument(arg, types);
            s.Known? ==> s.name in types && (s.text.None? <==> arg in types && '=' !in arg && !types[arg].FvBool?)
  {
    hide IndexOf;
    var e := IndexOf(arg, '=');
    if e == |arg| { assert arg[..e] == arg; } else { assert arg[e] == '='; }
  }

  predicate IsOption(arg: string) { |arg| > 1 && arg[0] == '-' }

  function StripDashes(arg: string): string
    requires IsOption(arg)
  {
    if arg[1] == '-' then arg[2..] else arg[1..]
  }

  /** What one pass over the arguments finds: the options with the values they take, whether "--" ended
      them, the arguments after "--", the other arguments before it, the settings to make, the name of a
      last option whose value is missing, and the unknown names. */
  datatype Parsed = Parsed(options: seq<string>, dashes: bool, rest: seq<string>, nonoptions: seq<string>,
                           assignments: Assignments, missing: Option<string>, unknown: set<string>)

  const NOTHING := Parsed([], false, [], [], [], None, {})

  /** First one part of the arguments, then another. */
  function Join(p: Parsed, q: Parsed): Parsed {
    Parsed(p.options + q.options, q.dashes, q.rest, p.nonoptions + q.nonoptions,
           p.assignments + q.assignments, q.missing, p.unknown + q.unknown)
  }

  /** What an argument is by itself: no option; the end of the options; an option complete in itself,
      with the setting it makes or the unknown name it has; or an option that takes the next argument. */
  datatype Kind = Plain | Dashes | Complete(assignments: Assignments, unknown: set<string>) | Waiting(name: string)

  function Classify(arg: string, types: Types): Kind {
    if !IsOption(arg) then Plain
    else if arg == "--" then Dashes
    else
      match SplitArgument(StripDashes(arg), types)
      case Unknown(key) => Complete([], {key})
      case Known(name, Some(text)) => Complete([(name, text)], {})
      case Known(name, None) => Waiting(name)
  }

  lemma PlainIsNoOption(arg: string, types: Types)
    ensures Classify(arg, types).Plain? <==> !IsOption(arg)
  {
    hide SplitArgument, IsOption;
  }

  /** What one argument contributes. */
  function Piece(arg: string, types: Types): Parsed {
    match Classify(arg, types)
    case Plain => NOTHING.(nonoptions := [arg])
    case Dashes => NOTHING.(options := [arg], dashes := true)
    case Complete(assignments, unknown) => NOTHING.(options := [arg], assignments := assignments, unknown := unknown)
    case Waiting(name) => NOTHING.(options := [arg], missing := Some(name))
  }

  /** What an option and the value it takes contribute. */
  function Taking(arg: string, name: string, value: string): Parsed {
    NOTHING.(options := [arg, value], assignments := [(name, value)])
  }

  function Scan(args: seq<string>, types: Types): Parsed {
    if args == [] then NOTHING
    else
      match Classify(args[0], types)
      case Dashes => Piece(args[0], types).(rest := args[1..])
      case Waiting(name) =>
        if |args| == 1 then Piece(args[0], types) else Join(Taking(args[0], name, args[1]), Scan(args[2..], types))
      case _ => Join(Piece(args[0], types), Scan(args[1..], types))
  }

  /** The arguments in the order in which ParseNewCommandLineFlags leaves them. */
  function Permuted(p: Parsed): seq<string> { p.options + p.rest + p.nonoptions }

  // ---------------------------------------------------------------------------
  // The equations of Scan, and laws of Join

  lemma ScanOne(a: string, y: seq<string>, types: Types)
    requires Classify(a, types).Plain? || Classify(a, types).Complete?
    ensures Scan([a] + y, types) == Join(Piece(a, types), Scan(y, types))
  {
    hide Classify, Piece, Join;
    assert ([a] + y)[1..] == y;
  }

  lemma ScanTwo(a: string, b: string, y: seq<string>, types: Types)
    requires Classify(a, types).Waiting?
    ensures Scan([a, b] + y, types) == Join(Taking(a, Classify(a, types).name, b), Scan(y, types))
  {
    hide Classify, Piece, Join, Taking;
    assert ([a, b] + y)[2..] == y;
  }

  lemma ScanLast(a: string, y: seq<string>, types: Types)
    ensures Classify(a, types).Waiting? ==> Scan([a], types) == Piece(a, types)
    ensures Classify(a, types).Dashes? ==> Scan([a] + y, types) == Piece(a, types).(rest := y)
  {
    hide Classify, Piece;
    assert ([a] + y)[1..] == y;
  }

  lemma JoinNothing(p: Parsed)
    ensures Join(NOTHING, p) == p
    ensures !p.dashes && p.rest == [] && p.missing.None? ==> Join(p, NOTHING) == p
  {
  }

  lemma JoinAssociates(p: Parsed, q: Parsed, r: Parsed)
    ensures Join(Join(p, q), r) == Join(p, Join(q, r))
  {
    assert p.options + q.options + r.options == p.options + (q.options + r.options);
    assert p.nonoptions + q.nonoptions + r.nonoptions == p.nonoptions + (q.nonoptions + r.nonoptions);
    assert p.assignments + q.assignments + r.assignments == p.assignments + (q.assignments + r.assignments);
  }

  lemma SplitOff(args: seq<string>, types: Types) returns (a: string, y: seq<string>)
    requires args != []
    ensures args == [a] + y && a == args[0] && y == args[1..]
  {
    a, y := args[0], args[1..];
  }

  // ---------------------------------------------------------------------------
  // Nothing is lost and the order is kept

  /** s is an interleaving of x and y, each in its own order. */
  predicate Interleaves(s: seq<string>, x: seq<string>, y: seq<string>) {
    if s == [] then x == [] && y == []
    else
      || (x != [] && x[0] == s[0] && Interleaves(s[1..], x[1..], y))
      || (y != [] && y[0] == s[0] && Interleaves(s[1..], x, y[1..]))
  }

  lemma {:induction false} InterleavingKeepsAll(s: seq<string>, x: seq<string>, y: seq<string>)
    requires Interleaves(s, x, y)
    ensures multiset(s) == multiset(x) + multiset(y)
    ensures |s| == |x| + |y|
  {
    if s != [] {
      assert s == [s[0]] + s[1..];
      if x != [] && x[0] == s[0] && Interleaves(s[1..], x[1..], y) {
        InterleavingKeepsAll(s[1..], x[1..], y);
        assert x == [x[0]] + x[1..];
      } else {
        InterleavingKeepsAll(s[1..], x, y[1..]);
        assert y == [y[0]] + y[1..];
      }
    }
  }

  lemma ConsFirst(a: string, s: seq<string>, x: seq<string>, y: seq<string>)
    requires Interleaves(s, x, y)
    ensures Interleaves([a] + s, [a] + x, y) && Interleaves([a] + s, x, [a] + y)
  {
    assert ([a] + s)[1..] == s && ([a] + x)[1..] == x && ([a] + y)[1..] == y;
  }

  /** The part of the arguments before "--" and what was found there. */
  ghost predicate Arranged(args: seq<string>, head: seq<string>, p: Parsed) {
    args == head + p.rest && Interleaves(head, p.options, p.nonoptions)
  }

  /** For every command line: what precedes the part after "--" is an interleaving of the options, which
      come in their order, and the other arguments, which come in theirs. */
  lemma {:induction false} OrderIsKept(args: seq<string>, types: Types) returns (head: seq<string>)
    ensures Arranged(args, head, Scan(args, types))
  {
    hide Classify, Arranged, Join, Scan, Taking;
    if args == [] {
      ScanNothing(types);
      ArrangedEnds("", []);
      head := [];
    } else {
      var a, y := SplitOff(args, types);
      PieceFields(a, types);
      match Classify(a, types) {
        case Dashes =>
          ScanLast(a, y, types);
          ArrangedEnds(a, y);
          head := [a];
        case Waiting(name) =>
          if y == [] {
            ScanLast(a, y, types);
            ArrangedEnds(a, []);
            assert args == [a] && [a] + [] == [a];
            head := [a];
          } else {
            var b, z := SplitOff(y, types);
            var tail := OrderIsKept(z, types);
            assert args == [a, b] + z;
            ScanTwo(a, b, z, types);
            ArrangedTwo(a, b, name, z, tail, Scan(z, types));
            head := [a, b] + tail;
          }
        case _ =>
          var tail := OrderIsKept(y, types);
          ScanOne(a, y, types);
          ArrangedOne(a, y, tail, Scan(y, types), types);
          head := [a] + tail;
      }
    }
  }

  lemma ArrangedEnds(a: string, y: seq<string>)
    ensures Arranged([], [], NOTHING)
    ensures forall p: Parsed :: p.options == [a] && p.nonoptions == [] && p.rest == y ==> Arranged([a] + y, [a], p)
  {
    ConsFirst(a, [], [], []);
    assert [a] + [] == [a];
  }

  lemma ArrangedOne(a: string, y: seq<string>, tail: seq<string>, q: Parsed, types: Types)
    requires Classify(a, types).Plain? || Classify(a, types).Complete?
    requires Arranged(y, tail, q)
    ensures Arranged([a] + y, [a] + tail, Join(Piece(a, types), q))
  {
    hide Classify, Interleaves, Piece, Join;
    PieceFields(a, types);
    JoinFields(Piece(a, types), q);
    ConsFirst(a, tail, q.options, q.nonoptions);
    assert [a] + (tail + q.rest) == [a] + tail + q.rest;
    assert [] + q.options == q.options && [] + q.nonoptions == q.nonoptions;
  }

  lemma ArrangedTwo(a: string, b: string, name: string, y: seq<string>, tail: seq<string>, q: Parsed)
    requires Arranged(y, tail, q)
    ensures Arranged([a, b] + y, [a, b] + tail, Join(Taking(a, name, b), q))
  {
    hide Interleaves, Join, Taking;
    TakingFields(a, name, b);
    JoinFields(Taking(a, name, b), q);
    ConsFirst(b, tail, q.options, q.nonoptions);
    ConsFirst(a, [b] + tail, [b] + q.options, q.nonoptions);
    assert [a, b] + (tail + q.rest) == [a, b] + tail + q.rest;
    assert [a, b] + tail == [a] + ([b] + tail);
    assert [a, b] + q.options == [a] + ([b] + q.options) && [] + q.nonoptions == q.nonoptions;
  }

  /** Nothing is lost or doubled: the permuted arguments are the given ones. */
  lemma NothingIsLost(args: seq<string>, types: Types)
    ensures multiset(Permuted(Scan(args, types))) == multiset(args)
    ensures |Permuted(Scan(args, types))| == |args|
  {
    hide Scan, Interleaves;
    var p := Scan(args, types);
    var head := OrderIsKept(args, types);
    InterleavingKeepsAll(head, p.options, p.nonoptions);
  }

  // ---------------------------------------------------------------------------
  // Reading the permuted arguments again

  ghost predicate NoOptions(args: seq<string>) {
    forall k :: 0 <= k < |args| ==> !IsOption(args[k])
  }

  lemma {:induction false} OnlyNonOptions(args: seq<string>, types: Types)
    requires NoOptions(args)
    ensures Scan(args, types) == NOTHING.(nonoptions := args)
  {
    hide IsOption, Classify;
    if args != [] {
      var a, y := SplitOff(args, types);
      PlainIsNoOption(a, types);
      ScanOne(a, y, types);
      OnlyNonOptions(y, types);
    }
  }

  lemma {:induction false} NonOptionsAreNone(args: seq<string>, types: Types)
    ensures NoOptions(Scan(args, types).nonoptions)
  {
    hide IsOption, Classify;
    if args != [] {
      PlainIsNoOption(args[0], types);
      match Classify(args[0], types) {
        case Dashes =>
        case Waiting(name) => if |args| > 1 { NonOptionsAreNone(args[2..], types); }
        case _ => NonOptionsAreNone(args[1..], types);
      }
    }
  }

  lemma {:induction false} RestOnlyAfterDashes(args: seq<string>, types: Types)
    ensures var p := Scan(args, types); (!p.dashes ==> p.rest == []) && (p.missing.Some? ==> !p.dashes)
  {
    hide Classify;
    if args != [] {
      match Classify(args[0], types) {
        case Dashes =>
        case Waiting(name) => if |args| > 1 { RestOnlyAfterDashes(args[2..], types); }
        case _ => RestOnlyAfterDashes(args[1..], types);
      }
    }
  }

  /** Reading on after the options of an earlier reading. */
  function Resume(p: Parsed, more: seq<string>, types: Types): Parsed {
    if p.dashes then p.(rest := more, nonoptions := []) else Join(p.(nonoptions := []), Scan(more, types))
  }

  lemma ResumeJoin(f: Parsed, q: Parsed, more: seq<string>, types: Types)
    ensures Resume(Join(f, q), more, types) == Join(f.(nonoptions := []), Resume(q, more, types))
  {
    hide Scan;
    JoinAssociates(f.(nonoptions := []), q.(nonoptions := []), Scan(more, types));
  }

  lemma PieceFields(a: string, types: Types)
    ensures Classify(a, types).Plain? ==>
      Piece(a, types).options == [] && Piece(a, types).nonoptions == [a] &&
      Piece(a, types).(nonoptions := []) == NOTHING
    ensures !Classify(a, types).Plain? ==> Piece(a, types).options == [a] && Piece(a, types).nonoptions == []
    ensures Piece(a, types).missing.Some? <==> Classify(a, types).Waiting?
    ensures Classify(a, types).Waiting? ==> Piece(a, types).missing == Some(Classify(a, types).name)
    ensures Piece(a, types).dashes <==> Classify(a, types).Dashes?
    ensures Piece(a, types).rest == []
  {
    hide Classify;
  }

  lemma JoinFields(p: Parsed, q: Parsed)
    ensures Join(p, q).options == p.options + q.options && Join(p, q).missing == q.missing &&
      Join(p, q).dashes == q.dashes && Join(p, q).rest == q.rest
    ensures Join(p, q).nonoptions == p.nonoptions + q.nonoptions &&
      Join(p, q).assignments == p.assignments + q.assignments
  {
  }

  lemma {:induction false} OptionsReadAgain(args: seq<string>, more: seq<string>, types: Types)
    requires Scan(args, types).missing.None?
    ensures Scan(Scan(args, types).options + more, types) == Resume(Scan(args, types), more, types)
    decreases |args|
  {
    if args == [] {
      assert [] + more == more;
      JoinNothing(Scan(more, types));
    } else {
      var a, y := SplitOff(args, types);
      PieceFields(a, types);
      match Classify(a, types) {
        case Dashes =>
          ScanLast(a, y, types);
          ScanLast(a, more, types);
        case Waiting(name) =>
          ScanLast(a, y, types);
          if y != [] {
            var b, z := SplitOff(y, types);
            assert args == [a, b] + z;
            ScanTwo(a, b, z, types);
            JoinFields(Taking(a, name, b), Scan(z, types));
            OptionsReadAgain(z, more, types);
            TakingReadAgain(a, b, name, Scan(z, types), more, types);
          }
        case _ =>
          ScanOne(a, y, types);
          JoinFields(Piece(a, types), Scan(y, types));
          OptionsReadAgain(y, more, types);
          PieceReadAgain(a, Scan(y, types), more, types);
      }
    }
    hide Classify, Scan, Join, Piece, Taking;
    if args == [] { ScanNothing(types); }
  }

  lemma ScanNothing(types: Types)
    ensures Scan([], types) == NOTHING
  {
  }

  lemma PieceReadAgain(a: string, q: Parsed, more: seq<string>, types: Types)
    requires Classify(a, types).Plain? || Classify(a, types).Complete?
    requires Scan(q.options + more, types) == Resume(q, more, types)
    ensures Scan(Join(Piece(a, types), q).options + more, types) == Resume(Join(Piece(a, types), q), more, types)
  {
    hide Classify, Scan, Join, Piece, Resume;
    PieceFields(a, types);
    JoinFields(Piece(a, types), q);
    ResumeJoin(Piece(a, types), q, more, types);
    var x := q.options + more;
    if Classify(a, types).Plain? {
      assert [] + q.options + more == x;
      JoinNothing(Resume(q, more, types));
    } else {
      assert [a] + q.options + more == [a] + x;
      ScanOne(a, x, types);
      assert Piece(a, types).(nonoptions := []) == Piece(a, types);
    }
  }

  lemma TakingFields(a: string, name: string, b: string)
    ensures Taking(a, name, b).options == [a, b] && Taking(a, name, b).nonoptions == []
    ensures Taking(a, name, b).(nonoptions := []) == Taking(a, name, b)
  {
  }

  lemma TakingReadAgain(a: string, b: string, name: string, q: Parsed, more: seq<string>, types: Types)
    requires Classify(a, types) == Waiting(name)
    requires Scan(q.options + more, types) == Resume(q, more, types)
    ensures var f := Taking(a, name, b); Scan(Join(f, q).options + more, types) == Resume(Join(f, q), more, types)
  {
    hide Classify, Scan, Join, Resume, Taking;
    var f := Taking(a, name, b);
    TakingFields(a, name, b);
    JoinFields(f, q);
    ResumeJoin(f, q, more, types);
    var x := q.options + more;
    assert [a, b] + q.options + more == [a, b] + x;
    ScanTwo(a, b, x, types);
    assert f.(nonoptions := []) == f && f.options == [a, b];
  }

  /** A last option without its value takes the next argument when there is one. */
  function Supplied(p: Parsed, v: string): Parsed
    requires p.missing.Some?
  {
    p.(options := p.options + [v], nonoptions := [], assignments := p.assignments + [(p.missing.value, v)],
      missing := None)
  }

  /** p's options, read again with the value v supplied and more after it. */
  ghost predicate TakesNext(p: Parsed, v: string, more: seq<string>, types: Types) {
    p.missing.Some? &&
    Scan(p.options, types) == p.(nonoptions := []) &&
    Scan(p.options + ([v] + more), types) == Join(Supplied(p, v), Scan(more, types))
  }

  lemma SuppliedJoin(f: Parsed, q: Parsed, v: string, s: Parsed)
    requires q.missing.Some?
    ensures Join(f.(nonoptions := []), q.(nonoptions := [])) == Join(f, q).(nonoptions := [])
    ensures Join(f.(nonoptions := []), Join(Supplied(q, v), s)) == Join(Supplied(Join(f, q), v), s)
  {
    JoinAssociates(f.(nonoptions := []), Supplied(q, v), s);
    assert f.options + (q.options + [v]) == f.options + q.options + [v];
    var t := [(q.missing.value, v)];
    assert f.assignments + (q.assignments + t) == f.assignments + q.assignments + t;
  }

  lemma {:induction false} SuppliedReadAgain(args: seq<string>, v: string, more: seq<string>, types: Types)
    requires Scan(args, types).missing.Some?
    ensures TakesNext(Scan(args, types), v, more, types)
    decreases |args|
  {
    hide Classify, Scan, Join, Piece, Taking, TakesNext;
    if args == [] { ScanNothing(types); } else {
      var a, y := SplitOff(args, types);
      PieceFields(a, types);
      match Classify(a, types) {
        case Dashes => ScanLast(a, y, types);
        case Waiting(name) =>
          ScanLast(a, y, types);
          if y == [] {
            LastTakesNext(a, v, more, types);
            assert args == [a];
          } else {
            var b, z := SplitOff(y, types);
            assert args == [a, b] + z;
            ScanTwo(a, b, z, types);
            JoinFields(Taking(a, name, b), Scan(z, types));
            SuppliedReadAgain(z, v, more, types);
            TakingTakesNext(a, b, name, Scan(z, types), v, more, types);
          }
        case _ =>
          ScanOne(a, y, types);
          JoinFields(Piece(a, types), Scan(y, types));
          SuppliedReadAgain(y, v, more, types);
          PieceTakesNext(a, Scan(y, types), v, more, types);
      }
    }
  }

  lemma LastTakesNext(a: string, v: string, more: seq<string>, types: Types)
    requires Classify(a, types).Waiting?
    ensures TakesNext(Piece(a, types), v, more, types)
  {
    hide Classify, Scan, Join;
    ScanLast(a, [], types);
    ScanTwo(a, v, more, types);
    assert [a] + ([v] + more) == [a, v] + more;
    assert Supplied(Piece(a, types), v) == Taking(a, Classify(a, types).name, v);
    assert Piece(a, types).options == [a];
  }

  lemma PieceTakesNext(a: string, q: Parsed, v: string, more: seq<string>, types: Types)
    requires Classify(a, types).Plain? || Classify(a, types).Complete?
    requires TakesNext(q, v, more, types)
    ensures TakesNext(Join(Piece(a, types), q), v, more, types)
  {
    hide Classify, Scan, Join, Piece, Supplied;
    PieceFields(a, types);
    JoinFields(Piece(a, types), q);
    SuppliedJoin(Piece(a, types), q, v, Scan(more, types));
    var x := q.options + ([v] + more);
    if Classify(a, types).Plain? {
      assert [] + q.options + ([v] + more) == x && [] + q.options == q.options;
      JoinNothing(q.(nonoptions := []));
      JoinNothing(Join(Supplied(q, v), Scan(more, types)));
    } else {
      assert [a] + q.options + ([v] + more) == [a] + x;
      ScanOne(a, x, types);
      ScanOne(a, q.options, types);
      assert Piece(a, types).(nonoptions := []) == Piece(a, types);
    }
  }

  lemma TakingTakesNext(a: string, b: string, name: string, q: Parsed, v: string, more: seq<string>, types: Types)
    requires Classify(a, types) == Waiting(name)
    requires TakesNext(q, v, more, types)
    ensures TakesNext(Join(Taking(a, name, b), q), v, more, types)
  {
    hide Classify, Scan, Join, Supplied, Taking;
    var f := Taking(a, name, b);
    JoinFields(f, q);
    SuppliedJoin(f, q, v, Scan(more, types));
    var x := q.options + ([v] + more);
    assert [a, b] + q.options + ([v] + more) == [a, b] + x;
    ScanTwo(a, b, x, types);
    ScanTwo(a, b, q.options, types);
    TakingFields(a, name, b);
  }

  /** Parsing the permuted arguments once more finds the same settings and leaves the arguments alone,
      exactly unless the last option lacks its value and there is another argument it can take. */
  lemma ReparseIsStable(args: seq<string>, types: Types)
    ensures var p := Scan(args, types); var again := Scan(Permuted(p), types);
      && (p.missing.None? || p.nonoptions == [] <==> again.assignments == p.assignments)
      && (p.missing.None? || p.nonoptions == [] ==>
        Permuted(again) == Permuted(p) && again.unknown == p.unknown && again.missing == p.missing)
      && (p.missing.None? && !p.dashes ==> again == p)
  {
    hide Scan, NoOptions, Permuted, Resume, TakesNext;
    var p := Scan(args, types);
    NonOptionsAreNone(args, types);
    RestOnlyAfterDashes(args, types);
    if p.missing.None? {
      OptionsReadAgain(args, p.rest + p.nonoptions, types);
      CompleteReparse(p, types);
    } else {
      SuppliedReadAgain(args, if p.nonoptions == [] then "" else p.nonoptions[0],
                        if p.nonoptions == [] then [] else p.nonoptions[1..], types);
      IncompleteReparse(p, types);
    }
  }

  lemma CompleteReparse(p: Parsed, types: Types)
    requires p.missing.None? && NoOptions(p.nonoptions) && (!p.dashes ==> p.rest == [])
    requires Scan(p.options + (p.rest + p.nonoptions), types) == Resume(p, p.rest + p.nonoptions, types)
    ensures var again := Scan(Permuted(p), types);
      Permuted(again) == Permuted(p) && again.assignments == p.assignments && again.unknown == p.unknown &&
        again.missing.None? && (!p.dashes ==> again == p)
  {
    hide Scan, NoOptions;
    assert Permuted(p) == p.options + (p.rest + p.nonoptions);
    if !p.dashes {
      assert p.rest + p.nonoptions == p.nonoptions;
      OnlyNonOptions(p.nonoptions, types);
      assert Join(p.(nonoptions := []), NOTHING.(nonoptions := p.nonoptions)) == p;
    } else {
      assert p.options + (p.rest + p.nonoptions) + [] == Permuted(p);
    }
  }

  lemma IncompleteReparse(p: Parsed, types: Types)
    requires p.rest == [] && NoOptions(p.nonoptions)
    requires TakesNext(p, if p.nonoptions == [] then "" else p.nonoptions[0],
                       if p.nonoptions == [] then [] else p.nonoptions[1..], types)
    ensures var again := Scan(Permuted(p), types);
      if p.nonoptions == [] then again == p else |again.assignments| == |p.assignments| + 1
  {
    hide Scan, IsOption;
    if p.nonoptions == [] {
      assert Permuted(p) == p.options;
    } else {
      var v, more := p.nonoptions[0], p.nonoptions[1..];
      assert Permuted(p) == p.options + ([v] + more);
      OnlyNonOptions(more, types);
      JoinFields(Supplied(p, v), Scan(more, types));
    }
  }
}

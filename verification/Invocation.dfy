/** What a command line of gflags.cc says. It is written down as a list of items, each with the value it means; that
    the parser finds these items and makes these values is proved here. The forms and the meanings are given as
    such, not by the functions that read them. */
module Invocation {
  import opened Wrappers
  import opened FlagValues
  import opened FlagSemantics
  import opened CommandLine
  import opened FlagFile
  import opened FlagRecursion

  /** What can stand on a command line: a word that is no option; a boolean flag switched on, or off with "no"; a flag
      and its text in one argument, or in two; and an option that is no flag's. */
  datatype Item =
    | Word(arg: string)
    | On(dashes: string, name: string)
    | Off(dashes: string, name: string, extra: string)
    | Joined(dashes: string, name: string, text: string)
    | Apart(dashes: string, name: string, text: string)
    | Stray(dashes: string, key: string, extra: string)

  /** Nothing, or an equals sign and any text. */
  predicate IsExtra(extra: string) { extra == "" || extra[0] == '=' }

  /** One or two dashes stand before the body of an option. */
  predicate Dashed(dashes: string, body: string) {
    body != "" && (dashes == "--" || (dashes == "-" && body[0] != '-'))
  }

  ghost predicate Fits(item: Item, types: Types) {
    match item
    case Word(arg) => |arg| < 2 || arg[0] != '-'
    case On(dashes, name) => Dashed(dashes, name) && '=' !in name && name in types && types[name] == FvBool
    case Off(dashes, name, extra) =>
      && (dashes == "-" || dashes == "--") && '=' !in name && IsExtra(extra)
      && name in types && types[name] == FvBool && "no" + name !in types
    case Joined(dashes, name, text) => Dashed(dashes, name + "=") && '=' !in name && name in types
    case Apart(dashes, name, text) => Dashed(dashes, name) && '=' !in name && name in types && types[name] != FvBool
    case Stray(dashes, key, extra) =>
      && Dashed(dashes, key + extra) && '=' !in key && IsExtra(extra) && key !in types
      && forall name :: name in types && types[name] == FvBool ==> key != "no" + name
  }

  /** The item as arguments. */
  function Written(item: Item): seq<string> {
    match item
    case Word(arg) => [arg]
    case On(dashes, name) => [dashes + name]
    case Off(dashes, name, extra) => [dashes + ("no" + name + extra)]
    case Joined(dashes, name, text) => [dashes + (name + "=" + text)]
    case Apart(dashes, name, text) => [dashes + name, text]
    case Stray(dashes, key, extra) => [dashes + (key + extra)]
  }

  /** Flags and the values they are to get; no value where the text is not legal for the type. */
  type Said = seq<(string, Option<Value>)>

  function Says(item: Item, types: Types): Said {
    match item
    case On(_, name) => [(name, Some(BoolValue(true)))]
    case Off(_, name, _) => [(name, Some(BoolValue(false)))]
    case Joined(_, name, text) => if name in types then [(name, ParseFrom(types[name], text))] else []
    case Apart(_, name, text) => if name in types then [(name, ParseFrom(types[name], text))] else []
    case _ => []
  }

  /** How a command line ends: with its last item; with "--", behind which nothing is an option; or with a flag
      whose text is missing. */
  datatype End = Over | Cut(rest: seq<string>) | Missing(dashes: string, name: string)

  ghost predicate EndFits(end: End, types: Types) {
    end.Missing? ==>
      Dashed(end.dashes, end.name) && '=' !in end.name && end.name in types && types[end.name] != FvBool
  }

  function EndWritten(end: End): seq<string> {
    match end
    case Over => []
    case Cut(rest) => ["--"] + rest
    case Missing(dashes, name) => [dashes + name]
  }

  function EndOption(end: End): seq<string> {
    match end
    case Over => []
    case Cut(_) => ["--"]
    case Missing(dashes, name) => [dashes + name]
  }

  ghost predicate AllFit(items: seq<Item>, types: Types) {
    forall k :: 0 <= k < |items| ==> Fits(items[k], types)
  }

  function AllWritten(items: seq<Item>): seq<string> {
    if items == [] then [] else Written(items[0]) + AllWritten(items[1..])
  }

  function AllSaid(items: seq<Item>, types: Types): Said {
    if items == [] then [] else Says(items[0], types) + AllSaid(items[1..], types)
  }

  /** The arguments that are options, with the texts they take. */
  function Options(items: seq<Item>): seq<string> {
    if items == [] then [] else (if items[0].Word? then [] else Written(items[0])) + Options(items[1..])
  }

  function Words(items: seq<Item>): seq<string> {
    if items == [] then [] else (if items[0].Word? then [items[0].arg] else []) + Words(items[1..])
  }

  function Strays(items: seq<Item>): set<string> {
    if items == [] then {} else (if items[0].Stray? then {items[0].key} else {}) + Strays(items[1..])
  }

  /** The settings are for these flags, in this order, and their texts mean these values. */
  ghost predicate Agree(a: Assignments, said: Said, types: Types) {
    |a| == |said| && forall k :: 0 <= k < |a| ==>
      a[k].0 == said[k].0 && a[k].0 in types && ParseFrom(types[a[k].0], a[k].1) == said[k].1
  }

  lemma AgreeConcat(a: Assignments, b: Assignments, s: Said, t: Said, types: Types)
    requires Agree(a, s, types) && Agree(b, t, types)
    ensures Agree(a + b, s + t, types)
  {
    hide ParseFrom;
  }

  // ---------------------------------------------------------------------------
  // Reading one item

  lemma Stripped(dashes: string, body: string)
    requires Dashed(dashes, body)
    ensures IsOption(dashes + body) && dashes + body != "--" && StripDashes(dashes + body) == body
  {
    var arg := dashes + body;
    if dashes == "--" {
      assert arg[2..] == body;
    } else {
      assert arg[1] == body[0] && arg[1..] == body;
    }
  }

  lemma EqualsAt(key: string, extra: string)
    requires '=' !in key && IsExtra(extra)
    ensures IndexOf(key + extra, '=') == |key| && (key + extra)[..|key|] == key
    ensures extra != "" ==> extra == "=" + extra[1..] && (key + extra)[|key| + 1..] == extra[1..]
  {
    IndexIs(key + extra, '=', |key|);
  }

  lemma SwitchTexts()
    ensures ParseFrom(FvBool, "1") == Some(BoolValue(true)) && ParseFrom(FvBool, "0") == Some(BoolValue(false))
  {
    BooleansRead("1");
    BooleansRead("0");
  }

  /** The flag and the text in a switched on flag. */
  lemma OnSplits(name: string, types: Types)
    requires '=' !in name && name in types && types[name] == FvBool
    ensures var s := SplitArgument(name, types);
      s.Known? && s.name == name && s.text.Some? && ParseFrom(FvBool, s.text.value) == Some(BoolValue(true))
  {
    hide IndexOf, ParseFrom;
    EqualsAt(name, "");
    assert name + "" == name;
    SwitchTexts();
  }

  lemma OffSplits(name: string, extra: string, types: Types)
    requires '=' !in name && IsExtra(extra)
    requires name in types && types[name] == FvBool && "no" + name !in types
    ensures var s := SplitArgument("no" + name + extra, types);
      s.Known? && s.name == name && s.text.Some? && ParseFrom(FvBool, s.text.value) == Some(BoolValue(false))
  {
    hide IndexOf, ParseFrom;
    EqualsAt("no" + name, extra);
    assert ("no" + name)[2..] == name;
    SwitchTexts();
  }

  lemma JoinedSplits(name: string, text: string, types: Types)
    requires '=' !in name && name in types
    ensures SplitArgument(name + "=" + text, types) == Known(name, Some(text))
  {
    hide IndexOf;
    EqualsAt(name, "=" + text);
    assert name + "=" + text == name + ("=" + text) && ("=" + text)[1..] == text;
  }

  lemma LoneSplits(name: string, types: Types)
    requires '=' !in name && name in types && types[name] != FvBool
    ensures SplitArgument(name, types) == Known(name, None)
  {
    hide IndexOf;
    EqualsAt(name, "");
    assert name + "" == name;
  }

  lemma StraySplits(key: string, extra: string, types: Types)
    requires '=' !in key && IsExtra(extra) && key !in types
    requires forall name :: name in types && types[name] == FvBool ==> key != "no" + name
    ensures SplitArgument(key + extra, types) == Unknown(key)
  {
    hide IndexOf;
    EqualsAt(key, extra);
    if "no" <= key { assert key == "no" + key[2..]; }
  }

  // ---------------------------------------------------------------------------
  // Reading them all

  /** What was found is what one item says. */
  ghost predicate IsFound(p: Parsed, item: Item, types: Types) {
    && p.options == (if item.Word? then [] else Written(item))
    && p.nonoptions == (if item.Word? then [item.arg] else [])
    && p.unknown == (if item.Stray? then {item.key} else {})
    && !p.dashes && p.rest == [] && p.missing.None?
    && Agree(p.assignments, Says(item, types), types)
  }

  /** The argument of an item that takes only one. */
  lemma OneArgument(item: Item, types: Types)
    requires Fits(item, types) && !item.Apart?
    ensures Written(item) == [Written(item)[0]]
    ensures var k := Classify(Written(item)[0], types);
      (k.Plain? || k.Complete?) && IsFound(Piece(Written(item)[0], types), item, types)
  {
    hide SplitArgument, StripDashes, IsOption, ParseFrom;
    match item
    case Word(arg) => PlainIsNoOption(arg, types); ShortIsNoOption(arg);
    case On(dashes, name) => Stripped(dashes, name); OnSplits(name, types);
    case Off(dashes, name, extra) => Stripped(dashes, "no" + name + extra); OffSplits(name, extra, types);
    case Joined(dashes, name, text) => Stripped(dashes, name + "=" + text); JoinedSplits(name, text, types);
    case Stray(dashes, key, extra) => Stripped(dashes, key + extra); StraySplits(key, extra, types);
  }

  lemma ShortIsNoOption(arg: string)
    requires |arg| < 2 || arg[0] != '-'
    ensures !IsOption(arg)
  {
  }

  lemma TwoArguments(item: Item, types: Types)
    requires Fits(item, types) && item.Apart?
    ensures Classify(Written(item)[0], types) == Waiting(item.name)
    ensures IsFound(Taking(Written(item)[0], item.name, item.text), item, types)
  {
    hide SplitArgument, StripDashes, IsOption, ParseFrom;
    Stripped(item.dashes, item.name);
    LoneSplits(item.name, types);
  }

  lemma ItemScanned(item: Item, more: seq<string>, types: Types) returns (found: Parsed)
    requires Fits(item, types)
    ensures IsFound(found, item, types) && Scan(Written(item) + more, types) == Join(found, Scan(more, types))
  {
    hide Fits, Classify, IsFound, Piece, Taking, Scan, Join;
    var a := Written(item)[0];
    if item.Apart? {
      TwoArguments(item, types);
      ScanTwo(a, item.text, more, types);
      found := Taking(a, item.name, item.text);
    } else {
      OneArgument(item, types);
      ScanOne(a, more, types);
      found := Piece(a, types);
    }
  }

  lemma EndScanned(end: End, types: Types)
    requires EndFits(end, types)
    ensures Reads(Scan(EndWritten(end), types), [], end, types)
  {
    hide SplitArgument, StripDashes, IsOption, ParseFrom, Scan;
    match end
    case Over => ScanNothing(types);
    case Cut(rest) => ScanLast("--", rest, types); CutIsCut(types);
    case Missing(dashes, name) =>
      Stripped(dashes, name);
      LoneSplits(name, types);
      ScanLast(dashes + name, [], types);
  }

  lemma CutIsCut(types: Types)
    ensures Classify("--", types).Dashes?
  {
  }

  /** The command line is read as it is written. */
  ghost predicate Reads(p: Parsed, items: seq<Item>, end: End, types: Types) {
    && p.options == Options(items) + EndOption(end)
    && p.dashes == end.Cut?
    && p.rest == (match end case Cut(rest) => rest case _ => [])
    && p.nonoptions == Words(items)
    && p.missing == (match end case Missing(_, name) => Some(name) case _ => None)
    && p.unknown == Strays(items)
    && Agree(p.assignments, AllSaid(items, types), types)
  }

  /** One more item before the others. */
  lemma OneMoreRead(found: Parsed, item: Item, p: Parsed, items: seq<Item>, end: End, types: Types)
    requires IsFound(found, item, types) && Reads(p, items, end, types)
    ensures Reads(Join(found, p), [item] + items, end, types)
  {
    hide ParseFrom, Agree, Written, Says, EndOption;
    assert ([item] + items)[1..] == items;
    AgreeConcat(found.assignments, p.assignments, Says(item, types), AllSaid(items, types), types);
    assert found.options + (Options(items) + EndOption(end)) == Options([item] + items) + EndOption(end);
  }

  /** For every command line: the parser finds the items it is made of, and makes settings for just the flags that are
      given, in that order and with texts that mean the values that are said. */
  lemma {:induction false} CommandLineIsRead(items: seq<Item>, end: End, types: Types)
    requires AllFit(items, types) && EndFits(end, types)
    ensures Reads(Scan(AllWritten(items) + EndWritten(end), types), items, end, types)
  {
    hide Fits, Scan, Join, IsFound, Written, EndWritten, Reads, EndFits;
    if items == [] {
      EndScanned(end, types);
      assert AllWritten([]) + EndWritten(end) == EndWritten(end);
    } else {
      var more := AllWritten(items[1..]) + EndWritten(end);
      CommandLineIsRead(items[1..], end, types);
      var found := ItemScanned(items[0], more, types);
      OneMoreRead(found, items[0], Scan(more, types), items[1..], end, types);
      assert [items[0]] + items[1..] == items;
      assert AllWritten(items) + EndWritten(end) == Written(items[0]) + more;
    }
  }

  lemma OptionParts(a: string) returns (dashes: string, key: string, extra: string)
    requires IsOption(a) && a != "--"
    ensures Dashed(dashes, key + extra) && '=' !in key && IsExtra(extra) && a == dashes + (key + extra)
  {
    var body := StripDashes(a);
    dashes := if a[1] == '-' then "--" else "-";
    assert a == dashes + body;
    var e := IndexOf(body, '=');
    key, extra := body[..e], body[e..];
    assert key + extra == body;
  }

  /** One option is one of the items, or a flag that waits for its text. */
  lemma EveryOption(a: string, types: Types) returns (item: Item, waits: bool)
    requires IsOption(a) && a != "--"
    ensures !waits ==> Fits(item, types) && Written(item) == [a]
    ensures waits ==> item.Apart? && Fits(item, types) && a == item.dashes + item.name
  {
    hide IsOption;
    var dashes, key, extra := OptionParts(a);
    waits := false;
    if key in types {
      if extra != "" {
        assert extra == "=" + extra[1..] && key + extra == key + "=" + extra[1..];
        assert (key + extra)[0] == (key + "=")[0];
        item := Joined(dashes, key, extra[1..]);
      } else {
        assert key + extra == key;
        waits := types[key] != FvBool;
        item := if waits then Apart(dashes, key, "") else On(dashes, key);
      }
    } else if "no" <= key && key[2..] in types && types[key[2..]] == FvBool {
      assert key == "no" + key[2..];
      item := Off(dashes, key[2..], extra);
    } else {
      forall name | name in types && types[name] == FvBool
        ensures key != "no" + name
      {
        assert ("no" + name)[2..] == name && "no" <= "no" + name;
      }
      item := Stray(dashes, key, extra);
    }
  }

  lemma ItemFirst(item: Item, items: seq<Item>, end: End, types: Types)
    requires Fits(item, types) && AllFit(items, types)
    ensures AllFit([item] + items, types)
    ensures AllWritten([item] + items) + EndWritten(end) == Written(item) + (AllWritten(items) + EndWritten(end))
  {
    hide Fits;
    assert ([item] + items)[1..] == items;
  }

  /** There is no other command line: each one is made of items and an end. */
  lemma {:induction false} EveryCommandLine(args: seq<string>, types: Types) returns (items: seq<Item>, end: End)
    ensures AllFit(items, types) && EndFits(end, types)
    ensures args == AllWritten(items) + EndWritten(end)
  {
    hide IsOption, Fits;
    if args == [] {
      items, end := [], Over;
    } else if args[0] == "--" {
      items, end := [], Cut(args[1..]);
    } else {
      var item, waits := Word(args[0]), false;
      if IsOption(args[0]) { item, waits := EveryOption(args[0], types); } else { NoOptionFits(args[0], types); }
      if waits && |args| == 1 {
        items, end := [], Missing(item.dashes, item.name);
        WaitingFits(item, types);
      } else {
        if waits { item := AnyTextFits(item, args[1], types); }
        items, end := EveryCommandLine(args[|Written(item)|..], types);
        ItemFirst(item, items, end, types);
        items := [item] + items;
      }
    }
  }

  lemma NoOptionFits(arg: string, types: Types)
    requires !IsOption(arg)
    ensures Fits(Word(arg), types)
  {
  }

  lemma WaitingFits(item: Item, types: Types)
    requires item.Apart? && Fits(item, types)
    ensures EndFits(Missing(item.dashes, item.name), types)
  {
  }

  lemma AnyTextFits(item: Item, text: string, types: Types) returns (given: Item)
    requires item.Apart? && Fits(item, types)
    ensures Fits(given, types) && Written(given) == [item.dashes + item.name, text]
  {
    given := Apart(item.dashes, item.name, text);
  }

  // ---------------------------------------------------------------------------
  // What the flags are afterwards

  /** The last value that is said for a flag and accepted by it. */
  function Latest(f: FlagState, said: Said): Option<Value> {
    if said == [] then None
    else
      var (name, v) := said[|said| - 1];
      if name == f.name && v.Some? && Accepts(f, v.value) then v else Latest(f, said[..|said| - 1])
  }

  ghost predicate Mentioned(name: string, said: Said) {
    exists k :: 0 <= k < |said| && said[k].0 == name
  }

  /** An illegal text is given for the flag, or a value that its validator refuses. */
  ghost predicate Refused(f: FlagState, said: Said) {
    exists k :: 0 <= k < |said| && said[k].0 == f.name && (said[k].1 == None || !Accepts(f, said[k].1.value))
  }

  /** What explicit settings make of a flag: the last legal one counts, the default stays, and the flag is marked as
      modified by a legal one, or if any finds it changed from its default. */
  ghost predicate Obeys(g: FlagState, f: FlagState, said: Said) {
    && SameFlag(g, f)
    && g.current == OrElse(Latest(f, said), f.current)
    && g.defvalue == f.defvalue
    && (g.modified <==>
         f.modified || Latest(f, said).Some? || (Mentioned(f.name, said) && f.current != f.defvalue))
  }

  lemma MentionedMore(name: string, said: Said, other: string, v: Option<Value>)
    ensures Mentioned(name, said + [(other, v)]) <==> Mentioned(name, said) || other == name
  {
    var all := said + [(other, v)];
    assert all[|said|] == (other, v);
    if Mentioned(name, said) {
      var k :| 0 <= k < |said| && said[k].0 == name;
      assert all[k].0 == name;
    }
  }

  lemma RefusedMore(f: FlagState, said: Said, name: string, v: Option<Value>)
    ensures Refused(f, said + [(name, v)]) <==>
      Refused(f, said) || (name == f.name && (v == None || !Accepts(f, v.value)))
  {
    hide Accepts;
    var all := said + [(name, v)];
    assert all[|said|] == (name, v);
    if Refused(f, said) {
      var k :| 0 <= k < |said| && said[k].0 == f.name && (said[k].1 == None || !Accepts(f, said[k].1.value));
      assert all[k] == said[k];
    }
  }

  /** One more setting of a flag that has obeyed those before it. */
  lemma ObeysMore(g: FlagState, f: FlagState, said: Said, text: string, v: Option<Value>)
    requires Obeys(g, f, said) && ParseFrom(f.ty, text) == v
    ensures Obeys(SetFlag(g, text, SetFlagsValue).0, f, said + [(f.name, v)])
    ensures SetFlag(g, text, SetFlagsValue).1 <==> v.Some? && Accepts(f, v.value)
  {
    hide ParseFrom, Mentioned;
    var all := said + [(f.name, v)];
    assert all[..|said|] == said;
    MentionedMore(f.name, said, f.name, v);
  }

  lemma ObeysOther(g: FlagState, f: FlagState, said: Said, other: string, v: Option<Value>)
    requires Obeys(g, f, said) && other != f.name
    ensures Obeys(g, f, said + [(other, v)])
  {
    hide Mentioned;
    assert (said + [(other, v)])[..|said|] == said;
    MentionedMore(f.name, said, other, v);
  }

  /** Every flag obeys what is said, and has an error if something is refused. */
  ghost predicate AllObey(r: World, w: World, said: Said) {
    && r.flags.Keys == w.flags.Keys && r.status == w.status && r.undefined == w.undefined
    && (forall n :: n in w.flags ==> Obeys(r.flags[n], w.flags[n], said))
    && (forall n :: n in r.errors <==> n in w.errors || (n in w.flags && Refused(w.flags[n], said)))
  }

  lemma AllObeyMore(r: World, w: World, said: Said, name: string, text: string, v: Option<Value>)
    requires AllObey(r, w, said) && WellFormed(w.flags) && name in w.flags && ParseFrom(w.flags[name].ty, text) == v
    ensures AllObey(Assign(r, name, text, SetFlagsValue), w, said + [(name, v)])
  {
    hide ParseFrom, Obeys, Refused, SetFlag, Accepts, Typed;
    var r' := Assign(r, name, text, SetFlagsValue);
    forall n | n in w.flags
      ensures Obeys(r'.flags[n], w.flags[n], said + [(name, v)])
    {
      if n == name { ObeysMore(r.flags[n], w.flags[n], said, text, v); }
      else { ObeysOther(r.flags[n], w.flags[n], said, name, v); }
    }
    forall n
      ensures n in r'.errors <==> n in w.errors || (n in w.flags && Refused(w.flags[n], said + [(name, v)]))
    {
      if n in w.flags { RefusedMore(w.flags[n], said, name, v); }
      if n == name { ObeysMore(r.flags[n], w.flags[n], said, text, v); }
    }
  }

  /** Settings that agree with what is said are obeyed by every flag. */
  lemma {:induction false} SettingsAreObeyed(w: World, a: Assignments, said: Said)
    requires WellFormed(w.flags) && Agree(a, said, TypesOf(w.flags))
    ensures AllObey(AssignAll(w, a, SetFlagsValue), w, said)
  {
    hide ParseFrom, Assign, AllObey, WellFormed;
    if a == [] {
      NothingIsObeyed(w);
    } else {
      var last := |a| - 1;
      assert a == a[..last] + [a[last]] && said == said[..last] + [said[last]];
      SettingsAreObeyed(w, a[..last], said[..last]);
      AllObeyMore(AssignAll(w, a[..last], SetFlagsValue), w, said[..last], a[last].0, a[last].1, said[last].1);
    }
  }

  lemma NothingIsObeyed(w: World)
    ensures AllObey(w, w, [])
  {
  }

  /** None of the flags that set other flags is mentioned. */
  ghost predicate SetsNoOthers(said: Said) {
    forall k :: 0 <= k < |said| ==> said[k].0 !in {"flagfile", "fromenv", "tryfromenv"}
  }

  lemma SettingsAreQuiet(a: Assignments, said: Said, types: Types)
    requires Agree(a, said, types) && SetsNoOthers(said)
    ensures Quiet(a)
  {
    hide ParseFrom;
  }

  /** The state after a command line: every flag obeys; errors are noted for what is refused, for what is no flag, and
      for a missing text. */
  ghost predicate Told(r: World, w: World, items: seq<Item>, end: End) {
    var said := AllSaid(items, TypesOf(w.flags));
    && r.flags.Keys == w.flags.Keys && r.status == w.status
    && (forall n :: n in w.flags ==> Obeys(r.flags[n], w.flags[n], said))
    && r.undefined == w.undefined + Strays(items)
    && (forall n :: n in r.errors <==>
          || n in w.errors || (n in w.flags && Refused(w.flags[n], said))
          || n in Strays(items) || (end.Missing? && n == end.name))
  }

  /** Settings that agree with what is said are obeyed, if they lead to no others. */
  lemma SaidIsObeyed(w: World, a: Assignments, said: Said, host: Host)
    requires WellFormed(w.flags) && w.status == Running
    requires Agree(a, said, TypesOf(w.flags)) && SetsNoOthers(said)
    ensures AllObey(ProcessAll(w, a, SetFlagsValue, host), w, said)
  {
    hide Agree, SetsNoOthers, AssignAll, ProcessAll, WellFormed, AllObey, TypesOf;
    SettingsAreQuiet(a, said, TypesOf(w.flags));
    QuietIsPlain(w, a, host);
    SettingsAreObeyed(w, a, said);
  }

  /** A single switch: a boolean flag that is named alone is true afterwards, and with "no" it is false. */
  lemma OneSwitch(r: World, w: World, dashes: string, name: string)
    requires name in w.flags && w.flags[name].name == name && w.flags[name].validator == None
    ensures Told(r, w, [On(dashes, name)], Over) ==> r.flags[name].current == BoolValue(true)
    ensures Told(r, w, [Off(dashes, name, "")], Over) ==> r.flags[name].current == BoolValue(false)
  {
    hide Refused, Strays, Mentioned, TypesOf;
    var types := TypesOf(w.flags);
    assert AllSaid([On(dashes, name)], types) == [(name, Some(BoolValue(true)))];
    assert AllSaid([Off(dashes, name, "")], types) == [(name, Some(BoolValue(false)))];
  }
}

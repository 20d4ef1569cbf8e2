/** What --flagfile, --fromenv and --tryfromenv of gflags.cc say: the flags they lead to, and to which values. */
module FlagSources {
  import opened Wrappers
  import opened FlagValues
  import opened FlagSemantics
  import opened CommandLine
  import opened FlagFile
  import opened FlagRecursion
  import opened Invocation
  import opened FlagSections

  // ---------------------------------------------------------------------------
  // Lists

  function Commas(names: seq<string>): string {
    if names == [] then "" else if |names| == 1 then names[0] else names[0] + "," + Commas(names[1..])
  }

  ghost predicate IsList(names: seq<string>) {
    names != [] && forall k :: 0 <= k < |names| ==>
      names[k] != "" && names[k][0] != '-' && ',' !in names[k] && '\0' !in names[k]
  }

  lemma {:induction false} CommasAreRead(names: seq<string>)
    requires IsList(names)
    ensures FlagList(Commas(names)) == Some(names) && '\0' !in Commas(names) && Commas(names) != ""
  {
    hide IndexOf;
    var text := Commas(names);
    if |names| == 1 {
      assert text[..|text|] == names[0] && names == [names[0]];
      IndexIs(text, ',', |text|);
    } else {
      CommasAreRead(names[1..]);
      assert text[..|names[0]|] == names[0] && text[|names[0]| + 1..] == Commas(names[1..]);
      IndexIs(text, ',', |names[0]|);
      assert names == [names[0]] + names[1..];
    }
  }

  lemma ListIsRead(names: seq<string>)
    requires IsList(names)
    ensures var text := Commas(names); text != "" && FlagList(text[..IndexOf(text, '\0')]) == Some(names)
  {
    hide IndexOf, FlagList, Commas;
    var text := Commas(names);
    CommasAreRead(names);
    assert text[..|text|] == text;
    IndexIs(text, '\0', |text|);
  }

  // ---------------------------------------------------------------------------
  // Files

  datatype File = File(before: seq<Line>, sections: seq<Section>, end: string)

  ghost predicate AreFiles(names: seq<string>, files: seq<File>, types: Types, host: Host) {
    |names| == |files| && forall k :: 0 <= k < |names| ==>
      names[k] in host.files
      && IsFile(host.files[names[k]], files[k].before, files[k].sections, files[k].end, types)
  }

  ghost function FilesSaid(files: seq<File>, types: Types, matches: Matcher): Said {
    if files == [] then []
    else BodySaid(files[0].before, types) + SectionsSaid(files[0].sections, types, matches)
         + FilesSaid(files[1..], types, matches)
  }

  /** The files are read in their order, up to one that is not there. */
  lemma {:induction false} FilesAreRead(names: seq<string>, files: seq<File>, rest: seq<string>, types: Types,
                                        host: Host)
    requires AreFiles(names, files, types, host) && (rest != [] ==> rest[0] !in host.files)
    ensures var x := FromFiles(names + rest, types, host);
      && Agree(x.settings, FilesSaid(files, types, host.matches), types)
      && x.errors == {} && x.undefined == {} && x.exits == (rest != [])
  {
    hide Settings, IsFile, BodySaid, SectionsSaid, Agree;
    if names == [] {
      assert names + rest == rest;
      NothingAgrees(types);
    } else {
      var f, more := files[0], FromFiles(names[1..] + rest, types, host).settings;
      assert (names + rest)[1..] == names[1..] + rest;
      FilesAreRead(names[1..], files[1..], rest, types, host);
      SectionedFileReads(host.files[names[0]], f.before, f.sections, f.end, types, host.matches);
      AgreeConcat(Settings(host.files[names[0]], types, host.matches), more,
                  BodySaid(f.before, types) + SectionsSaid(f.sections, types, host.matches),
                  FilesSaid(files[1..], types, host.matches), types);
    }
  }

  // ---------------------------------------------------------------------------
  // A recursive flag and what it leads to

  lemma {:induction false} AssignAllConcat(w: World, a: Assignments, b: Assignments, mode: Mode)
    ensures AssignAll(w, a + b, mode) == AssignAll(AssignAll(w, a, mode), b, mode)
    decreases |b|
  {
    hide Assign;
    if b == [] {
      assert a + b == a;
    } else {
      assert (a + b)[..|a + b| - 1] == a + b[..|b| - 1];
      AssignAllConcat(w, a, b[..|b| - 1], mode);
    }
  }

  lemma AssignOnly(w: World, name: string, text: string, mode: Mode)
    ensures AssignAll(w, [(name, text)], mode) == Assign(w, name, text, mode)
  {
    hide Assign;
    assert [(name, text)][..0] == [];
  }

  /** A string flag takes the text, and acts on it. */
  ghost predicate Takes(w: World, name: string, text: string) {
    && WellFormed(w.flags) && w.status == Running
    && name in w.flags && w.flags[name].ty == FvString && Accepts(w.flags[name], StringValue(text))
  }

  lemma RecursiveActs(w: World, name: string, text: string, host: Host)
    requires Takes(w, name, text) && Recursive(name) && text != ""
    ensures Process(w, name, text, SetFlagsValue, host) ==
      Act(Assign(w, name, text, SetFlagsValue), name, text, SetFlagsValue, host)
  {
    hide Act;
    StringReads(text);
    hide ParseFrom;
  }

  lemma SameTypes(a: map<string, FlagState>, b: map<string, FlagState>)
    requires SameFlags(a, b)
    ensures TypesOf(a) == TypesOf(b)
  {
  }

  /** The text is taken, and then what it leads to is done. */
  lemma ActionIsObeyed(w: World, name: string, text: string, x: Expansion, said: Said, host: Host)
    returns (plain: World)
    requires Takes(w, name, text) && Recursive(name) && text != "" && host.levels > 0
    requires x == Expand(name, text, TypesOf(w.flags), host)
    requires Agree(x.settings, said, TypesOf(w.flags)) && SetsNoOthers(said)
    ensures AllObey(plain, w, [(name, Some(StringValue(text)))] + said)
    ensures Process(w, name, text, SetFlagsValue, host) == Carry(plain, x)
  {
    hide Expand, ProcessAll, AssignAll, Assign, Agree, AllObey, Quiet, SetsNoOthers, Carry, TypesOf, WellFormed;
    var types, w' := TypesOf(w.flags), Assign(w, name, text, SetFlagsValue);
    RecursiveActs(w, name, text, host);
    AssignKeepsFlags(w, name, text, SetFlagsValue);
    SameTypes(w'.flags, w.flags);
    SettingsAreQuiet(x.settings, said, types);
    QuietIsPlain(w', x.settings, host.(levels := host.levels - 1));
    AssignOnly(w, name, text, SetFlagsValue);
    AssignAllConcat(w, [(name, text)], x.settings, SetFlagsValue);
    FirstAgrees(w.flags, name, text);
    AgreeConcat([(name, text)], x.settings, [(name, Some(StringValue(text)))], said, types);
    plain := AssignAll(w, [(name, text)] + x.settings, SetFlagsValue);
    SettingsAreObeyed(w, [(name, text)] + x.settings, [(name, Some(StringValue(text)))] + said);
  }

  lemma FirstAgrees(flags: map<string, FlagState>, name: string, text: string)
    requires name in flags && flags[name].ty == FvString
    ensures Agree([(name, text)], [(name, Some(StringValue(text)))], TypesOf(flags))
  {
    StringReads(text);
    hide ParseFrom;
  }

  /** --flagfile with a list of files: what they say is obeyed in their order. A file that is not there ends the
      program, when those before it have been read. */
  lemma FlagfileIsObeyed(w: World, names: seq<string>, files: seq<File>, rest: seq<string>, host: Host)
    requires IsList(names + rest) && Takes(w, "flagfile", Commas(names + rest)) && host.levels > 0
    requires AreFiles(names, files, TypesOf(w.flags), host) && (rest != [] ==> rest[0] !in host.files)
    requires SetsNoOthers(FilesSaid(files, TypesOf(w.flags), host.matches))
    ensures var r, text := Process(w, "flagfile", Commas(names + rest), SetFlagsValue, host), Commas(names + rest);
      && AllObey(r.(status := Running), w,
                 [("flagfile", Some(StringValue(text)))] + FilesSaid(files, TypesOf(w.flags), host.matches))
      && r.status == if rest == [] then Running else Exited
  {
    hide FromFiles, FromEnvironment, IndexOf, FlagList, Commas, Process, SetsNoOthers, FilesSaid, Agree, AreFiles,
      IsList, TypesOf, WellFormed, Obeys, Refused;
    var types, all := TypesOf(w.flags), names + rest;
    ListIsRead(all);
    FilesAreRead(names, files, rest, types, host);
    var x := Expand("flagfile", Commas(all), types, host);
    var plain := ActionIsObeyed(w, "flagfile", Commas(all), x, FilesSaid(files, types, host.matches), host);
    assert plain.errors + {} == plain.errors && plain.undefined + {} == plain.undefined;
  }

  // ---------------------------------------------------------------------------
  // Variables

  /** The variable of a flag. */
  function Variable(name: string): string { "FLAGS_" + name }

  function VariablesSaid(names: seq<string>, types: Types, environment: map<string, string>): Said {
    if names == [] then []
    else
      (if names[0] in types && Variable(names[0]) in environment
          && environment[Variable(names[0])] != "fromenv" && environment[Variable(names[0])] != "tryfromenv"
       then [(names[0], ParseFrom(types[names[0]], environment[Variable(names[0])]))] else [])
      + VariablesSaid(names[1..], types, environment)
  }

  /** The names for which there is an error: no flag; a variable that would read variables; and, if all of them must
      be there, no variable. */
  ghost function VariablesWrong(names: seq<string>, types: Types, environment: map<string, string>, needed: bool)
    : set<string>
  {
    set n | n in names &&
      (n !in types || (Variable(n) in environment && environment[Variable(n)] in ["fromenv", "tryfromenv"])
       || (needed && Variable(n) !in environment))
  }

  ghost function NoFlags(names: seq<string>, types: Types): set<string> { set n | n in names && n !in types }

  lemma VariablesSplit(names: seq<string>, types: Types, environment: map<string, string>)
    requires names != []
    ensures VariablesSaid(names, types, environment) ==
      VariablesSaid([names[0]], types, environment) + VariablesSaid(names[1..], types, environment)
  {
    hide ParseFrom;
    assert [names[0]][1..] == [];
  }

  lemma {:induction false} VariablesAreRead(names: seq<string>, types: Types, host: Host, needed: bool)
    ensures var x := FromEnvironment(names, types, host, needed);
      && Agree(x.settings, VariablesSaid(names, types, host.environment), types)
      && x.errors == VariablesWrong(names, types, host.environment, needed)
      && x.undefined == NoFlags(names, types) && !x.exits
  {
    hide Agree, VariablesSaid, FromVariable;
    if names == [] {
      NothingAgrees(types);
      assert VariablesSaid([], types, host.environment) == [] by { NoVariablesSaid(types, host.environment); }
    } else {
      VariablesAreRead(names[1..], types, host, needed);
      VariablesOneMore(names, types, host.environment, needed);
      var x, y := FromVariable(names[0], types, host, needed), FromEnvironment(names[1..], types, host, needed);
      OneVariable(names[0], types, host, needed);
      VariablesSplit(names, types, host.environment);
      AgreeConcat(x.settings, y.settings, VariablesSaid([names[0]], types, host.environment),
                  VariablesSaid(names[1..], types, host.environment), types);
    }
  }

  lemma VariablesOneMore(names: seq<string>, types: Types, environment: map<string, string>, needed: bool)
    requires names != []
    ensures VariablesWrong(names, types, environment, needed) ==
      VariablesWrong([names[0]], types, environment, needed) + VariablesWrong(names[1..], types, environment, needed)
    ensures NoFlags(names, types) == NoFlags([names[0]], types) + NoFlags(names[1..], types)
  {
    assert names == [names[0]] + names[1..];
  }

  lemma NoVariablesSaid(types: Types, environment: map<string, string>)
    ensures VariablesSaid([], types, environment) == []
  {
  }

  lemma OneVariable(name: string, types: Types, host: Host, needed: bool)
    ensures var x := FromVariable(name, types, host, needed);
      && Agree(x.settings, VariablesSaid([name], types, host.environment), types)
      && x.errors == VariablesWrong([name], types, host.environment, needed) && x.undefined == NoFlags([name], types)
  {
    hide ParseFrom;
    assert [name][1..] == [];
  }

  /** --fromenv and --tryfromenv with a list of flags: what their variables say is obeyed. Only --fromenv needs all of
      the variables. */
  lemma FromenvIsObeyed(w: World, name: string, names: seq<string>, host: Host) returns (plain: World)
    requires name in ["fromenv", "tryfromenv"] && IsList(names) && Takes(w, name, Commas(names)) && host.levels > 0
    requires SetsNoOthers(VariablesSaid(names, TypesOf(w.flags), host.environment))
    ensures var said := VariablesSaid(names, TypesOf(w.flags), host.environment);
      AllObey(plain, w, [(name, Some(StringValue(Commas(names))))] + said)
    ensures Process(w, name, Commas(names), SetFlagsValue, host) ==
      More(plain, VariablesWrong(names, TypesOf(w.flags), host.environment, name == "fromenv"),
           NoFlags(names, TypesOf(w.flags)))
  {
    hide FromFiles, FromEnvironment, IndexOf, FlagList, Commas, Process, SetsNoOthers, VariablesSaid, VariablesWrong,
      NoFlags, Agree, IsList, TypesOf, WellFormed, AllObey;
    var types := TypesOf(w.flags);
    ListIsRead(names);
    VariablesAreRead(names, types, host, name == "fromenv");
    var x := Expand(name, Commas(names), types, host);
    plain := ActionIsObeyed(w, name, Commas(names), x, VariablesSaid(names, types, host.environment), host);
  }
}

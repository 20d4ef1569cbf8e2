/** The text form of flags in gflags.cc: how it is printed, how it is read line by line, and that reading
    what was printed restores the flags. */
module FlagFile {
  import opened Wrappers
  import opened FlagValues
  import opened FlagSemantics
  import opened CommandLine

  function TypesOf(flags: map<string, FlagState>): Types {
    map n | n in flags :: flags[n].ty
  }

  /** Between two lines: the settings so far, whether flags apply to this program, and whether the last line that
      was not blank or a comment named programs. */
  datatype Reading = Reading(settings: Assignments, relevant: bool, inFilenames: bool)

  /** Whether a word of a line of file names matches the name of this program. */
  type Matcher = string -> bool

  predicate SomeWordMatches(line: string, matches: Matcher) {
    var e := IndexOf(line, ' ');
    matches(line[..e]) || (e < |line| && SomeWordMatches(line[e + 1..], matches))
  }

  /** The setting of a line that starts with a dash: an unknown flag or a missing value is ignored. */
  function FlagLine(line: string, types: Types): Assignments
    requires line != "" && line[0] == '-'
  {
    match SplitArgument(if "--" <= line then line[2..] else line[1..], types)
    case Known(name, Some(text)) => [(name, text)]
    case _ => []
  }

  function OnLine(line: string, st: Reading, types: Types, matches: Matcher): Reading {
    if line == "" || line[0] == '#' then st
    else if line[0] == '-' then
      Reading(st.settings + if st.relevant then FlagLine(line, types) else [], st.relevant, false)
    else
      Reading(st.settings, (st.inFilenames && st.relevant) || SomeWordMatches(line, matches), true)
  }

  function ReadLines(s: string, st: Reading, types: Types, matches: Matcher): Reading
    decreases |s|
  {
    var t := SkipSpaces(s);
    var e := IndexOf(t, '\n');
    var next := OnLine(t[..e], st, types, matches);
    if e == |t| then next else ReadLines(t[e + 1..], next, types, matches)
  }

  /** The settings that a text asks for, in order; they depend on the types of the flags alone. The contents end at
      the first NUL. */
  function Settings(contents: string, types: Types, matches: Matcher): Assignments {
    ReadLines(contents[..IndexOf(contents, '\0')], Reading([], true, false), types, matches).settings
  }

  /** TheseCommandlineFlagsIntoString */
  function Printed(infos: Assignments): string {
    if infos == [] then "" else "--" + infos[0].0 + "=" + infos[0].1 + "\n" + Printed(infos[1..])
  }

  // ---------------------------------------------------------------------------
  // What was printed is read

  /** A name and a text that survive in a line of a flag file. */
  predicate FitsLine(name: string, text: string) {
    && (forall c :: c in name ==> c != '=' && c != '\n' && c != '\0')
    && (forall c :: c in text ==> c != '\n' && c != '\0')
  }

  lemma PrintedLine(name: string, text: string, more: string)
    requires FitsLine(name, text)
    ensures var line := "--" + name + "=" + text;
      SkipSpaces(line + "\n" + more) == line + "\n" + more && IndexOf(line + "\n" + more, '\n') == |line|
  {
    var line := "--" + name + "=" + text;
    var s := line + "\n" + more;
    assert s[0] == '-';
    assert s[..|line|] == line;
    assert '\n' !in line;
    assert s[|line|] == '\n';
    IndexIs(s, '\n', |line|);
    hide IndexOf, FitsLine;
    FitsNoNewline(name, text);
  }

  lemma FitsNoNewline(name: string, text: string)
    requires FitsLine(name, text)
    ensures '\n' !in name && '\n' !in text && '\0' !in name && '\0' !in text && '=' !in name
  {
  }

  lemma PrintedFlagLine(name: string, text: string, types: Types)
    requires FitsLine(name, text) && name in types
    ensures FlagLine("--" + name + "=" + text, types) == [(name, text)]
  {
    hide IndexOf, FitsLine;
    var line := "--" + name + "=" + text;
    var arg := name + "=" + text;
    assert line[2..] == arg;
    assert "--" <= line;
    FitsNoNewline(name, text);
    assert arg[..|name|] == name && arg[|name|] == '=' && arg[|name| + 1..] == text;
    IndexIs(arg, '=', |name|);
  }

  lemma PrintedStep(name: string, text: string, more: string, st: Reading, types: Types, matches: Matcher)
    requires FitsLine(name, text) && name in types && st.relevant
    ensures ReadLines("--" + name + "=" + text + "\n" + more, st, types, matches)
         == ReadLines(more, Reading(st.settings + [(name, text)], true, false), types, matches)
  {
    hide IndexOf, FitsLine, FlagLine, SkipSpaces;
    var line := "--" + name + "=" + text;
    var s := line + "\n" + more;
    PrintedLine(name, text, more);
    PrintedFlagLine(name, text, types);
    assert line[0] == '-';
    assert s[..|line|] == line && s[|line| + 1..] == more;
  }

  ghost predicate Printable(infos: Assignments, names: set<string>) {
    forall k :: 0 <= k < |infos| ==> FitsLine(infos[k].0, infos[k].1) && infos[k].0 in names
  }

  lemma {:induction false} PrintedLinesRead(infos: Assignments, st: Reading, types: Types, matches: Matcher)
    requires Printable(infos, types.Keys) && st.relevant
    ensures ReadLines(Printed(infos), st, types, matches).settings == st.settings + infos
  {
    hide ReadLines, FitsLine;
    if infos == [] {
      NothingToRead(st, types, matches);
      assert st.settings + [] == st.settings;
    } else {
      var (name, text) := infos[0];
      assert infos == [(name, text)] + infos[1..];
      PrintedStep(name, text, Printed(infos[1..]), st, types, matches);
      PrintedLinesRead(infos[1..], Reading(st.settings + [(name, text)], true, false), types, matches);
      assert st.settings + [(name, text)] + infos[1..] == st.settings + infos;
    }
  }

  lemma NothingToRead(st: Reading, types: Types, matches: Matcher)
    ensures ReadLines("", st, types, matches) == st
  {
    assert SkipSpaces("") == "" && IndexOf("", '\n') == 0;
    assert ""[..0] == "";
  }

  lemma {:induction false} PrintedHasNoNul(infos: Assignments, names: set<string>)
    requires Printable(infos, names)
    ensures '\0' !in Printed(infos)
  {
    hide FitsLine;
    if infos != [] {
      PrintedHasNoNul(infos[1..], names);
      FitsNoNewline(infos[0].0, infos[0].1);
    }
  }

  /** Reading what was printed makes exactly the settings that were printed, in their order. */
  lemma PrintedTextReads(infos: Assignments, types: Types, matches: Matcher)
    requires Printable(infos, types.Keys)
    ensures Settings(Printed(infos), types, matches) == infos
  {
    hide Printed, ReadLines, IndexOf, Printable;
    var s := Printed(infos);
    PrintedHasNoNul(infos, types.Keys);
    assert s[..|s|] == s;
    IndexIs(s, '\0', |s|);
    PrintedLinesRead(infos, Reading([], true, false), types, matches);
    assert [] + infos == infos;
  }

  /** A text with which a flag can get a value that does not fit a line. */
  predicate OneLine(text: string) { '\n' !in text && '\0' !in text }

  ghost predicate OneLiners(a: Assignments) {
    forall k :: 0 <= k < |a| ==> OneLine(a[k].1)
  }

  lemma SplitTextIsPart(arg: string, types: Types)
    ensures var r := SplitArgument(arg, types);
      r.Known? && r.text.Some? ==> forall c :: c in r.text.value ==> c in arg || c in "01"
  {
    hide IndexOf;
  }

  lemma FlagLineIsOneLine(line: string, types: Types)
    requires line != "" && line[0] == '-' && OneLine(line)
    ensures OneLiners(FlagLine(line, types))
  {
    hide SplitArgument;
    SplitTextIsPart(if "--" <= line then line[2..] else line[1..], types);
  }

  lemma {:induction false} LinesAreOneLiners(s: string, st: Reading, types: Types, matches: Matcher)
    requires '\0' !in s && OneLiners(st.settings)
    ensures OneLiners(ReadLines(s, st, types, matches).settings)
    decreases |s|
  {
    hide SkipSpaces, IndexOf, FlagLine, SomeWordMatches;
    var t := SkipSpaces(s);
    var e := IndexOf(t, '\n');
    var line := t[..e];
    if line != "" && line[0] == '-' { FlagLineIsOneLine(line, types); }
    if e < |t| { LinesAreOneLiners(t[e + 1..], OnLine(line, st, types, matches), types, matches); }
  }

  /** No text asks for a setting with a newline or a NUL in it. */
  lemma SettingsAreOneLiners(contents: string, types: Types, matches: Matcher)
    ensures OneLiners(Settings(contents, types, matches))
  {
    hide ReadLines, IndexOf;
    LinesAreOneLiners(contents[..IndexOf(contents, '\0')], Reading([], true, false), types, matches);
  }
}

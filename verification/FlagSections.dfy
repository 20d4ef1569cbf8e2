/** What a flag file of gflags.cc says: flags for every program, and sections of flags for the programs that their
    heads name. A file is written down line by line; which flags it sets, and to what, is proved here. */
module FlagSections {
  import opened Wrappers
  import opened FlagValues
  import opened FlagSemantics
  import opened CommandLine
  import opened FlagFile
  import opened Invocation

  /** A line: white space; a comment; names of programs; a flag, or an option that is no flag's; or a flag whose text
      is missing. */
  datatype Line =
    | Empty(indent: string)
    | Comment(indent: string, text: string)
    | Names(indent: string, words: seq<string>)
    | Flag(indent: string, item: Item)
    | Lone(indent: string, dashes: string, name: string)

  /** Words with single spaces between them. */
  function Spaced(words: seq<string>): string {
    if words == [] then "" else if |words| == 1 then words[0] else words[0] + " " + Spaced(words[1..])
  }

  function Content(line: Line): string {
    match line
    case Empty(_) => ""
    case Comment(_, text) => "#" + text
    case Names(_, words) => Spaced(words)
    case Flag(_, item) => (match item
      case On(dashes, name) => dashes + name
      case Off(dashes, name, extra) => dashes + ("no" + name + extra)
      case Joined(dashes, name, text) => dashes + (name + "=" + text)
      case Stray(dashes, key, extra) => dashes + (key + extra)
      case _ => "")
    case Lone(_, dashes, name) => dashes + name
  }

  ghost predicate LineFits(line: Line, types: Types) {
    && Blank(line.indent) && '\n' !in line.indent
    && '\n' !in Content(line) && '\0' !in Content(line)
    && match line
       case Names(_, words) =>
         && words != [] && (forall k :: 0 <= k < |words| ==> ' ' !in words[k])
         && words[0] != "" && !Blank(words[0][..1]) && words[0][0] != '#' && words[0][0] != '-'
       case Flag(_, item) => Fits(item, types) && !item.Word? && !item.Apart?
       case Lone(_, dashes, name) => Dashed(dashes, name) && '=' !in name && name in types && types[name] != FvBool
       case _ => true
  }

  ghost predicate AllLinesFit(lines: seq<Line>, types: Types) {
    forall k :: 0 <= k < |lines| ==> LineFits(lines[k], types)
  }

  /** The lines, each with its newline; the last one may lack it. */
  function Text(lines: seq<Line>, end: string): string {
    if lines == [] then ""
    else if |lines| == 1 then lines[0].indent + Content(lines[0]) + end
    else lines[0].indent + Content(lines[0]) + "\n" + Text(lines[1..], end)
  }

  /** Lines with names of programs, and the flags after them. */
  datatype Section = Section(heads: seq<Line>, body: seq<Line>)

  ghost predicate SomeNames(lines: seq<Line>) {
    exists k :: 0 <= k < |lines| && lines[k].Names?
  }

  ghost predicate IsHead(lines: seq<Line>) {
    && (forall k :: 0 <= k < |lines| ==> lines[k].Names? || lines[k].Empty? || lines[k].Comment?)
    && SomeNames(lines)
  }

  ghost predicate IsBody(lines: seq<Line>) {
    forall k :: 0 <= k < |lines| ==> !lines[k].Names?
  }

  /** There is an option, known or not; without one, the names before and after the lines belong together. */
  ghost predicate HasOptions(lines: seq<Line>) {
    exists k :: 0 <= k < |lines| && (lines[k].Flag? || lines[k].Lone?)
  }

  ghost predicate SectionsFit(sections: seq<Section>, types: Types) {
    forall k :: 0 <= k < |sections| ==>
      && IsHead(sections[k].heads) && IsBody(sections[k].body)
      && AllLinesFit(sections[k].heads, types) && AllLinesFit(sections[k].body, types)
      && (k < |sections| - 1 ==> HasOptions(sections[k].body))
  }

  /** A word in the head of the section matches this program. */
  ghost predicate Chosen(heads: seq<Line>, matches: Matcher) {
    exists k, j :: 0 <= k < |heads| && heads[k].Names? && 0 <= j < |heads[k].words| && matches(heads[k].words[j])
  }

  function BodySaid(lines: seq<Line>, types: Types): Said {
    if lines == [] then []
    else (if lines[0].Flag? then Says(lines[0].item, types) else []) + BodySaid(lines[1..], types)
  }

  function SectionLines(sections: seq<Section>): seq<Line> {
    if sections == [] then [] else sections[0].heads + sections[0].body + SectionLines(sections[1..])
  }

  ghost function SectionsSaid(sections: seq<Section>, types: Types, matches: Matcher): Said {
    if sections == [] then []
    else (if Chosen(sections[0].heads, matches) then BodySaid(sections[0].body, types) else [])
         + SectionsSaid(sections[1..], types, matches)
  }

  // ---------------------------------------------------------------------------
  // Reading one line

  /** The words of a line are its parts between single spaces, and one of them has to match. */
  lemma {:induction false} SpacedMatches(words: seq<string>, matches: Matcher)
    requires words != [] && forall k :: 0 <= k < |words| ==> ' ' !in words[k]
    ensures SomeWordMatches(Spaced(words), matches) <==> exists j :: 0 <= j < |words| && matches(words[j])
  {
    hide IndexOf;
    var line := Spaced(words);
    if |words| == 1 {
      assert line[..|line|] == words[0];
      IndexIs(line, ' ', |line|);
    } else {
      assert line[..|words[0]|] == words[0] && line[|words[0]| + 1..] == Spaced(words[1..]);
      IndexIs(line, ' ', |words[0]|);
      SpacedMatches(words[1..], matches);
      assert forall j :: 0 < j < |words| ==> words[j] == words[1..][j - 1];
    }
  }

  /** How one line changes what is known. */
  ghost predicate LineDoes(line: Line, st: Reading, next: Reading, a: Assignments, types: Types, matches: Matcher) {
    match line
    case Names(_, words) =>
      && next == Reading(st.settings, next.relevant, true) && a == []
      && (next.relevant <==> (st.inFilenames && st.relevant) || exists j :: 0 <= j < |words| && matches(words[j]))
    case Flag(_, item) =>
      && next == Reading(st.settings + a, st.relevant, false)
      && Agree(a, if st.relevant then Says(item, types) else [], types)
    case Lone(_, _, _) => next == Reading(st.settings, st.relevant, false) && a == []
    case _ => next == st && a == []
  }

  lemma OptionLine(dashes: string, body: string)
    requires Dashed(dashes, body)
    ensures var line := dashes + body;
      line[0] == '-' && (if "--" <= line then line[2..] else line[1..]) == body
  {
    var line := dashes + body;
    if dashes == "--" {
      assert line[2..] == body;
    } else {
      assert line[1] == body[0] && line[1..] == body;
    }
  }

  lemma FlagLineSays(item: Item, types: Types)
    requires Fits(item, types) && !item.Word? && !item.Apart?
    ensures var line := Content(Flag("", item));
      line != "" && line[0] == '-' && Agree(FlagLine(line, types), Says(item, types), types)
  {
    hide SplitArgument, ParseFrom;
    match item
    case On(dashes, name) => OptionLine(dashes, name); OnSplits(name, types);
    case Off(dashes, name, extra) => OptionLine(dashes, "no" + name + extra); OffSplits(name, extra, types);
    case Joined(dashes, name, text) => OptionLine(dashes, name + "=" + text); JoinedSplits(name, text, types);
    case Stray(dashes, key, extra) => OptionLine(dashes, key + extra); StraySplits(key, extra, types);
  }

  lemma LineIsRead(line: Line, st: Reading, types: Types, matches: Matcher) returns (a: Assignments)
    requires LineFits(line, types)
    ensures LineDoes(line, st, OnLine(Content(line), st, types, matches), a, types, matches)
  {
    hide SplitArgument, ParseFrom, SomeWordMatches, FlagLine, Says, Blank, Fits, Agree;
    a := [];
    assert st.settings + [] == st.settings;
    match line
    case Empty(_) =>
    case Comment(_, text) =>
    case Names(_, words) => SpacedMatches(words, matches); SpacedStart(words);
    case Flag(_, item) =>
      FlagLineSays(item, types);
      assert Content(line) == Content(Flag("", item));
      if st.relevant { a := FlagLine(Content(line), types); } else { NothingAgrees(types); }
    case Lone(_, dashes, name) =>
      OptionLine(dashes, name);
      LoneIsNothing(dashes, name, types);
  }

  lemma SpacedStart(words: seq<string>)
    requires words != [] && words[0] != ""
    ensures Spaced(words) != "" && Spaced(words)[0] == words[0][0]
  {
  }

  lemma NothingAgrees(types: Types)
    ensures Agree([], [], types)
  {
  }

  lemma LoneIsNothing(dashes: string, name: string, types: Types)
    requires Dashed(dashes, name) && '=' !in name && name in types && types[name] != FvBool
    ensures (dashes + name)[0] == '-' && FlagLine(dashes + name, types) == []
  {
    hide SplitArgument;
    OptionLine(dashes, name);
    LoneSplits(name, types);
  }

  // ---------------------------------------------------------------------------
  // Reading lines

  function Past(lines: seq<Line>, st: Reading, types: Types, matches: Matcher): Reading {
    if lines == [] then st else Past(lines[1..], OnLine(Content(lines[0]), st, types, matches), types, matches)
  }

  lemma {:induction false} SkipThrough(blanks: string, more: string)
    requires Blank(blanks)
    ensures SkipSpaces(blanks + more) == SkipSpaces(more)
  {
    if blanks == "" {
      assert blanks + more == more;
    } else {
      assert (blanks + more)[1..] == blanks[1..] + more;
      SkipThrough(blanks[1..], more);
    }
  }

  lemma ContentStart(line: Line, types: Types)
    requires LineFits(line, types)
    ensures Content(line) != "" ==> !IsSpace(Content(line)[0])
  {
    hide Says;
    if line.Names? {
      SpacedStart(line.words);
      assert line.words[0][..1][0] == line.words[0][0];
    }
  }

  lemma LinesAfterBlanks(blanks: string, more: string, st: Reading, types: Types, matches: Matcher)
    requires Blank(blanks)
    ensures ReadLines(blanks + more, st, types, matches) == ReadLines(more, st, types, matches)
  {
    hide OnLine, IndexOf, SkipSpaces;
    SkipThrough(blanks, more);
  }

  lemma LineThenMore(content: string, more: string, st: Reading, types: Types, matches: Matcher)
    requires '\n' !in content && content != "" && !IsSpace(content[0])
    ensures ReadLines(content + "\n" + more, st, types, matches) ==
      ReadLines(more, OnLine(content, st, types, matches), types, matches)
    ensures ReadLines(content, st, types, matches) == OnLine(content, st, types, matches)
  {
    var s := content + "\n" + more;
    assert SkipSpaces(s) == s && SkipSpaces(content) == content;
    hide OnLine, SkipSpaces, IsSpace;
    assert s[..|content|] == content && s[|content| + 1..] == more && content[..|content|] == content;
    IndexIs(s, '\n', |content|);
    IndexIs(content, '\n', |content|);
  }

  lemma NewlineIsBlank(indent: string)
    requires Blank(indent)
    ensures Blank(indent + "\n")
  {
  }

  /** One line with its newline, or without it at the end. */
  lemma OneLineRead(line: Line, more: string, st: Reading, types: Types, matches: Matcher)
    requires LineFits(line, types)
    ensures ReadLines(line.indent + Content(line) + "\n" + more, st, types, matches) ==
      ReadLines(more, OnLine(Content(line), st, types, matches), types, matches)
    ensures ReadLines(line.indent + Content(line), st, types, matches) == OnLine(Content(line), st, types, matches)
  {
    ContentStart(line, types);
    BlankLine(st, types, matches);
    hide ReadLines, OnLine, Content, IsSpace, Blank;
    var content := Content(line);
    if content == "" {
      assert line.indent + content + "\n" + more == line.indent + "\n" + more;
      NewlineIsBlank(line.indent);
      LinesAfterBlanks(line.indent + "\n", more, st, types, matches);
      LinesAfterBlanks(line.indent, "", st, types, matches);
      NothingToRead(st, types, matches);
    } else {
      assert line.indent + content + "\n" + more == line.indent + (content + "\n" + more);
      LinesAfterBlanks(line.indent, content + "\n" + more, st, types, matches);
      LinesAfterBlanks(line.indent, content, st, types, matches);
      LineThenMore(content, more, st, types, matches);
    }
  }

  lemma BlankLine(st: Reading, types: Types, matches: Matcher)
    ensures OnLine("", st, types, matches) == st
  {
  }

  lemma {:induction false} TextIsRead(lines: seq<Line>, end: string, st: Reading, types: Types, matches: Matcher)
    requires AllLinesFit(lines, types) && end in {"", "\n"}
    ensures ReadLines(Text(lines, end), st, types, matches) == Past(lines, st, types, matches)
  {
    hide ReadLines, OnLine, Content, LineFits;
    if lines == [] {
      NothingToRead(st, types, matches);
    } else {
      var line, next := lines[0], OnLine(Content(lines[0]), st, types, matches);
      OneLineRead(line, Text(lines[1..], end), st, types, matches);
      TextIsRead(lines[1..], end, next, types, matches);
      if |lines| == 1 {
        OneLineRead(line, "", st, types, matches);
        NothingToRead(next, types, matches);
        assert line.indent + Content(line) + "\n" + "" == line.indent + Content(line) + "\n";
        assert line.indent + Content(line) + "" == line.indent + Content(line);
      }
    }
  }

  lemma {:induction false} AfterConcat(x: seq<Line>, y: seq<Line>, st: Reading, types: Types, matches: Matcher)
    ensures Past(x + y, st, types, matches) == Past(y, Past(x, st, types, matches), types, matches)
    decreases |x|
  {
    hide OnLine, Content;
    if x == [] {
      assert x + y == y;
    } else {
      assert (x + y)[1..] == x[1..] + y;
      AfterConcat(x[1..], y, OnLine(Content(x[0]), st, types, matches), types, matches);
    }
  }

  /** Lines of names, blank lines and comments: one matching word among all of them is enough. */
  lemma {:induction false} HeadsAreRead(heads: seq<Line>, st: Reading, types: Types, matches: Matcher)
    requires AllLinesFit(heads, types)
    requires forall k :: 0 <= k < |heads| ==> heads[k].Names? || heads[k].Empty? || heads[k].Comment?
    ensures var r := Past(heads, st, types, matches);
      && r.settings == st.settings
      && (r.inFilenames <==> st.inFilenames || SomeNames(heads))
      && (r.relevant <==>
           if SomeNames(heads) then (st.inFilenames && st.relevant) || Chosen(heads, matches) else st.relevant)
  {
    hide OnLine, Content, LineFits;
    if heads != [] {
      var next := OnLine(Content(heads[0]), st, types, matches);
      var a := LineIsRead(heads[0], st, types, matches);
      HeadsAreRead(heads[1..], next, types, matches);
      HeadsSplit(heads, matches);
    }
  }

  lemma HeadsSplit(heads: seq<Line>, matches: Matcher)
    requires heads != []
    ensures SomeNames(heads) <==> heads[0].Names? || SomeNames(heads[1..])
    ensures Chosen(heads, matches) <==>
      (heads[0].Names? && exists j :: 0 <= j < |heads[0].words| && matches(heads[0].words[j]))
      || Chosen(heads[1..], matches)
    ensures Chosen(heads[1..], matches) ==> SomeNames(heads[1..])
  {
    var rest := heads[1..];
    assert forall k :: 0 < k < |heads| ==> heads[k] == rest[k - 1];
    if SomeNames(rest) {
      var k :| 0 <= k < |rest| && rest[k].Names?;
      assert heads[k + 1].Names?;
    }
    if Chosen(rest, matches) {
      var k, j :| 0 <= k < |rest| && rest[k].Names? && 0 <= j < |rest[k].words| && matches(rest[k].words[j]);
      assert heads[k + 1].Names? && matches(heads[k + 1].words[j]);
    }
  }

  /** Lines of flags: if they are for this program, they are set in their order. */
  lemma {:induction false} BodyIsRead(body: seq<Line>, st: Reading, types: Types, matches: Matcher)
    returns (a: Assignments)
    requires AllLinesFit(body, types) && IsBody(body)
    ensures var r := Past(body, st, types, matches);
      && r.settings == st.settings + a && Agree(a, if st.relevant then BodySaid(body, types) else [], types)
      && r.relevant == st.relevant && (r.inFilenames <==> st.inFilenames && !HasOptions(body))
  {
    hide OnLine, Content, LineFits, Agree, Says;
    if body == [] {
      a := [];
      NothingAgrees(types);
    } else {
      var next := OnLine(Content(body[0]), st, types, matches);
      var b := LineIsRead(body[0], st, types, matches);
      var c := BodyIsRead(body[1..], next, types, matches);
      a := b + c;
      BodySplit(body);
      NothingAgrees(types);
      assert st.settings + b + c == st.settings + a && st.settings + [] == st.settings;
      AgreeConcat(b, c, if st.relevant && body[0].Flag? then Says(body[0].item, types) else [],
                  if st.relevant then BodySaid(body[1..], types) else [], types);
      var none: Said := [];
      assert none + none == none;
    }
  }

  lemma BodySplit(body: seq<Line>)
    requires body != []
    ensures HasOptions(body) <==> body[0].Flag? || body[0].Lone? || HasOptions(body[1..])
  {
    var rest := body[1..];
    assert forall k :: 0 < k < |body| ==> body[k] == rest[k - 1];
    if HasOptions(rest) {
      var k :| 0 <= k < |rest| && (rest[k].Flag? || rest[k].Lone?);
      assert body[k + 1] == rest[k];
    }
  }

  // ---------------------------------------------------------------------------
  // Reading files

  lemma {:induction false} SectionsAreRead(sections: seq<Section>, st: Reading, types: Types, matches: Matcher)
    returns (a: Assignments)
    requires SectionsFit(sections, types) && !st.inFilenames
    ensures Past(SectionLines(sections), st, types, matches).settings == st.settings + a
    ensures Agree(a, SectionsSaid(sections, types, matches), types)
  {
    hide Past, Agree, BodySaid, AllLinesFit, IsBody, SomeNames, HasOptions, Chosen;
    if sections == [] {
      a := [];
      NoLines(st, types, matches);
      NothingAgrees(types);
    } else {
      var heads, body, more := sections[0].heads, sections[0].body, SectionLines(sections[1..]);
      var inside := Past(heads, st, types, matches);
      HeadsAreRead(heads, st, types, matches);
      var b := BodyIsRead(body, inside, types, matches);
      var after := Past(body, inside, types, matches);
      AfterConcat(heads + body, more, st, types, matches);
      AfterConcat(heads, body, st, types, matches);
      var said: Said := if inside.relevant then BodySaid(body, types) else [];
      if |sections| == 1 {
        assert more == [] && b + [] == b && said + [] == said;
        NoLines(after, types, matches);
        a := b;
      } else {
        assert !after.inFilenames;
        var c := SectionsAreRead(sections[1..], after, types, matches);
        a := b + c;
        assert st.settings + b + c == st.settings + a;
        AgreeConcat(b, c, said, SectionsSaid(sections[1..], types, matches), types);
      }
      assert sections == [sections[0]] + sections[1..];
    }
  }

  lemma NoLines(st: Reading, types: Types, matches: Matcher)
    ensures Past([], st, types, matches) == st && st.settings + [] == st.settings
  {
  }

  /** What a file is made of: lines of flags for every program; sections; and, from the first NUL on, anything. */
  ghost predicate IsFile(contents: string, before: seq<Line>, sections: seq<Section>, end: string, types: Types) {
    && AllLinesFit(before, types) && IsBody(before) && SectionsFit(sections, types) && end in {"", "\n"}
    && var text := Text(before + SectionLines(sections), end);
       contents == text || text + "\0" <= contents
  }

  /** For every such file: it sets the flags before the first section, and those of exactly the sections in whose
      heads some word matches the program; in their order, and to the values that are said. */
  lemma SectionedFileReads(contents: string, before: seq<Line>, sections: seq<Section>, end: string, types: Types,
                           matches: Matcher)
    requires IsFile(contents, before, sections, end, types)
    ensures Agree(Settings(contents, types, matches), BodySaid(before, types) + SectionsSaid(sections, types, matches),
                  types)
  {
    hide ReadLines, Past, Text, AllLinesFit, IsBody, SectionsFit, Agree, BodySaid, SectionsSaid, SectionLines, IndexOf;
    var st, lines := Reading([], true, false), before + SectionLines(sections);
    SectionLinesFit(sections, types);
    LinesConcatFit(before, SectionLines(sections), types);
    TextHasNoNul(lines, end, types);
    IndexIs(contents, '\0', |Text(lines, end)|);
    assert contents[..|Text(lines, end)|] == Text(lines, end);
    TextIsRead(lines, end, st, types, matches);
    AfterConcat(before, SectionLines(sections), st, types, matches);
    var a := BodyIsRead(before, st, types, matches);
    var b := SectionsAreRead(sections, Past(before, st, types, matches), types, matches);
    assert [] + a + b == a + b;
    AgreeConcat(a, b, BodySaid(before, types), SectionsSaid(sections, types, matches), types);
  }

  lemma LinesConcatFit(x: seq<Line>, y: seq<Line>, types: Types)
    requires AllLinesFit(x, types) && AllLinesFit(y, types)
    ensures AllLinesFit(x + y, types)
  {
    hide LineFits;
  }

  lemma {:induction false} SectionLinesFit(sections: seq<Section>, types: Types)
    requires SectionsFit(sections, types)
    ensures AllLinesFit(SectionLines(sections), types)
  {
    hide LineFits, IsHead, IsBody, HasOptions;
    if sections != [] {
      SectionLinesFit(sections[1..], types);
      LinesConcatFit(sections[0].heads, sections[0].body, types);
      LinesConcatFit(sections[0].heads + sections[0].body, SectionLines(sections[1..]), types);
    }
  }

  lemma {:induction false} TextHasNoNul(lines: seq<Line>, end: string, types: Types)
    requires AllLinesFit(lines, types) && end in {"", "\n"}
    ensures '\0' !in Text(lines, end)
  {
    hide Content;
    if lines != [] {
      TextHasNoNul(lines[1..], end, types);
      BlankHasNoNul(lines[0].indent);
    }
  }

  lemma BlankHasNoNul(indent: string)
    requires Blank(indent)
    ensures '\0' !in indent
  {
  }
}

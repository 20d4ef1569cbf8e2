# Proofs about the Redis re-implementation and its libraries

This project models the algorithms of the repository in Dafny and proves what they promise. It has one
module per component; `dafny verify dfyconfig.toml` verifies all of it.

**The C++ demangler of glog** (`DemangleGrammar`, `DemangleTheory`, `DemangleSymbols`, `DemangleStarts`,
`DemangleNest`, `DemangleParts`, `DemangleRoundTrip`, `DemangleCode`, `DemangleRewind`, `Demangle`). A subset of the
name grammar of section 5.1 of the Itanium C++ ABI is written down as a table of rules with printing actions.
It has two readings: an ordered one that backtracks as the code does (`Eval`), and a context-free one
(`Derives`). The class `Demangler` has one method per parse function, working on the shared state and the
output buffer as the code does; each method is proved to do what its rule says under the ordered reading,
for every buffer size, and to restore the state when it fails where the code does. The theory proves that
this reading ends, that what it accepts is in the language, and that acceptance does not depend on the
output. `DemangleSymbols` says independently of rules and code what a C++ symbol is, how the ABI mangles it and what is
to be shown for it; that demangling undoes mangling is proved for all of these symbols, from the characters up. The
ordered reading leaves out one thing the code does, lengths below -1; `DemangleCode` models the code with them and says
exactly when both agree.

**MurmurHash3** (`Words`, `MurmurHash3`, `MurmurDecode`). Every step of the two hash functions is a bijection of the
state, so two keys of one length that differ inside one block only never collide, nor does one key under two seeds. A
decoder made of the inverted constants alone takes the hash apart again: it gives the last block or tail of every key
back.

**Helpers of glog** (`FnMatch`, `LineReader`): glob matching against the meaning of its wildcards, and a
bounded line reader against plain splitting into lines.

**gflags for Python** (`UniquePrefixes`): shortest unique prefixes from a scan of sorted neighbours, what the
arguments become that abbreviate boolean flags, and when the order of the flags makes no difference to that.

**gflags for C++** (`FlagValues`, `FlagSemantics`, `CommandLine`, `FlagFile`, `FlagRecursion`, `FlagTermination`,
`Invocation`, `FlagSections`, `FlagSources`, `Gflags`, `FlagParser`): values and their texts; the three ways of setting
a flag, over all runs; the reading of a command line, which permutes the arguments in place; the text form of flags; the
flags that set others from files and the environment, and exactly when that comes to an end; the round trip; saving and
restoring. `Invocation`, `FlagSections` and `FlagSources` write down what command lines, flag files and variables say,
without the functions that read them, and prove that this is what the flags are afterwards.

**Redis** (`Zmalloc`, `Adlist`, `Sds`, `Dict`): the accounting allocator, linked lists with iterators, growing
strings and the hash table, as classes over the heap with the blocks they own, each also over its whole life.

**Google Mock** (`Expectations`): the order between expectations, retirement, and which expectation handles a call,
over whole tests.

Where the code disagrees with its documentation, or surprises:

- The comments of the demangler give `<prefix>` as the ABI has it; the code merges the rules for `<prefix>` and
  `<template-prefix>` into a loop that may read nothing, so a nested name may be empty (`NestedNameMayBeEmpty`). A
  `<source-name>` may have length zero, and a length may have leading zeros.
- The demangler accepts a negative length for a `<source-name>`. A length of -1 is rejected; below that, the code
  takes its cursor back and succeeds. It then reads `_ZNn2E` for ever and accepts `_Zn2ab`, which is no mangled name
  (`EndlessExample`, `AcceptedExample`, `AcceptedExampleIsNoName`). So `Eval`, and the methods of `Demangler` that are
  proved against it, do not follow the code there: they record that such a length was met (`rewound`) and let the name
  fail, and what is said of whole names asks that none was met. `Code` follows the code for every text, with a bound on
  the number of steps in place of a proof that they end, and `CodeAtTopLevel` says that the code ends without having
  met such a length exactly if `Eval` meets none, and then with the same outcome. `NeverRewinds` gives a condition on
  the text alone; it is sufficient and not necessary, since a thunk offset such as the n4 in `_ZThn4_N1A1fEv` breaks it
  without being a length.
- `SafeFNMatch_` is not a complete glob matcher: a pattern that ends in two stars misses short texts, and a star in
  the text can be taken for the star of the pattern. The two `Decides` lemmas say exactly when it is right.
- `--noflag=value` sets a boolean flag to false whatever the value says.
- The comment on `CommandlineFlagsIntoString` (gflags.cc:1711) says that `--flagfile` is not saved; the code saves it,
  and reading the text opens the file again. So the round trip asks for empty recursive flags, and `UnreadableFlagfile`
  shows a case in which it fails without.
- The code guards against one kind of endless recursion, a variable that is `fromenv`. A flag file that asks for itself
  is read for ever, and so is, where flags are set only if they are at their default, a flag file that asks for any
  file at all: the setting succeeds without effect, and the old value is acted on again. `EndsExactly` says when
  reading ends.
- A `uint64` flag accepts a text of blanks only, as zero; and a text with other white space before a minus sign.
- A call of an expectation with Times(0) is a call too many, so it retires nothing that comes before it.
- `dictFind` does not compare keys, and reads through a null pointer for a key whose bucket is empty; `sdstrim` after `sdsclear` may bring a byte back.

## Model

| member | source | states |
|---|---|---|
| `DemangleGrammar.NoLeftRecursion` | thirdparty/glog-0.3.3/src/demangle.cc:443-472 | the rules can be ranked so that none reaches itself again without consuming text, if a <source-name> of length below -1 counts as not read: this is why the ordered reading ends |
| `DemangleGrammar.Eval` | thirdparty/glog-0.3.3/src/demangle.cc:474-1275 | the ordered reading of a grammar, which a <source-name> of length below -1 fails, never moves backwards or past the end; a failure leaves the position and all output state as they were, and what must consume text does |
| `DemangleTheory.Sound` | thirdparty/glog-0.3.3/src/demangle.cc:443-1275 | whatever the ordered, backtracking reading accepts is in the language of the grammar read as a context-free grammar (least fixed point) |
| `DemangleTheory.AcceptanceIgnoresOutput` | thirdparty/glog-0.3.3/src/demangle.cc:265-396 | acceptance and the final position depend on the text alone, never on the output so far, the nest level or the append flag |
| `DemangleTheory.QuietPrintsNothing` | thirdparty/glog-0.3.3/src/demangle.cc:362-371 | while appending is disabled, parsing prints nothing, remembers no name and does not enlarge the output |
| `DemangleTheory.AppendKept` | thirdparty/glog-0.3.3/src/demangle.cc:362-371 | the append flag is as it was once a parse is over, successful or not |
| `DemangleTheory.OutputGrows` | thirdparty/glog-0.3.3/src/demangle.cc:265-396 | output that was there when a parse started is a prefix of the output afterwards, and the recorded peak bounds all output, that of abandoned attempts included |
| `DemangleTheory.Printed` | thirdparty/glog-0.3.3/src/demangle.cc:322-345 | what printing a text does to the output and to the last identifier, and that an earlier last identifier stays where it was |
| `DemangleTheory.NeverRewinds` | thirdparty/glog-0.3.3/src/demangle.cc:685-697 | a <source-name> with a length below -1 can only be met if some n in the text starts a number of absolute value 2 or more |
| `DemangleTheory.RewindMakesNoProgress` | thirdparty/glog-0.3.3/src/demangle.cc:685-697 | such a length, without leading zeros, takes the cursor back to where the name began or before it |
| `DemangleTheory.AcceptedNamesAreMangled` | thirdparty/glog-0.3.3/src/demangle.cc:1277-1302 | where no length below -1 is met, an accepted text is a derivable mangled name followed by nothing, by a clone suffix or by a version suffix |
| `DemangleTheory.CloneSplit` | thirdparty/glog-0.3.3/src/demangle.cc:298-318 | there is only one way to take a part off a clone suffix, so the greedy loop loses nothing |
| `DemangleTheory.NoClonePart` | thirdparty/glog-0.3.3/src/demangle.cc:298-318 | letters not followed by a dot and a digit start no part |
| `DemangleTheory.CVQualifiersOutcome` | thirdparty/glog-0.3.3/src/demangle.cc:962-968 | the three alternatives of the grammar for qualifiers amount to an optional r, an optional V and an optional K, at least one of them, as the code reads them |
| `DemangleTheory.NumberOutcome` | thirdparty/glog-0.3.3/src/demangle.cc:628-650 | an optional n and the maximal run of digits, at least one |
| `DemangleTheory.RunOutcome` | thirdparty/glog-0.3.3/src/demangle.cc:654-683 | a maximal, non-empty run of characters of one class |
| `DemangleTheory.NotAnOperator` | thirdparty/glog-0.3.3/src/demangle.cc:702-750 | the test for a lower-case letter and a letter before the search skips no row of the operator table |
| `DemangleStarts.Starts` | thirdparty/glog-0.3.3/src/demangle.cc:443-1275 | whatever a rule consumes starts with a first character of the rule, which is why alternatives that cannot start are passed by |
| `DemangleStarts.Silent` | thirdparty/glog-0.3.3/src/demangle.cc:443-1275 | a rule that cannot start at a character does nothing at all there: it consumes and prints nothing and changes no part of the state; only the loop over the parts of a nested name may print first |
| `DemangleNest.NestKept` | thirdparty/glog-0.3.3/src/demangle.cc:347-371 | a parse leaves the nest level as it was; only the parts of a nested name raise it |
| `DemangleParts.NumberReads` | thirdparty/glog-0.3.3/src/demangle.cc:628-650 | an optional n and digits before another character are read whole |
| `DemangleParts.WordReads` | thirdparty/glog-0.3.3/src/demangle.cc:600-608 | a length in decimal and an identifier of that length are read whole and shown, an anonymous namespace as such |
| `DemangleParts.InternalReads` | thirdparty/glog-0.3.3/src/demangle.cc:615-623 | L before an identifier changes nothing in what is shown |
| `DemangleParts.ConstructorReads` | thirdparty/glog-0.3.3/src/demangle.cc:863-884 | C and 1, 2 or 3 show the last identifier again |
| `DemangleParts.DestructorReads` | thirdparty/glog-0.3.3/src/demangle.cc:863-884 | D and 0, 1 or 2 show ~ and the last identifier |
| `DemangleParts.TableReads` | thirdparty/glog-0.3.3/src/demangle.cc:48-141 | the three tables, searched in their order, mean what an independent list of operators, types and abbreviations says |
| `DemangleParts.OperatorReads` | thirdparty/glog-0.3.3/src/demangle.cc:702-745 | a code of two letters shows the word operator and the symbol it stands for, with a space before a word |
| `DemangleParts.ConversionReads` | thirdparty/glog-0.3.3/src/demangle.cc:702-745 | cv and a built-in type show operator and the name of the type |
| `DemangleParts.StandardReads` | thirdparty/glog-0.3.3/src/demangle.cc:1242-1273 | S and a letter show std and the class the letter stands for, St the namespace alone |
| `DemangleParts.AgainReads` | thirdparty/glog-0.3.3/src/demangle.cc:1242-1273 | S, any mark and _ show a question mark |
| `DemangleParts.HoleReads` | thirdparty/glog-0.3.3/src/demangle.cc:1051-1065 | T, any number and _ show a question mark |
| `DemangleRoundTrip.LiteralAccepted` | thirdparty/glog-0.3.3/src/demangle.cc:1178-1207 | L, a built-in type, a number and E are read whole as a template argument |
| `DemangleRoundTrip.ListReads` | thirdparty/glog-0.3.3/src/demangle.cc:1076-1088 | any non-empty list of types and numbers between I and E is read whole and shown as <>, kept apart from a < before it |
| `DemangleRoundTrip.ParametersRead` | thirdparty/glog-0.3.3/src/demangle.cc:1003-1013 | any non-empty list of types is read to its end and shown as () |
| `DemangleRoundTrip.TypeAccepted` | thirdparty/glog-0.3.3/src/demangle.cc:906-957 | every type made of built-in types, names, pointers, references, qualifiers, functions, arrays, members, substitutions and template parameters is read whole |
| `DemangleRoundTrip.NestedNameReads` | thirdparty/glog-0.3.3/src/demangle.cc:542-554 | N, qualifiers, any parts with template arguments between them and E are read whole, and the parts shown with :: between them |
| `DemangleRoundTrip.NameReads` | thirdparty/glog-0.3.3/src/demangle.cc:498-515 | every name, nested, in std or neither, with or without template arguments, is read whole and shown |
| `DemangleRoundTrip.WithinReads` | thirdparty/glog-0.3.3/src/demangle.cc:1212-1227 | Z, a symbol, E and a name show both with :: between them |
| `DemangleRoundTrip.ShiftReads` | thirdparty/glog-0.3.3/src/demangle.cc:828-843 | both kinds of offsets of a thunk are read whole, silently |
| `DemangleRoundTrip.ConstructionReads` | thirdparty/glog-0.3.3/src/demangle.cc:792-800 | the table for the construction of a base shows the class alone |
| `DemangleRoundTrip.SymbolReads` | thirdparty/glog-0.3.3/src/demangle.cc:481-492 | every symbol, of a function, a variable, the tables of a class, a guard, a temporary, an alias, a thunk or something local, is read whole and shown |
| `DemangleSymbols.MembersShown` | thirdparty/glog-0.3.3/src/demangle.cc:863-884 | what a constructor and a destructor of a class are to be shown as, in plain text |
| `DemangleRoundTrip.DemanglingUndoesMangling` | thirdparty/glog-0.3.3/src/demangle.cc:1277-1302 | for every symbol and every suffix the mangled text is accepted and shown as the symbol, a version included and clone marks left out; no length below -1 is met, and no attempt on the way prints more than two characters too many |
| `DemangleRoundTrip.NestedNameMayBeEmpty` | thirdparty/glog-0.3.3/src/demangle.cc:542-554 | unlike the grammar in its comment, the code accepts a nested name without parts |
| `DemangleCode.CodeFollowsGrammar` | thirdparty/glog-0.3.3/src/demangle.cc:474-1275 | where the ordered reading meets no length below -1, the parse functions as they are, loops without a progress check included, end after finitely many steps with the outcome of that reading |
| `DemangleCode.GrammarFollowsCode` | thirdparty/glog-0.3.3/src/demangle.cc:474-1275 | conversely, if the parse functions come to an end without having met such a length, their outcome is that of the ordered reading |
| `DemangleCode.MoreSteps` | thirdparty/glog-0.3.3/src/demangle.cc:243-260 | the bound on the steps does not matter: a run that is over is the same under every greater bound |
| `DemangleCode.CodeAtTopLevel` | thirdparty/glog-0.3.3/src/demangle.cc:1277-1302 | for every text: the code comes to an end without having met a length below -1 if and only if the ordered reading meets none, and then both have the same outcome |
| `DemangleCode.WithoutNegativeLengths` | thirdparty/glog-0.3.3/src/demangle.cc:685-697 | in every text in which no n starts a number of absolute value 2 or more, the code comes to an end and accepts only mangled names with an allowed suffix |
| `DemangleRewind.CodeFlags` | thirdparty/glog-0.3.3/src/demangle.cc:685-697 | that a length below -1 was met makes no difference to what is done afterwards |
| `DemangleRewind.UnscopedNameStays` | thirdparty/glog-0.3.3/src/demangle.cc:519-532 | a length that takes the cursor back to where the name began is read as a name without any progress |
| `DemangleRewind.NegativeLengthHangs` | thirdparty/glog-0.3.3/src/demangle.cc:567-586 | on every nested name that starts with such a length the loop over its parts never ends |
| `DemangleRewind.EndlessExample` | thirdparty/glog-0.3.3/src/demangle.cc:567-586 | _ZNn2E is such a text |
| `DemangleRewind.AcceptedExample` | thirdparty/glog-0.3.3/src/demangle.cc:600-608 | _Zn2ab is accepted and demangled to a pair of parentheses |
| `DemangleRewind.DerivedStarts` | thirdparty/glog-0.3.3/src/demangle.cc:443-472 | derivable texts start with a first character of the rule, and are not empty where the rule must consume text |
| `DemangleRewind.MangledAfterN` | thirdparty/glog-0.3.3/src/demangle.cc:600-608 | in the language of the grammar no digit but 0 follows an n at the start of a name |
| `DemangleRewind.AcceptedExampleIsNoName` | thirdparty/glog-0.3.3/src/demangle.cc:600-608 | so _Zn2ab is no mangled name with a suffix |
| `Demangle.Demangler.constructor` | thirdparty/glog-0.3.3/src/demangle.cc:187-198 | the initial state stands for the empty output |
| `Demangle.Demangler.ParseOneCharToken` | thirdparty/glog-0.3.3/src/demangle.cc:203-209 | the token, or no change |
| `Demangle.Demangler.ParseTwoCharToken` | thirdparty/glog-0.3.3/src/demangle.cc:214-221 | the token, or no change; never looks past the end |
| `Demangle.Demangler.ParseCharClass` | thirdparty/glog-0.3.3/src/demangle.cc:225-234 | one character of the class, or no change |
| `Demangle.Demangler.AtLeastNumCharsRemaining` | thirdparty/glog-0.3.3/src/demangle.cc:168-175 | true exactly if that many characters are left |
| `Demangle.Demangler.OneOrMore` | thirdparty/glog-0.3.3/src/demangle.cc:243-250 | one or more repetitions, each of which consumes text |
| `Demangle.Demangler.ZeroOrMore` | thirdparty/glog-0.3.3/src/demangle.cc:256-260 | as many repetitions as there are; ends because each consumes text |
| `Demangle.Demangler.Append` | thirdparty/glog-0.3.3/src/demangle.cc:265-279 | writes what fits, never outside the buffer, and changes nothing before it; reports overflow exactly if not all of it fits; ends the output with a NUL unless some of it was ever lost |
| `Demangle.Demangler.MaybeAppendWithLength` | thirdparty/glog-0.3.3/src/demangle.cc:322-338 | appends unless disabled, with a space between two <, and remembers an identifier |
| `Demangle.Demangler.MaybeAppend` | thirdparty/glog-0.3.3/src/demangle.cc:341-347 | the same for a C string |
| `Demangle.Demangler.EnterNestedName` | thirdparty/glog-0.3.3/src/demangle.cc:350-353 | the nest level starts at zero |
| `Demangle.Demangler.LeaveNestedName` | thirdparty/glog-0.3.3/src/demangle.cc:356-359 | the nest level is put back |
| `Demangle.Demangler.DisableAppend` | thirdparty/glog-0.3.3/src/demangle.cc:362-365 | nothing is appended from now on |
| `Demangle.Demangler.RestoreAppend` | thirdparty/glog-0.3.3/src/demangle.cc:368-371 | the append flag is put back |
| `Demangle.Demangler.MaybeIncreaseNestLevel` | thirdparty/glog-0.3.3/src/demangle.cc:374-378 | one level deeper inside a nested name |
| `Demangle.Demangler.MaybeAppendSeparator` | thirdparty/glog-0.3.3/src/demangle.cc:381-385 | a separator between the parts of a nested name |
| `Demangle.Demangler.MaybeCancelLastSeparator` | thirdparty/glog-0.3.3/src/demangle.cc:388-394 | takes the separator back, so that the output is what it was before it |
| `Demangle.Demangler.IdentifierIsAnonymousNamespace` | thirdparty/glog-0.3.3/src/demangle.cc:398-402 | true exactly for identifiers longer than the mangled prefix that start with it |
| `Demangle.Demangler.ParseIdentifier` | thirdparty/glog-0.3.3/src/demangle.cc:685-697 | as many characters as the length says, if there are as many; a length of -1 fails; one below -1 succeeds, prints nothing and takes the cursor back by as much |
| `Demangle.Demangler.ParseMangledName` | thirdparty/glog-0.3.3/src/demangle.cc:474-476 | _Z and an encoding; on failure the cursor may stay behind _Z |
| `Demangle.Demangler.ParseEncoding` | thirdparty/glog-0.3.3/src/demangle.cc:481-492 | recognises exactly its rule under the ordered reading, with the output of that rule; on failure the whole state is as before |
| `Demangle.Demangler.ParseName` | thirdparty/glog-0.3.3/src/demangle.cc:498-515 | recognises exactly its rule under the ordered reading, with the output of that rule; on failure the whole state is as before |
| `Demangle.Demangler.ParseUnscopedName` | thirdparty/glog-0.3.3/src/demangle.cc:519-532 | recognises exactly its rule under the ordered reading, with the output of that rule; on failure the whole state is as before |
| `Demangle.Demangler.ParseUnscopedTemplateName` | thirdparty/glog-0.3.3/src/demangle.cc:536-538 | recognises exactly its rule under the ordered reading, with the output of that rule; on failure the whole state is as before |
| `Demangle.Demangler.ParseNestedName` | thirdparty/glog-0.3.3/src/demangle.cc:542-554 | recognises exactly its rule under the ordered reading, with the output of that rule; on failure the whole state is as before |
| `Demangle.Demangler.ParsePrefix` | thirdparty/glog-0.3.3/src/demangle.cc:567-586 | recognises exactly its rule under the ordered reading, with the output of that rule; on failure the whole state is as before |
| `Demangle.Demangler.ParseUnqualifiedName` | thirdparty/glog-0.3.3/src/demangle.cc:592-597 | recognises exactly its rule under the ordered reading, with the output of that rule; on failure the whole state is as before |
| `Demangle.Demangler.ParseSourceName` | thirdparty/glog-0.3.3/src/demangle.cc:600-608 | a number of at least 0 and as many characters, printed; anything else fails and leaves the whole state as before, a number below -1 too, which is recorded |
| `Demangle.Demangler.ParseLocalSourceName` | thirdparty/glog-0.3.3/src/demangle.cc:615-623 | recognises exactly its rule under the ordered reading, with the output of that rule; on failure the whole state is as before |
| `Demangle.Demangler.ParseNumber` | thirdparty/glog-0.3.3/src/demangle.cc:628-650 | an optional n and digits; on failure the cursor may stay behind the n |
| `Demangle.Demangler.ParseFloatNumber` | thirdparty/glog-0.3.3/src/demangle.cc:654-666 | recognises exactly its rule under the ordered reading, with the output of that rule; on failure the whole state is as before |
| `Demangle.Demangler.ParseSeqId` | thirdparty/glog-0.3.3/src/demangle.cc:670-682 | recognises exactly its rule under the ordered reading, with the output of that rule; on failure the whole state is as before |
| `Demangle.Demangler.ParseOperatorName` | thirdparty/glog-0.3.3/src/demangle.cc:702-745 | recognises exactly its rule under the ordered reading, with the output of that rule; on failure the whole state is as before |
| `Demangle.Demangler.ParseSpecialName` | thirdparty/glog-0.3.3/src/demangle.cc:765-824 | recognises exactly its rule under the ordered reading, with the output of that rule; on failure the whole state is as before |
| `Demangle.Demangler.ParseCallOffset` | thirdparty/glog-0.3.3/src/demangle.cc:828-843 | recognises exactly its rule under the ordered reading, with the output of that rule; on failure the whole state is as before |
| `Demangle.Demangler.ParseNVOffset` | thirdparty/glog-0.3.3/src/demangle.cc:846-848 | a number; on failure as a number |
| `Demangle.Demangler.ParseVOffset` | thirdparty/glog-0.3.3/src/demangle.cc:851-859 | recognises exactly its rule under the ordered reading, with the output of that rule; on failure the whole state is as before |
| `Demangle.Demangler.ParseCtorDtorName` | thirdparty/glog-0.3.3/src/demangle.cc:863-884 | recognises exactly its rule under the ordered reading, with the output of that rule; on failure the whole state is as before |
| `Demangle.Demangler.ParseType` | thirdparty/glog-0.3.3/src/demangle.cc:906-957 | recognises exactly its rule under the ordered reading, with the output of that rule; on failure the whole state is as before |
| `Demangle.Demangler.ParseCVQualifiers` | thirdparty/glog-0.3.3/src/demangle.cc:962-968 | recognises exactly its rule under the ordered reading, with the output of that rule; on failure the whole state is as before |
| `Demangle.Demangler.ParseBuiltinType` | thirdparty/glog-0.3.3/src/demangle.cc:972-988 | recognises exactly its rule under the ordered reading, with the output of that rule; on failure the whole state is as before |
| `Demangle.Demangler.ParseFunctionType` | thirdparty/glog-0.3.3/src/demangle.cc:991-1000 | recognises exactly its rule under the ordered reading, with the output of that rule; on failure the whole state is as before |
| `Demangle.Demangler.ParseBareFunctionType` | thirdparty/glog-0.3.3/src/demangle.cc:1003-1013 | recognises exactly its rule under the ordered reading, with the output of that rule; on failure the whole state is as before |
| `Demangle.Demangler.ParseClassEnumType` | thirdparty/glog-0.3.3/src/demangle.cc:1016-1018 | recognises exactly its rule under the ordered reading, with the output of that rule; on failure the whole state is as before |
| `Demangle.Demangler.ParseArrayType` | thirdparty/glog-0.3.3/src/demangle.cc:1022-1036 | recognises exactly its rule under the ordered reading, with the output of that rule; on failure the whole state is as before |
| `Demangle.Demangler.ParsePointerToMemberType` | thirdparty/glog-0.3.3/src/demangle.cc:1039-1047 | recognises exactly its rule under the ordered reading, with the output of that rule; on failure the whole state is as before |
| `Demangle.Demangler.ParseTemplateParam` | thirdparty/glog-0.3.3/src/demangle.cc:1051-1065 | recognises exactly its rule under the ordered reading, with the output of that rule; on failure the whole state is as before |
| `Demangle.Demangler.ParseTemplateTemplateParam` | thirdparty/glog-0.3.3/src/demangle.cc:1070-1073 | recognises exactly its rule under the ordered reading, with the output of that rule; on failure the whole state is as before |
| `Demangle.Demangler.ParseTemplateArgs` | thirdparty/glog-0.3.3/src/demangle.cc:1076-1088 | recognises exactly its rule under the ordered reading, with the output of that rule; on failure the whole state is as before |
| `Demangle.Demangler.ParseTemplateArg` | thirdparty/glog-0.3.3/src/demangle.cc:1094-1115 | recognises exactly its rule under the ordered reading, with the output of that rule; on failure the whole state is as before |
| `Demangle.Demangler.ParseExpression` | thirdparty/glog-0.3.3/src/demangle.cc:1126-1171 | recognises exactly its rule under the ordered reading, with the output of that rule; on failure the whole state is as before |
| `Demangle.Demangler.ParseExprPrimary` | thirdparty/glog-0.3.3/src/demangle.cc:1178-1207 | recognises exactly its rule under the ordered reading, with the output of that rule; on failure the whole state is as before |
| `Demangle.Demangler.ParseLocalName` | thirdparty/glog-0.3.3/src/demangle.cc:1212-1227 | recognises exactly its rule under the ordered reading, with the output of that rule; on failure the whole state is as before |
| `Demangle.Demangler.ParseDiscriminator` | thirdparty/glog-0.3.3/src/demangle.cc:1230-1237 | recognises exactly its rule under the ordered reading, with the output of that rule; on failure the whole state is as before |
| `Demangle.Demangler.ParseSubstitution` | thirdparty/glog-0.3.3/src/demangle.cc:1242-1273 | recognises exactly its rule under the ordered reading, with the output of that rule; on failure the whole state is as before |
| `Demangle.Demangler.ParseTopLevelMangledName` | thirdparty/glog-0.3.3/src/demangle.cc:1277-1295 | where no length below -1 is met: a mangled name and a clone suffix (dropped) or version suffix (kept) |
| `Demangle.IsFunctionCloneSuffix` | thirdparty/glog-0.3.3/src/demangle.cc:298-318 | true exactly for sequences of a dot, letters, a dot and digits |
| `Demangle.Demangle` | thirdparty/glog-0.3.3/src/demangle.cc:1298-1302 | where no length below -1 is met, a success means a derivable mangled name with an allowed suffix; if in addition no attempt outgrows the buffer, success is exactly that of the ordered reading and the buffer starts with the demangled name |
| `Demangle.DemangleMangled` | thirdparty/glog-0.3.3/src/demangle.cc:1298-1302 | every symbol that was mangled, with any suffix, is demangled into every buffer with room for what it shows, for two characters in between and for the terminator, and the buffer then starts with it |
| `Demangle.DemangleMember` | thirdparty/glog-0.3.3/src/demangle.cc:1298-1302 | in particular _ZN, any path of identifiers, C1 to C3 or D0 to D2, E and any parameters give the path, :: and the last class, with ~ for a destructor |
| `Words.FoldInverse` | redis/src/MurmurHash3.cc:68-90 | xor with the right-shifted word has an inverse, for every shift but 0 and every width of the word |
| `Words.TimesInverse` | redis/src/MurmurHash3.cc:68-90 | multiplying by an odd constant modulo the word size is undone by multiplying by its inverse |
| `Words.RotlInjective` | redis/src/MurmurHash3.cc:34-42 | a rotation loses nothing |
| `Words.XorInjective` | redis/src/MurmurHash3.cc:114-120 | xor with a fixed word loses nothing |
| `MurmurHash3.Fmix32InPlace` | redis/src/MurmurHash3.cc:68-77 | computes the finalisation mix step by step |
| `MurmurHash3.Fmix32Injective` | redis/src/MurmurHash3.cc:68-77 | the 32-bit finalisation mix is a bijection |
| `MurmurHash3.Fmix64InPlace` | redis/src/MurmurHash3.cc:81-90 | computes the finalisation mix step by step |
| `MurmurHash3.Fmix64Injective` | redis/src/MurmurHash3.cc:81-90 | the 64-bit finalisation mix is a bijection |
| `MurmurHash3.GatherTail` | redis/src/MurmurHash3.cc:130-136 | the fall-through switch over the tail reads a little-endian number |
| `MurmurHash3.MixBlock32Injective` | redis/src/MurmurHash3.cc:110-121 | a block step loses neither the state nor the key word |
| `MurmurHash3.Finish32Injective` | redis/src/MurmurHash3.cc:123-145 | tail and finalisation lose neither the state nor the tail |
| `MurmurHash3.MurmurHash3X86` | redis/src/MurmurHash3.cc:94-146 | the loops compute the hash as a function of key and seed |
| `MurmurHash3.Hashes32Apart` | redis/src/MurmurHash3.cc:94-146 | once the states of two keys differ, equal remainders cannot make the hashes agree |
| `MurmurHash3.OneBlockShows32` | redis/src/MurmurHash3.cc:94-146 | two keys of one length that differ only inside one block, or only inside the tail, never have the same hash |
| `MurmurHash3.SeedShows32` | redis/src/MurmurHash3.cc:94-146 | one key never has the same hash under two seeds |
| `MurmurHash3.MixBlock128Injective` | redis/src/MurmurHash3.cc:272-284 | a block step loses neither the state nor the key words |
| `MurmurHash3.MixTail128Injective` | redis/src/MurmurHash3.cc:286-314 | the tail step loses neither the state nor the tail |
| `MurmurHash3.Finish128Injective` | redis/src/MurmurHash3.cc:286-331 | tail and finalisation lose neither the state nor the tail |
| `MurmurHash3.MurmurHash3X64` | redis/src/MurmurHash3.cc:255-332 | the loops compute the hash as a function of key and seed |
| `MurmurHash3.Hashes128Apart` | redis/src/MurmurHash3.cc:255-332 | once the states of two keys differ, equal remainders cannot make the hashes agree |
| `MurmurHash3.OneBlockShows128` | redis/src/MurmurHash3.cc:255-332 | two keys of one length that differ only inside one block, or only inside the tail, never have the same hash |
| `MurmurHash3.SeedShows128` | redis/src/MurmurHash3.cc:255-332 | one key never has the same hash under two seeds |
| `Words.XorStep` | redis/src/MurmurHash3.cc:68-90 | the low bit of an exclusive or is the sum of the low bits, and the others are the exclusive or of the others |
| `MurmurDecode.LastBytesReturn32` | redis/src/MurmurHash3.cc:94-146 | for every key and seed, a decoder made of the inverted constants alone gives the last bytes, up to a whole block, back from the hash and the hash of the key without them, zeros where there are none |
| `MurmurDecode.SeedReturns32` | redis/src/MurmurHash3.cc:94-146 | the hash of the empty key gives the seed back |
| `MurmurDecode.ShortKeysReturn32` | redis/src/MurmurHash3.cc:94-146 | every key of at most four bytes comes back from its hash, its length and the seed |
| `MurmurDecode.FmixUndone32` | redis/src/MurmurHash3.cc:68-77 | the finalisation mix is undone by the inverses of its constants |
| `MurmurDecode.BlockUndone128` | redis/src/MurmurHash3.cc:272-284 | both words of a block come back from the states before and after it, by rotations to the right and the inverted constants |
| `MurmurDecode.FmixUndone64` | redis/src/MurmurHash3.cc:81-90 | the finalisation mix is undone by the inverses of its constants |
| `MurmurDecode.LastBytesReturn128` | redis/src/MurmurHash3.cc:255-332 | for every key and seed, a decoder made of the inverted constants alone gives the last bytes, up to a whole block, back from the hash and the hash of the key without them, zeros where there are none; so by induction it says what every step of the hash does |
| `MurmurDecode.SeedReturns128` | redis/src/MurmurHash3.cc:255-332 | the hash of the empty key gives the seed back, in both words |
| `MurmurDecode.ShortKeysReturn128` | redis/src/MurmurHash3.cc:255-332 | every key of at most sixteen bytes comes back from its hash, its length and the seed |
| `FnMatch.SafeFNMatch` | thirdparty/glog-0.3.3/src/vlog_is_on.cc:69-96 | terminates and computes the recursive relation Matches |
| `FnMatch.MatchSomeSuffix` | thirdparty/glog-0.3.3/src/vlog_is_on.cc:84-93 | true exactly if the rest of the pattern matches some non-empty suffix |
| `FnMatch.Sound` | thirdparty/glog-0.3.3/src/vlog_is_on.cc:65-96 | every match reported is a match of the glob relation |
| `FnMatch.DecidesStarFree` | thirdparty/glog-0.3.3/src/vlog_is_on.cc:65-96 | on texts without stars the code decides a pattern if and only if the pattern does not end in two stars |
| `FnMatch.DecidesEverything` | thirdparty/glog-0.3.3/src/vlog_is_on.cc:65-96 | on all texts it decides a pattern if and only if the pattern has no star |
| `LineReader.ReadPersistent` | thirdparty/glog-0.3.3/src/symbolize.cc:124-142 | whatever the short reads: all bytes asked for or all there are, or -1 after an error |
| `LineReader.Reader.FindLineFeed` | thirdparty/glog-0.3.3/src/symbolize.cc:445-447 | the first line feed in the window, if there is one |
| `LineReader.Reader.Refill` | thirdparty/glog-0.3.3/src/symbolize.cc:404-418 | the incomplete line moves to the front and the buffer is filled behind it; no byte is lost |
| `LineReader.Reader.NextLine` | thirdparty/glog-0.3.3/src/symbolize.cc:393-403 | steps over the line returned last and tells whether the next one is complete |
| `LineReader.Reader.ReadLine` | thirdparty/glog-0.3.3/src/symbolize.cc:393-429 | the next line of the text that has not been returned, exactly, if it ends and fits the buffer |
| `LineReader.ReadLines` | thirdparty/glog-0.3.3/src/symbolize.cc:393-429 | the successive results are the lines of the file in order, up to the first that does not fit or does not end |
| `LineReader.LinesFit` | thirdparty/glog-0.3.3/src/symbolize.cc:387-392 | the lines returned have no line feed and fit the buffer |
| `LineReader.LinesSplit` | thirdparty/glog-0.3.3/src/symbolize.cc:387-392 | the lines and a remainder with no line feed within reach make up the file |
| `LineReader.AllLinesWhenTheyFit` | thirdparty/glog-0.3.3/src/symbolize.cc:387-392 | if every line fits, exactly the terminated lines are returned, and only an unterminated last one is dropped |
| `UniquePrefixes.NeighboursSuffice` | thirdparty/gflags/gflags.py:1430-1432 | in a sorted list, a prefix that any other name has is had by a neighbour |
| `UniquePrefixes.TakeIsShortest` | thirdparty/gflags/gflags.py:1433-1453 | one character more than the name shares with its neighbours is the shortest prefix of its own, or the whole name |
| `UniquePrefixes.PartingPoint` | thirdparty/gflags/gflags.py:1442-1453 | the inner loop finds how much a name shares with the next one |
| `UniquePrefixes.ShortestUniquePrefixes` | thirdparty/gflags/gflags.py:1420-1454 | the scan of neighbours gives each name the shortest prefix that no other name has, or the name itself if there is none |
| `UniquePrefixes.OneClaim` | thirdparty/gflags/gflags.py:1171-1174 | no argument is an abbreviation of two of the names |
| `UniquePrefixes.RewriteFlag` | thirdparty/gflags/gflags.py:1163-1174 | every argument is replaced as one boolean flag demands |
| `UniquePrefixes.RewriteBooleans` | thirdparty/gflags/gflags.py:1155-1174 | every argument is replaced as the flags demand one after the other |
| `UniquePrefixes.OneClaimant` | thirdparty/gflags/gflags.py:1157-1174 | at most one form of one flag claims an argument, unless a boolean flag is named like the negation of another; other flags may be |
| `UniquePrefixes.ClaimIsHonoured` | thirdparty/gflags/gflags.py:1157-1174 | then a claimed argument becomes the assignment of that very flag, in every order of the flags |
| `UniquePrefixes.OthersAreKept` | thirdparty/gflags/gflags.py:1157-1174 | an argument that no flag claims stays as it is |
| `UniquePrefixes.OrderIsIrrelevantExactly` | thirdparty/gflags/gflags.py:1157-1174 | for every dictionary of flags: every order of them rewrites every argument alike if and only if no boolean flag is named like the negation of another boolean flag (in a name without an equals sign) |
| `UniquePrefixes.RewriteIsCorrect` | thirdparty/gflags/gflags.py:1157-1174 | for every dictionary of flags without such a clash: an argument without = that is --name, or --noname, of a boolean flag, or a part of it with which no other name begins, becomes --name=true, or --name=false; every other argument stays as it is |
| `UniquePrefixes.CorrectBooleans` | thirdparty/gflags/gflags.py:1155-1174 | both loops together, from the names to the arguments, do just that to every argument but the first |
| `UniquePrefixes.MeansIsClaimed` | thirdparty/gflags/gflags.py:1168-1174 | an argument is claimed by means of the shortest unique prefixes exactly if no other name begins with it |
| `UniquePrefixes.TwiceMeansWhole` | thirdparty/gflags/gflags.py:1450-1453 | a name that occurs twice in the list can only be given in full |
| `FlagValues.ParsePrinted` | thirdparty/gflags-2.1.0/src/gflags.cc:277-368 | every value that its type can hold is read back from its printed form |
| `FlagValues.ParsedIsRepresentable` | thirdparty/gflags-2.1.0/src/gflags.cc:277-343 | whatever text is accepted gives a value that the type can hold |
| `FlagValues.BooleansRead` | thirdparty/gflags-2.1.0/src/gflags.cc:277-291 | a text is read as true, or as false, exactly if it is one of the five words for it, in any mixture of cases |
| `FlagValues.DecimalsRead` | thirdparty/gflags-2.1.0/src/gflags.cc:295-330 | every decimal number, with white space before it and a sign or none, is read as its value exactly if the type can hold it; when a negative number wraps |
| `FlagValues.HexadecimalsRead` | thirdparty/gflags-2.1.0/src/gflags.cc:295-330 | 0x and digits in any mixture of cases are read as their value exactly if the type can hold it |
| `FlagValues.OnlyNumbersRead` | thirdparty/gflags-2.1.0/src/gflags.cc:295-330 | nothing else is read as an integer, but a text of blanks as the uint64 zero |
| `FlagSemantics.ModifiedIsSticky` | thirdparty/gflags-2.1.0/src/gflags.cc:581-587 | over every run of calls and direct writes a flag marked modified stays so |
| `FlagSemantics.CallsSettle` | thirdparty/gflags-2.1.0/src/gflags.cc:842-885 | after a call, whatever was written before, a flag not marked modified has its default value; a failing call changes neither value; a call fails exactly if it needs the text and the text is not accepted |
| `FlagSemantics.ChangedValueSurvives` | thirdparty/gflags-2.1.0/src/gflags.cc:842-885 | a value that differs from the default survives every run of conditional and default settings |
| `FlagSemantics.ValidatorsHold` | thirdparty/gflags-2.1.0/src/gflags.cc:842-885 | without direct writes, values that satisfy the validator keep satisfying it |
| `FlagSemantics.ModesHavePriorities` | thirdparty/gflags-2.1.0/src/gflags.cc:842-885 | for every run from a fresh flag: the last accepted explicit setting counts, else the first accepted conditional one, else the last accepted default; so the order between modes does not matter |
| `FlagSemantics.LastDefaultCounts` | thirdparty/gflags-2.1.0/src/gflags.cc:842-885 | over every run of calls and direct writes, from any flag: the default is the last one that was accepted |
| `FlagSemantics.LastSettingWins` | thirdparty/gflags-2.1.0/src/gflags.cc:851-858 | among explicit settings the last legal one counts and the default stays |
| `FlagSemantics.EachFlagRunsAlone` | thirdparty/gflags-2.1.0/src/gflags.cc:1177-1180 | settings of flags do not interfere: each flag sees exactly the settings meant for it, and has an error exactly if one of them fails (what recursive flags do beyond that is FlagRecursion.Process) |
| `CommandLine.WaitingFlags` | thirdparty/gflags-2.1.0/src/gflags.cc:751-807 | a known flag waits for its text exactly if the argument has no = and the flag is not boolean |
| `CommandLine.OrderIsKept` | thirdparty/gflags-2.1.0/src/gflags.cc:1017-1111 | for every command line: what precedes the part after -- is an interleaving of the options, in their order, and the other arguments, in theirs |
| `CommandLine.NothingIsLost` | thirdparty/gflags-2.1.0/src/gflags.cc:1017-1111 | the permuted arguments are the given ones, none lost or doubled |
| `CommandLine.NonOptionsAreNone` | thirdparty/gflags-2.1.0/src/gflags.cc:1028-1036 | what is moved to the end is no option |
| `CommandLine.ReparseIsStable` | thirdparty/gflags-2.1.0/src/gflags.cc:1017-1111 | reading the permuted arguments again makes the same settings if and only if no last option lacks its value while another argument could be taken for it; then the arguments stay as they are |
| `Invocation.CommandLineIsRead` | thirdparty/gflags-2.1.0/src/gflags.cc:1017-1111 | for every command line, written as a list of words, switches with and without no, flags with their text in one argument or two, strangers, and an end: just these are found, and the settings made are for the flags given, in that order, with texts that mean the values said: true for a bare switch and false for one with no |
| `Invocation.EveryCommandLine` | thirdparty/gflags-2.1.0/src/gflags.cc:1017-1111 | every list of arguments is such a command line |
| `Invocation.SettingsAreObeyed` | thirdparty/gflags-2.1.0/src/gflags.cc:842-885 | explicit settings are obeyed by every flag: the last legal value said for it, the default as before, marked modified if it was, if a value was legal, or if a call found it changed; an error exactly if a text is illegal or refused |
| `Invocation.OneSwitch` | thirdparty/gflags-2.1.0/src/gflags.cc:792-804 | a boolean flag named alone is true afterwards, and false if named with no |
| `FlagSections.FlagLineSays` | thirdparty/gflags-2.1.0/src/gflags.cc:1280-1302 | a flag in a file means what it means on the command line |
| `FlagSections.SectionedFileReads` | thirdparty/gflags-2.1.0/src/gflags.cc:1255-1336 | for every file written as lines, with white space, comments and an end at a NUL anywhere: the settings are those of the flags before the first section and of exactly the sections in whose heads some word matches, in order, with texts that mean the values said |
| `FlagSections.HeadsAreRead` | thirdparty/gflags-2.1.0/src/gflags.cc:1303-1332 | lines of names in a row, whatever blank lines and comments stand between them, count together |
| `FlagFile.PrintedTextReads` | thirdparty/gflags-2.1.0/src/gflags.cc:1255-1336 | a printed text asks for exactly the settings that were printed, in their order |
| `FlagFile.SettingsAreOneLiners` | thirdparty/gflags-2.1.0/src/gflags.cc:1255-1336 | no text asks for a setting with a newline or a NUL in it |
| `FlagRecursion.FlagsKept` | thirdparty/gflags-2.1.0/src/gflags.cc:1174-1197 | whatever a setting leads to, through files and the environment, it changes no name, type or validator, and neither adds nor removes a flag |
| `FlagRecursion.ProcessAllMore` | thirdparty/gflags-2.1.0/src/gflags.cc:1174-1197 | errors and undefined names noted before make no difference to what settings do |
| `FlagRecursion.BoundIsEnough` | thirdparty/gflags-2.1.0/src/gflags.cc:1113-1172 | if a bound on how deeply files and variables refer to each other is enough, every greater one gives the same flags, errors and end |
| `FlagTermination.EndsExactly` | thirdparty/gflags-2.1.0/src/gflags.cc:1113-1197 | for each of the three modes and any flags, settings, files and variables: the reading goes on for ever, beyond every bound, if and only if in its course a recursive flag is asked to act on a value while it is acting on it; otherwise a bound computed from the texts is enough, which is 3 where values are kept |
| `FlagTermination.SearchIsReading` | thirdparty/gflags-2.1.0/src/gflags.cc:1113-1197 | looking for such a value passes and ends where the reading does, and knows which values are kept, from the recursive settings alone |
| `FlagTermination.TrapHolds` | thirdparty/gflags-2.1.0/src/gflags.cc:1113-1197 | where each of some values leads to one of them, and everything before to what comes back, the code never comes back |
| `FlagTermination.GradedReadingEnds` | thirdparty/gflags-2.1.0/src/gflags.cc:1113-1197 | in every mode: if the values that recursive flags act on can be graded so that each leads only to lower ones, reading ends within as many levels as grades |
| `FlagTermination.RankedEnds` | thirdparty/gflags-2.1.0/src/gflags.cc:1113-1172 | for explicit settings and for new defaults: if every file and every variable of a known flag lists only files and variables of less height, reading ends |
| `FlagTermination.RankedNamesEnd` | thirdparty/gflags-2.1.0/src/gflags.cc:855-866 | for settings of flags at their default: if the recursive flags set in files rank below flagfile, and those set by variables below fromenv and tryfromenv, reading ends within three levels |
| `FlagTermination.AskedAgainNeverEnds` | thirdparty/gflags-2.1.0/src/gflags.cc:1174-1197 | in every mode: if the first recursive setting that a value leads to makes the same flag act on the same value, no bound is enough |
| `FlagTermination.SelfReferenceNeverEnds` | thirdparty/gflags-2.1.0/src/gflags.cc:1113-1126 | in every mode a flag file, of any name and content, whose first recursive setting asks for it again is read for ever; where values are kept, also one that asks for any other file |
| `FlagRecursion.QuietIsPlain` | thirdparty/gflags-2.1.0/src/gflags.cc:1174-1197 | settings that leave the recursive flags empty do what they do to their own flags and nothing else |
| `FlagRecursion.RoundTrip` | thirdparty/gflags-2.1.0/src/gflags.cc:1715-1741 | if the saved recursive flags are empty and no saved string has a newline or NUL, reading a printed report restores every value from any other state of the same flags, without an error, whatever files and variables there are |
| `FlagRecursion.UnreadableFlagfile` | thirdparty/gflags-2.1.0/src/gflags.cc:1113-1126 | if the saved flagfile names a file that cannot be read by then, reading the printed report never comes to its end and restores nothing: the program is ended, or files lead to files beyond the bound |
| `FlagRecursion.TextsGiveCleanValues` | thirdparty/gflags-2.1.0/src/gflags.cc:1113-1197 | if no environment variable has a newline or NUL in it, no text and no file that it refers to can give a flag such a value |
| `FlagRecursion.EnvironmentIsTaken` | thirdparty/gflags-2.1.0/src/gflags.cc:1128-1172 | the condition is needed: fromenv gives a string flag whatever its variable holds |
| `FlagSources.FlagfileIsObeyed` | thirdparty/gflags-2.1.0/src/gflags.cc:1113-1126 | --flagfile with a list of files: what they say, sections included, is obeyed in their order; a file that is not there ends the program after those before it |
| `FlagSources.FromenvIsObeyed` | thirdparty/gflags-2.1.0/src/gflags.cc:1128-1172 | --fromenv and --tryfromenv with a list of flags: each gets the value its variable means; an error for every unknown name and every variable that would read variables, and for a missing one with --fromenv only |
| `FlagRecursion.RoundTripExactly` | thirdparty/gflags-2.1.0/src/gflags.cc:1715-1741 | so with empty recursive flags, from a state of clean values and in a clean environment, the round trip works if and only if no saved string has a newline or NUL |
| `Gflags.CommandLineFlag.UpdateModifiedBit` | thirdparty/gflags-2.1.0/src/gflags.cc:581-587 | marks a flag whose value differs from its default |
| `Gflags.CommandLineFlag.CopyFrom` | thirdparty/gflags-2.1.0/src/gflags.cc:589-596 | everything but name and type becomes that of the other flag |
| `Gflags.FlagRegistry.RegisterFlag` | thirdparty/gflags-2.1.0/src/gflags.cc:709-731 | a new name is added; a known one is refused |
| `Gflags.FlagRegistry.FindFlagLocked` | thirdparty/gflags-2.1.0/src/gflags.cc:733-740 | the flag of that name or none |
| `Gflags.FlagRegistry.SplitArgumentLocked` | thirdparty/gflags-2.1.0/src/gflags.cc:751-807 | finds the flag and the text as the specification function says, the no form and the bare boolean included |
| `Gflags.TryParseLocked` | thirdparty/gflags-2.1.0/src/gflags.cc:809-840 | the value is copied only if the text is legal and passes the validator; otherwise nothing changes |
| `Gflags.FlagRegistry.SetFlagLocked` | thirdparty/gflags-2.1.0/src/gflags.cc:842-885 | new state and success are those of the specification of the three modes |
| `FlagParser.EffectJoin` | thirdparty/gflags-2.1.0/src/gflags.cc:1017-1111 | settings are made in the order of the command line, piece after piece |
| `FlagParser.CommandLineFlagParser.ProcessSingleOptionLocked` | thirdparty/gflags-2.1.0/src/gflags.cc:1174-1197 | one setting, an error for the flag if it fails, and if it succeeds, what the recursive flag then asks for |
| `FlagParser.CommandLineFlagParser.ProcessFlagfileLocked` | thirdparty/gflags-2.1.0/src/gflags.cc:1113-1126 | all settings of the listed files, in order; the program ends at a bad list or at the first file that is not there |
| `FlagParser.CommandLineFlagParser.ProcessFromenvLocked` | thirdparty/gflags-2.1.0/src/gflags.cc:1128-1172 | the listed flags get what their variables hold; unknown flags, missing variables (for fromenv only) and the names of the recursive flags as values are errors |
| `FlagParser.CommandLineFlagParser.MoveToEnd` | thirdparty/gflags-2.1.0/src/gflags.cc:1031-1032 | the argument goes to the end and those after it move up |
| `FlagParser.CommandLineFlagParser.ReadArgument` | thirdparty/gflags-2.1.0/src/gflags.cc:1024-1091 | one turn of the loop, for each kind of argument, with all that its setting leads to |
| `FlagParser.CommandLineFlagParser.ParseNewCommandLineFlags` | thirdparty/gflags-2.1.0/src/gflags.cc:1017-1111 | in place: program, options with their values, the part after --, the other arguments; where the rest begins, with and without removal; all settings made, what the recursive flags ask for included, and all errors noted; and it goes on for ever exactly if something is asked for again |
| `FlagParser.CommandLineFlagParser.ParseItems` | thirdparty/gflags-2.1.0/src/gflags.cc:1017-1111 | after any command line that sets no recursive flag, every flag is what the items say, in value, default, modified bit and error, and the arguments left are the words and what follows -- |
| `FlagParser.CommandLineFlagParser.ReadSections` | thirdparty/gflags-2.1.0/src/gflags.cc:1255-1336 | after any file of sections that sets no recursive flag, every flag is what the sections for this program say |
| `FlagParser.CommandLineFlagParser.ReportErrors` | thirdparty/gflags-2.1.0/src/gflags.cc:1216-1253 | errors of undefined names that --undefok declares to be fine do not count, all others do; a bad list there ends the program |
| `FlagParser.CommandLineFlagParser.ProcessOptionsFromStringLocked` | thirdparty/gflags-2.1.0/src/gflags.cc:1255-1336 | the scanner over the text makes exactly the settings of the line by line specification, sections of file names included, with what the recursive flags ask for |
| `FlagParser.FlagSaverImpl.SaveFromRegistry` | thirdparty/gflags-2.1.0/src/gflags.cc:1649-1664 | copies of every flag, apart from the registry |
| `FlagParser.FlagSaverImpl.RestoreToRegistry` | thirdparty/gflags-2.1.0/src/gflags.cc:1670-1679 | whatever happened since: modified bit, value, default and validator of every saved flag are as saved |
| `FlagParser.GetAllFlags` | thirdparty/gflags-2.1.0/src/gflags.cc:1436-1448 | reports every flag with its printed value |
| `FlagParser.TheseCommandlineFlagsIntoString` | thirdparty/gflags-2.1.0/src/gflags.cc:1715-1735 | prints the report |
| `FlagParser.CommandlineFlagsIntoString` | thirdparty/gflags-2.1.0/src/gflags.cc:1737-1741 | prints a report of all flags |
| `FlagParser.ReadFlagsFromString` | thirdparty/gflags-2.1.0/src/gflags.cc:1743-1764 | all or nothing: if an error counts, every flag is as before, those set through files and variables included, or the program ends if errors are fatal; the reading goes on for ever exactly if something is asked for again |
| `Zmalloc.TotalWithout` | redis/src/zmalloc.cc:8-16 | the memory of the live blocks can be counted in any order |
| `Zmalloc.Allocator.Malloc` | redis/src/zmalloc.cc:26-36 | used memory stays the sum of size and prefix over the live blocks, one more of them |
| `Zmalloc.Allocator.Remalloc` | redis/src/zmalloc.cc:39-56 | the same when a block grows, shrinks or moves |
| `Zmalloc.Allocator.Free` | redis/src/zmalloc.cc:58-64 | the same for one block less; only live blocks can be freed |
| `Adlist.List.constructor` | redis/src/adlist.cc:30-43 | an empty list, its block accounted for |
| `Adlist.List.AddNodeHead` | redis/src/adlist.cc:75-89 | the sequence grows at the front; links, length and accounting stay right |
| `Adlist.List.AddNodeTail` | redis/src/adlist.cc:91-105 | the sequence grows at the end; links, length and accounting stay right |
| `Adlist.List.DelNode` | redis/src/adlist.cc:107-131 | exactly that node leaves the sequence, its value goes to the callback once, its block is freed |
| `Adlist.List.SearchKey` | redis/src/adlist.cc:133-153 | the first node that matches, or none; the memory in use is unchanged on every way out |
| `Adlist.List.Index` | redis/src/adlist.cc:155-164 | the node at that place, or none |
| `Adlist.List.Dup` | redis/src/adlist.cc:166-196 | a new list of the copied values; if a copy fails, all memory is given back and the copies made go to the callback |
| `Adlist.List.Release` | redis/src/adlist.cc:45-59 | every block of the list is freed once and every value goes to the callback, in order |
| `Adlist.List.GetIterator` | redis/src/adlist.cc:198-207 | an iterator before the first or the last node |
| `Adlist.List.ReleaseIter` | redis/src/adlist.cc:209-211 | the iterator is freed |
| `Adlist.ListIter.Next` | redis/src/adlist.cc:213-222 | the nodes in order, or in reverse, then none |
| `Adlist.ListIter.Rewind` | redis/src/adlist.cc:224-227 | starts again at the head |
| `Adlist.ListIter.RewindTail` | redis/src/adlist.cc:229-232 | starts again at the tail, backwards |
| `Adlist.Sweep` | redis/src/adlist.cc:213-222 | in both directions a walk visits every node in order even if nodes just returned are deleted, and what was not deleted stays |
| `Adlist.JoinAround` | redis/src/adlist.cc:107-131 | linking the neighbours of a node to each other leaves a well-linked chain of all the others |
| `Adlist.Live` | redis/src/adlist.cc:45-59 | over every run: after any pushes and removals and the release all memory is given back, and the callback has been called with the removed values in order and then with the others in order |
| `Adlist.EveryValueOnce` | redis/src/adlist.cc:107-131 | that is, once with every value that was pushed |
| `Sds.SdsString.constructor` | redis/src/sds.cc:13-30 | the content, an end mark, no free byte, a block of exactly that size |
| `Sds.SdsString.Release` | redis/src/sds.cc:41-46 | exactly the block of the string is freed |
| `Sds.SdsString.Clear` | redis/src/sds.cc:58-62 | no content, all room kept, the bytes unchanged |
| `Sds.SdsString.MakeRoomFor` | redis/src/sds.cc:64-78 | the content stays; if the room was too small it more than doubles in a new block, and no other block changes |
| `Sds.SdsString.CatLen` | redis/src/sds.cc:80-94 | the content followed by the new bytes, in the same block if there was room and else in a new one |
| `Sds.SdsString.CpyLen` | redis/src/sds.cc:100-117 | the new bytes, in the same block if there was room and else in a new one |
| `Sds.SdsString.Trim` | redis/src/sds.cc:139-156 | the content and the byte after it, stripped at both ends; this is the stripped content if and only if that byte is one to strip |
| `Sds.SdsString.Range` | redis/src/sds.cc:158-181 | the part between the two indices, which may count from the end; a last index behind the content takes free bytes of the block with it |
| `Sds.StripIsTheMiddle` | redis/src/sds.cc:139-156 | what is left is the part between the bytes to strip at both ends, and nothing else |
| `Sds.RangeCuts` | redis/src/sds.cc:158-181 | the usual cuts: everything, all but the first bytes, the first bytes, the last bytes |
| `Sds.Live` | redis/src/sds.cc:64-78 | for every sequence of operations on a new string: each makes of the content what it says, the block changed at most 1 + log2(n) times, counted over the blocks themselves, where n is the greatest length of the content, and no other block changed |
| `Sds.Longest` | redis/src/sds.cc:64-78 | the greatest length of the contents, which bounds all of them and is reached |
| `Sds.LiveAndRelease` | redis/src/sds.cc:41-46 | after any such life and the release of the string the memory in use is as before |
| `Sds.ClearThenTrim` | redis/src/sds.cc:139-156 | trimming what was cleared brings its first byte back, if that byte is not one to strip |
| `Dict.NextPower` | redis/src/dict.cc:95-103 | the least power of two that is at least 4 and the size, for sizes up to LONG_MAX |
| `Dict.MaskIsRemainder` | redis/src/dict.cc:193-194 | masking with a power of two less one is the remainder |
| `Dict.LookupIsRightWithoutCollisions` | redis/src/dict.cc:187-236 | the first pair in the bucket of every inserted key is the latest pair of that key if and only if no two different inserted keys share a bucket |
| `Dict.HashTable.constructor` | redis/src/dict.cc:121-171 | four empty buckets, no entries, the blocks accounted for |
| `Dict.HashTable.Add` | redis/src/dict.cc:187-200 | each chain is the reverse insertion order of its keys; one new entry and one block more |
| `Dict.HashTable.GetEntry` | redis/src/dict.cc:223-236 | the entry inserted last among those of the bucket; if the bucket is empty, the code reads through the null pointer of the second table |
| `Dict.HashTable.Find` | redis/src/dict.cc:238-240 | the value of that entry, where there is one; without collisions, for an inserted key, the value inserted last under it |
| `Dict.HashTable.Release` | redis/src/dict.cc:173-178 | every block is freed once |
| `Dict.ReleaseChain` | redis/src/dict.cc:129-138 | every entry of a chain is freed once |
| `Dict.Fill` | redis/src/dict.cc:187-200 | a new table holds what was inserted, in order |
| `Dict.FillAndRelease` | redis/src/dict.cc:173-178 | over the whole life of a table all memory is given back, whatever was inserted and however it is hashed |
| `Expectations.ExpectationBase.RetireAllPreRequisites` | thirdparty/gmock-1.6.0/src/gmock-spec-builders.cc:95-110 | retires exactly the expectations that come before, and keeps retirement closed |
| `Expectations.ExpectationBase.AllPrerequisitesAreSatisfied` | thirdparty/gmock-1.6.0/src/gmock-spec-builders.cc:115-124 | true exactly if all expectations that come before are satisfied, however far |
| `Expectations.ExpectationBase.FindUnsatisfiedPrerequisites` | thirdparty/gmock-1.6.0/src/gmock-spec-builders.cc:128-146 | adds only unsatisfied expectations that come before, and some exactly if there are any |
| `Expectations.ExpectationBase.After` | thirdparty/gmock-1.6.0/include/gmock/gmock-spec-builders.h:951-962 | the given expectations come before; the order stays acyclic |
| `Expectations.ExpectationBase.ShouldHandleArguments` | thirdparty/gmock-1.6.0/include/gmock/gmock-spec-builders.h:1080-1089 | active, matching, and all that comes before is satisfied |
| `Expectations.ExpectationBase.GetActionForArguments` | thirdparty/gmock-1.6.0/include/gmock/gmock-spec-builders.h:1174-1202 | a call too many is only counted; any other retires all that comes before; the invariants of the order are kept |
| `Expectations.Sequence.AddExpectation` | thirdparty/gmock-1.6.0/src/gmock-spec-builders.cc:768-776 | the new expectation comes after the one added last |
| `Expectations.FunctionMocker.FindMatchingExpectation` | thirdparty/gmock-1.6.0/include/gmock/gmock-spec-builders.h:1618-1631 | the newest expectation that should handle the call |
| `Expectations.FunctionMocker.Invoke` | thirdparty/gmock-1.6.0/include/gmock/gmock-spec-builders.h:1583-1605 | a call is handled only if all that comes before is satisfied, it is counted, and after a proper call none of what comes before can be called again; the order is kept |
| `Expectations.InOrderWith` | thirdparty/gmock-1.6.0/include/gmock/gmock-spec-builders.h:1506-1516 | a new expectation keeps the order and can be set up |
| `Expectations.ClosureIsUnique` | thirdparty/gmock-1.6.0/src/gmock-spec-builders.cc:768-776 | what comes before an expectation does not depend on expectations that are added later |
| `Expectations.CalledRetires` | thirdparty/gmock-1.6.0/include/gmock/gmock-spec-builders.h:1174-1202 | all that comes before an expectation with a proper call is retired and satisfied |
| `Expectations.Play` | thirdparty/gmock-1.6.0/include/gmock/gmock-spec-builders.h:1583-1605 | over every test, any expectations set up after others and in sequences, and any calls of any mock functions in between: named predecessors are kept; the order holds; no call is handled by an expectation that comes before one with an earlier proper call, and all that comes before such a one is satisfied at the end |
| `Expectations.OrderMeansCalledInOrder` | thirdparty/gmock-1.6.0/src/gmock-spec-builders.cc:132-137 | wherever the order holds, a satisfied expectation that has been called comes after satisfied ones only |
| `Expectations.ClosedAncestors` | thirdparty/gmock-1.6.0/src/gmock-spec-builders.cc:96-100 | all that comes before a retired expectation is retired |

## Left out

- Integer widths in the demangler: numbers, the nest level and the buffer size are unbounded, so the wrap-around of a very long number or a very deep nesting is not modelled.
- Demangle.Demangle: no claim about the text in the buffer once some attempt, even one given up later, has outgrown the buffer; and none about a text in which the ordered reading meets a length below -1, on which the code need not end.
- DemangleGrammar.Eval: fails a length below -1 and records it, where the code goes back in the text; `DemangleCode.Code` has that case.
- Demangle.Demangler.ParseSourceName: where a length below -1 is met, it records that and fails, while the code succeeds and takes the cursor back; the method would not end otherwise. `DemangleCode.Code` follows the code there.
- Demangle.Demangler.ParseIdentifier: asks that a length below -1 leaves the cursor in the text; the code would read in front of it.
- DemangleRoundTrip.DemanglingUndoesMangling: not the discriminators of local names, local strings, expressions and packs as template arguments, literals of other than built-in types, casts to such types, vendor names and Java names; for them there is the grammar alone.
- Output of the demangler after overflow, and its terminating NUL for names that append nothing; `Append` says what a single call leaves.
- `MurmurHash3_x86_128`, which repeats the argument of the other two, and `commonHash`, which keeps half of the output.
- MurmurHash3.MurmurHash3X86: blocks are read as little-endian words, and the key is shorter than 2^31 bytes, as the int length demands.
- UniquePrefixes.CorrectBooleans: leaves out the case of a boolean flag named like the negation of another, where the order of the dictionary decides; `OrderIsIrrelevantExactly` says so.
- FlagParser.CommandLineFlagParser.ParseItems: leaves out settings of the recursive flags, which `FlagSources` has one by one.
- FlagParser.CommandLineFlagParser.ReadSections: leaves them out, too, and speaks of explicit settings, as for the command line.
- UniquePrefixes.ShortestUniquePrefixes: takes the names in sorted order; the sorting itself is Python's.
- The getopt part of the Python argument parser, and flags with several values.
- Values of type double in gflags, and the texts of messages: an error is the name it is noted under.
- FlagRecursion.Process: files and variables are maps that do not change while they are read, and how deeply they refer to each other has a bound. Where it is not enough the outcome is `TooDeep`; `FlagTermination.EndsExactly` says which bound is enough, and that the code goes on for ever exactly where none is.
- FlagSemantics.EachFlagRunsAlone: speaks of the settings themselves; what recursive flags lead to is left to FlagRecursion.
- After the program has ended itself (a bad list of flags, a file that is not there, fatal errors) nothing is claimed but that no flag changes any more.
- `ParseCommandLineFlagsInternal`, which strings the parts of the parser together, and `ValidateAllFlags`.
- Locks, help and completion in gflags.
- FlagParser.GetAllFlags: leaves the order of the report open; the code sorts it by file and name.
- FlagParser.CommandlineFlagsIntoString: leaves the same order open; what is proved of the text holds for every order.
- Validate functions in gflags are taken to answer the same each time they are asked.
- The name of the program and glob matching against it in flag files are one parameter, the words that match.
- Wrap-around of sizes in the allocator, and running out of memory, where the code aborts.
- Memory itself: a block is an object, `malloc` is its creation, and its size is the size the code asks for. The value a list node points to is not followed; a free callback is what it has been called with, in order, and a dup callback is a function of the value.
- Sds.SdsString.CatLen: the new bytes are a value, so a source inside the string's own buffer is not modelled.
- Sds.SdsString.Range: asks for a last index inside the block and room for the terminator, which the code does not check; beyond that it touches other memory.
- `sdscmp` and the case conversions, which would add easy members only.
- Dict.HashTable.GetEntry: where a bucket is empty, the code reads through the null pointer of the second table; the outcome says so (`ReadsThroughNull`), and nothing is said of what happens then.
- `dictExpand` after creation, the count of entries (which the code updates in a copy), private data and rehashing.
- A change of the hash function during the life of a dict.
- Matchers and actions in Google Mock: whether the arguments of a call match is a parameter. Mock objects, their deletion and messages are not modelled, nor locks.
- Expectations.ExpectationBase.After: an expectation gets its predecessors while it is being set up, before it is called or comes before another one.
- glog's logging, signal handling, stack unwinding and ELF reading.

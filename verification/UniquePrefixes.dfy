/** ShortestUniquePrefixes and the rewriting of boolean arguments (thirdparty/gflags/gflags.py):
    one scan over sorted neighbours finds, for each flag name, the shortest prefix that
    distinguishes it from all other names. */
module UniquePrefixes {
  import opened Wrappers

  // ---------------------------------------------------------------------------
  // Sorted names

  /** The order of Python's strings. */
  predicate LexLeq(a: string, b: string) {
    a == "" || (b != "" && (a[0] < b[0] || (a[0] == b[0] && LexLeq(a[1..], b[1..]))))
  }

  ghost predicate Sorted(names: seq<string>) {
    forall i, j :: 0 <= i < j < |names| ==> LexLeq(names[i], names[j])
  }

  /** Whatever two strings begin with, every string between them begins with. */
  lemma {:induction false} Sandwich(a: string, b: string, c: string, p: string)
    requires LexLeq(a, b) && LexLeq(b, c) && p <= a && p <= c
    ensures p <= b
    decreases |p|
  {
    if p != "" {
      assert a[0] == p[0] && c[0] == p[0];
      Sandwich(a[1..], b[1..], c[1..], p[1..]);
    }
  }

  // ---------------------------------------------------------------------------
  // What the shortest unique prefix is

  /** Some entry other than the i-th begins with p. */
  ghost predicate Shared(names: seq<string>, i: nat, p: string) {
    exists j :: 0 <= j < |names| && j != i && p <= names[j]
  }

  /** p is the shortest non-empty prefix of the i-th name that no other entry begins with, or the
      whole name if there is none. */
  ghost predicate IsShortestUnique(names: seq<string>, i: nat, p: string)
    requires i < |names|
  {
    && p != "" && p <= names[i]
    && (Shared(names, i, p) ==> p == names[i])
    && (forall n :: 0 < n < |p| ==> Shared(names, i, p[..n]))
  }

  /** Only the neighbours need to be looked at. */
  lemma NeighboursSuffice(names: seq<string>, i: nat, p: string)
    requires Sorted(names) && i < |names| && p <= names[i] && Shared(names, i, p)
    ensures (i > 0 && p <= names[i - 1]) || (i + 1 < |names| && p <= names[i + 1])
  {
    var j :| 0 <= j < |names| && j != i && p <= names[j];
    if j < i - 1 {
      Sandwich(names[j], names[i - 1], names[i], p);
    } else if i + 1 < j {
      Sandwich(names[i], names[i + 1], names[j], p);
    }
  }

  /** The length of the longest common prefix. */
  function Common(a: string, b: string): (n: nat)
    ensures n <= |a| && n <= |b|
  {
    if a == "" || b == "" || a[0] != b[0] then 0 else 1 + Common(a[1..], b[1..])
  }

  lemma {:induction false} CommonIsPrefix(a: string, b: string, n: nat)
    requires n <= |a|
    ensures a[..n] <= b <==> n <= Common(a, b)
  {
    if n > 0 && b != "" && a[0] == b[0] {
      CommonIsPrefix(a[1..], b[1..], n - 1);
      assert a[..n] == [a[0]] + a[1..][..n - 1];
      assert b == [b[0]] + b[1..];
    }
  }

  function Take(s: string, n: nat): string { if n < |s| then s[..n] else s }

  /** What is longer than both neighbours' common prefixes is unique, and nothing shorter is. */
  lemma TakeIsShortest(names: seq<string>, i: nat, before: nat, after: nat)
    requires Sorted(names) && i < |names| && names[i] != ""
    requires before == if i == 0 then 0 else Common(names[i], names[i - 1])
    requires after == if i + 1 == |names| then 0 else Common(names[i], names[i + 1])
    ensures IsShortestUnique(names, i, Take(names[i], Max(before, after) + 1))
  {
    var curr, p := names[i], Take(names[i], Max(before, after) + 1);
    if Shared(names, i, p) {
      NeighboursSuffice(names, i, p);
      if i > 0 { CommonIsPrefix(curr, names[i - 1], |p|); }
      if i + 1 < |names| { CommonIsPrefix(curr, names[i + 1], |p|); }
      assert curr[..|p|] == p;
    }
    forall n | 0 < n < |p| ensures Shared(names, i, p[..n]) {
      assert p[..n] == curr[..n];
      if i > 0 { CommonIsPrefix(curr, names[i - 1], n); }
      if i + 1 < |names| { CommonIsPrefix(curr, names[i + 1], n); }
    }
  }

  // ---------------------------------------------------------------------------
  // The scan

  lemma {:induction false} CommonSymmetric(a: string, b: string)
    ensures Common(a, b) == Common(b, a)
  {
    if a != "" && b != "" { CommonSymmetric(a[1..], b[1..]); }
  }

  lemma CommonFound(a: string, b: string, n: nat)
    requires n <= |a| && n <= |b| && a[..n] == b[..n] && (n < |a| && n < |b| ==> a[n] != b[n])
    ensures Common(a, b) == n
  {
    CommonIsPrefix(a, b, n);
    if n < |a| { CommonIsPrefix(a, b, n + 1); }
    assert n < |a| && n < |b| ==> a[..n + 1][n] != b[n];
  }

  /** Where equal names occur, each is its own shortest prefix. */
  lemma EqualNames(names: seq<string>, i: nat, j: nat, p: string)
    requires i < |names| && j < |names| && names[i] == names[j]
    requires IsShortestUnique(names, i, p)
    ensures IsShortestUnique(names, j, p)
  {
    if i != j {
      forall n | 0 < n < |p| ensures Shared(names, j, p[..n]) {
        assert p[..n] <= names[i];
      }
      assert Shared(names, i, p);
    }
  }

  /** Compare a name with the next one, if there is one. */
  method PartingPoint(curr: string, last: bool, next: string) returns (currIdx: nat)
    requires curr != ""
    ensures currIdx == if last then 0 else Common(curr, next)
  {
    currIdx := 0;
    while currIdx < |curr|
      invariant 0 <= currIdx <= |curr|
      invariant last ==> currIdx == 0
      invariant !last ==> currIdx <= |next| && curr[..currIdx] == next[..currIdx]
    {
      if last || currIdx >= |next| || curr[currIdx] != next[currIdx] { break; }
      currIdx := currIdx + 1;
    }
    if !last { CommonFound(curr, next, currIdx); }
  }

  /** names is the list after its sort; an empty flag name cannot be registered. */
  method ShortestUniquePrefixes(names: seq<string>) returns (shortest: map<string, string>)
    requires Sorted(names) && "" !in names
    ensures shortest.Keys == set name | name in names
    ensures forall i :: 0 <= i < |names| ==> IsShortestUnique(names, i, shortest[names[i]])
  {
    hide Sorted, IsShortestUnique, Take;
    shortest := map[];
    var prevIdx := 0;
    for flagIdx := 0 to |names|
      invariant 0 < flagIdx < |names| ==> prevIdx == Common(names[flagIdx], names[flagIdx - 1])
      invariant flagIdx == 0 ==> prevIdx == 0
      invariant forall name :: name in shortest <==> name in names[..flagIdx]
      invariant forall i :: 0 <= i < flagIdx ==> IsShortestUnique(names, i, shortest[names[i]])
    {
      var curr := names[flagIdx];
      assert curr != "";
      var last := flagIdx == |names| - 1;
      var next := if last then "" else names[flagIdx + 1];
      var currIdx := PartingPoint(curr, last, next);
      TakeIsShortest(names, flagIdx, prevIdx, currIdx);
      CommonSymmetric(curr, next);
      WholeName(curr, Max(prevIdx, currIdx) + 1);
      ghost var p := Take(curr, Max(prevIdx, currIdx) + 1);
      if currIdx < |curr| {
        // curr goes on after it parts from the next name
        shortest := shortest[curr := Take(curr, Max(prevIdx, currIdx) + 1)];
      } else {
        // curr is a prefix of the next name
        shortest := shortest[curr := curr];
      }
      prevIdx := currIdx;
      forall i | 0 <= i < flagIdx + 1 ensures IsShortestUnique(names, i, shortest[names[i]]) {
        if names[i] == curr { EqualNames(names, flagIdx, i, p); }
      }
    }
    assert names[..|names|] == names;
  }

  lemma WholeName(s: string, n: nat)
    ensures n >= |s| ==> Take(s, n) == s
  {
  }

  // ---------------------------------------------------------------------------
  // Boolean arguments

  const DASHES := "--"

  /** arg abbreviates --form, and at least as long as --prefix. */
  predicate Claims(arg: string, form: string, prefix: string) {
    '=' !in arg && DASHES + prefix <= arg && arg <= DASHES + form
  }

  /** shortest holds the shortest unique prefix of each entry. */
  ghost predicate Shortest(names: seq<string>, shortest: map<string, string>) {
    forall k :: 0 <= k < |names| ==> names[k] in shortest && IsShortestUnique(names, k, shortest[names[k]])
  }

  /** No argument is claimed by two different names. */
  lemma OneClaim(names: seq<string>, shortest: map<string, string>, arg: string, i: nat, j: nat)
    requires i < |names| && j < |names| && Shortest(names, shortest)
    requires Claims(arg, names[i], shortest[names[i]]) && Claims(arg, names[j], shortest[names[j]])
    ensures names[i] == names[j]
  {
    var x, y, p, q := names[i], names[j], shortest[names[i]], shortest[names[j]];
    var a := arg[2..];
    assert arg == DASHES + a;
    assert p <= a && q <= a && a <= x && a <= y;
    if i != j {
      assert Shared(names, i, p) && Shared(names, j, q);
    }
  }

  /** A name that occurs twice can only be claimed by itself. */
  lemma TwiceMeansWhole(names: seq<string>, shortest: map<string, string>, i: nat, j: nat)
    requires i < j < |names| && names[i] == names[j] && Shortest(names, shortest)
    ensures shortest[names[i]] == names[i]
  {
    assert Shared(names, i, shortest[names[i]]);
  }

  datatype Flag = Flag(name: string, boolean: bool)

  function No(name: string): string { "no" + name }

  /** The list that ShortestUniquePrefixes sorts. */
  function AllNames(flags: seq<Flag>): seq<string> {
    if flags == [] then [] else Own(flags[0]) + AllNames(flags[1..])
  }

  function Own(flag: Flag): seq<string> {
    [flag.name] + if flag.boolean then [No(flag.name)] else []
  }

  /** shortest is the answer of ShortestUniquePrefixes for the flags of a dictionary, which have different names. */
  ghost predicate Answers(flags: seq<Flag>, names: seq<string>, shortest: map<string, string>) {
    && (forall f, g :: f in flags && g in flags && f.name == g.name ==> f == g)
    && multiset(names) == multiset(AllNames(flags)) && Shortest(names, shortest)
  }

  function Form(flag: Flag, value: bool): string { if value then flag.name else No(flag.name) }

  function Assignment(flag: Flag, value: bool): string {
    DASHES + flag.name + (if value then "=true" else "=false")
  }

  /** arg abbreviates the flag's name, or (for value false) that name with "no" in front. */
  predicate ClaimedBy(arg: string, flag: Flag, value: bool, shortest: map<string, string>) {
    && flag.boolean && flag.name in shortest && No(flag.name) in shortest
    && Claims(arg, Form(flag, value), shortest[Form(flag, value)])
  }

  function RewriteOne(flag: Flag, shortest: map<string, string>, arg: string): string {
    if ClaimedBy(arg, flag, true, shortest) then Assignment(flag, true)
    else if ClaimedBy(arg, flag, false, shortest) then Assignment(flag, false)
    else arg
  }

  function Rewrite(flags: seq<Flag>, shortest: map<string, string>, arg: string): string {
    if flags == [] then arg else Rewrite(flags[1..], shortest, RewriteOne(flags[0], shortest, arg))
  }

  /** The loops over the flags, in whatever order the dictionary yields them, and over argv. */
  method RewriteBooleans(argv: array<string>, flags: seq<Flag>, shortest: map<string, string>)
    requires forall f :: f in flags && f.boolean ==> f.name in shortest && No(f.name) in shortest
    modifies argv
    ensures forall i :: 0 <= i < argv.Length ==>
      argv[i] == if i == 0 then old(argv[i]) else Rewrite(flags, shortest, old(argv[i]))
  {
    ghost var argv0 := argv[..];
    for n := 0 to |flags|
      invariant forall i :: 0 < i < argv.Length ==>
        Rewrite(flags[n..], shortest, argv[i]) == Rewrite(flags, shortest, argv0[i])
      invariant argv.Length > 0 ==> argv[0] == argv0[0]
    {
      assert flags[n..][1..] == flags[n + 1..];
      if flags[n].boolean {
        RewriteFlag(argv, flags[n], shortest);
      }
    }
  }

  method RewriteFlag(argv: array<string>, flag: Flag, shortest: map<string, string>)
    requires flag.boolean && flag.name in shortest && No(flag.name) in shortest
    modifies argv
    ensures forall i :: 0 <= i < argv.Length ==>
      argv[i] == if i == 0 then old(argv[i]) else RewriteOne(flag, shortest, old(argv[i]))
  {
    var prefix, noPrefix := shortest[flag.name], shortest[No(flag.name)];
    ghost var argv0 := argv[..];
    var i := 1;
    while i < argv.Length
      invariant 1 <= i
      invariant forall k :: 0 <= k < argv.Length ==>
        argv[k] == if 1 <= k < i then RewriteOne(flag, shortest, argv0[k]) else argv0[k]
    {
      var arg := argv[i];
      if '=' in arg {
      } else if DASHES + prefix <= arg && arg <= DASHES + flag.name {
        argv[i] := DASHES + flag.name + "=true";
      } else if DASHES + noPrefix <= arg && arg <= DASHES + No(flag.name) {
        argv[i] := DASHES + flag.name + "=false";
      }
      i := i + 1;
    }
  }

  lemma {:induction false} EqualsSignSettles(flags: seq<Flag>, shortest: map<string, string>, arg: string)
    requires '=' in arg
    ensures Rewrite(flags, shortest, arg) == arg
  {
    if flags != [] { EqualsSignSettles(flags[1..], shortest, arg); }
  }

  lemma {:induction false} FormIsName(flags: seq<Flag>, f: Flag, value: bool)
    requires f in flags && (value || f.boolean)
    ensures Form(f, value) in AllNames(flags)
  {
    if flags[0] != f {
      FormIsName(flags[1..], f, value);
    }
  }

  lemma FormHasPrefix(flags: seq<Flag>, names: seq<string>, shortest: map<string, string>, f: Flag, value: bool)
    returns (k: nat)
    requires Answers(flags, names, shortest) && f in flags && f.boolean
    ensures k < |names| && names[k] == Form(f, value) && Form(f, value) in shortest
  {
    hide AllNames, IsShortestUnique;
    FormIsName(flags, f, value);
    assert Form(f, value) in multiset(AllNames(flags));
    k :| 0 <= k < |names| && names[k] == Form(f, value);
  }

  /** The negation of f is the name of g. */
  predicate Collide(f: Flag, g: Flag) {
    f.boolean && g.boolean && g.name == No(f.name)
  }

  /** Two flags, or a flag and its negation, that give one name give it twice. */
  lemma {:induction false} EntriesCount(flags: seq<Flag>, f: Flag, v: bool, g: Flag, w: bool)
    requires f in flags && g in flags && (v || f.boolean) && (w || g.boolean) && (f != g || v != w)
    requires Form(f, v) == Form(g, w)
    ensures multiset(AllNames(flags))[Form(f, v)] >= 2
  {
    var x, rest := Form(f, v), flags[1..];
    var own := Own(flags[0]);
    if flags[0] == f || flags[0] == g {
      var h, u, o, t := if flags[0] == f then f else g, if flags[0] == f then v else w,
                        if flags[0] == f then g else f, if flags[0] == f then w else v;
      assert x == own[if u then 0 else 1];
      assert x in multiset(own);
      assert h == o ==> |Form(h, u)| != |Form(o, t)|;
      FormIsName(rest, o, t);
      assert x in multiset(AllNames(rest));
    } else {
      EntriesCount(rest, f, v, g, w);
    }
  }

  lemma {:induction false} TwoPlaces(names: seq<string>, x: string) returns (i: nat, j: nat)
    requires multiset(names)[x] >= 2
    ensures i < j < |names| && names[i] == names[j] == x
  {
    assert names == [names[0]] + names[1..];
    if names[0] == x {
      assert x in multiset(names[1..]);
      var k :| 0 <= k < |names| - 1 && names[1..][k] == x;
      i, j := 0, k + 1;
    } else {
      i, j := TwoPlaces(names[1..], x);
      i, j := i + 1, j + 1;
    }
  }

  /** Colliding names that can be given as arguments: an argument with an equals sign is left alone. */
  ghost predicate Clash(flags: seq<Flag>) {
    exists f, g :: f in flags && g in flags && Collide(f, g) && '=' !in g.name
  }

  /** At most one flag claims an argument, and for at most one value. */
  lemma OneClaimant(flags: seq<Flag>, names: seq<string>, shortest: map<string, string>, arg: string,
                    f: Flag, v: bool, g: Flag, w: bool)
    requires Answers(flags, names, shortest) && !Clash(flags) && f in flags && g in flags
    requires ClaimedBy(arg, f, v, shortest) && ClaimedBy(arg, g, w, shortest)
    ensures f == g && v == w
  {
    hide AllNames, IsShortestUnique;
    var i := FormHasPrefix(flags, names, shortest, f, v);
    var j := FormHasPrefix(flags, names, shortest, g, w);
    OneClaim(names, shortest, arg, i, j);
    assert No(f.name)[2..] == f.name && No(g.name)[2..] == g.name;
    if v && !w { NotClaimedTwice(flags, names, shortest, arg, g, f); }
    if w && !v { NotClaimedTwice(flags, names, shortest, arg, f, g); }
  }

  lemma NotClaimedTwice(flags: seq<Flag>, names: seq<string>, shortest: map<string, string>, arg: string,
                        f: Flag, g: Flag)
    requires Answers(flags, names, shortest) && f in flags && g in flags && Collide(f, g)
    requires ClaimedBy(arg, g, true, shortest)
    ensures Clash(flags)
  {
    hide AllNames, IsShortestUnique;
    EntriesCount(flags, f, false, g, true);
    var i, j := TwoPlaces(names, g.name);
    TwiceMeansWhole(names, shortest, i, j);
    assert arg == DASHES + g.name;
    assert arg[2..] == g.name;
  }

  /** An argument that a flag claims becomes that flag's assignment, whatever the order of the flags. */
  lemma {:induction false} ClaimIsHonoured(flags: seq<Flag>, names: seq<string>, shortest: map<string, string>,
                                           order: seq<Flag>, arg: string, f: Flag, value: bool)
    requires Answers(flags, names, shortest) && !Clash(flags) && forall h :: h in order ==> h in flags
    requires f in order && ClaimedBy(arg, f, value, shortest)
    ensures Rewrite(order, shortest, arg) == Assignment(f, value)
  {
    hide Answers, ClaimedBy, Clash;
    var h := order[0];
    forall w | ClaimedBy(arg, h, w, shortest) ensures h == f && w == value {
      OneClaimant(flags, names, shortest, arg, h, w, f, value);
    }
    if h == f {
      assert '=' in Assignment(f, value);
      EqualsSignSettles(order[1..], shortest, Assignment(f, value));
    } else {
      ClaimIsHonoured(flags, names, shortest, order[1..], arg, f, value);
    }
  }

  /** No other argument changes. */
  lemma {:induction false} OthersAreKept(flags: seq<Flag>, shortest: map<string, string>, arg: string)
    requires forall f, v :: f in flags ==> !ClaimedBy(arg, f, v, shortest)
    ensures Rewrite(flags, shortest, arg) == arg
  {
    if flags != [] { OthersAreKept(flags[1..], shortest, arg); }
  }

  /** Whichever flag comes first in the dictionary gets the argument. */
  lemma FirstFlagWins(flags: seq<Flag>, names: seq<string>, shortest: map<string, string>, f: Flag, value: bool,
                      rest: seq<Flag>)
    requires Answers(flags, names, shortest) && f in flags && f.boolean && '=' !in Form(f, value)
    ensures Rewrite([f] + rest, shortest, DASHES + Form(f, value)) == Assignment(f, value)
  {
    hide AllNames, IsShortestUnique;
    var arg := DASHES + Form(f, value);
    var i := FormHasPrefix(flags, names, shortest, f, value);
    var j := FormHasPrefix(flags, names, shortest, f, !value);
    ShortestIsPrefix(names, shortest, i);
    assert ClaimedBy(arg, f, value, shortest);
    assert !ClaimedBy(arg, f, !value, shortest) by {
      if ClaimedBy(arg, f, !value, shortest) { OneClaim(names, shortest, arg, i, j); }
    }
    assert ([f] + rest)[1..] == rest;
    assert '=' in Assignment(f, value);
    EqualsSignSettles(rest, shortest, Assignment(f, value));
  }

  lemma ShortestIsPrefix(names: seq<string>, shortest: map<string, string>, k: nat)
    requires Shortest(names, shortest) && k < |names|
    ensures shortest[names[k]] <= names[k]
  {
  }

  /** Every order of the flags rewrites every argument alike. */
  ghost predicate OrderIsIrrelevant(flags: seq<Flag>, shortest: map<string, string>) {
    forall order, arg :: multiset(order) == multiset(flags) ==>
      Rewrite(order, shortest, arg) == Rewrite(flags, shortest, arg)
  }

  /** The order in which the dictionary yields the flags makes no difference exactly if no boolean flag is named like
      the negation of another. */
  lemma OrderIsIrrelevantExactly(flags: seq<Flag>, names: seq<string>, shortest: map<string, string>)
    requires Answers(flags, names, shortest)
    ensures OrderIsIrrelevant(flags, shortest) <==> !Clash(flags)
  {
    hide Answers, ClaimedBy;
    if Clash(flags) {
      ClashShows(flags, names, shortest);
    } else {
      hide Clash;
      forall order, arg | multiset(order) == multiset(flags)
        ensures Rewrite(order, shortest, arg) == Rewrite(flags, shortest, arg)
      {
        forall h ensures h in order <==> h in flags { assert h in multiset(order) <==> h in multiset(flags); }
        if exists f, v :: f in flags && ClaimedBy(arg, f, v, shortest) {
          var f, v :| f in flags && ClaimedBy(arg, f, v, shortest);
          ClaimIsHonoured(flags, names, shortest, order, arg, f, v);
          ClaimIsHonoured(flags, names, shortest, flags, arg, f, v);
        } else {
          OthersAreKept(order, shortest, arg);
          OthersAreKept(flags, shortest, arg);
        }
      }
    }
  }

  lemma MoveToFront(flags: seq<Flag>, i: nat)
    requires i < |flags|
    ensures multiset([flags[i]] + (flags[..i] + flags[i + 1..])) == multiset(flags)
  {
    assert flags == flags[..i] + [flags[i]] + flags[i + 1..];
  }

  /** Of boolean flags x and nox, the first one in the dictionary gets --nox. */
  lemma ClashShows(flags: seq<Flag>, names: seq<string>, shortest: map<string, string>)
    requires Answers(flags, names, shortest) && Clash(flags)
    ensures !OrderIsIrrelevant(flags, shortest)
  {
    hide Answers, Rewrite;
    var f, g :| f in flags && g in flags && Collide(f, g) && '=' !in g.name;
    var arg := DASHES + g.name;
    var i :| 0 <= i < |flags| && flags[i] == f;
    var j :| 0 <= j < |flags| && flags[j] == g;
    var withoutF, withoutG := flags[..i] + flags[i + 1..], flags[..j] + flags[j + 1..];
    MoveToFront(flags, i);
    MoveToFront(flags, j);
    FirstFlagWins(flags, names, shortest, f, false, withoutF);
    FirstFlagWins(flags, names, shortest, g, true, withoutG);
    assert |Assignment(g, true)| == |f.name| + 9 && |Assignment(f, false)| == |f.name| + 8;
  }

  // ---------------------------------------------------------------------------
  // What the arguments become

  /** The flags are those of a dictionary. */
  ghost predicate IsDictionary(flags: seq<Flag>) {
    forall i, j :: 0 <= i < j < |flags| ==> flags[i].name != flags[j].name
  }

  /** arg is --name, or --noname if value is false, or a part of it with which no other name begins: no flag's, and no
      boolean flag's with "no" in front. */
  ghost predicate Means(flags: seq<Flag>, arg: string, f: Flag, value: bool) {
    var form := if value then f.name else "no" + f.name;
    && f in flags && f.boolean && '=' !in arg
    && |arg| > 2 && arg[..2] == "--" && arg[2..] <= form
    && (arg[2..] != form ==>
         (forall g :: g in flags && arg[2..] <= g.name ==> g == f && value) &&
         (forall g :: g in flags && g.boolean && arg[2..] <= "no" + g.name ==> g == f && !value))
  }

  /** A name that occurs twice in the list comes from two flags. */
  lemma {:induction false} TwoEntries(flags: seq<Flag>, x: string) returns (f: Flag, v: bool, g: Flag, w: bool)
    requires IsDictionary(flags) && multiset(AllNames(flags))[x] >= 2
    ensures f in flags && g in flags && (v || f.boolean) && (w || g.boolean) && (f != g || v != w)
    ensures Form(f, v) == Form(g, w) == x
  {
    var rest := flags[1..];
    assert flags[0] !in rest;
    v := OwnOnce(flags[0], x);
    hide Own, Form;
    if x in Own(flags[0]) {
      f := flags[0];
      assert x in multiset(AllNames(rest));
      g, w := NameIsForm(rest, x);
    } else {
      assert x !in multiset(Own(flags[0]));
      f, v, g, w := TwoEntries(rest, x);
    }
  }

  lemma OwnOnce(flag: Flag, x: string) returns (v: bool)
    ensures multiset(Own(flag))[x] <= 1
    ensures x in Own(flag) ==> (v || flag.boolean) && Form(flag, v) == x
  {
    v := x == flag.name;
    assert |No(flag.name)| == |flag.name| + 2;
  }

  lemma {:induction false} NameIsForm(flags: seq<Flag>, x: string) returns (f: Flag, v: bool)
    requires x in AllNames(flags)
    ensures f in flags && (v || f.boolean) && Form(f, v) == x
  {
    if x in Own(flags[0]) {
      f := flags[0];
      v := OwnOnce(f, x);
    } else {
      f, v := NameIsForm(flags[1..], x);
    }
  }

  /** Only one entry of the list begins with a. */
  ghost predicate Alone(flags: seq<Flag>, a: string, f: Flag, value: bool) {
    forall g, w :: g in flags && (w || g.boolean) && a <= Form(g, w) ==> g == f && w == value
  }

  lemma NotShared(flags: seq<Flag>, names: seq<string>, a: string, f: Flag, value: bool, k: nat)
    requires IsDictionary(flags) && multiset(names) == multiset(AllNames(flags)) && f in flags && f.boolean
    requires k < |names| && names[k] == Form(f, value) && a <= Form(f, value)
    ensures Shared(names, k, a) <==> !Alone(flags, a, f, value)
  {
    if Shared(names, k, a) {
      var j :| 0 <= j < |names| && j != k && a <= names[j];
      SharedIsNotAlone(flags, names, a, f, value, k, j);
    }
    if !Alone(flags, a, f, value) {
      var g, w :| g in flags && (w || g.boolean) && a <= Form(g, w) && !(g == f && w == value);
      NotAloneIsShared(flags, names, a, f, value, g, w, k);
    }
  }

  lemma SharedIsNotAlone(flags: seq<Flag>, names: seq<string>, a: string, f: Flag, value: bool, k: nat, j: nat)
    requires IsDictionary(flags) && multiset(names) == multiset(AllNames(flags)) && f in flags && f.boolean
    requires k < |names| && names[k] == Form(f, value) && a <= Form(f, value)
    requires j < |names| && j != k && a <= names[j]
    ensures !Alone(flags, a, f, value)
  {
    hide AllNames, Form;
    if names[j] != names[k] {
      assert names[j] in multiset(names);
      var g, w := NameIsForm(flags, names[j]);
    } else {
      CountsTwice(names, j, k);
      var g, w, h, u := TwoEntries(flags, names[k]);
    }
  }

  lemma CountsTwice(names: seq<string>, j: nat, k: nat)
    requires j < |names| && k < |names| && j != k && names[j] == names[k]
    ensures multiset(names)[names[k]] >= 2
  {
    var i, n := if j < k then j else k, if j < k then k else j;
    assert names == names[..i + 1] + names[i + 1..];
    assert names[i] in multiset(names[..i + 1]) by { assert names[..i + 1][i] == names[i]; }
    assert names[n] in multiset(names[i + 1..]) by { assert names[i + 1..][n - i - 1] == names[n]; }
  }

  lemma NotAloneIsShared(flags: seq<Flag>, names: seq<string>, a: string, f: Flag, value: bool, g: Flag, w: bool,
                         k: nat)
    requires multiset(names) == multiset(AllNames(flags)) && f in flags && f.boolean
    requires k < |names| && names[k] == Form(f, value) && a <= Form(f, value)
    requires g in flags && (w || g.boolean) && a <= Form(g, w) && !(g == f && w == value)
    ensures Shared(names, k, a)
  {
    hide AllNames;
    if Form(g, w) == Form(f, value) {
      EntriesCount(flags, f, value, g, w);
      var i, j := TwoPlaces(names, Form(g, w));
      assert names[if i == k then j else i] == Form(g, w);
    } else {
      FormIsName(flags, g, w);
      assert Form(g, w) in multiset(AllNames(flags));
      var j :| 0 <= j < |names| && names[j] == Form(g, w);
    }
  }

  /** What is claimed is what is meant. */
  lemma MeansIsClaimed(flags: seq<Flag>, names: seq<string>, shortest: map<string, string>, arg: string, f: Flag,
                       value: bool)
    requires Answers(flags, names, shortest) && IsDictionary(flags) && f in flags && f.boolean
    ensures Means(flags, arg, f, value) <==> ClaimedBy(arg, f, value, shortest)
  {
    hide AllNames, Shared, IsDictionary;
    var k := FormHasPrefix(flags, names, shortest, f, value);
    var other := FormHasPrefix(flags, names, shortest, f, !value);
    var form, p := names[k], shortest[names[k]];
    if |arg| > 2 && arg[..2] == "--" && arg[2..] <= form {
      var a := arg[2..];
      assert arg == DASHES + a;
      NotShared(flags, names, a, f, value, k);
      MeansAlone(flags, a, f, value);
      if p <= a { SharedShorter(names, k, p, a); }
      if |a| < |p| { assert a == p[..|a|]; }
    }
    if Claims(arg, form, p) {
      assert arg[..2] == "--" && p <= arg[2..] <= form;
    }
  }

  lemma MeansAlone(flags: seq<Flag>, a: string, f: Flag, value: bool)
    ensures Alone(flags, a, f, value) <==>
      && (forall g :: g in flags && a <= g.name ==> g == f && value)
      && (forall g :: g in flags && g.boolean && a <= "no" + g.name ==> g == f && !value)
  {
    if Alone(flags, a, f, value) {
      forall g | g in flags && a <= g.name ensures g == f && value { assert Form(g, true) == g.name; }
      forall g | g in flags && g.boolean && a <= "no" + g.name ensures g == f && !value {
        assert Form(g, false) == "no" + g.name;
      }
    }
  }

  lemma SharedShorter(names: seq<string>, k: nat, p: string, a: string)
    requires p <= a
    ensures Shared(names, k, a) ==> Shared(names, k, p)
  {
  }

  /** What an argument has to be. */
  ghost predicate Corrected(flags: seq<Flag>, arg: string, corrected: string) {
    && (forall f :: Means(flags, arg, f, true) ==> corrected == "--" + f.name + "=true")
    && (forall f :: Means(flags, arg, f, false) ==> corrected == "--" + f.name + "=false")
    && ((forall f, value :: !Means(flags, arg, f, value)) ==> corrected == arg)
  }

  lemma RewriteIsCorrect(flags: seq<Flag>, names: seq<string>, shortest: map<string, string>, arg: string)
    requires Answers(flags, names, shortest) && IsDictionary(flags) && !Clash(flags)
    ensures Corrected(flags, arg, Rewrite(flags, shortest, arg))
  {
    hide Answers, ClaimedBy, Clash, IsDictionary, Rewrite;
    forall f, value | Means(flags, arg, f, value)
      ensures Rewrite(flags, shortest, arg) == "--" + f.name + if value then "=true" else "=false"
    {
      MeansIsClaimed(flags, names, shortest, arg, f, value);
      ClaimIsHonoured(flags, names, shortest, flags, arg, f, value);
    }
    if forall f, value :: !Means(flags, arg, f, value) {
      forall f, v | f in flags ensures !ClaimedBy(arg, f, v, shortest) {
        if f.boolean {
          MeansIsClaimed(flags, names, shortest, arg, f, v);
        } else {
          OnlyBooleansClaim(arg, f, v, shortest);
        }
      }
      OthersAreKept(flags, shortest, arg);
    }
  }

  lemma OnlyBooleansClaim(arg: string, f: Flag, value: bool, shortest: map<string, string>)
    requires !f.boolean
    ensures !ClaimedBy(arg, f, value, shortest)
  {
  }

  /** Booleans given in short become assignments in full, and nothing else changes. */
  method CorrectBooleans(argv: array<string>, flags: seq<Flag>, names: seq<string>)
    requires IsDictionary(flags) && !Clash(flags)
    requires Sorted(names) && multiset(names) == multiset(AllNames(flags)) && "" !in names
    modifies argv
    ensures forall i :: 0 < i < argv.Length ==> Corrected(flags, old(argv[i]), argv[i])
    ensures argv.Length > 0 ==> argv[0] == old(argv[0])
  {
    hide Sorted, AllNames, Clash, Corrected, Rewrite, IsShortestUnique;
    ghost var argv0 := argv[..];
    var shortest := ShortestUniquePrefixes(names);
    forall f, v | f in flags && f.boolean ensures Form(f, v) in shortest {
      var k := FormHasPrefix(flags, names, shortest, f, v);
    }
    assert forall f :: f in flags && f.boolean ==> Form(f, true) in shortest && Form(f, false) in shortest;
    RewriteBooleans(argv, flags, shortest);
    forall i | 0 < i < argv.Length ensures Corrected(flags, argv0[i], argv[i]) {
      RewriteIsCorrect(flags, names, shortest, argv0[i]);
    }
  }
}

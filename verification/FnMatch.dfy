/** SafeFNMatch_ (thirdparty/glog-0.3.3/src/vlog_is_on.cc): glob matching with * and ?.

    `Glob` says what the two wildcards mean; `Matches` says what the code computes. They agree
    less often than one would hope: see `DecidesStarFree` and `DecidesEverything`. */
module FnMatch {

  /** s matches the pattern p, where * stands for any text and ? for any character. */
  ghost predicate Glob(p: string, s: string)
    decreases |p|
  {
    if p == "" then s == ""
    else if p[0] == '*' then exists k | 0 <= k <= |s| :: Glob(p[1..], s[k..])
    else s != "" && (p[0] == '?' || p[0] == s[0]) && Glob(p[1..], s[1..])
  }

  /** What SafeFNMatch_ returns. */
  predicate Matches(p: string, s: string)
    decreases |p|
  {
    if p == "" then s == ""
    else if s == "" then p == "*"
    else if p[0] == s[0] || p[0] == '?' then Matches(p[1..], s[1..])
    else p[0] == '*' && (p == "*" || exists k | 0 <= k < |s| :: Matches(p[1..], s[k..]))
  }

  method SafeFNMatch(pattern: string, str: string) returns (b: bool)
    ensures b == Matches(pattern, str)
    decreases |pattern|, 0
  {
    var p, s := 0, 0;
    while true
      invariant 0 <= p <= |pattern| && 0 <= s <= |str|
      invariant Matches(pattern, str) == Matches(pattern[p..], str[s..])
      decreases |pattern| - p
    {
      if p == |pattern| && s == |str| { return true; }
      if p == |pattern| { return false; }
      assert pattern[p..][1..] == pattern[p + 1..];
      if s == |str| {
        assert pattern[p..] == "*" <==> p + 1 == |pattern| && pattern[p] == '*';
        return p + 1 == |pattern| && pattern[p] == '*';
      }
      assert str[s..][1..] == str[s + 1..];
      if pattern[p] == str[s] || pattern[p] == '?' {
        p := p + 1;
        s := s + 1;
        continue;
      }
      if pattern[p] == '*' {
        if p + 1 == |pattern| {
          assert pattern[p..] == "*";
          return true;
        }
        b := MatchSomeSuffix(pattern[p + 1..], str[s..]);
        return b;
      }
      return false;
    }
  }

  /** The do-while loop after a star. */
  method MatchSomeSuffix(pattern: string, str: string) returns (b: bool)
    requires str != ""
    ensures b == exists k | 0 <= k < |str| :: Matches(pattern, str[k..])
    decreases |pattern|, 1
  {
    var s := 0;
    while s != |str|
      invariant 0 <= s <= |str|
      invariant forall k :: 0 <= k < s ==> !Matches(pattern, str[k..])
    {
      var found := SafeFNMatch(pattern, str[s..]);
      if found { return true; }
      s := s + 1;
    }
    return false;
  }

  /** A match reported is a match. */
  lemma {:induction false} Sound(p: string, s: string)
    requires Matches(p, s)
    ensures Glob(p, s)
    decreases |p|
  {
    if p != "" && s == "" {
      assert Glob(p[1..], s[0..]);
    } else if p != "" && p[0] == '*' {
      if p[0] == s[0] {
        Sound(p[1..], s[1..]);
      } else if p == "*" {
        assert Glob(p[1..], s[|s|..]);
      } else {
        var k :| 0 <= k < |s| && Matches(p[1..], s[k..]);
        Sound(p[1..], s[k..]);
      }
    } else if p != "" {
      Sound(p[1..], s[1..]);
    }
  }

  predicate EndsInTwoStars(p: string) {
    |p| >= 2 && p[|p| - 2] == '*' && p[|p| - 1] == '*'
  }

  lemma {:induction false} OnlyStarsMatchNothing(p: string)
    requires Glob(p, "")
    ensures forall k :: 0 <= k < |p| ==> p[k] == '*'
  {
    if p != "" {
      OnlyStarsMatchNothing(p[1..]);
      assert forall k :: 0 < k < |p| ==> p[k] == p[1..][k - 1];
    }
  }

  lemma {:induction false} Complete(p: string, s: string)
    requires Glob(p, s) && !EndsInTwoStars(p) && '*' !in s
    ensures Matches(p, s)
    decreases |p|
  {
    if s == "" {
      OnlyStarsMatchNothing(p);
    } else if p != "" && p[0] == '*' {
      var k :| 0 <= k <= |s| && Glob(p[1..], s[k..]);
      if k == |s| {
        OnlyStarsMatchNothing(p[1..]);
      } else {
        Complete(p[1..], s[k..]);
      }
    } else if p != "" {
      Complete(p[1..], s[1..]);
    }
  }

  /** The shortest text that p matches: its own characters, stars dropped. */
  function Plain(p: string): (s: string)
    ensures '*' !in s
  {
    if p == "" then ""
    else if p[0] == '*' then Plain(p[1..])
    else [if p[0] == '?' then 'x' else p[0]] + Plain(p[1..])
  }

  lemma {:induction false} PlainMatches(p: string)
    ensures Glob(p, Plain(p))
  {
    if p != "" {
      PlainMatches(p[1..]);
      if p[0] == '*' { assert Glob(p[1..], Plain(p)[0..]); }
    }
  }

  lemma {:induction false} TwoFinalStarsMiss(p: string, s: string)
    requires EndsInTwoStars(p) && '*' !in s && |s| <= |Plain(p)|
    ensures !Matches(p, s)
    decreases |p|
  {
    assert Plain("**") == "" && (|p| == 2 ==> p == "**");
    if s != "" {
      if p[0] == s[0] || p[0] == '?' {
        TwoFinalStarsMiss(p[1..], s[1..]);
      } else if p[0] == '*' {
        forall k | 0 <= k < |s| ensures !Matches(p[1..], s[k..]) {
          TwoFinalStarsMiss(p[1..], s[k..]);
        }
      }
    }
  }

  /** On texts without stars, the code decides a pattern exactly when it does not end in two stars. */
  lemma DecidesStarFree(p: string)
    ensures (forall s | '*' !in s :: Matches(p, s) == Glob(p, s)) <==> !EndsInTwoStars(p)
  {
    if EndsInTwoStars(p) {
      PlainMatches(p);
      TwoFinalStarsMiss(p, Plain(p));
    } else {
      forall s | '*' !in s ensures Matches(p, s) == Glob(p, s) {
        if Matches(p, s) { Sound(p, s); }
        if Glob(p, s) { Complete(p, s); }
      }
    }
  }

  lemma {:induction false} NoStarsDecide(p: string, s: string)
    requires '*' !in p
    ensures Matches(p, s) == Glob(p, s) && (Matches(p, s) ==> |s| == |p|)
    decreases |p|
  {
    if p != "" && s != "" {
      NoStarsDecide(p[1..], s[1..]);
    }
  }

  /** A text that p matches but the code rejects, because it takes a star of the text for the star
      of the pattern. */
  function Trap(p: string): string
    requires '*' in p
  {
    if p[0] != '*' then [if p[0] == '?' then 'x' else p[0]] + Trap(p[1..])
    else if '*' in p[1..] then "*" + Trap(p[1..])
    else "*x" + Plain(p[1..])
  }

  lemma {:induction false} TrapWorks(p: string)
    requires '*' in p
    ensures Glob(p, Trap(p)) && !Matches(p, Trap(p))
  {
    var t := Trap(p);
    if p[0] != '*' {
      TrapWorks(p[1..]);
      assert t[1..] == Trap(p[1..]);
    } else if '*' in p[1..] {
      TrapWorks(p[1..]);
      assert t[1..] == Trap(p[1..]);
    } else {
      var v := p[1..];
      assert t[1..] == ['x'] + Plain(v) && t[2..] == Plain(v);
      PlainMatches(v);
      NoStarsDecide(v, t[2..]);
      NoStarsDecide(v, t[1..]);
    }
  }

  /** On all texts, it decides exactly the patterns without stars. */
  lemma DecidesEverything(p: string)
    ensures (forall s :: Matches(p, s) == Glob(p, s)) <==> '*' !in p
  {
    if '*' in p {
      TrapWorks(p);
    } else {
      forall s ensures Matches(p, s) == Glob(p, s) { NoStarsDecide(p, s); }
    }
  }
}

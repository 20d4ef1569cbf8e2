/** The growing strings of redis/src/sds.cc. */
module Sds {
  import opened Words
  import opened Wrappers
  import opened Zmalloc

  /** Two longs in front of the bytes. */
  const SIZEOF_HEADER: nat := 16

  /** A block of n bytes that starts like the given one; its other bytes are whatever they were. */
  method CopyBlock(a: array<char>, n: nat) returns (b: array<char>)
    requires a.Length <= n
    ensures fresh(b) && b.Length == n && b[..a.Length] == a[..]
  {
    b := new char[n];
    CopyInto(b, 0, a[..]);
  }

  /** memcpy */
  method CopyInto(a: array<char>, at: nat, bytes: seq<char>)
    requires at + |bytes| <= a.Length
    modifies a
    ensures a[..at] == old(a[..at]) && a[at..at + |bytes|] == bytes && a[at + |bytes|..] == old(a[at + |bytes|..])
  {
    var i := 0;
    while i < |bytes|
      invariant i <= |bytes| && a[at..at + i] == bytes[..i]
      invariant a[..at] == old(a[..at]) && a[at + i..] == old(a[at + i..])
    {
      a[at + i] := bytes[i];
      i := i + 1;
    }
  }

  /** memmove to the front */
  method MoveToFront(a: array<char>, from: nat, n: nat)
    requires from + n <= a.Length
    modifies a
    ensures a[..n] == old(a[from..from + n]) && a[n..] == old(a[n..])
  {
    var i := 0;
    while i < n
      invariant i <= n && a[..i] == old(a[from..from + i])
      invariant a[i..] == old(a[i..])
    {
      assert a[from + i] == a[i..][from] == old(a[from + i]);
      a[i] := a[from + i];
      i := i + 1;
    }
  }

  // ---------------------------------------------------------------------------
  // What trimming and cutting mean

  /** strchr finds the terminating NUL of the set, too. */
  predicate Strips(cset: seq<char>, c: char) { c == '\0' || c in cset }

  function StripLeft(s: seq<char>, cset: seq<char>): seq<char> {
    if s != [] && Strips(cset, s[0]) then StripLeft(s[1..], cset) else s
  }

  function StripRight(s: seq<char>, cset: seq<char>): seq<char> {
    if s != [] && Strips(cset, s[|s| - 1]) then StripRight(s[..|s| - 1], cset) else s
  }

  function Strip(s: seq<char>, cset: seq<char>): seq<char> { StripRight(StripLeft(s, cset), cset) }

  lemma {:induction false} StripLeftIs(s: seq<char>, cset: seq<char>, k: nat)
    requires k <= |s| && (forall i :: 0 <= i < k ==> Strips(cset, s[i])) && (k < |s| ==> !Strips(cset, s[k]))
    ensures StripLeft(s, cset) == s[k..]
  {
    if k > 0 {
      StripLeftIs(s[1..], cset, k - 1);
      assert s[1..][k - 1..] == s[k..];
    }
  }

  lemma {:induction false} StripRightIs(s: seq<char>, cset: seq<char>, k: nat)
    requires k <= |s| && (forall i :: k <= i < |s| ==> Strips(cset, s[i])) && (k > 0 ==> !Strips(cset, s[k - 1]))
    ensures StripRight(s, cset) == s[..k]
  {
    if k < |s| {
      StripRightIs(s[..|s| - 1], cset, k);
      assert s[..|s| - 1][..k] == s[..k];
    }
  }

  /** What is left is what lies between the bytes to strip at both ends, and nothing else has this property. */
  lemma StripIsTheMiddle(a: seq<char>, m: seq<char>, b: seq<char>, cset: seq<char>)
    requires (forall c :: c in a + b ==> Strips(cset, c))
    requires m != [] ==> !Strips(cset, m[0]) && !Strips(cset, m[|m| - 1])
    ensures Strip(a + m + b, cset) == m
  {
    var s := a + m + b;
    forall i | 0 <= i < |a| ensures Strips(cset, s[i]) { assert s[i] in a + b; }
    forall i | |a| + |m| <= i < |s| ensures Strips(cset, s[i]) { assert s[i] in a + b; }
    if m == [] {
      StripLeftIs(s, cset, |s|);
      StripRightIs([], cset, 0);
    } else {
      StripLeftIs(s, cset, |a|);
      assert s[|a|..] == m + b;
      assert (m + b)[..|m|] == m;
      assert forall i :: |m| <= i < |m + b| ==> (m + b)[i] == s[|a| + i];
      StripRightIs(m + b, cset, |m|);
    }
  }

  class SdsString {
    const z: Allocator
    var len: nat
    var free: nat
    var buf: array<char>
    /** How often the block was reallocated, and the longest content there has been. */
    ghost var grown: nat
    ghost var peak: nat

    /** The block holds exactly the header, the content, the free bytes and one more. That one byte after
        the content ends it, except after Clear. */
    ghost predicate Valid()
      reads this, z, buf
    {
      && z.Valid()
      && buf.Length == len + free + 1
      && buf in z.prefix && z.prefix[buf] == SIZEOF_HEADER + len + free + 1
      && (buf[len] == '\0' || (free > 0 && len < peak))
      && len <= peak
      && (grown > 0 ==> Pow2(grown) <= len + free <= 2 * peak)
    }

    ghost function Content(): (s: seq<char>)
      requires Valid()
      reads this, z, buf
      ensures |s| == len
    {
      buf[..len]
    }

    /** sdsnewlen; without initial bytes the content is zeroes. */
    constructor (z: Allocator, init: seq<char>)
      requires z.Valid()
      modifies z
      ensures Valid() && this.z == z && fresh(buf) && Content() == init && free == 0 && buf[len] == '\0'
      ensures z.prefix == old(z.prefix)[buf := SIZEOF_HEADER + |init| + 1] && buf !in old(z.prefix)
      ensures grown == 0 && peak == |init|
    {
      this.z := z;
      len, free := |init|, 0;
      var bytes := new char[|init| + 1](i => if 0 <= i < |init| then init[i] else '\0');
      buf := bytes;
      grown, peak := 0, |init|;
      new;
      z.Malloc(buf, SIZEOF_HEADER + |init| + 1);
      assert buf[..len] == init;
    }

    /** sdsfree */
    method Release()
      requires Valid()
      modifies z
      ensures z.Valid() && z.prefix == old(z.prefix) - {buf}
      ensures z.usedMemory == old(z.usedMemory) - (SIZEOF_HEADER + len + free + 1 + PREFIX_SIZE)
    {
      z.Free(buf);
    }

    /** sdsclear: the content is empty, but the byte after it is not rewritten. */
    method Clear()
      requires Valid()
      modifies this`len, this`free
      ensures Valid() && Content() == [] && free == old(free) + old(len) && buf == old(buf)
      ensures unchanged(buf)
    {
      free := free + len;
      len := 0;
    }

    /** sdsMakeRoomFor: if the room is too small, the block more than doubles. */
    method MakeRoomFor(addlen: nat)
      requires Valid()
      modifies this`free, this`buf, this`grown, this`peak, z
      ensures Valid() && Content() == old(Content()) && free >= addlen
      ensures peak == if old(free) >= addlen then old(peak) else Max(old(peak), len + addlen)
      ensures old(free) >= addlen ==>
        buf == old(buf) && free == old(free) && grown == old(grown) && z.prefix == old(z.prefix)
      ensures old(free) < addlen ==>
        && fresh(buf) && len + free == (len + addlen) * 2 && len + free > 2 * (len + old(free))
        && grown == old(grown) + 1
        && z.prefix == (old(z.prefix) - {old(buf)})[buf := SIZEOF_HEADER + len + free + 1]
    {
      if free < addlen {
        var newlen := (len + addlen) * 2;
        var moved := CopyBlock(buf, newlen + 1);
        z.Remalloc(buf, moved, SIZEOF_HEADER + newlen + 1);
        assert moved[..len] == buf[..len];
        buf := moved;
        free := newlen - len;
        grown, peak := grown + 1, Max(peak, len + addlen);
      }
    }

    /** sdscatlen */
    method CatLen(t: seq<char>)
      requires Valid()
      modifies this`len, this`free, this`buf, this`grown, this`peak, z, buf
      ensures Valid() && Content() == old(Content()) + t && buf[len] == '\0'
      ensures peak == Max(old(peak), len)
      ensures old(free) >= |t| ==>
        buf == old(buf) && grown == old(grown) && z.prefix == old(z.prefix) && len + free == old(len + free)
      ensures old(free) < |t| ==>
        && fresh(buf) && grown == old(grown) + 1 && len + free == 2 * len
        && z.prefix == (old(z.prefix) - {old(buf)})[buf := SIZEOF_HEADER + len + free + 1]
    {
      MakeRoomFor(|t|);
      Append(t);
    }

    method Append(t: seq<char>)
      requires Valid() && free >= |t|
      modifies this`len, this`free, this`peak, buf
      ensures Valid() && Content() == old(Content()) + t && buf[len] == '\0'
      ensures peak == Max(old(peak), len) && len + free == old(len + free)
    {
      CopyInto(buf, len, t);
      assert buf[..len + |t|] == buf[..len] + buf[len..len + |t|];
      len := len + |t|;
      free := free - |t|;
      buf[len] := '\0';
      peak := Max(peak, len);
    }

    /** sdscpylen */
    method CpyLen(t: seq<char>)
      requires Valid()
      modifies this`len, this`free, this`buf, this`grown, this`peak, z, buf
      ensures Valid() && Content() == t && buf[len] == '\0'
      ensures peak == Max(old(peak), len)
      ensures old(len + free) >= |t| ==>
        buf == old(buf) && grown == old(grown) && z.prefix == old(z.prefix) && len + free == old(len + free)
      ensures old(len + free) < |t| ==>
        && fresh(buf) && grown == old(grown) + 1 && len + free == 2 * len
        && z.prefix == (old(z.prefix) - {old(buf)})[buf := SIZEOF_HEADER + len + free + 1]
    {
      if free + len < |t| {
        MakeRoomFor(|t| - len);
      }
      Overwrite(t);
    }

    method Overwrite(t: seq<char>)
      requires Valid() && len + free >= |t|
      modifies this`len, this`free, this`peak, buf
      ensures Valid() && Content() == t && buf[len] == '\0'
      ensures peak == Max(old(peak), len) && len + free == old(len + free)
    {
      var totlen := free + len;
      CopyInto(buf, 0, t);
      len := |t|;
      free := totlen - |t|;
      buf[len] := '\0';
      peak := Max(peak, len);
    }

    /** sdstrim. It looks at the byte after the content, too, and takes it for a part of the content if it
        is not one to strip; which can only be after Clear. */
    method Trim(cset: seq<char>)
      requires Valid()
      modifies this`len, this`free, buf
      ensures Valid() && Content() == Strip(old(buf[..len + 1]), cset) && buf[len] == '\0'
      ensures Content() == Strip(old(Content()), cset) <==> Strips(cset, old(buf[len]))
      ensures len + free == old(len + free)
    {
      ghost var text := buf[..len + 1];
      ghost var content := Content();
      var sp := 0;
      while sp <= len && Strips(cset, buf[sp])
        invariant sp <= len + 1
        invariant forall i :: 0 <= i < sp ==> Strips(cset, text[i])
      {
        sp := sp + 1;
      }
      var ep: int := len;
      while ep > 0 && Strips(cset, buf[ep])
        invariant 0 <= ep <= len
        invariant forall i :: ep < i <= len ==> Strips(cset, text[i])
      {
        ep := ep - 1;
      }
      var n := if sp > ep then 0 else ep - sp + 1;
      TrimResult(text, sp, ep, cset);
      TrimIsRight(content, buf[len], cset);
      assert text == content + [buf[len]];
      hide Strip;
      Keep(sp, n);
    }

    /** Keeps n bytes from the given place on. */
    method Keep(from: nat, n: nat)
      requires Valid() && from + n <= len + 1 && (from + n == len + 1 && n > 0 ==> buf[len] != '\0')
      modifies this`len, this`free, buf
      ensures Valid() && Content() == old(buf[..len + 1])[from..from + n] && buf[len] == '\0'
      ensures len + free == old(len + free)
    {
      ghost var text := buf[..len + 1];
      assert buf[from..from + n] == text[from..from + n];
      MoveToFront(buf, from, n);
      assert buf[..n] == text[from..from + n];
      free := free + len - n;
      len := n;
      buf[len] := '\0';
    }

    /** The bytes of such a range are all in the block, and leave room for the terminator. */
    predicate InBlock(start: int, end: int)
      reads this
    {
      var a, b := Normal(start, len), Normal(end, len);
      len == 0 || a > b || (b <= len + free && b - a < len + free)
    }

    /** sdsrange; the indices may count from the end. The last one is not checked: behind the content, the free
        bytes become part of it. */
    method Range(start: int, end: int)
      requires Valid() && InBlock(start, end)
      modifies this`len, this`free, this`peak, buf
      ensures Valid() && len + free == old(len + free) && peak == Max(old(peak), len)
      ensures Normal(end, old(len)) < old(len) ==> Content() == RangeOf(old(Content()), start, end)
      ensures Normal(end, old(len)) >= old(len) > 0 && Normal(start, old(len)) <= Normal(end, old(len)) ==>
        Content() == old(buf[..])[Normal(start, old(len))..Normal(end, old(len)) + 1]
      ensures old(len) == 0 || Normal(start, old(len)) > Normal(end, old(len)) ==> Content() == []
    {
      ghost var block := buf[..];
      RangeInBlock(block, len, start, end);
      hide RangeOf;
      if len > 0 {
        var a, b := start, end;
        if a < 0 {
          a := a + len;
          if a < 0 { a := 0; }
        }
        if b < 0 {
          b := b + len;
          if b < 0 { b := 0; }
        }
        assert a == Normal(start, len) && b == Normal(end, len);
        hide Normal;
        if a > b { Cut(0, 0); } else { Cut(a, b - a + 1); }
      }
    }

    /** Makes n bytes of the block, from the given place on, the content. */
    method Cut(from: nat, n: nat)
      requires Valid() && n <= len + free && from + n <= len + free + 1
      modifies this`len, this`free, this`peak, buf
      ensures Valid() && Content() == old(buf[..])[from..from + n] && buf[len] == '\0'
      ensures len + free == old(len + free) && peak == Max(old(peak), len)
    {
      MoveToFront(buf, from, n);
      free := free + len - n;
      len := n;
      buf[len] := '\0';
      peak := Max(peak, len);
    }
  }

  /** An index that counts from the end if it is negative, but never from before the start. */
  function Normal(i: int, len: nat): nat {
    if i >= 0 then i else if i + len >= 0 then i + len else 0
  }

  function RangeOf(s: seq<char>, start: int, end: int): seq<char> {
    var a, b := Normal(start, |s|), Normal(end, |s|);
    if a > b || b >= |s| then [] else s[a..b + 1]
  }

  /** What is cut out of the block is cut out of the content. */
  lemma RangeInBlock(block: seq<char>, len: nat, start: int, end: int)
    requires len <= |block|
    ensures var a, b := Normal(start, len), Normal(end, len);
      && (a <= b < len ==> RangeOf(block[..len], start, end) == block[a..b + 1])
      && (a > b || b >= len ==> RangeOf(block[..len], start, end) == [])
  {
    var a, b := Normal(start, len), Normal(end, len);
    if a <= b < len { assert block[..len][a..b + 1] == block[a..b + 1]; }
  }

  /** Cutting in the usual ways. */
  lemma RangeCuts(s: seq<char>, n: int)
    requires s != [] && n >= 0
    ensures RangeOf(s, 0, -1) == s
    ensures n < |s| ==> RangeOf(s, n, -1) == s[n..] && RangeOf(s, 0, n) == s[..n + 1]
    ensures 0 < n ==> RangeOf(s, -n, -1) == if n <= |s| then s[|s| - n..] else s
  {
  }

  lemma TrimResult(text: seq<char>, sp: nat, ep: nat, cset: seq<char>)
    requires sp <= |text| && ep < |text|
    requires forall i :: 0 <= i < sp ==> Strips(cset, text[i])
    requires sp < |text| ==> !Strips(cset, text[sp])
    requires forall i :: ep < i < |text| ==> Strips(cset, text[i])
    requires ep > 0 ==> !Strips(cset, text[ep])
    ensures Strip(text, cset) == if sp > ep then [] else text[sp..ep + 1]
  {
    hide Strip;
    if sp > ep {
      assert text == text + [] + [];
      StripIsTheMiddle(text, [], [], cset);
    } else {
      var a, m, b := text[..sp], text[sp..ep + 1], text[ep + 1..];
      assert text == a + m + b;
      StripIsTheMiddle(a, m, b, cset);
    }
  }

  /** A byte after the content makes no difference exactly if it is one to strip. */
  lemma TrimIsRight(s: seq<char>, c: char, cset: seq<char>)
    ensures Strip(s + [c], cset) == Strip(s, cset) <==> Strips(cset, c)
  {
    var a, m, b := Middle(s, cset);
    StripIsTheMiddle(a, m, b, cset);
    if Strips(cset, c) {
      assert s + [c] == a + m + (b + [c]);
      StripIsTheMiddle(a, m, b + [c], cset);
    } else if m == [] {
      assert s + [c] == (a + b) + [c] + [];
      StripIsTheMiddle(a + b, [c], [], cset);
    } else {
      assert s + [c] == a + (m + b + [c]) + [];
      StripIsTheMiddle(a, m + b + [c], [], cset);
    }
    hide Strip;
  }

  /** Every text has a middle. */
  lemma {:induction false} Middle(s: seq<char>, cset: seq<char>) returns (a: seq<char>, m: seq<char>, b: seq<char>)
    ensures s == a + m + b
    ensures forall c :: c in a + b ==> Strips(cset, c)
    ensures m != [] ==> !Strips(cset, m[0]) && !Strips(cset, m[|m| - 1])
  {
    if s == [] {
      a, m, b := [], [], [];
    } else if Strips(cset, s[0]) {
      a, m, b := Middle(s[1..], cset);
      assert s == [s[0]] + (a + m + b);
      assert [s[0]] + (a + m + b) == [s[0]] + a + m + b;
      a := [s[0]] + a;
    } else if Strips(cset, s[|s| - 1]) {
      a, m, b := Middle(s[..|s| - 1], cset);
      assert s == a + m + b + [s[|s| - 1]];
      b := b + [s[|s| - 1]];
    } else {
      a, m, b := [], s, [];
    }
  }

  function Log2(n: nat): nat
    requires n >= 1
  {
    if n == 1 then 0 else 1 + Log2(n / 2)
  }

  lemma {:induction false} Log2IsGreatest(k: nat, n: nat)
    requires n >= 1 && Pow2(k) <= n
    ensures k <= Log2(n)
  {
    if k > 0 { Log2IsGreatest(k - 1, n / 2); }
  }

  // ---------------------------------------------------------------------------
  // The whole life of a string

  datatype Op =
    | Cat(t: seq<char>)
    | Copy(t: seq<char>)
    | Clear
    | Trim(cset: seq<char>)
    | Range(start: int, end: int)  // skipped if it leaves the block

  /** How often the block of a string is another one than before. */
  ghost function Moves(buffers: seq<array<char>>): nat {
    if |buffers| <= 1 then 0
    else
      var n := |buffers|;
      Moves(buffers[..n - 1]) + if buffers[n - 1] == buffers[n - 2] then 0 else 1
  }

  lemma MovesOn(buffers: seq<array<char>>, b: array<char>)
    requires buffers != []
    ensures Moves(buffers + [b]) == Moves(buffers) + if b == buffers[|buffers| - 1] then 0 else 1
  {
    assert (buffers + [b])[..|buffers|] == buffers;
  }

  lemma GrowthIsLogarithmic(grown: nat, peak: nat, n: nat)
    requires (grown > 0 ==> Pow2(grown) <= 2 * peak) && peak <= n && n >= 1
    ensures grown <= 1 + Log2(n)
  {
    if grown > 0 { Log2IsGreatest(grown - 1, n); }
  }

  /** What an operation makes of the content. Trimming and cutting may bring bytes back from behind it. */
  ghost predicate Follows(s: seq<char>, op: Op, s': seq<char>) {
    match op
    case Cat(t) => s' == s + t
    case Copy(t) => s' == t
    case Clear => s' == []
    case Trim(cset) => exists c :: s' == Strip(s + [c], cset)
    case Range(start, end) => s == [] || Normal(end, |s|) < |s| ==> s' == RangeOf(s, start, end)
  }

  /** The greatest length. */
  ghost function Longest(contents: seq<seq<char>>): (n: nat)
    ensures forall k :: 0 <= k < |contents| ==> |contents[k]| <= n
    ensures contents != [] ==> exists k :: 0 <= k < |contents| && |contents[k]| == n
  {
    if contents == [] then 0
    else
      var rest, last := contents[..|contents| - 1], contents[|contents| - 1];
      var n := Max(Longest(rest), |last|);
      assert forall k :: 0 <= k < |rest| ==> rest[k] == contents[k];
      assert |contents[|contents| - 1]| == |last|;
      n
  }

  lemma LongestOn(contents: seq<seq<char>>, s: seq<char>)
    ensures Longest(contents + [s]) == Max(Longest(contents), |s|)
  {
    assert (contents + [s])[..|contents|] == contents;
  }

  method Perform(s: SdsString, op: Op)
    requires s.Valid()
    modifies s`len, s`free, s`buf, s`grown, s`peak, s.z, s.buf
    ensures s.Valid() && s.peak == Max(old(s.peak), s.len)
    ensures Follows(old(s.Content()), op, s.Content())
    ensures s.buf == old(s.buf) || fresh(s.buf)
    ensures s.grown == old(s.grown) + if s.buf == old(s.buf) then 0 else 1
    ensures s.z.prefix - {s.buf} == old(s.z.prefix) - {old(s.buf)}
  {
    hide Strip;
    match op
    case Cat(t) => s.CatLen(t);
    case Copy(t) => s.CpyLen(t);
    case Clear => s.Clear();
    case Trim(cset) =>
      assert s.buf[..s.len + 1] == s.Content() + [s.buf[s.len]];
      s.Trim(cset);
    case Range(start, end) => if s.InBlock(start, end) { s.Range(start, end); }
  }

  /** Any operations on a new string, one after the other. Whatever the contents and the blocks on the way were, the
      block moved at most 1 + log2(n) times, where n is the greatest length of the content, and no other block of
      the allocator changed. */
  method Live(z: Allocator, init: seq<char>, ops: seq<Op>)
    returns (s: SdsString, ghost contents: seq<seq<char>>, ghost buffers: seq<array<char>>)
    requires z.Valid()
    modifies z
    ensures fresh(s) && s.z == z && s.Valid() && fresh(s.buf) && s.buf !in old(z.prefix)
    ensures |contents| == |buffers| == |ops| + 1
    ensures contents[0] == init && contents[|ops|] == s.Content() && buffers[|ops|] == s.buf
    ensures forall k :: 0 <= k < |ops| ==> Follows(contents[k], ops[k], contents[k + 1])
    ensures Moves(buffers) <= 1 + Log2(Max(1, Longest(contents)))
    ensures z.prefix - {s.buf} == old(z.prefix)
  {
    hide Follows, Longest, Moves;
    s := new SdsString(z, init);
    contents, buffers := [init], [s.buf];
    var i := 0;
    NewRecord(init, s.buf);
    while i < |ops|
      invariant i <= |ops| && |contents| == |buffers| == i + 1
      invariant fresh(s) && s.z == z && s.Valid() && fresh(s.buf)
      invariant contents[0] == init && contents[i] == s.Content() && buffers[i] == s.buf
      invariant forall k :: 0 <= k < i ==> Follows(contents[k], ops[k], contents[k + 1])
      invariant Moves(buffers) == s.grown && Longest(contents) == s.peak
      invariant z.prefix - {s.buf} == old(z.prefix)
    {
      Perform(s, ops[i]);
      MovesOn(buffers, s.buf);
      LongestOn(contents, s.Content());
      contents, buffers := contents + [s.Content()], buffers + [s.buf];
      i := i + 1;
    }
    GrowthIsLogarithmic(s.grown, s.peak, Max(1, s.peak));
  }

  lemma NewRecord(init: seq<char>, buffer: array<char>)
    ensures Moves([buffer]) == 0 && Longest([init]) == |init|
  {
    LongestOn([], init);
    assert [] + [init] == [init];
  }

  /** All the memory of a string is given back. */
  method LiveAndRelease(z: Allocator, init: seq<char>, ops: seq<Op>)
    requires z.Valid()
    modifies z
    ensures z.Valid() && z.prefix == old(z.prefix) && z.usedMemory == old(z.usedMemory)
  {
    var s, contents, buffers := Live(z, init, ops);
    s.Release();
  }

  /** Trimming what was cleared brings its first byte back, if that byte is not one to strip. */
  method ClearThenTrim(s: SdsString, cset: seq<char>)
    requires s.Valid() && s.len > 0 && !Strips(cset, s.buf[0])
    modifies s`len, s`free, s.buf
    ensures s.Valid() && s.Content() == [old(s.buf[0])] && Strip([], cset) == []
  {
    ghost var c := s.buf[0];
    s.Clear();
    assert s.buf[..1] == [] + [c] + [];
    StripIsTheMiddle([], [c], [], cset);
    assert [] + [c] + [] == [c];
    s.Trim(cset);
  }
}

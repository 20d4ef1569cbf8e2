/** ReadPersistent and LineReader (thirdparty/glog-0.3.3/src/symbolize.cc): lines read through a
    bounded buffer from a descriptor that may return as few bytes as it likes. */
module LineReader {
  import opened Wrappers

  function Min(a: nat, b: nat): nat { if a < b then a else b }

  /** An open file. The k-th call of read returns an error if pace(k) is negative, and otherwise at
      most 1 + pace(k) bytes: any behaviour of the system is some pace. */
  class Descriptor {
    const content: seq<char>
    const pace: nat -> int
    var pos: nat
    var calls: nat

    constructor (content: seq<char>, pace: nat -> int)
      ensures Valid() && pos == 0 && this.content == content && this.pace == pace
    {
      this.content, this.pace := content, pace;
      pos, calls := 0, 0;
    }

    ghost predicate Valid()
      reads this
    {
      pos <= |content|
    }

    ghost predicate NeverFails() { forall k :: pace(k) >= 0 }

    ghost function Remaining(): seq<char>
      requires Valid()
      reads this
    {
      content[pos..]
    }

    method Read(buf: array<char>, at: nat, count: nat) returns (len: int)
      requires Valid() && at + count <= buf.Length
      modifies this, buf
      ensures Valid() && -1 <= len <= count && (NeverFails() ==> len >= 0)
      ensures len == 0 ==> count == 0 || old(Remaining()) == []
      ensures len >= 0 ==> len <= |old(Remaining())| && Remaining() == old(Remaining())[len..]
      ensures len >= 0 ==> buf[at..at + len] == old(Remaining())[..len]
      ensures buf[..at] == old(buf[..at])
    {
      var p := pace(calls);
      calls := calls + 1;
      if p < 0 { return -1; }
      var n := Min(Min(count, |content| - pos), 1 + p);
      forall i | 0 <= i < n {
        buf[at + i] := content[pos + i];
      }
      pos := pos + n;
      return n;
    }
  }

  /** Read until count bytes are there or the file ends; -1 after an error. */
  method ReadPersistent(fd: Descriptor, buf: array<char>, at: nat, count: nat) returns (n: int)
    requires fd.Valid() && at + count <= buf.Length
    modifies fd, buf
    ensures fd.Valid() && n >= -1 && (fd.NeverFails() ==> n >= 0)
    ensures n >= 0 ==> n == Min(count, |old(fd.Remaining())|) && fd.Remaining() == old(fd.Remaining())[n..]
    ensures n >= 0 ==> buf[at..at + n] == old(fd.Remaining())[..n]
    ensures buf[..at] == old(buf[..at])
  {
    ghost var all := fd.Remaining();
    n := 0;
    while n < count
      invariant fd.Valid() && 0 <= n <= count && n <= |all|
      invariant fd.Remaining() == all[n..]
      invariant buf[at..at + n] == all[..n] && buf[..at] == old(buf[..at])
      decreases count - n
    {
      ghost var before := buf[..at + n];
      var len := fd.Read(buf, at + n, count - n);
      if len < 0 {
        assert buf[..at] == before[..at];
        return -1;
      }
      if len == 0 { break; }
      assert buf[at..at + n] == before[at..] && buf[..at] == before[..at];
      assert all[..n] + all[n..][..len] == all[..n + len];
      assert buf[at..at + (n + len)] == buf[at..at + n] + buf[at + n..at + n + len];
      n := n + len;
    }
  }

  // ---------------------------------------------------------------------------
  // What the lines of a text are

  /** Looking into a prefix finds the same place, or nothing. */
  lemma IndexInPrefix(c: char, w: seq<char>, rest: seq<char>)
    ensures IndexOf(w, c) == Min(IndexOf(w + rest, c), |w|)
  {
    var k := IndexOf(w + rest, c);
    if k < |w| {
      assert (w + rest)[..k] == w[..k];
      IndexIs(w, c, k);
    } else {
      assert w == (w + rest)[..k][..|w|];
      assert w[..|w|] == w;
      IndexIs(w, c, |w|);
    }
  }

  /** The first line of s ends with a line feed and, that included, has at most capacity characters. */
  predicate HasLine(s: seq<char>, capacity: nat) {
    IndexOf(s, '\n') < |s| && IndexOf(s, '\n') < capacity
  }

  /** Without a line feed in a full buffer, or in the last of the text, there is no line. */
  lemma NoLine(w: seq<char>, rest: seq<char>, capacity: nat)
    ensures IndexOf(w, '\n') == |w| && (|w| == capacity || rest == []) ==> !HasLine(w + rest, capacity)
  {
    IndexInPrefix('\n', w, rest);
  }

  /** A line feed in what has been read ends the first line of the whole text. */
  lemma FirstLineInWindow(window: seq<char>, later: seq<char>, capacity: nat)
    requires |window| <= capacity
    ensures var k := IndexOf(window, '\n');
      k < |window| ==>
        && HasLine(window + later, capacity) && IndexOf(window + later, '\n') == k
        && (window + later)[..k] == window[..k] && (window + later)[k + 1..] == window[k + 1..] + later
  {
    hide IndexOf;
    IndexInPrefix('\n', window, later);
  }

  lemma NoLineLater(s: seq<char>, k: nat, capacity: nat)
    requires k == Min(capacity, |s|)
    ensures s[..k] + s[k..] == s
    ensures IndexOf(s[..k], '\n') == k ==> !HasLine(s, capacity)
  {
    hide IndexOf, HasLine;
    assert s[..k] + s[k..] == s;
    NoLine(s[..k], s[k..], capacity);
  }

  /** The lines up to the first that does not fit or does not end. */
  function Lines(s: seq<char>, capacity: nat): seq<seq<char>>
    decreases |s|
  {
    if HasLine(s, capacity) then
      var k := IndexOf(s, '\n');
      [s[..k]] + Lines(s[k + 1..], capacity)
    else []
  }

  lemma LinesStep(s: seq<char>, capacity: nat)
    ensures var k := IndexOf(s, '\n');
      Lines(s, capacity) == if HasLine(s, capacity) then [s[..k]] + Lines(s[k + 1..], capacity) else []
    ensures HasLine(s, capacity) ==> IndexOf(s, '\n') < |s|
  {
  }

  function Unlines(lines: seq<seq<char>>): seq<char> {
    if lines == [] then [] else lines[0] + ['\n'] + Unlines(lines[1..])
  }

  /** The lines are free of line feeds and fit. */
  lemma {:induction false} LinesFit(s: seq<char>, capacity: nat)
    ensures forall l :: l in Lines(s, capacity) ==> '\n' !in l && |l| < capacity
    decreases |s|
  {
    LinesStep(s, capacity);
    if HasLine(s, capacity) {
      var k := IndexOf(s, '\n');
      assert s[0..k] == s[..k];
      LinesFit(s[k + 1..], capacity);
      hide Lines, IndexOf;
    }
  }

  /** Together with a remainder that has no line feed within reach, they make up the text. */
  lemma {:induction false} LinesSplit(s: seq<char>, capacity: nat) returns (rest: seq<char>)
    ensures s == Unlines(Lines(s, capacity)) + rest
    ensures '\n' !in rest[..Min(capacity, |rest|)]
    decreases |s|
  {
    hide Lines, IndexOf, Unlines;
    var k := IndexOf(s, '\n');
    LinesStep(s, capacity);
    if HasLine(s, capacity) {
      rest := LinesSplit(s[k + 1..], capacity);
      UnlinesCons(s[..k], Lines(s[k + 1..], capacity), rest);
      assert s == s[..k] + ['\n'] + s[k + 1..];
    } else {
      rest := s;
      UnlinesNil();
      var m := Min(capacity, |s|);
      assert s[..m] == s[0..k][..m];
    }
  }

  lemma UnlinesNil()
    ensures Unlines([]) == []
  {
  }

  lemma UnlinesCons(l: seq<char>, ls: seq<seq<char>>, rest: seq<char>)
    ensures Unlines([l] + ls) + rest == l + ['\n'] + (Unlines(ls) + rest)
  {
    assert ([l] + ls)[1..] == ls;
  }

  /** If every line fits, nothing but an unterminated last line is left out. */
  lemma {:induction false} AllLinesWhenTheyFit(lines: seq<seq<char>>, last: seq<char>, capacity: nat)
    requires forall l :: l in lines ==> '\n' !in l && |l| < capacity
    requires '\n' !in last
    ensures Lines(Unlines(lines) + last, capacity) == lines
  {
    hide IndexOf, Lines, Unlines;
    var s := Unlines(lines) + last;
    LinesStep(s, capacity);
    if lines == [] {
      UnlinesNil();
      assert s == last;
      assert IndexOf(s, '\n') == |s|;
    } else {
      var l, t := lines[0], Unlines(lines[1..]) + last;
      assert lines == [l] + lines[1..];
      UnlinesCons(l, lines[1..], last);
      FirstLineIs(s, l, t);
      assert l in lines;
      AllLinesWhenTheyFit(lines[1..], last, capacity);
    }
  }

  lemma FirstLineIs(s: seq<char>, l: seq<char>, t: seq<char>)
    requires s == l + ['\n'] + t && '\n' !in l
    ensures IndexOf(s, '\n') == |l| && s[..|l|] == l && s[|l| + 1..] == t && |l| < |s|
  {
    hide IndexOf;
    assert s[|l|] == '\n';
    assert s[..|l|] == l;
    IndexIs(s, '\n', |l|);
  }

  // ---------------------------------------------------------------------------
  // The reader

  class Reader {
    const fd: Descriptor
    const buf: array<char>
    var bol: nat
    var eol: int  // -1 is NULL
    var eod: nat

    constructor (fd: Descriptor, buf: array<char>)
      requires fd.Valid()
      ensures Valid() && this.fd == fd && this.buf == buf && Rest() == fd.Remaining()
    {
      this.fd, this.buf := fd, buf;
      bol, eol, eod := 0, 0, 0;
    }

    /** Nothing was read yet, or the last line returned is buf[bol..eol]. */
    ghost predicate Valid()
      reads this, fd
    {
      fd.Valid() && (eod == 0 || bol <= eol < eod <= buf.Length)
    }

    /** The text that has not been returned yet. */
    ghost function Rest(): seq<char>
      requires Valid()
      reads this, fd, buf
    {
      if eod == 0 then fd.Remaining() else buf[eol + 1..eod] + fd.Remaining()
    }

    method FindLineFeed() returns (k: int)
      requires bol <= eod <= buf.Length
      ensures k == -1 ==> IndexOf(buf[bol..eod], '\n') == eod - bol
      ensures k != -1 ==> bol <= k < eod && IndexOf(buf[bol..eod], '\n') == k - bol
    {
      ghost var s := buf[bol..eod];
      var i := bol;
      while i < eod
        invariant bol <= i <= eod
        invariant IndexOf(s, '\n') == i - bol + IndexOf(s[i - bol..], '\n')
      {
        assert s[i - bol] == buf[i];
        if buf[i] == '\n' { return i; }
        i := i + 1;
      }
      return -1;
    }

    /** Keep the incomplete line that starts at bol, and fill the buffer behind it. */
    method Refill() returns (ok: bool)
      requires fd.Valid() && bol <= eod <= buf.Length
      modifies this, fd, buf
      ensures fd.Valid() && (fd.NeverFails() && !ok ==>
                eod - bol == old(eod - bol) && (eod - bol == buf.Length || old(fd.Remaining()) == []))
      ensures ok ==> bol == 0 && 0 < eod <= buf.Length && eod > old(eod - bol)
      ensures ok ==>
        var rest := old(buf[bol..eod] + fd.Remaining());
        eod == Min(buf.Length, |rest|) && buf[..eod] == rest[..eod] && fd.Remaining() == rest[eod..]
    {
      ghost var rest := buf[bol..eod] + fd.Remaining();
      var incomplete := eod - bol;
      ghost var line := buf[bol..eod];
      forall i | 0 <= i < incomplete {
        buf[i] := buf[bol + i];
      }
      assert buf[..incomplete] == line;
      var n := ReadPersistent(fd, buf, incomplete, buf.Length - incomplete);
      if n <= 0 { return false; }
      eod := incomplete + n;
      bol := 0;
      assert buf[..eod] == buf[..incomplete] + buf[incomplete..eod];
      return true;
    }

    /** On success, the line is buf[b..e]. A line that does not end with a line feed is dropped. */
    method ReadLine() returns (ok: bool, b: nat, e: nat)
      requires Valid()
      modifies this, fd, buf
      ensures ok ==> Valid() && HasLine(old(Rest()), buf.Length) && b <= e <= buf.Length
      ensures ok ==>
        var k := IndexOf(old(Rest()), '\n');
        buf[b..e] == old(Rest())[..k] && Rest() == old(Rest())[k + 1..]
      ensures fd.NeverFails() && HasLine(old(Rest()), buf.Length) ==> ok
    {
      hide IndexOf, HasLine;
      b, e := 0, 0;
      ghost var rest := Rest();
      ok := Locate();
      if ok {
        ghost var window, later := buf[bol..eod], fd.Remaining();
        FirstLineInWindow(window, later, buf.Length);
        ok, b, e := TakeLine();
      }
    }

    /** The line that starts at bol, if its end is in the buffer. */
    method TakeLine() returns (found: bool, b: nat, e: nat)
      requires fd.Valid() && bol <= eod <= buf.Length && 0 < eod
      modifies this`eol, buf
      ensures fd.Valid() && fd.Remaining() == old(fd.Remaining())
      ensures var w := old(buf[bol..eod]); var k := IndexOf(w, '\n');
        && (found <==> k < |w|)
        && (found ==> Valid() && b <= e <= buf.Length && buf[b..e] == w[..k] && Rest() == w[k + 1..] + fd.Remaining())
    {
      hide IndexOf;
      ghost var w := buf[bol..eod];
      var k := FindLineFeed();
      eol := k;
      found, b, e := k != -1, 0, 0;
      if found {
        SplitSlice(buf, bol, k, eod);
        buf[k] := '\0';
        b, e := bol, k;
      }
    }

    /** Let bol be the start of the next line, and have all of it in the buffer if it fits. */
    method Locate() returns (ok: bool)
      requires Valid()
      modifies this, fd, buf
      ensures ok ==> fd.Valid() && bol <= eod <= buf.Length && 0 < eod && buf[bol..eod] + fd.Remaining() == old(Rest())
      ensures ok && IndexOf(buf[bol..eod], '\n') == eod - bol ==> !HasLine(old(Rest()), buf.Length)
      ensures fd.NeverFails() && HasLine(old(Rest()), buf.Length) ==> ok
    {
      hide IndexOf, HasLine;
      ghost var rest := Rest();
      ok := NextLine();
      if !ok {
        NoLine(buf[bol..eod], fd.Remaining(), buf.Length);
        ok := Refill();
        if ok {
          NoLineLater(rest, eod, buf.Length);
          assert buf[bol..eod] == buf[..eod];
        }
      }
    }

    /** Move bol to the next line; complete says whether its line feed is in the buffer. */
    method NextLine() returns (complete: bool)
      requires Valid()
      modifies this
      ensures eod == old(eod) && bol <= eod <= buf.Length && (complete ==> 0 < eod)
      ensures buf[bol..eod] + fd.Remaining() == old(Rest())
      ensures complete <==> IndexOf(buf[bol..eod], '\n') != eod - bol
    {
      if eod == 0 {
        bol := 0;
        complete := false;
      } else {
        bol := eol + 1;
        var k := FindLineFeed();
        complete := k != -1;
      }
    }
  }

  lemma SplitSlice(a: array<char>, i: nat, k: nat, j: nat)
    requires i <= k < j <= a.Length
    ensures a[i..j][..k - i] == a[i..k]
    ensures a[i..j][k - i + 1..] == a[k + 1..j]
  {
    var t := a[i..j];
    var u, v := t[k - i + 1..], a[k + 1..j];
    forall q | 0 <= q < |u|
      ensures u[q] == v[q]
    {
      assert u[q] == t[k - i + 1 + q] == a[k + 1 + q];
    }
  }

  lemma MoreLines(lines: seq<seq<char>>, line: seq<char>, more: seq<seq<char>>)
    ensures lines + ([line] + more) == lines + [line] + more
  {
  }

  /** The caller's loop: every line of the file, in order. */
  method ReadLines(content: seq<char>, pace: nat -> int, buf: array<char>) returns (lines: seq<seq<char>>)
    modifies buf
    ensures lines <= Lines(content, buf.Length)
    ensures (forall k :: pace(k) >= 0) ==> lines == Lines(content, buf.Length)
  {
    hide Lines, IndexOf, HasLine, Reader.Valid, Reader.Rest;
    var fd := new Descriptor(content, pace);
    var reader := new Reader(fd, buf);
    lines := [];
    ghost var rest, all := content, Lines(content, buf.Length);
    ghost var sound := forall k :: pace(k) >= 0;
    assert sound ==> fd.NeverFails();
    while true
      invariant reader.Valid() && reader.fd == fd && reader.buf == buf && fresh(reader) && fresh(fd)
      invariant rest == reader.Rest() && (sound ==> fd.NeverFails())
      invariant all == lines + Lines(rest, buf.Length)
      decreases |rest|
    {
      LinesStep(rest, buf.Length);
      var ok, b, e := reader.ReadLine();
      if !ok { return; }
      MoreLines(lines, buf[b..e], Lines(reader.Rest(), buf.Length));
      lines := lines + [buf[b..e]];
      rest := reader.Rest();
    }
  }
}

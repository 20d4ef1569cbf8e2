/** The doubly linked list of redis/src/adlist.cc. */
module Adlist {
  import opened Wrappers
  import opened Zmalloc

  const SIZEOF_LIST: nat := 48
  const SIZEOF_NODE: nat := 24
  const SIZEOF_ITER: nat := 16

  class ListNode<T> {
    var prev: ListNode?<T>
    var next: ListNode?<T>
    const value: T

    constructor (value: T)
      ensures this.value == value && prev == null && next == null
    {
      this.value, prev, next := value, null, null;
    }
  }

  /** What a free callback has been called with. */
  class FreeCallback<T> {
    var freed: seq<T>

    constructor ()
      ensures freed == []
    {
      freed := [];
    }

    method Call(value: T)
      modifies this
      ensures freed == old(freed) + [value]
    {
      freed := freed + [value];
    }
  }

  // ---------------------------------------------------------------------------
  // Chains of nodes

  function First<T>(nodes: seq<ListNode<T>>, otherwise: ListNode?<T>): ListNode?<T> {
    if nodes == [] then otherwise else nodes[0]
  }

  function Last<T>(nodes: seq<ListNode<T>>, otherwise: ListNode?<T>): ListNode?<T> {
    if nodes == [] then otherwise else nodes[|nodes| - 1]
  }

  /** Each node's next is the node after it; the last one's is after. */
  ghost predicate Forward<T>(nodes: seq<ListNode<T>>, after: ListNode?<T>)
    reads nodes`next
  {
    nodes != [] ==> nodes[0].next == First(nodes[1..], after) && Forward(nodes[1..], after)
  }

  /** Each node's prev is the node before it; the first one's is before. */
  ghost predicate Backward<T>(nodes: seq<ListNode<T>>, before: ListNode?<T>)
    reads nodes`prev
  {
    nodes != [] ==> nodes[0].prev == before && Backward(nodes[1..], nodes[0])
  }

  ghost predicate Distinct<T>(nodes: seq<ListNode<T>>) {
    forall i, j :: 0 <= i < j < |nodes| ==> nodes[i] != nodes[j]
  }

  lemma {:induction false} ForwardConcat<T>(a: seq<ListNode<T>>, b: seq<ListNode<T>>, after: ListNode?<T>)
    ensures Forward(a + b, after) <==> Forward(a, First(b, after)) && Forward(b, after)
  {
    if a == [] {
      assert a + b == b;
    } else {
      assert (a + b)[1..] == a[1..] + b;
      ForwardConcat(a[1..], b, after);
    }
  }

  lemma {:induction false} BackwardConcat<T>(a: seq<ListNode<T>>, b: seq<ListNode<T>>, before: ListNode?<T>)
    ensures Backward(a + b, before) <==> Backward(a, before) && Backward(b, Last(a, before))
  {
    if a == [] {
      assert a + b == b;
    } else {
      assert (a + b)[1..] == a[1..] + b;
      BackwardConcat(a[1..], b, a[0]);
      assert Last(a, before) == Last(a[1..], a[0]);
    }
  }

  lemma ChainOfOne<T>(n: ListNode<T>, m: ListNode?<T>)
    ensures Forward([n], m) <==> n.next == m
    ensures Backward([n], m) <==> n.prev == m
    ensures Forward<T>([], m) && Backward<T>([], m)
  {
    assert [n][1..] == [];
  }

  ghost function Values<T>(nodes: seq<ListNode<T>>): (v: seq<T>)
    ensures |v| == |nodes| && forall i :: 0 <= i < |nodes| ==> v[i] == nodes[i].value
  {
    seq(|nodes|, i requires 0 <= i < |nodes| => nodes[i].value)
  }

  /** The blocks of the list are live, with their sizes. */
  ghost predicate Owned<T>(prefix: map<object, nat>, list: object, nodes: seq<ListNode<T>>) {
    && list in prefix && prefix[list] == SIZEOF_LIST
    && forall i :: 0 <= i < |nodes| ==> nodes[i] in prefix && prefix[nodes[i]] == SIZEOF_NODE
  }

  lemma OwnedCons<T>(prefix: map<object, nat>, list: object, node: ListNode<T>, nodes: seq<ListNode<T>>)
    requires Owned(prefix, list, nodes) && node != list
    ensures Owned(prefix[node := SIZEOF_NODE], list, [node] + nodes)
    ensures Owned(prefix[node := SIZEOF_NODE], list, nodes + [node])
  {
  }

  /** Without a match callback, keys are compared. */
  predicate Matches<T(==)>(match_: Option<(T, T) -> bool>, value: T, key: T) {
    match match_
    case Some(f) => f(value, key)
    case None => key == value
  }

  /** The copy of a value, unless the callback fails; without a callback the value itself. */
  function CopyOne<T>(dup: Option<T -> Option<T>>, value: T): Option<T> {
    match dup
    case Some(f) => f(value)
    case None => Some(value)
  }

  /** The copies up to the first failure, and whether there was none. */
  function CopyAll<T>(dup: Option<T -> Option<T>>, values: seq<T>): (seq<T>, bool) {
    if values == [] then ([], true)
    else
      var (copies, ok) := CopyAll(dup, values[..|values| - 1]);
      if !ok then (copies, false)
      else
        match CopyOne(dup, values[|values| - 1])
        case Some(copy) => (copies + [copy], true)
        case None => (copies, false)
  }

  lemma CopyAllNext<T>(dup: Option<T -> Option<T>>, nodes: seq<ListNode<T>>, k: nat)
    requires k < |nodes|
    ensures CopyAll(dup, Values(nodes)[..k + 1]) ==
      var (copies, ok) := CopyAll(dup, Values(nodes)[..k]); var copy := CopyOne(dup, nodes[k].value);
      if ok && copy.Some? then (copies + [copy.value], true) else (copies, false)
  {
    var v := Values(nodes)[..k + 1];
    assert v[..k] == Values(nodes)[..k];
  }

  lemma {:induction false} CopyAllEnds<T>(dup: Option<T -> Option<T>>, nodes: seq<ListNode<T>>, k: nat)
    requires k <= |nodes| && (k == |nodes| || !CopyAll(dup, Values(nodes)[..k]).1)
    ensures CopyAll(dup, Values(nodes)) == CopyAll(dup, Values(nodes)[..k])
    decreases |nodes| - k
  {
    if k == |nodes| {
      assert Values(nodes)[..k] == Values(nodes);
    } else {
      CopyAllNext(dup, nodes, k);
      CopyAllEnds(dup, nodes, k + 1);
    }
  }

  lemma NothingCopied<T>(dup: Option<T -> Option<T>>, nodes: seq<ListNode<T>>, none: seq<ListNode<T>>,
                         prefix: map<object, nat>)
    requires none == []
    ensures (Values(none), true) == CopyAll(dup, Values(nodes)[..0])
    ensures prefix - NodeSet(none) == prefix
  {
  }

  lemma OneMoreNode<T>(nodes: seq<ListNode<T>>, node: ListNode<T>, prefix: map<object, nat>)
    requires node !in prefix
    ensures Values(nodes + [node]) == Values(nodes) + [node.value]
    ensures prefix[node := SIZEOF_NODE] - NodeSet(nodes + [node]) == prefix - NodeSet(nodes)
  {
  }

  lemma OwnedNothing<T>(prefix: map<object, nat>, list: List<T>)
    requires list in prefix && prefix[list] == SIZEOF_LIST
    ensures Owned<T>(prefix, list, [])
  {
  }

  lemma OwnedMore<T>(prefix: map<object, nat>, list: object, nodes: seq<ListNode<T>>, block: object, size: nat)
    requires Owned(prefix, list, nodes) && block !in prefix
    ensures Owned(prefix[block := size], list, nodes)
  {
  }

  /** The memory after copying, before and after the iterator is released. */
  lemma AfterCopying<T>(prefix: map<object, nat>, copy: object, iter: object, nodes: seq<ListNode<T>>,
                        after: map<object, nat>,
                        list: object, own: seq<ListNode<T>>)
    requires copy !in prefix && iter !in prefix && copy != iter
    requires after - NodeSet(nodes) == prefix[copy := SIZEOF_LIST][iter := SIZEOF_ITER]
    requires Owned(after, copy, nodes) && Owned(prefix, list, own)
    ensures iter in after && after[iter] == SIZEOF_ITER
    ensures after - {iter} - Blocks(copy, nodes) == prefix
    ensures Owned(after - {iter}, copy, nodes) && Owned(after - {iter}, list, own)
  {
    assert iter in after - NodeSet(nodes);
    forall n | n in NodeSet(nodes)
      ensures n !in prefix
    {
      assert n !in after - NodeSet(nodes);
    }
    forall b | b in prefix
      ensures b in after && after[b] == prefix[b]
    {
      assert b in after - NodeSet(nodes);
    }
    forall b | b in after && b !in Blocks(copy, nodes) && b != iter
      ensures b in prefix
    {
      assert b in after - NodeSet(nodes);
    }
  }

  class List<T(==)> {
    const z: Allocator
    var head: ListNode?<T>
    var tail: ListNode?<T>
    var len: nat
    var dup: Option<T -> Option<T>>
    var free: FreeCallback?<T>
    var match_: Option<(T, T) -> bool>
    ghost var nodes: seq<ListNode<T>>

    /** The links are those of the nodes in their order. */
    ghost predicate Chained()
      reads this, nodes`next, nodes`prev
    {
      && len == |nodes|
      && head == First(nodes, null)
      && tail == Last(nodes, null)
      && Distinct(nodes) && Forward(nodes, null) && Backward(nodes, null)
    }

    ghost predicate Valid()
      reads this, nodes`next, nodes`prev, z
    {
      Chained() && z.Valid() && Owned(z.prefix, this, nodes)
    }

    /** listCreate */
    constructor (z: Allocator)
      requires z.Valid()
      modifies z
      ensures Valid() && this.z == z && nodes == [] && dup == None && free == null && match_ == None
      ensures z.prefix == old(z.prefix)[this := SIZEOF_LIST] && this !in old(z.prefix)
      ensures z.prefix - Blocks(this, nodes) == old(z.prefix)
      ensures z.usedMemory == old(z.usedMemory) + SIZEOF_LIST + PREFIX_SIZE
    {
      this.z := z;
      head, tail, len, nodes := null, null, 0, [];
      dup, free, match_ := None, null, None;
      new;
      z.Malloc(this, SIZEOF_LIST);
    }

    /** listSetFreeMethod */
    method SetFreeMethod(free: FreeCallback?<T>)
      requires Valid()
      modifies this`free
      ensures Valid() && this.free == free
    {
      this.free := free;
    }

    /** listAddNodeHead */
    method AddNodeHead(value: T)
      requires Valid()
      modifies this`head, this`tail, this`len, this`nodes, nodes`prev, z
      ensures Valid()
      ensures nodes == [head] + old(nodes) && fresh(head) && head.value == value
      ensures z.prefix == old(z.prefix)[head := SIZEOF_NODE] && head !in old(z.prefix)
      ensures z.prefix - Blocks(this, nodes) == old(z.prefix - Blocks(this, nodes))
      ensures z.usedMemory == old(z.usedMemory) + SIZEOF_NODE + PREFIX_SIZE
    {
      hide Forward, Backward, Distinct, Owned, Blocks;
      var node := new ListNode(value);
      z.Malloc(node, SIZEOF_NODE);
      OwnedCons(old(z.prefix), this, node, nodes);
      BlocksCons(old(z.prefix), this, node, nodes);
      LinkHead(node);
    }

    method LinkHead(node: ListNode<T>)
      requires Chained() && node !in nodes && node.prev == null
      modifies this`head, this`tail, this`len, this`nodes, nodes`prev, node`next
      ensures Chained() && nodes == [node] + old(nodes)
    {
      hide Forward, Backward, Distinct;
      SplitFirst(nodes);
      node.next := head;
      if head != null {
        head.prev := node;
      } else {
        tail := node;
      }
      JoinFirst(node, nodes);
      head := node;
      len := len + 1;
      nodes := [node] + nodes;
    }

    /** listAddNodeTail */
    method AddNodeTail(value: T)
      requires Valid()
      modifies this`head, this`tail, this`len, this`nodes, nodes`next, z
      ensures Valid()
      ensures nodes == old(nodes) + [tail] && fresh(tail) && tail.value == value
      ensures z.prefix == old(z.prefix)[tail := SIZEOF_NODE] && tail !in old(z.prefix)
      ensures z.prefix - Blocks(this, nodes) == old(z.prefix - Blocks(this, nodes))
      ensures z.usedMemory == old(z.usedMemory) + SIZEOF_NODE + PREFIX_SIZE
    {
      hide Forward, Backward, Distinct, Owned, Blocks;
      var node := new ListNode(value);
      z.Malloc(node, SIZEOF_NODE);
      OwnedCons(old(z.prefix), this, node, nodes);
      BlocksCons(old(z.prefix), this, node, nodes);
      LinkTail(node);
    }

    method LinkTail(node: ListNode<T>)
      requires Chained() && node !in nodes && node.next == null
      modifies this`head, this`tail, this`len, this`nodes, nodes`next, node`prev
      ensures Chained() && nodes == old(nodes) + [node]
    {
      hide Forward, Backward, Distinct;
      SplitLast(nodes);
      node.prev := tail;
      if tail != null {
        tail.next := node;
      } else {
        head := node;
      }
      JoinLast(node, nodes);
      tail := node;
      len := len + 1;
      nodes := nodes + [node];
    }

    /** listDelNode. On an empty list it does nothing; otherwise the node must be one of the list. */
    method DelNode(node: ListNode<T>) returns (ghost k: nat)
      requires Valid() && (nodes != [] ==> node in nodes)
      modifies this`head, this`tail, this`len, this`nodes, nodes`next, nodes`prev, z, free
      ensures Valid()
      ensures old(nodes) == [] ==> nodes == [] && z.prefix == old(z.prefix) && z.usedMemory == old(z.usedMemory)
      ensures old(nodes) != [] ==>
        && k < |old(nodes)| && old(nodes)[k] == node
        && nodes == old(nodes)[..k] + old(nodes)[k + 1..]
        && z.prefix == old(z.prefix) - {node}
        && z.prefix - Blocks(this, nodes) == old(z.prefix - Blocks(this, nodes))
        && z.usedMemory == old(z.usedMemory) - (SIZEOF_NODE + PREFIX_SIZE)
        && (free != null ==> free.freed == old(free.freed) + [node.value])
    {
      hide Forward, Backward, Distinct, Owned, Blocks;
      if len == 0 { return 0; }
      k :| 0 <= k < |nodes| && nodes[k] == node;
      OwnedRemove(z.prefix, this, nodes, k);
      BlocksRemove(z.prefix, this, nodes, k);
      Unlink(node, k);
      if free != null { free.Call(node.value); }
      z.Free(node);
    }

    method Unlink(node: ListNode<T>, ghost k: nat)
      requires Chained() && k < |nodes| && nodes[k] == node
      modifies this`head, this`tail, this`len, this`nodes, nodes`next, nodes`prev
      ensures Chained() && nodes == old(nodes)[..k] + old(nodes)[k + 1..]
    {
      hide Forward, Backward, Distinct;
      ghost var a, b := nodes[..k], nodes[k + 1..];
      SplitAround(nodes, k);
      if len == 1 {
        head, tail := null, null;
      } else if node == head {
        head := node.next;
        node.next.prev := null;
      } else if node == tail {
        tail := node.prev;
        node.prev.next := null;
      } else {
        node.prev.next := node.next;
        node.next.prev := node.prev;
      }
      JoinAround(a, b);
      len := len - 1;
      nodes := a + b;
    }

    /** listGetIterator */
    method GetIterator(forward: bool) returns (iter: ListIter<T>)
      requires Valid()
      modifies z
      ensures Valid() && fresh(iter) && iter.Walks(nodes) && iter.forward == forward && iter.ahead == nodes
      ensures z.prefix == old(z.prefix)[iter := SIZEOF_ITER] && iter !in old(z.prefix)
      ensures z.usedMemory == old(z.usedMemory) + SIZEOF_ITER + PREFIX_SIZE
    {
      hide Forward, Backward, Distinct;
      iter := new ListIter(forward, if forward then head else tail, nodes);
      z.Malloc(iter, SIZEOF_ITER);
      assert nodes[|nodes| - |nodes|..] == nodes;
    }

    /** listReleaseIter */
    method ReleaseIter(iter: ListIter<T>)
      requires Valid() && iter in z.prefix && z.prefix[iter] == SIZEOF_ITER
      requires Owned(z.prefix - {iter}, this, nodes)
      modifies z
      ensures Valid() && z.prefix == old(z.prefix) - {iter}
      ensures z.usedMemory == old(z.usedMemory) - (SIZEOF_ITER + PREFIX_SIZE)
    {
      hide Forward, Backward, Distinct, Owned;
      z.Free(iter);
    }

    /** listSearchKey: the first node that matches, at place k; the memory in use does not change. */
    method SearchKey(key: T) returns (node: ListNode?<T>, ghost k: nat)
      requires Valid()
      modifies z
      ensures Valid() && z.prefix == old(z.prefix) && z.usedMemory == old(z.usedMemory)
      ensures k <= |nodes| && node == if k < |nodes| then nodes[k] else null
      ensures node != null ==> Matches(match_, node.value, key)
      ensures forall j :: 0 <= j < k ==> !Matches(match_, nodes[j].value, key)
    {
      hide Forward, Backward, Distinct, Owned, Matches;
      var iter := GetIterator(true);
      node, k := Seek(iter, key);
      OwnedWithout(old(z.prefix), this, nodes, iter);
      ReleaseIter(iter);
    }

    /** The loop of listSearchKey. */
    method Seek(iter: ListIter<T>, key: T) returns (node: ListNode?<T>, ghost k: nat)
      requires Chained() && iter.Walks(nodes) && iter.forward && iter.ahead == nodes
      modifies iter`next, iter`ahead
      ensures k <= |nodes| && node == if k < |nodes| then nodes[k] else null
      ensures node != null ==> Matches(match_, node.value, key)
      ensures forall j :: 0 <= j < k ==> !Matches(match_, nodes[j].value, key)
    {
      hide Forward, Backward, Distinct, Matches, ListIter.Walks;
      k := 0;
      WalkingAt(iter, nodes);
      node := iter.Next(nodes);
      while node != null && !Matches(match_, node.value, key)
        invariant iter.Walks(nodes) && iter.forward
        invariant k <= |nodes| && node == if k < |nodes| then nodes[k] else null
        invariant k < |nodes| ==> |iter.ahead| == |nodes| - k - 1
        invariant forall j :: 0 <= j < k ==> !Matches(match_, nodes[j].value, key)
        decreases |nodes| - k
      {
        WalkingAt(iter, nodes);
        node := iter.Next(nodes);
        k := k + 1;
      }
    }

    /** listIndex */
    method Index(index: int) returns (node: ListNode?<T>)
      requires Valid()
      ensures node == if 0 <= index < |nodes| then nodes[index] else null
    {
      hide Forward, Backward, Distinct, Owned;
      var i := 0;
      node := head;
      while node != null && i != index
        invariant 0 <= i <= |nodes| && node == if i < |nodes| then nodes[i] else null
        invariant 0 <= index ==> i <= index
        decreases |nodes| - i
      {
        NextAt(nodes, i);
        node := node.next;
        i := i + 1;
      }
    }

    /** listDup: a new list of the copied values; or, if a value cannot be copied, nothing, and all memory
        taken on the way is given back, with the values copied so far handed to the free callback. */
    method Dup() returns (copy: List?<T>)
      requires Valid()
      modifies z, free
      ensures Valid()
      ensures var (values, ok) := CopyAll(dup, Values(nodes)); ok <==> copy != null
      ensures copy != null ==>
        && fresh(copy) && fresh(copy.nodes) && copy.Valid()
        && copy.z == z && copy.dup == dup && copy.free == free && copy.match_ == match_
        && Values(copy.nodes) == CopyAll(dup, Values(nodes)).0
        && z.prefix - Blocks(copy, copy.nodes) == old(z.prefix)
        && (free != null ==> free.freed == old(free.freed))
      ensures copy == null ==>
        && z.prefix == old(z.prefix) && z.usedMemory == old(z.usedMemory)
        && (free != null ==> free.freed == old(free.freed) + CopyAll(dup, Values(nodes)).0)
    {
      hide Forward, Backward, Distinct, Owned, CopyAll, Values, Blocks, NodeSet;
      var ok;
      copy, ok := CopyAsFarAsPossible();
      if !ok {
        copy.Release();
        copy := null;
      }
    }

    /** listDup up to the point where the iterator has been released. */
    method CopyAsFarAsPossible() returns (copy: List<T>, ok: bool)
      requires Valid()
      modifies z
      ensures Valid() && fresh(copy) && fresh(copy.nodes) && copy.Valid()
      ensures copy.z == z && copy.dup == dup && copy.free == free && copy.match_ == match_
      ensures (Values(copy.nodes), ok) == CopyAll(dup, Values(nodes))
      ensures z.prefix - Blocks(copy, copy.nodes) == old(z.prefix) &&
        Owned(z.prefix - Blocks(copy, copy.nodes), this, nodes)
      ensures z.usedMemory == old(z.usedMemory) + (SIZEOF_LIST + PREFIX_SIZE) +
        (SIZEOF_NODE + PREFIX_SIZE) * |copy.nodes|
    {
      hide Forward, Backward, Distinct, Owned, CopyAll, Values, Blocks, NodeSet, Chained, ListIter.Walks, First, Last,
        Total;
      var iter;
      copy, iter := StartCopy();
      ok := CopyNodes(copy, iter);
      DropIter(copy, iter, old(z.prefix));
    }

    method DropIter(copy: List<T>, iter: ListIter<T>, ghost before: map<object, nat>)
      requires Chained() && copy.Valid() && copy.z == z && copy != this
      requires copy !in before && iter !in before && Owned(before, this, nodes)
      requires z.prefix - NodeSet(copy.nodes) == before[copy := SIZEOF_LIST][iter := SIZEOF_ITER]
      modifies z
      ensures Valid() && copy.Valid()
      ensures z.prefix - Blocks(copy, copy.nodes) == before
      ensures z.usedMemory == old(z.usedMemory) - (SIZEOF_ITER + PREFIX_SIZE)
    {
      hide Forward, Backward, Distinct, Owned, Values, Blocks, NodeSet;
      AfterCopying(before, copy, iter, copy.nodes, z.prefix, this, nodes);
      z.Free(iter);
    }

    method StartCopy() returns (copy: List<T>, iter: ListIter<T>)
      requires Valid()
      modifies z
      ensures Valid() && fresh(copy) && copy.nodes == [] && copy.Valid() && fresh(iter)
      ensures copy.z == z && copy.dup == dup && copy.free == free && copy.match_ == match_
      ensures iter.Walks(nodes) && iter.forward && iter.ahead == nodes
      ensures copy !in old(z.prefix) && iter !in old(z.prefix)
      ensures z.prefix == old(z.prefix)[copy := SIZEOF_LIST][iter := SIZEOF_ITER]
      ensures z.usedMemory == old(z.usedMemory) + (SIZEOF_LIST + PREFIX_SIZE) + (SIZEOF_ITER + PREFIX_SIZE)
    {
      hide Forward, Backward, Distinct, Owned;
      copy := new List(z);
      copy.dup, copy.free, copy.match_ := dup, free, match_;
      OwnedMore(old(z.prefix), this, nodes, copy, SIZEOF_LIST);
      iter := GetIterator(true);
      OwnedNothing(z.prefix, copy);
    }

    /** The loop of listDup. */
    method CopyNodes(copy: List<T>, iter: ListIter<T>) returns (ok: bool)
      requires Chained() && iter.Walks(nodes) && iter.forward && iter.ahead == nodes
      requires copy != this && copy.Valid() && copy.nodes == [] && copy.z == z && copy.dup == dup
      modifies copy`head, copy`tail, copy`len, copy`nodes, iter`next, iter`ahead, z
      ensures copy.Valid() && fresh(copy.nodes)
      ensures (Values(copy.nodes), ok) == CopyAll(dup, Values(nodes))
      ensures z.prefix - NodeSet(copy.nodes) == old(z.prefix)
      ensures z.usedMemory == old(z.usedMemory) + (SIZEOF_NODE + PREFIX_SIZE) * |copy.nodes|
    {
      hide Forward, Backward, Distinct, Owned, CopyAll, CopyOne, Values, NodeSet, ListIter.Walks;
      ghost var k := 0;
      ok := true;
      NothingCopied(dup, nodes, copy.nodes, z.prefix);
      while iter.next != null && ok
        invariant iter.Walks(nodes) && iter.forward && copy.Valid() && fresh(copy.nodes)
        invariant k <= |nodes| && |iter.ahead| == |nodes| - k
        invariant (Values(copy.nodes), ok) == CopyAll(dup, Values(nodes)[..k])
        invariant z.prefix - NodeSet(copy.nodes) == old(z.prefix)
        invariant z.usedMemory == old(z.usedMemory) + (SIZEOF_NODE + PREFIX_SIZE) * |copy.nodes|
        decreases |nodes| - k
      {
        WalkingAt(iter, nodes);
        var node := iter.Next(nodes);
        CopyAllNext(dup, nodes, k);
        var value := CopyOne(copy.dup, node.value);
        if value == None {
          ok := false;
        } else {
          ghost var prior, prefix := copy.nodes, z.prefix;
          copy.AddNodeTail(value.value);
          OneMoreNode(prior, copy.tail, prefix);
        }
        k := k + 1;
      }
      WalkingAt(iter, nodes);
      CopyAllEnds(dup, nodes, k);
    }

    /** listRelease: every block of the list is freed once, and every value goes to the callback. */
    method Release()
      requires Valid()
      modifies z, free
      ensures z.Valid() && z.prefix == old(z.prefix) - Blocks(this, nodes)
      ensures z.usedMemory == old(z.usedMemory) - (SIZEOF_LIST + PREFIX_SIZE) - (SIZEOF_NODE + PREFIX_SIZE) * |nodes|
      ensures free != null ==> free.freed == old(free.freed) + Values(nodes)
    {
      hide Forward, Backward, Distinct, Owned, Blocks;
      var count, curr := len, head;
      ghost var k := 0;
      NoBlocks(z.prefix, nodes);
      while count > 0
        invariant count == |nodes| - k && z.Valid()
        invariant z.prefix == old(z.prefix) - NodeSet(nodes[..k])
        invariant z.usedMemory == old(z.usedMemory) - (SIZEOF_NODE + PREFIX_SIZE) * k
        invariant curr == if k < |nodes| then nodes[k] else null
        invariant free != null ==> free.freed == old(free.freed) + Values(nodes)[..k]
      {
        NextAt(nodes, k);
        BlockAt(old(z.prefix), this, nodes, k);
        var next := curr.next;
        if free != null { free.Call(curr.value); }
        z.Free(curr);
        curr := next;
        count := count - 1;
        k := k + 1;
      }
      LastBlock(old(z.prefix), this, nodes);
      z.Free(this);
    }
  }

  class ListIter<T(==)> {
    var next: ListNode?<T>
    var forward: bool
    /** The nodes that are still to come, in the order of the list. */
    ghost var ahead: seq<ListNode<T>>

    constructor (forward: bool, next: ListNode?<T>, ghost ahead: seq<ListNode<T>>)
      ensures this.forward == forward && this.next == next && this.ahead == ahead
    {
      this.forward, this.next, this.ahead := forward, next, ahead;
    }

    /** What is ahead is the last part of the list, or the first when going backward. */
    ghost predicate Walks(nodes: seq<ListNode<T>>)
      reads this
    {
      && |ahead| <= |nodes|
      && (if forward then ahead == nodes[|nodes| - |ahead|..] && next == First(ahead, null)
          else ahead == nodes[..|ahead|] && next == Last(ahead, null))
    }

    /** listNext */
    method Next(ghost nodes: seq<ListNode<T>>) returns (node: ListNode?<T>)
      requires Walks(nodes) && Forward(nodes, null) && Backward(nodes, null)
      modifies this`next, this`ahead
      ensures Walks(nodes) && node == old(next)
      ensures node == null <==> old(ahead) == []
      ensures |ahead| == if node == null then 0 else |old(ahead)| - 1
    {
      hide Forward, Backward;
      node := next;
      if next != null {
        if forward {
          NextAt(nodes, |nodes| - |ahead|);
          next := next.next;
          ahead := ahead[1..];
        } else {
          PrevAt(nodes, |ahead| - 1);
          next := next.prev;
          ahead := ahead[..|ahead| - 1];
        }
      }
    }

    /** listRewind */
    method Rewind(list: List<T>)
      modifies this
      requires list.Valid()
      ensures Walks(list.nodes) && forward && ahead == list.nodes
    {
      next, forward, ahead := list.head, true, list.nodes;
    }

    /** listRewindTail */
    method RewindTail(list: List<T>)
      modifies this
      requires list.Valid()
      ensures Walks(list.nodes) && !forward && ahead == list.nodes
    {
      next, forward, ahead := list.tail, false, list.nodes;
    }
  }

  ghost function NodeSet<T>(nodes: seq<ListNode<T>>): set<object> {
    set n | n in nodes
  }

  ghost function Blocks<T>(list: object, nodes: seq<ListNode<T>>): set<object> {
    {list} + NodeSet(nodes)
  }

  lemma BlocksCons<T>(prefix: map<object, nat>, list: object, node: ListNode<T>, nodes: seq<ListNode<T>>)
    requires node !in prefix
    ensures prefix[node := SIZEOF_NODE] - Blocks(list, [node] + nodes) == prefix - Blocks(list, nodes)
    ensures prefix[node := SIZEOF_NODE] - Blocks(list, nodes + [node]) == prefix - Blocks(list, nodes)
  {
  }

  lemma BlocksRemove<T>(prefix: map<object, nat>, list: object, nodes: seq<ListNode<T>>, k: nat)
    requires k < |nodes|
    ensures prefix - {nodes[k]} - Blocks(list, nodes[..k] + nodes[k + 1..]) == prefix - Blocks(list, nodes)
  {
    assert nodes == nodes[..k] + ([nodes[k]] + nodes[k + 1..]);
  }

  lemma NoBlocks<T>(prefix: map<object, nat>, nodes: seq<ListNode<T>>)
    ensures prefix - NodeSet(nodes[..0]) == prefix
  {
  }

  lemma BlockAt<T>(prefix: map<object, nat>, list: object, nodes: seq<ListNode<T>>, k: nat)
    requires Owned(prefix, list, nodes) && Distinct(nodes) && k < |nodes|
    ensures nodes[k] in prefix - NodeSet(nodes[..k]) && prefix[nodes[k]] == SIZEOF_NODE
    ensures prefix - NodeSet(nodes[..k]) - {nodes[k]} == prefix - NodeSet(nodes[..k + 1])
    ensures Values(nodes)[..k] + [nodes[k].value] == Values(nodes)[..k + 1]
  {
    assert nodes[..k + 1] == nodes[..k] + [nodes[k]];
  }

  lemma LastBlock<T>(prefix: map<object, nat>, list: object, nodes: seq<ListNode<T>>)
    requires Owned(prefix, list, nodes) && list !in NodeSet(nodes)
    ensures list in prefix - NodeSet(nodes) && prefix[list] == SIZEOF_LIST
    ensures prefix - NodeSet(nodes) - {list} == prefix - Blocks(list, nodes)
    ensures nodes[..|nodes|] == nodes && Values(nodes)[..|nodes|] == Values(nodes)
  {
  }

  /** The length of what is ahead tells where in the list the iterator stands. */
  lemma WalkingAt<T>(iter: ListIter<T>, nodes: seq<ListNode<T>>)
    requires iter.Walks(nodes)
    ensures |iter.ahead| <= |nodes|
    ensures iter.next == if iter.ahead == [] then null
      else nodes[if iter.forward then |nodes| - |iter.ahead| else |iter.ahead| - 1]
  {
  }

  lemma {:induction false} NextAt<T>(nodes: seq<ListNode<T>>, k: nat)
    requires Forward(nodes, null) && k < |nodes|
    ensures nodes[k].next == if k + 1 < |nodes| then nodes[k + 1] else null
  {
    if k > 0 { NextAt(nodes[1..], k - 1); }
  }

  lemma {:induction false} PrevAt<T>(nodes: seq<ListNode<T>>, k: nat)
    requires Backward(nodes, null) && k < |nodes|
    ensures nodes[k].prev == if k > 0 then nodes[k - 1] else null
  {
    var a, n, b := nodes[..k], nodes[k], nodes[k + 1..];
    assert nodes == a + ([n] + b);
    BackwardConcat(a, [n] + b, null);
  }

  lemma OwnedWithout<T>(prefix: map<object, nat>, list: object, nodes: seq<ListNode<T>>, block: object)
    requires Owned(prefix, list, nodes) && block !in prefix
    ensures Owned(prefix[block := SIZEOF_ITER] - {block}, list, nodes)
    ensures prefix[block := SIZEOF_ITER] - {block} == prefix
  {
  }

  lemma SplitFirst<T>(nodes: seq<ListNode<T>>)
    requires Forward(nodes, null) && Backward(nodes, null) && Distinct(nodes)
    ensures nodes != [] ==> Backward(nodes[1..], nodes[0]) && nodes[0] !in nodes[1..]
  {
  }

  lemma JoinFirst<T>(node: ListNode<T>, nodes: seq<ListNode<T>>)
    requires Forward(nodes, null) && node.next == First(nodes, null) && node.prev == null && node !in nodes &&
      Distinct(nodes)
    requires nodes != [] ==> nodes[0].prev == node && Backward(nodes[1..], nodes[0])
    ensures Forward([node] + nodes, null) && Backward([node] + nodes, null) && Distinct([node] + nodes)
  {
    assert ([node] + nodes)[1..] == nodes;
  }

  lemma SplitLast<T>(nodes: seq<ListNode<T>>)
    requires Forward(nodes, null) && Distinct(nodes)
    ensures nodes != [] ==>
      Forward(nodes[..|nodes| - 1], nodes[|nodes| - 1]) && nodes[|nodes| - 1] !in nodes[..|nodes| - 1]
  {
    hide Forward;
    if nodes != [] {
      var a, l := nodes[..|nodes| - 1], nodes[|nodes| - 1];
      assert nodes == a + [l];
      ForwardConcat(a, [l], null);
    }
  }

  lemma JoinLast<T>(node: ListNode<T>, nodes: seq<ListNode<T>>)
    requires Backward(nodes, null) && node.prev == Last(nodes, null) && node.next == null && node !in nodes &&
      Distinct(nodes)
    requires nodes != [] ==> nodes[|nodes| - 1].next == node && Forward(nodes[..|nodes| - 1], nodes[|nodes| - 1])
    ensures Forward(nodes + [node], null) && Backward(nodes + [node], null) && Distinct(nodes + [node])
  {
    ChainOfOne(node, null);
    ChainOfOne(node, Last(nodes, null));
    BackwardConcat(nodes, [node], null);
    ForwardConcat(nodes, [node], null);
    if nodes != [] {
      var a, l := nodes[..|nodes| - 1], nodes[|nodes| - 1];
      assert nodes == a + [l];
      ForwardConcat(a, [l], node);
      ChainOfOne(l, node);
    }
  }

  /** What is known of the nodes before and after the one at k. */
  lemma SplitAround<T>(nodes: seq<ListNode<T>>, k: nat)
    requires Forward(nodes, null) && Backward(nodes, null) && Distinct(nodes) && k < |nodes|
    ensures var a, b := nodes[..k], nodes[k + 1..];
      && nodes[k].next == First(b, null) && nodes[k].prev == Last(a, null)
      && Forward(b, null) && Backward(a, null)
      && (a != [] ==> Forward(a[..|a| - 1], a[|a| - 1]) && a[|a| - 1] !in a[..|a| - 1] && a[|a| - 1] !in b)
      && (b != [] ==> Backward(b[1..], b[0]) && b[0] !in b[1..] && b[0] !in a)
      && (forall x :: x in a ==> x !in b) && nodes[k] !in a && nodes[k] !in b
      && Distinct(a + b)
  {
    hide Forward, Backward;
    var a, n, b := nodes[..k], nodes[k], nodes[k + 1..];
    assert nodes == a + ([n] + b);
    ForwardConcat(a, [n] + b, null);
    BackwardConcat(a, [n] + b, null);
    ForwardConcat([n], b, null);
    BackwardConcat([n], b, Last(a, null));
    ChainOfOne(n, First(b, null));
    ChainOfOne(n, Last(a, null));
    DistinctParts(nodes, k);
    if a != [] {
      var l := a[|a| - 1];
      assert a == a[..|a| - 1] + [l];
      ForwardConcat(a[..|a| - 1], [l], n);
    }
    if b != [] {
      assert b == [b[0]] + b[1..];
      BackwardConcat([b[0]], b[1..], n);
    }
  }

  lemma DistinctParts<T>(nodes: seq<ListNode<T>>, k: nat)
    requires Distinct(nodes) && k < |nodes|
    ensures var a, b := nodes[..k], nodes[k + 1..];
      && (a != [] ==> a[|a| - 1] !in a[..|a| - 1] && a[|a| - 1] !in b)
      && (b != [] ==> b[0] !in b[1..] && b[0] !in a)
      && (forall x :: x in a ==> x !in b) && nodes[k] !in a && nodes[k] !in b
      && Distinct(a + b)
  {
  }

  lemma JoinAround<T>(a: seq<ListNode<T>>, b: seq<ListNode<T>>)
    requires Forward(b, null) && Backward(a, null)
    requires a != [] ==> Forward(a[..|a| - 1], a[|a| - 1]) && a[|a| - 1].next == First(b, null)
    requires b != [] ==> Backward(b[1..], b[0]) && b[0].prev == Last(a, null)
    ensures Forward(a + b, null) && Backward(a + b, null)
  {
    hide Forward, Backward;
    ForwardConcat(a, b, null);
    BackwardConcat(a, b, null);
    if a == [] {
      EmptyChain(First(b, null));
    } else {
      var l := a[|a| - 1];
      assert a == a[..|a| - 1] + [l];
      ForwardConcat(a[..|a| - 1], [l], First(b, null));
      ChainOfOne(l, First(b, null));
    }
    if b == [] {
      EmptyChain(Last(a, null));
    } else {
      assert b == [b[0]] + b[1..];
      BackwardConcat([b[0]], b[1..], Last(a, null));
      ChainOfOne(b[0], Last(a, null));
    }
  }

  lemma EmptyChain<T>(m: ListNode?<T>)
    ensures Forward<T>([], m) && Backward<T>([], m)
  {
  }

  lemma OwnedRemove<T>(prefix: map<object, nat>, list: object, nodes: seq<ListNode<T>>, k: nat)
    requires Owned(prefix, list, nodes) && k < |nodes| && nodes[k] != list && Distinct(nodes)
    ensures Owned(prefix - {nodes[k]}, list, nodes[..k] + nodes[k + 1..])
    ensures nodes[k] in prefix && prefix[nodes[k]] == SIZEOF_NODE
  {
  }

  // ---------------------------------------------------------------------------
  // Deleting nodes while walking

  ghost function Keep<T>(nodes: seq<ListNode<T>>, doomed: set<ListNode<T>>): seq<ListNode<T>> {
    if nodes == [] then [] else (if nodes[0] in doomed then [] else [nodes[0]]) + Keep(nodes[1..], doomed)
  }

  lemma {:induction false} KeepConcat<T>(a: seq<ListNode<T>>, b: seq<ListNode<T>>, doomed: set<ListNode<T>>)
    ensures Keep(a + b, doomed) == Keep(a, doomed) + Keep(b, doomed)
  {
    if a == [] {
      assert a + b == b;
    } else {
      assert (a + b)[1..] == a[1..] + b;
      KeepConcat(a[1..], b, doomed);
    }
  }

  lemma KeepOne<T>(n: ListNode<T>, doomed: set<ListNode<T>>)
    ensures Keep([n], doomed) == if n in doomed then [] else [n]
    ensures Keep([], doomed) == []
  {
    assert [n][1..] == [];
  }

  function Reversed<T>(s: seq<T>): (r: seq<T>)
    ensures |r| == |s| && forall i :: 0 <= i < |s| ==> r[i] == s[|s| - 1 - i]
  {
    if s == [] then [] else Reversed(s[1..]) + [s[0]]
  }

  /** Of all the nodes, those done have been kept or deleted, those ahead are still there. */
  ghost predicate Swept<T>(all: seq<ListNode<T>>, done: seq<ListNode<T>>, ahead: seq<ListNode<T>>,
                           now: seq<ListNode<T>>,
                           forward: bool, doomed: set<ListNode<T>>) {
    if forward then all == done + ahead && now == Keep(done, doomed) + ahead
    else all == ahead + done && now == ahead + Keep(done, doomed)
  }

  lemma SweptForward<T>(all: seq<ListNode<T>>, done: seq<ListNode<T>>, ahead: seq<ListNode<T>>, now: seq<ListNode<T>>,
                        doomed: set<ListNode<T>>)
    requires Swept(all, done, ahead, now, true, doomed) && ahead != [] && Distinct(now)
    ensures var node := ahead[0];
      && (node !in doomed ==> Swept(all, done + [node], ahead[1..], now, true, doomed))
      && (node in doomed ==> forall k :: 0 <= k < |now| && now[k] == node ==>
        Swept(all, done + [node], ahead[1..], now[..k] + now[k + 1..], true, doomed))
  {
    var node, rest := ahead[0], ahead[1..];
    assert ahead == [node] + rest;
    KeepConcat(done, [node], doomed);
    KeepOne(node, doomed);
    assert now[|Keep(done, doomed)|] == node;
    assert done + ahead == done + [node] + rest;
    if node in doomed {
      var at := |Keep(done, doomed)|;
      assert now[..at] + now[at + 1..] == Keep(done, doomed) + rest;
      assert Keep(done + [node], doomed) == Keep(done, doomed);
    }
  }

  lemma SweptBackward<T>(all: seq<ListNode<T>>, done: seq<ListNode<T>>, ahead: seq<ListNode<T>>, now: seq<ListNode<T>>,
                         doomed: set<ListNode<T>>)
    requires Swept(all, done, ahead, now, false, doomed) && ahead != [] && Distinct(now)
    ensures var at := |ahead| - 1; var node := ahead[at];
      && (node !in doomed ==> Swept(all, [node] + done, ahead[..at], now, false, doomed))
      && (node in doomed ==> forall k :: 0 <= k < |now| && now[k] == node ==>
        Swept(all, [node] + done, ahead[..at], now[..k] + now[k + 1..], false, doomed))
  {
    var at := |ahead| - 1;
    var node, rest, kept := ahead[at], ahead[..at], Keep(done, doomed);
    KeepConcat([node], done, doomed);
    KeepOne(node, doomed);
    hide Keep;
    LastMoves(rest, node, done);
    LastMoves(rest, node, kept);
    assert ahead == rest + [node];
    assert now == rest + [node] + kept;
    assert now[at] == node;
    if node in doomed {
      assert [] + kept == kept;
      assert now[..at] == rest && now[at + 1..] == kept;
    }
  }

  lemma LastMoves<T>(rest: seq<T>, node: T, done: seq<T>)
    ensures rest + [node] + done == rest + ([node] + done)
  {
  }

  lemma SweptNone<T>(all: seq<ListNode<T>>, forward: bool, doomed: set<ListNode<T>>)
    ensures Swept(all, [], all, all, forward, doomed)
  {
    assert Keep<T>([], doomed) == [];
  }

  lemma SweptAll<T>(all: seq<ListNode<T>>, done: seq<ListNode<T>>, now: seq<ListNode<T>>, forward: bool,
                    doomed: set<ListNode<T>>)
    requires Swept(all, done, [], now, forward, doomed)
    ensures all == done && now == Keep(all, doomed)
  {
  }

  lemma {:induction false} KeepPart<T>(nodes: seq<ListNode<T>>, doomed: set<ListNode<T>>)
    ensures forall n :: n in Keep(nodes, doomed) ==> n in nodes
  {
    if nodes != [] { KeepPart(nodes[1..], doomed); }
  }

  ghost predicate Part<T>(now: seq<ListNode<T>>, all: seq<ListNode<T>>) {
    forall i :: 0 <= i < |now| ==> exists j :: 0 <= j < |all| && all[j] == now[i]
  }

  /** The nodes that are there are some of all the nodes, and the iterator goes on over them. */
  lemma SweptNow<T>(all: seq<ListNode<T>>, done: seq<ListNode<T>>, iter: ListIter<T>, before: seq<ListNode<T>>,
                    now: seq<ListNode<T>>, doomed: set<ListNode<T>>)
    requires Swept(all, done, iter.ahead, now, iter.forward, doomed) && iter.Walks(before)
    ensures iter.Walks(now) && Part(now, all)
    ensures iter.next == null <==> iter.ahead == []
  {
    KeepPart(done, doomed);
    forall i | 0 <= i < |now|
      ensures now[i] in all
    {
    }
  }

  lemma SweptNext<T>(all: seq<ListNode<T>>, done: seq<ListNode<T>>, ahead: seq<ListNode<T>>, now: seq<ListNode<T>>,
                     forward: bool, doomed: set<ListNode<T>>)
    returns (node: ListNode<T>, done': seq<ListNode<T>>, ahead': seq<ListNode<T>>)
    requires Swept(all, done, ahead, now, forward, doomed) && ahead != [] && Distinct(now)
    ensures node == ahead[if forward then 0 else |ahead| - 1] && node in now
    ensures ahead' == if forward then ahead[1..] else ahead[..|ahead| - 1]
    ensures done' == if forward then done + [node] else [node] + done
    ensures node !in doomed ==> Swept(all, done', ahead', now, forward, doomed)
    ensures node in doomed ==> forall k :: 0 <= k < |now| && now[k] == node ==>
      Swept(all, done', ahead', now[..k] + now[k + 1..], forward, doomed)
  {
    if forward {
      node, ahead', done' := ahead[0], ahead[1..], done + [ahead[0]];
      SweptForward(all, done, ahead, now, doomed);
    } else {
      node, ahead', done' := ahead[|ahead| - 1], ahead[..|ahead| - 1], [ahead[|ahead| - 1]] + done;
      SweptBackward(all, done, ahead, now, doomed);
    }
    hide Keep;
  }

  /** The nodes done, in the order in which they were visited. */
  ghost predicate Visited<T>(visited: seq<ListNode<T>>, done: seq<ListNode<T>>, forward: bool) {
    visited == if forward then done else Reversed(done)
  }

  lemma VisitedNext<T>(visited: seq<ListNode<T>>, done: seq<ListNode<T>>, forward: bool, node: ListNode<T>)
    requires Visited(visited, done, forward)
    ensures Visited(visited + [node], if forward then done + [node] else [node] + done, forward)
  {
    assert ([node] + done)[1..] == done;
  }

  /** One step: the next node is returned and perhaps deleted. */
  method SweepOne<T>(list: List<T>, iter: ListIter<T>, doomed: set<ListNode<T>>, ghost all: seq<ListNode<T>>,
                     ghost done: seq<ListNode<T>>)
    returns (node: ListNode<T>, ghost done': seq<ListNode<T>>)
    requires list.Valid() && iter.Walks(list.nodes) && iter.next != null
    requires Swept(all, done, iter.ahead, list.nodes, iter.forward, doomed)
    requires Part(list.nodes, all)
    modifies list`head, list`tail, list`len, list`nodes, all`next, all`prev, list.z, list.free, iter`next, iter`ahead
    ensures list.Valid() && iter.Walks(list.nodes)
    ensures Swept(all, done', iter.ahead, list.nodes, iter.forward, doomed) && |iter.ahead| < |old(iter.ahead)|
    ensures done' == if iter.forward then done + [node] else [node] + done
  {
    hide Forward, Backward, Distinct, Owned, Swept, Keep, ListIter.Walks, List.Valid;
    ghost var now := list.nodes;
    ValidChain(list);
    node, done' := NextToSweep(iter, doomed, all, done, now);
    if node in doomed {
      ghost var k := list.DelNode(node);
    }
    SweptNow(all, done', iter, now, list.nodes, doomed);
  }

  lemma ValidChain<T>(list: List<T>)
    requires list.Valid()
    ensures Forward(list.nodes, null) && Backward(list.nodes, null) && Distinct(list.nodes)
  {
  }

  method NextToSweep<T>(iter: ListIter<T>, doomed: set<ListNode<T>>, ghost all: seq<ListNode<T>>,
                        ghost done: seq<ListNode<T>>, ghost now: seq<ListNode<T>>)
    returns (node: ListNode<T>, ghost done': seq<ListNode<T>>)
    requires iter.Walks(now) && iter.next != null && Forward(now, null) && Backward(now, null) && Distinct(now)
    requires Swept(all, done, iter.ahead, now, iter.forward, doomed)
    modifies iter`next, iter`ahead
    ensures iter.Walks(now) && node in now && |iter.ahead| < |old(iter.ahead)|
    ensures done' == if iter.forward then done + [node] else [node] + done
    ensures node !in doomed ==> Swept(all, done', iter.ahead, now, iter.forward, doomed)
    ensures node in doomed ==> forall k :: 0 <= k < |now| && now[k] == node ==>
      Swept(all, done', iter.ahead, now[..k] + now[k + 1..], iter.forward, doomed)
  {
    hide Forward, Backward, Distinct, Swept, Keep, ListIter.Walks;
    WalkingAt(iter, now);
    ghost var n, d, a := SweptNext(all, done, iter.ahead, now, iter.forward, doomed);
    AheadIs(iter, now);
    node := iter.Next(now);
    AheadIs(iter, now);
    AheadShrinks(now, |iter.ahead|);
    done' := d;
  }

  lemma AheadShrinks<T>(nodes: seq<ListNode<T>>, n: nat)
    requires n < |nodes|
    ensures nodes[|nodes| - n - 1..][1..] == nodes[|nodes| - n..]
    ensures nodes[..n + 1][..n] == nodes[..n]
  {
  }

  lemma AheadIs<T>(iter: ListIter<T>, nodes: seq<ListNode<T>>)
    requires iter.Walks(nodes)
    ensures |iter.ahead| <= |nodes|
    ensures iter.ahead == if iter.forward then nodes[|nodes| - |iter.ahead|..] else nodes[..|iter.ahead|]
    ensures iter.next == if iter.forward then First(iter.ahead, null) else Last(iter.ahead, null)
  {
  }

  /** A walk in either direction visits every node in its order even if each node that was just returned may
      be deleted; what stays is what was not deleted. */
  method Sweep<T>(list: List<T>, forward: bool, doomed: set<ListNode<T>>) returns (visited: seq<ListNode<T>>)
    requires list.Valid()
    modifies list`head, list`tail, list`len, list`nodes, list.nodes`next, list.nodes`prev, list.z, list.free
    ensures list.Valid()
    ensures visited == if forward then old(list.nodes) else Reversed(old(list.nodes))
    ensures list.nodes == Keep(old(list.nodes), doomed)
  {
    hide Forward, Backward, Distinct, Owned, Swept, Keep, ListIter.Walks, List.Chained, Visited;
    ghost var all := list.nodes;
    var iter := list.GetIterator(forward);
    ghost var done := [];
    visited := [];
    SweptNone(all, forward, doomed);
    NoneVisited<T>(forward);
    SweptNow(all, done, iter, list.nodes, list.nodes, doomed);
    while iter.next != null
      invariant list.Valid() && iter.Walks(list.nodes) && iter.forward == forward
      invariant Swept(all, done, iter.ahead, list.nodes, forward, doomed)
      invariant Visited(visited, done, forward)
      invariant Part(list.nodes, all) && fresh(iter)
      invariant list.free == old(list.free)
      decreases |iter.ahead|
    {
      var node;
      ghost var prior := done;
      node, done := SweepOne(list, iter, doomed, all, done);
      VisitedNext(visited, prior, forward, node);
      visited := visited + [node];
      SweptNow(all, done, iter, list.nodes, list.nodes, doomed);
    }
    SweptNow(all, done, iter, list.nodes, list.nodes, doomed);
    SweptAll(all, done, list.nodes, forward, doomed);
    AllVisited(visited, done, forward);
  }

  lemma NoneVisited<T>(forward: bool)
    ensures Visited<T>([], [], forward)
  {
  }

  lemma AllVisited<T>(visited: seq<ListNode<T>>, done: seq<ListNode<T>>, forward: bool)
    requires Visited(visited, done, forward)
    ensures visited == if forward then done else Reversed(done)
  {
  }

  // ---------------------------------------------------------------------------
  // The whole life of a list

  datatype Edit<T> = PushFront(value: T) | PushBack(value: T) | Remove(index: int)

  function Edited<T>(values: seq<T>, e: Edit<T>): seq<T> {
    match e
    case PushFront(x) => [x] + values
    case PushBack(x) => values + [x]
    case Remove(i) => Without(values, i)
  }

  function Dropped<T>(values: seq<T>, e: Edit<T>): seq<T> {
    if e.Remove? && 0 <= e.index < |values| then [values[e.index]] else []
  }

  /** The values in the list after the edits. */
  function Final<T>(edits: seq<Edit<T>>): seq<T> {
    if edits == [] then []
    else
      var n := |edits| - 1;
      Edited(Final(edits[..n]), edits[n])
  }

  /** The values removed by the edits, in order. */
  function Removed<T>(edits: seq<Edit<T>>): seq<T> {
    if edits == [] then []
    else
      var n := |edits| - 1;
      Removed(edits[..n]) + Dropped(Final(edits[..n]), edits[n])
  }

  function Pushed<T>(edits: seq<Edit<T>>): seq<T> {
    if edits == [] then []
    else
      var n := |edits| - 1;
      Pushed(edits[..n]) + if edits[n].Remove? then [] else [edits[n].value]
  }

  lemma NothingEdited<T>()
    ensures Final<T>([]) == [] && Removed<T>([]) == []
  {
  }

  lemma EditStep<T>(edits: seq<Edit<T>>, k: nat)
    requires k < |edits|
    ensures Final(edits[..k + 1]) == Edited(Final(edits[..k]), edits[k])
    ensures Removed(edits[..k + 1]) == Removed(edits[..k]) + Dropped(Final(edits[..k]), edits[k])
  {
    hide Edited, Dropped;
    assert edits[..k + 1][..k] == edits[..k];
  }

  lemma PushKeepsAll<T>(removed: seq<T>, values: seq<T>, x: T, pushed: seq<T>)
    requires multiset(removed + values) == multiset(pushed)
    ensures multiset(removed + [] + ([x] + values)) == multiset(pushed + [x])
    ensures multiset(removed + [] + (values + [x])) == multiset(pushed + [x])
  {
    assert removed + [] + ([x] + values) == removed + [x] + values;
    assert removed + [] + (values + [x]) == removed + values + [x];
  }

  lemma RemoveKeepsAll<T>(removed: seq<T>, values: seq<T>, i: nat, pushed: seq<T>)
    requires multiset(removed + values) == multiset(pushed) && i < |values|
    ensures multiset(removed + [values[i]] + (values[..i] + values[i + 1..])) == multiset(pushed)
  {
    var a, b := values[..i], values[i + 1..];
    assert values == a + [values[i]] + b;
    assert removed + [values[i]] + (a + b) == removed + [values[i]] + a + b;
  }

  lemma EditKeepsAll<T>(removed: seq<T>, values: seq<T>, e: Edit<T>, pushed: seq<T>)
    requires multiset(removed + values) == multiset(pushed)
    ensures multiset(removed + Dropped(values, e) + Edited(values, e)) ==
      multiset(pushed + if e.Remove? then [] else [e.value])
  {
    match e
    case PushFront(x) => PushKeepsAll(removed, values, x, pushed);
    case PushBack(x) => PushKeepsAll(removed, values, x, pushed);
    case Remove(i) =>
      assert pushed + [] == pushed && removed + [] + values == removed + values;
      if 0 <= i < |values| { RemoveKeepsAll(removed, values, i, pushed); }
  }

  /** Every value that was pushed is either still there or was removed once. */
  lemma {:induction false} EveryValueOnce<T>(edits: seq<Edit<T>>)
    ensures multiset(Removed(edits) + Final(edits)) == multiset(Pushed(edits))
  {
    hide Edited, Dropped;
    if edits == [] {
      assert Removed(edits) + Final(edits) == Pushed(edits);
    } else {
      var n := |edits| - 1;
      EveryValueOnce(edits[..n]);
      EditKeepsAll(Removed(edits[..n]), Final(edits[..n]), edits[n], Pushed(edits[..n]));
    }
  }

  /** listIndex and listDelNode */
  method RemoveAt<T>(list: List<T>, index: int)
    requires list.Valid()
    modifies list`head, list`tail, list`len, list`nodes, list.nodes`next, list.nodes`prev, list.z, list.free
    ensures list.Valid()
    ensures list.nodes == Without(old(list.nodes), index)
    ensures list.free != null ==>
      list.free.freed == old(list.free.freed) + Dropped(Values(old(list.nodes)), Remove(index))
    ensures list.z.prefix - Blocks(list, list.nodes) == old(list.z.prefix - Blocks(list, list.nodes))
  {
    hide Owned, Blocks, Distinct, Forward, Backward, List.Valid, List.Chained, NodeSet;
    ghost var all := list.nodes;
    ValidChain(list);
    var node := list.Index(index);
    if node != null {
      assert all[index] in all;
      ghost var k := list.DelNode(node);
      OnlyPlace(all, k, index);
    }
  }

  function Without<T>(s: seq<T>, i: int): seq<T> {
    if 0 <= i < |s| then s[..i] + s[i + 1..] else s
  }

  lemma OnlyPlace<T>(nodes: seq<ListNode<T>>, k: nat, i: nat)
    requires Distinct(nodes) && k < |nodes| && i < |nodes| && nodes[k] == nodes[i]
    ensures k == i
  {
  }

  method Apply<T>(list: List<T>, e: Edit<T>)
    requires list.Valid()
    modifies list`head, list`tail, list`len, list`nodes, list.nodes`next, list.nodes`prev, list.z, list.free
    ensures list.Valid()
    ensures match e
      case PushFront(x) => list.nodes != [] && fresh(list.nodes[0]) && list.nodes[1..] == old(list.nodes)
      case PushBack(x) =>
        list.nodes != [] && fresh(list.nodes[|list.nodes| - 1]) && list.nodes[..|list.nodes| - 1] == old(list.nodes)
      case Remove(i) => list.nodes == Without(old(list.nodes), i)
    ensures Values(list.nodes) == Edited(Values(old(list.nodes)), e)
    ensures list.free != null ==> list.free.freed == old(list.free.freed) + Dropped(Values(old(list.nodes)), e)
    ensures list.z.prefix - Blocks(list, list.nodes) == old(list.z.prefix - Blocks(list, list.nodes))
  {
    hide List.Chained, Owned, Blocks;
    match e
    case PushFront(x) => list.AddNodeHead(x);
    case PushBack(x) => list.AddNodeTail(x);
    case Remove(i) => RemoveAt(list, i);
  }

  /** Any edits of a new list, and its release: all memory is given back, and the callback has been called once with
      every value, in the order in which they were removed and then in the order of the list. */
  method Live<T(==)>(z: Allocator, free: FreeCallback<T>, edits: seq<Edit<T>>)
    requires z.Valid()
    modifies z, free
    ensures z.Valid() && z.prefix == old(z.prefix) && z.usedMemory == old(z.usedMemory)
    ensures free.freed == old(free.freed) + Removed(edits) + Final(edits)
  {
    hide List.Chained, Owned, Blocks, Final, Removed, Edited, Dropped;
    var list := new List<T>(z);
    list.SetFreeMethod(free);
    var i := 0;
    NothingEdited<T>();
    assert edits[..0] == [] && Values(list.nodes) == [];
    while i < |edits|
      invariant i <= |edits| && fresh(list) && list.Valid() && list.z == z && list.free == free
      invariant forall j :: 0 <= j < |list.nodes| ==> fresh(list.nodes[j])
      invariant z.prefix - Blocks(list, list.nodes) == old(z.prefix)
      invariant Values(list.nodes) == Final(edits[..i])
      invariant free.freed == old(free.freed) + Removed(edits[..i])
    {
      Apply(list, edits[i]);
      EditStep(edits, i);
      i := i + 1;
    }
    assert edits[..i] == edits;
    list.Release();
  }
}

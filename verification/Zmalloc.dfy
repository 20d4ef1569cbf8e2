/** The accounting allocator of redis/src/zmalloc.cc. */
module Zmalloc {

  /** The bytes in front of each block, where its size is kept. */
  const PREFIX_SIZE: nat := 8

  /** The memory that the live blocks take up. */
  ghost function Total(prefix: map<object, nat>): nat {
    if prefix == map[] then 0
    else
      var b :| b in prefix;
      prefix[b] + PREFIX_SIZE + Total(prefix - {b})
  }

  /** It does not matter in which order the blocks are counted. */
  lemma {:induction false} TotalWithout(prefix: map<object, nat>, b: object)
    requires b in prefix
    ensures Total(prefix) == prefix[b] + PREFIX_SIZE + Total(prefix - {b})
    decreases |prefix|
  {
    var c := Counted(prefix);
    if c != b {
      var rest := prefix - {c};
      Smaller(prefix, c);
      Smaller(prefix, b);
      TotalWithout(rest, b);
      TotalWithout(prefix - {b}, c);
      assert rest - {b} == prefix - {b} - {c};
    }
  }

  /** The block that Total counts first. */
  lemma Counted(prefix: map<object, nat>) returns (c: object)
    requires prefix != map[]
    ensures c in prefix && Total(prefix) == prefix[c] + PREFIX_SIZE + Total(prefix - {c})
  {
    c :| c in prefix && Total(prefix) == prefix[c] + PREFIX_SIZE + Total(prefix - {c});
  }

  lemma Smaller(prefix: map<object, nat>, b: object)
    requires b in prefix
    ensures |prefix - {b}| < |prefix|
  {
    assert (prefix - {b}).Keys == prefix.Keys - {b};
  }

  lemma TotalWith(prefix: map<object, nat>, b: object, size: nat)
    requires b !in prefix
    ensures Total(prefix[b := size]) == Total(prefix) + size + PREFIX_SIZE
  {
    TotalWithout(prefix[b := size], b);
    assert prefix[b := size] - {b} == prefix;
  }

  /** Blocks are objects; new objects are what malloc returns. The sizes in front of the live blocks are
      the map prefix. */
  class Allocator {
    var prefix: map<object, nat>
    var usedMemory: nat

    /** Nothing is lost and nothing is counted twice. */
    ghost predicate Valid()
      reads this
    {
      usedMemory == Total(prefix)
    }

    constructor ()
      ensures Valid() && prefix == map[] && usedMemory == 0
    {
      prefix, usedMemory := map[], 0;
    }

    method Malloc(block: object, size: nat)
      requires Valid() && block !in prefix
      modifies this
      ensures Valid() && prefix == old(prefix)[block := size]
      ensures usedMemory == old(usedMemory) + size + PREFIX_SIZE
    {
      TotalWith(prefix, block, size);
      prefix := prefix[block := size];
      usedMemory := usedMemory + (size + PREFIX_SIZE);
    }

    /** The block moves to moved, which may be the place where it was. */
    method Remalloc(block: object?, moved: object, size: nat)
      requires Valid() && (block != null ==> block in prefix) && (moved in prefix ==> moved == block)
      modifies this
      ensures Valid()
      ensures prefix == (if block == null then old(prefix) else old(prefix) - {block})[moved := size]
      ensures block == null ==> usedMemory == old(usedMemory) + size + PREFIX_SIZE
      ensures block != null ==> usedMemory == old(usedMemory) + size - old(prefix[block])
    {
      if block == null {
        Malloc(moved, size);
      } else {
        var oldSize := prefix[block];
        TotalWithout(prefix, block);
        TotalWith(prefix - {block}, moved, size);
        prefix := (prefix - {block})[moved := size];
        usedMemory := usedMemory - oldSize;
        usedMemory := usedMemory + size;
      }
    }

    method Free(block: object?)
      requires Valid() && (block != null ==> block in prefix)
      modifies this
      ensures Valid()
      ensures prefix == if block == null then old(prefix) else old(prefix) - {block}
      ensures usedMemory == old(usedMemory) - if block == null then 0 else old(prefix[block]) + PREFIX_SIZE
    {
      if block != null {
        TotalWithout(prefix, block);
        var oldSize := prefix[block];
        usedMemory := usedMemory - (oldSize + PREFIX_SIZE);
        prefix := prefix - {block};
      }
    }
  }
}

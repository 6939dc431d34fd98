/**
 The ring of read buffers: buffers that are claimed are never handed out again.
 */
module MemRing {
  import opened Bits
  import opened Options

  // The first index that nobody has claimed, or the number of buffers.
  function FirstFree(counts: seq<int>): (i: nat)
    ensures i <= |counts|
    ensures i < |counts| ==> counts[i] == 0
    ensures forall k :: 0 <= k < i ==> counts[k] != 0
  {
    if counts == [] || counts[0] == 0 then 0
    else
      var j := FirstFree(counts[1..]);
      assert forall k :: 1 <= k < j + 1 ==> counts[k] == counts[1..][k - 1];
      j + 1
  }

  lemma FirstFreeIs(counts: seq<int>, i: nat)
    requires i <= |counts| && (i < |counts| ==> counts[i] == 0) && forall k :: 0 <= k < i ==> counts[k] != 0
    ensures FirstFree(counts) == i
  {}

  // The claims once a buffer has been looked for: there may be a new one.
  function Grown(counts: seq<int>, max: nat): seq<int> {
    if FirstFree(counts) == |counts| < max then counts + [0] else counts
  }

  class CMemRing {
    const size: nat
    const maxElems: nat
    // The number of claims of every buffer, and its memory.
    var counts: seq<int>
    var memory: seq<array<Byte>>

    ghost predicate Valid()
      reads this
    {
      && |counts| == |memory|
      && (forall i :: 0 <= i < |memory| ==> memory[i].Length == size)
      && forall i, j :: 0 <= i < j < |memory| ==> memory[i] != memory[j]
    }

    constructor (size: nat, minElems: nat, maxElems: nat)
      ensures Valid() && this.size == size && this.maxElems == maxElems
      ensures |counts| == minElems && forall i :: 0 <= i < minElems ==> counts[i] == 0
      ensures fresh(set i | 0 <= i < |memory| :: memory[i])
    {
      this.size, this.maxElems := size, maxElems;
      counts, memory := [], [];
      new;
      var i := 0;
      while i < minElems
        invariant 0 <= i <= minElems && |counts| == i && Valid()
        invariant forall k :: 0 <= k < i ==> counts[k] == 0 && fresh(memory[k])
      {
        var item := new Byte[size](_ => ZERO);
        counts, memory := counts + [0], memory + [item];
        i := i + 1;
      }
    }

    /** A buffer that nobody has claimed, a new one if there is none and there
        may be another. It is not claimed for the caller. */
    method GetFree() returns (found: Option<nat>)
      requires Valid()
      modifies this`counts, this`memory
      ensures Valid() && counts == Grown(old(counts), maxElems)
      ensures old(memory) <= memory && forall i :: |old(memory)| <= i < |memory| ==> fresh(memory[i])
      ensures found == if FirstFree(counts) < |counts| then Some(FirstFree(counts)) else None
    {
      var i := 0;
      while i < |counts| && counts[i] != 0
        invariant 0 <= i <= |counts|
        invariant forall k :: 0 <= k < i ==> counts[k] != 0
      {
        i := i + 1;
      }
      FirstFreeIs(counts, i);
      if i < |counts| {
        return Some(i);
      }
      found := None;
      if |counts| < maxElems {
        FirstFreeIs(counts + [0], i);
        var item := new Byte[size](_ => ZERO);
        found := Some(|counts|);
        counts, memory := counts + [0], memory + [item];
      }
    }

    method GetIndexMemory(idx: nat) returns (found: Option<array<Byte>>)
      requires Valid()
      modifies this`counts
      ensures Valid()
      ensures found == if idx < |memory| then Some(memory[idx]) else None
      ensures counts == if idx < |counts| then old(counts)[idx := old(counts)[idx] + 1] else old(counts)
    {
      found := None;
      if idx < |memory| {
        found := Some(memory[idx]);
        counts := counts[idx := counts[idx] + 1];
      }
    }

    method GetIndexMemoryUnsafe(idx: nat) returns (found: Option<array<Byte>>)
      requires Valid()
      ensures found == if idx < |memory| then Some(memory[idx]) else None
    {
      found := if idx < |memory| then Some(memory[idx]) else None;
    }

    method ReleaseIndex(idx: nat)
      requires Valid()
      modifies this`counts
      ensures Valid()
      ensures counts == if idx < |counts| then old(counts)[idx := old(counts)[idx] - 1] else old(counts)
    {
      if idx < |counts| {
        counts := counts[idx := counts[idx] - 1];
      }
    }
  }
}

/**
 The shared DSA segment, reduced to a map from live pointers to chunks.
 Pointer 0 is InvalidDsaPointer. Allocation may fail at any call (the callers
 pass DSA_ALLOC_NO_OOM), and freeing demands a live pointer, so every verified
 caller is free of double frees and of frees of foreign memory.
 */
module Dsa {
  import opened Base

  type Ptr = nat

  const INVALID: Ptr := 0

  datatype Chunk =
    | Data(bytes: Bytes)
    | TableBlock
    | ListNode(prev: Ptr, next: Ptr, ord: int, valueLen: nat, valueDsa: Ptr)

  class Arena {
    var chunks: map<Ptr, Chunk>
    var bound: Ptr
    var failures: nat

    ghost predicate Valid()
      reads this
    {
      && INVALID !in chunks
      && 0 < bound
      && forall p :: p in chunks ==> p < bound
    }

    constructor ()
      ensures Valid() && chunks == map[] && failures == 0
    {
      chunks := map[];
      bound := 1;
      failures := 0;
    }

    /**
     The contract only promises a pointer that is not live: reuse of freed
     pointers is allowed. `failures` counts the refusals, so that a caller's
     out-of-memory exit can be traced to one.
     */
    method Alloc(c: Chunk) returns (p: Ptr)
      requires Valid()
      modifies this
      ensures Valid()
      ensures p == INVALID ==> chunks == old(chunks) && failures == old(failures) + 1
      ensures p != INVALID ==> p !in old(chunks) && chunks == old(chunks)[p := c] && failures == old(failures)
    {
      if * {
        p := INVALID;
        failures := failures + 1;
      } else {
        p := bound;
        chunks := chunks[p := c];
        bound := bound + 1;
      }
    }

    method Free(p: Ptr)
      requires Valid()
      requires p == INVALID || p in chunks
      modifies this
      ensures Valid()
      ensures chunks == old(chunks) - {p} && failures == old(failures)
    {
      if p != INVALID {
        chunks := chunks - {p};
      }
    }

    /** A store through a resolved address. */
    method Write(p: Ptr, c: Chunk)
      requires Valid()
      requires p in chunks
      modifies this
      ensures Valid()
      ensures chunks == old(chunks)[p := c] && failures == old(failures)
    {
      chunks := chunks[p := c];
    }
  }
}

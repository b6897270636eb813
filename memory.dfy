/** The C heap as far as the statistics readers use it: malloc hands out
    fresh blocks or fails, free releases a live block, and freeing a block
    that is no longer live (a double free) is recorded instead of being
    undefined behaviour. */
module Memory {
  import opened Base

  class Heap {
    /** The blocks currently allocated. */
    var live: set<nat>
    /** The identity the next successful malloc hands out. */
    var next: nat
    /** Set once free() has been called on a block that was not live. */
    var invalidFree: bool

    ghost predicate Valid()
      reads this
    {
      forall id :: id in live ==> id < next
    }

    constructor ()
      ensures Valid()
      ensures live == {} && next == 0 && !invalidFree
    {
      live := {};
      next := 0;
      invalidFree := false;
    }

    /** malloc: ok says whether the allocation succeeds. */
    method Malloc(ok: bool) returns (p: Ptr)
      requires Valid()
      modifies this
      ensures Valid()
      ensures ok ==> p == Block(old(next)) && old(next) !in old(live)
      ensures ok ==> live == old(live) + {old(next)} && next == old(next) + 1
      ensures !ok ==> p == Null && live == old(live) && next == old(next)
      ensures invalidFree == old(invalidFree)
    {
      if ok {
        p := Block(next);
        live := live + {next};
        next := next + 1;
      } else {
        p := Null;
      }
    }

    /** free: NULL is ignored, a live block is released, anything else is a
      double free. */
    method Free(p: Ptr)
      requires Valid()
      modifies this
      ensures Valid()
      ensures next == old(next)
      ensures p.Null? ==> live == old(live) && invalidFree == old(invalidFree)
      ensures p.Block? ==> live == old(live) - {p.id}
      ensures p.Block? ==> invalidFree == (old(invalidFree) || p.id !in old(live))
    {
      if p.Block? {
        if p.id !in live {
          invalidFree := true;
        }
        live := live - {p.id};
      }
    }
  }

  /** A pointer that was handed out and has since been freed. */
  predicate Dangling(p: Ptr, live: set<nat>) {
    p.Block? && p.id !in live
  }
}

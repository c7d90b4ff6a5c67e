/**
 * The C heap as the program sees it: the set of blocks currently handed
 * out by malloc. Whether a given malloc succeeds is an input to the
 * operation that calls it; `Free` demands a live block, so a verified
 * caller never frees a block twice or frees one it does not own.
 */
module Alloc {
  class Heap {
    var live: set<object>

    constructor ()
      ensures live == {}
    {
      live := {};
    }

    /** Records a block that malloc has just returned. */
    method Acquire(o: object)
      requires o !in live
      modifies this
      ensures live == old(live) + {o}
    {
      live := live + {o};
    }

    /** free(o). */
    method Free(o: object)
      requires o in live
      modifies this
      ensures live == old(live) - {o}
    {
      live := live - {o};
    }
  }
}

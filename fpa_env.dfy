/**
 * The services the FPA VF driver calls but does not implement, as oracles:
 * the EAL heap (rte_malloc, rte_free, rte_malloc_virt2phy), the mailbox to
 * the PF driver (octeontx_ssovf_mbox_send) and the VF registers
 * (fpavf_write64). Each may return any value its interface allows; what the
 * driver does with that value is what the model verifies.
 */
module FpaEnv {
  import opened FpaTypes

  /** The EAL heap, reduced to the set of blocks currently handed out. */
  class Allocator {
    var live: set<U64>

    predicate Valid()
      reads this
    {
      NULL as int !in live
    }

    constructor ()
      ensures Valid() && live == {}
    {
      live := {};
    }

    /**
     * rte_malloc: NULL for a zero size; otherwise either NULL (out of
     * memory) or a block that is not already handed out.
     */
    method Malloc(size: U32) returns (p: U64)
      requires Valid()
      modifies this
      ensures Valid()
      ensures size == 0 ==> p == 0
      ensures p == 0 ==> live == old(live)
      ensures p != 0 ==> p !in old(live) && live == old(live) + {p}
    {
      if size == 0 {
        p := 0;
      } else {
        p :| p == 0 || (p != 0 && p !in live);
        if p != 0 {
          live := live + {p};
        }
      }
    }

    /** rte_free: releases a block handed out earlier; NULL is ignored. */
    method Free(p: U64)
      requires Valid()
      requires p == 0 || p in live
      modifies this
      ensures Valid()
      ensures live == old(live) - {p}
    {
      live := live - {p};
    }

    /** rte_malloc_virt2phy: some bus address of the block. */
    method Virt2Phy(p: U64) returns (phys: U64)
    {
      phys :| true;
    }
  }

  /**
   * The mailbox to the PF driver. Every request is recorded together with
   * the status the transport returned, which may be any value.
   */
  class Mailbox {
    ghost var log: seq<Exchange>

    constructor ()
      ensures log == []
    {
      log := [];
    }

    method Send(hdr: MboxHdr, payload: Payload) returns (ret: int)
      modifies this
      ensures log == old(log) + [Exchange(hdr, payload, ret)]
    {
      ret :| true;
      log := log + [Exchange(hdr, payload, ret)];
    }
  }

  /** The VF registers, as the last value written to each (window, register, gpool). */
  class Mmio {
    var regs: map<RegKey, U64>

    constructor ()
      ensures regs == map[]
    {
      regs := map[];
    }

    method Write64(bar: Ptr, reg: Reg, gpool: int, val: U64)
      modifies this
      ensures regs == old(regs)[(bar, reg, gpool) := val]
    {
      regs := regs[(bar, reg, gpool) := val];
    }
  }
}

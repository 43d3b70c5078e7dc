/**
 * The FPA VF device state (`struct octeontx_fpadev fpadev`) and the driver
 * operations that update it in place: setup, identification and probe,
 * slot allocation and release, handle validation, the mailbox stages and
 * the staged pool creation with its unwinding.
 */
module FpaVf {
  import opened FpaTypes
  import opened FpaArith
  import opened FpaTable
  import opened FpaEnv
  import opened FpaState

  class FpaDev {
    /** `fpadev.pool[]`. */
    const pool: array<FpavfRes>
    /** `fpadev.total_gpool_cnt`. */
    var totalGpoolCnt: U8
    /** `fpadev.lock`, held or not. */
    var locked: bool
    /** The `init_once` flag of octeontx_fpavf_setup. */
    var initOnce: bool
    /** The C library's `errno`, as far as the driver writes it. */
    var errno: int

    const heap: Allocator
    const mbox: Mailbox
    const mmio: Mmio

    /**
     * The table has FPA_VF_MAX slots, every window has its gpool bits
     * clear, and a slot without a window has no block size.
     */
    ghost predicate Valid()
      reads pool, heap
    {
      pool.Length == FPA_VF_MAX && heap.Valid() && TableOk(pool[..])
    }

    /** The driver state the pool operations change, as a value. */
    ghost function Snap(): Dev
      reads this, pool, heap, mmio, mbox
    {
      Dev(pool[..], heap.live, mmio.regs, mbox.log, errno)
    }

    /** The static, zero-initialised `fpadev`. */
    constructor (heap: Allocator, mbox: Mailbox, mmio: Mmio)
      requires heap.Valid()
      ensures Valid() && fresh(pool)
      ensures pool[..] == seq(FPA_VF_MAX, _ => ZERO_RES)
      ensures totalGpoolCnt == 0 && !locked && !initOnce && errno == 0
      ensures this.heap == heap && this.mbox == mbox && this.mmio == mmio
    {
      pool := new FpavfRes[FPA_VF_MAX](_ => ZERO_RES);
      totalGpoolCnt := 0;
      locked := false;
      initOnce := false;
      errno := 0;
      this.heap := heap;
      this.mbox := mbox;
      this.mmio := mmio;
    }

    // -------------------------------------------------------------------------
    // Setup, identification, probe
    // -------------------------------------------------------------------------

    /** octeontx_fpavf_setup: resets the table and the counter the first time only. */
    method Setup()
      requires Valid()
      modifies this, pool
      ensures Valid() && initOnce
      ensures pool[..] == if old(initOnce) then old(pool[..]) else SetupTable(old(pool[..]))
      ensures totalGpoolCnt == if old(initOnce) then old(totalGpoolCnt) else 0
      ensures locked == if old(initOnce) then old(locked) else false
      ensures errno == old(errno)
    {
      if !initOnce {
        locked := false;
        totalGpoolCnt := 0;
        for i := 0 to FPA_VF_MAX
          modifies pool
          invariant forall j :: 0 <= j < i ==> pool[j] == ResetSlot(old(pool[j]))
          invariant forall j :: i <= j < FPA_VF_MAX ==> pool[j] == old(pool[j])
        {
          pool[i] := pool[i].(domainId := DOMAIN_NONE, stackLnPtr := 0, sz128 := 0,
                              bar0 := NULL, poolStackBase := 0, isInuse := false);
        }
        initOnce := true;
        assert pool[..] == SetupTable(old(pool[..]));
      }
    }

    /**
     * octeontx_fpavf_identify, given the register window and the two words
     * read from it: the identification word and the stack unit.
     */
    method Identify(bar0: Ptr, val: bv64, stackLnPtr: U64) returns (r: int)
      requires Valid()
      requires bar0 != NULL && bar0 & FPA_GPOOL_MASK == 0
      modifies pool
      ensures Valid()
      ensures r == IdentifyResult(old(pool[..]), val)
      ensures pool[..] == IdentifyTable(old(pool[..]), bar0, val, stackLnPtr)
    {
      var domainId := IdentifyDomain(val);
      var vfId := IdentifyVfId(val);
      if vfId >= 32 {
        return -1;
      }
      var vf := vfId as int;
      if pool[vf].isInuse {
        return -1;
      }
      pool[vf] := pool[vf].(domainId := domainId, vfId := vfId, bar0 := bar0, stackLnPtr := stackLnPtr);
      r := vf;
    }

    /**
     * The state-changing part of fpavf_probe for the primary process:
     * reject an unmapped BAR, set up once, identify, count the VF.
     */
    method Probe(addr: Ptr, val: bv64, stackLnPtr: U64) returns (r: int)
      requires Valid()
      requires addr & FPA_GPOOL_MASK == 0
      modifies this, pool
      ensures Valid() && errno == old(errno)
      ensures addr == NULL ==>
        r == -ENODEV && pool[..] == old(pool[..])
        && initOnce == old(initOnce) && totalGpoolCnt == old(totalGpoolCnt) && locked == old(locked)
      ensures addr != NULL ==>
        initOnce &&
        var s := if old(initOnce) then old(pool[..]) else SetupTable(old(pool[..]));
        var c := if old(initOnce) then old(totalGpoolCnt) else 0;
        pool[..] == IdentifyTable(s, addr, val, stackLnPtr)
        && r == (if IdentifyResult(s, val) < 0 then -1 else 0)
        && totalGpoolCnt == (if IdentifyResult(s, val) < 0 then c else (c + 1) % 0x100)
        && locked == (old(initOnce) && old(locked))
    {
      if addr == NULL {
        return -ENODEV;
      }
      Setup();
      var res := Identify(addr, val, stackLnPtr);
      if res < 0 {
        return -1;
      }
      totalGpoolCnt := (totalGpoolCnt + 1) % 0x100;
      r := 0;
    }

    // -------------------------------------------------------------------------
    // Slots and handles
    // -------------------------------------------------------------------------

    /** Stores one slot of the table. */
    method SetSlot(gpool: int, r: FpavfRes)
      requires Valid() && 0 <= gpool < FPA_VF_MAX
      requires SlotOk(r)
      modifies pool
      ensures Valid()
      ensures pool[..] == old(pool[..])[gpool := r]
    {
      pool[gpool] := r;
    }

    /** octeontx_fpa_gpool_alloc: first fit, with the lock held by the caller. */
    method GpoolAlloc(objectSize: U32) returns (r: int)
      requires Valid() && locked
      modifies pool
      ensures Valid()
      ensures r == AllocResult(old(pool[..]))
      ensures pool[..] == AllocTable(old(pool[..]), objectSize)
    {
      var sz128 := ObjSizeToCacheLines(objectSize);
      var gpool := 0;
      while gpool < FPA_VF_MAX
        invariant 0 <= gpool <= FPA_VF_MAX
        invariant pool[..] == old(pool[..])
        invariant FirstClaimable(pool[..], gpool) == FirstClaimable(pool[..], 0)
      {
        if pool[gpool].bar0 == NULL || pool[gpool].isInuse {
          gpool := gpool + 1;
          continue;
        }
        if pool[gpool].sz128 == 0 {
          pool[gpool] := pool[gpool].(sz128 := sz128 % 0x1_0000);
          return gpool;
        }
        gpool := gpool + 1;
      }
      r := -ENOSPC;
    }

    /** octeontx_fpa_gpool2handle. */
    function Gpool2Handle(gpool: int): (handle: Ptr)
      requires Valid() && 0 <= gpool < FPA_VF_MAX
      reads pool, heap
      ensures GpoolOf(handle) == gpool
      ensures BarOf(handle) == pool[gpool].bar0
      ensures pool[gpool].bar0 != NULL ==> handle != 0
    {
      HandleGpoolRoundTrip(pool[gpool].bar0, gpool);
      HandleBarRoundTrip(pool[gpool].bar0, gpool);
      HandleNonNull(pool[gpool].bar0, gpool);
      MakeHandle(pool[gpool].bar0, gpool)
    }

    /** octeontx_fpa_handle_valid: a scan of the table that changes nothing. */
    method HandleValid(handle: Ptr) returns (ret: bool)
      requires Valid()
      ensures ret == HandleValidSpec(pool[..], handle)
    {
      if handle == 0 {
        return false;
      }
      var gpool := GpoolOf(handle);
      var bar := BarOf(handle);
      var i := 0;
      while i < FPA_VF_MAX
        invariant 0 <= i <= FPA_VF_MAX
        invariant FirstWithBar(pool[..], bar, i) == FirstWithBar(pool[..], bar, 0)
      {
        if pool[i].bar0 != bar {
          i := i + 1;
          continue;
        }
        if gpool != i {
          return false;
        }
        ret := !(pool[i].sz128 == 0 || pool[i].domainId == DOMAIN_NONE || pool[i].stackLnPtr == 0);
        return;
      }
      ret := false;
    }

    /** octeontx_fpa_bufpool_block_size. */
    method BlockSize(handle: Ptr) returns (r: int)
      requires Valid()
      ensures r == BlockSizeSpec(pool[..], handle)
    {
      var valid := HandleValid(handle);
      if !valid {
        return -EINVAL;
      }
      var gpool := GpoolOf(handle);
      r := CacheLinesToObjSize(pool[gpool].sz128);
    }

    /** octeontx_gpool_free: clears a block size; a second free is refused. */
    method GpoolFree(gpool: int) returns (ret: int)
      requires Valid() && 0 <= gpool < FPA_VF_MAX
      modifies pool
      ensures Valid()
      ensures Snap() == GpoolFreeStep(old(Snap()), gpool).dev && ret == GpoolFreeStep(old(Snap()), gpool).ret
    {
      if pool[gpool].sz128 != 0 {
        SetSlot(gpool, pool[gpool].(sz128 := 0));
        return 0;
      }
      ret := -EINVAL;
    }

    /** octeontx_fpavf_free: marks a pool as no longer in use. */
    method FpavfFree(gpool: U32) returns (ret: int)
      requires Valid()
      modifies pool
      ensures Valid()
      ensures Snap() == FpavfFreeStep(old(Snap()), gpool).dev && ret == FpavfFreeStep(old(Snap()), gpool).ret
    {
      if gpool >= FPA_MAX_POOL {
        return -EINVAL;
      }
      SetSlot(gpool, pool[gpool].(isInuse := false));
      ret := 0;
    }

    // -------------------------------------------------------------------------
    // Pool setup and teardown, mailbox stages
    // -------------------------------------------------------------------------

    /**
     * octeontx_fpapf_pool_setup: allocates the stack memory of a pool and
     * configures the pool at the PF. `memptr`, `phys` and `status` are what
     * the heap and the mailbox answered.
     */
    method PfPoolSetup(gpool: int, bufSize: U32, bufOffset: bv16, maxBufCount: U32)
      returns (ret: int, ghost memptr: U64, ghost phys: U64, ghost status: int)
      requires Valid() && 0 <= gpool < FPA_VF_MAX && pool[gpool].stackLnPtr != 0
      modifies pool, heap, mbox
      ensures Valid()
      ensures memptr == 0 || memptr !in old(heap.live)
      ensures var r := PoolSetupStep(old(Snap()), gpool, bufSize, bufOffset, maxBufCount, memptr, phys, status);
        Snap() == r.dev && ret == r.ret
    {
      var memsz := StackMemSize(maxBufCount, pool[gpool].stackLnPtr);
      var p := heap.Malloc(memsz);
      memptr, phys, status := p, 0, 0;
      if p == 0 {
        return -ENOMEM, memptr, phys, status;
      }
      var fpa := pool[gpool].(poolStackBase := p);
      SetSlot(gpool, fpa);
      var physAddr := heap.Virt2Phy(p);
      phys := physAddr;
      var hdr := Hdr(FPA_CONFIGSET, fpa.vfId as int);
      ret := mbox.Send(hdr, PoolSetupRequest(bufSize, bufOffset, physAddr, memsz));
      status := ret;
      if ret < 0 {
        ret := -EACCES;
      } else {
        SetSlot(gpool, fpa.(isInuse := true));
      }
      if ret < 0 {
        heap.Free(p);
      }
    }

    /**
     * octeontx_fpapf_pool_destroy: resets the pool at the PF, then frees the
     * stack memory and clears the pointer whatever the mailbox returned.
     */
    method PfPoolDestroy(gpool: int) returns (ret: int, ghost status: int)
      requires Valid() && 0 <= gpool < FPA_VF_MAX
      requires pool[gpool].poolStackBase == 0 || pool[gpool].poolStackBase in heap.live
      modifies pool, heap, mbox
      ensures Valid()
      ensures Snap() == PoolDestroyStep(old(Snap()), gpool, status).dev
      ensures ret == PoolDestroyStep(old(Snap()), gpool, status).ret
    {
      ret := mbox.Send(Hdr(FPA_CONFIGSET, pool[gpool].vfId as int), POOL_RESET);
      status := ret;
      if ret < 0 {
        ret := -EACCES;
      } else {
        ret := 0;
      }
      heap.Free(pool[gpool].poolStackBase);
      SetSlot(gpool, pool[gpool].(poolStackBase := 0));
    }

    /** octeontx_fpapf_aura_attach: attaches aura `gpool` to pool `gpool`. */
    method AuraAttach(gpool: U32) returns (ret: int, ghost status: int)
      modifies mbox
      ensures Snap() == AuraAttachStep(old(Snap()), gpool, status).dev
      ensures ret == AuraAttachStep(old(Snap()), gpool, status).ret
    {
      if gpool >= FPA_MAX_POOL {
        return -EINVAL, 0;
      }
      ret := mbox.Send(Hdr(FPA_ATTACHAURA, gpool), AuraRequest(gpool));
      status := ret;
      if ret < 0 {
        ret := -EACCES;
      }
    }

    /** octeontx_fpapf_aura_detach. */
    method AuraDetach(gpool: U32) returns (ret: int, ghost status: int)
      modifies mbox
      ensures Snap() == AuraDetachStep(old(Snap()), gpool, status).dev
      ensures ret == AuraDetachStep(old(Snap()), gpool, status).ret
    {
      if gpool >= FPA_MAX_POOL {
        return -EINVAL, 0;
      }
      ret := mbox.Send(Hdr(FPA_DETACHAURA, gpool), AuraRequest(gpool));
      status := ret;
      if ret < 0 {
        ret := -EINVAL;
      }
    }

    /** octeontx_fpapf_start_count: a request without payload. */
    method StartCount(gpool: U16) returns (ret: int, ghost status: int)
      modifies mbox
      ensures Snap() == StartCountStep(old(Snap()), gpool, status).dev
      ensures ret == StartCountStep(old(Snap()), gpool, status).ret
    {
      if gpool >= FPA_MAX_POOL {
        return -EINVAL, 0;
      }
      ret := mbox.Send(Hdr(FPA_START_COUNT, gpool), NoPayload);
      status := ret;
      if ret < 0 {
        ret := -EINVAL;
      }
    }

    /** octeontx_fpavf_pool_setup: programs the buffer area of the VF pool. */
    method VfPoolSetup(handle: Ptr, memsz: U64, memva: U64, gpool: U16) returns (ret: int)
      modifies mmio
      ensures Snap() == VfPoolSetupStep(old(Snap()), handle, memsz, memva, gpool).dev
      ensures ret == VfPoolSetupStep(old(Snap()), handle, memsz, memva, gpool).ret
    {
      if handle == 0 {
        return -ENODEV;
      }
      var vaEnd := VaEnd(memva, memsz);
      mmio.Write64(handle, VhpoolStartAddr, gpool, memva);
      mmio.Write64(handle, VhpoolEndAddr, gpool, vaEnd);
      ret := 0;
    }

    // -------------------------------------------------------------------------
    // Pool creation
    // -------------------------------------------------------------------------

    /**
     * The first step of octeontx_fpa_bufpool_create under the lock: claim a
     * slot and check its handle, releasing the slot when the handle does not
     * validate. `claimed` says that both succeeded.
     */
    method Claim(size: U32) returns (gpool: int, handle: Ptr, claimed: bool)
      requires Valid() && locked
      modifies this, pool
      ensures Valid() && locked
      ensures initOnce == old(initOnce) && totalGpoolCnt == old(totalGpoolCnt)
      ensures var c := ClaimStep(old(Snap()), size);
        Snap() == c.dev && gpool == c.gpool && handle == c.handle && claimed == c.claimed
    {
      ghost var s0 := pool[..];
      handle, claimed := 0, false;
      gpool := GpoolAlloc(size);
      if gpool < 0 {
        errno := gpool;
        return;
      }
      AllocEffect(s0, size);
      handle := Gpool2Handle(gpool);
      claimed := HandleValid(handle);
      if !claimed {
        errno := ENOSPC;
        var freed := GpoolFree(gpool);
      }
    }

    /**
     * The stages of octeontx_fpa_bufpool_create from the PF pool setup to
     * the VF register setup for the claimed slot `gpool` in the window
     * `bar`, with the unwinding of their failures (error_gaura_detach,
     * error_pool_destroy). `a` is what the heap and the PF answered.
     */
    method ConfigureClaimed(gpool: int, bar: Ptr, size: U32, bufOffset: bv16, objectCount: U32, vaStart: U64)
      returns (res: int, ghost a: Answers)
      requires Valid() && 0 <= gpool < FPA_VF_MAX && pool[gpool].stackLnPtr != 0
      modifies pool, heap, mbox, mmio
      ensures Valid()
      ensures FreshAnswers(old(Snap()), a)
      ensures var r := ConfigureStep(old(Snap()), gpool, bar, size, bufOffset, objectCount, vaStart, a);
        Snap() == r.dev && res == r.ret
    {
      ghost var d0 := Snap();
      ghost var memptr, phys, setupStatus;
      res, memptr, phys, setupStatus := PfPoolSetup(gpool, size, bufOffset, objectCount);
      ghost var setup := PoolSetupStep(d0, gpool, size, bufOffset, objectCount, memptr, phys, setupStatus);
      a := Answers(memptr, phys, setupStatus, 0, 0, 0, 0);
      if res < 0 {
        return;
      }
      ghost var attachStatus, detachStatus, destroyStatus;
      res, attachStatus := AuraAttach(gpool);
      ghost var attach := AuraAttachStep(setup.dev, gpool, attachStatus);
      if res < 0 {
        var freed := FpavfFree(gpool);
        var destroyed;
        destroyed, destroyStatus := PfPoolDestroy(gpool);
        a := a.(attachStatus := attachStatus, destroyStatus := destroyStatus);
        assert ConfigureStep(d0, gpool, bar, size, bufOffset, objectCount, vaStart, a)
            == Stage(Unconfigure(attach.dev, gpool, destroyStatus), attach.ret, AttachFailed);
        return;
      }
      res := VfPoolSetup(bar, VfMemSize(size, objectCount), vaStart, gpool);
      ghost var vf := VfPoolSetupStep(attach.dev, bar, VfMemSize(size, objectCount), vaStart, gpool);
      if res < 0 {
        var detached;
        detached, detachStatus := AuraDetach(gpool);
        ghost var detachedDev := AuraDetachStep(vf.dev, gpool, detachStatus).dev;
        var freed := FpavfFree(gpool);
        var destroyed;
        destroyed, destroyStatus := PfPoolDestroy(gpool);
        a := Answers(memptr, phys, setupStatus, attachStatus, detachStatus, destroyStatus, 0);
        assert ConfigureStep(d0, gpool, bar, size, bufOffset, objectCount, vaStart, a)
            == Stage(Unconfigure(detachedDev, gpool, destroyStatus), vf.ret, VfSetupFailed);
      } else {
        a := a.(attachStatus := attachStatus);
        assert ConfigureStep(d0, gpool, bar, size, bufOffset, objectCount, vaStart, a) == Stage(vf.dev, 0, Created);
      }
    }

    /**
     * The part of octeontx_fpa_bufpool_create that runs under the lock:
     * claim a slot, check its handle, configure the slot, and release it
     * again when that fails (error_gpool_free).
     */
    method CreateLocked(size: U32, objectCount: U32, bufOffset: bv16, vaStart: U64)
      returns (handle: Ptr, gpool: int, ghost outcome: Outcome, ghost a: Answers)
      requires Valid() && locked
      modifies this, pool, heap, mbox, mmio
      ensures Valid() && locked
      ensures initOnce == old(initOnce) && totalGpoolCnt == old(totalGpoolCnt)
      ensures FreshAnswers(old(Snap()), a)
      ensures var r := CreateLockedStep(old(Snap()), size, objectCount, bufOffset, vaStart, a);
        Snap() == r.dev && handle == r.handle && gpool == r.gpool && outcome == r.outcome
    {
      ghost var d0 := Snap();
      a := Answers(0, 0, 0, 0, 0, 0, 0);
      var claimed;
      gpool, handle, claimed := Claim(size);
      ghost var c := ClaimStep(d0, size);
      ClaimFacts(d0, size);
      CreateLockedExits(d0, size, objectCount, bufOffset, vaStart, a);
      if gpool < 0 {
        outcome := NoSlot;
        return;
      }
      if !claimed {
        handle, outcome := 0, BadHandle;
        return;
      }
      var res;
      res, a := ConfigureClaimed(gpool, BarOf(handle), size, bufOffset, objectCount, vaStart);
      ghost var cfg := ConfigureStep(c.dev, gpool, BarOf(handle), size, bufOffset, objectCount, vaStart, a);
      outcome := cfg.outcome;
      CreateLockedExits(d0, size, objectCount, bufOffset, vaStart, a);
      if res < 0 {
        errno := res;
        var freed := GpoolFree(gpool);
        handle := 0;
      }
    }

    /**
     * The last steps of a successful octeontx_fpa_bufpool_create: the aura
     * count, limit and threshold registers, then the start of the buffer
     * counting, whose outcome the driver ignores.
     */
    method StartAura(poolBar: Ptr, gpool: U16, objectCount: U32) returns (ghost countStatus: int)
      requires gpool < FPA_MAX_POOL
      modifies mmio, mbox
      ensures Snap() == StartCountStep(AuraRegsStep(old(Snap()), poolBar, gpool, objectCount), gpool, countStatus).dev
    {
      mmio.Write64(poolBar, VhauraCnt, gpool, objectCount);
      mmio.Write64(poolBar, VhauraCntLimit, gpool, objectCount);
      mmio.Write64(poolBar, VhauraCntThreshold, gpool, Wrap32(objectCount + 1));
      var countRet;
      countRet, countStatus := StartCount(gpool);
    }

    /**
     * octeontx_fpa_bufpool_create: checks the area and the size, creates
     * the pool under the lock, then programs the aura counters and starts
     * the buffer counting. Returns the handle, or NULL on every failure;
     * `a` is what the heap and the PF answered.
     */
    method BufpoolCreate(objectSize: U32, objectCount: U32, bufOffset: U32, vaStart: U64, maxObjSize: U32)
      returns (handle: Ptr, ghost outcome: Outcome, ghost a: Answers)
      requires Valid() && !locked
      modifies this, pool, heap, mbox, mmio
      ensures Valid() && !locked
      ensures initOnce == old(initOnce) && totalGpoolCnt == old(totalGpoolCnt)
      ensures FreshAnswers(old(Snap()), a)
      ensures var r := CreateSpec(old(Snap()), objectSize, objectCount, bufOffset, vaStart, maxObjSize, a);
        Snap() == r.dev && handle == r.handle && outcome == r.outcome
    {
      ghost var d0 := Snap();
      a := Answers(0, 0, 0, 0, 0, 0, 0);
      if vaStart == 0 {
        return 0, VaNull, a;
      }
      var size := CacheLineRoundup(objectSize);
      if size > maxObjSize {
        errno := EINVAL;
        return 0, TooBig, a;
      }
      locked := true;
      var gpool;
      handle, gpool, outcome, a := CreateLocked(size, objectCount, ToShort(bufOffset), vaStart);
      ghost var c := CreateLockedStep(d0, size, objectCount, ToShort(bufOffset), vaStart, a);
      locked := false;
      if handle == 0 {
        CreateLockedOutcome(d0, size, objectCount, ToShort(bufOffset), vaStart, a, 0);
        assert CreateSpec(d0, objectSize, objectCount, bufOffset, vaStart, maxObjSize, a) == c;
        return;
      }
      ghost var countStatus := StartAura(BarOf(handle), gpool as U16, objectCount);
      CreateLockedOutcome(d0, size, objectCount, ToShort(bufOffset), vaStart, a, countStatus);
      a := a.(countStatus := countStatus);
    }
  }
}

/**
 * The state the FPA VF driver changes, as a value, and each step of pool
 * creation and teardown as a function on it (octeontx_fpavf.c).
 *
 * The heap and the mailbox are services the driver cannot see into: what
 * they answered (the block rte_malloc returned, its bus address, each
 * mailbox status) enters every step as a parameter. The methods of the
 * device class are proved to compute exactly these functions; the lemmas
 * here state what pool creation then guarantees.
 */
module FpaState {
  import opened FpaTypes
  import opened FpaArith
  import opened FpaTable

  /** The exit paths of octeontx_fpa_bufpool_create. */
  datatype Outcome =
    | VaNull            // *va_start == NULL
    | TooBig            // rounded size above FPA_MAX_OBJ_SIZE
    | NoSlot            // octeontx_fpa_gpool_alloc failed
    | BadHandle         // the claimed slot's handle does not validate
    | PoolSetupFailed   // octeontx_fpapf_pool_setup failed
    | AttachFailed      // octeontx_fpapf_aura_attach failed
    | VfSetupFailed     // octeontx_fpavf_pool_setup failed
    | Created

  /**
   * Everything the driver's operations change: the slot table, the blocks
   * the heap has handed out, the last value written to each VF register,
   * the requests sent to the PF with their statuses, and `errno`.
   */
  datatype Dev = Dev(
    table: seq<FpavfRes>,
    live: set<U64>,
    regs: map<RegKey, U64>,
    log: seq<Exchange>,
    errno: int)

  /** The new state after a step, and the step's return value. */
  datatype Step = Step(dev: Dev, ret: int)

  /** What the heap and the PF answered during one pool creation. */
  datatype Answers = Answers(
    memptr: U64,          // rte_malloc
    phys: U64,            // rte_malloc_virt2phy
    setupStatus: int,     // the pool configuration request
    attachStatus: int,    // the aura attach request
    detachStatus: int,    // the aura detach request
    destroyStatus: int,   // the pool reset request
    countStatus: int)     // the start-count request

  /** A well-formed table, and a heap that never hands out NULL. */
  predicate DevOk(d: Dev)
  {
    TableOk(d.table) && NULL as int !in d.live
  }

  /** The heap returns NULL or a block it had not handed out. */
  predicate FreshAnswers(d: Dev, a: Answers)
  {
    a.memptr == 0 || a.memptr !in d.live
  }

  // ---------------------------------------------------------------------------
  // Mailbox requests
  // ---------------------------------------------------------------------------

  function Hdr(msg: int, vfid: int): MboxHdr
  {
    MboxHdr(FPA_COPROC, msg, vfid)
  }

  /** The state after one request and the status the PF returned for it. */
  function Send(d: Dev, hdr: MboxHdr, payload: Payload, status: int): Dev
  {
    d.(log := d.log + [Exchange(hdr, payload, status)])
  }

  /** The request octeontx_fpapf_pool_setup sends for a stack at `phys` of `memsz` bytes. */
  function PoolSetupRequest(bufSize: U32, bufOffset: bv16, phys: U64, memsz: U32): Payload
  {
    FpaCfg(0, PoolCfg(bufSize, bufOffset), phys, Wrap64(phys + memsz), AURA_CFG)
  }

  /** The all-zero configuration octeontx_fpapf_pool_destroy sends. */
  const POOL_RESET: Payload := FpaCfg(0, 0, 0, 0, 0)

  /** The configuration the aura stages send: only the aura id, which is the gpool. */
  function AuraRequest(gpool: int): Payload
  {
    FpaCfg(gpool, 0, 0, 0, 0)
  }

  // ---------------------------------------------------------------------------
  // The steps
  // ---------------------------------------------------------------------------

  /** octeontx_gpool_free: clears the block size; a slot without one is refused. */
  function GpoolFreeStep(d: Dev, gpool: int): (r: Step)
    requires 0 <= gpool < |d.table|
    ensures |r.dev.table| == |d.table|
    ensures r.ret == 0 <==> d.table[gpool].sz128 != 0
    ensures r.ret != 0 ==> r.ret == -EINVAL
    ensures r.dev == d.(table := d.table[gpool := d.table[gpool].(sz128 := 0)])
  {
    if d.table[gpool].sz128 != 0 then Step(d.(table := d.table[gpool := d.table[gpool].(sz128 := 0)]), 0)
    else Step(d, -EINVAL)
  }

  /** octeontx_fpavf_free: marks the pool as no longer in use. */
  function FpavfFreeStep(d: Dev, gpool: U32): (r: Step)
    requires |d.table| == FPA_VF_MAX
    ensures |r.dev.table| == |d.table|
    ensures r.ret == 0 <==> gpool < FPA_MAX_POOL
    ensures r.ret != 0 ==> r == Step(d, -EINVAL)
    ensures r.ret == 0 ==>
      !r.dev.table[gpool].isInuse && r.dev.table[gpool].(isInuse := d.table[gpool].isInuse) == d.table[gpool]
      && r.dev == d.(table := d.table[gpool := r.dev.table[gpool]])
  {
    if gpool >= FPA_MAX_POOL then Step(d, -EINVAL)
    else Step(d.(table := d.table[gpool := d.table[gpool].(isInuse := false)]), 0)
  }

  /**
   * octeontx_fpapf_pool_setup with the stack block `memptr` at bus address
   * `phys`, and `status` from the mailbox. A refused configuration returns
   * the block to the heap but leaves the slot pointing at it.
   */
  function PoolSetupStep(d: Dev, gpool: int, bufSize: U32, bufOffset: bv16, maxBufCount: U32,
                         memptr: U64, phys: U64, status: int): (r: Step)
    requires 0 <= gpool < |d.table| && d.table[gpool].stackLnPtr != 0
    ensures |r.dev.table| == |d.table|
    ensures r.ret == -ENOMEM <==> memptr == 0
    ensures r.ret < 0 <==> memptr == 0 || status < 0
    ensures memptr != 0 && status < 0 ==> r.ret == -EACCES
    ensures r.ret >= 0 ==> r.ret == status && r.dev.table[gpool].isInuse && memptr in r.dev.live
  {
    if memptr == 0 then Step(d, -ENOMEM)
    else
      var slot := d.table[gpool].(poolStackBase := memptr);
      var memsz := StackMemSize(maxBufCount, d.table[gpool].stackLnPtr);
      var sent := Send(d, Hdr(FPA_CONFIGSET, slot.vfId as int), PoolSetupRequest(bufSize, bufOffset, phys, memsz), status);
      if status < 0 then Step(sent.(table := d.table[gpool := slot]), -EACCES)
      else Step(sent.(table := d.table[gpool := slot.(isInuse := true)], live := d.live + {memptr}), status)
  }

  /**
   * octeontx_fpapf_pool_destroy: resets the pool at the PF and frees the
   * stack whatever the PF answered.
   */
  function PoolDestroyStep(d: Dev, gpool: int, status: int): (r: Step)
    requires 0 <= gpool < |d.table|
    ensures |r.dev.table| == |d.table|
    ensures r.ret == (if status < 0 then -EACCES else 0)
    ensures r.dev.table[gpool].poolStackBase == 0 && d.table[gpool].poolStackBase !in r.dev.live
  {
    var slot := d.table[gpool];
    var sent := Send(d, Hdr(FPA_CONFIGSET, slot.vfId as int), POOL_RESET, status);
    Step(sent.(table := d.table[gpool := slot.(poolStackBase := 0)], live := d.live - {slot.poolStackBase}),
         if status < 0 then -EACCES else 0)
  }

  /** octeontx_fpapf_aura_attach. */
  function AuraAttachStep(d: Dev, gpool: U32, status: int): (r: Step)
    ensures gpool >= FPA_MAX_POOL ==> r == Step(d, -EINVAL)
    ensures gpool < FPA_MAX_POOL ==>
      r.dev == d.(log := d.log + [Exchange(Hdr(FPA_ATTACHAURA, gpool), AuraRequest(gpool), status)])
      && (r.ret < 0 <==> status < 0) && (r.ret < 0 ==> r.ret == -EACCES) && (r.ret >= 0 ==> r.ret == status)
  {
    if gpool >= FPA_MAX_POOL then Step(d, -EINVAL)
    else Step(Send(d, Hdr(FPA_ATTACHAURA, gpool), AuraRequest(gpool), status), if status < 0 then -EACCES else status)
  }

  /** octeontx_fpapf_aura_detach. */
  function AuraDetachStep(d: Dev, gpool: U32, status: int): (r: Step)
    ensures gpool >= FPA_MAX_POOL ==> r == Step(d, -EINVAL)
    ensures gpool < FPA_MAX_POOL ==>
      r.dev == d.(log := d.log + [Exchange(Hdr(FPA_DETACHAURA, gpool), AuraRequest(gpool), status)])
      && (r.ret < 0 <==> status < 0) && (r.ret < 0 ==> r.ret == -EINVAL) && (r.ret >= 0 ==> r.ret == status)
  {
    if gpool >= FPA_MAX_POOL then Step(d, -EINVAL)
    else Step(Send(d, Hdr(FPA_DETACHAURA, gpool), AuraRequest(gpool), status), if status < 0 then -EINVAL else status)
  }

  /** octeontx_fpapf_start_count. */
  function StartCountStep(d: Dev, gpool: U16, status: int): (r: Step)
    ensures gpool >= FPA_MAX_POOL ==> r == Step(d, -EINVAL)
    ensures gpool < FPA_MAX_POOL ==>
      r.dev == d.(log := d.log + [Exchange(Hdr(FPA_START_COUNT, gpool), NoPayload, status)])
      && (r.ret < 0 <==> status < 0) && (r.ret < 0 ==> r.ret == -EINVAL) && (r.ret >= 0 ==> r.ret == status)
  {
    if gpool >= FPA_MAX_POOL then Step(d, -EINVAL)
    else Step(Send(d, Hdr(FPA_START_COUNT, gpool), NoPayload, status), if status < 0 then -EINVAL else status)
  }

  /** octeontx_fpavf_pool_setup: the buffer area of the VF pool. */
  function VfPoolSetupStep(d: Dev, handle: Ptr, memsz: U64, memva: U64, gpool: U16): (r: Step)
    ensures r.ret == -ENODEV <==> handle == 0
    ensures handle == 0 ==> r.dev == d
    ensures handle != 0 ==>
      r.ret == 0 && r.dev == d.(regs := r.dev.regs)
      && r.dev.regs.Keys == d.regs.Keys + {(handle, VhpoolStartAddr, gpool), (handle, VhpoolEndAddr, gpool)}
      && r.dev.regs[(handle, VhpoolStartAddr, gpool)] == memva
      && r.dev.regs[(handle, VhpoolEndAddr, gpool)] == VaEnd(memva, memsz)
    ensures forall k :: k in d.regs && k != (handle, VhpoolStartAddr, gpool) && k != (handle, VhpoolEndAddr, gpool) ==>
      r.dev.regs[k] == d.regs[k]
  {
    if handle == 0 then Step(d, -ENODEV)
    else Step(d.(regs := d.regs[(handle, VhpoolStartAddr, gpool) := memva]
                               [(handle, VhpoolEndAddr, gpool) := VaEnd(memva, memsz)]), 0)
  }

  /** The aura count, limit and threshold registers of a created pool. */
  function AuraRegsStep(d: Dev, bar: Ptr, gpool: int, objectCount: U32): (r: Dev)
    ensures r == d.(regs := r.regs)
    ensures r.regs.Keys == d.regs.Keys + {(bar, VhauraCnt, gpool), (bar, VhauraCntLimit, gpool), (bar, VhauraCntThreshold, gpool)}
    ensures r.regs[(bar, VhauraCnt, gpool)] == objectCount
    ensures r.regs[(bar, VhauraCntLimit, gpool)] == objectCount
    ensures r.regs[(bar, VhauraCntThreshold, gpool)] == if objectCount < 0xFFFF_FFFF then objectCount + 1 else 0
    ensures forall k :: k in d.regs && k != (bar, VhauraCnt, gpool) && k != (bar, VhauraCntLimit, gpool)
                        && k != (bar, VhauraCntThreshold, gpool) ==>
      r.regs[k] == d.regs[k]
  {
    d.(regs := d.regs[(bar, VhauraCnt, gpool) := objectCount]
                     [(bar, VhauraCntLimit, gpool) := objectCount]
                     [(bar, VhauraCntThreshold, gpool) := Wrap32(objectCount + 1)])
  }

  // ---------------------------------------------------------------------------
  // Pool creation (octeontx_fpa_bufpool_create)
  // ---------------------------------------------------------------------------

  /** The outcome of claiming a slot: the slot index, its handle, and whether both held. */
  datatype Claim = Claim(dev: Dev, gpool: int, handle: Ptr, claimed: bool)

  /**
   * Claim a slot and check its handle; a handle that does not validate
   * releases the slot again with errno set to ENOSPC.
   */
  function ClaimStep(d: Dev, size: U32): (c: Claim)
    requires TableOk(d.table)
    ensures |c.dev.table| == |d.table|
    ensures c.claimed ==>
      0 <= c.gpool < FPA_VF_MAX && c.dev.table[c.gpool].stackLnPtr != 0 && d.table[c.gpool].stackLnPtr != 0
      && c.handle == MakeHandle(d.table[c.gpool].bar0, c.gpool)
  {
    var g := AllocResult(d.table);
    if g < 0 then Claim(d.(errno := g), g, 0, false)
    else
      var t := AllocTable(d.table, size);
      AllocEffect(d.table, size);
      var h := MakeHandle(t[g].bar0, g);
      if HandleValidSpec(t, h) then
        HandleGpoolRoundTrip(t[g].bar0, g);
        HandleValidIff(t, h);
        Claim(d.(table := t), g, h, true)
      else Claim(GpoolFreeStep(d.(table := t, errno := ENOSPC), g).dev, g, h, false)
  }

  /** The state, return value and exit path of the configuration stages. */
  datatype Stage = Stage(dev: Dev, ret: int, outcome: Outcome)

  /** Undoes a configured pool: octeontx_fpavf_free, then octeontx_fpapf_pool_destroy. */
  function Unconfigure(d: Dev, gpool: int, status: int): (r: Dev)
    requires |d.table| == FPA_VF_MAX && 0 <= gpool < FPA_VF_MAX
    ensures |r.table| == |d.table|
    ensures r.table == d.table[gpool := d.table[gpool].(isInuse := false, poolStackBase := 0)]
    ensures r.live == d.live - {d.table[gpool].poolStackBase}
    ensures r.regs == d.regs && r.errno == d.errno
    ensures r.log == d.log + [Exchange(Hdr(FPA_CONFIGSET, d.table[gpool].vfId as int), POOL_RESET, status)]
  {
    PoolDestroyStep(FpavfFreeStep(d, gpool).dev, gpool, status).dev
  }

  /**
   * The stages after a slot is claimed: PF pool setup, aura attach and VF
   * pool setup for the window `bar`, each failure unwinding the stages
   * before it (error_gaura_detach, error_pool_destroy).
   */
  function ConfigureStep(d: Dev, gpool: int, bar: Ptr, size: U32, bufOffset: bv16, objectCount: U32,
                         vaStart: U64, a: Answers): (r: Stage)
    requires |d.table| == FPA_VF_MAX && 0 <= gpool < FPA_VF_MAX && d.table[gpool].stackLnPtr != 0
    ensures |r.dev.table| == |d.table|
    ensures r.ret < 0 <==> r.outcome != Created
    ensures r.outcome == Created || r.outcome == PoolSetupFailed || r.outcome == AttachFailed
            || r.outcome == VfSetupFailed
  {
    var setup := PoolSetupStep(d, gpool, size, bufOffset, objectCount, a.memptr, a.phys, a.setupStatus);
    if setup.ret < 0 then Stage(setup.dev, setup.ret, PoolSetupFailed)
    else
      var attach := AuraAttachStep(setup.dev, gpool, a.attachStatus);
      if attach.ret < 0 then Stage(Unconfigure(attach.dev, gpool, a.destroyStatus), attach.ret, AttachFailed)
      else
        var vf := VfPoolSetupStep(attach.dev, bar, VfMemSize(size, objectCount), vaStart, gpool);
        if vf.ret < 0 then
          var detached := AuraDetachStep(vf.dev, gpool, a.detachStatus).dev;
          Stage(Unconfigure(detached, gpool, a.destroyStatus), vf.ret, VfSetupFailed)
        else Stage(vf.dev, 0, Created)
  }

  /** The state, handle, claimed slot and exit path of a pool creation. */
  datatype Creation = Creation(dev: Dev, handle: Ptr, gpool: int, outcome: Outcome)

  /**
   * The part of pool creation under the lock: claim a slot, configure it,
   * and release the slot when configuring fails (error_gpool_free).
   */
  function CreateLockedStep(d: Dev, size: U32, objectCount: U32, bufOffset: bv16, vaStart: U64,
                            a: Answers): (r: Creation)
    requires TableOk(d.table)
    ensures |r.dev.table| == |d.table|
    ensures r.outcome == Created ==> 0 <= r.gpool < FPA_VF_MAX && d.table[r.gpool].stackLnPtr != 0
    ensures r.outcome != VaNull && r.outcome != TooBig
    ensures r.outcome == NoSlot <==> r.gpool < 0
    ensures r.outcome != Created ==> r.handle == 0
  {
    var c := ClaimStep(d, size);
    if c.gpool < 0 then Creation(c.dev, 0, c.gpool, NoSlot)
    else if !c.claimed then Creation(c.dev, 0, c.gpool, BadHandle)
    else
      var cfg := ConfigureStep(c.dev, c.gpool, BarOf(c.handle), size, bufOffset, objectCount, vaStart, a);
      if cfg.ret < 0 then Creation(GpoolFreeStep(cfg.dev.(errno := cfg.ret), c.gpool).dev, 0, c.gpool, cfg.outcome)
      else Creation(cfg.dev, c.handle, c.gpool, Created)
  }

  /** The three exits of the locked part, one per claim result. */
  lemma CreateLockedExits(d: Dev, size: U32, objectCount: U32, bufOffset: bv16, vaStart: U64, a: Answers)
    requires TableOk(d.table)
    ensures var c := ClaimStep(d, size);
      var r := CreateLockedStep(d, size, objectCount, bufOffset, vaStart, a);
      && (c.gpool < 0 ==> r == Creation(c.dev, 0, c.gpool, NoSlot))
      && (c.gpool >= 0 && !c.claimed ==> r == Creation(c.dev, 0, c.gpool, BadHandle))
      && (c.claimed ==>
            var cfg := ConfigureStep(c.dev, c.gpool, BarOf(c.handle), size, bufOffset, objectCount, vaStart, a);
            r == if cfg.ret < 0 then Creation(GpoolFreeStep(cfg.dev.(errno := cfg.ret), c.gpool).dev, 0, c.gpool, cfg.outcome)
                 else Creation(cfg.dev, c.handle, c.gpool, Created))
  {
  }

  /**
   * octeontx_fpa_bufpool_create: reject a NULL area and a rounded size
   * above `maxObjSize`, create the pool under the lock, then program the
   * aura counters and start the buffer counting, whose status is ignored.
   */
  function CreateSpec(d: Dev, objectSize: U32, objectCount: U32, bufOffset: U32, vaStart: U64,
                      maxObjSize: U32, a: Answers): (r: Creation)
    requires TableOk(d.table)
    ensures |r.dev.table| == |d.table|
    ensures r.outcome == Created ==> 0 <= r.gpool < FPA_VF_MAX && d.table[r.gpool].stackLnPtr != 0
    ensures r.outcome == VaNull <==> vaStart == 0
    ensures r.outcome == TooBig <==> vaStart != 0 && CacheLineRoundup(objectSize) > maxObjSize
    ensures r.outcome != Created ==> r.handle == 0
  {
    if vaStart == 0 then Creation(d, 0, -1, VaNull)
    else
      var size := CacheLineRoundup(objectSize);
      if size > maxObjSize then Creation(d.(errno := EINVAL), 0, -1, TooBig)
      else
        var c := CreateLockedStep(d, size, objectCount, ToShort(bufOffset), vaStart, a);
        if c.outcome != Created then c
        else
          var bar := BarOf(c.handle);
          var counted := StartCountStep(AuraRegsStep(c.dev, bar, c.gpool, objectCount), c.gpool, a.countStatus);
          Creation(counted.dev, c.handle, c.gpool, Created)
  }

  // ---------------------------------------------------------------------------
  // What the steps guarantee
  // ---------------------------------------------------------------------------

  /** Releasing a block size twice: the second release is refused and changes nothing. */
  lemma GpoolFreeTwice(d: Dev, gpool: int)
    requires 0 <= gpool < |d.table|
    ensures GpoolFreeStep(d, gpool).ret == 0 <==> d.table[gpool].sz128 != 0
    ensures GpoolFreeStep(d, gpool).dev.table[gpool].sz128 == 0
    ensures GpoolFreeStep(GpoolFreeStep(d, gpool).dev, gpool).ret == -EINVAL
    ensures GpoolFreeStep(GpoolFreeStep(d, gpool).dev, gpool).dev == GpoolFreeStep(d, gpool).dev
  {
  }

  /** Releasing the block size of a slot just allocated gives back the table before the allocation. */
  lemma AllocThenFree(d: Dev, size: U32)
    requires AllocResult(d.table) != -ENOSPC
    ensures GpoolFreeStep(d.(table := AllocTable(d.table, size)), AllocResult(d.table)).dev == d
  {
    var g := AllocResult(d.table);
    var t := AllocTable(d.table, size);
    AllocEffect(d.table, size);
    if t[g].sz128 != 0 {
      assert t[g := t[g].(sz128 := 0)] == d.table;
    } else {
      assert t == d.table;
    }
  }

  /**
   * octeontx_fpapf_pool_setup: -ENOMEM exactly when the heap refused, the
   * slot becomes in use only when the PF accepted, a refused configuration
   * returns the block to the heap while the slot still points at it, and
   * only the claimed slot changes.
   */
  lemma PoolSetupEffect(d: Dev, gpool: int, bufSize: U32, bufOffset: bv16, maxBufCount: U32,
                        memptr: U64, phys: U64, status: int)
    requires 0 <= gpool < |d.table| && d.table[gpool].stackLnPtr != 0
    ensures var r := PoolSetupStep(d, gpool, bufSize, bufOffset, maxBufCount, memptr, phys, status);
      (r.ret == -ENOMEM <==> memptr == 0)
      && (r.ret < 0 <==> memptr == 0 || status < 0)
      && (memptr != 0 && status < 0 ==> r.ret == -EACCES)
      && (memptr == 0 ==> r.dev == d)
      && r.dev.table[gpool].isInuse == (d.table[gpool].isInuse || r.ret >= 0)
      && (memptr != 0 ==> r.dev.table[gpool].poolStackBase == memptr)
      && r.dev.table[gpool]
         == d.table[gpool].(poolStackBase := if memptr == 0 then d.table[gpool].poolStackBase else memptr,
                            isInuse := d.table[gpool].isInuse || r.ret >= 0)
      && r.dev.live == (if r.ret < 0 then d.live else d.live + {memptr})
      && (forall j :: 0 <= j < |d.table| && j != gpool ==> r.dev.table[j] == d.table[j])
      && r.dev.regs == d.regs && r.dev.errno == d.errno
      && (memptr != 0 ==>
            r.dev.log == d.log + [Exchange(Hdr(FPA_CONFIGSET, d.table[gpool].vfId as int),
                                           PoolSetupRequest(bufSize, bufOffset, phys,
                                                            StackMemSize(maxBufCount, d.table[gpool].stackLnPtr)),
                                           status)])
  {
  }

  /**
   * octeontx_fpapf_pool_destroy: the stack is freed and the pointer cleared
   * whatever the PF answered; -EACCES when it refused, 0 otherwise.
   */
  lemma PoolDestroyEffect(d: Dev, gpool: int, status: int)
    requires 0 <= gpool < |d.table|
    ensures var r := PoolDestroyStep(d, gpool, status);
      r.dev.table[gpool] == d.table[gpool].(poolStackBase := 0)
      && r.dev.live == d.live - {d.table[gpool].poolStackBase}
      && r.dev.regs == d.regs && r.dev.errno == d.errno
      && r.ret == (if status < 0 then -EACCES else 0)
      && (forall j :: 0 <= j < |d.table| && j != gpool ==> r.dev.table[j] == d.table[j])
      && r.dev.log == d.log + [Exchange(Hdr(FPA_CONFIGSET, d.table[gpool].vfId as int), POOL_RESET, status)]
  {
  }

  /** A pool set up and then destroyed leaves the heap as it was: the stack is not leaked. */
  lemma SetupThenDestroy(d: Dev, gpool: int, bufSize: U32, bufOffset: bv16, maxBufCount: U32,
                         memptr: U64, phys: U64, status: int, destroyStatus: int)
    requires 0 <= gpool < |d.table| && d.table[gpool].stackLnPtr != 0
    requires memptr !in d.live
    requires PoolSetupStep(d, gpool, bufSize, bufOffset, maxBufCount, memptr, phys, status).ret >= 0
    ensures var s := PoolSetupStep(d, gpool, bufSize, bufOffset, maxBufCount, memptr, phys, status);
      PoolDestroyStep(s.dev, gpool, destroyStatus).dev.live == d.live
  {
    var s := PoolSetupStep(d, gpool, bufSize, bufOffset, maxBufCount, memptr, phys, status);
    assert s.dev.live - {memptr} == d.live;
  }

  // ---------------------------------------------------------------------------
  // What pool creation guarantees
  // ---------------------------------------------------------------------------

  /** Both checks before the lock pass: an area is given and the rounded size is not too big. */
  predicate Admitted(objectSize: U32, vaStart: U64, maxObjSize: U32)
  {
    vaStart != 0 && CacheLineRoundup(objectSize) <= maxObjSize
  }

  /** A slot is claimable, and once claimed for `size` its handle validates. */
  predicate ClaimHolds(s: seq<FpavfRes>, size: U32)
    requires |s| == FPA_VF_MAX
  {
    var g := AllocResult(s);
    g != -ENOSPC && HandleValidSpec(AllocTable(s, size), MakeHandle(s[g].bar0, g))
  }

  /**
   * Claiming only touches the table and errno: no slot leaves the table as
   * it was with errno -ENOSPC, and a handle that does not validate gives the
   * slot back with errno ENOSPC.
   */
  lemma ClaimFacts(d: Dev, size: U32)
    requires TableOk(d.table)
    ensures var c := ClaimStep(d, size);
      c.gpool == AllocResult(d.table) && c.dev.live == d.live && c.dev.regs == d.regs && c.dev.log == d.log
      && (c.claimed <==> ClaimHolds(d.table, size))
      && (c.gpool == -ENOSPC ==> c.dev == d.(errno := -ENOSPC))
      && (c.gpool != -ENOSPC && !c.claimed ==> c.dev == d.(errno := ENOSPC))
  {
    var g := AllocResult(d.table);
    if g != -ENOSPC {
      var t := AllocTable(d.table, size);
      AllocEffect(d.table, size);
      if !HandleValidSpec(t, MakeHandle(t[g].bar0, g)) {
        if t[g].sz128 != 0 {
          assert t[g := t[g].(sz128 := 0)] == d.table;
        } else {
          assert t == d.table;
        }
      }
    }
  }

  /**
   * When the claim holds, the slot the allocator picks was mapped, not in
   * use and without a block size; it gets the object's non-zero size class,
   * and the handle names the slot and its window.
   */
  lemma ClaimedSlot(d: Dev, size: U32)
    requires TableOk(d.table) && ClaimHolds(d.table, size)
    ensures var g := AllocResult(d.table);
      ClaimStep(d, size) == Claim(d.(table := AllocTable(d.table, size)), g, MakeHandle(d.table[g].bar0, g), true)
    ensures var g := AllocResult(d.table);
      var h := MakeHandle(d.table[g].bar0, g);
      d.table[g].bar0 != NULL && !d.table[g].isInuse && d.table[g].sz128 == 0
      && SizeClass(size) != 0 && h != 0 && BarOf(h) == d.table[g].bar0 && GpoolOf(h) == g
      && AllocTable(d.table, size)[g] == d.table[g].(sz128 := SizeClass(size))
  {
    var g := AllocResult(d.table);
    var t := AllocTable(d.table, size);
    AllocEffect(d.table, size);
    var h := MakeHandle(t[g].bar0, g);
    HandleValidIff(t, h);
    HandleGpoolRoundTrip(t[g].bar0, g);
    HandleBarRoundTrip(t[g].bar0, g);
  }

  /** The requests of one pool creation on slot `r`, each with the status the PF answered. */
  function SetupSent(r: FpavfRes, size: U32, bufOffset: bv16, maxBufCount: U32, a: Answers): Exchange
    requires r.stackLnPtr != 0
  {
    Exchange(Hdr(FPA_CONFIGSET, r.vfId as int),
             PoolSetupRequest(size, bufOffset, a.phys, StackMemSize(maxBufCount, r.stackLnPtr)), a.setupStatus)
  }

  function AttachSent(gpool: int, a: Answers): Exchange
  {
    Exchange(Hdr(FPA_ATTACHAURA, gpool), AuraRequest(gpool), a.attachStatus)
  }

  function ResetSent(r: FpavfRes, a: Answers): Exchange
  {
    Exchange(Hdr(FPA_CONFIGSET, r.vfId as int), POOL_RESET, a.destroyStatus)
  }

  function CountSent(gpool: int, a: Answers): Exchange
  {
    Exchange(Hdr(FPA_START_COUNT, gpool), NoPayload, a.countStatus)
  }

  /**
   * The configuration stages succeed when the heap and the PF accept the
   * pool setup and the PF accepts the aura attach: the slot then has its
   * stack and is in use, the stack is handed out, the VF pool registers
   * hold the buffer area, and both requests were sent.
   */
  lemma ConfigureCreated(d: Dev, gpool: int, bar: Ptr, size: U32, bufOffset: bv16, objectCount: U32,
                         vaStart: U64, a: Answers)
    requires |d.table| == FPA_VF_MAX && 0 <= gpool < FPA_VF_MAX && d.table[gpool].stackLnPtr != 0
    requires bar != NULL && a.memptr != 0 && a.setupStatus >= 0 && a.attachStatus >= 0
    ensures var r := ConfigureStep(d, gpool, bar, size, bufOffset, objectCount, vaStart, a);
      var slot := d.table[gpool];
      r.outcome == Created && r.ret == 0
      && r.dev == Dev(d.table[gpool := slot.(poolStackBase := a.memptr, isInuse := true)],
                      d.live + {a.memptr},
                      d.regs[(bar, VhpoolStartAddr, gpool) := vaStart]
                            [(bar, VhpoolEndAddr, gpool) := VaEnd(vaStart, VfMemSize(size, objectCount))],
                      d.log + [SetupSent(slot, size, bufOffset, objectCount, a), AttachSent(gpool, a)],
                      d.errno)
  {
  }

  /**
   * The configuration stages fail when the heap or the PF refuse the pool
   * setup (-ENOMEM, -EACCES) or the PF refuses the aura attach (-EACCES).
   * The heap, the registers and errno are as they were and the slot is as
   * claimed except for its stack base, which a refused pool setup leaves
   * naming the returned block and an attach failure clears after resetting
   * the pool.
   */
  lemma ConfigureFailed(d: Dev, gpool: int, bar: Ptr, size: U32, bufOffset: bv16, objectCount: U32,
                        vaStart: U64, a: Answers)
    requires |d.table| == FPA_VF_MAX && 0 <= gpool < FPA_VF_MAX && d.table[gpool].stackLnPtr != 0
    requires !d.table[gpool].isInuse && FreshAnswers(d, a)
    requires !(a.memptr != 0 && a.setupStatus >= 0 && a.attachStatus >= 0)
    ensures var r := ConfigureStep(d, gpool, bar, size, bufOffset, objectCount, vaStart, a);
      r.ret < 0 && r.dev.live == d.live && r.dev.regs == d.regs && r.dev.errno == d.errno
      && RolledBack(r.dev.table, d.table, gpool)
    ensures a.memptr == 0 ==>
      ConfigureStep(d, gpool, bar, size, bufOffset, objectCount, vaStart, a) == Stage(d, -ENOMEM, PoolSetupFailed)
    ensures var r := ConfigureStep(d, gpool, bar, size, bufOffset, objectCount, vaStart, a);
      a.memptr != 0 && a.setupStatus < 0 ==>
        r.outcome == PoolSetupFailed && r.ret == -EACCES && r.dev.table[gpool].poolStackBase == a.memptr
        && r.dev.log == d.log + [SetupSent(d.table[gpool], size, bufOffset, objectCount, a)]
    ensures var r := ConfigureStep(d, gpool, bar, size, bufOffset, objectCount, vaStart, a);
      var slot := d.table[gpool];
      a.memptr != 0 && a.setupStatus >= 0 ==>
        r.outcome == AttachFailed && r.ret == -EACCES && r.dev.table[gpool].poolStackBase == 0
        && r.dev.log == d.log + [SetupSent(slot, size, bufOffset, objectCount, a), AttachSent(gpool, a),
                                 ResetSent(slot, a)]
  {
    if a.memptr != 0 && a.setupStatus >= 0 {
      assert d.live + {a.memptr} - {a.memptr} == d.live;
    }
  }

  /** A refused pool setup returns the stack to the heap but leaves its base in the slot. */
  lemma ConfigureSetupRefused(d: Dev, gpool: int, bar: Ptr, size: U32, bufOffset: bv16, objectCount: U32,
                              vaStart: U64, a: Answers)
    requires |d.table| == FPA_VF_MAX && 0 <= gpool < FPA_VF_MAX && d.table[gpool].stackLnPtr != 0
    requires a.memptr != 0 && a.setupStatus < 0
    ensures var slot := d.table[gpool];
      ConfigureStep(d, gpool, bar, size, bufOffset, objectCount, vaStart, a)
      == Stage(d.(table := d.table[gpool := slot.(poolStackBase := a.memptr)],
                  log := d.log + [SetupSent(slot, size, bufOffset, objectCount, a)]), -EACCES, PoolSetupFailed)
  {
  }

  /** An attach refusal unwinds the pool setup: the stack is freed and its base cleared. */
  lemma ConfigureAttachRefused(d: Dev, gpool: int, bar: Ptr, size: U32, bufOffset: bv16, objectCount: U32,
                               vaStart: U64, a: Answers)
    requires |d.table| == FPA_VF_MAX && 0 <= gpool < FPA_VF_MAX && d.table[gpool].stackLnPtr != 0
    requires !d.table[gpool].isInuse && a.memptr != 0 && a.memptr !in d.live
    requires a.setupStatus >= 0 && a.attachStatus < 0
    ensures var slot := d.table[gpool];
      ConfigureStep(d, gpool, bar, size, bufOffset, objectCount, vaStart, a)
      == Stage(d.(table := d.table[gpool := slot.(poolStackBase := 0)],
                  log := d.log + [SetupSent(slot, size, bufOffset, objectCount, a), AttachSent(gpool, a),
                                  ResetSent(slot, a)]), -EACCES, AttachFailed)
  {
    assert d.live + {a.memptr} - {a.memptr} == d.live;
  }

  /**
   * The locked part creates the pool when a slot is claimed and both
   * configuration stages are accepted: the claimed slot has the size class,
   * the stack and is in use, and the handle names the slot in its window.
   */
  lemma CreateLockedCreated(d: Dev, size: U32, objectCount: U32, bufOffset: bv16, vaStart: U64, a: Answers)
    requires DevOk(d) && ClaimHolds(d.table, size)
    requires a.memptr != 0 && a.setupStatus >= 0 && a.attachStatus >= 0
    ensures var r := CreateLockedStep(d, size, objectCount, bufOffset, vaStart, a);
      var g := AllocResult(d.table);
      var slot := d.table[g];
      r.outcome == Created && r.gpool == g && SizeClass(size) != 0
      && r.handle == MakeHandle(slot.bar0, g) && BarOf(r.handle) == slot.bar0 && GpoolOf(r.handle) == g
      && r.dev == Dev(d.table[g := slot.(sz128 := SizeClass(size), poolStackBase := a.memptr, isInuse := true)],
                      d.live + {a.memptr},
                      d.regs[(slot.bar0, VhpoolStartAddr, g) := vaStart]
                            [(slot.bar0, VhpoolEndAddr, g) := VaEnd(vaStart, VfMemSize(size, objectCount))],
                      d.log + [SetupSent(slot, size, bufOffset, objectCount, a), AttachSent(g, a)],
                      d.errno)
  {
    var g := AllocResult(d.table);
    var slot := d.table[g];
    var c := ClaimStep(d, size);
    ClaimedSlot(d, size);
    AllocEffect(d.table, size);
    var t := AllocTable(d.table, size);
    ConfigureCreated(c.dev, g, slot.bar0, size, bufOffset, objectCount, vaStart, a);
    assert t[g := t[g].(poolStackBase := a.memptr, isInuse := true)]
        == d.table[g := slot.(sz128 := SizeClass(size), poolStackBase := a.memptr, isInuse := true)];
  }

  /**
   * The locked part stops before configuring when no slot is claimable
   * (errno -ENOSPC) or the claimed handle does not validate (errno ENOSPC,
   * the slot given back): nothing but errno changes and no handle comes back.
   */
  lemma CreateLockedRejected(d: Dev, size: U32, objectCount: U32, bufOffset: bv16, vaStart: U64, a: Answers)
    requires DevOk(d) && !ClaimHolds(d.table, size)
    ensures AllocResult(d.table) == -ENOSPC ==>
      CreateLockedStep(d, size, objectCount, bufOffset, vaStart, a) == Creation(d.(errno := -ENOSPC), 0, -ENOSPC, NoSlot)
    ensures AllocResult(d.table) != -ENOSPC ==>
      CreateLockedStep(d, size, objectCount, bufOffset, vaStart, a)
      == Creation(d.(errno := ENOSPC), 0, AllocResult(d.table), BadHandle)
  {
    ClaimFacts(d, size);
  }

  /**
   * The locked part hands back a handle exactly when it creates the pool,
   * and it never looks at the status of the start of the buffer counting.
   */
  lemma CreateLockedOutcome(d: Dev, size: U32, objectCount: U32, bufOffset: bv16, vaStart: U64, a: Answers,
                            countStatus: int)
    requires TableOk(d.table)
    ensures var r := CreateLockedStep(d, size, objectCount, bufOffset, vaStart, a);
      (r.handle != 0 <==> r.outcome == Created)
      && CreateLockedStep(d, size, objectCount, bufOffset, vaStart, a.(countStatus := countStatus)) == r
  {
    ClaimFacts(d, size);
    if ClaimHolds(d.table, size) {
      ClaimedSlot(d, size);
    }
  }

  /**
   * The locked part unwinds when the heap has no stack block: the slot is
   * given back, nothing else but errno (-ENOMEM) changes and no request is
   * sent.
   */
  lemma CreateLockedNoMemory(d: Dev, size: U32, objectCount: U32, bufOffset: bv16, vaStart: U64, a: Answers)
    requires DevOk(d) && ClaimHolds(d.table, size) && a.memptr == 0
    ensures CreateLockedStep(d, size, objectCount, bufOffset, vaStart, a)
      == Creation(d.(errno := -ENOMEM), 0, AllocResult(d.table), PoolSetupFailed)
  {
    var g := AllocResult(d.table);
    var c := ClaimStep(d, size);
    ClaimedSlot(d, size);
    AllocEffect(d.table, size);
    var t := AllocTable(d.table, size);
    assert t[g := t[g].(sz128 := 0)] == d.table;
  }

  /**
   * The locked part unwinds when the PF refuses the pool setup: errno is
   * -EACCES, the slot is given back but keeps the stack base of the block
   * the heap got back, and only the refused request was sent.
   */
  lemma CreateLockedSetupRefused(d: Dev, size: U32, objectCount: U32, bufOffset: bv16, vaStart: U64, a: Answers)
    requires DevOk(d) && ClaimHolds(d.table, size) && a.memptr != 0 && a.setupStatus < 0
    ensures var g := AllocResult(d.table);
      CreateLockedStep(d, size, objectCount, bufOffset, vaStart, a)
      == Creation(d.(table := d.table[g := d.table[g].(poolStackBase := a.memptr)],
                     log := d.log + [SetupSent(d.table[g], size, bufOffset, objectCount, a)],
                     errno := -EACCES), 0, g, PoolSetupFailed)
  {
    var g := AllocResult(d.table);
    var slot := d.table[g];
    var c := ClaimStep(d, size);
    ClaimedSlot(d, size);
    AllocEffect(d.table, size);
    var t := AllocTable(d.table, size);
    ConfigureSetupRefused(c.dev, g, BarOf(c.handle), size, bufOffset, objectCount, vaStart, a);
    var u := t[g := t[g].(poolStackBase := a.memptr)];
    assert u[g := u[g].(sz128 := 0)] == d.table[g := slot.(poolStackBase := a.memptr)];
  }

  /**
   * The locked part unwinds when the PF refuses the aura attach: errno is
   * -EACCES, the pool is marked free and reset at the PF, its stack is
   * freed and its stack base cleared, and the slot is given back.
   */
  lemma CreateLockedAttachRefused(d: Dev, size: U32, objectCount: U32, bufOffset: bv16, vaStart: U64, a: Answers)
    requires DevOk(d) && FreshAnswers(d, a) && ClaimHolds(d.table, size)
    requires a.memptr != 0 && a.setupStatus >= 0 && a.attachStatus < 0
    ensures var g := AllocResult(d.table);
      CreateLockedStep(d, size, objectCount, bufOffset, vaStart, a)
      == Creation(d.(table := d.table[g := d.table[g].(poolStackBase := 0)],
                     log := d.log + [SetupSent(d.table[g], size, bufOffset, objectCount, a),
                                     AttachSent(g, a), ResetSent(d.table[g], a)],
                     errno := -EACCES), 0, g, AttachFailed)
  {
    var g := AllocResult(d.table);
    var slot := d.table[g];
    var c := ClaimStep(d, size);
    ClaimedSlot(d, size);
    AllocEffect(d.table, size);
    var t := AllocTable(d.table, size);
    ConfigureAttachRefused(c.dev, g, BarOf(c.handle), size, bufOffset, objectCount, vaStart, a);
    var u := t[g := t[g].(poolStackBase := 0)];
    assert u[g := u[g].(sz128 := 0)] == d.table[g := slot.(poolStackBase := 0)];
  }

  /**
   * The exit octeontx_fpa_bufpool_create should take, from the checks in
   * the order it makes them; VfSetupFailed is not among them.
   */
  function ExpectedOutcome(d: Dev, objectSize: U32, vaStart: U64, maxObjSize: U32, a: Answers): Outcome
    requires TableOk(d.table)
  {
    var size := CacheLineRoundup(objectSize);
    if vaStart == 0 then VaNull
    else if size > maxObjSize then TooBig
    else if AllocResult(d.table) == -ENOSPC then NoSlot
    else if !ClaimHolds(d.table, size) then BadHandle
    else if a.memptr == 0 || a.setupStatus < 0 then PoolSetupFailed
    else if a.attachStatus < 0 then AttachFailed
    else Created
  }

  /** The errno each exit of octeontx_fpa_bufpool_create leaves behind. */
  function ExpectedErrno(d: Dev, outcome: Outcome, a: Answers): int
  {
    match outcome
    case VaNull => d.errno
    case TooBig => EINVAL
    case NoSlot => -ENOSPC
    case BadHandle => ENOSPC
    case PoolSetupFailed => if a.memptr == 0 then -ENOMEM else -EACCES
    case AttachFailed => -EACCES
    case VfSetupFailed => -ENODEV
    case Created => d.errno
  }

  /**
   * When no slot is claimed (a NULL area, a size above the maximum, no
   * claimable slot, a handle that does not validate) only errno changes and
   * no handle comes back.
   */
  lemma CreateRejected(d: Dev, objectSize: U32, objectCount: U32, bufOffset: U32, vaStart: U64,
                       maxObjSize: U32, a: Answers)
    requires DevOk(d)
    requires !(Admitted(objectSize, vaStart, maxObjSize) && ClaimHolds(d.table, CacheLineRoundup(objectSize)))
    ensures var r := CreateSpec(d, objectSize, objectCount, bufOffset, vaStart, maxObjSize, a);
      var outcome := ExpectedOutcome(d, objectSize, vaStart, maxObjSize, a);
      r.outcome == outcome && r.handle == 0 && r.dev == d.(errno := ExpectedErrno(d, outcome, a))
  {
    var size := CacheLineRoundup(objectSize);
    if Admitted(objectSize, vaStart, maxObjSize) {
      CreateLockedRejected(d, size, objectCount, ToShort(bufOffset), vaStart, a);
    }
  }

  /** Creation whose stack allocation fails: only errno changes, to -ENOMEM. */
  lemma CreateNoMemory(d: Dev, objectSize: U32, objectCount: U32, bufOffset: U32, vaStart: U64,
                       maxObjSize: U32, a: Answers)
    requires DevOk(d)
    requires Admitted(objectSize, vaStart, maxObjSize) && ClaimHolds(d.table, CacheLineRoundup(objectSize))
    requires a.memptr == 0
    ensures CreateSpec(d, objectSize, objectCount, bufOffset, vaStart, maxObjSize, a)
      == Creation(d.(errno := -ENOMEM), 0, AllocResult(d.table), PoolSetupFailed)
  {
    CreateLockedNoMemory(d, CacheLineRoundup(objectSize), objectCount, ToShort(bufOffset), vaStart, a);
  }

  /**
   * Creation whose pool setup the PF refuses: errno is -EACCES, the slot
   * keeps the stack base of the returned block, and only the refused
   * request was sent.
   */
  lemma CreateSetupRefused(d: Dev, objectSize: U32, objectCount: U32, bufOffset: U32, vaStart: U64,
                           maxObjSize: U32, a: Answers)
    requires DevOk(d)
    requires Admitted(objectSize, vaStart, maxObjSize) && ClaimHolds(d.table, CacheLineRoundup(objectSize))
    requires a.memptr != 0 && a.setupStatus < 0
    ensures var g := AllocResult(d.table);
      CreateSpec(d, objectSize, objectCount, bufOffset, vaStart, maxObjSize, a)
      == Creation(d.(table := d.table[g := d.table[g].(poolStackBase := a.memptr)],
                     log := d.log + [SetupSent(d.table[g], CacheLineRoundup(objectSize), ToShort(bufOffset),
                                               objectCount, a)],
                     errno := -EACCES), 0, g, PoolSetupFailed)
  {
    CreateLockedSetupRefused(d, CacheLineRoundup(objectSize), objectCount, ToShort(bufOffset), vaStart, a);
  }

  /**
   * Creation whose aura attach the PF refuses: errno is -EACCES, the pool
   * is reset at the PF and its stack freed, and the stack base is cleared.
   */
  lemma CreateAttachRefused(d: Dev, objectSize: U32, objectCount: U32, bufOffset: U32, vaStart: U64,
                            maxObjSize: U32, a: Answers)
    requires DevOk(d) && FreshAnswers(d, a)
    requires Admitted(objectSize, vaStart, maxObjSize) && ClaimHolds(d.table, CacheLineRoundup(objectSize))
    requires a.memptr != 0 && a.setupStatus >= 0 && a.attachStatus < 0
    ensures var g := AllocResult(d.table);
      CreateSpec(d, objectSize, objectCount, bufOffset, vaStart, maxObjSize, a)
      == Creation(d.(table := d.table[g := d.table[g].(poolStackBase := 0)],
                     log := d.log + [SetupSent(d.table[g], CacheLineRoundup(objectSize), ToShort(bufOffset),
                                               objectCount, a),
                                     AttachSent(g, a), ResetSent(d.table[g], a)],
                     errno := -EACCES), 0, g, AttachFailed)
  {
    CreateLockedAttachRefused(d, CacheLineRoundup(objectSize), objectCount, ToShort(bufOffset), vaStart, a);
  }

  /**
   * When a slot is claimed but a configuration stage is refused, the
   * creation unwinds: no handle, the expected errno, the heap and the
   * registers as they were, and the slot as before but for its stack base.
   */
  lemma CreateUnwound(d: Dev, objectSize: U32, objectCount: U32, bufOffset: U32, vaStart: U64,
                      maxObjSize: U32, a: Answers)
    requires DevOk(d) && FreshAnswers(d, a)
    requires Admitted(objectSize, vaStart, maxObjSize) && ClaimHolds(d.table, CacheLineRoundup(objectSize))
    requires !(a.memptr != 0 && a.setupStatus >= 0 && a.attachStatus >= 0)
    ensures var r := CreateSpec(d, objectSize, objectCount, bufOffset, vaStart, maxObjSize, a);
      var outcome := ExpectedOutcome(d, objectSize, vaStart, maxObjSize, a);
      r.outcome == outcome && r.handle == 0 && r.gpool == AllocResult(d.table)
      && r.dev.errno == ExpectedErrno(d, outcome, a)
      && r.dev.live == d.live && r.dev.regs == d.regs && RolledBack(r.dev.table, d.table, r.gpool)
  {
    var g := AllocResult(d.table);
    var expected := ExpectedOutcome(d, objectSize, vaStart, maxObjSize, a);
    ClaimedSlot(d, CacheLineRoundup(objectSize));
    if a.memptr == 0 {
      assert expected == PoolSetupFailed && ExpectedErrno(d, expected, a) == -ENOMEM;
      CreateNoMemory(d, objectSize, objectCount, bufOffset, vaStart, maxObjSize, a);
      StackBaseRolledBack(d.table, g, d.table[g].poolStackBase);
    } else if a.setupStatus < 0 {
      assert expected == PoolSetupFailed && ExpectedErrno(d, expected, a) == -EACCES;
      CreateSetupRefused(d, objectSize, objectCount, bufOffset, vaStart, maxObjSize, a);
      StackBaseRolledBack(d.table, g, a.memptr);
    } else {
      assert expected == AttachFailed && ExpectedErrno(d, expected, a) == -EACCES;
      CreateAttachRefused(d, objectSize, objectCount, bufOffset, vaStart, maxObjSize, a);
      StackBaseRolledBack(d.table, g, 0);
    }
  }

  /**
   * What an unwound creation leaves in the claimed slot and the mailbox:
   * without a stack block nothing but errno changed; a refused pool setup
   * leaves the stack base naming the block the heap got back, with only
   * that request sent; an attach failure resets the pool at the PF after
   * the attach request and clears the stack base.
   */
  lemma CreateUnwindTrace(d: Dev, objectSize: U32, objectCount: U32, bufOffset: U32, vaStart: U64,
                          maxObjSize: U32, a: Answers)
    requires DevOk(d) && FreshAnswers(d, a)
    requires Admitted(objectSize, vaStart, maxObjSize) && ClaimHolds(d.table, CacheLineRoundup(objectSize))
    requires !(a.memptr != 0 && a.setupStatus >= 0 && a.attachStatus >= 0)
    ensures var r := CreateSpec(d, objectSize, objectCount, bufOffset, vaStart, maxObjSize, a);
      var g := AllocResult(d.table);
      var slot := d.table[g];
      var size := CacheLineRoundup(objectSize);
      (a.memptr == 0 ==> r.dev == d.(errno := -ENOMEM))
      && (a.memptr != 0 && a.setupStatus < 0 ==>
            r.dev.table[g].poolStackBase == a.memptr && a.memptr !in r.dev.live
            && r.dev.log == d.log + [SetupSent(slot, size, ToShort(bufOffset), objectCount, a)])
      && (a.memptr != 0 && a.setupStatus >= 0 ==>
            r.dev.table[g].poolStackBase == 0
            && r.dev.log == d.log + [SetupSent(slot, size, ToShort(bufOffset), objectCount, a),
                                     AttachSent(g, a), ResetSent(slot, a)])
  {
    if a.memptr == 0 {
      CreateNoMemory(d, objectSize, objectCount, bufOffset, vaStart, maxObjSize, a);
    } else if a.setupStatus < 0 {
      CreateSetupRefused(d, objectSize, objectCount, bufOffset, vaStart, maxObjSize, a);
    } else {
      CreateAttachRefused(d, objectSize, objectCount, bufOffset, vaStart, maxObjSize, a);
    }
  }

  /**
   * The VF registers of a created pool: the buffer area [vaStart, va_end]
   * of the pool, and an aura count and limit of `objectCount` with the
   * threshold one above.
   */
  function CreatedRegs(regs: map<RegKey, U64>, bar: Ptr, gpool: int, vaStart: U64, memsz: U64,
                       objectCount: U32): map<RegKey, U64>
  {
    regs[(bar, VhpoolStartAddr, gpool) := vaStart]
        [(bar, VhpoolEndAddr, gpool) := VaEnd(vaStart, memsz)]
        [(bar, VhauraCnt, gpool) := objectCount]
        [(bar, VhauraCntLimit, gpool) := objectCount]
        [(bar, VhauraCntThreshold, gpool) := Wrap32(objectCount + 1)]
  }

  /**
   * When a slot is claimed and every stage is accepted, the pool is
   * created: the slot has the size class, the stack and is in use, the
   * stack is handed out, the registers are programmed, the three requests
   * were sent, and errno is untouched.
   */
  lemma CreateCreated(d: Dev, objectSize: U32, objectCount: U32, bufOffset: U32, vaStart: U64,
                      maxObjSize: U32, a: Answers)
    requires DevOk(d)
    requires Admitted(objectSize, vaStart, maxObjSize) && ClaimHolds(d.table, CacheLineRoundup(objectSize))
    requires a.memptr != 0 && a.setupStatus >= 0 && a.attachStatus >= 0
    ensures var r := CreateSpec(d, objectSize, objectCount, bufOffset, vaStart, maxObjSize, a);
      var size := CacheLineRoundup(objectSize);
      var g := AllocResult(d.table);
      var slot := d.table[g];
      r.outcome == Created && r.gpool == g && r.handle == MakeHandle(slot.bar0, g)
      && r.dev == Dev(d.table[g := slot.(sz128 := SizeClass(size), poolStackBase := a.memptr, isInuse := true)],
                      d.live + {a.memptr},
                      CreatedRegs(d.regs, slot.bar0, g, vaStart, VfMemSize(size, objectCount), objectCount),
                      d.log + [SetupSent(slot, size, ToShort(bufOffset), objectCount, a), AttachSent(g, a),
                               CountSent(g, a)],
                      d.errno)
  {
    var size := CacheLineRoundup(objectSize);
    CreateLockedCreated(d, size, objectCount, ToShort(bufOffset), vaStart, a);
  }

  /** The exit path of a creation that claims no slot. */
  lemma RejectedExit(d: Dev, objectSize: U32, objectCount: U32, bufOffset: U32, vaStart: U64,
                       maxObjSize: U32, a: Answers)
    requires DevOk(d)
    requires !(Admitted(objectSize, vaStart, maxObjSize) && ClaimHolds(d.table, CacheLineRoundup(objectSize)))
    ensures var r := CreateSpec(d, objectSize, objectCount, bufOffset, vaStart, maxObjSize, a);
      r.outcome == ExpectedOutcome(d, objectSize, vaStart, maxObjSize, a)
      && r.dev.errno == ExpectedErrno(d, r.outcome, a)
      && (r.handle != 0 <==> r.outcome == Created)
    ensures CreateSpec(d, objectSize, objectCount, bufOffset, vaStart, maxObjSize, a).outcome != VfSetupFailed
  {
    var size := CacheLineRoundup(objectSize);
    var r := CreateSpec(d, objectSize, objectCount, bufOffset, vaStart, maxObjSize, a);
    var expected := ExpectedOutcome(d, objectSize, vaStart, maxObjSize, a);
    CreateRejected(d, objectSize, objectCount, bufOffset, vaStart, maxObjSize, a);
    assert r.outcome == expected && r.handle == 0;
    assert r.dev.errno == ExpectedErrno(d, r.outcome, a);
  }

  /** A creation whose every stage is accepted returns a handle and leaves errno alone. */
  lemma CreatedPath(d: Dev, objectSize: U32, objectCount: U32, bufOffset: U32, vaStart: U64,
                    maxObjSize: U32, a: Answers)
    requires DevOk(d)
    requires Admitted(objectSize, vaStart, maxObjSize) && ClaimHolds(d.table, CacheLineRoundup(objectSize))
    requires a.memptr != 0 && a.setupStatus >= 0 && a.attachStatus >= 0
    ensures var r := CreateSpec(d, objectSize, objectCount, bufOffset, vaStart, maxObjSize, a);
      r.outcome == Created && r.handle != 0 && r.dev.errno == d.errno
  {
    CreateCreated(d, objectSize, objectCount, bufOffset, vaStart, maxObjSize, a);
    ClaimedSlot(d, CacheLineRoundup(objectSize));
  }

  /** Every check passes, so the expected exit is success and errno is kept. */
  lemma ExpectedCreated(d: Dev, objectSize: U32, vaStart: U64, maxObjSize: U32, a: Answers)
    requires TableOk(d.table)
    requires Admitted(objectSize, vaStart, maxObjSize) && ClaimHolds(d.table, CacheLineRoundup(objectSize))
    requires a.memptr != 0 && a.setupStatus >= 0 && a.attachStatus >= 0
    ensures ExpectedOutcome(d, objectSize, vaStart, maxObjSize, a) == Created
    ensures ExpectedErrno(d, Created, a) == d.errno
  {
  }

  /** The exit path of a creation whose every stage is accepted. */
  lemma CreatedExit(d: Dev, objectSize: U32, objectCount: U32, bufOffset: U32, vaStart: U64,
                       maxObjSize: U32, a: Answers)
    requires DevOk(d)
    requires Admitted(objectSize, vaStart, maxObjSize) && ClaimHolds(d.table, CacheLineRoundup(objectSize))
    requires a.memptr != 0 && a.setupStatus >= 0 && a.attachStatus >= 0
    ensures var r := CreateSpec(d, objectSize, objectCount, bufOffset, vaStart, maxObjSize, a);
      r.outcome == ExpectedOutcome(d, objectSize, vaStart, maxObjSize, a)
      && r.dev.errno == ExpectedErrno(d, r.outcome, a)
      && (r.handle != 0 <==> r.outcome == Created)
    ensures CreateSpec(d, objectSize, objectCount, bufOffset, vaStart, maxObjSize, a).outcome != VfSetupFailed
  {
    var size := CacheLineRoundup(objectSize);
    var r := CreateSpec(d, objectSize, objectCount, bufOffset, vaStart, maxObjSize, a);
    var expected := ExpectedOutcome(d, objectSize, vaStart, maxObjSize, a);
    CreatedPath(d, objectSize, objectCount, bufOffset, vaStart, maxObjSize, a);
    ExpectedCreated(d, objectSize, vaStart, maxObjSize, a);
  }

  /** The exit path of a creation that a stage refuses. */
  lemma UnwoundExit(d: Dev, objectSize: U32, objectCount: U32, bufOffset: U32, vaStart: U64,
                       maxObjSize: U32, a: Answers)
    requires DevOk(d) && FreshAnswers(d, a)
    requires Admitted(objectSize, vaStart, maxObjSize) && ClaimHolds(d.table, CacheLineRoundup(objectSize))
    requires !(a.memptr != 0 && a.setupStatus >= 0 && a.attachStatus >= 0)
    ensures var r := CreateSpec(d, objectSize, objectCount, bufOffset, vaStart, maxObjSize, a);
      r.outcome == ExpectedOutcome(d, objectSize, vaStart, maxObjSize, a)
      && r.dev.errno == ExpectedErrno(d, r.outcome, a)
      && (r.handle != 0 <==> r.outcome == Created)
    ensures CreateSpec(d, objectSize, objectCount, bufOffset, vaStart, maxObjSize, a).outcome != VfSetupFailed
  {
    var size := CacheLineRoundup(objectSize);
    var r := CreateSpec(d, objectSize, objectCount, bufOffset, vaStart, maxObjSize, a);
    var expected := ExpectedOutcome(d, objectSize, vaStart, maxObjSize, a);
    CreateUnwound(d, objectSize, objectCount, bufOffset, vaStart, maxObjSize, a);
    assert r.outcome == expected && r.handle == 0 && expected != Created;
    assert r.dev.errno == ExpectedErrno(d, r.outcome, a);
  }

  /**
   * octeontx_fpa_bufpool_create takes the expected exit and leaves the
   * expected errno, and a handle comes back exactly when the pool was
   * created. In particular the VF pool setup never fails.
   */
  lemma CreateOutcomes(d: Dev, objectSize: U32, objectCount: U32, bufOffset: U32, vaStart: U64,
                       maxObjSize: U32, a: Answers)
    requires DevOk(d) && FreshAnswers(d, a)
    ensures var r := CreateSpec(d, objectSize, objectCount, bufOffset, vaStart, maxObjSize, a);
      r.outcome == ExpectedOutcome(d, objectSize, vaStart, maxObjSize, a)
      && r.dev.errno == ExpectedErrno(d, r.outcome, a)
      && (r.handle != 0 <==> r.outcome == Created)
    ensures CreateSpec(d, objectSize, objectCount, bufOffset, vaStart, maxObjSize, a).outcome != VfSetupFailed
  {
    if !(Admitted(objectSize, vaStart, maxObjSize) && ClaimHolds(d.table, CacheLineRoundup(objectSize))) {
      RejectedExit(d, objectSize, objectCount, bufOffset, vaStart, maxObjSize, a);
    } else if a.memptr != 0 && a.setupStatus >= 0 && a.attachStatus >= 0 {
      CreatedExit(d, objectSize, objectCount, bufOffset, vaStart, maxObjSize, a);
    } else {
      UnwoundExit(d, objectSize, objectCount, bufOffset, vaStart, maxObjSize, a);
    }
  }

  /**
   * A creation that fails returns no handle and leaks nothing: the heap and
   * the registers are as they were, every handle is exactly as valid as
   * before, and the table is as it was, except that once a slot was claimed
   * its stack base may differ; the slot is again without a block size and
   * not in use.
   */
  lemma CreateFailsCleanly(d: Dev, objectSize: U32, objectCount: U32, bufOffset: U32, vaStart: U64,
                           maxObjSize: U32, a: Answers)
    requires DevOk(d) && FreshAnswers(d, a)
    requires CreateSpec(d, objectSize, objectCount, bufOffset, vaStart, maxObjSize, a).outcome != Created
    ensures var r := CreateSpec(d, objectSize, objectCount, bufOffset, vaStart, maxObjSize, a);
      r.handle == 0 && r.dev.live == d.live && r.dev.regs == d.regs
      && (forall h :: HandleValidSpec(r.dev.table, h) == HandleValidSpec(d.table, h))
    ensures var r := CreateSpec(d, objectSize, objectCount, bufOffset, vaStart, maxObjSize, a);
      AllocResult(r.dev.table) == AllocResult(d.table)
    ensures var r := CreateSpec(d, objectSize, objectCount, bufOffset, vaStart, maxObjSize, a);
      (r.outcome in {VaNull, TooBig, NoSlot, BadHandle} ==> r.dev.table == d.table && r.dev.log == d.log)
      && (r.outcome in {PoolSetupFailed, AttachFailed} ==>
            RolledBack(r.dev.table, d.table, r.gpool)
            && r.dev.table[r.gpool].sz128 == 0 && !r.dev.table[r.gpool].isInuse)
  {
    var r := CreateSpec(d, objectSize, objectCount, bufOffset, vaStart, maxObjSize, a);
    var size := CacheLineRoundup(objectSize);
    if !(Admitted(objectSize, vaStart, maxObjSize) && ClaimHolds(d.table, size)) {
      CreateRejected(d, objectSize, objectCount, bufOffset, vaStart, maxObjSize, a);
      assert r.dev.table == d.table && r.dev.log == d.log;
    } else if a.memptr != 0 && a.setupStatus >= 0 && a.attachStatus >= 0 {
      CreateCreated(d, objectSize, objectCount, bufOffset, vaStart, maxObjSize, a);
    } else {
      CreateUnwound(d, objectSize, objectCount, bufOffset, vaStart, maxObjSize, a);
      ClaimedSlot(d, size);
      assert r.outcome == PoolSetupFailed || r.outcome == AttachFailed;
      RolledBackUnchanged(r.dev.table, d.table, r.gpool);
    }
  }

  /**
   * A creation that succeeds claimed the first claimable slot: the handle
   * validates and reports the rounded object size as block size, the slot
   * has its size class, stack and is in use, the fresh stack is handed out,
   * the VF registers are programmed for the area and the object count, the
   * pool setup, aura attach and start-count requests were sent in that
   * order, and errno is untouched.
   */
  lemma CreateSucceeds(d: Dev, objectSize: U32, objectCount: U32, bufOffset: U32, vaStart: U64,
                       maxObjSize: U32, a: Answers)
    requires DevOk(d) && FreshAnswers(d, a)
    requires CreateSpec(d, objectSize, objectCount, bufOffset, vaStart, maxObjSize, a).outcome == Created
    ensures var r := CreateSpec(d, objectSize, objectCount, bufOffset, vaStart, maxObjSize, a);
      var size := CacheLineRoundup(objectSize);
      Admitted(objectSize, vaStart, maxObjSize) && r.gpool == AllocResult(d.table) && 0 <= r.gpool < FPA_VF_MAX
      && HandleValidSpec(r.dev.table, r.handle) && GpoolOf(r.handle) == r.gpool
      && BlockSizeSpec(r.dev.table, r.handle) == CacheLinesToObjSize(SizeClass(size))
      && (objectSize <= 0x7F_FF80 ==> BlockSizeSpec(r.dev.table, r.handle) == size)
      && CreatedTable(r.dev.table, d.table, r.gpool, size) && r.dev.table[r.gpool].poolStackBase == a.memptr
      && a.memptr != 0 && a.memptr !in d.live && r.dev.live == d.live + {a.memptr}
      && r.dev.errno == d.errno
    ensures var r := CreateSpec(d, objectSize, objectCount, bufOffset, vaStart, maxObjSize, a);
      var size := CacheLineRoundup(objectSize);
      var g := r.gpool;
      0 <= g < FPA_VF_MAX
      && r.dev.regs == CreatedRegs(d.regs, BarOf(r.handle), g, vaStart, VfMemSize(size, objectCount), objectCount)
      && r.dev.log == d.log + [SetupSent(d.table[g], size, ToShort(bufOffset), objectCount, a),
                               AttachSent(g, a), CountSent(g, a)]
  {
    var size := CacheLineRoundup(objectSize);
    CreateOutcomes(d, objectSize, objectCount, bufOffset, vaStart, maxObjSize, a);
    CreateCreated(d, objectSize, objectCount, bufOffset, vaStart, maxObjSize, a);
    ClaimedSlot(d, size);
    var r := CreateSpec(d, objectSize, objectCount, bufOffset, vaStart, maxObjSize, a);
    CreatedHandle(r.dev.table, d.table, size, r.handle);
    if objectSize <= 0x7F_FF80 {
      BlockSizeRoundTrip(objectSize);
    }
  }
}

/**
 * What the loops over `fpadev.pool[]` compute, stated on the sequence of
 * slots: first-fit allocation, handle validation, the one-time reset and
 * the registration of an identified VF, with the properties they promise.
 */
module FpaTable {
  import opened FpaTypes
  import opened FpaArith

  // ---------------------------------------------------------------------------
  // First-fit allocation (octeontx_fpa_gpool_alloc)
  // ---------------------------------------------------------------------------

  /** A slot's window has its gpool bits clear; a slot without a window has no block size. */
  predicate SlotOk(r: FpavfRes)
  {
    r.bar0 & FPA_GPOOL_MASK == 0 && (r.bar0 == NULL ==> r.sz128 == 0)
  }

  /** The table has FPA_VF_MAX slots, each of them well formed. */
  predicate TableOk(s: seq<FpavfRes>)
  {
    |s| == FPA_VF_MAX && forall j :: 0 <= j < |s| ==> SlotOk(s[j])
  }

  /** A slot the allocator may claim: mapped, not in use, no block size yet. */
  predicate Claimable(r: FpavfRes)
  {
    r.bar0 != NULL && !r.isInuse && r.sz128 == 0
  }

  /** The lowest claimable index at or after `from`, or -1 when there is none. */
  function FirstClaimable(s: seq<FpavfRes>, from: nat): (i: int)
    requires from <= |s|
    ensures i == -1 || from <= i < |s|
    ensures i >= 0 ==> Claimable(s[i])
    ensures forall j :: from <= j < |s| && (i == -1 || j < i) ==> !Claimable(s[j])
    decreases |s| - from
  {
    if from == |s| then -1
    else if Claimable(s[from]) then from
    else FirstClaimable(s, from + 1)
  }

  /**
   * The return value of octeontx_fpa_gpool_alloc: the lowest claimable
   * index, or -ENOSPC exactly when no slot is claimable.
   */
  function AllocResult(s: seq<FpavfRes>): (r: int)
    ensures r == -ENOSPC <==> forall j :: 0 <= j < |s| ==> !Claimable(s[j])
    ensures r != -ENOSPC ==> 0 <= r < |s| && Claimable(s[r])
    ensures r != -ENOSPC ==> forall j :: 0 <= j < r ==> !Claimable(s[j])
  {
    var i := FirstClaimable(s, 0);
    if i < 0 then -ENOSPC else i
  }

  /** The table after octeontx_fpa_gpool_alloc: the claimed slot gets the size class. */
  function AllocTable(s: seq<FpavfRes>, objectSize: U32): (t: seq<FpavfRes>)
    ensures |t| == |s|
  {
    var i := FirstClaimable(s, 0);
    if i < 0 then s else s[i := s[i].(sz128 := SizeClass(objectSize))]
  }

  /**
   * Allocation writes the object's size class into the claimed slot and
   * changes nothing else; a failed allocation changes nothing at all.
   */
  lemma AllocEffect(s: seq<FpavfRes>, objectSize: U32)
    ensures |AllocTable(s, objectSize)| == |s|
    ensures AllocResult(s) == -ENOSPC ==> AllocTable(s, objectSize) == s
    ensures AllocResult(s) != -ENOSPC ==>
      AllocTable(s, objectSize)[AllocResult(s)] == s[AllocResult(s)].(sz128 := SizeClass(objectSize))
    ensures forall j :: 0 <= j < |s| && j != AllocResult(s) ==> AllocTable(s, objectSize)[j] == s[j]
  {
  }

  /** The number of claimable slots. */
  function CountClaimable(s: seq<FpavfRes>): (n: nat)
    ensures n <= |s|
  {
    if s == [] then 0 else (if Claimable(s[0]) then 1 else 0) + CountClaimable(s[1..])
  }

  lemma {:induction false} CountZero(s: seq<FpavfRes>)
    ensures CountClaimable(s) == 0 <==> forall j :: 0 <= j < |s| ==> !Claimable(s[j])
  {
    if s != [] {
      CountZero(s[1..]);
      assert forall j :: 1 <= j < |s| ==> s[j] == s[1..][j - 1];
    }
  }

  lemma {:induction false} CountUpdate(s: seq<FpavfRes>, i: nat, r: FpavfRes)
    requires i < |s|
    ensures CountClaimable(s[i := r]) ==
      CountClaimable(s) - (if Claimable(s[i]) then 1 else 0) + (if Claimable(r) then 1 else 0)
  {
    if i == 0 {
      assert s[i := r][1..] == s[1..];
    } else {
      CountUpdate(s[1..], i - 1, r);
      assert s[i := r][1..] == s[1..][i - 1 := r];
    }
  }

  /**
   * A successful allocation of a non-zero size uses up exactly one
   * claimable slot.
   */
  lemma AllocDecrements(s: seq<FpavfRes>, objectSize: U32)
    requires SizeClass(objectSize) != 0
    requires AllocResult(s) != -ENOSPC
    ensures CountClaimable(AllocTable(s, objectSize)) == CountClaimable(s) - 1
  {
    var i := AllocResult(s);
    CountUpdate(s, i, s[i].(sz128 := SizeClass(objectSize)));
  }

  /** `n` allocations in a row of the same size. */
  function AllocN(s: seq<FpavfRes>, objectSize: U32, n: nat): seq<FpavfRes>
    decreases n
  {
    if n == 0 then s else AllocN(AllocTable(s, objectSize), objectSize, n - 1)
  }

  /**
   * With `k` claimable slots, the first `k` allocations of a non-zero size
   * succeed and the next one reports -ENOSPC.
   */
  lemma {:induction false} Exhaustion(s: seq<FpavfRes>, objectSize: U32, n: nat)
    requires SizeClass(objectSize) != 0
    requires n <= CountClaimable(s)
    ensures CountClaimable(AllocN(s, objectSize, n)) == CountClaimable(s) - n
    ensures n < CountClaimable(s) ==> AllocResult(AllocN(s, objectSize, n)) != -ENOSPC
    ensures n == CountClaimable(s) ==> AllocResult(AllocN(s, objectSize, n)) == -ENOSPC
    decreases n
  {
    CountZero(AllocN(s, objectSize, n));
    if n > 0 {
      CountZero(s);
      var t := AllocTable(s, objectSize);
      assert AllocN(s, objectSize, n) == AllocN(t, objectSize, n - 1);
      AllocDecrements(s, objectSize);
      Exhaustion(t, objectSize, n - 1);
    }
  }

  /** Two successive allocations of a non-zero size claim increasing indices. */
  lemma AllocIncreasing(s: seq<FpavfRes>, objectSize: U32)
    requires SizeClass(objectSize) != 0
    requires AllocResult(s) != -ENOSPC
    requires AllocResult(AllocTable(s, objectSize)) != -ENOSPC
    ensures AllocResult(s) < AllocResult(AllocTable(s, objectSize))
  {
    var i := AllocResult(s);
    var t := AllocTable(s, objectSize);
    var k := AllocResult(t);
    assert !Claimable(t[i]);
    assert k != i;
    assert t[k] == s[k];
  }

  // ---------------------------------------------------------------------------
  // Handle validation (octeontx_fpa_handle_valid)
  // ---------------------------------------------------------------------------

  /** The lowest index at or after `from` whose window is `bar`, or -1. */
  function FirstWithBar(s: seq<FpavfRes>, bar: Ptr, from: nat): (i: int)
    requires from <= |s|
    ensures i == -1 || from <= i < |s|
    ensures i >= 0 ==> s[i].bar0 == bar
    ensures forall j :: from <= j < |s| && (i == -1 || j < i) ==> s[j].bar0 != bar
    decreases |s| - from
  {
    if from == |s| then -1
    else if s[from].bar0 == bar then from
    else FirstWithBar(s, bar, from + 1)
  }

  /** A slot that backs a usable pool: sized, with a domain and a stack unit. */
  predicate Usable(r: FpavfRes)
  {
    r.sz128 != 0 && r.domainId != DOMAIN_NONE && r.stackLnPtr != 0
  }

  /**
   * The slot test of octeontx_fpa_handle_valid for window `bar` and index
   * `gpool`: the first slot with that window is the one named, and usable.
   */
  predicate ValidAt(s: seq<FpavfRes>, bar: Ptr, gpool: int)
  {
    var i := FirstWithBar(s, bar, 0);
    i >= 0 && i == gpool && Usable(s[i])
  }

  /** octeontx_fpa_handle_valid. */
  predicate HandleValidSpec(s: seq<FpavfRes>, handle: Ptr)
  {
    handle != 0 && ValidAt(s, BarOf(handle), GpoolOf(handle))
  }

  /** The slot test holds exactly of a usable first slot with the window. */
  lemma ValidAtIff(s: seq<FpavfRes>, bar: Ptr, gpool: int)
    ensures ValidAt(s, bar, gpool) <==>
      0 <= gpool < |s| && s[gpool].bar0 == bar && Usable(s[gpool])
      && (forall k :: 0 <= k < gpool ==> s[k].bar0 != bar)
  {
    if 0 <= gpool < |s| && s[gpool].bar0 == bar && (forall k :: 0 <= k < gpool ==> s[k].bar0 != bar) {
      assert FirstWithBar(s, bar, 0) == gpool;
    }
  }

  /**
   * Validation accepts exactly the non-zero handles that name a usable
   * slot whose window is the handle's and no lower slot shares.
   */
  lemma HandleValidIff(s: seq<FpavfRes>, handle: Ptr)
    ensures HandleValidSpec(s, handle) ==>
      handle != 0 && GpoolOf(handle) < |s| && s[GpoolOf(handle)].bar0 == BarOf(handle)
      && Usable(s[GpoolOf(handle)])
      && (forall k :: 0 <= k < GpoolOf(handle) ==> s[k].bar0 != BarOf(handle))
    ensures (handle != 0 && GpoolOf(handle) < |s| && s[GpoolOf(handle)].bar0 == BarOf(handle)
      && Usable(s[GpoolOf(handle)])
      && (forall k :: 0 <= k < GpoolOf(handle) ==> s[k].bar0 != BarOf(handle))) ==>
      HandleValidSpec(s, handle)
  {
    var bar, g := BarOf(handle), GpoolOf(handle);
    ValidAtIff(s, bar, g);
  }

  /**
   * The slot test fails when no slot has the window, and when the first
   * slot that has it is not the one named.
   */
  lemma ValidAtRejects(s: seq<FpavfRes>, bar: Ptr, gpool: int)
    ensures (forall j :: 0 <= j < |s| ==> s[j].bar0 != bar) ==> !ValidAt(s, bar, gpool)
    ensures forall j :: (0 <= j < |s| && s[j].bar0 == bar && j != gpool
      && (forall k :: 0 <= k < j ==> s[k].bar0 != bar)) ==> !ValidAt(s, bar, gpool)
  {
    forall j | 0 <= j < |s| && s[j].bar0 == bar && j != gpool && (forall k :: 0 <= k < j ==> s[k].bar0 != bar)
      ensures !ValidAt(s, bar, gpool)
    {
      assert FirstWithBar(s, bar, 0) == j;
    }
  }

  /**
   * The cases of validation: handle 0; no slot with the window; a first
   * match at another index than the handle names (a forged index); and
   * otherwise the usability of the matched slot.
   */
  lemma HandleValidCases(s: seq<FpavfRes>, handle: Ptr)
    ensures handle == 0 ==> !HandleValidSpec(s, handle)
    ensures (forall j :: 0 <= j < |s| ==> s[j].bar0 != BarOf(handle)) ==> !HandleValidSpec(s, handle)
    ensures forall j ::
      (0 <= j < |s| && s[j].bar0 == BarOf(handle) && j != GpoolOf(handle)
       && (forall k :: 0 <= k < j ==> s[k].bar0 != BarOf(handle))) ==> !HandleValidSpec(s, handle)
    ensures (handle != 0 && GpoolOf(handle) < |s| && s[GpoolOf(handle)].bar0 == BarOf(handle)
      && (forall k :: 0 <= k < GpoolOf(handle) ==> s[k].bar0 != BarOf(handle))) ==>
      (HandleValidSpec(s, handle) <==> Usable(s[GpoolOf(handle)]))
  {
    var bar, g := BarOf(handle), GpoolOf(handle);
    ValidAtIff(s, bar, g);
    ValidAtRejects(s, bar, g);
  }

  /** A slot that was never mapped can never be named by a valid handle. */
  lemma NullWindowRejected(s: seq<FpavfRes>, handle: Ptr)
    requires forall j :: 0 <= j < |s| && s[j].bar0 == NULL ==> s[j].sz128 == 0
    requires BarOf(handle) == NULL
    ensures !HandleValidSpec(s, handle)
  {
  }

  /**
   * The handle of a usable slot with an aligned window that no lower slot
   * shares is valid, and no other gpool index with that window is.
   */
  lemma OwnHandleValid(s: seq<FpavfRes>, i: int)
    requires 0 <= i < |s| && i < FPA_VF_MAX
    requires s[i].bar0 != NULL && s[i].bar0 & FPA_GPOOL_MASK == 0
    requires Usable(s[i])
    requires forall k :: 0 <= k < i ==> s[k].bar0 != s[i].bar0
    ensures HandleValidSpec(s, MakeHandle(s[i].bar0, i))
    ensures forall j :: 0 <= j < FPA_VF_MAX && j != i ==> !HandleValidSpec(s, MakeHandle(s[i].bar0, j))
  {
    HandleNonNull(s[i].bar0, i);
    HandleGpoolRoundTrip(s[i].bar0, i);
    HandleBarRoundTrip(s[i].bar0, i);
    HandleValidIff(s, MakeHandle(s[i].bar0, i));
    forall j | 0 <= j < FPA_VF_MAX && j != i
      ensures !HandleValidSpec(s, MakeHandle(s[i].bar0, j))
    {
      HandleGpoolRoundTrip(s[i].bar0, j);
      HandleBarRoundTrip(s[i].bar0, j);
      HandleValidIff(s, MakeHandle(s[i].bar0, j));
    }
  }

  /** The fields validation looks at. */
  predicate SameIdentity(a: FpavfRes, b: FpavfRes)
  {
    a.bar0 == b.bar0 && a.sz128 == b.sz128 && a.domainId == b.domainId && a.stackLnPtr == b.stackLnPtr
  }

  lemma {:induction false} FirstWithBarFrame(s: seq<FpavfRes>, t: seq<FpavfRes>, bar: Ptr, from: nat)
    requires |s| == |t| && from <= |s|
    requires forall j :: 0 <= j < |s| ==> s[j].bar0 == t[j].bar0
    ensures FirstWithBar(s, bar, from) == FirstWithBar(t, bar, from)
    decreases |s| - from
  {
    if from < |s| {
      FirstWithBarFrame(s, t, bar, from + 1);
    }
  }

  /**
   * Validation depends only on the window, size, domain and stack unit
   * of the slots: the stack base and the in-use flag do not matter.
   */
  lemma HandleValidFrame(s: seq<FpavfRes>, t: seq<FpavfRes>, handle: Ptr)
    requires |s| == |t|
    requires forall j :: 0 <= j < |s| ==> SameIdentity(s[j], t[j])
    ensures HandleValidSpec(s, handle) == HandleValidSpec(t, handle)
  {
    ValidAtFrame(s, t, BarOf(handle), GpoolOf(handle));
  }

  lemma ValidAtFrame(s: seq<FpavfRes>, t: seq<FpavfRes>, bar: Ptr, gpool: int)
    requires |s| == |t|
    requires forall j :: 0 <= j < |s| ==> SameIdentity(s[j], t[j])
    ensures ValidAt(s, bar, gpool) == ValidAt(t, bar, gpool)
  {
    FirstWithBarFrame(s, t, bar, 0);
    var i := FirstWithBar(s, bar, 0);
    if 0 <= i {
      assert SameIdentity(s[i], t[i]);
    }
  }

  /** octeontx_fpa_bufpool_block_size: -EINVAL, or the slot's size in bytes. */
  function BlockSizeSpec(s: seq<FpavfRes>, handle: Ptr): (r: int)
    ensures r == -EINVAL <==> !HandleValidSpec(s, handle)
    ensures r != -EINVAL ==> r > 0 && r % 128 == 0
  {
    if !HandleValidSpec(s, handle) then -EINVAL
    else CacheLinesToObjSize(s[GpoolOf(handle)].sz128)
  }

  /**
   * The table `s` after an unwound create, compared with the table `t`
   * before it: every slot is as it was, except that the stack base of the
   * claimed slot `gpool` may have changed.
   */
  predicate RolledBack(s: seq<FpavfRes>, t: seq<FpavfRes>, gpool: int)
  {
    |s| == |t| && 0 <= gpool < |s|
    && s[gpool] == t[gpool].(poolStackBase := s[gpool].poolStackBase)
    && forall j :: 0 <= j < |s| && j != gpool ==> s[j] == t[j]
  }

  /** Changing only the stack base of one slot is a rollback of that slot. */
  lemma StackBaseRolledBack(t: seq<FpavfRes>, gpool: int, base: U64)
    requires 0 <= gpool < |t|
    ensures RolledBack(t[gpool := t[gpool].(poolStackBase := base)], t, gpool)
    ensures base == t[gpool].poolStackBase ==> t[gpool := t[gpool].(poolStackBase := base)] == t
  {
  }

  /** An unwound create leaves every handle as valid or invalid as it was. */
  lemma RolledBackHandles(s: seq<FpavfRes>, t: seq<FpavfRes>, gpool: int, handle: Ptr)
    requires RolledBack(s, t, gpool)
    ensures HandleValidSpec(s, handle) == HandleValidSpec(t, handle)
  {
    assert forall j :: 0 <= j < |s| ==> SameIdentity(s[j], t[j]);
    HandleValidFrame(s, t, handle);
  }

  /**
   * An unwound create leaves the same slots claimable, so the next
   * allocation picks the same slot, and every handle as valid as it was.
   */
  lemma RolledBackUnchanged(s: seq<FpavfRes>, t: seq<FpavfRes>, gpool: int)
    requires RolledBack(s, t, gpool)
    ensures AllocResult(s) == AllocResult(t)
    ensures forall h :: HandleValidSpec(s, h) == HandleValidSpec(t, h)
  {
    assert forall j :: 0 <= j < |s| ==> Claimable(s[j]) == Claimable(t[j]);
    forall h ensures HandleValidSpec(s, h) == HandleValidSpec(t, h) {
      RolledBackHandles(s, t, gpool, h);
    }
  }

  /**
   * The table `s` after a successful create that claimed slot `gpool` of
   * `s0` for objects of `size` bytes: the slot has the size class, a stack
   * and is in use; nothing else changed.
   */
  predicate CreatedTable(s: seq<FpavfRes>, s0: seq<FpavfRes>, gpool: int, size: U32)
  {
    |s| == |s0| && 0 <= gpool < |s|
    && s == s0[gpool := s0[gpool].(sz128 := SizeClass(size), poolStackBase := s[gpool].poolStackBase,
                                   isInuse := true)]
  }

  /**
   * A handle that validated right after the allocation still validates once
   * the pool is created, and its block size is the size class in bytes.
   */
  lemma CreatedHandle(s: seq<FpavfRes>, s0: seq<FpavfRes>, size: U32, handle: Ptr)
    requires AllocResult(s0) != -ENOSPC
    requires CreatedTable(s, s0, AllocResult(s0), size)
    requires GpoolOf(handle) == AllocResult(s0)
    requires HandleValidSpec(AllocTable(s0, size), handle)
    ensures HandleValidSpec(s, handle)
    ensures BlockSizeSpec(s, handle) == CacheLinesToObjSize(SizeClass(size))
  {
    var t := AllocTable(s0, size);
    AllocEffect(s0, size);
    assert forall j :: 0 <= j < |s| ==> SameIdentity(s[j], t[j]);
    HandleValidFrame(s, t, handle);
  }

  // ---------------------------------------------------------------------------
  // One-time reset (octeontx_fpavf_setup)
  // ---------------------------------------------------------------------------

  /** A slot after the reset: no VF identified, nothing claimed; `vf_id` is kept. */
  function ResetSlot(r: FpavfRes): FpavfRes
  {
    r.(domainId := DOMAIN_NONE, stackLnPtr := 0, sz128 := 0, bar0 := NULL,
       poolStackBase := 0, isInuse := false)
  }

  /**
   * octeontx_fpavf_setup's loop: every slot loses its window, domain, stack
   * unit, block size, stack and use, and keeps only its `vf_id`.
   */
  function SetupTable(s: seq<FpavfRes>): (t: seq<FpavfRes>)
    ensures |t| == |s|
    ensures forall i :: 0 <= i < |t| ==>
      t[i].bar0 == NULL && t[i].domainId == DOMAIN_NONE && t[i].stackLnPtr == 0 && t[i].sz128 == 0
      && t[i].poolStackBase == 0 && !t[i].isInuse && t[i].vfId == s[i].vfId
  {
    seq(|s|, i requires 0 <= i < |s| => ResetSlot(s[i]))
  }

  /**
   * After the reset no slot can be claimed and no handle is valid, until a
   * VF is identified.
   */
  lemma SetupClears(s: seq<FpavfRes>)
    ensures AllocResult(SetupTable(s)) == -ENOSPC
    ensures forall h :: !HandleValidSpec(SetupTable(s), h)
  {
    var t := SetupTable(s);
    assert forall j :: 0 <= j < |t| ==> t[j] == ResetSlot(s[j]);
    forall h ensures !HandleValidSpec(t, h) {
      ValidAtIff(t, BarOf(h), GpoolOf(h));
    }
  }

  // ---------------------------------------------------------------------------
  // Registration (octeontx_fpavf_identify)
  // ---------------------------------------------------------------------------

  /** The return value of octeontx_fpavf_identify for the identification word `val`. */
  function IdentifyResult(s: seq<FpavfRes>, val: bv64): (r: int)
    requires |s| == FPA_VF_MAX
    ensures r == -1 || r == IdentifyVfId(val) as int
    ensures r == -1 <==> IdentifyVfId(val) as int >= FPA_VF_MAX || s[IdentifyVfId(val) as int].isInuse
  {
    var vf := IdentifyVfId(val) as int;
    if vf >= FPA_VF_MAX then -1
    else if s[vf].isInuse then -1
    else vf
  }

  /** The table after octeontx_fpavf_identify. */
  function IdentifyTable(s: seq<FpavfRes>, bar0: Ptr, val: bv64, stackLnPtr: U64): seq<FpavfRes>
    requires |s| == FPA_VF_MAX
  {
    var r := IdentifyResult(s, val);
    if r < 0 then s
    else s[r := s[r].(domainId := IdentifyDomain(val), vfId := IdentifyVfId(val),
                      bar0 := bar0, stackLnPtr := stackLnPtr)]
  }

  /**
   * A rejected identification leaves the table alone; an accepted one
   * records the window and the decoded word in the VF's own slot only,
   * never disturbs a pool in use, and makes the slot claimable unless it
   * already had a block size.
   */
  lemma IdentifyEffect(s: seq<FpavfRes>, bar0: Ptr, val: bv64, stackLnPtr: U64)
    requires |s| == FPA_VF_MAX
    requires bar0 != NULL
    ensures |IdentifyTable(s, bar0, val, stackLnPtr)| == FPA_VF_MAX
    ensures IdentifyResult(s, val) == -1 ==> IdentifyTable(s, bar0, val, stackLnPtr) == s
    ensures forall j :: 0 <= j < FPA_VF_MAX && j != IdentifyResult(s, val) ==>
      IdentifyTable(s, bar0, val, stackLnPtr)[j] == s[j]
    ensures forall j :: 0 <= j < FPA_VF_MAX && s[j].isInuse ==> IdentifyTable(s, bar0, val, stackLnPtr)[j] == s[j]
    ensures IdentifyResult(s, val) >= 0 ==>
      var t := IdentifyTable(s, bar0, val, stackLnPtr)[IdentifyResult(s, val)];
      t.bar0 == bar0 && t.domainId == IdentifyDomain(val) && t.vfId as int == IdentifyResult(s, val)
      && t.stackLnPtr == stackLnPtr && t.poolStackBase == s[IdentifyResult(s, val)].poolStackBase
      && (Claimable(t) <==> s[IdentifyResult(s, val)].sz128 == 0)
  {
  }
}

/**
 * The size conversions, the pool control word, the stack and end-address
 * computations, the identification word and the handle codec of the FPA VF
 * driver: pure functions, each with the property the driver relies on.
 */
module FpaArith {
  import opened FpaTypes

  // ---------------------------------------------------------------------------
  // Cache-line sizes
  // ---------------------------------------------------------------------------

  /**
   * Clearing the low seven bits gives the largest multiple of 128 not
   * above `y`, which is 0 below 128.
   */
  lemma AlignDownLine(y: nat)
    ensures AlignDown(y, 128) % 128 == 0
    ensures AlignDown(y, 128) <= y < AlignDown(y, 128) + 128
    ensures y < 128 ==> AlignDown(y, 128) == 0
  {
  }

  /** The same for the PF page size. */
  lemma AlignDownPage(y: nat)
    ensures AlignDown(y, FPA_PF_PAGE_SZ) % FPA_PF_PAGE_SZ == 0
    ensures AlignDown(y, FPA_PF_PAGE_SZ) <= y < AlignDown(y, FPA_PF_PAGE_SZ) + FPA_PF_PAGE_SZ
    ensures y < FPA_PF_PAGE_SZ ==> AlignDown(y, FPA_PF_PAGE_SZ) == 0
  {
  }

  /**
   * FPA_OBJSZ_2_CACHE_LINE: the number of 128-byte lines an object of `sz`
   * bytes occupies, in `unsigned int` arithmetic. The sum wraps for the last
   * 127 values of the type, which then give 0 lines.
   */
  function ObjSizeToCacheLines(sz: U32): (lines: U32)
    ensures sz <= 0xFFFF_FF80 ==> sz <= lines * 128
    ensures sz <= 0xFFFF_FF80 ==> lines * 128 < sz + 128
    ensures sz > 0xFFFF_FF80 ==> lines == 0
  {
    Wrap32(sz + CACHE_LINE_MASK) / 128
  }

  /** FPA_CACHE_LINE_2_OBJSZ applied to a stored `uint16_t` line count. */
  function CacheLinesToObjSize(sz128: U16): (n: U32)
    ensures n % 128 == 0
    ensures ObjSizeToCacheLines(n) == sz128
  {
    sz128 * 128
  }

  /** RTE_CACHE_LINE_ROUNDUP on an `unsigned int`. */
  function CacheLineRoundup(sz: U32): (r: U32)
    ensures r % 128 == 0
    ensures sz <= 0xFFFF_FF80 ==> sz <= r
    ensures sz <= 0xFFFF_FF80 ==> r < sz + 128
    ensures sz > 0xFFFF_FF80 ==> r == 0
  {
    var y := sz + CACHE_LINE_MASK;
    assert Wrap32(y) == if y < 0x1_0000_0000 then y else y - 0x1_0000_0000;
    AlignDownLine(Wrap32(y));
    AlignDown(Wrap32(y), 128)
  }

  /**
   * The value `octeontx_fpa_gpool_alloc` stores in a claimed slot: the line
   * count of its `unsigned int` argument truncated to the `uint16_t` field.
   */
  function SizeClass(objectSize: U32): (sz128: U16)
    ensures objectSize <= 0x7F_FF80 ==> objectSize <= sz128 * 128 < objectSize + 128
  {
    ObjSizeToCacheLines(objectSize) % 0x1_0000
  }

  /**
   * The size a pool created for `objectSize` bytes reports back: the size
   * rounded up to a whole number of cache lines, and non-zero exactly when
   * the request was. The bound keeps the line count inside `uint16_t`.
   */
  lemma BlockSizeRoundTrip(objectSize: U32)
    requires objectSize <= 0x7F_FF80
    ensures CacheLinesToObjSize(SizeClass(CacheLineRoundup(objectSize))) == CacheLineRoundup(objectSize)
    ensures SizeClass(CacheLineRoundup(objectSize)) != 0 <==> objectSize != 0
  {
    var r := CacheLineRoundup(objectSize);
    assert r <= 0x7F_FF80;
    WholeLines(r);
    assert ObjSizeToCacheLines(r) == r / 128;
    assert SizeClass(r) == r / 128;
  }

  /** A whole number of cache lines divides back exactly, even after adding the mask. */
  lemma WholeLines(r: nat)
    requires r % 128 == 0
    ensures (r + CACHE_LINE_MASK) / 128 == r / 128
    ensures r / 128 * 128 == r
  { }

  /** Two sample sizes: 100 bytes give 128, 129 bytes give 256. */
  lemma BlockSizeExamples()
    ensures CacheLinesToObjSize(SizeClass(CacheLineRoundup(100))) == 128
    ensures CacheLinesToObjSize(SizeClass(CacheLineRoundup(129))) == 256
  {
    BlockSizeRoundTrip(100);
    BlockSizeRoundTrip(129);
  }

  // ---------------------------------------------------------------------------
  // Stack memory of a PF pool
  // ---------------------------------------------------------------------------

  /** FPA_ROUND_UP(x, FPA_LN_SIZE) in `unsigned long` arithmetic. */
  function RoundUpLn(x: U64): (r: U64)
    ensures r % FPA_LN_SIZE == 0
    ensures x <= 0xFFFF_FFFF_FFFF_FF80 ==> x <= r
    ensures x <= 0xFFFF_FFFF_FFFF_FF80 ==> r < x + FPA_LN_SIZE
  {
    var y := x + FPA_LN_SIZE - 1;
    assert Wrap64(y) == if y < 0x1_0000_0000_0000_0000 then y else y - 0x1_0000_0000_0000_0000;
    AlignDownLine(Wrap64(y));
    AlignDown(Wrap64(y), FPA_LN_SIZE)
  }

  /** Round an `unsigned int` up to FPA_PF_PAGE_SZ, wrapping like the source. */
  function PageRoundUp(x: U32): (r: U32)
    ensures r % FPA_PF_PAGE_SZ == 0
    ensures x <= 0xFFFF_F000 ==> x <= r
    ensures x <= 0xFFFF_F000 ==> r < x + FPA_PF_PAGE_SZ
    ensures x > 0xFFFF_F000 ==> r == 0
  {
    var y := x + FPA_PF_PAGE_SZ - 1;
    assert Wrap32(y) == if y < 0x1_0000_0000 then y else y - 0x1_0000_0000;
    AlignDownPage(Wrap32(y));
    AlignDown(Wrap32(y), FPA_PF_PAGE_SZ)
  }

  /** Stack lines for `maxBufCount` buffers: the quotient rounded up to 128. */
  function StackLines(maxBufCount: U32, stackLnPtr: U64): (lines: U64)
    requires stackLnPtr != 0
    ensures lines % FPA_LN_SIZE == 0
    ensures maxBufCount / stackLnPtr <= lines < maxBufCount / stackLnPtr + FPA_LN_SIZE
  {
    var q := maxBufCount / stackLnPtr;
    assert q <= maxBufCount;
    RoundUpLn(q)
  }

  /**
   * `memsz` of `octeontx_fpapf_pool_setup`: the stack lines in bytes,
   * truncated to `unsigned int`, rounded up to the PF page size. The stack
   * covers all its lines unless the byte count overflows `unsigned int`.
   */
  function StackMemSize(maxBufCount: U32, stackLnPtr: U64): (memsz: U32)
    requires stackLnPtr != 0
    ensures memsz % FPA_PF_PAGE_SZ == 0
    ensures StackLines(maxBufCount, stackLnPtr) * FPA_LN_SIZE <= 0xFFFF_F000 ==>
      StackLines(maxBufCount, stackLnPtr) * FPA_LN_SIZE <= memsz
    ensures StackLines(maxBufCount, stackLnPtr) * FPA_LN_SIZE <= 0xFFFF_F000 ==>
      memsz < StackLines(maxBufCount, stackLnPtr) * FPA_LN_SIZE + FPA_PF_PAGE_SZ
  {
    var bytes := StackLines(maxBufCount, stackLnPtr) * FPA_LN_SIZE;
    Wrap32Identity(bytes);
    PageRoundUp(Wrap32(bytes))
  }

  /** The conversion to `unsigned int` keeps a value that fits. */
  lemma Wrap32Identity(x: nat)
    ensures x < 0x1_0000_0000 ==> Wrap32(x) == x
  {
  }

  // ---------------------------------------------------------------------------
  // The pool control word (POOL_* macros)
  // ---------------------------------------------------------------------------

  const POOL_ENA: bv64 := 1
  const POOL_SET_NAT_ALIGN: bv64 := 2

  function PoolStype(x: bv64): bv64 { (x & 1) << 2 }
  function PoolLtype(x: bv64): bv64 { (x & 3) << 3 }
  function PoolBufOffset(x: bv64): bv64 { (x & 0x7fff) << 16 }
  function PoolBufSize(x: bv64): bv64 { (x & 0x7ff) << 32 }

  /** The bits of a `signed short` parameter given an `unsigned int` argument. */
  function ToShort(x: U32): bv16
  {
    (x % 0x1_0000) as bv16
  }

  /** A `signed short` converted to a 64-bit unsigned word (sign extension). */
  function SignExtend(x: bv16): (w: bv64)
    ensures w & 0xFFFF == x as bv64
    ensures x < 0x8000 ==> w >> 16 == 0
    ensures x >= 0x8000 ==> w >> 16 == 0xFFFF_FFFF_FFFF
  {
    if x < 0x8000 then x as bv64 else (x as bv64) | 0xFFFF_FFFF_FFFF_0000
  }

  /**
   * `x / FPA_LN_SIZE` on a `signed short`: C division truncates toward
   * zero, so a negative value divides its magnitude.
   */
  function SignedDivLn(x: bv16): (q: bv16)
    ensures x < 0x8000 ==> q == x / 128
    ensures x >= 0x8000 ==> q == 0 || q >= 0x8000
    ensures x >= 0x8000 ==> 0 - q == (0 - x) / 128
  {
    if x < 0x8000 then x / 128 else 0 - ((0 - x) / 128)
  }

  /**
   * `reg` built from the line count `size` and the line offset `offset`:
   * POOL_BUF_SIZE | POOL_BUF_OFFSET | POOL_LTYPE(2) | POOL_STYPE(0) |
   * POOL_SET_NAT_ALIGN | POOL_ENA.
   */
  function PoolCfgWord(size: bv64, offset: bv16): bv64
  {
    PoolBufSize(size) | PoolBufOffset(SignExtend(offset)) | PoolLtype(2) | PoolStype(0)
      | POOL_SET_NAT_ALIGN | POOL_ENA
  }

  /** The pool control word of `octeontx_fpapf_pool_setup`. */
  function PoolCfg(bufSize: U32, bufOffset: bv16): bv64
  {
    PoolCfgWord(((bufSize / FPA_LN_SIZE) as bv32) as bv64, SignedDivLn(bufOffset))
  }

  /** The size field (bits 32..42) reads back the line count. */
  lemma PoolCfgSizeField(size: bv64, offset: bv16)
    ensures (PoolCfgWord(size, offset) >> 32) & 0x7ff == size & 0x7ff
  {
  }

  /** The offset field (bits 16..30) reads back the line offset. */
  lemma PoolCfgOffsetField(size: bv64, offset: bv16)
    ensures (PoolCfgWord(size, offset) >> 16) & 0x7fff == (offset as bv64) & 0x7fff
  {
    if offset < 0x8000 {
      assert SignExtend(offset) == offset as bv64;
    } else {
      assert SignExtend(offset) == (offset as bv64) | 0xFFFF_FFFF_FFFF_0000;
    }
  }

  /** Enable, natural alignment, store type 0 and load type 2 are set. */
  lemma PoolCfgFlags(size: bv64, offset: bv16)
    ensures PoolCfgWord(size, offset) & POOL_ENA != 0
    ensures PoolCfgWord(size, offset) & POOL_SET_NAT_ALIGN != 0
    ensures (PoolCfgWord(size, offset) >> 2) & 1 == 0
    ensures (PoolCfgWord(size, offset) >> 3) & 3 == 2
  {
  }

  /** No bit outside the fields is set. */
  lemma PoolCfgReserved(size: bv64, offset: bv16)
    ensures PoolCfgWord(size, offset) & 0xFFFF_F800_8000_FFE0 == 0
  {
  }

  /**
   * For a non-negative offset of at most 0x7fff bytes the word carries the
   * buffer size and the offset in whole cache lines.
   */
  lemma PoolCfgFields(bufSize: U32, bufOffset: bv16)
    requires bufOffset < 0x8000
    ensures (PoolCfg(bufSize, bufOffset) >> 32) & 0x7ff == (((bufSize / FPA_LN_SIZE) as bv32) as bv64) & 0x7ff
    ensures (PoolCfg(bufSize, bufOffset) >> 16) & 0x7fff == (bufOffset / 128) as bv64
  {
    var size := ((bufSize / FPA_LN_SIZE) as bv32) as bv64;
    PoolCfgSizeField(size, SignedDivLn(bufOffset));
    PoolCfgOffsetField(size, SignedDivLn(bufOffset));
    assert ((bufOffset / 128) as bv64) & 0x7fff == (bufOffset / 128) as bv64;
  }

  /** The `aura_cfg` word sent with a pool configuration (`1 << 9`). */
  const AURA_CFG: U64 := 0x200

  // ---------------------------------------------------------------------------
  // VF pool end address
  // ---------------------------------------------------------------------------

  /** `memsz = object_size * object_count`: an `unsigned int` product. */
  function VfMemSize(objectSize: U32, objectCount: U32): (memsz: U64)
    ensures memsz < 0x1_0000_0000
    ensures objectSize * objectCount < 0x1_0000_0000 ==> memsz == objectSize * objectCount
  {
    var p: nat := objectSize * objectCount;
    Wrap32Identity(p);
    Wrap32(p)
  }

  /**
   * `va_end` of `octeontx_fpavf_pool_setup`: the end of the buffer area
   * aligned down to a cache line.
   */
  function VaEnd(memva: U64, memsz: U64): (vaEnd: U64)
    ensures vaEnd % 128 == 0
    ensures memva + memsz < 0x1_0000_0000_0000_0000 ==> vaEnd <= memva + memsz
    ensures memva + memsz < 0x1_0000_0000_0000_0000 ==> memva + memsz < vaEnd + 128
  {
    var y := memva + memsz;
    assert Wrap64(y) == if y < 0x1_0000_0000_0000_0000 then y else y - 0x1_0000_0000_0000_0000;
    AlignDownLine(Wrap64(y));
    AlignDown(Wrap64(y), CACHE_LINE_MASK + 1)
  }

  // ---------------------------------------------------------------------------
  // Identification word
  // ---------------------------------------------------------------------------

  /** `domain_id = (val >> 8) & 0xffff`. */
  function IdentifyDomain(val: bv64): bv16
  {
    ((val >> 8) & 0xffff) as bv16
  }

  /** `vf_id = (val >> 24) & 0xffff`. */
  function IdentifyVfId(val: bv64): bv16
  {
    ((val >> 24) & 0xffff) as bv16
  }

  /** A word with `domain` in bits 8..23 and `vf` in bits 24..39. */
  function IdentifyWord(domain: bv16, vf: bv16, other: bv64): bv64
  {
    other | ((domain as bv64) << 8) | ((vf as bv64) << 24)
  }

  /**
   * The decoding inverts the device's encoding, whatever the bits outside
   * the two fields hold.
   */
  lemma IdentifyRoundTrip(domain: bv16, vf: bv16, other: bv64)
    requires other & 0xFF_FFFF_FF00 == 0
    ensures IdentifyDomain(IdentifyWord(domain, vf, other)) == domain
    ensures IdentifyVfId(IdentifyWord(domain, vf, other)) == vf
  {
  }

  // ---------------------------------------------------------------------------
  // Handle codec
  // ---------------------------------------------------------------------------

  /** octeontx_fpa_bufpool_gpool: the gpool number in the low handle bits. */
  function GpoolOf(handle: Ptr): (gpool: int)
    ensures 0 <= gpool < FPA_VF_MAX
  {
    (handle & FPA_GPOOL_MASK) as int
  }

  /** `handle & ~FPA_GPOOL_MASK`: the register window the handle names. */
  function BarOf(handle: Ptr): Ptr
  {
    handle & !FPA_GPOOL_MASK
  }

  /** `(uintptr_t)bar0 | gpool`. */
  function MakeHandle(bar0: Ptr, gpool: int): Ptr
    requires 0 <= gpool < FPA_VF_MAX
  {
    bar0 | ((gpool as bv8) as bv64)
  }

  /** Decoding a handle gives back the gpool ... */
  lemma HandleGpoolRoundTrip(bar0: Ptr, gpool: int)
    requires 0 <= gpool < FPA_VF_MAX
    requires bar0 & FPA_GPOOL_MASK == 0
    ensures GpoolOf(MakeHandle(bar0, gpool)) == gpool
  {
    var g := (gpool as bv8) as bv64;
    assert g as int == gpool;
    assert MakeHandle(bar0, gpool) & FPA_GPOOL_MASK == g;
  }

  /** ... and the window, whose gpool bits are clear ... */
  lemma HandleBarRoundTrip(bar0: Ptr, gpool: int)
    requires 0 <= gpool < FPA_VF_MAX
    requires bar0 & FPA_GPOOL_MASK == 0
    ensures BarOf(MakeHandle(bar0, gpool)) == bar0
  {
  }

  /** ... and a mapped window never gives the reserved handle 0. */
  lemma HandleNonNull(bar0: Ptr, gpool: int)
    requires 0 <= gpool < FPA_VF_MAX
    ensures bar0 != NULL ==> MakeHandle(bar0, gpool) != 0
  {
  }

  /** Every word is the handle of its own window and gpool. */
  lemma HandleSplit(handle: Ptr)
    ensures BarOf(handle) & FPA_GPOOL_MASK == 0
    ensures handle == MakeHandle(BarOf(handle), GpoolOf(handle))
  {
  }
}

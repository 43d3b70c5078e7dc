/**
 * Machine words, constants and records of the OcteonTX FPA virtual-function
 * driver (drivers/mempool/octeontx/octeontx_fpavf.c).
 *
 * Sizes, counts and memory addresses are bounded integers, with every
 * wrap-around of the C arithmetic written out. The words the driver takes
 * apart with bitwise operators (register windows, handles, the
 * identification register and the pool control word) are bit-vectors.
 */
module FpaTypes {

  /** Unsigned C integers of each width. */
  type U8 = x: int | 0 <= x < 0x100
  type U16 = x: int | 0 <= x < 0x1_0000
  type U32 = x: int | 0 <= x < 0x1_0000_0000
  type U64 = x: int | 0 <= x < 0x1_0000_0000_0000_0000

  /**
   * A register-window address or a pool handle: a 64-bit word the driver
   * combines with bitwise operators; 0 is NULL.
   */
  type Ptr = bv64

  const NULL: Ptr := 0

  /** Number of VF slots in the table (FPA_VF_MAX of octeontx_fpavf.h). */
  const FPA_VF_MAX: int := 32
  /** Low handle bits that hold the gpool number (FPA_VF_MAX - 1). */
  const FPA_GPOOL_MASK: Ptr := 31
  /** Range check used by the mailbox stages (FPA_MAX_POOL). */
  const FPA_MAX_POOL: int := 32
  const FPA_PF_PAGE_SZ: int := 4096
  const FPA_LN_SIZE: int := 128
  /** RTE_CACHE_LINE_MASK for the 128-byte cache line of the platform. */
  const CACHE_LINE_MASK: int := 127
  /** `(uint16_t)~0`: the domain of a slot no VF has been identified for. */
  const DOMAIN_NONE: bv16 := 0xffff

  /** errno values of Linux, negated where the driver returns them. */
  const ENOMEM: int := 12
  const EACCES: int := 13
  const ENODEV: int := 19
  const EINVAL: int := 22
  const ENOSPC: int := 28

  /** Mailbox coprocessor tag and FPA opcodes. */
  const FPA_COPROC: int := 1
  const FPA_CONFIGSET: int := 1
  const FPA_START_COUNT: int := 3
  const FPA_ATTACHAURA: int := 5
  const FPA_DETACHAURA: int := 6

  /** One slot of the table: `struct fpavf_res`. */
  datatype FpavfRes = FpavfRes(
    poolStackBase: U64,   // backing stack memory owned by the slot, 0 = NULL
    bar0: Ptr,            // register window of the VF, NULL when unmapped
    stackLnPtr: U64,      // hardware unit used to size the stack memory
    domainId: bv16,
    vfId: bv16,           // gpool id
    sz128: U16,           // block size in cache lines, 0 when unclaimed
    isInuse: bool)        // pool configured on the PF side

  /** The value C's static zero-initialisation gives a slot. */
  const ZERO_RES: FpavfRes := FpavfRes(0, NULL, 0, 0, 0, 0, false)

  /** Mailbox header: coprocessor, opcode and target VF. */
  datatype MboxHdr = MboxHdr(coproc: int, msg: int, vfid: int)

  /** Request payloads: none, or `struct octeontx_mbox_fpa_cfg`. */
  datatype Payload =
    | NoPayload
    | FpaCfg(aid: int, poolCfg: bv64, poolStackBase: U64, poolStackEnd: U64, auraCfg: U64)

  /** One request sent to the PF together with the transport's return value. */
  datatype Exchange = Exchange(hdr: MboxHdr, payload: Payload, ret: int)

  /** VF-local registers, addressed by (bar, register, gpool). */
  datatype Reg = VhpoolStartAddr | VhpoolEndAddr | VhauraCnt | VhauraCntLimit | VhauraCntThreshold

  type RegKey = (Ptr, Reg, int)

  /** Unsigned conversions: the value modulo 2 to the width. */
  function Wrap32(x: int): U32 { x % 0x1_0000_0000 }
  function Wrap64(x: int): U64 { x % 0x1_0000_0000_0000_0000 }

  /**
   * `x & ~(align - 1)` for a power-of-two `align` on a non-negative word:
   * clearing the low bits subtracts the remainder.
   */
  function AlignDown(x: nat, align: nat): nat
    requires align > 0
  {
    x - x % align
  }
}

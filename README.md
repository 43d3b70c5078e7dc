# OcteonTX FPA VF buffer-pool driver, modelled in Dafny

This project models the VF side of the OcteonTX FPA (free pool allocator)
mempool driver, `drivers/mempool/octeontx/octeontx_fpavf.c`:

- the process-wide device record `fpadev` with its table of `FPA_VF_MAX` slots;
- the one-time reset, VF identification and probe counting;
- first-fit slot allocation and the two release operations;
- the pool handle, which is a register window with the slot index in its low bits, and its validation;
- the size and `POOL_*` arithmetic;
- the PF mailbox stages: pool setup and destroy, aura attach and detach, start count;
- the VF pool register setup;
- `octeontx_fpa_bufpool_create`, the staged pool creation that unwinds through its `goto` labels.

Modules, one file each:

- `FpaTypes` (`fpa_types.dfy`) holds the machine words, the driver's constants, the slot record `fpavf_res`, and the mailbox and register vocabulary.
- `FpaArith` (`fpa_arith.dfy`) holds the pure macros and expressions. These are the cache-line conversions, the stack size, the pool control word, `va_end`, the identification word and the handle codec, each with the property the driver relies on.
- `FpaTable` (`fpa_table.dfy`) holds what the loops over `fpadev.pool[]` compute, stated on the sequence of slots: first fit, handle validation, the reset and the registration of a VF.
- `FpaEnv` (`fpa_env.dfy`) holds the services the driver calls but does not implement:
  - the EAL heap, as the set of blocks it has handed out;
  - the PF mailbox, which records each request with the status it returned, any value;
  - the VF registers, as the last value written to each window, register and gpool.
- `FpaState` (`fpa_state.dfy`) holds the state the driver changes, as the value `Dev`: table, live heap blocks, registers, mailbox log and `errno`. It gives each step of creation and teardown as a function on `Dev`, and the lemmas that state what pool creation guarantees on every exit path.
- `FpaVf` (`fpa_dev.dfy`) holds the class `FpaDev`, the device record updated in place:
  - `pool` is an `array`;
  - the lock, `init_once`, `total_gpool_cnt` and `errno` are fields;
  - `Snap()` maps the object graph to `Dev`.

Each member of `FpaDev` ties its result and new state to a specification function:

- `Setup`, `Identify`, `GpoolAlloc` and `SetSlot` are stated with the table functions of `FpaTable` (`SetupTable`, `IdentifyTable`, `AllocTable`, a slot update), and `Probe` through `SetupTable` and `IdentifyTable`.
- `Gpool2Handle` is a function whose handle `GpoolOf` and `BarOf` decode back to the slot. `HandleValid` and `BlockSize` change nothing and return `HandleValidSpec` and `BlockSizeSpec`.
- The release, mailbox, claim, configuration and creation methods change `Snap()` exactly as their `FpaState` step does.

What the heap and the PF answer cannot be seen by the driver, so the methods that consult them return those answers as ghost out-parameters. The single-stage methods return them as separate ghost values:

- `PfPoolSetup` returns the block, its physical address and the mailbox status;
- `PfPoolDestroy`, `AuraAttach`, `AuraDetach` and `StartCount` return the mailbox status;
- `StartAura` returns the start-count status.

`ConfigureClaimed`, `CreateLocked` and `BufpoolCreate` gather them into one value of type `Answers`. Each contract equates the new state with the step function applied to those answers, so the lemmas hold for every answer.

Points of the code that the model follows closely:

- `errno` receives the negative code of the failing stage: `-ENOSPC` from the allocator at line 516, `-ENOMEM` or `-EACCES` from the pool setup at line 536, and `-EACCES` from the aura attach at line 543. Only lines 507 and 526 store the positive `EINVAL` and `ENOSPC`.
- A refused pool configuration returns the stack block to the heap but leaves `pool_stack_base` naming it (lines 249 and 287-288). `FpaState.CreateUnwindTrace` states exactly that the field keeps the freed block.
- The VF pool setup stage can fail only for handle 0. Inside `octeontx_fpa_bufpool_create` the handle is the non-null window of the claimed slot. The `error_gaura_detach` unwinding is modelled in `FpaVf.FpaDev.ConfigureClaimed`, and `FpaState.CreateOutcomes` proves the exit is never taken.
- The lock is held from line 511 to line 557. That includes `rte_malloc_virt2phy` at line 250, inside the pool setup.
- Destruction exists only as the unwinding at lines 571-575. That unwinding marks the slot free (`octeontx_fpavf_free`) before the PF reset, and the reset frees the stack unconditionally.

## Model

| member | source | states |
|---|---|---|
| FpaArith.ObjSizeToCacheLines | drivers/mempool/octeontx/octeontx_fpavf.c:106 | `lines * 128` is the least multiple of 128 that is at least `sz`; the `unsigned int` sum wraps for the top 127 values, which give 0 lines |
| FpaArith.CacheLinesToObjSize | drivers/mempool/octeontx/octeontx_fpavf.c:107 | the byte size is a multiple of 128 and converts back to the same line count |
| FpaArith.CacheLineRoundup | drivers/mempool/octeontx/octeontx_fpavf.c:505 | the result is the least multiple of 128 not below the size; it is 0 when the 32-bit sum wraps |
| FpaArith.SizeClass | drivers/mempool/octeontx/octeontx_fpavf.c:144-160 | the 16-bit size class stored in a slot covers the object size by less than one cache line for every size up to 0x7F_FF80, the largest whose line count fits in 16 bits |
| FpaArith.BlockSizeRoundTrip | drivers/mempool/octeontx/octeontx_fpavf.c:106-107 | storing the line count of a rounded size and converting it back gives the rounded size, non-zero exactly for a non-zero request |
| FpaArith.BlockSizeExamples | drivers/mempool/octeontx/octeontx_fpavf.c:106-107 | a pool for 100-byte objects reports 128 bytes, one for 129-byte objects 256 |
| FpaArith.RoundUpLn | drivers/mempool/octeontx/octeontx_fpavf.c:104-105 | FPA_ROUND_UP to 128: a multiple of 128, the least one not below `x` unless the 64-bit sum wraps |
| FpaArith.PageRoundUp | drivers/mempool/octeontx/octeontx_fpavf.c:240-241 | a multiple of FPA_PF_PAGE_SZ, the least one not below `x`, 0 on wrap-around |
| FpaArith.StackLines | drivers/mempool/octeontx/octeontx_fpavf.c:237-238 | the stack lines are a multiple of 128, covering `max_buf_count / stack_ln_ptr` by less than 128 |
| FpaArith.StackMemSize | drivers/mempool/octeontx/octeontx_fpavf.c:237-241 | `memsz` is page aligned and, when the byte count fits, covers all stack lines by less than a page |
| FpaArith.SignExtend | drivers/mempool/octeontx/octeontx_fpavf.c:260-261 | the `signed short` offset widened to 64 bits keeps its low 16 bits, with zero upper bits when non-negative and all-ones upper bits when negative |
| FpaArith.SignedDivLn | drivers/mempool/octeontx/octeontx_fpavf.c:260 | `buf_offset / 128` on a `signed short`: plain division when non-negative; when negative it truncates toward zero, so the quotient is negative or 0 and its magnitude is the magnitude divided by 128 |
| FpaArith.PoolCfgSizeField | drivers/mempool/octeontx/octeontx_fpavf.c:116 | bits 32..42 of the pool word read back the size in lines |
| FpaArith.PoolCfgOffsetField | drivers/mempool/octeontx/octeontx_fpavf.c:115 | bits 16..30 read back the offset in lines, also after sign extension |
| FpaArith.PoolCfgFlags | drivers/mempool/octeontx/octeontx_fpavf.c:109-114 | POOL_ENA and POOL_SET_NAT_ALIGN are set, the store type is 0 and the load type 2 |
| FpaArith.PoolCfgReserved | drivers/mempool/octeontx/octeontx_fpavf.c:109-116 | no bit outside the fields is set |
| FpaArith.PoolCfgFields | drivers/mempool/octeontx/octeontx_fpavf.c:252-263 | the word sent to the PF carries `buf_size / 128` and, for an offset that is not negative, `buf_offset / 128` |
| FpaArith.VaEnd | drivers/mempool/octeontx/octeontx_fpavf.c:401-402 | `va_end` is cache-line aligned and lies within 128 bytes below the end of the area |
| FpaArith.VfMemSize | drivers/mempool/octeontx/octeontx_fpavf.c:548 | `object_size * object_count` in `unsigned int`: always below 2^32, and the true product whenever that fits |
| FpaArith.IdentifyRoundTrip | drivers/mempool/octeontx/octeontx_fpavf.c:618-619 | decoding recovers the domain and VF id the device placed in bits 8..23 and 24..39, whatever the other bits hold |
| FpaArith.GpoolOf | drivers/mempool/octeontx/octeontx_fpavf.c:197 | the decoded gpool is always a slot index below FPA_VF_MAX |
| FpaArith.HandleGpoolRoundTrip | drivers/mempool/octeontx/octeontx_fpavf.c:182 | decoding `bar0 \| gpool` gives back `gpool` when `bar0` has its mask bits clear |
| FpaArith.HandleBarRoundTrip | drivers/mempool/octeontx/octeontx_fpavf.c:531 | masking `bar0 \| gpool` with `~FPA_GPOOL_MASK` gives back `bar0` |
| FpaArith.HandleNonNull | drivers/mempool/octeontx/octeontx_fpavf.c:182 | the handle of a mapped window is never the reserved value 0 |
| FpaArith.HandleSplit | drivers/mempool/octeontx/octeontx_fpavf.c:197-200 | every word is the handle of its own window and gpool, and the window has its mask bits clear |
| FpaTable.FirstClaimable | drivers/mempool/octeontx/octeontx_fpavf.c:146-165 | the first index from `from` on that is mapped, not in use and unsized, with no such index before it; -1 when there is none |
| FpaTable.AllocResult | drivers/mempool/octeontx/octeontx_fpavf.c:137-168 | the lowest claimable index, or -ENOSPC exactly when no slot is claimable |
| FpaTable.AllocEffect | drivers/mempool/octeontx/octeontx_fpavf.c:146-167 | allocation writes the size class into the claimed slot only; a failed one leaves the table unchanged |
| FpaTable.AllocDecrements | drivers/mempool/octeontx/octeontx_fpavf.c:160-163 | an allocation of a non-zero size uses up exactly one claimable slot |
| FpaTable.Exhaustion | drivers/mempool/octeontx/octeontx_fpavf.c:137-168 | with k claimable slots, the first k allocations of a non-zero size succeed and the next one returns -ENOSPC |
| FpaTable.AllocIncreasing | drivers/mempool/octeontx/octeontx_fpavf.c:146-165 | successive allocations claim strictly increasing slots |
| FpaTable.FirstWithBar | drivers/mempool/octeontx/octeontx_fpavf.c:201-203 | the first slot index from `from` on whose window is `bar`, or -1 when none is |
| FpaTable.ValidAtIff | drivers/mempool/octeontx/octeontx_fpavf.c:201-217 | the slot test holds exactly when the named slot has the window, no lower slot has it, and the slot is usable |
| FpaTable.HandleValidIff | drivers/mempool/octeontx/octeontx_fpavf.c:185-220 | both directions: a handle validates iff it is non-zero and names a usable slot whose window is the handle's and no lower slot shares |
| FpaTable.ValidAtRejects | drivers/mempool/octeontx/octeontx_fpavf.c:201-209 | the test fails when no slot has the window, and when the first slot that has it is another one |
| FpaTable.HandleValidCases | drivers/mempool/octeontx/octeontx_fpavf.c:185-220 | handle 0, an unknown window and a forged index are rejected; otherwise the result is the usability of the matched slot |
| FpaTable.NullWindowRejected | drivers/mempool/octeontx/octeontx_fpavf.c:201-217 | a handle whose window is NULL never validates while unmapped slots carry no size |
| FpaTable.OwnHandleValid | drivers/mempool/octeontx/octeontx_fpavf.c:171-220 | the handle of a usable slot validates, and the same window with any other gpool index does not |
| FpaTable.HandleValidFrame | drivers/mempool/octeontx/octeontx_fpavf.c:201-214 | validation depends only on window, size, domain and stack unit: stack base and in-use flag do not matter |
| FpaTable.BlockSizeSpec | drivers/mempool/octeontx/octeontx_fpavf.c:471-484 | -EINVAL exactly for a handle that does not validate, otherwise a positive multiple of 128 |
| FpaTable.RolledBackHandles | drivers/mempool/octeontx/octeontx_fpavf.c:571-581 | after an unwound creation every handle is exactly as valid as it was before |
| FpaTable.RolledBackUnchanged | drivers/mempool/octeontx/octeontx_fpavf.c:571-581 | after an unwound creation the next allocation picks the same slot and every handle validates exactly as before |
| FpaTable.CreatedHandle | drivers/mempool/octeontx/octeontx_fpavf.c:524-569 | the handle that validated after allocation still validates after creation and reports the size class in bytes |
| FpaTable.SetupClears | drivers/mempool/octeontx/octeontx_fpavf.c:584-605 | after the reset no slot is claimable and no handle validates |
| FpaTable.IdentifyResult | drivers/mempool/octeontx/octeontx_fpavf.c:623-639 | -1 exactly when the decoded VF id is out of range or its slot in use, otherwise the VF id |
| FpaTable.IdentifyEffect | drivers/mempool/octeontx/octeontx_fpavf.c:607-640 | a rejection leaves the table alone; otherwise only the VF's slot changes, gets the window and decoded fields, a pool in use is never touched, and the slot becomes claimable unless it had a size |
| FpaTable.SetupTable | drivers/mempool/octeontx/octeontx_fpavf.c:594-602 | the reset leaves every slot unmapped, with domain `~0`, no stack unit, no size, no stack base, not in use, and its VF id untouched |
| FpaState.GpoolFreeStep | drivers/mempool/octeontx/octeontx_fpavf.c:458-466 | 0 iff the slot has a size, -EINVAL otherwise; the size is cleared and nothing else in the state changes |
| FpaState.FpavfFreeStep | drivers/mempool/octeontx/octeontx_fpavf.c:441-456 | 0 iff the gpool is below FPA_MAX_POOL, otherwise -EINVAL and no change; on success only the in-use flag of that slot is cleared |
| FpaState.PoolSetupStep | drivers/mempool/octeontx/octeontx_fpavf.c:222-291 | -ENOMEM iff the heap returned NULL; failure iff the heap or the PF refused, -EACCES for a PF refusal; on success the PF status is returned, the slot is in use and the block stays live |
| FpaState.PoolDestroyStep | drivers/mempool/octeontx/octeontx_fpavf.c:293-330 | -EACCES iff the PF refused, otherwise 0; in both cases the stack base is cleared and the old stack block is no longer live |
| FpaState.AuraAttachStep | drivers/mempool/octeontx/octeontx_fpavf.c:332-363 | -EINVAL and no change for a gpool not below FPA_MAX_POOL; otherwise exactly one attach request is logged, the result is negative iff the PF refused, -EACCES then, and the PF status otherwise |
| FpaState.AuraDetachStep | drivers/mempool/octeontx/octeontx_fpavf.c:365-390 | -EINVAL and no change for a gpool not below FPA_MAX_POOL; otherwise exactly one detach request is logged, the result is negative iff the PF refused, -EINVAL then, and the PF status otherwise |
| FpaState.VfPoolSetupStep | drivers/mempool/octeontx/octeontx_fpavf.c:392-412 | -ENODEV iff the handle is 0, and then nothing changes; otherwise 0, only the registers change: the start and end registers of this window and gpool are written, `va_end` as the end, and every other register, of any window and gpool, keeps its value |
| FpaState.StartCountStep | drivers/mempool/octeontx/octeontx_fpavf.c:414-439 | -EINVAL and no change for a gpool not below FPA_MAX_POOL; otherwise exactly one start-count request without payload is logged, the result is negative iff the PF refused, -EINVAL then, and the PF status otherwise |
| FpaState.ClaimStep | drivers/mempool/octeontx/octeontx_fpavf.c:512-528 | claiming keeps the table size; a claimed slot is a real index with a stack unit, and the handle is that of its window and index |
| FpaState.Unconfigure | drivers/mempool/octeontx/octeontx_fpavf.c:571-575 | the unwinding clears the slot's in-use flag and stack base, frees the stack block, sends one PF reset request, and leaves registers and errno alone |
| FpaState.CreateLockedStep | drivers/mempool/octeontx/octeontx_fpavf.c:511-578 | the locked part never takes the NULL-area or oversized exits; it finds no slot iff the slot index is negative; a created pool uses a slot with a stack unit; on any other exit the handle is 0 |
| FpaState.AuraRegsStep | drivers/mempool/octeontx/octeontx_fpavf.c:559-565 | only the registers change: count and limit of this window and gpool become the object count, the threshold `object_count + 1` in 32 bits, and every other register, of any window and gpool, keeps its value |
| FpaState.CreateSpec | drivers/mempool/octeontx/octeontx_fpavf.c:486-582 | the NULL-area exit is taken iff `va_start` is NULL, the oversized exit iff the area is non-NULL and the rounded size exceeds the maximum; a created pool uses a slot with a stack unit; on any other exit the handle is NULL |
| FpaState.ConfigureStep | drivers/mempool/octeontx/octeontx_fpavf.c:533-554 | the configuration stages report a negative value exactly on a path other than success; the path is one of success, pool setup, attach or VF setup failed |
| FpaState.GpoolFreeTwice | drivers/mempool/octeontx/octeontx_fpavf.c:458-466 | a free succeeds iff the slot has a size; afterwards it has none. A second free returns -EINVAL and changes nothing |
| FpaState.AllocThenFree | drivers/mempool/octeontx/octeontx_fpavf.c:458-466 | freeing the slot just allocated gives back the state before the allocation |
| FpaState.PoolSetupEffect | drivers/mempool/octeontx/octeontx_fpavf.c:222-291 | -ENOMEM iff the heap refused, and then nothing changes at all; failure iff the heap or the PF refused; -EACCES on a PF refusal; the slot changes only in its stack base, which names the block even on refusal, and in its in-use flag, which is set when the PF accepted and kept otherwise; the block stays live only on success; no other slot, register or errno changes; when the heap gave a block, exactly one setup request is logged |
| FpaState.PoolDestroyEffect | drivers/mempool/octeontx/octeontx_fpavf.c:293-330 | the stack is freed and its base cleared whatever the PF answered, and nothing else in the slot, the other slots, the registers or errno changes; -EACCES on refusal, 0 otherwise; exactly one reset request is logged |
| FpaState.SetupThenDestroy | drivers/mempool/octeontx/octeontx_fpavf.c:573-575 | a pool set up and then destroyed leaves the heap as it was (no leak) |
| FpaState.ClaimFacts | drivers/mempool/octeontx/octeontx_fpavf.c:512-528 | claiming touches only table and errno; it holds iff a slot is free and its handle validates; without a slot errno is -ENOSPC and nothing else changes; a bad handle gives the slot back with errno ENOSPC |
| FpaState.ClaimedSlot | drivers/mempool/octeontx/octeontx_fpavf.c:512-531 | a claimed slot was mapped, free and unsized, gets a non-zero size class, and its handle names the slot and its window |
| FpaState.ConfigureCreated | drivers/mempool/octeontx/octeontx_fpavf.c:533-554 | accepted stages leave the slot with its stack and in use, the stack live, the VF pool registers set, and two requests sent |
| FpaState.ConfigureFailed | drivers/mempool/octeontx/octeontx_fpavf.c:533-575 | a refused stage leaves heap, registers and errno as they were, the slot as claimed but for its stack base, and the requests sent on each path |
| FpaState.ConfigureSetupRefused | drivers/mempool/octeontx/octeontx_fpavf.c:533-538 | a PF refusal of the setup keeps the freed block as the stack base and sends only that request |
| FpaState.ConfigureAttachRefused | drivers/mempool/octeontx/octeontx_fpavf.c:541-575 | an attach refusal resets the pool at the PF, frees the stack and clears its base |
| FpaState.CreateLockedCreated | drivers/mempool/octeontx/octeontx_fpavf.c:511-554 | the exact state after the locked part when every stage is accepted |
| FpaState.CreateLockedRejected | drivers/mempool/octeontx/octeontx_fpavf.c:512-528 | without a claim only errno changes (-ENOSPC, or ENOSPC for a bad handle) and no handle comes back |
| FpaState.CreateLockedOutcome | drivers/mempool/octeontx/octeontx_fpavf.c:511-569 | the locked part returns a handle iff it created the pool, and it does not depend on the start-count status |
| FpaState.CreateLockedNoMemory | drivers/mempool/octeontx/octeontx_fpavf.c:533-538 | without a stack block the slot is given back and only errno (-ENOMEM) changes |
| FpaState.CreateLockedSetupRefused | drivers/mempool/octeontx/octeontx_fpavf.c:533-538 | a refused setup gives the slot back with the dangling stack base, one request sent, errno -EACCES |
| FpaState.CreateLockedAttachRefused | drivers/mempool/octeontx/octeontx_fpavf.c:541-577 | a refused attach resets the pool, clears its stack base, gives the slot back, three requests sent, errno -EACCES |
| FpaState.CreateNoMemory | drivers/mempool/octeontx/octeontx_fpavf.c:533-581 | with no stack block the whole creation returns NULL, sets errno to -ENOMEM, and changes nothing else |
| FpaState.CreateSetupRefused | drivers/mempool/octeontx/octeontx_fpavf.c:533-581 | a PF refusal of the setup: NULL, errno -EACCES, one request logged, and only the claimed slot's stack base changes, to the freed block |
| FpaState.CreateAttachRefused | drivers/mempool/octeontx/octeontx_fpavf.c:541-581 | an attach refusal: NULL, errno -EACCES, the setup, attach and reset requests logged in that order, and only the claimed slot's stack base changes, to 0 |
| FpaState.CreateRejected | drivers/mempool/octeontx/octeontx_fpavf.c:502-528 | a NULL area, an oversized object, no free slot or a bad handle: only errno changes, to the expected value, and the result is NULL |
| FpaState.CreateUnwound | drivers/mempool/octeontx/octeontx_fpavf.c:533-581 | after a refused stage: no handle, the expected errno, heap and registers unchanged, every slot as before but the stack base of the claimed one |
| FpaState.CreateUnwindTrace | drivers/mempool/octeontx/octeontx_fpavf.c:533-581 | per failing stage: what the claimed slot's stack base and the mailbox log hold afterwards |
| FpaState.CreateCreated | drivers/mempool/octeontx/octeontx_fpavf.c:486-569 | the exact state after a successful creation, including the five register writes and the three requests |
| FpaState.CreateOutcomes | drivers/mempool/octeontx/octeontx_fpavf.c:486-582 | creation takes the exit of the first failing check in source order and leaves that exit's errno; a handle comes back iff the pool was created; the VF setup exit is never taken |
| FpaState.CreateFailsCleanly | drivers/mempool/octeontx/octeontx_fpavf.c:571-581 | a failed creation returns NULL and leaks nothing: heap, registers and every handle's validity are as before. An early exit keeps table and log; a late one leaves the slot unsized and not in use |
| FpaState.CreateSucceeds | drivers/mempool/octeontx/octeontx_fpavf.c:486-569 | the first free slot is used; its handle validates, decodes to the slot and reports the rounded size; only that slot changes; the fresh stack is live; errno is untouched; count and limit are the object count, the threshold one above; the three requests went in order |
| FpaVf.FpaDev.constructor | drivers/mempool/octeontx/octeontx_fpavf.c:128-134 | the static `fpadev` starts zeroed and unlocked |
| FpaVf.FpaDev.Setup | drivers/mempool/octeontx/octeontx_fpavf.c:584-605 | the first call resets every slot and the counter; later calls change nothing |
| FpaVf.FpaDev.Identify | drivers/mempool/octeontx/octeontx_fpavf.c:607-640 | returns `IdentifyResult` and leaves the table `IdentifyTable` of the old one |
| FpaVf.FpaDev.Probe | drivers/mempool/octeontx/octeontx_fpavf.c:657-670 | -ENODEV for an unmapped BAR; otherwise set up once, identify, and count the VF only when identification succeeded |
| FpaVf.FpaDev.GpoolAlloc | drivers/mempool/octeontx/octeontx_fpavf.c:137-168 | the loop returns `AllocResult` and leaves `AllocTable` of the old table |
| FpaVf.FpaDev.Gpool2Handle | drivers/mempool/octeontx/octeontx_fpavf.c:171-183 | the handle decodes to the slot and its window, and is non-zero for a mapped slot |
| FpaVf.FpaDev.SetSlot | drivers/mempool/octeontx/octeontx_fpavf.c:249 | a store into one slot of `fpadev.pool[]` changes that slot and no other |
| FpaVf.FpaDev.HandleValid | drivers/mempool/octeontx/octeontx_fpavf.c:185-220 | the scan returns `HandleValidSpec` of the table and changes nothing |
| FpaVf.FpaDev.BlockSize | drivers/mempool/octeontx/octeontx_fpavf.c:471-484 | returns `BlockSizeSpec` of the table |
| FpaVf.FpaDev.GpoolFree | drivers/mempool/octeontx/octeontx_fpavf.c:458-466 | the state and return value are those of `GpoolFreeStep` |
| FpaVf.FpaDev.FpavfFree | drivers/mempool/octeontx/octeontx_fpavf.c:441-456 | the state and return value are those of `FpavfFreeStep` |
| FpaVf.FpaDev.PfPoolSetup | drivers/mempool/octeontx/octeontx_fpavf.c:222-291 | the heap answers a fresh block or NULL, and state and return value are those of `PoolSetupStep` for those answers |
| FpaVf.FpaDev.PfPoolDestroy | drivers/mempool/octeontx/octeontx_fpavf.c:293-330 | state and return value are those of `PoolDestroyStep` |
| FpaVf.FpaDev.AuraAttach | drivers/mempool/octeontx/octeontx_fpavf.c:332-363 | state and return value are those of `AuraAttachStep` |
| FpaVf.FpaDev.AuraDetach | drivers/mempool/octeontx/octeontx_fpavf.c:365-390 | state and return value are those of `AuraDetachStep` |
| FpaVf.FpaDev.StartCount | drivers/mempool/octeontx/octeontx_fpavf.c:414-439 | state and return value are those of `StartCountStep` |
| FpaVf.FpaDev.VfPoolSetup | drivers/mempool/octeontx/octeontx_fpavf.c:392-412 | state and return value are those of `VfPoolSetupStep` |
| FpaVf.FpaDev.Claim | drivers/mempool/octeontx/octeontx_fpavf.c:512-528 | state, slot, handle and claim result are those of `ClaimStep`; the lock stays held |
| FpaVf.FpaDev.ConfigureClaimed | drivers/mempool/octeontx/octeontx_fpavf.c:533-575 | the stages and their unwinding compute `ConfigureStep` for the answers received |
| FpaVf.FpaDev.CreateLocked | drivers/mempool/octeontx/octeontx_fpavf.c:511-578 | the locked part computes `CreateLockedStep` and keeps the lock held |
| FpaVf.FpaDev.StartAura | drivers/mempool/octeontx/octeontx_fpavf.c:559-567 | the three aura register writes, then `StartCountStep`, whose status is dropped |
| FpaVf.FpaDev.BufpoolCreate | drivers/mempool/octeontx/octeontx_fpavf.c:486-582 | the state, handle and exit are those of `CreateSpec`, so every property of `CreateSpec` above holds of the method; the lock is released on every path |

## Left out

- PCI registration (lines 680-696) is not modelled. The same goes for the secondary-process early return of `fpavf_probe` (654-655) and `rte_wmb`. `FpaVf.FpaDev.Probe` starts at the BAR check.
- `octeontx_ssovf_mbox_send` is an oracle that returns any status. The functional `res_code` and the response buffers are not modelled, because the driver only logs them.
- The heap's internals and the alignment argument of `rte_malloc` are not modelled. `rte_malloc_virt2phy` returns any address.
- `fpavf_read64` becomes parameters of `Identify` and `Probe`: the identification word and the stack unit the device reports.
- `fpavf_write64` records the last value per window, register and gpool. The byte offsets of the `FPA_VF_*` register macros are not modelled.
- `rte_spinlock` is a boolean field, with no concurrent callers. Interleavings of the lock-free tail of creation are therefore not modelled.
- The `RTE_ASSERT`s (155-157, 176) are not modelled, because they are compiled out. Logging, `RTE_SET_USED`, `node_id` and the static assertion at 499-500 are not modelled either.
- `octeontx_fpavf.h` is not part of this model. Its values are taken as follows:
  - `FPA_VF_MAX` is 32, like `FPA_MAX_POOL`.
  - `FPA_GPOOL_MASK` is 31.
  - `octeontx_fpa_bufpool_gpool` is `handle & FPA_GPOOL_MASK`.
  - `FPA_MAX_OBJ_SIZE` is the parameter `maxObjSize`.
- FpaVf.FpaDev.Identify: requires a non-null window with its five low bits clear, i.e. a BAR aligned as the device provides it. The source does not check this itself.
- FpaVf.FpaDev.Probe: requires the BAR's five low bits to be clear, for the same reason.
- FpaVf.FpaDev.BufpoolCreate: requires the lock to be free on entry. With no other caller, a held lock would spin forever.
- The `res == NULL` test in `octeontx_fpa_gpool2handle` (178-179) is not modelled, because it is never true of an array element.
- Pool destruction after a successful creation is not modelled, because this file has no such entry point.

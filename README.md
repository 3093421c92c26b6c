# R-Car TA certificate authenticator, modelled in Dafny

This project models the part of OP-TEE's R-Car platform port that checks a Trusted Application (TA) image before OP-TEE runs it. The model covers:

- **Product probe** (`rcar_maskrom.c`). The PRR register value selects the SoC variant (H3, M3 or unknown) and the mask-ROM entry points for that variant and the build width (ARM32 or ARM64).
- **Certificate sizes** (`rcar_ta_auth.c`). The key-certificate size, content-certificate size and object size are computed from the 4-word certificate headers in the input blob `[key cert || content cert || object]`.
- **Boot-mode decision** (`get_auth_mode`). The ROM `GetLcs` reply, MFIS_SOFTMDR and RST_MODEMR decide between SECURE (the default) and NORMAL boot.
- **Facade** (`rcar_auth_ta_certificate`). It clamps the sizes, refuses an unknown product or an oversize object, and copies the object and both certificates into the fixed staging region. Then it either bypasses the ROM (NORMAL) or calls `ROM_SecureBootAPI` while holding the hardware-engine lock (SECURE).

Files and modules:

- `words.dfy`, module `Words`: bytes, 32-bit words, the `u32` range, little-endian loads.
- `certificate.dfy`, module `Certificate`: header parsing, the three size functions, clamping.
- `boot_mode.dfy`, module `BootMode`: `get_auth_mode`.
- `mask_rom.dfy`, module `MaskRom`: the ROM address tables, the product globals as class `Product`, `product_setup`, `get_PRR_type`.
- `staging.dfy`, module `Staging`: the fixed memory map, the three copies, the object-overflow check.
- `ta_auth.dfy`, module `TaAuth`: the hardware engine and ROM as class `Soc`, `call_maskrom_api`, `rcar_auth_ta_certificate`.

Modelling choices:

- Header words and register values are `bv32`, so C's masks and shifts carry over directly.
- Sizes are unbounded integers with the result type `u32` (the 32-bit unsigned range). So "the C computation never wraps" is a checked proof obligation. The one place where C does wrap, `obj_size *= 4`, is written out modulo 2^32.
- The staging region is an `array<bv8>`. Its length plays the role of TA_VERIFICATION_SIZE, and addresses are offsets from TA_VERIFICATION_BASE. The key-cert slot starts at `size - 3*4096`, the content-cert slot at `size - 2*4096`, and the stack slot at `size - 4096`.
- The caller's `*secmem_ta` is the second result of `TaAuth.AuthTaCertificate`. `None` means it was not written; `Some(0)` means the region base was written.
- The PRR product codes are defined in a header that is not part of this model. They are parameters (`MaskRom.PrrCodes`), constrained by the explicit assumption `PrrCodes.Valid()`:
  - H3 and M3 are distinct codes inside the product mask;
  - the UNKNOWN flag is non-zero;
  - neither H3 nor M3 carries the UNKNOWN flag.
- The mask ROM is an oracle (`TaAuth.RomFirmware`). `ROM_SecureBootAPI` becomes a function from the entry address, the two 4 KiB slot contents and the object area below the key-cert slot to a status. The ROM finds the staged object through the content certificate's store address, so its verdict may depend on the object too. `ROM_GetLcs` becomes a function from its entry address to a status and an LCS value.
- The lock bracket is recorded in a ghost trace on `TaAuth.Soc`: `EngineLocked`, `SecureBootCalled(entry, key slot, content slot)`, `EngineUnlocked`. The ROM call is only callable while the lock is held.

## Model

| member | source | states |
|---|---|---|
| `Words.LoadLE32` | core/arch/arm/plat-rcar/rcar_ta_auth.c:96-99 | a header or record-length word is the little-endian 32-bit load of four blob bytes; its low byte is the first byte and its high byte the fourth |
| `Words.StoreLE32` | core/arch/arm/plat-rcar/rcar_ta_auth.c:99 | the four bytes of a word, least significant first (the inverse view used to state what a load reads) |
| `Words.LoadStoreLE32` | core/arch/arm/plat-rcar/rcar_ta_auth.c:99 | loading the stored bytes of a word returns that word |
| `Words.StoreLoadLE32` | core/arch/arm/plat-rcar/rcar_ta_auth.c:99 | a loaded word determines exactly the four bytes it was loaded from |
| `Certificate.HeaderAt` | core/arch/arm/plat-rcar/rcar_ta_auth.c:32-35 | word 2 (size) and word 3 (flag) of a header are the loads at byte offsets 8 and 12 |
| `Certificate.SignatureCode` | core/arch/arm/plat-rcar/rcar_ta_auth.c:64 | the code is bits [22:21] of the flag word: below 4, 0 exactly when both bits are clear, 1 exactly when only bit 21 is set, 2 exactly when only bit 22 is set, 3 exactly when both are set |
| `Certificate.SignatureSize` | core/arch/arm/plat-rcar/rcar_ta_auth.c:64-73 | the signature length is 256, 384 or 512; 384 exactly for code 1, 512 exactly for code 2, so codes 0 and 3 give 256 |
| `Certificate.BlockCount` | core/arch/arm/plat-rcar/rcar_ta_auth.c:61 | the block count is the low 16 bits of the size word, at most 0xFFFF |
| `Certificate.KeyCertSize` | core/arch/arm/plat-rcar/rcar_ta_auth.c:55-78 | the key-cert size is a multiple of 4 between 256 and 0xFFFF*4+512, so it fits in uint32; removing the signature length leaves 4 times the block count |
| `Certificate.ContentCertSize` | core/arch/arm/plat-rcar/rcar_ta_auth.c:80-87 | the content-cert size exceeds the key-cert size of the same header by exactly 12, is a multiple of 4 and fits in uint32 |
| `Certificate.ObjectLengthOffset` | core/arch/arm/plat-rcar/rcar_ta_auth.c:97 | the record-length word sits at the key-cert size plus 8, which is the last word of the unclamped content cert |
| `Certificate.ObjectSize` | core/arch/arm/plat-rcar/rcar_ta_auth.c:89-103 | the object size is the record-length word times 4 modulo 2^32: a multiple of 4 equal to 4 times the word's low 30 bits |
| `Certificate.MulFourWraps` | core/arch/arm/plat-rcar/rcar_ta_auth.c:100 | uint32 multiplication by 4 drops the two top bits of the factor |
| `Certificate.EffectiveKeyCertSize` | core/arch/arm/plat-rcar/rcar_ta_auth.c:174-177 | a key-cert size above 4096 is replaced by exactly 0x24C, any other is kept; the result fits its 4096-byte slot |
| `Certificate.EffectiveContentCertSize` | core/arch/arm/plat-rcar/rcar_ta_auth.c:179-183 | a content-cert size above 4096 is replaced by exactly 0x268, any other is kept; the result fits its 4096-byte slot |
| `Certificate.KeyCertLen` | core/arch/arm/plat-rcar/rcar_ta_auth.c:174-177 | the facade's key-cert size, read from the blob's first header, never exceeds the slot |
| `Certificate.ContentCertLen` | core/arch/arm/plat-rcar/rcar_ta_auth.c:178-183 | the facade's content-cert size, read from the header at the clamped key-cert size, never exceeds the slot |
| `Certificate.ObjectLen` | core/arch/arm/plat-rcar/rcar_ta_auth.c:178-184 | the facade's object size is read from the content cert that starts at the clamped key-cert size, and is a multiple of 4 |
| `Certificate.SignatureSizeDependsOnlyOnFlagBits` | core/arch/arm/plat-rcar/rcar_ta_auth.c:64 | two flag words that agree on bits [22:21] give the same signature length |
| `Certificate.SignatureSizeTable` | core/arch/arm/plat-rcar/rcar_ta_auth.c:64-73 | codes 0, 1, 2, 3 give 256, 384, 512, 256 |
| `Certificate.KeyCertSizeDependsOnlyOnFields` | core/arch/arm/plat-rcar/rcar_ta_auth.c:55-78 | the key-cert size depends only on the low 16 bits of word 2 and bits [22:21] of word 3 |
| `Certificate.KeyCertSizeExample` | core/arch/arm/plat-rcar/rcar_ta_auth.c:55-87 | a header with 0x93 blocks and code 2 has key-cert size 0x93*4+512 and content-cert size 12 more |
| `Certificate.ObjectLengthFieldPlacement` | core/arch/arm/plat-rcar/rcar_ta_auth.c:179-184 | unclamped, the record-length word is the content cert's last word; once clamped, it lies beyond the default-size copy, because the offset uses the unclamped size |
| `Certificate.ObjectSizeWraps` | core/arch/arm/plat-rcar/rcar_ta_auth.c:100 | a record length of 0x40000001 gives object size 4 |
| `Certificate.ObjectSizeOfEveryAlignedValue` | core/arch/arm/plat-rcar/rcar_ta_auth.c:89-103 | get_object_size reaches every multiple of 4 below 2^32: for each one some readable content certificate has exactly that object size |
| `BootMode.DecideAuthMode` | core/arch/arm/plat-rcar/rcar_ta_auth.c:105-140 | a non-zero GetLcs status gives SECURE; with LCS SE the result is NORMAL iff bit 0 of SOFTMDR is set; otherwise NORMAL iff bit 5 of MODEMR is set |
| `BootMode.NormalBootNeedsEvidence` | core/arch/arm/plat-rcar/rcar_ta_auth.c:113-134 | NORMAL implies a successful LCS read and the register bit that belongs to the lifecycle |
| `BootMode.DecisionIgnoresOtherRegister` | core/arch/arm/plat-rcar/rcar_ta_auth.c:118-134 | under LCS SE the MODEMR value is irrelevant; under any other LCS the SOFTMDR value is irrelevant |
| `BootMode.DecisionReadsOneBitPerRegister` | core/arch/arm/plat-rcar/rcar_ta_auth.c:119-127 | only bit 0 of SOFTMDR and bit 5 of MODEMR influence the decision |
| `MaskRom.RomEntryPoints` | core/arch/arm/plat-rcar/rcar_maskrom.c:38-52 | per width and variant the (secure boot, GetLcs) pair is ARM32 H3 (0xEB101F54, 0xEB1021B4), M3 (0xEB103EFC, 0xEB10415C), ARM64 H3 (0xEB10DD64, 0xEB10DFE0), M3 (0xEB1102FC, 0xEB110578); all are word-aligned ROM addresses with the secure-boot entry below the GetLcs entry |
| `MaskRom.InitialProductState` | core/arch/arm/plat-rcar/rcar_maskrom.c:55-58 | the defaults are type H3, name "H3" and the H3 pair of the build width |
| `MaskRom.GetPrrType` | core/arch/arm/plat-rcar/rcar_maskrom.c:86-94 | the product type lies within the product mask, and together with the register's other bits it gives back the register value; as a function it changes no global |
| `MaskRom.IsUnknownProduct` | core/arch/arm/plat-rcar/rcar_ta_auth.c:202 | the refusal test on `product_type & PRR_PRODUCT_UNKNOWN`; under the code assumptions it never fires for the H3 or M3 code |
| `MaskRom.SetupState` | core/arch/arm/plat-rcar/rcar_maskrom.c:60-84 | product_setup on values: the ROM pointers either stay as they were or become the M3 pair of the width, and the name either stays or becomes "M3" or "unknown" |
| `MaskRom.Product.constructor` | core/arch/arm/plat-rcar/rcar_maskrom.c:55-58 | the four globals start at the H3 defaults |
| `MaskRom.Product.ProductSetup` | core/arch/arm/plat-rcar/rcar_maskrom.c:60-84 | the new globals are the switch on the masked PRR value applied to the old globals |
| `MaskRom.SetupH3KeepsState` | core/arch/arm/plat-rcar/rcar_maskrom.c:69-71 | an H3 code changes no global |
| `MaskRom.SetupM3SelectsM3` | core/arch/arm/plat-rcar/rcar_maskrom.c:72-77 | an M3 code sets type M3, name "M3" and both M3 ROM pointers, and the UNKNOWN flag is clear |
| `MaskRom.SetupOtherFlagsUnknown` | core/arch/arm/plat-rcar/rcar_maskrom.c:78-82 | any other code sets the type to the masked code OR UNKNOWN (so the flag is set) and the name to "unknown", and keeps both ROM pointers |
| `MaskRom.SetupIdempotent` | core/arch/arm/plat-rcar/rcar_maskrom.c:60-84 | running product_setup twice on the same PRR value gives the state of running it once |
| `MaskRom.SetupFromDefaults` | core/arch/arm/plat-rcar/rcar_maskrom.c:55-84 | after the probe from the defaults, the UNKNOWN flag is set iff the code is neither H3 nor M3, and the ROM pointers are always one row of the table |
| `Staging.NonCacheStackTop` | core/arch/arm/plat-rcar/rcar_ta_auth.c:18-19 | TA_NONCACHE_STACK_ADDR, the stack top, is the region's end; the stack slot is the 4096 bytes below it (used by `StagingSparesStack`) |
| `Staging.ContentCertSlot` | core/arch/arm/plat-rcar/rcar_ta_auth.c:20-22 | the content-cert slot ends 4096 bytes before the region's end |
| `Staging.KeyCertSlot` | core/arch/arm/plat-rcar/rcar_ta_auth.c:23-24 | the key-cert slot starts 3*4096 bytes before the end and ends where the content-cert slot starts |
| `Staging.ObjectFits` | core/arch/arm/plat-rcar/rcar_ta_auth.c:205 | the overflow check, on offsets: it admits an object exactly when the object area and the three slots fit in the region together |
| `Staging.Arm32AddressCheck` | core/arch/arm/plat-rcar/rcar_ta_auth.c:205 | the check on 32-bit addresses as an ARM32 build computes it; it agrees with `ObjectFits` whenever the address sum does not wrap |
| `Staging.Splice` | core/arch/arm/plat-rcar/rcar_ta_auth.c:208-216 | a memcpy result: same length, the copied bytes in the destination range, every other byte unchanged |
| `Staging.Staged` | core/arch/arm/plat-rcar/rcar_ta_auth.c:207-216 | the region after the three memcpys (object to the base, key cert and content cert to their slots); same length as the region, contents characterised by `StagedContents` |
| `Staging.StagedObject` | core/arch/arm/plat-rcar/rcar_ta_auth.c:207-210 | after staging, region[0..o) is blob[k+c..k+c+o) |
| `Staging.StagedKeyCert` | core/arch/arm/plat-rcar/rcar_ta_auth.c:211-213 | after staging, key slot [0..k) is blob[0..k) |
| `Staging.StagedContentCert` | core/arch/arm/plat-rcar/rcar_ta_auth.c:214-216 | after staging, content slot [0..c) is blob[k..k+c) |
| `Staging.StagedElsewhere` | core/arch/arm/plat-rcar/rcar_ta_auth.c:207-216 | a byte outside the three copied ranges keeps its old value |
| `Staging.StagedContents` | core/arch/arm/plat-rcar/rcar_ta_auth.c:207-216 | the three slices land in place and nothing else in the region changes |
| `Staging.StagingSparesStack` | core/arch/arm/plat-rcar/rcar_ta_auth.c:189-216 | staging never changes the 4096-byte stack slot below TA_NONCACHE_STACK_ADDR |
| `Staging.CopyToRegion` | core/arch/arm/plat-rcar/rcar_ta_auth.c:208-216 | memcpy into the region: the new region equals the splice of the source into the old region |
| `Staging.StageCertificates` | core/arch/arm/plat-rcar/rcar_ta_auth.c:207-216 | the three copies, in the code's order, leave the region equal to the staged image of the old region |
| `Staging.Arm32CheckAdmitsOversizeObject` | core/arch/arm/plat-rcar/rcar_ta_auth.c:205 | on ARM32 the address comparison passes an aligned object size that does not fit the object area (see Findings) |
| `Staging.Arm64CheckIsObjectFits` | core/arch/arm/plat-rcar/rcar_ta_auth.c:205 | with 64-bit addresses and a 32-bit object size, the address comparison is exactly "object size at most the key-cert slot offset" |
| `TaAuth.KeyCertArea` | core/arch/arm/plat-rcar/rcar_ta_auth.c:146 | the ROM receives the whole 4096-byte key-cert slot |
| `TaAuth.ContentCertArea` | core/arch/arm/plat-rcar/rcar_ta_auth.c:147 | the ROM receives the whole 4096-byte content-cert slot |
| `TaAuth.ObjectArea` | core/arch/arm/plat-rcar/rcar_ta_auth.c:208-210 | the object area the ROM checks is the region from its base (`fixed_ta`, where the object was copied) up to the key-cert slot |
| `TaAuth.Soc.HwEngineLock` | core/arch/arm/plat-rcar/rcar_ta_auth.c:150 | locking needs the engine free, holds it after, and records one acquisition |
| `TaAuth.Soc.RomSecureBoot` | core/arch/arm/plat-rcar/rcar_ta_auth.c:152 | the ROM can only be entered with the engine held; the call records the entry and both slot addresses, and returns the ROM's status for the current contents of both slots and of the object area |
| `TaAuth.Soc.HwEngineUnlock` | core/arch/arm/plat-rcar/rcar_ta_auth.c:154 | unlocking needs the engine held, frees it, and records one release |
| `TaAuth.RomCallTrace` | core/arch/arm/plat-rcar/rcar_ta_auth.c:150-154 | a bracketed call is three events: lock first, unlock last, and in between the ROM call at the entry with the key-cert and content-cert slot addresses |
| `TaAuth.ModeFor` | core/arch/arm/plat-rcar/rcar_ta_auth.c:116-139 | get_auth_mode through the product's `ROM_GetLcs` entry: a failed lifecycle read gives SECURE, and NORMAL needs one of the two register bits |
| `TaAuth.Refused` | core/arch/arm/plat-rcar/rcar_ta_auth.c:202-205 | the facade refuses exactly when the product is unknown or the object area and the three slots do not fit the region together; for an H3 or M3 product only the overflow test can refuse |
| `TaAuth.CallMaskRomApi` | core/arch/arm/plat-rcar/rcar_ta_auth.c:143-157 | the engine is locked exactly once, the ROM is entered once with the key-cert and content-cert slot addresses, and the engine is released; the ROM status for both slots and the object area is returned unchanged |
| `TaAuth.VerifyStaged` | core/arch/arm/plat-rcar/rcar_ta_auth.c:218-237 | NORMAL succeeds with no ROM call; SECURE makes one bracketed ROM call and succeeds iff the ROM returns 0 for the staged slots and object area; `*secmem_ta` is written (with the region base) exactly on success |
| `TaAuth.AuthTaCertificate` | core/arch/arm/plat-rcar/rcar_ta_auth.c:159-243 | an unknown product or an object overrunning the key-cert slot gives TEE_ERROR_SECURITY with no region byte changed, no ROM call and `*secmem_ta` unwritten; otherwise the region holds the staged image, NORMAL succeeds without a ROM call, SECURE succeeds iff the bracketed ROM call returns 0 on the staged slots and object area; `*secmem_ta` is the region base exactly on success |

## Left out

- MMIO reads of PRR, RST_MODEMR and MFIS_SOFTMDR: the values are parameters of `ProductSetup` and `AuthTaCertificate`.
- The mask-ROM firmware: `ROM_SecureBootAPI` and `ROM_GetLcs` are oracle functions, and their reserved/NULL argument is not modelled.
- TaAuth.CallMaskRomApi: the ROM is a pure function of the two slots and the object area, so writes the ROM makes to the non-cache stack or elsewhere are not modelled.
- `asm_switch_stack_pointer` is assembly that swaps the stack pointer, and `switch_stack_pointer` (rcar_maskrom.c:96-100) is its C wrapper. The model makes the ROM call directly.
- The real semantics of `hw_engine_lock`/`hw_engine_unlock` (blocking, the `hwlock` handle, the engine id), non-cacheable mappings and memory barriers are hardware and concurrency concerns. Only a ghost held flag and a ghost event trace remain.
- Logging (`EMSG`, `DMSG`). `product_name` is compared only for equality with "H3", "M3" and "unknown".
- Raw pointers: addresses are offsets into the staging array. The input blob is a separate value, so an overlap between the blob and the staging region is not modelled.
- TaAuth.AuthTaCertificate: that the blob is long enough is a precondition. The headers must be readable, and on the copy path the blob must hold `k + c + o` bytes. The C code does no bounds check on its input.
- Header words are read as byte loads; the alignment of the `const uint32_t *` view is not modelled.
- The numeric values of TEE_SUCCESS, TEE_ERROR_SECURITY, PRR_PRODUCT_* and TA_VERIFICATION_BASE/SIZE, whose headers (`rcar_common.h`, `platform_config.h`, the TEE API types) are not part of this model.

## Findings

| source | as written | input that shows it | evidently intended | confidence | as-written member | corrected member |
|---|---|---|---|---|---|---|
| core/arch/arm/plat-rcar/rcar_ta_auth.c:205 | `(fixed_base + object_size) <= fixed_key_cert` compares addresses; on ARM32 the sum is a 32-bit address and can wrap | ARM32 build with TA_VERIFICATION_BASE = B (word-aligned, region inside the 4 GiB space) and a record-length word of (2^32 - B)/4: object_size = 2^32 - B, the sum wraps to 0, the comparison passes, and the object memcpy is far larger than the object area | object_size at most TA_VERIFICATION_SIZE - 3*4096, which is what the ARM64 build computes (`Staging.Arm64CheckIsObjectFits`) | not executed; low: pointer overflow is undefined behaviour in C, so a compiler may fold the test into the intended offset comparison | `Staging.Arm32AddressCheck`, `Staging.Arm32CheckAdmitsOversizeObject` | `Staging.ObjectFits`, with `Staging.StagedKeyCert` and `Staging.StagedElsewhere` proving an admitted object leaves both slots and the stack intact |

A behaviour of the code worth noting: for an unknown product, `product_setup` keeps whatever ROM pointers were set before; it does not reset them to the H3 pair. They are the H3 pair only when the probe runs from the static defaults (`MaskRom.SetupFromDefaults`).

/** The authenticator facade of the R-Car platform (rcar_auth_ta_certificate)
    and its lock-bracketed ROM call (call_maskrom_api). */
module TaAuth {
  import opened Words
  import opened Certificate
  import opened BootMode
  import opened MaskRom
  import opened Staging

  datatype Option<T> = None | Some(value: T)

  /** TEE_SUCCESS or TEE_ERROR_SECURITY, the only results the facade returns. */
  datatype TeeResult = TeeSuccess | TeeErrorSecurity

  /** What ROM_GetLcs returns: a status (0 is success) and the lifecycle state. */
  datatype LcsReply = LcsReply(status: word, lcs: word)

  /** The mask-ROM firmware seen from outside: the status ROM_SecureBootAPI
      returns when entered at an address with the two certificate slots and
      the object area (which the content certificate's store address points
      the ROM at) as they are, and the reply of ROM_GetLcs entered at an
      address. */
  datatype RomFirmware = RomFirmware(secureBoot: (nat, seq<byte>, seq<byte>, seq<byte>) -> word,
                                     getLcs: nat -> LcsReply)

  /** The observable steps of a ROM call. Addresses are region offsets. */
  datatype Event =
    | EngineLocked
    | SecureBootCalled(entry: nat, keyCert: nat, contentCert: nat)
    | EngineUnlocked

  /** Offset of the verified TA header (fixed_ta): the region's base. */
  const FIXED_TA: nat := 0

  /** The TA object area below the key-certificate slot, where the staged
      object lies and where *secmem_ta points on success. */
  function ObjectArea(region: seq<byte>): (a: seq<byte>)
    requires TA_RESERVED_SIZE <= |region|
    ensures |a| == KeyCertSlot(|region|) && a == region[FIXED_TA..KeyCertSlot(|region|)]
  {
    region[..KeyCertSlot(|region|)]
  }

  /** The status the ROM's secure-boot entry at `entry` returns for the
      region as it stands: both certificate slots and the object area. */
  function RomVerdict(rom: RomFirmware, entry: nat, region: seq<byte>): word
    requires TA_RESERVED_SIZE <= |region|
  {
    rom.secureBoot(entry, KeyCertArea(region), ContentCertArea(region), ObjectArea(region))
  }

  /** The 4 KiB key-certificate slot as the ROM reads it. */
  function KeyCertArea(region: seq<byte>): (a: seq<byte>)
    requires TA_RESERVED_SIZE <= |region|
    ensures |a| == TA_KEY_CERT_AREA_SIZE
  {
    region[KeyCertSlot(|region|)..KeyCertSlot(|region|) + TA_KEY_CERT_AREA_SIZE]
  }

  /** The 4 KiB content-certificate slot as the ROM reads it. */
  function ContentCertArea(region: seq<byte>): (a: seq<byte>)
    requires TA_RESERVED_SIZE <= |region|
    ensures |a| == TA_CONTENT_CERT_AREA_SIZE
  {
    region[ContentCertSlot(|region|)..ContentCertSlot(|region|) + TA_CONTENT_CERT_AREA_SIZE]
  }

  /** The secure-core hardware engine and the ROM as the authenticator uses
      them. The lock and the trace are ghost: only the bracket is modelled. */
  class Soc {
    ghost var engineHeld: bool
    ghost var trace: seq<Event>

    constructor ()
      ensures !engineHeld && trace == []
    {
      engineHeld := false;
      trace := [];
    }

    /** hw_engine_lock(&hwlock, HWENG_SECURE_CORE). */
    method HwEngineLock()
      requires !engineHeld
      modifies this
      ensures engineHeld && trace == old(trace) + [EngineLocked]
    {
      engineHeld := true;
      trace := trace + [EngineLocked];
    }

    /** hw_engine_unlock(hwlock). */
    method HwEngineUnlock()
      requires engineHeld
      modifies this
      ensures !engineHeld && trace == old(trace) + [EngineUnlocked]
    {
      engineHeld := false;
      trace := trace + [EngineUnlocked];
    }

    /** ROM_SecureBootAPI(key_cert, content_cert, NULL), entered at `entry`;
        only callable while the engine is held. */
    method RomSecureBoot(rom: RomFirmware, entry: nat, region: array<byte>) returns (ret: word)
      requires engineHeld
      requires TA_RESERVED_SIZE <= region.Length
      modifies this
      ensures engineHeld
      ensures trace == old(trace) + [SecureBootCalled(entry, KeyCertSlot(region.Length), ContentCertSlot(region.Length))]
      ensures ret == RomVerdict(rom, entry, region[..])
    {
      trace := trace + [SecureBootCalled(entry, KeyCertSlot(region.Length), ContentCertSlot(region.Length))];
      ret := rom.secureBoot(entry, KeyCertArea(region[..]), ContentCertArea(region[..]), ObjectArea(region[..]));
    }
  }

  /** The three events of one bracketed secure-boot call. */
  function RomCallTrace(entry: nat, size: nat): (t: seq<Event>)
    requires TA_RESERVED_SIZE <= size
    ensures |t| == 3 && t[0] == EngineLocked && t[2] == EngineUnlocked
    ensures t[1] == SecureBootCalled(entry, KeyCertSlot(size), ContentCertSlot(size))
  {
    [EngineLocked, SecureBootCalled(entry, KeyCertSlot(size), ContentCertSlot(size)), EngineUnlocked]
  }

  /** call_maskrom_api: lock the engine, enter the ROM with the two slot
      addresses, unlock, and hand back the ROM status unchanged. The stack
      switch around it is a direct call here. */
  method CallMaskRomApi(soc: Soc, rom: RomFirmware, entry: nat, region: array<byte>) returns (ret: word)
    requires !soc.engineHeld
    requires TA_RESERVED_SIZE <= region.Length
    modifies soc
    ensures !soc.engineHeld
    ensures soc.trace == old(soc.trace) + RomCallTrace(entry, region.Length)
    ensures ret == RomVerdict(rom, entry, region[..])
  {
    soc.HwEngineLock();
    ret := soc.RomSecureBoot(rom, entry, region);
    soc.HwEngineUnlock();
  }

  /** The mode get_auth_mode decides with the product's GetLcs entry and the
      two register values. */
  function ModeFor(product: Product, rom: RomFirmware, softmdr: word, modemr: word): (m: AuthMode)
    reads product
    ensures rom.getLcs(product.romGetLcs).status != 0 ==> m == SecureBoot
    ensures m == NormalBoot ==> softmdr & SOFTMDR_NORMAL_BIT != 0 || modemr & MODEMR_MD5_BIT != 0
  {
    var reply := rom.getLcs(product.romGetLcs);
    DecideAuthMode(reply.status, reply.lcs, softmdr, modemr)
  }

  /** True when the facade refuses before copying: an unknown product, or an
      object that would overrun the key-certificate slot. */
  predicate Refused(product: Product, size: nat, blob: seq<byte>): (r: bool)
    reads product
    requires TA_RESERVED_SIZE <= size
    requires HeadersReadable(blob)
    ensures !r <==> !product.IsUnknown() && ObjectLen(blob) + TA_RESERVED_SIZE <= size
    ensures product.codes.Valid() && product.productType in {product.codes.h3, product.codes.m3} ==>
              (r <==> !ObjectFits(size, ObjectLen(blob)))
  {
    product.IsUnknown() || !ObjectFits(size, ObjectLen(blob))
  }

  /** The tail of rcar_auth_ta_certificate once the region is staged: decide
      the boot mode, then either bypass the ROM or call it. */
  method VerifyStaged(product: Product, soc: Soc, rom: RomFirmware,
                      softmdr: word, modemr: word, region: array<byte>)
    returns (res: TeeResult, secmemTa: Option<nat>)
    requires TA_RESERVED_SIZE <= region.Length
    requires !soc.engineHeld
    modifies soc
    ensures !soc.engineHeld
    ensures res == TeeSuccess <==> secmemTa == Some(FIXED_TA)
    ensures res == TeeErrorSecurity <==> secmemTa == None
    ensures ModeFor(product, rom, softmdr, modemr) == NormalBoot ==>
              res == TeeSuccess && soc.trace == old(soc.trace)
    ensures ModeFor(product, rom, softmdr, modemr) == SecureBoot ==>
              && soc.trace == old(soc.trace) + RomCallTrace(product.romSecureBootApi, region.Length)
              && (res == TeeSuccess <==>
                    RomVerdict(rom, product.romSecureBootApi, region[..]) == 0)
  {
    res := TeeErrorSecurity;
    secmemTa := None;
    var lcsReply := rom.getLcs(product.romGetLcs);
    var authMode := DecideAuthMode(lcsReply.status, lcsReply.lcs, softmdr, modemr);
    if authMode == SecureBoot {
      var ret := CallMaskRomApi(soc, rom, product.romSecureBootApi, region);
      if ret == 0 {
        secmemTa := Some(FIXED_TA);
        res := TeeSuccess;
      }
    } else {
      secmemTa := Some(FIXED_TA);
      res := TeeSuccess;
    }
  }

  /** rcar_auth_ta_certificate. `region` is the staging memory at
      TA_VERIFICATION_BASE; `blob` is the caller's [key cert || content cert ||
      object]; the result's second half is what is written to *secmem_ta
      (None: not written). */
  method AuthTaCertificate(product: Product, soc: Soc, rom: RomFirmware,
                           softmdr: word, modemr: word,
                           region: array<byte>, blob: seq<byte>)
    returns (res: TeeResult, secmemTa: Option<nat>)
    requires TA_RESERVED_SIZE <= region.Length
    requires HeadersReadable(blob)
    requires !Refused(product, region.Length, blob) ==>
               KeyCertLen(blob) + ContentCertLen(blob) + ObjectLen(blob) <= |blob|
    requires !soc.engineHeld
    modifies region, soc
    ensures !soc.engineHeld
    ensures res == TeeSuccess <==> secmemTa == Some(FIXED_TA)
    ensures res == TeeErrorSecurity <==> secmemTa == None
    ensures Refused(product, region.Length, blob) ==>
              && res == TeeErrorSecurity
              && region[..] == old(region[..])
              && soc.trace == old(soc.trace)
    ensures !Refused(product, region.Length, blob) ==>
              region[..] == Staged(old(region[..]), blob, KeyCertLen(blob), ContentCertLen(blob), ObjectLen(blob))
    ensures !Refused(product, region.Length, blob) && ModeFor(product, rom, softmdr, modemr) == NormalBoot ==>
              res == TeeSuccess && soc.trace == old(soc.trace)
    ensures !Refused(product, region.Length, blob) && ModeFor(product, rom, softmdr, modemr) == SecureBoot ==>
              && soc.trace == old(soc.trace) + RomCallTrace(product.romSecureBootApi, region.Length)
              && (res == TeeSuccess <==>
                    RomVerdict(rom, product.romSecureBootApi, region[..]) == 0)
  {
    res := TeeErrorSecurity;
    secmemTa := None;

    var keyCertSize := KeyCertSize(HeaderAt(blob, 0));
    if keyCertSize > TA_KEY_CERT_AREA_SIZE {
      keyCertSize := KEY_CERT_DEFAULT_SIZE;
    }
    var contentCert := keyCertSize;
    var contentCertSize := ContentCertSize(HeaderAt(blob, contentCert));
    if contentCertSize > TA_CONTENT_CERT_AREA_SIZE {
      contentCertSize := CONTENT_CERT_DEFAULT_SIZE;
    }
    var objectSize := ObjectSize(blob, contentCert);
    assert keyCertSize == KeyCertLen(blob) && contentCertSize == ContentCertLen(blob);
    assert objectSize == ObjectLen(blob);

    if IsUnknownProduct(product.codes, product.productType) {
      // Unknown product error
      assert Refused(product, region.Length, blob);
    } else if objectSize <= KeyCertSlot(region.Length) {
      assert !Refused(product, region.Length, blob);
      StageCertificates(region, blob, keyCertSize, contentCertSize, objectSize);
      res, secmemTa := VerifyStaged(product, soc, rom, softmdr, modemr, region);
    } else {
      // Overflow error
      assert Refused(product, region.Length, blob);
    }
  }
}

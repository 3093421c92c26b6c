/** Product probe of the R-Car platform (rcar_maskrom.c): the process-wide
    product identity and the mask-ROM entry points selected for it. */
module MaskRom {
  import opened Words

  /** Execution width, fixed at build time (ARM32 or ARM64). */
  datatype Width = Arm32 | Arm64

  /** The two SoC variants the probe knows. */
  datatype Variant = H3 | M3

  /** Addresses of ROM_SecureBootAPI and ROM_GetLcs. */
  datatype RomEntries = RomEntries(secureBootApi: nat, getLcsApi: nat)

  /** The per-width address table (ADDR_ROM_SECURE_API_* / ADDR_ROM_GETLCS_API_*). */
  function RomEntryPoints(width: Width, variant: Variant): (e: RomEntries)
    ensures 0xeb10_0000 <= e.secureBootApi < e.getLcsApi < 0xeb12_0000
    ensures e.secureBootApi % 4 == 0 && e.getLcsApi % 4 == 0
  {
    match (width, variant)
    case (Arm32, H3) => RomEntries(0xeb10_1f54, 0xeb10_21b4)
    case (Arm32, M3) => RomEntries(0xeb10_3efc, 0xeb10_415c)
    case (Arm64, H3) => RomEntries(0xeb10_dd64, 0xeb10_dfe0)
    case (Arm64, M3) => RomEntries(0xeb11_02fc, 0xeb11_0578)
  }

  /** PRR_PRODUCT_MASK, PRR_PRODUCT_H3, PRR_PRODUCT_M3 and PRR_PRODUCT_UNKNOWN,
      whose values come from a header that is not part of this model. */
  datatype PrrCodes = PrrCodes(mask: word, h3: word, m3: word, unknown: word) {
    /** What the probe relies on: the two product codes are distinct values of
        the product field, and the UNKNOWN flag is a non-empty set of bits
        that neither code carries. */
    predicate Valid() {
      && h3 != m3
      && h3 & mask == h3
      && m3 & mask == m3
      && unknown != 0
      && h3 & unknown == 0
      && m3 & unknown == 0
    }
  }

  /** The globals product_type, product_name, ROM_SecureBootAPI, ROM_GetLcs. */
  datatype ProductState = ProductState(productType: word, productName: string,
                                       secureBootApi: nat, getLcsApi: nat)

  /** The static initialisers: R-Car H3. */
  function InitialProductState(width: Width, codes: PrrCodes): (s: ProductState)
    ensures s.productType == codes.h3 && s.productName == "H3"
    ensures s.secureBootApi == RomEntryPoints(width, H3).secureBootApi
    ensures s.getLcsApi == RomEntryPoints(width, H3).getLcsApi
  {
    var e := RomEntryPoints(width, H3);
    ProductState(codes.h3, "H3", e.secureBootApi, e.getLcsApi)
  }

  /** get_PRR_type: the product field of the PRR register value. */
  function GetPrrType(codes: PrrCodes, reg: word): (t: word)
    ensures t & codes.mask == t
    ensures t | (reg & !codes.mask) == reg
  {
    reg & codes.mask
  }

  /** True when the UNKNOWN flag is set in a product type. */
  predicate IsUnknownProduct(codes: PrrCodes, productType: word): (r: bool)
    ensures codes.Valid() && r ==> productType != codes.h3 && productType != codes.m3
  {
    productType & codes.unknown != 0
  }

  /** product_setup, on values: the new globals for PRR register value `prr`. */
  function SetupState(s: ProductState, width: Width, codes: PrrCodes, prr: word): (t: ProductState)
    ensures RomEntries(t.secureBootApi, t.getLcsApi) == RomEntries(s.secureBootApi, s.getLcsApi)
            || RomEntries(t.secureBootApi, t.getLcsApi) == RomEntryPoints(width, M3)
    ensures t.productName == s.productName || t.productName == "M3" || t.productName == "unknown"
  {
    var t := GetPrrType(codes, prr);
    if t == codes.h3 then
      s
    else if t == codes.m3 then
      var e := RomEntryPoints(width, M3);
      ProductState(codes.m3, "M3", e.secureBootApi, e.getLcsApi)
    else
      s.(productType := t | codes.unknown, productName := "unknown")
  }

  /** The process-wide product configuration, updated in place by ProductSetup. */
  class Product {
    const width: Width
    const codes: PrrCodes
    var productType: word
    var productName: string
    var romSecureBootApi: nat
    var romGetLcs: nat

    function State(): ProductState
      reads this
    {
      ProductState(productType, productName, romSecureBootApi, romGetLcs)
    }

    /** The configuration before product_setup runs. */
    constructor (width: Width, codes: PrrCodes)
      ensures this.width == width && this.codes == codes
      ensures State() == InitialProductState(width, codes)
    {
      this.width := width;
      this.codes := codes;
      var e := RomEntryPoints(width, H3);
      productType := codes.h3;
      productName := "H3";
      romSecureBootApi := e.secureBootApi;
      romGetLcs := e.getLcsApi;
    }

    function IsUnknown(): bool
      reads this
    {
      IsUnknownProduct(codes, productType)
    }

    /** product_setup, with the PRR register value read by the caller. */
    method ProductSetup(prr: word)
      modifies this
      ensures State() == SetupState(old(State()), width, codes, prr)
    {
      ghost var target := SetupState(State(), width, codes, prr);
      var t := GetPrrType(codes, prr);
      if t == codes.h3 {
        // No operation
      } else if t == codes.m3 {
        var e := RomEntryPoints(width, M3);
        productType := codes.m3;
        productName := "M3";
        romSecureBootApi := e.secureBootApi;
        romGetLcs := e.getLcsApi;
      } else {
        productType := t | codes.unknown;
        productName := "unknown";
      }
      assert State() == target;
    }
  }

  // ---------------------------------------------------------------------
  // Properties

  /** An H3 register value leaves every global as it was. */
  lemma SetupH3KeepsState(s: ProductState, width: Width, codes: PrrCodes, prr: word)
    requires GetPrrType(codes, prr) == codes.h3
    ensures SetupState(s, width, codes, prr) == s
  {
  }

  /** An M3 register value selects the M3 identity and the M3 ROM pair. */
  lemma SetupM3SelectsM3(s: ProductState, width: Width, codes: PrrCodes, prr: word)
    requires codes.Valid()
    requires GetPrrType(codes, prr) == codes.m3
    ensures SetupState(s, width, codes, prr).productType == codes.m3
    ensures SetupState(s, width, codes, prr).productName == "M3"
    ensures SetupState(s, width, codes, prr).secureBootApi == RomEntryPoints(width, M3).secureBootApi
    ensures SetupState(s, width, codes, prr).getLcsApi == RomEntryPoints(width, M3).getLcsApi
    ensures !IsUnknownProduct(codes, SetupState(s, width, codes, prr).productType)
  {
  }

  /** Any other register value sets the UNKNOWN flag over the masked code,
      names the product "unknown" and keeps both ROM pointers. */
  lemma SetupOtherFlagsUnknown(s: ProductState, width: Width, codes: PrrCodes, prr: word)
    requires codes.Valid()
    requires GetPrrType(codes, prr) != codes.h3 && GetPrrType(codes, prr) != codes.m3
    ensures SetupState(s, width, codes, prr).productType == GetPrrType(codes, prr) | codes.unknown
    ensures IsUnknownProduct(codes, SetupState(s, width, codes, prr).productType)
    ensures SetupState(s, width, codes, prr).productName == "unknown"
    ensures SetupState(s, width, codes, prr).secureBootApi == s.secureBootApi
    ensures SetupState(s, width, codes, prr).getLcsApi == s.getLcsApi
  {
  }

  /** Running the probe twice on the same register value is running it once. */
  lemma SetupIdempotent(s: ProductState, width: Width, codes: PrrCodes, prr: word)
    ensures SetupState(SetupState(s, width, codes, prr), width, codes, prr)
            == SetupState(s, width, codes, prr)
  {
  }

  /** From the static defaults, the probe flags a product as unknown exactly
      when its code is neither H3 nor M3, and the ROM pointers are always
      those of a known variant. */
  lemma SetupFromDefaults(width: Width, codes: PrrCodes, prr: word)
    requires codes.Valid()
    ensures var s := SetupState(InitialProductState(width, codes), width, codes, prr);
            && (IsUnknownProduct(codes, s.productType) <==>
                  GetPrrType(codes, prr) != codes.h3 && GetPrrType(codes, prr) != codes.m3)
            && (exists v :: RomEntryPoints(width, v) == RomEntries(s.secureBootApi, s.getLcsApi))
  {
    var s := SetupState(InitialProductState(width, codes), width, codes, prr);
    if GetPrrType(codes, prr) == codes.m3 && codes.h3 != codes.m3 {
      assert RomEntryPoints(width, M3) == RomEntries(s.secureBootApi, s.getLcsApi);
    } else {
      assert RomEntryPoints(width, H3) == RomEntries(s.secureBootApi, s.getLcsApi);
    }
  }
}

/** The fixed staging region of the R-Car TA authenticator: the TA object
    area, followed by three 4 KiB slots (key certificate, content certificate,
    non-cache stack) at the end. Addresses are offsets from
    TA_VERIFICATION_BASE; the region's length is TA_VERIFICATION_SIZE. */
module Staging {
  import opened Words
  import opened Certificate

  const TA_NONCACHE_STACK_AREA_SIZE: nat := 4096

  /** The bytes at the end of the region that the three slots occupy. */
  const TA_RESERVED_SIZE: nat :=
    TA_KEY_CERT_AREA_SIZE + TA_CONTENT_CERT_AREA_SIZE + TA_NONCACHE_STACK_AREA_SIZE

  /** TA_NONCACHE_STACK_ADDR: the top of the non-cache stack, the region's end. */
  function NonCacheStackTop(size: nat): (off: nat)
    requires TA_RESERVED_SIZE <= size
    ensures off == size
  {
    size
  }

  /** TA_CONTENT_CERT_ADDR. */
  function ContentCertSlot(size: nat): (off: nat)
    requires TA_RESERVED_SIZE <= size
    ensures off + TA_CONTENT_CERT_AREA_SIZE + TA_NONCACHE_STACK_AREA_SIZE == size
  {
    NonCacheStackTop(size) - TA_NONCACHE_STACK_AREA_SIZE - TA_CONTENT_CERT_AREA_SIZE
  }

  /** TA_KEY_CERT_ADDR, which is also where the TA object area ends. */
  function KeyCertSlot(size: nat): (off: nat)
    requires TA_RESERVED_SIZE <= size
    ensures off + TA_RESERVED_SIZE == size
    ensures off + TA_KEY_CERT_AREA_SIZE == ContentCertSlot(size)
  {
    ContentCertSlot(size) - TA_KEY_CERT_AREA_SIZE
  }

  /** The overflow check of the facade: the object, copied to the region's base,
      ends at or before the key-certificate slot. */
  predicate ObjectFits(size: nat, o: nat): (r: bool)
    requires TA_RESERVED_SIZE <= size
    ensures r <==> o + TA_RESERVED_SIZE <= size
  {
    o <= KeyCertSlot(size)
  }

  /** `s` with `d` written over it from offset `off` on (a memcpy into `s`). */
  function Splice(s: seq<byte>, off: nat, d: seq<byte>): (r: seq<byte>)
    requires off + |d| <= |s|
    ensures |r| == |s|
    ensures r[off..off + |d|] == d
    ensures forall i :: 0 <= i < |s| && !(off <= i < off + |d|) ==> r[i] == s[i]
  {
    s[..off] + d + s[off + |d|..]
  }

  /** The facade's demands on the clamped sizes and the blob before it copies. */
  predicate CanStage(size: nat, blobLength: nat, k: nat, c: nat, o: nat)
  {
    && TA_RESERVED_SIZE <= size
    && ObjectFits(size, o)
    && k <= TA_KEY_CERT_AREA_SIZE
    && c <= TA_CONTENT_CERT_AREA_SIZE
    && k + c + o <= blobLength
  }

  /** The region after the three copies of the facade: the object, which
      follows both certificates in the blob, to the base; the key certificate
      to its slot; the content certificate to its slot. */
  function Staged(region: seq<byte>, blob: seq<byte>, k: nat, c: nat, o: nat): (r: seq<byte>)
    requires CanStage(|region|, |blob|, k, c, o)
    ensures |r| == |region|
  {
    var withObject := Splice(region, 0, blob[k + c..k + c + o]);
    var withKeyCert := Splice(withObject, KeyCertSlot(|region|), blob[..k]);
    Splice(withKeyCert, ContentCertSlot(|region|), blob[k..k + c])
  }

  /** True when offset `i` is written by one of the three copies. */
  predicate Written(size: nat, k: nat, c: nat, o: nat, i: nat)
    requires TA_RESERVED_SIZE <= size
  {
    || i < o
    || KeyCertSlot(size) <= i < KeyCertSlot(size) + k
    || ContentCertSlot(size) <= i < ContentCertSlot(size) + c
  }

  // ---------------------------------------------------------------------
  // Properties

  /** The object lands at the region's base. */
  lemma StagedObject(region: seq<byte>, blob: seq<byte>, k: nat, c: nat, o: nat)
    requires CanStage(|region|, |blob|, k, c, o)
    ensures Staged(region, blob, k, c, o)[..o] == blob[k + c..k + c + o]
  {
  }

  /** The key certificate lands in its slot. */
  lemma StagedKeyCert(region: seq<byte>, blob: seq<byte>, k: nat, c: nat, o: nat)
    requires CanStage(|region|, |blob|, k, c, o)
    ensures Staged(region, blob, k, c, o)[KeyCertSlot(|region|)..KeyCertSlot(|region|) + k] == blob[..k]
  {
  }

  /** The content certificate lands in its slot. */
  lemma StagedContentCert(region: seq<byte>, blob: seq<byte>, k: nat, c: nat, o: nat)
    requires CanStage(|region|, |blob|, k, c, o)
    ensures Staged(region, blob, k, c, o)[ContentCertSlot(|region|)..ContentCertSlot(|region|) + c] == blob[k..k + c]
  {
  }

  /** No byte outside the three copies changes. */
  lemma StagedElsewhere(region: seq<byte>, blob: seq<byte>, k: nat, c: nat, o: nat, i: nat)
    requires CanStage(|region|, |blob|, k, c, o)
    requires i < |region| && !Written(|region|, k, c, o, i)
    ensures Staged(region, blob, k, c, o)[i] == region[i]
  {
  }

  /** What the three copies leave in the region: each slice of the blob in its
      place, and every other byte as it was. */
  lemma StagedContents(region: seq<byte>, blob: seq<byte>, k: nat, c: nat, o: nat)
    requires CanStage(|region|, |blob|, k, c, o)
    ensures var r := Staged(region, blob, k, c, o);
            && r[..o] == blob[k + c..k + c + o]
            && r[KeyCertSlot(|region|)..KeyCertSlot(|region|) + k] == blob[..k]
            && r[ContentCertSlot(|region|)..ContentCertSlot(|region|) + c] == blob[k..k + c]
            && forall i :: 0 <= i < |region| && !Written(|region|, k, c, o, i) ==> r[i] == region[i]
  {
    StagedObject(region, blob, k, c, o);
    StagedKeyCert(region, blob, k, c, o);
    StagedContentCert(region, blob, k, c, o);
    forall i | 0 <= i < |region| && !Written(|region|, k, c, o, i)
      ensures Staged(region, blob, k, c, o)[i] == region[i]
    {
      StagedElsewhere(region, blob, k, c, o, i);
    }
  }

  /** The copies never reach the 4 KiB non-cache stack slot below the stack top. */
  lemma StagingSparesStack(region: seq<byte>, blob: seq<byte>, k: nat, c: nat, o: nat)
    requires CanStage(|region|, |blob|, k, c, o)
    ensures var top := NonCacheStackTop(|region|);
            Staged(region, blob, k, c, o)[top - TA_NONCACHE_STACK_AREA_SIZE..top]
            == region[top - TA_NONCACHE_STACK_AREA_SIZE..top]
  {
    StagedContents(region, blob, k, c, o);
  }

  /** memcpy into the region at offset `off`. */
  method CopyToRegion(region: array<byte>, off: nat, src: seq<byte>)
    requires off + |src| <= region.Length
    modifies region
    ensures region[..] == Splice(old(region[..]), off, src)
  {
    forall i | off <= i < off + |src| {
      region[i] := src[i - off];
    }
  }

  /** The three copies of the facade, in its order: the object (which follows
      both certificates in the blob) to the base, then the key certificate,
      then the content certificate to their slots. */
  method StageCertificates(region: array<byte>, blob: seq<byte>, k: nat, c: nat, o: nat)
    requires CanStage(region.Length, |blob|, k, c, o)
    modifies region
    ensures region[..] == Staged(old(region[..]), blob, k, c, o)
  {
    ghost var s0 := region[..];
    CopyToRegion(region, 0, blob[k + c..k + c + o]);
    ghost var s1 := region[..];
    assert s1 == Splice(s0, 0, blob[k + c..k + c + o]);
    CopyToRegion(region, KeyCertSlot(region.Length), blob[..k]);
    ghost var s2 := region[..];
    assert s2 == Splice(s1, KeyCertSlot(|s0|), blob[..k]);
    CopyToRegion(region, ContentCertSlot(region.Length), blob[k..k + c]);
    assert region[..] == Splice(s2, ContentCertSlot(|s0|), blob[k..k + c]);
  }

  // ---------------------------------------------------------------------
  // The overflow check as the C code states it, on addresses.

  /** `(fixed_base + object_size) <= fixed_key_cert` on ARM32, where the sum
      of two 32-bit values is a 32-bit address and wraps. */
  predicate Arm32AddressCheck(base: u32, size: nat, o: u32): (r: bool)
    requires TA_RESERVED_SIZE <= size
    ensures base + o < U32_LIMIT ==> (r <==> ObjectFits(size, o))
  {
    (base + o) % U32_LIMIT <= base + KeyCertSlot(size)
  }

  /** On ARM32 the address check admits an object size far beyond the object
      area: o = 2^32 - base wraps the end address to zero. */
  lemma Arm32CheckAdmitsOversizeObject(base: u32, size: nat)
    requires TA_RESERVED_SIZE <= size
    requires 0 < base && base % 4 == 0 && base + size <= U32_LIMIT
    ensures exists o: u32 :: o % CERT_BLOCK_SIZE == 0 && Arm32AddressCheck(base, size, o) && !ObjectFits(size, o)
  {
    var o: u32 := U32_LIMIT - base;
    assert (base + o) % U32_LIMIT == 0;
    assert o % CERT_BLOCK_SIZE == 0 && Arm32AddressCheck(base, size, o) && !ObjectFits(size, o);
  }

  const U64_LIMIT: int := 0x1_0000_0000_0000_0000

  /** On ARM64 the address sum cannot wrap for a 32-bit object size, so the
      address check is exactly ObjectFits. */
  lemma Arm64CheckIsObjectFits(base: nat, size: nat, o: u32)
    requires TA_RESERVED_SIZE <= size
    requires base + size <= U64_LIMIT && base + U32_LIMIT <= U64_LIMIT
    ensures ((base + o) % U64_LIMIT <= base + KeyCertSlot(size)) <==> ObjectFits(size, o)
  {
    assert (base + o) % U64_LIMIT == base + o;
  }
}

/** Certificate size arithmetic of the R-Car TA authenticator
    (get_key_cert_size, get_content_cert_size, get_object_size) and the
    clamping of the facade. Sizes are unbounded integers; their `u32` result
    type is the proof that the C computation in `uint32_t` never wraps, except
    in ObjectSize, where the wrap is written out. */
module Certificate {
  import opened Words

  const CERT_SIGNATURE_SIZE: nat := 256
  const CERT_STORE_ADDR_SIZE: nat := 8
  const CERT_REC_LEN_SIZE: nat := 4
  const CERT_ADD_DATA_SIZE: nat := CERT_STORE_ADDR_SIZE + CERT_REC_LEN_SIZE
  const CERT_OFS_BIT_SIZE: word := 0xffff
  const CERT_BLOCK_SIZE: nat := 4
  const CERT_SIG_FLAG_MASK: word := 0x0060_0000
  const TA_KEY_CERT_AREA_SIZE: nat := 4096
  const TA_CONTENT_CERT_AREA_SIZE: nat := 4096
  const KEY_CERT_DEFAULT_SIZE: nat := 0x24c
  const CONTENT_CERT_DEFAULT_SIZE: nat := 0x268

  /** The largest key-certificate size a header can describe. */
  const MAX_KEY_CERT_SIZE: nat := 0xffff * CERT_BLOCK_SIZE + 2 * CERT_SIGNATURE_SIZE

  /** The four-word certificate prefix: {magic, version, size, flag}. */
  datatype CertHeader = CertHeader(magic: word, version: word, size: word, flag: word)

  /** The header whose first word is at byte offset `off` of `blob`. */
  function HeaderAt(blob: seq<byte>, off: nat): (h: CertHeader)
    requires off + 16 <= |blob|
    ensures h.size == LoadLE32(blob, off + 8) && h.flag == LoadLE32(blob, off + 12)
  {
    CertHeader(LoadLE32(blob, off), LoadLE32(blob, off + 4),
               LoadLE32(blob, off + 8), LoadLE32(blob, off + 12))
  }

  /** Bits [22:21] of the flag word. */
  function SignatureCode(flag: word): (code: word)
    ensures code < 4
    ensures code == 0 <==> flag & 0x0020_0000 == 0 && flag & 0x0040_0000 == 0
    ensures code == 1 <==> flag & CERT_SIG_FLAG_MASK == 0x0020_0000
    ensures code == 2 <==> flag & CERT_SIG_FLAG_MASK == 0x0040_0000
    ensures code == 3 <==> flag & 0x0020_0000 != 0 && flag & 0x0040_0000 != 0
  {
    (flag & CERT_SIG_FLAG_MASK) >> 21
  }

  /** The signature length the flag word selects: base, one and a half times
      base, twice base, and base again for the reserved code 3. */
  function SignatureSize(flag: word): (n: nat)
    ensures n == 256 || n == 384 || n == 512
    ensures n == 384 <==> SignatureCode(flag) == 1
    ensures n == 512 <==> SignatureCode(flag) == 2
  {
    var code := SignatureCode(flag);
    if code == 1 then CERT_SIGNATURE_SIZE + CERT_SIGNATURE_SIZE / 2
    else if code == 2 then CERT_SIGNATURE_SIZE + CERT_SIGNATURE_SIZE
    else CERT_SIGNATURE_SIZE
  }

  /** The number of 4-byte blocks the size word announces (its low 16 bits). */
  function BlockCount(h: CertHeader): (n: nat)
    ensures n <= 0xffff
  {
    (h.size & CERT_OFS_BIT_SIZE) as nat
  }

  /** get_key_cert_size: blocks times four plus the signature length. */
  function KeyCertSize(h: CertHeader): (r: u32)
    ensures r % CERT_BLOCK_SIZE == 0
    ensures CERT_SIGNATURE_SIZE <= r <= MAX_KEY_CERT_SIZE
    ensures r - SignatureSize(h.flag) == CERT_BLOCK_SIZE * BlockCount(h)
  {
    var certSize := BlockCount(h) * CERT_BLOCK_SIZE;
    certSize + SignatureSize(h.flag)
  }

  /** get_content_cert_size: the key-certificate size of the same header plus
      the 8-byte store address and the 4-byte record length. */
  function ContentCertSize(h: CertHeader): (r: u32)
    ensures r % CERT_BLOCK_SIZE == 0
    ensures CERT_SIGNATURE_SIZE + CERT_ADD_DATA_SIZE <= r <= MAX_KEY_CERT_SIZE + CERT_ADD_DATA_SIZE
    ensures r - KeyCertSize(h) == CERT_ADD_DATA_SIZE
  {
    KeyCertSize(h) + CERT_ADD_DATA_SIZE
  }

  /** Byte offset, inside a content certificate, of its record-length word. */
  function ObjectLengthOffset(h: CertHeader): (r: nat)
    ensures r + CERT_REC_LEN_SIZE == ContentCertSize(h)
  {
    KeyCertSize(h) + CERT_STORE_ADDR_SIZE
  }

  /** True when the content certificate starting at `off` has a readable
      header and a readable record-length word. */
  predicate ContentCertReadable(blob: seq<byte>, off: nat)
  {
    && off + 16 <= |blob|
    && off + ObjectLengthOffset(HeaderAt(blob, off)) + CERT_REC_LEN_SIZE <= |blob|
  }

  /** The record-length word of the content certificate at `off`. */
  function ObjectLengthWord(blob: seq<byte>, off: nat): word
    requires ContentCertReadable(blob, off)
  {
    LoadLE32(blob, off + ObjectLengthOffset(HeaderAt(blob, off)))
  }

  /** get_object_size: the record-length word times the block size, in
      `uint32_t` arithmetic (so modulo 2^32). */
  function ObjectSize(blob: seq<byte>, off: nat): (r: u32)
    requires ContentCertReadable(blob, off)
    ensures r % CERT_BLOCK_SIZE == 0
    ensures r == CERT_BLOCK_SIZE * (ObjectLengthWord(blob, off) as int % 0x4000_0000)
  {
    var n := ObjectLengthWord(blob, off) as nat;
    MulFourWraps(n);
    (n * CERT_BLOCK_SIZE) % U32_LIMIT
  }

  /** Multiplying by four modulo 2^32 drops the two top bits of the factor. */
  lemma MulFourWraps(n: nat)
    ensures (n * 4) % U32_LIMIT == 4 * (n % 0x4000_0000)
  {
  }

  /** The key-certificate size the facade uses: an oversize value is replaced
      by the default. */
  function EffectiveKeyCertSize(size: u32): (k: nat)
    ensures k <= TA_KEY_CERT_AREA_SIZE
    ensures size <= TA_KEY_CERT_AREA_SIZE ==> k == size
    ensures size > TA_KEY_CERT_AREA_SIZE ==> k == KEY_CERT_DEFAULT_SIZE
  {
    if size > TA_KEY_CERT_AREA_SIZE then KEY_CERT_DEFAULT_SIZE else size
  }

  /** The content-certificate size the facade uses. */
  function EffectiveContentCertSize(size: u32): (c: nat)
    ensures c <= TA_CONTENT_CERT_AREA_SIZE
    ensures size <= TA_CONTENT_CERT_AREA_SIZE ==> c == size
    ensures size > TA_CONTENT_CERT_AREA_SIZE ==> c == CONTENT_CERT_DEFAULT_SIZE
  {
    if size > TA_CONTENT_CERT_AREA_SIZE then CONTENT_CERT_DEFAULT_SIZE else size
  }

  // The blob handed to the facade is [key cert || content cert || object].

  /** Clamped size of the key certificate at the start of the blob. */
  function KeyCertLen(blob: seq<byte>): (k: nat)
    requires 16 <= |blob|
    ensures k <= TA_KEY_CERT_AREA_SIZE
  {
    EffectiveKeyCertSize(KeyCertSize(HeaderAt(blob, 0)))
  }

  /** True when every header word the facade reads lies inside the blob. */
  predicate HeadersReadable(blob: seq<byte>)
  {
    16 <= |blob| && ContentCertReadable(blob, KeyCertLen(blob))
  }

  /** Clamped size of the content certificate, which starts right after the
      (clamped) key certificate. */
  function ContentCertLen(blob: seq<byte>): (c: nat)
    requires HeadersReadable(blob)
    ensures c <= TA_CONTENT_CERT_AREA_SIZE
  {
    EffectiveContentCertSize(ContentCertSize(HeaderAt(blob, KeyCertLen(blob))))
  }

  /** Object size, read through the UNCLAMPED key-certificate size of the
      content certificate's header. */
  function ObjectLen(blob: seq<byte>): (o: u32)
    requires HeadersReadable(blob)
    ensures o % CERT_BLOCK_SIZE == 0
  {
    ObjectSize(blob, KeyCertLen(blob))
  }

  // ---------------------------------------------------------------------
  // Properties

  /** The signature length depends on bits [22:21] of the flag word only. */
  lemma SignatureSizeDependsOnlyOnFlagBits(f: word, g: word)
    requires f & CERT_SIG_FLAG_MASK == g & CERT_SIG_FLAG_MASK
    ensures SignatureSize(f) == SignatureSize(g)
  {
  }

  /** The table of signature lengths, one flag word per code. */
  lemma SignatureSizeTable()
    ensures SignatureSize(0x0000_0000) == 256
    ensures SignatureSize(0x0020_0000) == 384
    ensures SignatureSize(0x0040_0000) == 512
    ensures SignatureSize(0x0060_0000) == 256
  {
  }

  /** The key-certificate size reads the low 16 bits of the size word and bits
      [22:21] of the flag word, and nothing else of the header. */
  lemma KeyCertSizeDependsOnlyOnFields(h: CertHeader, g: CertHeader)
    requires h.size & CERT_OFS_BIT_SIZE == g.size & CERT_OFS_BIT_SIZE
    requires h.flag & CERT_SIG_FLAG_MASK == g.flag & CERT_SIG_FLAG_MASK
    ensures KeyCertSize(h) == KeyCertSize(g)
  {
    SignatureSizeDependsOnlyOnFlagBits(h.flag, g.flag);
    assert BlockCount(h) == BlockCount(g);
  }

  /** A worked header: size field 0x93 blocks, flag bits [22:21] = 10. */
  lemma KeyCertSizeExample()
    ensures KeyCertSize(CertHeader(0, 0, 0x93, 0x0040_0000)) == 0x93 * 4 + 512
    ensures ContentCertSize(CertHeader(0, 0, 0x93, 0x0040_0000)) == 0x93 * 4 + 512 + 12
  {
  }

  /** Without clamping, the record-length word is the last word of the content
      certificate; once the content size is clamped, the word lies beyond the
      default-size copy that the facade makes. */
  lemma ObjectLengthFieldPlacement(h: CertHeader)
    ensures ContentCertSize(h) <= TA_CONTENT_CERT_AREA_SIZE ==>
              ObjectLengthOffset(h) + CERT_REC_LEN_SIZE == EffectiveContentCertSize(ContentCertSize(h))
    ensures ContentCertSize(h) > TA_CONTENT_CERT_AREA_SIZE ==>
              ObjectLengthOffset(h) >= EffectiveContentCertSize(ContentCertSize(h))
  {
  }

  /** Multiplying the record length by four wraps modulo 2^32. */
  lemma ObjectSizeWraps(blob: seq<byte>, off: nat)
    requires ContentCertReadable(blob, off)
    requires ObjectLengthWord(blob, off) == 0x4000_0001
    ensures ObjectSize(blob, off) == 4
  {
  }

  /** Every multiple of four below 2^32 is the object size of some content
      certificate: get_object_size reaches every aligned 32-bit value. */
  lemma ObjectSizeOfEveryAlignedValue(o: u32)
    requires o % CERT_BLOCK_SIZE == 0
    ensures exists blob: seq<byte> :: ContentCertReadable(blob, 0) && ObjectSize(blob, 0) == o
  {
    var w := RecordLengthFor(o);
    var blob := seq(264, _ => 0 as byte) + StoreLE32(w);
    RecordLengthWordOf(w, blob);
    assert ObjectSize(blob, 0) == o;
  }

  /** The record-length word whose object size is `o`. */
  function RecordLengthFor(o: u32): (w: word)
    requires o % CERT_BLOCK_SIZE == 0
    ensures CERT_BLOCK_SIZE * (w as int % 0x4000_0000) == o
  {
    WordOf(o / CERT_BLOCK_SIZE)
  }

  /** A zero key-certificate header followed by the word `w` is a readable
      content certificate whose record-length word is `w`. */
  lemma RecordLengthWordOf(w: word, blob: seq<byte>)
    requires blob == seq(264, _ => 0 as byte) + StoreLE32(w)
    ensures ContentCertReadable(blob, 0) && ObjectLengthWord(blob, 0) == w
  {
    var h := HeaderAt(blob, 0);
    assert h.size == 0 && h.flag == 0;
    assert ObjectLengthOffset(h) == 264;
    assert blob[264..268] == StoreLE32(w);
    LoadLE32Slice(blob, 264);
    LoadStoreLE32(w);
  }
}

/** Machine words and byte views shared by the R-Car TA authenticator model. */
module Words {

  type byte = bv8
  type word = bv32

  const U32_LIMIT: int := 0x1_0000_0000

  /** The values a C `uint32_t` can hold. */
  type u32 = x: int | 0 <= x < U32_LIMIT

  /** The 32-bit little-endian word at byte offset `off` of `s` (a
      `const uint32_t *` load on a little-endian ARM core). */
  function LoadLE32(s: seq<byte>, off: nat): (w: word)
    requires off + 4 <= |s|
    ensures w & 0xff == s[off] as word
    ensures w >> 24 == s[off + 3] as word
  {
    (s[off + 3] as word << 24) | (s[off + 2] as word << 16)
      | (s[off + 1] as word << 8) | s[off] as word
  }

  /** The four bytes of `w`, least significant first. */
  function StoreLE32(w: word): (s: seq<byte>)
    ensures |s| == 4
    ensures s[0] as word == w & 0xff && s[3] as word == w >> 24
  {
    [(w & 0xff) as byte, ((w >> 8) & 0xff) as byte,
     ((w >> 16) & 0xff) as byte, (w >> 24) as byte]
  }

  /** Loading the bytes of a stored word gives the word back. */
  lemma LoadStoreLE32(w: word)
    ensures LoadLE32(StoreLE32(w), 0) == w
  {
  }

  /** Storing a loaded word gives back the four bytes it was loaded from. */
  lemma StoreLoadLE32(s: seq<byte>, off: nat)
    requires off + 4 <= |s|
    ensures StoreLE32(LoadLE32(s, off)) == s[off..off + 4]
  {
  }

  /** A load reads only the four bytes it starts at. */
  lemma LoadLE32Slice(s: seq<byte>, off: nat)
    requires off + 4 <= |s|
    ensures LoadLE32(s, off) == LoadLE32(s[off..off + 4], 0)
  {
  }

  /** The word whose unsigned value is `n`, built bit by bit from the top. */
  function WordOf(n: nat): (w: word)
    requires n < U32_LIMIT
    ensures w as int == n
  {
    if n == 0 then 0
    else
      var half := WordOf(n / 2);
      assert half as int < 0x8000_0000;
      DoubleWord(half);
      if n % 2 == 0 then half << 1 else (half << 1) | 1
  }

  /** Shifting a word below 2^31 left by one doubles its value, and setting
      the bit shifted in adds one. */
  lemma DoubleWord(x: word)
    requires x as int < 0x8000_0000
    ensures (x << 1) as int == 2 * x as int
    ensures ((x << 1) | 1) as int == 2 * x as int + 1
  {
  }
}

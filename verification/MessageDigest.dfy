/** The MD2 message digest as RFC 1319 describes it: sections 3.1 (padding), 3.2 (checksum, in the
    exclusive-or form of the RFC's reference code), 3.3 to 3.5 (block processing and output).  Everything
    here is written over whole messages; the streaming accumulator is in IntegrityHash.  The substitution
    table is a parameter, s, so that no proof here depends on its entries; DigestVector has one of the RFC's
    own test values. */
module MessageDigest {

  import opened ByteStrings

  type Table = s: Bytes | |s| == 256 witness seq(256, i => 0)

  /** Exclusive or of bytes. */
  function Xor8(a: Byte, b: Byte): Byte {
    ((a as bv8) ^ (b as bv8)) as int
  }

  /** Section 3.1: append n bytes of value n, with n between 1 and 16. */
  function Pad(m: Bytes): (p: Bytes)
    ensures |p| % 16 == 0 && |m| < |p| <= |m| + 16
  {
    m + Padding(16 - |m| % 16, 16 - |m| % 16)
  }

  function Padding(value: Byte, count: nat): (p: Bytes)
    ensures |p| == count
  {
    seq(count, i => value)
  }

  /** What is appended is its own length, as often as that says. */
  lemma PadEnds(m: Bytes, k: nat)
    requires |m| <= k < |Pad(m)|
    ensures Pad(m)[..|m|] == m && Pad(m)[k] == |Pad(m)| - |m|
  {
  }

  /** So the last byte tells where the message ends, and no two messages have the same padded text. */
  lemma PadInjective(m: Bytes, n: Bytes)
    requires Pad(m) == Pad(n)
    ensures m == n
  {
    PadEnds(m, |Pad(m)| - 1);
    PadEnds(n, |Pad(n)| - 1);
    hide Pad;
  }

  /** The checksum C with its running byte L. */
  datatype Checksum = Checksum(c: Bytes, l: Byte)

  /** Section 3.2, one byte at a time: C[j] := C[j] xor S[m xor L]; L := C[j]. */
  function ChecksumOf(s: Table, m: Bytes): (r: Checksum)
    ensures |r.c| == 16
  {
    if m == [] then Checksum(seq(16, i => 0), 0)
    else
      var r := ChecksumOf(s, m[..|m| - 1]);
      var j := (|m| - 1) % 16;
      var v := Xor8(r.c[j], s[Xor8(m[|m| - 1], r.l)]);
      Checksum(r.c[j := v], v)
  }

  /** Section 3.4, the inner loop over the first k bytes of the 48-byte buffer, entered with t. */
  function Sweep(s: Table, x: Bytes, t: Byte, k: nat): (r: Bytes)
    requires k <= |x|
    ensures |r| == k
  {
    if k == 0 then []
    else
      var r := Sweep(s, x, t, k - 1);
      r + [Xor8(x[k - 1], s[if k == 1 then t else r[k - 2]])]
  }

  datatype Mixed = Mixed(x: Bytes, t: Byte)

  /** Section 3.4, the outer loop after j rounds; t gains the round number modulo 256 after each. */
  function Rounds(s: Table, x: Bytes, j: nat): (r: Mixed)
    requires |x| == 48
    ensures |r.x| == 48
  {
    if j == 0 then Mixed(x, 0)
    else
      var r := Rounds(s, x, j - 1);
      var y := Sweep(s, r.x, r.t, 48);
      Mixed(y, (y[47] + (j - 1)) % 256)
  }

  function Xor(a: Bytes, b: Bytes): (r: Bytes)
    requires |a| == |b|
    ensures |r| == |a|
  {
    seq(|a|, i requires 0 <= i < |a| => Xor8(a[i], b[i]))
  }

  /** One iteration of section 3.4: the new 16-byte state for one block. */
  function Compress(s: Table, state: Bytes, block: Bytes): (r: Bytes)
    requires |state| == 16 && |block| == 16
    ensures |r| == 16
  {
    Rounds(s, state + block + Xor(state, block), 18).x[..16]
  }

  /** Sections 3.3 and 3.4 over a whole number of blocks. */
  function Digest(s: Table, m: Bytes): (r: Bytes)
    requires |m| % 16 == 0
    ensures |r| == 16
  {
    if m == [] then seq(16, i => 0)
    else Compress(s, Digest(s, m[..|m| - 16]), m[|m| - 16..])
  }

  /** Section 3.5: the digest of the padded message followed by its checksum. */
  function Md2(s: Table, m: Bytes): (r: Bytes)
    ensures |r| == 16
  {
    var p := Pad(m);
    Digest(s, p + ChecksumOf(s, p).c)
  }

  function Masked(m: Bytes, mask: Byte): (r: Bytes)
    ensures |r| == |m|
  {
    seq(|m|, i requires 0 <= i < |m| => Xor8(m[i], mask))
  }

  /** Section 2 of RFC 2104 with a 16-byte block, for a key of exactly one block. */
  function Hmac(s: Table, key: Bytes, text: Bytes): (r: Bytes)
    requires |key| == 16
    ensures |r| == 16
  {
    Md2(s, Masked(key, 0x5c) + Md2(s, Masked(key, 0x36) + text))
  }

  /** With a key of zeros the two pads are the bytes 36 and 5C repeated. */
  lemma ZeroKey(s: Table, text: Bytes)
    ensures Hmac(s, seq(16, i => 0), text)
         == Md2(s, seq(16, i => 0x5c) + Md2(s, seq(16, i => 0x36) + text))
  {
    MaskedZeros(0x36);
    MaskedZeros(0x5c);
    hide Md2;
  }

  lemma MaskedZeros(mask: Byte)
    ensures Masked(seq(16, i => 0), mask) == seq(16, i => mask)
  {
    ZeroXor(mask);
    hide Xor8;
  }

  lemma ZeroXor(b: Byte)
    ensures Xor8(0, b) == b
  {
    var v := b as bv8;
    assert 0 ^ v == v;
    assert v as int <= b && b <= v as int;
  }
}

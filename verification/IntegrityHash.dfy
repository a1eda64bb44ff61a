/** The byte-at-a-time MD2 of the CUDA shim: a 66-byte accumulator updated in place. Bytes 0-15 are the
    digest state, 16-47 the working block and its exclusive-or with the state, 48-63 the checksum, 64 the
    position in the block and 65 the last checksum byte. */
module IntegrityHash {
  import opened ByteStrings
  import opened MessageDigest

  /** The layout: digest state, waiting bytes and their exclusive-or with the state, checksum. Bytes 16-47
      are constrained only where waiting bytes have been written. */
  ghost predicate Fields(a: Bytes, state: Bytes, tail: Bytes, k: Checksum) {
    && |a| == 66 && |state| == 16 && |tail| <= 16 && |k.c| == 16
    && (forall i :: 0 <= i < 16 ==> a[i] == state[i])
    && (forall i :: 16 <= i < 16 + |tail| ==> a[i] == tail[i - 16])
    && (forall i :: 32 <= i < 32 + |tail| ==> a[i] == Xor8(state[i - 32], tail[i - 32]))
    && (forall i :: 48 <= i < 64 ==> a[i] == k.c[i - 48])
    && a[65] == k.l
  }

  function Head(m: Bytes): (r: Bytes)
    ensures |r| % 16 == 0
  {
    m[..|m| - |m| % 16]
  }

  function Tail(m: Bytes): (r: Bytes)
    ensures |r| == |m| % 16
  {
    m[|m| - |m| % 16..]
  }

  /** What an accumulator that has consumed exactly m looks like. */
  ghost predicate Holds(s: Table, a: Bytes, m: Bytes) {
    Fields(a, Digest(s, Head(m)), Tail(m), ChecksumOf(s, m)) && a[64] == |m| % 16
  }

  /** Every fresh accumulator, and every one whose bytes 16-47 alone are stale, stands for no input. */
  lemma EmptyHolds(s: Table, a: Bytes)
    requires |a| == 66
    requires forall i :: 0 <= i < 16 || 48 <= i < 66 ==> a[i] == 0
    ensures Holds(s, a, [])
  {
  }

  /** The eighteen rounds over the first 48 bytes, in place. */
  method Transform(s: Table, a: array<Byte>)
    requires a.Length == 66 && s[0] == 0x29
    modifies a
    ensures a[..48] == Rounds(s, old(a[..48]), 18).x
    ensures a[48..] == old(a[48..])
  {
    ghost var x := a[..48];
    var state: Byte := 0x29;
    var round: Byte := 0;
    while true
      invariant round < 18
      invariant a[..48] == Rounds(s, x, round).x
      invariant state == s[Rounds(s, x, round).t]
      invariant a[48..] == old(a[48..])
      decreases 18 - round
    {
      ghost var y := a[..48];
      ghost var t := Rounds(s, x, round).t;
      state := Xor8(a[0], state);
      a[0] := state;
      var index := 1;
      while index < 48
        invariant 1 <= index <= 48
        invariant a[..index] == Sweep(s, y, t, index)
        invariant forall i :: index <= i < 48 ==> a[i] == y[i]
        invariant state == a[index - 1]
        invariant a[48..] == old(a[48..])
      {
        state := Xor8(a[index], s[state]);
        a[index] := state;
        index := index + 1;
      }
      state := (state + round) % 256;
      round := round + 1;
      if round == 18 { break; }
      state := s[state];
    }
  }

  function NextChecksum(s: Table, k: Checksum, j: nat, b: Byte): (r: Checksum)
    requires j < |k.c|
  {
    var v := Xor8(k.c[j], s[Xor8(b, k.l)]);
    Checksum(k.c[j := v], v)
  }

  lemma ChecksumAppend(s: Table, m: Bytes, b: Byte)
    ensures ChecksumOf(s, m + [b]) == NextChecksum(s, ChecksumOf(s, m), |m| % 16, b)
  {
    assert (m + [b])[..|m|] == m;
  }

  lemma TailGrows(m: Bytes, b: Byte)
    requires |m| % 16 < 15
    ensures Head(m + [b]) == Head(m) && Tail(m + [b]) == Tail(m) + [b]
  {
    var n := |m| - |m| % 16;
    assert |m + [b]| - |m + [b]| % 16 == n;
    assert (m + [b])[..n] == m[..n] && (m + [b])[n..] == m[n..] + [b];
  }

  lemma TailFills(m: Bytes, b: Byte)
    requires |m| % 16 == 15
    ensures Head(m + [b]) == m + [b] == Head(m) + (Tail(m) + [b]) && Tail(m + [b]) == []
  {
    assert |m + [b]| % 16 == 0;
    assert m == Head(m) + Tail(m);
  }

  lemma DigestAppend(s: Table, m: Bytes, block: Bytes)
    requires |m| % 16 == 0 && |block| == 16
    ensures Digest(s, m + block) == Compress(s, Digest(s, m), block)
  {
    assert (m + block)[..|m + block| - 16] == m;
    assert (m + block)[|m + block| - 16..] == block;
  }

  /** The stores of one pass, before the block is looked at. */
  ghost function Stored(s: Table, a: Bytes, b: Byte): (r: Bytes)
    requires |a| == 66 && a[64] < 16
    ensures |r| == 66
  {
    var n := a[64];
    var v := Xor8(a[n + 48], s[Xor8(b, a[65])]);
    a[n + 16 := b][n + 32 := Xor8(a[n], b)][n + 48 := v][65 := v][64 := (n + 1) % 16]
  }

  lemma StoredFields(s: Table, a: Bytes, b: Byte, state: Bytes, tail: Bytes, k: Checksum)
    requires Fields(a, state, tail, k) && a[64] == |tail| < 16
    ensures Fields(Stored(s, a, b), state, tail + [b], NextChecksum(s, k, |tail|, b))
  {
  }

  lemma FullBlock(s: Table, a: Bytes, state: Bytes, tail: Bytes, k: Checksum)
    requires Fields(a, state, tail, k) && |tail| == 16
    ensures Compress(s, state, tail) == Rounds(s, a[..48], 18).x[..16]
  {
    assert a[..48] == state + tail + Xor(state, tail);
  }

  /** Consuming one byte: the checksum moves, and a full block is folded into the state. */
  method SinglePass(s: Table, a: array<Byte>, b: Byte, ghost state: Bytes, ghost tail: Bytes, ghost k: Checksum)
    requires s[0] == 0x29
    requires Fields(a[..], state, tail, k) && a[64] == |tail| < 16
    modifies a
    ensures |tail| < 15 ==> Fields(a[..], state, tail + [b], NextChecksum(s, k, |tail|, b))
    ensures |tail| == 15 ==> Fields(a[..], Compress(s, state, tail + [b]), [], NextChecksum(s, k, |tail|, b))
    ensures a[64] == (|tail| + 1) % 16
    ensures forall i :: 48 <= i < 64 && i != 48 + |tail| ==> a[i] == old(a[i])
  {
    hide Compress, NextChecksum, Rounds;
    StoredFields(s, a[..], b, state, tail, k);
    ghost var stored := Stored(s, a[..], b);
    var position := a[64];
    a[position + 0x10] := b;
    var nextPosition := (position + 1) % 16;
    a[position + 0x20] := Xor8(a[position], b);
    var mixed := s[Xor8(b, a[65])];
    var previous := a[position + 0x30];
    a[position + 0x30] := Xor8(previous, mixed);
    a[65] := Xor8(previous, mixed);
    a[64] := nextPosition;
    assert a[..] == stored;
    if nextPosition != 0 {
      return;
    }
    FullBlock(s, stored, state, tail + [b], NextChecksum(s, k, |tail|, b));
    Transform(s, a);
    assert forall i :: 48 <= i < 66 ==> a[i] == a[48..][i - 48] == stored[i];
    assert forall i :: 0 <= i < 16 ==> a[i] == a[..48][i];
  }

  lemma HoldsAppend(s: Table, a: Bytes, m: Bytes, b: Byte)
    requires |a| == 66 && a[64] == (|m| + 1) % 16
    requires |m| % 16 < 15 ==>
      Fields(a, Digest(s, Head(m)), Tail(m) + [b], NextChecksum(s, ChecksumOf(s, m), |m| % 16, b))
    requires |m| % 16 == 15 ==>
      Fields(a, Compress(s, Digest(s, Head(m)), Tail(m) + [b]), [], NextChecksum(s, ChecksumOf(s, m), |m| % 16, b))
    ensures Holds(s, a, m + [b])
  {
    ChecksumAppend(s, m, b);
    if |m| % 16 < 15 {
      TailGrows(m, b);
    } else {
      TailFills(m, b);
      DigestAppend(s, Head(m), Tail(m) + [b]);
    }
  }

  /** SinglePass seen on whole messages. */
  method Feed(s: Table, a: array<Byte>, b: Byte, ghost m: Bytes)
    requires Holds(s, a[..], m) && s[0] == 0x29
    modifies a
    ensures Holds(s, a[..], m + [b])
    ensures forall i :: 48 <= i < 64 && i != 48 + |m| % 16 ==> a[i] == old(a[i])
  {
    hide Digest, ChecksumOf, NextChecksum, Compress;
    SinglePass(s, a, b, Digest(s, Head(m)), Tail(m), ChecksumOf(s, m));
    HoldsAppend(s, a[..], m, b);
  }

  /** A run of bytes, each masked first: any split of a message into runs gives the same accumulator. */
  method HashBytes(s: Table, a: array<Byte>, input: Bytes, mask: Byte, ghost m: Bytes)
    requires Holds(s, a[..], m) && s[0] == 0x29
    modifies a
    ensures Holds(s, a[..], m + Masked(input, mask))
  {
    hide Holds;
    var index := 0;
    assert m + Masked(input, mask)[..0] == m;
    while index < |input|
      invariant 0 <= index <= |input|
      invariant Holds(s, a[..], m + Masked(input, mask)[..index])
    {
      ghost var before := m + Masked(input, mask)[..index];
      Feed(s, a, Xor8(input[index], mask), before);
      index := index + 1;
      assert m + Masked(input, mask)[..index] == before + [Masked(input, mask)[index - 1]];
    }
    assert Masked(input, mask)[..index] == Masked(input, mask);
  }

  lemma DigestHeld(s: Table, a: Bytes, m: Bytes)
    requires Holds(s, a, m) && |m| % 16 == 0
    ensures a[..16] == Digest(s, m)
  {
    assert Head(m) == m;
  }

  lemma ChecksumHeld(s: Table, a: Bytes, m: Bytes)
    requires Holds(s, a, m)
    ensures |a| == 66 && a[64] == |m| % 16
    ensures forall i :: 0 <= i < 16 ==> a[48 + i] == ChecksumOf(s, m).c[i]
  {
  }

  method FeedPadding(s: Table, a: array<Byte>, ghost m: Bytes)
    requires Holds(s, a[..], m) && s[0] == 0x29
    modifies a
    ensures Holds(s, a[..], Pad(m))
  {
    hide Holds;
    ChecksumHeld(s, a[..], m);
    var padding: Byte := 16 - a[64];
    ghost var p := Padding(padding, padding);
    var index := 0;
    assert m + p[..0] == m;
    while index < padding
      invariant 0 <= index <= padding
      invariant Holds(s, a[..], m + p[..index])
    {
      Feed(s, a, padding, m + p[..index]);
      assert m + p[..index] + [padding] == m + p[..index + 1];
      index := index + 1;
    }
    assert m + p[..index] == Pad(m);
  }

  lemma Offset(n: nat, j: nat)
    requires n % 16 == 0 && j < 16
    ensures (n + j) % 16 == j
  {
  }

  /** The checksum is fed from the very bytes that each pass rewrites after reading them. */
  method FeedChecksum(s: Table, a: array<Byte>, ghost m: Bytes)
    requires Holds(s, a[..], m) && |m| % 16 == 0 && s[0] == 0x29
    modifies a
    ensures Holds(s, a[..], m + ChecksumOf(s, m).c)
  {
    hide Holds, ChecksumOf;
    ChecksumHeld(s, a[..], m);
    ghost var c := ChecksumOf(s, m).c;
    var index := 0x30;
    assert m + c[..0] == m;
    while index < 0x40
      invariant 0x30 <= index <= 0x40
      invariant Holds(s, a[..], m + c[..index - 0x30])
      invariant forall i :: index <= i < 0x40 ==> a[i] == c[i - 0x30]
    {
      Offset(|m|, index - 0x30);
      Feed(s, a, a[index], m + c[..index - 0x30]);
      assert m + c[..index - 0x30] + [c[index - 0x30]] == m + c[..index + 1 - 0x30];
      index := index + 1;
    }
    assert c[..index - 0x30] == c;
  }

  method Finalize(s: Table, a: array<Byte>, ghost m: Bytes) returns (result: Bytes)
    requires Holds(s, a[..], m) && s[0] == 0x29
    modifies a
    ensures result == Md2(s, m) && a.Length == 66 && a[..16] == result && a[64] == 0
  {
    hide Holds, ChecksumOf, Digest, Pad;
    FeedPadding(s, a, m);
    ghost var p := Pad(m);
    FeedChecksum(s, a, p);
    ChecksumHeld(s, a[..], p + ChecksumOf(s, p).c);
    DigestHeld(s, a[..], p + ChecksumOf(s, p).c);
    result := a[..16];
  }

  /** The substitution table the shim carries, a row of sixteen at a time. */
  function MixingRow(k: nat): (r: Bytes)
    ensures |r| == 16
  {
    match k
    case 0 => [0x29, 0x2e, 0x43, 0xc9, 0xa2, 0xd8, 0x7c, 0x01, 0x3d, 0x36, 0x54, 0xa1, 0xec, 0xf0, 0x06, 0x13]
    case 1 => [0x62, 0xa7, 0x05, 0xf3, 0xc0, 0xc7, 0x73, 0x8c, 0x98, 0x93, 0x2b, 0xd9, 0xbc, 0x4c, 0x82, 0xca]
    case 2 => [0x1e, 0x9b, 0x57, 0x3c, 0xfd, 0xd4, 0xe0, 0x16, 0x67, 0x42, 0x6f, 0x18, 0x8a, 0x17, 0xe5, 0x12]
    case 3 => [0xbe, 0x4e, 0xc4, 0xd6, 0xda, 0x9e, 0xde, 0x49, 0xa0, 0xfb, 0xf5, 0x8e, 0xbb, 0x2f, 0xee, 0x7a]
    case 4 => [0xa9, 0x68, 0x79, 0x91, 0x15, 0xb2, 0x07, 0x3f, 0x94, 0xc2, 0x10, 0x89, 0x0b, 0x22, 0x5f, 0x21]
    case 5 => [0x80, 0x7f, 0x5d, 0x9a, 0x5a, 0x90, 0x32, 0x27, 0x35, 0x3e, 0xcc, 0xe7, 0xbf, 0xf7, 0x97, 0x03]
    case 6 => [0xff, 0x19, 0x30, 0xb3, 0x48, 0xa5, 0xb5, 0xd1, 0xd7, 0x5e, 0x92, 0x2a, 0xac, 0x56, 0xaa, 0xc6]
    case 7 => [0x4f, 0xb8, 0x38, 0xd2, 0x96, 0xa4, 0x7d, 0xb6, 0x76, 0xfc, 0x6b, 0xe2, 0x9c, 0x74, 0x04, 0xf1]
    case 8 => [0x45, 0x9d, 0x70, 0x59, 0x64, 0x71, 0x87, 0x20, 0x86, 0x5b, 0xcf, 0x65, 0xe6, 0x2d, 0xa8, 0x02]
    case 9 => [0x1b, 0x60, 0x25, 0xad, 0xae, 0xb0, 0xb9, 0xf6, 0x1c, 0x46, 0x61, 0x69, 0x34, 0x40, 0x7e, 0x0f]
    case 10 => [0x55, 0x47, 0xa3, 0x23, 0xdd, 0x51, 0xaf, 0x3a, 0xc3, 0x5c, 0xf9, 0xce, 0xba, 0xc5, 0xea, 0x26]
    case 11 => [0x2c, 0x53, 0x0d, 0x6e, 0x85, 0x28, 0x84, 0x09, 0xd3, 0xdf, 0xcd, 0xf4, 0x41, 0x81, 0x4d, 0x52]
    case 12 => [0x6a, 0xdc, 0x37, 0xc8, 0x6c, 0xc1, 0xab, 0xfa, 0x24, 0xe1, 0x7b, 0x08, 0x0c, 0xbd, 0xb1, 0x4a]
    case 13 => [0x78, 0x88, 0x95, 0x8b, 0xe3, 0x63, 0xe8, 0x6d, 0xe9, 0xcb, 0xd5, 0xfe, 0x3b, 0x00, 0x1d, 0x39]
    case 14 => [0xf2, 0xef, 0xb7, 0x0e, 0x66, 0x58, 0xd0, 0xe4, 0xa6, 0x77, 0x72, 0xf8, 0xeb, 0x75, 0x4b, 0x0a]
    case _ => [0x31, 0x44, 0x50, 0xb4, 0x8f, 0xed, 0x1f, 0x1a, 0xdb, 0x99, 0x8d, 0x33, 0x9f, 0x11, 0x83, 0x14]
  }

  function MixingRows(n: nat): (t: Bytes)
    ensures |t| == 16 * n
  {
    if n == 0 then [] else MixingRows(n - 1) + MixingRow(n - 1)
  }

  const MIXING_TABLE: Table := MixingRows(16)

  lemma {:induction false} MixingAt(n: nat, k: nat, c: nat)
    requires k < n && c < 16
    ensures MixingRows(n)[16 * k + c] == MixingRow(k)[c]
  {
    hide MixingRow;
    if k < n - 1 { MixingAt(n - 1, k, c); }
  }

  lemma MixingTableShape()
    ensures MIXING_TABLE[0] == 0x29
  {
    MixingAt(16, 0, 0);
    hide MixingRows;
  }

  const KEY: Bytes := [
    0x14, 0x6a, 0xdd, 0xae, 0x53, 0xa9, 0xa7, 0x52,
    0xaa, 0x08, 0x41, 0x36, 0x0b, 0xf5, 0x5a, 0x9f]

  /** The two fixed answers, as the sixteen bytes the two 64-bit words occupy in memory. */
  const FIXED_ANSWER_0: Bytes := [
    0x5c, 0x67, 0xcb, 0x03, 0x1c, 0x18, 0x41, 0x33, 0xe8, 0xd1, 0x4c, 0x1f, 0xaa, 0x83, 0xd3, 0x8e]
  const FIXED_ANSWER_1: Bytes := [
    0x5c, 0x67, 0xcb, 0x03, 0x1c, 0x18, 0x41, 0x18, 0xe8, 0xd1, 0x4c, 0x1f, 0xaa, 0x83, 0xd3, 0x8e]

  method FirstPass(s: Table, a: array<Byte>, key: Bytes, processInfo: Bytes, deviceInfo: Bytes)
    returns (result: Bytes)
    requires s[0] == 0x29 && Holds(s, a[..], [])
    modifies a
    ensures result == Md2(s, Masked(key, 0x36) + (processInfo + deviceInfo)) && a.Length == 66 && a[64] == 0
  {
    hide Holds, Md2;
    Unmasked(processInfo);
    Unmasked(deviceInfo);
    ghost var k := Masked(key, 0x36);
    HashBytes(s, a, key, 0x36, []);
    assert [] + k == k;
    HashBytes(s, a, processInfo, 0, k);
    HashBytes(s, a, deviceInfo, 0, k + processInfo);
    assert k + processInfo + deviceInfo == k + (processInfo + deviceInfo);
    result := Finalize(s, a, k + (processInfo + deviceInfo));
  }

  method SecondPass(s: Table, a: array<Byte>, key: Bytes, firstPass: Bytes) returns (result: Bytes)
    requires s[0] == 0x29 && Holds(s, a[..], [])
    modifies a
    ensures result == Md2(s, Masked(key, 0x5c) + firstPass)
  {
    hide Holds, Md2;
    Unmasked(firstPass);
    ghost var k := Masked(key, 0x5c);
    HashBytes(s, a, key, 0x5c, []);
    assert [] + k == k;
    HashBytes(s, a, firstPass, 0, k);
    result := Finalize(s, a, k + firstPass);
  }

  /** The keyed hash. Between the passes only bytes 0-15 and 48-65 are cleared, yet the second pass is
      the hash of a fresh accumulator, so the answer is the keyed hash of section 2 of RFC 2104. */
  method KeyedHash(s: Table, key: Bytes, processInfo: Bytes, deviceInfo: Bytes) returns (result: Bytes)
    requires s[0] == 0x29 && |key| == 16
    ensures result == Hmac(s, key, processInfo + deviceInfo)
  {
    hide Holds, Md2;
    var a := new Byte[66](i => 0);
    EmptyHolds(s, a[..]);
    var firstPass := FirstPass(s, a, key, processInfo, deviceInfo);
    forall i | 0 <= i < 16 { a[i] := 0; }
    forall i | 48 <= i < 66 { a[i] := 0; }
    EmptyHolds(s, a[..]);
    result := SecondPass(s, a, key, firstPass);
  }

  lemma Unmasked(m: Bytes)
    ensures Masked(m, 0) == m
  {
    forall i | 0 <= i < |m| ensures Masked(m, 0)[i] == m[i] {
      XorZero(m[i]);
    }
  }

  lemma XorZero(b: Byte)
    ensures Xor8(b, 0) == b
  {
    XorNothing(b as bv8);
    Narrowed(b);
  }

  lemma XorNothing(v: bv8)
    ensures v ^ 0 == v
  {
  }

  lemma Narrowed(b: Byte)
    ensures b as bv8 as int <= b && b <= b as bv8 as int
  {
  }

  method IntegrityCheck(version: nat, processInfo: Bytes, deviceInfo: Bytes) returns (result: Bytes)
    ensures version % 10 == 0 ==> result == FIXED_ANSWER_0
    ensures version % 10 == 1 ==> result == FIXED_ANSWER_1
    ensures version % 10 > 1 ==>
      result == Hmac(MIXING_TABLE, KEY, processInfo + deviceInfo)
  {
    if version % 10 == 0 {
      result := FIXED_ANSWER_0;
    } else if version % 10 == 1 {
      result := FIXED_ANSWER_1;
    } else {
      MixingTableShape();
      result := KeyedHash(MIXING_TABLE, KEY, processInfo, deviceInfo);
    }
  }
}

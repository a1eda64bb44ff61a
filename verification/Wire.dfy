/** Protocol frames: the 32-byte header as the two ends encode and decode it. */
module Wire {
  import opened ByteStrings

  const MAGIC := 0x3142_4d49
  const MAJOR := 1
  const MINOR := 22
  const MAX_PAYLOAD := 0x100_0000

  datatype Header = Header(
    magic: nat, versionMajor: nat, versionMinor: nat, messageType: nat,
    flags: nat, payloadLength: nat, requestID: nat, resourceID: nat)

  /** Every field fits its width on the wire. */
  predicate Fits(h: Header) {
    && h.magic < 0x1_0000_0000 && h.versionMajor < 0x1_0000 && h.versionMinor < 0x1_0000
    && h.messageType < 0x1_0000 && h.flags < 0x1_0000 && h.payloadLength < 0x1_0000_0000
    && h.requestID < 0x1_0000_0000_0000_0000 && h.resourceID < 0x1_0000_0000_0000_0000
  }

  datatype Frame = Frame(header: Header, payload: Bytes)

  /** The wire table: each field little-endian at its offset. */
  ghost predicate Layout(b: Bytes, h: Header) {
    && |b| == 32
    && b[0..4] == LittleEndian(h.magic, 4)
    && b[4..6] == LittleEndian(h.versionMajor, 2)
    && b[6..8] == LittleEndian(h.versionMinor, 2)
    && b[8..10] == LittleEndian(h.messageType, 2)
    && b[10..12] == LittleEndian(h.flags, 2)
    && b[12..16] == LittleEndian(h.payloadLength, 4)
    && b[16..24] == LittleEndian(h.requestID, 8)
    && b[24..32] == LittleEndian(h.resourceID, 8)
  }

  function HeaderBytes(h: Header): (b: Bytes)
    ensures |b| == 32
  {
    LittleEndian(h.magic, 4) + LittleEndian(h.versionMajor, 2) + LittleEndian(h.versionMinor, 2)
      + LittleEndian(h.messageType, 2) + LittleEndian(h.flags, 2) + LittleEndian(h.payloadLength, 4)
      + LittleEndian(h.requestID, 8) + LittleEndian(h.resourceID, 8)
  }

  lemma HeaderBytesLayout(h: Header)
    ensures Layout(HeaderBytes(h), h)
  {
    hide LittleEndian;
  }

  /** At most one byte string is laid out for a header. */
  lemma LayoutDeterminesBytes(b: Bytes, c: Bytes, h: Header)
    requires Layout(b, h) && Layout(c, h)
    ensures b == c
  {
    hide LittleEndian;
    Cut(b);
    Cut(c);
  }

  lemma Cut(b: Bytes)
    requires |b| == 32
    ensures b == b[0..4] + b[4..6] + b[6..8] + b[8..10] + b[10..12] + b[12..16] + b[16..24] + b[24..32]
  {
  }

  /** The session's and the guest's encoder: the same appends in the same order. */
  method EncodeHeader(h: Header) returns (output: Bytes)
    ensures output == HeaderBytes(h)
  {
    hide LittleEndian;
    output := AppendLittleEndian([], h.magic, 4);
    output := AppendLittleEndian(output, h.versionMajor, 2);
    output := AppendLittleEndian(output, h.versionMinor, 2);
    output := AppendLittleEndian(output, h.messageType, 2);
    output := AppendLittleEndian(output, h.flags, 2);
    output := AppendLittleEndian(output, h.payloadLength, 4);
    output := AppendLittleEndian(output, h.requestID, 8);
    output := AppendLittleEndian(output, h.resourceID, 8);
  }

  function HeaderOf(b: Bytes): Header
    requires |b| == 32
  {
    Header(Number(b[0..4]), Number(b[4..6]), Number(b[6..8]), Number(b[8..10]), Number(b[10..12]),
           Number(b[12..16]), Number(b[16..24]), Number(b[24..32]))
  }

  /** Both decoders: exactly 32 bytes, each field read at its offset. */
  method DecodeHeader(b: Bytes) returns (r: Option<Header>)
    ensures r == if |b| == 32 then Some(HeaderOf(b)) else None
  {
    if |b| != 32 {
      return None;
    }
    hide Number;
    var magic := ReadLittleEndian(b, 0, 4);
    var major := ReadLittleEndian(b, 4, 2);
    var minor := ReadLittleEndian(b, 6, 2);
    var kind := ReadLittleEndian(b, 8, 2);
    var flags := ReadLittleEndian(b, 10, 2);
    var length := ReadLittleEndian(b, 12, 4);
    var request := ReadLittleEndian(b, 16, 8);
    var resource := ReadLittleEndian(b, 24, 8);
    r := Some(Header(magic.value, major.value, minor.value, kind.value, flags.value, length.value,
                     request.value, resource.value));
  }

  lemma RadixUsed()
    ensures Radix(2) == 0x1_0000 && Radix(4) == 0x1_0000_0000 && Radix(8) == 0x1_0000_0000_0000_0000
  {
    assert Radix(3) == 0x100_0000;
    assert Radix(6) == 0x1_0000_0000_0000;
  }

  /** What one end encodes the other decodes to the same header. */
  lemma DecodeEncode(h: Header)
    requires Fits(h)
    ensures HeaderOf(HeaderBytes(h)) == h
  {
    RadixUsed();
    HeaderBytesLayout(h);
    hide LittleEndian, Number, HeaderBytes, Radix;
    NumberOfLittleEndian(h.magic, 4);
    NumberOfLittleEndian(h.versionMajor, 2);
    NumberOfLittleEndian(h.versionMinor, 2);
    NumberOfLittleEndian(h.messageType, 2);
    NumberOfLittleEndian(h.flags, 2);
    NumberOfLittleEndian(h.payloadLength, 4);
    NumberOfLittleEndian(h.requestID, 8);
    NumberOfLittleEndian(h.resourceID, 8);
  }

  /** And any 32 bytes are the encoding of what they decode to. */
  lemma EncodeDecode(b: Bytes)
    requires |b| == 32
    ensures Fits(HeaderOf(b)) && HeaderBytes(HeaderOf(b)) == b
  {
    RadixUsed();
    hide LittleEndian, Number, Radix;
    LittleEndianOfNumber(b[0..4]);
    LittleEndianOfNumber(b[4..6]);
    LittleEndianOfNumber(b[6..8]);
    LittleEndianOfNumber(b[8..10]);
    LittleEndianOfNumber(b[10..12]);
    LittleEndianOfNumber(b[12..16]);
    LittleEndianOfNumber(b[16..24]);
    LittleEndianOfNumber(b[24..32]);
    Cut(b);
  }

  function FrameBytes(f: Frame): Bytes {
    HeaderBytes(f.header) + f.payload
  }
}

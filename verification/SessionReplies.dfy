/** What a client reads out of the replies: the payloads field by field, the error codes, and which refusal means
    what. */
module SessionReplies {
  import opened ByteStrings
  import opened Wire
  import opened SessionProtocol
  import opened SessionState
  import opened SessionRuns

  /** A little-endian integer that was written between other bytes is read there. */
  lemma FieldWritten(before: Bytes, v: nat, width: nat, rest: Bytes)
    requires v < Radix(width)
    ensures Field(before + LittleEndian(v, width) + rest, |before|, width) == v
  {
    NumberOfLittleEndian(v, width);
    hide LittleEndian, Number, Radix;
    assert (before + LittleEndian(v, width) + rest)[|before|..|before| + width] == LittleEndian(v, width);
  }

  /** The thirteen error codes are told apart by their numbers. */
  lemma CodesDistinct(a: ErrorCode, b: ErrorCode)
    ensures 1 <= RawCode(a) <= 13 && (RawCode(a) == RawCode(b) ==> a == b)
  {
  }

  /** An error reply carries its code, and the length and text of its message. */
  lemma ErrorDecodes(f: Frame, code: ErrorCode, o: World)
    requires |o.message| < 0x1_0000_0000
    ensures var p := Failure(f, code, o).payload;
      Field(p, 0, 4) == RawCode(code) && Field(p, 4, 4) == |o.message| && p[8..] == o.message
  {
    var c, n := LittleEndian(RawCode(code), 4), LittleEndian(|o.message|, 4);
    RadixUsed();
    CodesDistinct(code, code);
    FieldWritten([], RawCode(code), 4, n + o.message);
    FieldWritten(c, |o.message|, 4, o.message);
    hide LittleEndian, Radix, RawCode, Field;
    assert [] + c + (n + o.message) == c + n + o.message;
  }

  function HelloPayload(): Bytes {
    LittleEndian(1, 2) + LittleEndian(22, 2) + LittleEndian(0, 4)
  }

  lemma HelloFields()
    ensures var p := HelloPayload(); |p| == 8 && Field(p, 0, 2) == 1 && Field(p, 2, 2) == 22 && Field(p, 4, 4) == 0
  {
    var a, b, c := LittleEndian(1, 2), LittleEndian(22, 2), LittleEndian(0, 4);
    RadixUsed();
    hide LittleEndian, Radix, Field;
    FieldWritten([], 1, 2, b + c);
    FieldWritten(a, 22, 2, c);
    FieldWritten(a + b, 0, 4, []);
    assert [] + a + (b + c) == a + b + c && a + b + c + [] == a + b + c;
  }

  /** The answer to a HELLO is the version spoken, and a zero. */
  lemma HelloDecodes(s: State, d: Device, i: Input)
    requires Inv(s, d) && Decide(s, d, i.f, i.o).Negotiate?
    ensures var p := Step(s, d, i).reply.payload;
      |p| == 8 && Field(p, 0, 2) == 1 && Field(p, 2, 2) == 22 && Field(p, 4, 4) == 0
  {
    HelloFields();
    assert Step(s, d, i).reply.payload == HelloPayload() by { hide LittleEndian, Decide, Inv; }
    hide LittleEndian, Decide, Inv, Field, Step, HelloPayload;
  }

  /** A HELLO is for this version exactly when that lies between the least and the greatest version it offers. */
  lemma VersionIff(p: Bytes)
    ensures VersionSupported(p)
         <==> Field(p, 0, 2) * 0x1_0000 + Field(p, 2, 2) <= 0x1_0016 <= Field(p, 4, 2) * 0x1_0000 + Field(p, 6, 2)
  {
    HalfBound(p, 0);
    HalfBound(p, 2);
    HalfBound(p, 4);
    HalfBound(p, 6);
    hide Field;
  }

  lemma HalfBound(p: Bytes, at: nat)
    ensures Field(p, at, 2) < 0x1_0000
  {
    if at + 2 <= |p| {
      LittleEndianOfNumber(p[at..at + 2]);
      RadixUsed();
    }
  }

  /** The capabilities, the largest buffer, and the device's name. */
  lemma CapabilitiesDecode(d: Device)
    requires d.capabilities < 0x1_0000_0000_0000_0000 && d.maxBufferLength < 0x1_0000_0000_0000_0000
    requires |d.name| < 0x1_0000_0000
    ensures var p := Capabilities(d);
      && Field(p, 0, 8) == d.capabilities && Field(p, 8, 8) == d.maxBufferLength && Field(p, 16, 4) == |d.name|
      && Field(p, 20, 4) == 0 && p[24..] == d.name
  {
    var a, b, c, z := LittleEndian(d.capabilities, 8), LittleEndian(d.maxBufferLength, 8), LittleEndian(|d.name|, 4),
      LittleEndian(0, 4);
    RadixUsed();
    FieldWritten([], d.capabilities, 8, b + c + z + d.name);
    FieldWritten(a, d.maxBufferLength, 8, c + z + d.name);
    FieldWritten(a + b, |d.name|, 4, z + d.name);
    FieldWritten(a + b + c, 0, 4, d.name);
    hide LittleEndian, Radix, Field;
    var p := a + b + c + z + d.name;
    assert p == [] + a + (b + c + z + d.name) && p == a + b + (c + z + d.name) && p == a + b + c + (z + d.name);
  }

  function WaitPayload(): Bytes {
    LittleEndian(1, 4) + LittleEndian(0, 4)
  }

  lemma WaitFields()
    ensures var p := WaitPayload(); |p| == 8 && Field(p, 0, 4) == 1 && Field(p, 4, 4) == 0
  {
    var a, b := LittleEndian(1, 4), LittleEndian(0, 4);
    RadixUsed();
    hide LittleEndian, Radix, Field;
    FieldWritten([], 1, 4, b);
    FieldWritten(a, 0, 4, []);
    assert [] + a + b == a + b && a + b + [] == a + b;
  }

  /** A successful wait reports completion. */
  lemma WaitDecodes(s: State, d: Device, i: Input)
    requires Inv(s, d) && s.negotiated && Addressed(i.f, WAIT_FENCE) && !IsError(Step(s, d, i).reply)
    ensures var p := Step(s, d, i).reply.payload; |p| == 8 && Field(p, 0, 4) == 1 && Field(p, 4, 4) == 0
  {
    WaitFields();
    WaitReplies(s, d, i);
    hide LittleEndian, Decide, Inv, Field, Step, WaitPayload;
  }

  lemma WaitReplies(s: State, d: Device, i: Input)
    requires Inv(s, d) && s.negotiated && Addressed(i.f, WAIT_FENCE)
    ensures IsError(Step(s, d, i).reply) || Step(s, d, i).reply.payload == WaitPayload()
  {
    var c := Decide(s, d, i.f, i.o);
    assert c.Wait? || c.Refuse? by { hide HeaderError; }
    hide LittleEndian, Decide, Inv, Field;
  }

  ghost predicate PinnedBySome(s: State, id: nat) {
    exists fence :: fence in s.fenceResources && id in s.fenceResources[fence]
  }

  /** A destroy is refused as in use exactly when the resource is live and pinned, and as unknown exactly when it is
      not live. */
  lemma DestroyRefusals(s: State, d: Device, i: Input)
    requires Inv(s, d) && s.negotiated && Addressed(i.f, DESTROY_RESOURCE) && i.f.payload == []
    requires |i.o.message| < 0x1_0000_0000
    ensures var id, reply := i.f.header.resourceID, Step(s, d, i).reply;
      && (IsError(reply) && Field(reply.payload, 0, 4) == 8 <==> id in s.resources && PinnedBySome(s, id))
      && (IsError(reply) && Field(reply.payload, 0, 4) == 7 <==> id !in s.resources)
  {
    var id := i.f.header.resourceID;
    ErrorDecodes(i.f, ResourceInUse, i.o);
    ErrorDecodes(i.f, ResourceNotFound, i.o);
    hide LittleEndian, Field, Counted, Pinned, UploadsFit, Agree;
    var c := DecideDestroy(s.resources, s.fenceResources, i.f);
    assert c == if id !in s.resources then Refuse(ResourceNotFound)
                else if PinnedBySome(s, id) then Refuse(ResourceInUse) else Destroy;
    assert Decide(s, d, i.f, i.o) == c by { hide HeaderError, DecideDestroy; }
    hide Decide, DecideDestroy;
  }
}

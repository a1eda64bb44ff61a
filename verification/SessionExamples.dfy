/** Runs that reach the unusual states of a session: a fence whose wait has failed on the GPU, an image of
    format 11 whose last chunk is refused, and a frame image two slices deep. */
module SessionExamples {
  import opened ByteStrings
  import opened Wire
  import opened SessionProtocol
  import opened SessionState
  import opened SessionRuns
  import L = ImageLayout
  import P = Ppm

  // ----- payloads -----

  /** Integers of one width, one after the other. */
  function Row(values: seq<nat>, width: nat): Bytes {
    if values == [] then [] else Row(values[..|values| - 1], width) + LittleEndian(values[|values| - 1], width)
  }

  lemma {:induction false} RowLength(values: seq<nat>, width: nat)
    ensures |Row(values, width)| == width * |values|
  {
    hide LittleEndian;
    if values != [] {
      RowLength(values[..|values| - 1], width);
      assert width * |values| == width * (|values| - 1) + width;
    }
  }

  lemma {:induction false} RowAt(values: seq<nat>, width: nat, k: nat, at: nat, rest: Bytes)
    requires k < |values| && values[k] < Radix(width) && at == width * k
    ensures Field(Row(values, width) + rest, at, width) == values[k]
  {
    var last := |values| - 1;
    var init, tail := values[..last], LittleEndian(values[last], width);
    RowLength(init, width);
    if k < last {
      RowAt(init, width, k, at, tail + rest);
      assert Row(values, width) + rest == Row(init, width) + (tail + rest);
    } else {
      NumberOfLittleEndian(values[k], width);
      hide LittleEndian, Number, Radix;
      assert (Row(init, width) + tail + rest)[at..at + width] == tail;
    }
  }

  /** Two neighbours read as one integer of twice the width. */
  lemma PairAt(values: seq<nat>, width: nat, k: nat, at: nat, rest: Bytes)
    requires k + 1 < |values| && values[k] < Radix(width) && values[k + 1] == 0
    requires at == width * k && at + width == width * (k + 1) && at + 2 * width <= width * |values|
    ensures Field(Row(values, width) + rest, at, 2 * width) == values[k]
  {
    RowLength(values, width);
    RowAt(values, width, k, at, rest);
    RowAt(values, width, k + 1, at + width, rest);
    var p := Row(values, width) + rest;
    assert |p| >= width * |values|;
    hide Row, Radix, Field;
    FieldSplit(p, at, width);
  }

  lemma FieldSplit(p: Bytes, at: nat, width: nat)
    requires at + 2 * width <= |p|
    ensures Field(p, at, 2 * width) == Field(p, at, width) + Radix(width) * Field(p, at + width, width)
  {
    hide Radix, Number;
    TwoSlices(p, at, at + width, at + 2 * width);
    NumberAppend(p[at..at + width], p[at + width..at + 2 * width]);
  }

  lemma TwoSlices(p: Bytes, a: nat, b: nat, c: nat)
    requires a <= b <= c <= |p|
    ensures p[a..c] == p[a..b] + p[b..c]
  {
  }

  // ----- the requests -----

  const HELLO_WORDS: seq<nat> := [1, 22, 1, 22]
  const BUFFER_WORDS: seq<nat> := [4, 0, 1, 0]
  const ADD_HALVES: seq<nat> := [1, 0, 0, 0, 1, 0, 1, 0]
  const IMAGE_WORDS: seq<nat> := [16, 0, 2, 1, 1, 1, 11, 1, 1, 1, 1, 0]
  const CHUNK_WORDS: seq<nat> := [0, 0, 16, 0]

  lemma RadixUsed()
    ensures Radix(2) == 0x1_0000 && Radix(4) == 0x1_0000_0000
  {
    assert Radix(3) == 0x100_0000;
  }

  function Hello(): Frame {
    Request(HELLO, 0, Row(HELLO_WORDS, 2))
  }

  lemma HelloDecides(d: Device)
    ensures Decide(Initial(), d, Hello(), Willing()) == Negotiate
  {
    RadixUsed();
    var p := Row(HELLO_WORDS, 2);
    RowLength(HELLO_WORDS, 2);
    assert p + [] == p;
    RowAt(HELLO_WORDS, 2, 0, 0, []);
    RowAt(HELLO_WORDS, 2, 1, 2, []);
    RowAt(HELLO_WORDS, 2, 2, 4, []);
    RowAt(HELLO_WORDS, 2, 3, 6, []);
    hide Row, Radix, Field;
  }

  /** A buffer of four bytes. */
  function CreateBuffer(): Frame {
    Request(CREATE_RESOURCE, 0, Row(BUFFER_WORDS, 4))
  }

  function FourBytes(): Resource {
    Resource(4, 1, 0, Flat(0))
  }

  lemma BufferDecides(d: Device)
    requires d.present && d.maxBufferLength >= 4
    ensures DecideCreate(d, Row(BUFFER_WORDS, 4)) == Create(FourBytes(), CREATE_RESOURCE)
    ensures |Row(BUFFER_WORDS, 4)| == 16
  {
    RadixUsed();
    var p := Row(BUFFER_WORDS, 4);
    RowLength(BUFFER_WORDS, 4);
    assert p + [] == p;
    PairAt(BUFFER_WORDS, 4, 0, 0, []);
    RowAt(BUFFER_WORDS, 4, 2, 8, []);
    RowAt(BUFFER_WORDS, 4, 3, 12, []);
    hide Row, Radix, Field;
  }

  /** Add one to the one word of buffer `id`. */
  function AddOne(id: nat): Frame {
    Request(SUBMIT_COMMAND, id, Row(ADD_HALVES, 2))
  }

  lemma AddDecides(r: Resources, d: Device, id: nat)
    requires d.present && IsKind(r, id, 1)
    ensures DecideSubmit(r, d, AddOne(id), Willing()) == Submit({id}, None) && |AddOne(id).payload| == 16
  {
    RadixUsed();
    var p := Row(ADD_HALVES, 2);
    RowLength(ADD_HALVES, 2);
    assert p + [] == p;
    RowAt(ADD_HALVES, 2, 0, 0, []);
    RowAt(ADD_HALVES, 2, 1, 2, []);
    PairAt(ADD_HALVES, 2, 2, 4, []);
    hide Row, Radix, Field;
  }

  /** A sparse image of one texel in format 11, sixteen bytes. */
  function CreateImage(): Frame {
    Request(CREATE_RESOURCE, 0, Row(IMAGE_WORDS, 4))
  }

  function OneTexel(): Resource {
    Resource(16, 2, 1, L.Image(L.Extent(1, 1, 1), 11, 1, 1, true))
  }

  lemma ImageDecides(d: Device)
    requires d.present && d.maxBufferLength >= 16
    ensures DecideCreate(d, Row(IMAGE_WORDS, 4)) == Create(OneTexel(), CREATE_RESOURCE) && |Row(IMAGE_WORDS, 4)| == 48
  {
    hide Row, Radix, Field;
    RadixUsed();
    var p := Row(IMAGE_WORDS, 4);
    RowLength(IMAGE_WORDS, 4);
    assert p + [] == p;
    PairAt(IMAGE_WORDS, 4, 0, 0, []);
    ImageWord(2, 8, 2);
    ImageWord(3, 12, 1);
    ImageWord(4, 16, 1);
    ImageWord(5, 20, 1);
    ImageWord(6, 24, 11);
    ImageWord(7, 28, 1);
    ImageWord(8, 32, 1);
    ImageWord(9, 36, 1);
    ImageWord(10, 40, 1);
    ImageWord(11, 44, 0);
    hide IMAGE_WORDS;
  }

  lemma ImageWord(k: nat, at: nat, v: nat)
    requires k < 12 && at == 4 * k && IMAGE_WORDS[k] == v < 256
    ensures Field(Row(IMAGE_WORDS, 4), at, 4) == v
  {
    hide Row, Radix, Field;
    RadixUsed();
    RowAt(IMAGE_WORDS, 4, k, at, []);
    assert Row(IMAGE_WORDS, 4) + [] == Row(IMAGE_WORDS, 4);
  }

  /** All sixteen bytes of image `id` in one chunk. */
  function WriteAll(id: nat): Frame {
    Request(WRITE_RESOURCE, id, Row(CHUNK_WORDS, 4) + Zeros(16))
  }

  lemma WriteDecides(r: Resources, uploads: map<nat, Upload>, d: Device, id: nat)
    requires d.present && id in r && r[id] == OneTexel()
    ensures DecideWrite(r, uploads, d, WriteAll(id)) == Store(0, Zeros(16), 16) && |WriteAll(id).payload| == 32
  {
    RadixUsed();
    var p := WriteAll(id).payload;
    RowLength(CHUNK_WORDS, 4);
    PairAt(CHUNK_WORDS, 4, 0, 0, Zeros(16));
    RowAt(CHUNK_WORDS, 4, 2, 8, Zeros(16));
    RowAt(CHUNK_WORDS, 4, 3, 12, Zeros(16));
    TexelSize();
    assert p[16..] == Zeros(16);
    hide Row, Radix, Field, L.TightSize, Zeros;
  }

  lemma TexelSize()
    ensures L.TightSize(OneTexel().shape) == Some(16)
  {
    var b, e, i := L.Block(1, 1, 16), L.Extent(1, 1, 1), OneTexel().shape;
    L.EmptySum(b, e);
    L.SumStep(b, e, 0);
    assert L.Level(e, 0) == e && L.MipBytes(b, e) == 16;
    hide L.MipSum, L.Level, L.MipBytes;
    L.TotalIs(b, i);
    hide L.Total;
    assert L.SessionBlock(i.format) == Some(b);
  }

  // ----- the runs -----

  /** Negotiated and nothing else. */
  function Ready(): State {
    Initial().(negotiated := true)
  }

  lemma HelloStep(d: Device)
    ensures Inv(Initial(), d) && Step(Initial(), d, Input(Hello(), Willing())).state == Ready() && Inv(Ready(), d)
  {
    InitialInv(d);
    HelloDecides(d);
    NextInv(Initial(), d, Hello(), Willing());
    hide Decide, Inv, Row, LittleEndian;
  }

  /** A create in the ready state. */
  function With(r: Resource): State {
    Ready().(resources := map[1 := r], nextResource := 2, tables := Made(NoTables(), 1, r))
  }

  lemma CreateStep(d: Device, f: Frame, r: Resource)
    requires Inv(Ready(), d) && Addressed(f, CREATE_RESOURCE)
    requires DecideCreate(d, f.payload) == Create(r, CREATE_RESOURCE)
    ensures Step(Ready(), d, Input(f, Willing())).state == With(r) && Inv(With(r), d)
  {
    NextInv(Ready(), d, f, Willing());
    assert Decide(Ready(), d, f, Willing()) == DecideCreate(d, f.payload);
    hide Decide, Inv, DecideCreate, HeaderError, LittleEndian, Made;
  }

  lemma {:induction false} RunAppend(s: State, d: Device, ins: seq<Input>, i: Input)
    requires Inv(s, d)
    ensures Run(s, d, ins + [i]) == Step(Run(s, d, ins), d, i).state
    decreases |ins|
  {
    hide Step, Inv;
    if ins == [] {
      assert ([] + [i])[1..] == [];
      assert Run(s, d, [i]) == Run(Step(s, d, i).state, d, []);
    } else {
      assert (ins + [i])[1..] == ins[1..] + [i];
      RunAppend(Step(s, d, ins[0]).state, d, ins[1..], i);
    }
  }

  /** Negotiate, create a buffer, add to it, and wait for the addition on a GPU that fails. */
  function FailingRun(): seq<Input> {
    [Input(Hello(), Willing())] + [Input(CreateBuffer(), Willing())] + [Input(AddOne(1), Willing())]
      + [Input(Request(WAIT_FENCE, 1, []), Willing().(failure := Some(GpuFailure)))]
  }

  /** The state between: the buffer pinned by fence 1, whose command the backend holds. */
  function Adding(): State {
    With(FourBytes()).(fences := {1}, nextFence := 2, fenceResources := map[1 := {1}],
                       tables := Submitted(With(FourBytes()).tables, 1, None))
  }

  lemma SubmitDispatch(s: State, d: Device, f: Frame, o: World)
    requires s.negotiated && Addressed(f, SUBMIT_COMMAND)
    ensures Decide(s, d, f, o) == DecideSubmit(s.resources, d, f, o)
  {
    hide HeaderError, DecideSubmit;
  }

  lemma WriteDispatch(s: State, d: Device, f: Frame, o: World)
    requires s.negotiated && Addressed(f, WRITE_RESOURCE)
    ensures Decide(s, d, f, o) == DecideWrite(s.resources, s.uploads, d, f)
  {
    hide HeaderError, DecideWrite;
  }

  lemma AddStep(d: Device)
    requires Inv(With(FourBytes()), d) && d.present
    ensures Step(With(FourBytes()), d, Input(AddOne(1), Willing())).state == Adding() && Inv(Adding(), d)
  {
    var s, f := With(FourBytes()), AddOne(1);
    NextInv(s, d, f, Willing());
    AddDecides(s.resources, d, 1);
    hide DecideSubmit, Decide, Inv, Row, Step;
    SubmitDispatch(s, d, f, Willing());
    SubmitStep(s, d, f, {1}, None);
  }

  lemma SubmitStep(s: State, d: Device, f: Frame, named: set<nat>, frameImage: Option<nat>)
    requires Inv(s, d) && Decide(s, d, f, Willing()) == Submit(named, frameImage)
    ensures Step(s, d, Input(f, Willing())).state == NextSubmit(s, f, Willing(), named, frameImage).state
  {
    hide Decide, Inv, NextSubmit;
  }

  lemma FailStep(d: Device)
    requires Inv(Adding(), d) && d.present
    ensures var i := Input(Request(WAIT_FENCE, 1, []), Willing().(failure := Some(GpuFailure)));
      IsError(Step(Adding(), d, i).reply)
      && Step(Adding(), d, i).state == Adding().(tables := Adding().tables.(commands := Adding().tables.commands - {1}))
  {
    var f := Request(WAIT_FENCE, 1, []);
    assert Decide(Adding(), d, f, Willing().(failure := Some(GpuFailure))) == Wait;
    hide Decide, Inv, LittleEndian;
  }

  /** The run reaches a fence that can never be released without a shutdown, and a live buffer it pins. */
  lemma FailedWaitReached(d: Device)
    requires d.present && d.maxBufferLength >= 4
    ensures Inv(Initial(), d)
    ensures var t := Run(Initial(), d, FailingRun());
      t.negotiated && 1 in t.fences && 1 !in t.tables.commands && t.fenceResources == map[1 := {1}] && 1 in t.resources
      && !Releasable(t, d, 1) && !Destroyable(t, 1)
  {
    HelloStep(d);
    BufferDecides(d);
    CreateStep(d, CreateBuffer(), FourBytes());
    AddStep(d);
    FailStep(d);
    RunFour(d, Input(Hello(), Willing()), Input(CreateBuffer(), Willing()), Input(AddOne(1), Willing()),
            Input(Request(WAIT_FENCE, 1, []), Willing().(failure := Some(GpuFailure))));
    var t := Run(Initial(), d, FailingRun());
    hide Run, Step, Inv, Row, Releasable;
    assert 1 in t.fenceResources && 1 in t.fenceResources[1];
    ReleasableIff(t, d, 1);
  }

  lemma RunFour(d: Device, a: Input, b: Input, c: Input, e: Input)
    requires Inv(Initial(), d)
    ensures Run(Initial(), d, [a] + [b] + [c] + [e])
         == Step(Step(Step(Step(Initial(), d, a).state, d, b).state, d, c).state, d, e).state
  {
    hide Step, Inv, Run;
    RunOne(Initial(), d, a);
    RunAppend(Initial(), d, [a], b);
    RunAppend(Initial(), d, [a] + [b], c);
    RunAppend(Initial(), d, [a] + [b] + [c], e);
  }

  lemma RunOne(s: State, d: Device, a: Input)
    requires Inv(s, d)
    ensures Run(s, d, [a]) == Step(s, d, a).state
  {
    hide Step, Inv;
    assert [a][1..] == [];
    assert Run(Step(s, d, a).state, d, []) == Step(s, d, a).state;
  }

  /** Image 1 has format 11, and a write of all its bytes gets as far as the backend, which refuses it even when
      the GPU would accept everything. */
  ghost predicate RefusesItsOnlyChunk(t: State, d: Device)
    requires Inv(t, d)
  {
    && 1 in t.resources && t.resources[1].shape.format == 11
    && Decide(t, d, WriteAll(1), Willing()) == Store(0, Zeros(16), 16)
    && IsError(Step(t, d, Input(WriteAll(1), Willing())).reply)
  }

  lemma TexelRefused(d: Device)
    requires d.present && Inv(With(OneTexel()), d)
    ensures RefusesItsOnlyChunk(With(OneTexel()), d)
  {
    var s, f := With(OneTexel()), WriteAll(1);
    WriteDecides(s.resources, s.uploads, d, 1);
    hide Step, Inv, Row, DecideWrite, Decide;
    WriteDispatch(s, d, f, Willing());
    LastChunkIff(s, d, Input(f, Willing()));
  }

  /** Negotiating and creating a one-texel image of format 11 reaches that state. */
  lemma FormatElevenReached(d: Device)
    requires d.present && d.maxBufferLength >= 16
    ensures Inv(Initial(), d)
    ensures RefusesItsOnlyChunk(Run(Initial(), d, [Input(Hello(), Willing())] + [Input(CreateImage(), Willing())]), d)
  {
    hide Run, Inv, RefusesItsOnlyChunk, Row;
    ImageRun(d);
    TexelRefused(d);
  }

  lemma ImageRun(d: Device)
    requires d.present && d.maxBufferLength >= 16
    ensures Inv(Initial(), d) && Inv(With(OneTexel()), d)
    ensures Run(Initial(), d, [Input(Hello(), Willing())] + [Input(CreateImage(), Willing())]) == With(OneTexel())
  {
    HelloStep(d);
    ImageDecides(d);
    CreateStep(d, CreateImage(), OneTexel());
    hide Run, Step, Inv, Row;
    RunOne(Initial(), d, Input(Hello(), Willing()));
    RunAppend(Initial(), d, [Input(Hello(), Willing())], Input(CreateImage(), Willing()));
  }

  // ----- a frame two slices deep -----

  const DEEP_WORDS: seq<nat> := [8, 0, 2, 0x2_0002, 1, 1, 1, 0]
  const GRID_WORDS: seq<nat> := [4, 0, 0, 0, 1, 1, 0, 0, 16, 0] + SIXTEEN_ZEROS + SIXTEEN_ZEROS
  const SIXTEEN_ZEROS: seq<nat> := [0, 0, 0, 0, 0, 0, 0, 0, 0, 0, 0, 0, 0, 0, 0, 0]

  /** One pixel wide and high and two slices deep, in format 1. */
  function CreateDeep(): Frame {
    Request(CREATE_RESOURCE, 0, Row(DEEP_WORDS, 4))
  }

  function DeepImage(): Resource {
    Resource(8, 2, 0x2_0002, L.Image(L.Extent(1, 1, 2), 1, 1, 1, false))
  }

  lemma WordIs(values: seq<nat>, k: nat, at: nat)
    requires k < |values| && values[k] < 0x1_0000_0000 && at == 4 * k
    ensures Field(Row(values, 4), at, 4) == values[k]
  {
    RadixUsed();
    RowAt(values, 4, k, at, []);
    assert Row(values, 4) + [] == Row(values, 4);
    hide Row, Radix, Field;
  }

  lemma PairIs(values: seq<nat>, k: nat, at: nat)
    requires k + 1 < |values| && values[k] < 0x1_0000_0000 && values[k + 1] == 0 && at == 4 * k
    ensures Field(Row(values, 4), at, 8) == values[k]
  {
    RadixUsed();
    PairAt(values, 4, k, at, []);
    assert Row(values, 4) + [] == Row(values, 4);
    hide Row, Radix, Field;
  }

  lemma DeepDecides(d: Device)
    requires d.present
    ensures DecideCreate(d, Row(DEEP_WORDS, 4)) == Create(DeepImage(), CREATE_RESOURCE) && |Row(DEEP_WORDS, 4)| == 32
  {
    RowLength(DEEP_WORDS, 4);
    PairIs(DEEP_WORDS, 0, 0);
    WordIs(DEEP_WORDS, 2, 8);
    WordIs(DEEP_WORDS, 3, 12);
    WordIs(DEEP_WORDS, 4, 16);
    WordIs(DEEP_WORDS, 5, 20);
    WordIs(DEEP_WORDS, 6, 24);
    WordIs(DEEP_WORDS, 7, 28);
    hide Row, Field;
  }

  /** Draw the grid of an empty stage into image 1. */
  function DrawGrid(): Frame {
    Request(SUBMIT_COMMAND, 1, Row(GRID_WORDS, 4))
  }

  /** A word below 2^16 as two halves. */
  lemma Halves(p: Bytes)
    requires |p| >= 4 && Field(p, 0, 4) < 0x1_0000
    ensures Field(p, 0, 2) == Field(p, 0, 4) && Field(p, 2, 2) == 0
  {
    FieldSplit(p, 0, 2);
    RadixUsed();
    hide Radix, Number;
    LittleEndianOfNumber(p[0..2]);
  }

  lemma GridFields()
    ensures var p := Row(GRID_WORDS, 4);
      && |p| == 168 && Field(p, 0, 2) == 4 && Field(p, 2, 2) == 0 && Field(p, 4, 4) == 0 && Field(p, 8, 8) == 0
      && Field(p, 16, 4) == 1 && Field(p, 20, 4) == 1 && Field(p, 32, 4) == 16 && Field(p, 36, 4) == 0
  {
    RowLength(GRID_WORDS, 4);
    WordIs(GRID_WORDS, 0, 0);
    WordIs(GRID_WORDS, 1, 4);
    PairIs(GRID_WORDS, 2, 8);
    WordIs(GRID_WORDS, 4, 16);
    WordIs(GRID_WORDS, 5, 20);
    WordIs(GRID_WORDS, 8, 32);
    WordIs(GRID_WORDS, 9, 36);
    hide Row, Field;
    Halves(Row(GRID_WORDS, 4));
  }

  lemma GridDecides(r: Resources, d: Device)
    requires d.present && d.rays && 1 in r && r[1] == DeepImage()
    ensures DecideSubmit(r, d, DrawGrid(), Willing()) == Submit({1}, Some(1)) && |DrawGrid().payload| == 168
  {
    GridFields();
    hide Row, Field;
  }

  /** The image is in the table of frames to be written. */
  function Drawing(): State {
    With(DeepImage()).(fences := {1}, nextFence := 2, fenceResources := map[1 := {1}],
                       tables := Submitted(With(DeepImage()).tables, 1, Some(1)))
  }

  lemma DrawStep(d: Device)
    requires Inv(With(DeepImage()), d) && d.present && d.rays
    ensures Step(With(DeepImage()), d, Input(DrawGrid(), Willing())).state == Drawing()
  {
    var s, f := With(DeepImage()), DrawGrid();
    GridDecides(s.resources, d);
    hide DecideSubmit, Decide, Inv, Row, Step;
    SubmitDispatch(s, d, f, Willing());
    SubmitStep(s, d, f, {1}, Some(1));
  }

  function DeepRun(): seq<Input> {
    [Input(Hello(), Willing())] + [Input(CreateDeep(), Willing())] + [Input(DrawGrid(), Willing())]
  }

  lemma DeepRuns(d: Device)
    requires d.present && d.rays
    ensures Inv(Initial(), d) && Run(Initial(), d, DeepRun()) == Drawing()
  {
    HelloStep(d);
    DeepDecides(d);
    CreateStep(d, CreateDeep(), DeepImage());
    DrawStep(d);
    hide Run, Step, Inv, Row, With, Drawing, Ready, Initial;
    RunOne(Initial(), d, Input(Hello(), Willing()));
    RunAppend(Initial(), d, [Input(Hello(), Willing())], Input(CreateDeep(), Willing()));
    RunAppend(Initial(), d, [Input(Hello(), Willing())] + [Input(CreateDeep(), Willing())],
              Input(DrawGrid(), Willing()));
  }

  lemma DeepNotShown(pixels: Bytes)
    requires |pixels| == 8
    ensures var i := P.Image(1, 1, 2, 1, pixels); P.WellFormed(i) && P.Decode(P.Header(i) + P.Body(i, 2)) == None
  {
    hide P.Decode, P.Header, P.Body;
    P.RoundTripIff(P.Image(1, 1, 2, 1, pixels));
  }

  /** Negotiating, creating the image and drawing into it make it a frame image, and whatever its pixels, what is
      written for it is nothing the viewer can show. */
  lemma DeepFrameReached(d: Device, pixels: Bytes)
    requires d.present && d.rays && |pixels| == 8
    ensures Inv(Initial(), d)
    ensures var t := Run(Initial(), d, DeepRun());
      && t.tables.frameImages == map[1 := 1] && 1 in t.tables.images && t.tables.images[1] == DeepImage().shape
    ensures var i := P.Image(1, 1, 2, 1, pixels); P.WellFormed(i) && P.Decode(P.Header(i) + P.Body(i, 2)) == None
  {
    DeepRuns(d);
    DeepNotShown(pixels);
    hide Run, Inv, DeepRun, P.Decode, P.Header, P.Body;
  }
}

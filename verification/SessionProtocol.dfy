/** What a request asks of a session: the guards of the request handler, as functions of the session's tables
    and the payload. Nothing here changes anything. */
module SessionProtocol {
  import opened ByteStrings
  import opened Wire
  import L = ImageLayout

  datatype ErrorCode =
    | InvalidMagic | InvalidHeader | UnsupportedVersion | UnsupportedMessage | InvalidPayload | HandshakeRequired
    | ResourceNotFound | ResourceInUse | UnsupportedCommand | InternalError | BackendUnavailable | OutOfBounds
    | GpuFailure

  function RawCode(c: ErrorCode): nat {
    match c
    case InvalidMagic => 1 case InvalidHeader => 2 case UnsupportedVersion => 3 case UnsupportedMessage => 4
    case InvalidPayload => 5 case HandshakeRequired => 6 case ResourceNotFound => 7 case ResourceInUse => 8
    case UnsupportedCommand => 9 case InternalError => 10 case BackendUnavailable => 11 case OutOfBounds => 12
    case GpuFailure => 13
  }

  const HELLO := 1
  const HELLO_REPLY := 2
  const QUERY_CAPABILITIES := 3
  const CAPABILITIES_REPLY := 4
  const PING := 5
  const PONG := 6
  const CREATE_RESOURCE := 7
  const DESTROY_RESOURCE := 8
  const SUBMIT_COMMAND := 9
  const WAIT_FENCE := 10
  const ERROR := 11
  const SHUTDOWN := 12
  const WRITE_RESOURCE := 13
  const READ_RESOURCE := 14
  const CREATE_COMPUTE_PIPELINE := 15
  const CREATE_ACCELERATION_STRUCTURE := 16
  const BUILD_PRIMITIVE := 17
  const BUILD_INSTANCE := 18
  const QUERY_SPARSE := 19
  const UPDATE_SPARSE_MAPPING := 20

  /** Kind 1 is a buffer, 2 an image, 3 a compute pipeline, 4 an acceleration structure whose format is its type. */
  datatype Resource = Resource(size: nat, kind: nat, options: nat, shape: L.Image)

  datatype Upload = Upload(data: Bytes, nextOffset: nat)

  /** The fixed facts about the host; `present` says whether there is a GPU backend at all. */
  datatype Device = Device(present: bool, maxBufferLength: nat, capabilities: nat, name: Bytes,
    sparse: bool, compute: bool, structures: bool, rays: bool)

  /** What the world outside decides about one request: whether and how the GPU's part fails, what it answers,
      whether the floats and texts in the payload are acceptable (for the samplers of a dispatch, record by
      record), and the wording of an error. */
  datatype World = World(failure: Option<ErrorCode>, answer: Bytes, valuesValid: bool, badSamplers: set<nat>,
      message: Bytes)

  type Resources = map<nat, Resource>

  /** What is left to do once the guards have passed. */
  datatype Decision =
    | Refuse(code: ErrorCode)
    | Negotiate
    | Answer(reply: nat, payload: Bytes)
    | Consult(reply: nat, id: nat)
    | Create(resource: Resource, reply: nat)
    | Destroy
    | Store(offset: nat, chunk: Bytes, tight: nat)
    | Submit(named: set<nat>, frameImage: Option<nat>)
    | Wait
    | ShutDown

  function Field(p: Bytes, offset: nat, width: nat): nat {
    if offset + width <= |p| then Number(p[offset..offset + width]) else 0
  }

  function Bit(options: nat, n: nat): bool
    requires n > 0
  {
    options / n % 2 == 1
  }

  predicate IsKind(r: Resources, id: nat, kind: nat) {
    id in r && r[id].kind == kind
  }

  function Flat(format: nat): L.Image {
    L.Image(L.Extent(0, 0, 1), format, 1, 1, false)
  }

  /** ImageOption.decodedDepth: bit 1 and a depth in the high half, nothing else. */
  function DecodedDepth(options: nat): Option<nat> {
    if options % 0x1_0000 == 2 && options / 0x1_0000 > 0 then Some(options / 0x1_0000) else None
  }

  // ----- headers -----

  /** The checks before any message is looked at, in their order. */
  function HeaderError(f: Frame): Option<ErrorCode> {
    if f.header.magic != MAGIC then Some(InvalidMagic)
    else if |f.payload| > MAX_PAYLOAD || f.header.payloadLength != |f.payload| || f.header.requestID == 0
      || f.header.flags != 0 then Some(InvalidHeader)
    else if !(1 <= f.header.messageType <= 20) then Some(UnsupportedMessage)
    else None
  }

  predicate VersionSupported(p: Bytes) {
    var minMajor, minMinor, maxMajor, maxMinor := Field(p, 0, 2), Field(p, 2, 2), Field(p, 4, 2), Field(p, 6, 2);
    && (minMajor < MAJOR || (minMajor == MAJOR && minMinor <= MINOR))
    && (maxMajor > MAJOR || (maxMajor == MAJOR && maxMinor >= MINOR))
  }

  function DecideHello(p: Bytes): Decision {
    if |p| != 8 then Refuse(InvalidPayload)
    else if !VersionSupported(p) then Refuse(UnsupportedVersion)
    else Negotiate
  }

  // ----- resources -----

  function DecideCreate(d: Device, p: Bytes): Decision {
    if |p| < 16 || !d.present then Refuse(InvalidPayload) else
    var size, kind, options := Field(p, 0, 8), Field(p, 8, 4), Field(p, 12, 4);
    if kind == 1 then
      if |p| == 16 && 0 < size <= d.maxBufferLength && options == 0
      then Create(Resource(size, 1, 0, Flat(0)), CREATE_RESOURCE) else Refuse(InvalidPayload)
    else if kind == 2 then DecideImage(d, p, size, options)
    else Refuse(InvalidPayload)
  }

  function DecideImage(d: Device, p: Bytes, size: nat, options: nat): Decision {
    var width, height, format := Field(p, 16, 4), Field(p, 20, 4), Field(p, 24, 4);
    if options == 0 || DecodedDepth(options).Some? then
      var depth := if options == 0 then 1 else DecodedDepth(options).value;
      if |p| == 32 && 0 < width <= 4096 && 0 < height <= 4096 && 0 < depth <= 4096 && format in {1, 2, 8, 9}
        && Field(p, 28, 4) == 0 && size == width * height * depth * 4 && size <= MAX_PAYLOAD
      then Create(Resource(size, 2, options, L.Image(L.Extent(width, height, depth), format, 1, 1, false)),
          CREATE_RESOURCE)
      else Refuse(InvalidPayload)
    else
      var mips, layers := Field(p, 28, 4), Field(p, 32, 4);
      if options == 1 && |p| == 48 && 0 < width <= 16384 && 0 < height <= 16384 && 1 <= format <= 11
        && 0 < mips <= 32 && layers > 0 && Field(p, 36, 4) == 1 && Field(p, 40, 4) == 1 && Field(p, 44, 4) == 0
        && 0 < size <= d.maxBufferLength
      then Create(Resource(size, 2, 1, L.Image(L.Extent(width, height, 1), format, mips, layers, true)),
          CREATE_RESOURCE)
      else Refuse(InvalidPayload)
  }

  lemma TightOrdinary(b: L.Block, e: L.Extent)
    requires b == L.Block(1, 1, 4)
    ensures L.MipSum(b, e, 1) == e.width * e.height * e.depth * 4
  {
    L.EmptySum(b, e);
    L.SumStep(b, e, 0);
    assert L.Blocks(e.width, 1) == e.width && L.Blocks(e.height, 1) == e.height;
    L.Regroup(e.width, e.height, e.depth, 4);
  }

  /** Every image accepted is one the upload code can count: well formed, and an ordinary one with a tight size
      that is exactly the size the guest announced, within one payload. */
  lemma CreatedImage(d: Device, p: Bytes, size: nat, options: nat)
    requires DecideImage(d, p, size, options).Create?
    ensures var r := DecideImage(d, p, size, options).resource;
      && r.kind == 2 && L.WellFormed(r.shape) && r.size == size
      && (!r.shape.sparse ==> L.TightSize(r.shape) == Some(size) && size <= 0x100_0000)
  {
    var r := DecideImage(d, p, size, options).resource;
    hide Field;
    if !r.shape.sparse {
      TightOrdinary(L.Block(1, 1, 4), r.shape.extent);
      assert L.SessionBlock(r.shape.format) == Some(L.Block(1, 1, 4));
      hide L.MipSum, L.SessionBlock;
      assert L.Total(L.Block(1, 1, 4), r.shape) == L.MipSum(L.Block(1, 1, 4), r.shape.extent, 1);
    }
  }

  function DecidePipeline(d: Device, f: Frame, o: World): Decision {
    var p := f.payload;
    var spirv, entry := Field(p, 0, 4), Field(p, 4, 4);
    if f.header.resourceID == 0 && |p| >= 21 && spirv >= 4 && spirv % 4 == 0 && 0 < entry <= 1024
      && Field(p, 8, 4) == 0 && Field(p, 12, 4) == 0 && spirv + entry + 16 == |p| && d.present && d.compute
      && Field(p, 16, 4) == 0x0723_0203 && 0 !in p[16 + spirv..] && o.valuesValid
    then Create(Resource(spirv, 3, 0, Flat(0)), CREATE_COMPUTE_PIPELINE) else Refuse(InvalidPayload)
  }

  function DecideStructure(d: Device, f: Frame): Decision {
    var p := f.payload;
    if f.header.resourceID == 0 && |p| == 16 && Field(p, 0, 8) > 0 && Field(p, 8, 4) <= 2 && Field(p, 12, 4) == 0
      && d.present && d.structures
    then Create(Resource(Field(p, 0, 8), 4, 0, Flat(Field(p, 8, 4))), CREATE_ACCELERATION_STRUCTURE)
    else Refuse(InvalidPayload)
  }

  predicate GeometryValid(r: Resources, p: Bytes, k: nat) {
    var at := 16 + 72 * k;
    && Field(p, at, 4) <= 1 && IsKind(r, Field(p, at + 8, 8), 1)
    && (Field(p, at + 32, 8) == 0 || IsKind(r, Field(p, at + 32, 8), 1))
    && (Field(p, at + 56, 8) == 0 || IsKind(r, Field(p, at + 56, 8), 1))
  }

  predicate InstanceValid(r: Resources, p: Bytes, target: nat, k: nat) {
    var at := 16 + 80 * k;
    var child := Field(p, at + 64, 8);
    && Field(p, at + 48, 4) <= 0xf && Field(p, at + 52, 4) <= 0xff && Field(p, at + 56, 4) <= 0xff_ffff
    && Field(p, at + 60, 4) <= 0xff_ffff && child != target && IsKind(r, child, 4)
    && r[child].shape.format in {1, 2} && Field(p, at + 72, 8) == 0
  }

  function DecideBuild(r: Resources, d: Device, f: Frame, o: World): Decision {
    var p, id, count := f.payload, f.header.resourceID, Field(f.payload, 0, 4);
    var header := id != 0 && IsKind(r, id, 4) && count > 0 && Field(p, 4, 4) <= 0x1f && Field(p, 8, 4) == 0
      && Field(p, 12, 4) == 0 && d.present && d.structures;
    if f.header.messageType == BUILD_PRIMITIVE then
      if header && count <= 65535 && |p| == 16 + 72 * count && forall k | 0 <= k < count :: GeometryValid(r, p, k)
      then Consult(BUILD_PRIMITIVE, id) else Refuse(InvalidPayload)
    else
      if header && r[id].shape.format in {0, 2} && count <= 1048576 && |p| == 16 + 80 * count && o.valuesValid
        && forall k | 0 <= k < count :: InstanceValid(r, p, id, k)
      then Consult(BUILD_INSTANCE, id) else Refuse(InvalidPayload)
  }

  function DecideMapping(r: Resources, d: Device, f: Frame): Decision {
    var p, id := f.payload, f.header.resourceID;
    if |p| == 40 && IsKind(r, id, 2) && r[id].options == 1 && Field(p, 0, 4) <= 1 && Field(p, 12, 4) == 0
      && Field(p, 28, 4) > 0 && Field(p, 32, 4) > 0 && Field(p, 36, 4) > 0 && d.present
    then Consult(UPDATE_SPARSE_MAPPING, id) else Refuse(InvalidPayload)
  }

  function DecideSparseQuery(d: Device, f: Frame): Decision {
    if f.header.resourceID == 0 && |f.payload| == 16 && Field(f.payload, 12, 4) == 0 && d.present && d.sparse
    then Consult(QUERY_SPARSE, 0) else Refuse(InvalidPayload)
  }

  function DecideDestroy(r: Resources, fenceResources: map<nat, set<nat>>, f: Frame): Decision {
    var id := f.header.resourceID;
    if f.payload != [] then Refuse(InvalidPayload)
    else if id !in r then Refuse(ResourceNotFound)
    else if exists fence | fence in fenceResources :: id in fenceResources[fence] then Refuse(ResourceInUse)
    else Destroy
  }

  /** Where an image chunk may go: the tight size must be countable and inside the resource, the chunk inside
      it, and a chunk after the first must start where the last one ended. */
  function DecideWrite(r: Resources, uploads: map<nat, Upload>, d: Device, f: Frame): Decision {
    var p, id := f.payload, f.header.resourceID;
    if !(|p| >= 16 && id in r && Field(p, 12, 4) == 0 && Field(p, 8, 4) == |p| - 16 && d.present
         && r[id].kind in {1, 2})
    then Refuse(InvalidPayload)
    else if r[id].kind == 1 then Consult(WRITE_RESOURCE, id)
    else
      var offset, length, tight := Field(p, 0, 8), |p| - 16, L.TightSize(r[id].shape);
      if !(tight.Some? && tight.value < 0x8000_0000_0000_0000 && tight.value <= r[id].size
           && offset + length <= tight.value)
      then Refuse(OutOfBounds)
      else if offset != 0 && (id !in uploads || uploads[id].nextOffset != offset) then Refuse(OutOfBounds)
      else Store(offset, p[16..], tight.value)
  }

  function DecideRead(r: Resources, d: Device, f: Frame): Decision {
    var p, id := f.payload, f.header.resourceID;
    if !(|p| == 16 && id in r && Field(p, 8, 8) <= MAX_PAYLOAD && d.present && r[id].kind in {1, 2})
    then Refuse(InvalidPayload)
    else if r[id].kind == 2 && !(Field(p, 0, 8) == 0 && Field(p, 8, 8) == r[id].size) then Refuse(OutOfBounds)
    else Consult(READ_RESOURCE, id)
  }

  // ----- commands -----

  function DrawTexture(p: Bytes, k: nat): nat {
    Field(p, 56 + 40 * k, 8)
  }

  predicate DrawValid(r: Resources, p: Bytes, k: nat) {
    Field(p, 56 + 40 * k + 36, 4) == 0 && (DrawTexture(p, k) == 0 || IsKind(r, DrawTexture(p, k), 2))
  }

  function NonZero(id: nat): set<nat> {
    if id != 0 then {id} else {}
  }

  function DrawTextures(p: Bytes, n: nat): set<nat> {
    if n == 0 then {} else DrawTextures(p, n - 1) + NonZero(DrawTexture(p, n - 1))
  }

  predicate DrawHeaderValid(r: Resources, f: Frame) {
    var p, target, count := f.payload, f.header.resourceID, Field(f.payload, 52, 4);
    && |p| >= 56 && IsKind(r, target, 2) && r[target].shape.format == 2 && 0 < count <= 100000 && |p| == 56 + 40 * count
    && IsKind(r, Field(p, 8, 8), 1) && IsKind(r, Field(p, 16, 8), 1)
    && Field(p, 40, 4) == r[target].shape.extent.width && Field(p, 44, 4) == r[target].shape.extent.height
  }

  function LightTexture(p: Bytes, k: nat): nat {
    Field(p, 176 + 152 * k + 120, 8)
  }

  function LightProfile(p: Bytes, k: nat): nat {
    Field(p, 176 + 152 * k + 128, 8)
  }

  predicate LightImage(r: Resources, id: nat) {
    && id != 0 && IsKind(r, id, 2) && r[id].options == 0 && r[id].shape.format == 1
    && 0 < r[id].shape.extent.width <= 512 && 0 < r[id].shape.extent.height <= 512
  }

  /** The integer part of a light record; its floats are the world's to judge. */
  predicate LightValid(r: Resources, p: Bytes, k: nat) {
    var at := 176 + 152 * k;
    var kind, schema, flags := Field(p, at, 4), Field(p, at + 4, 4), Field(p, at + 144, 4);
    var rect, ies, dome := Bit(flags, 1), Bit(flags, 2), Bit(flags, 8);
    && Field(p, at + 72, 8) != 0 && Field(p, at + 116, 4) <= 1 && flags < 32 && Field(p, at + 148, 4) == 0
    && (if rect || dome then LightImage(r, LightTexture(p, k)) else LightTexture(p, k) == 0)
    && (if ies then LightImage(r, LightProfile(p, k)) && Field(p, at + 116, 4) == 1 && kind == 1
        else LightProfile(p, k) == 0 && !Bit(flags, 4))
    && (rect ==> !dome && kind == 1 && schema == 2) && (dome ==> kind == 3 && schema == 5)
    && (Bit(flags, 16) ==> dome) && (Field(p, at + 116, 4) == 1 ==> kind == 1)
    && ((kind == 1 && schema in {1, 2, 3, 6}) || (kind == 2 && schema == 4) || (kind == 3 && schema == 5))
  }

  function LightImages(p: Bytes, n: nat): set<nat> {
    if n == 0 then {} else LightImages(p, n - 1) + NonZero(LightTexture(p, n - 1)) + NonZero(LightProfile(p, n - 1))
  }

  predicate RayHeaderValid(r: Resources, d: Device, f: Frame) {
    var p, target, options := f.payload, f.header.resourceID, Field(f.payload, 32, 4);
    && |p| >= 168 && IsKind(r, target, 2) && Field(p, 16, 4) == r[target].shape.extent.width
    && Field(p, 20, 4) == r[target].shape.extent.height && options < 64 && Field(p, 36, 4) == 0 && d.rays
    && (if Bit(options, 16)
        then Field(p, 8, 8) == 0 && !Bit(options, 2) && !Bit(options, 4) && !Bit(options, 8) && !Bit(options, 32)
        else IsKind(r, Field(p, 8, 8), 4) && r[Field(p, 8, 8)].shape.format == 0)
    && (if Bit(options, 32)
        then 0 < Field(p, 168, 4) <= 16 && Field(p, 172, 4) == 0 && |p| == 176 + 152 * Field(p, 168, 4)
        else |p| == 168)
  }

  /** How many light records follow. */
  function LightCount(p: Bytes): nat {
    if Bit(Field(p, 32, 4), 32) then Field(p, 168, 4) else 0
  }

  function BindingResource(p: Bytes, k: nat): nat {
    Field(p, 32 + 48 * k + 24, 8)
  }

  datatype Slot = Slot(descriptorSet: nat, binding: nat, element: nat)

  function BindingSlot(p: Bytes, k: nat): Slot {
    Slot(Field(p, 32 + 48 * k, 4), Field(p, 32 + 48 * k + 4, 4), Field(p, 32 + 48 * k + 8, 4))
  }

  function Slots(p: Bytes, n: nat): set<Slot> {
    if n == 0 then {} else Slots(p, n - 1) + {BindingSlot(p, n - 1)}
  }

  /** What is wrong with a record by itself. */
  function RecordError(r: Resources, p: Bytes, k: nat, o: World): Option<ErrorCode> {
    var at := 32 + 48 * k;
    var kind, format, id := Field(p, at + 12, 4), Field(p, at + 16, 4), BindingResource(p, k);
    var offset, length := Field(p, at + 32, 8), Field(p, at + 40, 8);
    if kind in {1, 2, 5, 6} then
      if id !in r then Some(InvalidPayload)
      else if r[id].kind == 1 && length > 0 && offset + length <= r[id].size && (kind in {5, 6} <==> format != 0)
          then None
      else Some(OutOfBounds)
    else if kind in {3, 4} then
      if IsKind(r, id, 2) && offset == 0 && length == 0 && format == 0 then None else Some(InvalidPayload)
    else
      if id == 0 && format <= 0x1f_ffff && format / 8 % 8 <= 4 && format / 64 % 8 <= 4 && format / 512 % 8 <= 4
        && format / 0x4000 % 8 <= 7 && format / 0x4_0000 % 8 <= 5 && k !in o.badSamplers then None
            else Some(InvalidPayload)
  }

  function BindingError(r: Resources, p: Bytes, k: nat, o: World): Option<ErrorCode> {
    var at := 32 + 48 * k;
    if !(1 <= Field(p, at + 12, 4) <= 7 && Field(p, at + 20, 4) == 0 && Field(p, at, 4) < 32) then Some(InvalidPayload)
    else if BindingSlot(p, k) in Slots(p, k) then Some(InvalidPayload)
    else RecordError(r, p, k, o)
  }

  /** The first error among the first n records. */
  function BindingsError(r: Resources, p: Bytes, n: nat, o: World): Option<ErrorCode> {
    if n == 0 then None
    else if BindingsError(r, p, n - 1, o).Some? then BindingsError(r, p, n - 1, o)
    else BindingError(r, p, n - 1, o)
  }

  function BindingResources(p: Bytes, n: nat): set<nat> {
    if n == 0 then {} else BindingResources(p, n - 1) + NonZero(BindingResource(p, n - 1))
  }

  predicate DispatchHeaderValid(r: Resources, f: Frame) {
    var p := f.payload;
    && |p| >= 32 && IsKind(r, f.header.resourceID, 3)
    && Field(p, 8, 4) > 0 && Field(p, 12, 4) > 0 && Field(p, 16, 4) > 0
    && Field(p, 20, 4) <= 100000 && Field(p, 24, 4) <= 4096 && Field(p, 28, 4) == 0
    && |p| == 32 + 48 * Field(p, 20, 4) + Field(p, 24, 4)
  }

  function DecideDraw(r: Resources, f: Frame): Decision {
    var p, count := f.payload, Field(f.payload, 52, 4);
    if DrawHeaderValid(r, f) && forall k | 0 <= k < count :: DrawValid(r, p, k) then
      Submit({f.header.resourceID, Field(p, 8, 8), Field(p, 16, 8)} + DrawTextures(p, count), Some(f.header.resourceID))
    else Refuse(InvalidPayload)
  }

  function DecideTrace(r: Resources, d: Device, f: Frame, o: World): Decision {
    var p := f.payload;
    if RayHeaderValid(r, d, f) && o.valuesValid && forall k | 0 <= k < LightCount(p) :: LightValid(r, p, k) then
      if Bit(Field(p, 32, 4), 16) then Submit({f.header.resourceID}, Some(f.header.resourceID))
      else Submit({f.header.resourceID, Field(p, 8, 8)} + LightImages(p, LightCount(p)), Some(f.header.resourceID))
    else Refuse(InvalidPayload)
  }

  function DecideDispatch(r: Resources, f: Frame, o: World): Decision {
    var p, count := f.payload, Field(f.payload, 20, 4);
    if !DispatchHeaderValid(r, f) then Refuse(InvalidPayload)
    else match BindingsError(r, p, count, o)
      case Some(code) => Refuse(code)
      case None => Submit(BindingResources(p, count) + {f.header.resourceID}, None)
  }

  function DecideSubmit(r: Resources, d: Device, f: Frame, o: World): Decision {
    var p, id := f.payload, f.header.resourceID;
    if |p| < 8 || Field(p, 2, 2) != 0 || Field(p, 4, 4) != 0 then Refuse(InvalidPayload)
    else if !d.present then Refuse(BackendUnavailable)
    else if Field(p, 0, 2) == 0 then
      if |p| == 8 && id == 0 then Submit({}, None) else Refuse(InvalidPayload)
    else if Field(p, 0, 2) == 1 then
      if |p| == 16 && IsKind(r, id, 1) then Submit({id}, None) else Refuse(InvalidPayload)
    else if Field(p, 0, 2) == 2 then
      if |p| == 16 && IsKind(r, id, 2) && Field(p, 12, 4) == 0 then Submit({id}, None) else Refuse(InvalidPayload)
    else if Field(p, 0, 2) == 3 then DecideDraw(r, f)
    else if Field(p, 0, 2) == 4 then DecideTrace(r, d, f, o)
    else if Field(p, 0, 2) == 5 then DecideDispatch(r, f, o)
    else Refuse(UnsupportedCommand)
  }

  // ----- the command loops -----

  /** The draw loop: every record checked in turn, its texture kept. */
  method CollectDraws(r: Resources, p: Bytes, count: nat) returns (valid: bool, textures: set<nat>)
    ensures valid <==> forall k | 0 <= k < count :: DrawValid(r, p, k)
    ensures valid ==> textures == DrawTextures(p, count)
  {
    hide Field;
    textures := {};
    var index := 0;
    while index < count
      invariant index <= count && textures == DrawTextures(p, index)
      invariant forall k | 0 <= k < index :: DrawValid(r, p, k)
    {
      if !DrawValid(r, p, index) {
        return false, {};
      }
      if DrawTexture(p, index) != 0 {
        textures := textures + {DrawTexture(p, index)};
      }
      index := index + 1;
    }
    valid := true;
  }

  /** The light loop: every record checked in turn, its images kept. */
  method CollectLights(r: Resources, p: Bytes, count: nat) returns (valid: bool, images: set<nat>)
    ensures valid <==> forall k | 0 <= k < count :: LightValid(r, p, k)
    ensures valid ==> images == LightImages(p, count)
  {
    hide Field, LightValid;
    images := {};
    var index := 0;
    while index < count
      invariant index <= count && images == LightImages(p, index)
      invariant forall k | 0 <= k < index :: LightValid(r, p, k)
    {
      if !LightValid(r, p, index) {
        return false, {};
      }
      if LightTexture(p, index) != 0 {
        images := images + {LightTexture(p, index)};
      }
      if LightProfile(p, index) != 0 {
        images := images + {LightProfile(p, index)};
      }
      index := index + 1;
    }
    valid := true;
  }

  lemma {:induction false} ErrorStays(r: Resources, p: Bytes, m: nat, n: nat, o: World)
    requires m <= n && BindingsError(r, p, m, o).Some?
    ensures BindingsError(r, p, n, o) == BindingsError(r, p, m, o)
  {
    hide BindingError;
    if m < n { ErrorStays(r, p, m, n - 1, o); }
  }

  /** The binding loop: it stops at the first bad record, keeps the occupied slots to refuse a repeated one,
      and keeps every resource named. */
  method CollectBindings(r: Resources, p: Bytes, count: nat, o: World)
      returns (error: Option<ErrorCode>, named: set<nat>)
    ensures error == BindingsError(r, p, count, o)
    ensures error.None? ==> named == BindingResources(p, count)
  {
    hide Field, RecordError;
    named := {};
    var occupied: set<Slot> := {};
    var index := 0;
    while index < count
      invariant index <= count && BindingsError(r, p, index, o).None?
      invariant occupied == Slots(p, index) && named == BindingResources(p, index)
    {
      var at := 32 + 48 * index;
      ghost var here := BindingError(r, p, index, o);
      assert BindingsError(r, p, index + 1, o) == here;
      if !(1 <= Field(p, at + 12, 4) <= 7 && Field(p, at + 20, 4) == 0 && Field(p, at, 4) < 32) {
        ErrorStays(r, p, index + 1, count, o);
        return Some(InvalidPayload), {};
      }
      if BindingSlot(p, index) in occupied {
        ErrorStays(r, p, index + 1, count, o);
        return Some(InvalidPayload), {};
      }
      occupied := occupied + {BindingSlot(p, index)};
      var bad := RecordError(r, p, index, o);
      if bad.Some? {
        ErrorStays(r, p, index + 1, count, o);
        return bad, {};
      }
      if BindingResource(p, index) != 0 {
        named := named + {BindingResource(p, index)};
      }
      index := index + 1;
    }
    error := None;
  }

  /** An accepted dispatch binds every slot at most once. */
  lemma {:induction false} SlotsDistinct(r: Resources, p: Bytes, n: nat, o: World, j: nat, k: nat)
    requires BindingsError(r, p, n, o).None? && j < k < n
    ensures BindingSlot(p, j) != BindingSlot(p, k)
  {
    hide RecordError, Field, BindingSlot;
    if k < n - 1 {
      SlotsDistinct(r, p, n - 1, o, j, k);
    } else {
      SlotIn(p, j, k);
    }
  }

  lemma {:induction false} SlotIn(p: Bytes, j: nat, k: nat)
    requires j < k
    ensures BindingSlot(p, j) in Slots(p, k)
  {
    hide BindingSlot;
    if j < k - 1 { SlotIn(p, j, k - 1); }
  }

  // ----- what an accepted dispatch binds, read off the wire -----

  /** The 48 bytes of record k: slot, kind, format, a zero, resource, offset, length. */
  datatype Binding = Binding(slot: Slot, kind: nat, format: nat, zero: nat, id: nat, offset: nat, length: nat)

  function BindingAt(p: Bytes, k: nat): Binding {
    var at := 32 + 48 * k;
    Binding(Slot(Field(p, at, 4), Field(p, at + 4, 4), Field(p, at + 8, 4)), Field(p, at + 12, 4), Field(p, at + 16, 4),
            Field(p, at + 20, 4), Field(p, at + 24, 8), Field(p, at + 32, 8), Field(p, at + 40, 8))
  }

  /** At least one byte is bound, and every byte bound is one of a live buffer. */
  ghost predicate BytesInside(r: Resources, b: Binding) {
    b.length > 0 && forall at: nat :: Reaches(b, at) ==> InBuffer(r, b.id, at)
  }

  predicate Reaches(b: Binding, at: nat) {
    b.offset <= at < b.offset + b.length
  }

  predicate InBuffer(r: Resources, id: nat, at: nat) {
    IsKind(r, id, 1) && at < r[id].size
  }

  /** Kinds 1 and 2 bind bytes of a buffer, 5 and 6 texels of one, 3 and 4 a whole image, 7 a sampler. */
  ghost predicate Acceptable(r: Resources, b: Binding, badSampler: bool) {
    && b.slot.descriptorSet < 32 && b.zero == 0
    && match b.kind
       case 1 => BytesInside(r, b) && b.format == 0
       case 2 => BytesInside(r, b) && b.format == 0
       case 3 => IsKind(r, b.id, 2) && b.offset == 0 && b.length == 0 && b.format == 0
       case 4 => IsKind(r, b.id, 2) && b.offset == 0 && b.length == 0 && b.format == 0
       case 5 => BytesInside(r, b) && b.format != 0
       case 6 => BytesInside(r, b) && b.format != 0
       case 7 => b.id == 0 && SamplerWord(b.format) && !badSampler
       case _ => false
  }

  /** A sampler's packed fields: three filters of a bit each, the address modes along three axes, two flags, a
      comparison, whether coordinates are in texels, and the border colour. */
  datatype Sampler = Sampler(filters: nat, u: nat, v: nat, w: nat, flags: nat, compare: nat, texels: nat, border: nat)

  function Packed(s: Sampler): nat {
    s.filters + 8 * (s.u + 8 * (s.v + 8 * (s.w + 8 * (s.flags + 4 * (s.compare + 8 * (s.texels + 2 * s.border))))))
  }

  predicate Known(s: Sampler) {
    && s.filters < 8 && s.u <= 4 && s.v <= 4 && s.w <= 4 && s.flags < 4 && s.compare < 8 && s.texels < 2
    && s.border <= 5
  }

  ghost predicate SamplerWord(word: nat) {
    exists s: Sampler :: Known(s) && Packed(s) == word
  }

  /** What the guards read are the fields. */
  lemma PackedReads(s: Sampler)
    requires Known(s)
    ensures var word := Packed(s);
      && word <= 0x1f_ffff && word / 8 % 8 == s.u && word / 64 % 8 == s.v && word / 512 % 8 == s.w
      && word / 0x4_0000 % 8 == s.border
  {
    var border := s.texels + 2 * s.border;
    var compare := s.compare + 8 * border;
    var flags := s.flags + 4 * compare;
    var w := s.w + 8 * flags;
    var v := s.v + 8 * w;
    var u := s.u + 8 * v;
    Shifts(Packed(s));
    assert Packed(s) / 8 == u && u / 8 == v && v / 8 == w && w / 8 == flags && flags / 4 == compare;
    assert compare / 8 == border && border / 2 == s.border;
    hide Packed;
  }

  lemma Shifts(word: nat)
    ensures word / 64 == word / 8 / 8 && word / 512 == word / 8 / 8 / 8 && word / 0x1000 == word / 8 / 8 / 8 / 8
    ensures word / 0x4_0000 == word / 0x1000 / 4 / 8 / 2
  {
  }

  /** Every word is packed from something. */
  lemma PackedFrom(word: nat) returns (s: Sampler)
    ensures Packed(s) == word && s.filters < 8 && s.flags < 4 && s.compare < 8 && s.texels < 2
    ensures s.u == word / 8 % 8 && s.v == word / 64 % 8 && s.w == word / 512 % 8 && s.border == word / 0x4_0000
  {
    var u := word / 8;
    var v := u / 8;
    var w := v / 8;
    var flags := w / 8;
    var compare := flags / 4;
    var texels := compare / 8;
    Shifts(word);
    s := Sampler(word % 8, u % 8, v % 8, w % 8, flags % 4, compare % 8, texels % 2, texels / 2);
    assert texels == s.texels + 2 * s.border;
    assert compare == s.compare + 8 * texels;
    assert flags == s.flags + 4 * compare;
    assert w == s.w + 8 * flags;
    assert v == s.v + 8 * w;
    assert u == s.u + 8 * v;
    assert word == s.filters + 8 * u;
  }

  lemma SamplerWordIff(word: nat)
    ensures SamplerWord(word)
         <==> word <= 0x1f_ffff && word / 8 % 8 <= 4 && word / 64 % 8 <= 4 && word / 512 % 8 <= 4
              && word / 0x4_0000 % 8 <= 5
  {
    if SamplerWord(word) {
      var s: Sampler :| Known(s) && Packed(s) == word;
      PackedReads(s);
    } else {
      var t := PackedFrom(word);
      assert !(Known(t) && Packed(t) == word);
    }
    hide Packed;
  }

  lemma BytesInsideIff(r: Resources, b: Binding)
    ensures BytesInside(r, b)
         <==> b.id in r && r[b.id].kind == 1 && b.length > 0 && b.offset + b.length <= r[b.id].size
  {
    if BytesInside(r, b) {
      assert Reaches(b, b.offset + b.length - 1);
    }
  }

  lemma BindingIff(r: Resources, p: Bytes, k: nat, o: World)
    ensures BindingError(r, p, k, o).None?
         <==> Acceptable(r, BindingAt(p, k), k in o.badSamplers) && BindingAt(p, k).slot !in Slots(p, k)
  {
    var b := BindingAt(p, k);
    BytesInsideIff(r, b);
    SamplerWordIff(b.format);
    hide Field, BytesInside, SamplerWord, Slots;
  }

  /** Each of the first n bindings is acceptable, and no slot comes twice. */
  ghost predicate AllAcceptable(r: Resources, p: Bytes, n: nat, o: World) {
    && (forall k :: 0 <= k < n ==> Acceptable(r, BindingAt(p, k), k in o.badSamplers))
    && (forall j, k :: 0 <= j < k < n ==> BindingAt(p, j).slot != BindingAt(p, k).slot)
  }

  /** The records of a dispatch are accepted if and only if that is so. */
  lemma {:induction false} BindingsIff(r: Resources, p: Bytes, n: nat, o: World)
    ensures BindingsError(r, p, n, o).None? <==> AllAcceptable(r, p, n, o)
  {
    hide Field, BindingError, Acceptable, BindingAt, Slots;
    if n > 0 {
      BindingsIff(r, p, n - 1, o);
      BindingIff(r, p, n - 1, o);
      SlotsAre(p, n - 1);
    }
  }

  lemma {:induction false} SlotsAre(p: Bytes, n: nat)
    ensures forall s :: s in Slots(p, n) <==> exists k :: 0 <= k < n && BindingAt(p, k).slot == s
  {
    if n > 0 {
      SlotsAre(p, n - 1);
      assert BindingAt(p, n - 1).slot == BindingSlot(p, n - 1) by { hide Field; }
      hide Field, BindingAt, BindingSlot;
    }
  }

  /** So whatever an accepted dispatch lets the shader reach through a buffer is inside that buffer. */
  lemma DispatchInside(r: Resources, d: Device, f: Frame, o: World, k: nat)
    requires DecideSubmit(r, d, f, o).Submit? && Field(f.payload, 0, 2) == 5 && k < Field(f.payload, 20, 4)
    ensures var b := BindingAt(f.payload, k);
      b.kind in {1, 2, 5, 6} ==> b.length > 0 && forall at: nat :: Reaches(b, at) ==> InBuffer(r, b.id, at)
  {
    BindingsIff(r, f.payload, Field(f.payload, 20, 4), o);
    hide Field, DecideDraw, DecideTrace, BindingsError, BindingAt, SamplerWord, Reaches, InBuffer, DispatchHeaderValid;
    assert BindingsError(r, f.payload, Field(f.payload, 20, 4), o).None?;
    hide DecideSubmit, DecideDispatch;
    assert Acceptable(r, BindingAt(f.payload, k), k in o.badSamplers);
  }

  /** And a dispatch with a good header is submitted exactly when all its bindings are acceptable. */
  lemma DispatchAccepted(r: Resources, d: Device, f: Frame, o: World)
    requires Field(f.payload, 0, 2) == 5 && Field(f.payload, 2, 2) == 0 && Field(f.payload, 4, 4) == 0 && d.present
    requires DispatchHeaderValid(r, f)
    ensures DecideSubmit(r, d, f, o).Submit? <==> AllAcceptable(r, f.payload, Field(f.payload, 20, 4), o)
  {
    BindingsIff(r, f.payload, Field(f.payload, 20, 4), o);
    hide Field, BindingsError, AllAcceptable;
  }

  // ----- what other accepted requests rely on, read off the wire -----

  /** A draw list draws into a BGRA image from two live buffers, every record lies in the payload, and its texture
      is a live image or none. */
  lemma DrawRelies(r: Resources, d: Device, f: Frame, o: World, k: nat)
    requires DecideSubmit(r, d, f, o).Submit? && Field(f.payload, 0, 2) == 3 && k < Field(f.payload, 52, 4)
    ensures var p, id := f.payload, f.header.resourceID; var texture := Field(p, 56 + 40 * k, 8);
      && IsKind(r, id, 2) && r[id].shape.format == 2 && IsKind(r, Field(p, 8, 8), 1) && IsKind(r, Field(p, 16, 8), 1)
      && 56 + 40 * (k + 1) <= |p| && (texture != 0 ==> IsKind(r, texture, 2))
  {
    assert DrawValid(r, f.payload, k);
    hide Field, DecideTrace, DecideDispatch, BindingsError;
  }

  /** A light that shows an image, a rectangle (bit 0) or a dome (bit 3), has a live RGBA image of at most 512 by 512
      in its record; a profile (bit 1) is one too. */
  lemma LightRelies(r: Resources, d: Device, f: Frame, o: World, k: nat)
    requires DecideSubmit(r, d, f, o).Submit? && Field(f.payload, 0, 2) == 4 && k < LightCount(f.payload)
    ensures var p, at := f.payload, 176 + 152 * k; var flags := Field(p, at + 144, 4);
      && at + 152 <= |p|
      && (flags % 2 == 1 || flags / 8 % 2 == 1 ==> SmallImage(r, Field(p, at + 120, 8)))
      && (flags / 2 % 2 == 1 ==> SmallImage(r, Field(p, at + 128, 8)))
  {
    assert LightValid(r, f.payload, k);
    hide Field, DecideDraw, DecideDispatch, BindingsError;
  }

  predicate SmallImage(r: Resources, id: nat) {
    && IsKind(r, id, 2) && r[id].shape.format == 1 && r[id].options == 0
    && 1 <= r[id].shape.extent.width <= 512 && 1 <= r[id].shape.extent.height <= 512
  }

  /** An accepted build's records lie in its payload; geometry has live buffers, and an instance a live structure
      below that is not the one being built. */
  lemma BuildRelies(r: Resources, d: Device, f: Frame, o: World, k: nat)
    requires DecideBuild(r, d, f, o).Consult? && k < Field(f.payload, 0, 4)
    ensures var p := f.payload;
      if f.header.messageType == BUILD_PRIMITIVE
      then 16 + 72 * (k + 1) <= |p| && IsKind(r, Field(p, 16 + 72 * k + 8, 8), 1)
      else
        var child := Field(p, 16 + 80 * k + 64, 8);
        16 + 80 * (k + 1) <= |p| && IsKind(r, child, 4) && child != f.header.resourceID && r[child].shape.format != 0
  {
    assert if f.header.messageType == BUILD_PRIMITIVE then GeometryValid(r, f.payload, k)
           else InstanceValid(r, f.payload, f.header.resourceID, k);
    hide Field;
  }

  // ----- what a command names -----

  /** The resources a command names, read off the wire format: its target, and every ID in its records. */
  ghost predicate Names(f: Frame, id: nat) {
    var p, command, target := f.payload, Field(f.payload, 0, 2), f.header.resourceID;
    && (command == 0 ==> false)
    && (command == 1 || command == 2 ==> id == target)
    && (command == 3 ==> (id == target || id == Field(p, 8, 8) || id == Field(p, 16, 8)
        || (id != 0 && exists k: nat :: k < Field(p, 52, 4) && DrawTexture(p, k) == id)))
    && (command == 4 ==> (id == target || (!Bit(Field(p, 32, 4), 16) && id == Field(p, 8, 8))
        || (id != 0 && exists k: nat :: k < LightCount(p) && NamedByLight(p, k, id))))
    && (command == 5 ==>
          id == target || (id != 0 && exists k: nat :: k < Field(p, 20, 4) && BindingResource(p, k) == id))
  }

  predicate NamedByLight(p: Bytes, k: nat, id: nat) {
    LightTexture(p, k) == id || LightProfile(p, k) == id
  }

  lemma {:induction false} DrawTexturesAre(p: Bytes, n: nat, id: nat)
    ensures id in DrawTextures(p, n) <==> id != 0 && exists k: nat :: k < n && DrawTexture(p, k) == id
  {
    hide DrawTexture;
    if n > 0 { DrawTexturesAre(p, n - 1, id); }
  }

  lemma {:induction false} LightImagesAre(p: Bytes, n: nat, id: nat)
    ensures id in LightImages(p, n) <==> id != 0 && exists k: nat :: k < n && NamedByLight(p, k, id)
  {
    hide LightTexture, LightProfile;
    if n > 0 {
      LightImagesAre(p, n - 1, id);
      if id != 0 && (exists k: nat :: k < n && NamedByLight(p, k, id)) && id !in LightImages(p, n - 1) {
        assert NamedByLight(p, n - 1, id);
      }
      if id in NonZero(LightTexture(p, n - 1)) + NonZero(LightProfile(p, n - 1)) {
        assert NamedByLight(p, n - 1, id);
      }
    }
  }

  lemma {:induction false} BindingResourcesAre(p: Bytes, n: nat, id: nat)
    ensures id in BindingResources(p, n) <==> id != 0 && exists k: nat :: k < n && BindingResource(p, k) == id
  {
    hide BindingResource;
    if n > 0 { BindingResourcesAre(p, n - 1, id); }
  }

  lemma {:induction false} BindingLive(r: Resources, p: Bytes, n: nat, o: World, k: nat)
    requires BindingsError(r, p, n, o).None? && k < n && BindingResource(p, k) != 0
    ensures BindingResource(p, k) in r
  {
    hide Field, BindingResource;
    if k < n - 1 { BindingLive(r, p, n - 1, o, k); }
  }

  /** What an accepted command pins is exactly what it names, and all of it is live. */
  lemma SubmittedNames(r: Resources, d: Device, f: Frame, o: World, id: nat)
    requires DecideSubmit(r, d, f, o).Submit?
    ensures id in DecideSubmit(r, d, f, o).named <==> Names(f, id)
    ensures Names(f, id) ==> id in r
  {
    var p, command := f.payload, Field(f.payload, 0, 2);
    if command == 3 {
      SubmittedDraw(r, f, id);
    } else if command == 4 {
      SubmittedTrace(r, d, f, o, id);
    } else if command == 5 {
      SubmittedDispatch(r, f, o, id);
    }
    hide Field, DecideDraw, DecideTrace, DecideDispatch, DrawTexture, NamedByLight, LightCount, BindingResource, Bit;
  }

  lemma SubmittedDraw(r: Resources, f: Frame, id: nat)
    requires DecideDraw(r, f).Submit? && Field(f.payload, 0, 2) == 3
    ensures id in DecideDraw(r, f).named <==> Names(f, id)
    ensures Names(f, id) ==> id in r
  {
    DrawTexturesAre(f.payload, Field(f.payload, 52, 4), id);
    hide Field, DrawTextures, DrawTexture;
    if k: nat :| k < Field(f.payload, 52, 4) && DrawTexture(f.payload, k) == id && id != 0 {
      assert DrawValid(r, f.payload, k);
    }
  }

  lemma SubmittedTrace(r: Resources, d: Device, f: Frame, o: World, id: nat)
    requires DecideTrace(r, d, f, o).Submit? && Field(f.payload, 0, 2) == 4
    ensures id in DecideTrace(r, d, f, o).named <==> Names(f, id)
    ensures Names(f, id) ==> id in r
  {
    var p := f.payload;
    LightImagesAre(p, LightCount(p), id);
    hide Field, LightImages, LightTexture, LightProfile, Bit;
    if k: nat :| k < LightCount(p) && NamedByLight(p, k, id) && id != 0 {
      LightNamesLive(r, p, k, id);
    }
  }

  lemma LightNamesLive(r: Resources, p: Bytes, k: nat, id: nat)
    requires LightValid(r, p, k) && NamedByLight(p, k, id) && id != 0
    ensures id in r
  {
    hide Field, LightTexture, LightProfile, Bit;
  }

  lemma SubmittedDispatch(r: Resources, f: Frame, o: World, id: nat)
    requires DecideDispatch(r, f, o).Submit? && Field(f.payload, 0, 2) == 5
    ensures id in DecideDispatch(r, f, o).named <==> Names(f, id)
    ensures Names(f, id) ==> id in r
  {
    var p, n := f.payload, Field(f.payload, 20, 4);
    BindingResourcesAre(p, n, id);
    hide Field, BindingResources, BindingResource, BindingsError;
    if k: nat :| k < n && BindingResource(p, k) == id && id != 0 {
      BindingLive(r, p, n, o, k);
    }
  }
}

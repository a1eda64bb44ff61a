/** A session's whole state, the session's tables and the GPU backend's, and what one request does to it, as a
    function; the invariant every request keeps. */
module SessionState {
  import opened ByteStrings
  import opened Wire
  import opened SessionProtocol
  import L = ImageLayout

  /** An image the backend was given, in the order it was given them. */
  datatype Received = Received(id: nat, data: Bytes)

  datatype Tables = Tables(buffers: set<nat>, images: map<nat, L.Image>, pipelines: set<nat>, structures: set<nat>,
    commands: set<nat>, frameImages: map<nat, nat>, received: seq<Received>)

  datatype State = State(negotiated: bool, resources: Resources, uploads: map<nat, Upload>, fences: set<nat>,
    fenceResources: map<nat, set<nat>>, nextResource: nat, nextFence: nat, tables: Tables)

  datatype Outcome = Outcome(state: State, reply: Frame, stop: bool)

  function NoTables(): Tables {
    Tables({}, map[], {}, {}, {}, map[], [])
  }

  function Initial(): State {
    State(false, map[], map[], {}, map[], 1, 1, NoTables())
  }

  function Decide(s: State, d: Device, f: Frame, o: World): Decision {
    var kind := f.header.messageType;
    if HeaderError(f).Some? then Refuse(HeaderError(f).value)
    else if !s.negotiated then if kind != HELLO then Refuse(HandshakeRequired) else DecideHello(f.payload)
    else if f.header.versionMajor != MAJOR || f.header.versionMinor != MINOR then Refuse(UnsupportedVersion)
    else DecideMessage(s, d, f, o)
  }

  function DecideMessage(s: State, d: Device, f: Frame, o: World): Decision {
    var kind := f.header.messageType;
    if kind == QUERY_CAPABILITIES then
      if f.payload != [] then Refuse(InvalidPayload) else Answer(CAPABILITIES_REPLY, Capabilities(d))
    else if kind == PING then Answer(PONG, f.payload)
    else if kind == QUERY_SPARSE then DecideSparseQuery(d, f)
    else if kind == CREATE_RESOURCE then DecideCreate(d, f.payload)
    else if kind == UPDATE_SPARSE_MAPPING then DecideMapping(s.resources, d, f)
    else if kind == CREATE_COMPUTE_PIPELINE then DecidePipeline(d, f, o)
    else if kind == CREATE_ACCELERATION_STRUCTURE then DecideStructure(d, f)
    else if kind == BUILD_PRIMITIVE || kind == BUILD_INSTANCE then DecideBuild(s.resources, d, f, o)
    else if kind == DESTROY_RESOURCE then DecideDestroy(s.resources, s.fenceResources, f)
    else if kind == WRITE_RESOURCE then DecideWrite(s.resources, s.uploads, d, f)
    else if kind == READ_RESOURCE then DecideRead(s.resources, d, f)
    else if kind == SUBMIT_COMMAND then DecideSubmit(s.resources, d, f, o)
    else if kind == WAIT_FENCE then
      if f.payload != [] then Refuse(InvalidPayload)
      else if f.header.resourceID !in s.fences || !d.present then Refuse(ResourceNotFound)
      else Wait
    else if kind == SHUTDOWN then if f.payload != [] then Refuse(InvalidPayload) else ShutDown
    else Refuse(UnsupportedMessage)
  }

  function Capabilities(d: Device): Bytes {
    LittleEndian(d.capabilities, 8) + LittleEndian(d.maxBufferLength, 8)
      + LittleEndian(|d.name|, 4) + LittleEndian(0, 4) + d.name
  }

  // ----- replies -----

  function Reply(request: Frame, kind: nat, id: nat, payload: Bytes): Frame {
    Frame(Header(MAGIC, MAJOR, MINOR, kind, 1, |payload|, request.header.requestID, id), payload)
  }

  function Failure(request: Frame, code: ErrorCode, o: World): Frame {
    Reply(request, ERROR, request.header.resourceID,
        LittleEndian(RawCode(code), 4) + LittleEndian(|o.message|, 4) + o.message)
  }

  predicate IsError(reply: Frame) {
    reply.header.messageType == ERROR
  }

  // ----- the backend's tables -----

  /** The IDs a create of this kind refuses to use again, and with which error. */
  function TakenError(t: Tables, kind: nat, id: nat): Option<ErrorCode> {
    if id in t.buffers || id in t.images then Some(if kind == 2 then OutOfBounds else UnsupportedCommand)
    else if kind >= 3 && id in t.pipelines then Some(UnsupportedCommand)
    else if kind == 4 && id in t.structures then Some(UnsupportedCommand)
    else None
  }

  function Made(t: Tables, id: nat, r: Resource): Tables {
    if r.kind == 1 then t.(buffers := t.buffers + {id})
    else if r.kind == 2 then t.(images := t.images[id := r.shape])
    else if r.kind == 3 then t.(pipelines := t.pipelines + {id})
    else t.(structures := t.structures + {id})
  }

  predicate Has(t: Tables, kind: nat, id: nat) {
    if kind == 1 then id in t.buffers else if kind == 2 then id in t.images
    else if kind == 3 then id in t.pipelines else id in t.structures
  }

  function Dropped(t: Tables, kind: nat, id: nat): Tables {
    if kind == 1 then t.(buffers := t.buffers - {id})
    else if kind == 2 then t.(images := t.images - {id})
    else if kind == 3 then t.(pipelines := t.pipelines - {id})
    else t.(structures := t.structures - {id})
  }

  /** Why the backend would not take an image's bytes: no such image, a format it has no upload for, or a size
      that is not the image's. */
  function ImageError(t: Tables, id: nat, data: Bytes): Option<ErrorCode> {
    if id !in t.images then Some(ResourceNotFound)
    else match L.BackendBlock(t.images[id].format)
      case None => Some(UnsupportedCommand)
      case Some(b) => if |data| != L.Total(b, t.images[id]) then Some(OutOfBounds) else None
  }

  // ----- one request -----

  function First<T>(a: Option<T>, b: Option<T>): Option<T> {
    if a.Some? then a else b
  }

  function Fill(data: Bytes, offset: nat, chunk: Bytes): (r: Bytes)
    requires offset + |chunk| <= |data|
    ensures |r| == |data|
  {
    data[..offset] + chunk + data[offset + |chunk|..]
  }

  function Zeros(n: nat): (z: Bytes)
    ensures |z| == n && forall k :: 0 <= k < n ==> z[k] == 0
  {
    seq(n, i => 0)
  }

  /** A chunk's upload: all zeros at the start of a new one, otherwise the one under way. */
  function UploadFor(s: State, id: nat, offset: nat, tight: nat): Upload {
    if offset == 0 || id !in s.uploads then Upload(Zeros(tight), 0) else s.uploads[id]
  }

  /** Uploads of live images hold exactly the image's tight size, partly received. */
  predicate UploadsFit(s: State) {
    forall id :: id in s.uploads && id in s.resources ==>
      s.resources[id].kind == 2 && L.TightSize(s.resources[id].shape) == Some(|s.uploads[id].data|)
      && s.uploads[id].nextOffset < |s.uploads[id].data|
  }

  function NextCreate(s: State, f: Frame, o: World, resource: Resource, kind: nat): Outcome {
    var id := s.nextResource;
    match First(TakenError(s.tables, resource.kind, id), o.failure)
    case Some(code) => Outcome(s, Failure(f, code, o), false)
    case None =>
      Outcome(s.(resources := s.resources[id := resource], nextResource := id + 1,
          tables := Made(s.tables, id, resource)),
              Reply(f, kind, id, if kind == CREATE_COMPUTE_PIPELINE then o.answer else []), false)
  }

  function NextDestroy(s: State, d: Device, f: Frame, o: World): Outcome
    requires f.header.resourceID in s.resources
  {
    var id := f.header.resourceID;
    var kind := s.resources[id].kind;
    if d.present && !Has(s.tables, kind, id) then Outcome(s, Failure(f, ResourceNotFound, o), false)
    else
      Outcome(s.(resources := s.resources - {id}, uploads := s.uploads - {id},
                 tables := if d.present then Dropped(s.tables, kind, id) else s.tables),
              Reply(f, DESTROY_RESOURCE, id, []), false)
  }

  function NextStore(s: State, f: Frame, o: World, offset: nat, chunk: Bytes, tight: nat): Outcome
    requires offset + |chunk| <= tight && |UploadFor(s, f.header.resourceID, offset, tight).data| == tight
  {
    var id := f.header.resourceID;
    var data, end := Fill(UploadFor(s, id, offset, tight).data, offset, chunk), offset + |chunk|;
    if end < tight
    then Outcome(s.(uploads := s.uploads[id := Upload(data, end)]), Reply(f, WRITE_RESOURCE, id, []), false)
    else match First(ImageError(s.tables, id, data), o.failure)
      case Some(code) => Outcome(s, Failure(f, code, o), false)
      case None =>
        Outcome(s.(uploads := s.uploads - {id},
            tables := s.tables.(received := s.tables.received + [Received(id, data)])),
                Reply(f, WRITE_RESOURCE, id, []), false)
  }

  function Submitted(t: Tables, fence: nat, frameImage: Option<nat>): Tables {
    t.(commands := t.commands + {fence},
       frameImages := if frameImage.Some? then t.frameImages[fence := frameImage.value] else t.frameImages)
  }

  function NextSubmit(s: State, f: Frame, o: World, named: set<nat>, frameImage: Option<nat>): Outcome {
    var fence := s.nextFence;
    match o.failure
    case Some(code) => Outcome(s, Failure(f, code, o), false)
    case None =>
      Outcome(s.(fences := s.fences + {fence}, nextFence := fence + 1,
                 fenceResources := if named != {} then s.fenceResources[fence := named] else s.fenceResources,
                 tables := Submitted(s.tables, fence, frameImage)),
              Reply(f, SUBMIT_COMMAND, fence, []), false)
  }

  /** Waiting removes the backend's command first; only then can it fail. */
  function NextWait(s: State, f: Frame, o: World): Outcome {
    var fence := f.header.resourceID;
    if fence !in s.tables.commands then Outcome(s, Failure(f, ResourceNotFound, o), false) else
    var t := s.tables.(commands := s.tables.commands - {fence});
    match o.failure
    case Some(code) => Outcome(s.(tables := t), Failure(f, code, o), false)
    case None =>
      Outcome(s.(fences := s.fences - {fence}, fenceResources := s.fenceResources - {fence},
                 tables := t.(frameImages := t.frameImages - {fence})),
              Reply(f, WAIT_FENCE, fence, LittleEndian(1, 4) + LittleEndian(0, 4)), false)
  }

  function Reset(t: Tables): Tables {
    NoTables().(received := t.received)
  }

  /** Shutting down forgets resources and fences and resets the backend; uploads, counters and the negotiation
      stay. */
  function NextShutDown(s: State, d: Device, f: Frame): Outcome {
    Outcome(s.(resources := map[], fences := {}, fenceResources := map[],
               tables := if d.present then Reset(s.tables) else s.tables),
            Reply(f, SHUTDOWN, 0, []), true)
  }

  /** A chunk that may be stored fits the upload it goes into. */
  lemma StoreFits(s: State, d: Device, f: Frame, o: World)
    requires UploadsFit(s) && Decide(s, d, f, o).Store?
    ensures StoreReady(s, f.header.resourceID, Decide(s, d, f, o))
    ensures d.present
  {
    var c := Decide(s, d, f, o);
    assert c == DecideWrite(s.resources, s.uploads, d, f) by { StoreFrom(s, d, f, o); }
    hide Decide, Field, L.TightSize;
  }

  lemma StoreFrom(s: State, d: Device, f: Frame, o: World)
    requires Decide(s, d, f, o).Store?
    ensures Decide(s, d, f, o) == DecideWrite(s.resources, s.uploads, d, f)
  {
    hide Field, DecideWrite;
  }

  predicate StoreReady(s: State, id: nat, c: Decision) {
    && c.Store? && c.offset + |c.chunk| <= c.tight && id in s.resources
    && s.resources[id].kind == 2 && L.TightSize(s.resources[id].shape) == Some(c.tight)
    && |UploadFor(s, id, c.offset, c.tight).data| == c.tight
    && (c.offset != 0 ==> id in s.uploads && s.uploads[id].nextOffset == c.offset)
  }

  lemma DestroyFinds(s: State, d: Device, f: Frame, o: World)
    requires Decide(s, d, f, o).Destroy?
    ensures f.header.resourceID in s.resources
  {
  }

  function Next(s: State, d: Device, f: Frame, o: World): Outcome
    requires UploadsFit(s)
  {
    match Decide(s, d, f, o)
    case Refuse(code) => Outcome(s, Failure(f, code, o), false)
    case Negotiate =>
      Outcome(s.(negotiated := true), Reply(f, HELLO_REPLY, 0,
          LittleEndian(MAJOR, 2) + LittleEndian(MINOR, 2) + LittleEndian(0, 4)), false)
    case Answer(kind, payload) => Outcome(s, Reply(f, kind, 0, payload), false)
    case Consult(kind, id) =>
      if o.failure.Some? then Outcome(s, Failure(f, o.failure.value, o), false)
      else Outcome(s, Reply(f, kind, id, o.answer), false)
    case Create(resource, kind) => NextCreate(s, f, o, resource, kind)
    case Destroy => DestroyFinds(s, d, f, o); NextDestroy(s, d, f, o)
    case Store(offset, chunk, tight) => StoreFits(s, d, f, o); NextStore(s, f, o, offset, chunk, tight)
    case Submit(named, frameImage) => NextSubmit(s, f, o, named, frameImage)
    case Wait => NextWait(s, f, o)
    case ShutDown => NextShutDown(s, d, f)
  }

  // ----- the invariant -----

  /** The session's table is the disjoint union of the backend's tables, by ID and kind. */
  ghost predicate Agree(s: State) {
    && (forall id: nat :: id in s.tables.buffers <==> IsKind(s.resources, id, 1))
    && (forall id: nat :: id in s.tables.images <==> IsKind(s.resources, id, 2))
    && (forall id: nat :: id in s.tables.pipelines <==> IsKind(s.resources, id, 3))
    && (forall id: nat :: id in s.tables.structures <==> IsKind(s.resources, id, 4))
    && (forall id: nat :: id in s.resources ==> 1 <= s.resources[id].kind <= 4)
    && (forall id: nat :: id in s.tables.images ==> s.tables.images[id] == s.resources[id].shape)
  }

  /** Counters are ahead of every ID ever given out. */
  predicate Counted(s: State) {
    && s.nextResource > 0 && s.nextFence > 0
    && (forall id :: id in s.resources ==> 0 < id < s.nextResource)
    && (forall id :: id in s.uploads ==> id < s.nextResource)
    && (forall fence :: fence in s.fences ==> 0 < fence < s.nextFence)
    && (forall k :: 0 <= k < |s.tables.received| ==> s.tables.received[k].id < s.nextResource)
  }

  /** Backend commands and frame images belong to fences; what a fence pins is live. */
  predicate Pinned(s: State) {
    && s.tables.commands <= s.fences
    && (forall fence :: fence in s.fenceResources ==> fence in s.fences && s.fenceResources[fence] <= s.resources.Keys)
    && (forall fence :: fence in s.tables.frameImages ==>
          fence in s.fenceResources && s.tables.frameImages[fence] in s.fenceResources[fence]
          && IsKind(s.resources, s.tables.frameImages[fence], 2))
  }

  /** Before negotiation nothing has happened; without a backend there is nothing to hold. */
  predicate Quiet(s: State, d: Device) {
    && (!s.negotiated ==> s == Initial())
    && (!d.present ==> s == Initial().(negotiated := s.negotiated))
  }

  ghost predicate Inv(s: State, d: Device) {
    Agree(s) && Counted(s) && Pinned(s) && UploadsFit(s) && Quiet(s, d)
  }

  lemma InitialInv(d: Device)
    ensures Inv(Initial(), d)
  {
  }

  lemma CreateInv(s: State, d: Device, f: Frame, o: World, resource: Resource, kind: nat)
    requires Inv(s, d) && d.present && s.negotiated && 1 <= resource.kind <= 4
    ensures Inv(NextCreate(s, f, o, resource, kind).state, d)
  {
    var t := NextCreate(s, f, o, resource, kind).state;
    if t != s {
      CreateAgree(s, t, resource);
      CreateRest(s, t, d, resource);
    }
  }

  lemma CreateAgree(s: State, t: State, resource: Resource)
    requires Agree(s) && Counted(s) && 1 <= resource.kind <= 4
    requires t.resources == s.resources[s.nextResource := resource]
    requires t.tables == Made(s.tables, s.nextResource, resource)
    ensures Agree(t)
  {
  }

  lemma CreateRest(s: State, t: State, d: Device, resource: Resource)
    requires Inv(s, d) && d.present && s.negotiated && 1 <= resource.kind <= 4
    requires t == s.(resources := s.resources[s.nextResource := resource], nextResource := s.nextResource + 1,
                     tables := Made(s.tables, s.nextResource, resource))
    ensures Counted(t) && Pinned(t) && UploadsFit(t) && Quiet(t, d)
  {
    hide Agree, L.TightSize;
    assert s.nextResource !in s.resources && s.nextResource !in s.uploads;
  }

  lemma DestroyInv(s: State, d: Device, f: Frame, o: World)
    requires Inv(s, d) && s.negotiated && f.header.resourceID in s.resources
    requires forall fence :: fence in s.fenceResources ==> f.header.resourceID !in s.fenceResources[fence]
    ensures Inv(NextDestroy(s, d, f, o).state, d)
  {
    var t := NextDestroy(s, d, f, o).state;
    if t != s {
      var id := f.header.resourceID;
      assert d.present;
      DestroyAgree(s, t, id);
      DestroyRest(s, t, d, id);
    }
  }

  lemma DestroyAgree(s: State, t: State, id: nat)
    requires Agree(s) && id in s.resources
    requires t.resources == s.resources - {id} && t.tables == Dropped(s.tables, s.resources[id].kind, id)
    ensures Agree(t)
  {
  }

  lemma DestroyRest(s: State, t: State, d: Device, id: nat)
    requires Inv(s, d) && d.present && s.negotiated && id in s.resources
    requires forall fence :: fence in s.fenceResources ==> id !in s.fenceResources[fence]
    requires t == s.(resources := s.resources - {id}, uploads := s.uploads - {id},
                     tables := Dropped(s.tables, s.resources[id].kind, id))
    ensures Counted(t) && Pinned(t) && UploadsFit(t) && Quiet(t, d)
  {
    hide Agree, L.TightSize;
  }

  lemma StoreInv(s: State, d: Device, f: Frame, o: World, c: Decision)
    requires Inv(s, d) && s.negotiated && StoreReady(s, f.header.resourceID, c)
    ensures Inv(NextStore(s, f, o, c.offset, c.chunk, c.tight).state, d)
  {
    hide ImageError, L.TightSize;
  }

  lemma SameUploads(s: State, t: State)
    requires UploadsFit(s) && t.resources == s.resources && t.uploads == s.uploads
    ensures UploadsFit(t)
  {
    hide L.TightSize;
  }

  lemma SubmitInv(s: State, d: Device, f: Frame, o: World, named: set<nat>, frameImage: Option<nat>)
    requires Inv(s, d) && s.negotiated && d.present && named <= s.resources.Keys
    requires frameImage.Some? ==> frameImage.value in named && IsKind(s.resources, frameImage.value, 2)
    ensures Inv(NextSubmit(s, f, o, named, frameImage).state, d)
  {
    var t := NextSubmit(s, f, o, named, frameImage).state;
    if t != s {
      hide Agree, Pinned, UploadsFit;
      SameResources(s, t);
      SameUploads(s, t);
      SubmitPinned(s, t, named, frameImage);
    }
  }

  lemma SubmitPinned(s: State, t: State, named: set<nat>, frameImage: Option<nat>)
    requires Pinned(s) && Counted(s) && named <= s.resources.Keys
    requires frameImage.Some? ==> frameImage.value in named && IsKind(s.resources, frameImage.value, 2)
    requires t.resources == s.resources && t.fences == s.fences + {s.nextFence}
    requires t.fenceResources == if named != {} then s.fenceResources[s.nextFence := named] else s.fenceResources
    requires t.tables == Submitted(s.tables, s.nextFence, frameImage)
    ensures Pinned(t)
  {
    assert s.nextFence !in s.fences && s.nextFence !in s.fenceResources;
  }

  lemma WaitInv(s: State, d: Device, f: Frame, o: World)
    requires Inv(s, d) && s.negotiated && d.present
    ensures Inv(NextWait(s, f, o).state, d)
  {
    var t, fence := NextWait(s, f, o).state, f.header.resourceID;
    if t != s {
      hide Agree, Counted, Pinned, UploadsFit;
      WaitRest(s, t);
      SameResources(s, t);
      WaitPinned(s, t, fence);
    }
  }

  lemma SameResources(s: State, t: State)
    requires Agree(s) && t.resources == s.resources
    requires t.tables == s.tables.(commands := t.tables.commands, frameImages := t.tables.frameImages)
    ensures Agree(t)
  {
  }

  lemma WaitPinned(s: State, t: State, fence: nat)
    requires Pinned(s) && fence in s.tables.commands
    requires t == s.(tables := s.tables.(commands := s.tables.commands - {fence}))
      || t == s.(fences := s.fences - {fence}, fenceResources := s.fenceResources - {fence}, tables := s.tables.(
                 commands := s.tables.commands - {fence}, frameImages := s.tables.frameImages - {fence}))
    ensures Pinned(t)
  {
  }

  lemma WaitRest(s: State, t: State)
    requires Counted(s) && UploadsFit(s) && t.resources == s.resources && t.uploads == s.uploads && t.fences <= s.fences
    requires t.nextResource == s.nextResource && t.nextFence == s.nextFence && t.tables.received == s.tables.received
    ensures Counted(t) && UploadsFit(t)
  {
    hide L.TightSize;
  }

  lemma ShutDownInv(s: State, d: Device, f: Frame)
    requires Inv(s, d) && s.negotiated
    ensures Inv(NextShutDown(s, d, f).state, d)
  {
  }

  lemma CommandFits(s: State, d: Device, f: Frame, o: World)
    requires DecideSubmit(s.resources, d, f, o).Submit?
    ensures var c := DecideSubmit(s.resources, d, f, o);
      c.named <= s.resources.Keys && d.present
      && (c.frameImage.Some? ==> c.frameImage.value in c.named && IsKind(s.resources, c.frameImage.value, 2))
  {
    var c := DecideSubmit(s.resources, d, f, o);
    forall id | id in c.named ensures id in s.resources {
      SubmittedNames(s.resources, d, f, o, id);
    }
    hide Field, Bit, DrawTextures, LightImages, BindingResources, BindingsError, DrawValid, LightValid;
  }

  /** Which message a decision comes from, and what its guards have established. */
  lemma Stage(s: State, d: Device, f: Frame, o: World)
    ensures var c := Decide(s, d, f, o); var kind := f.header.messageType;
      && (!c.Refuse? && !c.Negotiate? ==> s.negotiated && HeaderError(f).None?)
      && (c.Negotiate? ==> !s.negotiated && kind == HELLO)
      && (c.Answer? ==> c.reply in {CAPABILITIES_REPLY, PONG})
      && (c.Consult? ==> c.reply == kind && c.reply in {QUERY_SPARSE, UPDATE_SPARSE_MAPPING, BUILD_PRIMITIVE,
          BUILD_INSTANCE, WRITE_RESOURCE, READ_RESOURCE})
      && (c.Create? ==> d.present && 1 <= c.resource.kind <= 4 && kind == c.reply)
      && (c.Create? ==> kind in {CREATE_RESOURCE, CREATE_COMPUTE_PIPELINE, CREATE_ACCELERATION_STRUCTURE})
      && (c.Destroy? ==> kind == DESTROY_RESOURCE && f.header.resourceID in s.resources)
      && (c.Destroy? ==> forall fence :: fence in s.fenceResources ==> f.header.resourceID !in s.fenceResources[fence])
      && (c.Store? ==> kind == WRITE_RESOURCE)
      && (c.Submit? ==> kind == SUBMIT_COMMAND && c == DecideSubmit(s.resources, d, f, o))
      && (c.Wait? ==> kind == WAIT_FENCE && d.present && f.header.resourceID in s.fences && f.payload == [])
      && (c.ShutDown? ==> kind == SHUTDOWN && f.payload == [])
  {
    SubmitOnly(s.resources, d, f, o);
    hide Field, DecodedDepth, DecideSubmit, HeaderError, VersionSupported, L.TightSize;
    hide GeometryValid, InstanceValid;
  }

  lemma SubmitOnly(r: Resources, d: Device, f: Frame, o: World)
    ensures DecideSubmit(r, d, f, o).Submit? || DecideSubmit(r, d, f, o).Refuse?
  {
    hide Field, Bit, DrawTextures, LightImages, BindingResources, BindingsError, DrawValid, LightValid;
    hide DrawHeaderValid, RayHeaderValid, DispatchHeaderValid;
  }

  /** Every request keeps the invariant. */
  lemma NextInv(s: State, d: Device, f: Frame, o: World)
    requires Inv(s, d)
    ensures Inv(Next(s, d, f, o).state, d)
  {
    var c := Decide(s, d, f, o);
    Stage(s, d, f, o);
    hide Decide, NextCreate, NextDestroy, NextStore, NextSubmit, NextWait, NextShutDown;
    match c {
      case Create(resource, kind) => CreateInv(s, d, f, o, resource, kind);
      case Destroy => DestroyInv(s, d, f, o);
      case Store(_, _, _) => StoreFits(s, d, f, o); StoreInv(s, d, f, o, c);
      case Submit(named, frameImage) =>
        CommandFits(s, d, f, o);
        SubmitInv(s, d, f, o, named, frameImage);
      case Wait => WaitInv(s, d, f, o);
      case ShutDown => ShutDownInv(s, d, f);
      case _ =>
    }
  }
}

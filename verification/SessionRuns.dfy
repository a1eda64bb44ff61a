/** What holds over whole runs of a session: any frames, any answers of the world, failures included. */
module SessionRuns {
  import opened ByteStrings
  import opened Wire
  import opened SessionProtocol
  import opened SessionState
  import L = ImageLayout

  datatype Input = Input(f: Frame, o: World)

  ghost function Step(s: State, d: Device, i: Input): (t: Outcome)
    requires Inv(s, d)
    ensures Inv(t.state, d)
  {
    NextInv(s, d, i.f, i.o);
    Next(s, d, i.f, i.o)
  }

  ghost function Run(s: State, d: Device, ins: seq<Input>): (t: State)
    requires Inv(s, d)
    ensures Inv(t, d)
    decreases |ins|
  {
    if ins == [] then s else Run(Step(s, d, ins[0]).state, d, ins[1..])
  }

  // ----- what a step can be -----

  datatype Chunk = Chunk(offset: nat, data: Bytes)

  /** The eleven things a request can do. */
  datatype Effect =
    | Rejected
    | LostCommand(fence: nat)
    | Answered
    | Negotiated
    | Created(resource: Resource)
    | Destroyed(id: nat)
    | Stored(id: nat, chunk: Chunk, tight: nat)
    | Delivered(id: nat, chunk: Chunk, tight: nat)
    | Started(named: set<nat>, frameImage: Option<nat>)
    | Waited(fence: nat)
    | Stopped

  predicate IsCreate(kind: nat) {
    kind == CREATE_RESOURCE || kind == CREATE_COMPUTE_PIPELINE || kind == CREATE_ACCELERATION_STRUCTURE
  }

  predicate ReadsOnly(kind: nat) {
    kind in {CAPABILITIES_REPLY, PONG, QUERY_SPARSE, UPDATE_SPARSE_MAPPING, BUILD_PRIMITIVE, BUILD_INSTANCE,
        WRITE_RESOURCE, READ_RESOURCE}
  }

  /** An image chunk that fits: the image is live, and the chunk starts over or continues the upload. */
  predicate Fits(s: State, id: nat, c: Chunk, tight: nat) {
    && IsKind(s.resources, id, 2) && L.TightSize(s.resources[id].shape) == Some(tight)
    && c.offset + |c.data| <= tight && |UploadFor(s, id, c.offset, tight).data| == tight
    && (c.offset != 0 ==> id in s.uploads && s.uploads[id].nextOffset == c.offset)
  }

  function Filled(s: State, id: nat, c: Chunk, tight: nat): Bytes
    requires Fits(s, id, c, tight)
  {
    Fill(UploadFor(s, id, c.offset, tight).data, c.offset, c.data)
  }

  predicate IsWrite(f: Frame, id: nat, c: Chunk) {
    && f.header.messageType == WRITE_RESOURCE && f.header.resourceID == id && |f.payload| >= 16
    && c == Chunk(Field(f.payload, 0, 8), f.payload[16..])
  }

  predicate Echo(f: Frame, reply: Frame) {
    && reply.header.requestID == f.header.requestID && reply.header.flags == 1 && reply.header.magic == MAGIC
    && reply.header.versionMajor == MAJOR && reply.header.versionMinor == MINOR
    && reply.header.payloadLength == |reply.payload|
  }

  /** The outcome t of a request is this effect, and nothing else. */
  ghost predicate Effective(s: State, d: Device, f: Frame, t: Outcome, e: Effect) {
    var kind, reply, id := f.header.messageType, t.reply.header.messageType, f.header.resourceID;
    && Echo(f, t.reply) && (t.stop <==> e.Stopped?)
    && (IsError(t.reply) <==> e.Rejected? || e.LostCommand?)
    && match e
       case Rejected => t.state == s
       case LostCommand(fence) =>
         && kind == WAIT_FENCE && id == fence && fence in s.tables.commands
         && t.state == s.(tables := s.tables.(commands := s.tables.commands - {fence}))
       case Answered => t.state == s && ReadsOnly(reply) && (reply == WRITE_RESOURCE ==> IsKind(s.resources, id, 1))
       case Negotiated => !s.negotiated && kind == HELLO && reply == HELLO_REPLY && t.state == s.(negotiated := true)
       case Created(r) =>
         && IsCreate(kind) && reply == kind && t.reply.header.resourceID == s.nextResource && 1 <= r.kind <= 4
         && t.state == s.(resources := s.resources[s.nextResource := r], nextResource := s.nextResource + 1,
                          tables := Made(s.tables, s.nextResource, r))
       case Destroyed(gone) =>
         && kind == DESTROY_RESOURCE && reply == kind && gone == id && id in s.resources
         && (forall fence :: fence in s.fenceResources ==> id !in s.fenceResources[fence])
         && t.state == s.(resources := s.resources - {id}, uploads := s.uploads - {id},
                          tables := Dropped(s.tables, s.resources[id].kind, id))
       case Stored(at, c, tight) =>
         && reply == WRITE_RESOURCE && IsWrite(f, at, c) && Fits(s, at, c, tight) && c.offset + |c.data| < tight
         && t.state == s.(uploads := s.uploads[at := Upload(Filled(s, at, c, tight), c.offset + |c.data|)])
       case Delivered(at, c, tight) =>
         && reply == WRITE_RESOURCE && IsWrite(f, at, c) && Fits(s, at, c, tight) && c.offset + |c.data| == tight
         && t.state == s.(uploads := s.uploads - {at},
                          tables := s.tables.(received := s.tables.received + [Received(at, Filled(s, at, c, tight))]))
       case Started(named, frameImage) =>
         && kind == SUBMIT_COMMAND && reply == kind && t.reply.header.resourceID == s.nextFence
         && (forall r :: r in named <==> Names(f, r)) && named <= s.resources.Keys
         && t.state == s.(fences := s.fences + {s.nextFence}, nextFence := s.nextFence + 1,
                          fenceResources := if named != {} then s.fenceResources[s.nextFence := named]
                              else s.fenceResources,
                          tables := Submitted(s.tables, s.nextFence, frameImage))
       case Waited(fence) =>
         && kind == WAIT_FENCE && reply == kind && id == fence && fence in s.tables.commands
         && t.state == s.(fences := s.fences - {fence}, fenceResources := s.fenceResources - {fence},
                          tables := s.tables.(commands := s.tables.commands - {fence},
                              frameImages := s.tables.frameImages - {fence}))
       case Stopped =>
         && reply == SHUTDOWN
         && t.state == s.(resources := map[], fences := {}, fenceResources := map[], tables := Reset(s.tables))
  }

  lemma CreateEffect(s: State, d: Device, f: Frame, o: World, resource: Resource) returns (e: Effect)
    requires IsCreate(f.header.messageType) && 1 <= resource.kind <= 4
    ensures Effective(s, d, f, NextCreate(s, f, o, resource, f.header.messageType), e)
  {
    hide TakenError, LittleEndian, Names, Fits;
    e := if IsError(NextCreate(s, f, o, resource, f.header.messageType).reply) then Rejected else Created(resource);
  }

  lemma DestroyEffect(s: State, d: Device, f: Frame, o: World) returns (e: Effect)
    requires Inv(s, d) && f.header.resourceID in s.resources && f.header.messageType == DESTROY_RESOURCE
    requires forall fence :: fence in s.fenceResources ==> f.header.resourceID !in s.fenceResources[fence]
    ensures Effective(s, d, f, NextDestroy(s, d, f, o), e)
  {
    hide LittleEndian, Names, Fits, Counted, Pinned, UploadsFit;
    e := if IsError(NextDestroy(s, d, f, o).reply) then Rejected else Destroyed(f.header.resourceID);
  }

  lemma StoreEffect(s: State, d: Device, f: Frame, o: World, c: Decision) returns (e: Effect)
    requires StoreReady(s, f.header.resourceID, c) && IsWrite(f, f.header.resourceID, Chunk(c.offset, c.chunk))
    ensures Effective(s, d, f, NextStore(s, f, o, c.offset, c.chunk, c.tight), e)
    ensures !e.Rejected? ==> e.Stored? || e.Delivered?
  {
    hide LittleEndian, Names, ImageError, Fill, L.TightSize, Field, UploadFor;
    var id := f.header.resourceID;
    e := if IsError(NextStore(s, f, o, c.offset, c.chunk, c.tight).reply) then Rejected
         else if c.offset + |c.chunk| < c.tight then Stored(id, Chunk(c.offset, c.chunk), c.tight)
         else Delivered(id, Chunk(c.offset, c.chunk), c.tight);
  }

  lemma SubmitEffect(s: State, d: Device, f: Frame, o: World, named: set<nat>, frameImage: Option<nat>)
      returns (e: Effect)
    requires f.header.messageType == SUBMIT_COMMAND && DecideSubmit(s.resources, d, f, o) == Submit(named, frameImage)
    ensures Effective(s, d, f, NextSubmit(s, f, o, named, frameImage), e)
  {
    forall id: nat ensures id in named <==> Names(f, id)
      ensures Names(f, id) ==> id in s.resources {
      SubmittedNames(s.resources, d, f, o, id);
    }
    hide LittleEndian, Names, DecideSubmit, Fits;
    e := if o.failure.Some? then Rejected else Started(named, frameImage);
  }

  lemma WaitEffect(s: State, d: Device, f: Frame, o: World) returns (e: Effect)
    requires f.header.messageType == WAIT_FENCE
    ensures Effective(s, d, f, NextWait(s, f, o), e)
  {
    hide LittleEndian, Names, Fits;
    var fence := f.header.resourceID;
    e := if fence !in s.tables.commands then Rejected else if o.failure.Some? then LostCommand(fence)
        else Waited(fence);
  }

  lemma WritePayload(s: State, d: Device, f: Frame, o: World)
    requires Decide(s, d, f, o).Store?
    ensures var c := Decide(s, d, f, o); IsWrite(f, f.header.resourceID, Chunk(c.offset, c.chunk))
  {
    StoreFrom(s, d, f, o);
    Stage(s, d, f, o);
    hide Decide, Field, L.TightSize;
  }

  lemma WriteToBuffer(s: State, d: Device, f: Frame, o: World)
    requires Decide(s, d, f, o).Consult? && Decide(s, d, f, o).reply == WRITE_RESOURCE
    ensures IsKind(s.resources, f.header.resourceID, 1)
  {
    Stage(s, d, f, o);
    assert Decide(s, d, f, o) == DecideWrite(s.resources, s.uploads, d, f) by {
      hide HeaderError, DecideWrite;
    }
    hide Decide, Field, L.TightSize;
  }

  /** Every request does one of the eleven. */
  lemma StepEffect(s: State, d: Device, i: Input) returns (e: Effect)
    requires Inv(s, d)
    ensures Effective(s, d, i.f, Step(s, d, i), e)
    ensures !s.negotiated ==> e.Rejected? || e.Negotiated?
    ensures Decide(s, d, i.f, i.o).Store? && !IsError(Step(s, d, i).reply) ==> e.Stored? || e.Delivered?
  {
    var f, o := i.f, i.o;
    var c := Decide(s, d, f, o);
    Stage(s, d, f, o);
    match c {
      case Create(resource, kind) => e := CreateEffect(s, d, f, o, resource);
      case Destroy => e := DestroyEffect(s, d, f, o);
      case Store(_, _, _) =>
        StoreFits(s, d, f, o);
        WritePayload(s, d, f, o);
        e := StoreEffect(s, d, f, o, c);
      case Submit(named, frameImage) => e := SubmitEffect(s, d, f, o, named, frameImage);
      case Wait => e := WaitEffect(s, d, f, o);
      case _ => e := PlainEffect(s, d, f, o);
    }
  }

  lemma PlainEffect(s: State, d: Device, f: Frame, o: World) returns (e: Effect)
    requires Inv(s, d)
    requires var c := Decide(s, d, f, o); c.Refuse? || c.Negotiate? || c.Answer? || c.Consult? || c.ShutDown?
    ensures Effective(s, d, f, Next(s, d, f, o), e)
    ensures Decide(s, d, f, o).Refuse? ==> e.Rejected?
    ensures Decide(s, d, f, o).Negotiate? ==> e.Negotiated?
  {
    var c := Decide(s, d, f, o);
    Stage(s, d, f, o);
    match c {
      case Negotiate => e := NegotiateEffect(s, d, f, o);
      case Answer(kind, payload) =>
        AnsweredEffect(s, d, f, kind, 0, payload);
        e := Answered;
      case Consult(kind, id) =>
        if kind == WRITE_RESOURCE { WriteToBuffer(s, d, f, o); }
        ConsultTarget(s, d, f, o);
        AnsweredEffect(s, d, f, kind, id, o.answer);
        e := if o.failure.Some? then Rejected else Answered;
        if o.failure.Some? { RejectedEffect(s, d, f, o.failure.value, o); }
      case ShutDown =>
        StopEffect(s, d, f);
        e := Stopped;
      case Refuse(code) =>
        RejectedEffect(s, d, f, code, o);
        e := Rejected;
    }
    hide *;
  }

  lemma RejectedEffect(s: State, d: Device, f: Frame, code: ErrorCode, o: World)
    ensures Effective(s, d, f, Outcome(s, Failure(f, code, o), false), Rejected)
  {
    hide LittleEndian;
  }

  lemma AnsweredEffect(s: State, d: Device, f: Frame, kind: nat, id: nat, payload: Bytes)
    requires ReadsOnly(kind) && (kind == WRITE_RESOURCE ==> IsKind(s.resources, f.header.resourceID, 1))
    ensures Effective(s, d, f, Outcome(s, Reply(f, kind, id, payload), false), Answered)
  {
  }

  lemma NegotiateEffect(s: State, d: Device, f: Frame, o: World) returns (e: Effect)
    requires UploadsFit(s) && Decide(s, d, f, o).Negotiate?
    ensures e == Negotiated && Effective(s, d, f, Next(s, d, f, o), e)
  {
    Stage(s, d, f, o);
    hide Decide, LittleEndian;
    e := Negotiated;
  }

  lemma StopEffect(s: State, d: Device, f: Frame)
    requires Inv(s, d)
    ensures Effective(s, d, f, NextShutDown(s, d, f), Stopped)
  {
    hide LittleEndian, Names, Fits, Agree, Counted, Pinned, UploadsFit;
  }

  lemma ConsultTarget(s: State, d: Device, f: Frame, o: World)
    requires Decide(s, d, f, o).Consult?
    ensures ReadsOnly(Decide(s, d, f, o).reply)
  {
    Stage(s, d, f, o);
  }

  // ----- every reply -----

  /** Every reply answers its request: same request ID, the response flag, this protocol version, and a length
      that is the payload's. */
  lemma RepliesEcho(s: State, d: Device, i: Input)
    requires Inv(s, d)
    ensures Echo(i.f, Step(s, d, i).reply)
  {
    var e := StepEffect(s, d, i);
    hide Step, Inv, Names, Fits, Field, Decide;
  }

  /** A request answered with an error changes nothing the session holds: no table, no counter, no upload. The
      one trace an error leaves is in the backend: a failed wait has already taken the fence's command. */
  lemma ErrorChangesNothing(s: State, d: Device, i: Input)
    requires Inv(s, d) && IsError(Step(s, d, i).reply)
    ensures Step(s, d, i).state == s
      || (i.f.header.messageType == WAIT_FENCE && i.f.header.resourceID in s.tables.commands
          && Step(s, d, i).state == s.(tables := s.tables.(commands := s.tables.commands - {i.f.header.resourceID})))
    ensures !Step(s, d, i).stop
  {
    var e := StepEffect(s, d, i);
    hide Step, Inv, Names, Fits, Field, Decide;
  }

  /** Before negotiation nothing but a valid HELLO succeeds, and nothing else changes anything. */
  lemma BeforeHello(s: State, d: Device, i: Input)
    requires Inv(s, d) && !s.negotiated
    ensures var valid := HeaderError(i.f).None? && i.f.header.messageType == HELLO
        && |i.f.payload| == 8 && VersionSupported(i.f.payload);
      && (!IsError(Step(s, d, i).reply) <==> valid)
      && Step(s, d, i).state == s.(negotiated := valid) && !Step(s, d, i).stop
  {
    hide VersionSupported, HeaderError, DecideMessage, Inv;
  }

  /** Negotiation is for good, and a second HELLO is an error. */
  lemma HelloOnce(s: State, d: Device, i: Input)
    requires Inv(s, d) && s.negotiated
    ensures Step(s, d, i).state.negotiated
    ensures i.f.header.messageType == HELLO ==> IsError(Step(s, d, i).reply)
  {
    var e := StepEffect(s, d, i);
    if i.f.header.messageType == HELLO {
      assert Decide(s, d, i.f, i.o).Refuse?;
    } else {
      hide Step, Inv, Names, Fits, Field, Decide;
    }
  }

  predicate Destroyable(s: State, id: nat) {
    id in s.resources && forall fence :: fence in s.fenceResources ==> id !in s.fenceResources[fence]
  }

  /** A resource can be destroyed exactly when it exists and no unfinished command names it; the backend never
      stands in the way. */
  lemma DestroyIff(s: State, d: Device, i: Input)
    requires Inv(s, d) && s.negotiated && HeaderError(i.f).None? && i.f.header.messageType == DESTROY_RESOURCE
    requires i.f.header.versionMajor == MAJOR && i.f.header.versionMinor == MINOR && i.f.payload == []
    ensures !IsError(Step(s, d, i).reply) <==> Destroyable(s, i.f.header.resourceID)
    ensures !IsError(Step(s, d, i).reply) ==> Gone(Step(s, d, i).state, i.f.header.resourceID)
  {
    var c := Decide(s, d, i.f, i.o);
    assert c == DecideDestroy(s.resources, s.fenceResources, i.f);
    hide Decide, DecideMessage, HeaderError, Counted, Pinned, UploadsFit, LittleEndian;
    if c.Destroy? { DestroyDone(s, d, i.f, i.o); }
    hide NextDestroy, Agree, Gone;
  }

  lemma DestroyDone(s: State, d: Device, f: Frame, o: World)
    requires Inv(s, d) && f.header.resourceID in s.resources
    ensures !IsError(NextDestroy(s, d, f, o).reply) && Gone(NextDestroy(s, d, f, o).state, f.header.resourceID)
  {
    hide Counted, Pinned, UploadsFit, LittleEndian;
  }

  /** Held by no table, of the session or of the backend. */
  predicate Gone(s: State, id: nat) {
    && id !in s.resources && id !in s.uploads
    && id !in s.tables.buffers && id !in s.tables.images && id !in s.tables.pipelines && id !in s.tables.structures
  }

  // ----- identifiers -----

  ghost predicate Creates(s: State, d: Device, i: Input, id: nat)
    requires Inv(s, d)
  {
    var reply := Step(s, d, i).reply;
    IsCreate(reply.header.messageType) && reply.header.resourceID == id
  }

  ghost predicate Submits(s: State, d: Device, i: Input, fence: nat)
    requires Inv(s, d)
  {
    var reply := Step(s, d, i).reply;
    reply.header.messageType == SUBMIT_COMMAND && reply.header.resourceID == fence
  }

  /** One step only ever moves the counters forward, and hands out the ID a counter showed. */
  lemma StepCounts(s: State, d: Device, i: Input)
    requires Inv(s, d)
    ensures var t := Step(s, d, i).state;
      s.nextResource <= t.nextResource <= s.nextResource + 1 && s.nextFence <= t.nextFence <= s.nextFence + 1
    ensures forall id: nat :: Creates(s, d, i, id) ==>
      id == s.nextResource && id !in s.resources && id in Step(s, d, i).state.resources
      && Step(s, d, i).state.nextResource == id + 1
    ensures forall fence: nat :: Submits(s, d, i, fence) ==>
      && fence == s.nextFence && fence !in s.fences
      && fence in Step(s, d, i).state.fences && Step(s, d, i).state.nextFence == fence + 1
  {
    var e := StepEffect(s, d, i);
    EffectCounts(s, d, i.f, Step(s, d, i), e);
    hide Step, Decide, Inv, Effective;
  }

  lemma EffectCounts(s: State, d: Device, f: Frame, t: Outcome, e: Effect)
    requires Effective(s, d, f, t, e) && Counted(s)
    ensures s.nextResource <= t.state.nextResource <= s.nextResource + 1
    ensures s.nextFence <= t.state.nextFence <= s.nextFence + 1
    ensures IsCreate(t.reply.header.messageType) ==>
      var id := t.reply.header.resourceID;
      id == s.nextResource && id !in s.resources && id in t.state.resources && t.state.nextResource == id + 1
    ensures t.reply.header.messageType == SUBMIT_COMMAND ==>
      var fence := t.reply.header.resourceID;
      fence == s.nextFence && fence !in s.fences && fence in t.state.fences && t.state.nextFence == fence + 1
  {
    hide Names, Fits, Field, Filled, Echo, Made, Dropped, Submitted, Reset;
  }

  /** No step of the run hands out this resource ID, or this fence ID. */
  ghost predicate NeverCreated(s: State, d: Device, ins: seq<Input>, id: nat)
    requires Inv(s, d)
    decreases |ins|
  {
    ins != [] ==> !Creates(s, d, ins[0], id) && NeverCreated(Step(s, d, ins[0]).state, d, ins[1..], id)
  }

  ghost predicate NeverSubmitted(s: State, d: Device, ins: seq<Input>, fence: nat)
    requires Inv(s, d)
    decreases |ins|
  {
    ins != [] ==> !Submits(s, d, ins[0], fence) && NeverSubmitted(Step(s, d, ins[0]).state, d, ins[1..], fence)
  }

  /** An ID once handed out is never handed out again: not after a destroy, a wait, a failure or a shutdown. */
  lemma {:induction false} IDsNeverReused(s: State, d: Device, ins: seq<Input>, id: nat)
    requires Inv(s, d)
    ensures id < s.nextResource ==> NeverCreated(s, d, ins, id)
    ensures id < s.nextFence ==> NeverSubmitted(s, d, ins, id)
    decreases |ins|
  {
    hide Step, Creates, Submits, Inv;
    if ins != [] {
      StepCounts(s, d, ins[0]);
      IDsNeverReused(Step(s, d, ins[0]).state, d, ins[1..], id);
    }
  }

  // ----- pins -----

  /** The step waits for this fence successfully, or shuts the session down. */
  ghost predicate Releases(s: State, d: Device, i: Input, fence: nat)
    requires Inv(s, d)
  {
    var t := Step(s, d, i);
    t.stop || (t.reply.header.messageType == WAIT_FENCE && i.f.header.resourceID == fence)
  }

  ghost predicate NeverReleased(s: State, d: Device, ins: seq<Input>, fence: nat)
    requires Inv(s, d)
    decreases |ins|
  {
    ins != [] ==> !Releases(s, d, ins[0], fence) && NeverReleased(Step(s, d, ins[0]).state, d, ins[1..], fence)
  }

  /** What an accepted command names is what its fence pins. */
  lemma SubmitPins(s: State, d: Device, i: Input, id: nat)
    requires Inv(s, d) && i.f.header.messageType == SUBMIT_COMMAND && !IsError(Step(s, d, i).reply)
    ensures var t := Step(s, d, i).state; var fence := s.nextFence;
      && fence in t.fences && fence in t.tables.commands
      && (Names(i.f, id) <==> fence in t.fenceResources && id in t.fenceResources[fence])
  {
    var e := StepEffect(s, d, i);
    SubmitKind(s, d, i);
    hide Step, Decide, Agree, UploadsFit, Quiet, Names, Fits, Field, Filled;
    assert s.nextFence !in s.fenceResources;
  }

  lemma SubmitKind(s: State, d: Device, i: Input)
    requires Inv(s, d)
    ensures i.f.header.messageType == SUBMIT_COMMAND ==>
      IsError(Step(s, d, i).reply) || Step(s, d, i).reply.header.messageType == SUBMIT_COMMAND
  {
    var c := Decide(s, d, i.f, i.o);
    if i.f.header.messageType == SUBMIT_COMMAND {
      SubmitOnly(s.resources, d, i.f, i.o);
      assert c.Submit? || c.Refuse? || c.Negotiate? by { hide DecideSubmit, HeaderError; }
    }
    hide Decide, DecideSubmit, Inv, Names, Fits, Field, LittleEndian;
  }

  /** The same pins for a fence. */
  predicate SamePins(s: State, t: State, fence: nat) {
    && fence in t.fences && (fence in s.fenceResources <==> fence in t.fenceResources)
    && (fence in s.fenceResources ==> t.fenceResources[fence] == s.fenceResources[fence])
  }

  lemma StepKeepsPin(s: State, d: Device, i: Input, fence: nat)
    requires Inv(s, d) && fence in s.fences && !Releases(s, d, i, fence)
    ensures SamePins(s, Step(s, d, i).state, fence)
    ensures fence !in s.tables.commands ==> fence !in Step(s, d, i).state.tables.commands
  {
    var e := StepEffect(s, d, i);
    assert fence < s.nextFence;
    KeepsPin(s, d, i.f, Step(s, d, i), e, fence);
    hide *;
  }

  lemma KeepsPin(s: State, d: Device, f: Frame, t: Outcome, e: Effect, fence: nat)
    requires Effective(s, d, f, t, e) && fence in s.fences && fence < s.nextFence
    requires !t.stop && (e.Waited? ==> e.fence != fence)
    ensures SamePins(s, t.state, fence)
    ensures fence !in s.tables.commands ==> fence !in t.state.tables.commands
  {
    hide Names, Fits, Field, Filled, Echo, Reset;
  }

  /** Held by the session and by the backend's table of its kind. */
  predicate Live(s: State, id: nat) {
    id in s.resources && Has(s.tables, s.resources[id].kind, id)
  }

  /** Every resource a command names stays live, in the session and in the backend, until its fence is waited
      for successfully or the session shuts down: whatever else is asked in between, and however often waiting
      fails. */
  lemma {:induction false} PinnedUntilReleased(s: State, d: Device, ins: seq<Input>, fence: nat, id: nat)
    requires Inv(s, d) && fence in s.fenceResources && id in s.fenceResources[fence]
    requires NeverReleased(s, d, ins, fence)
    ensures var t := Run(s, d, ins); fence in t.fenceResources && id in t.fenceResources[fence] && Live(t, id)
    decreases |ins|
  {
    if ins == [] {
      hide Counted, UploadsFit, Quiet;
    } else {
      hide Step, Releases, Agree, Counted, UploadsFit, Quiet, Live;
      StepKeepsPin(s, d, ins[0], fence);
      PinnedUntilReleased(Step(s, d, ins[0]).state, d, ins[1..], fence, id);
    }
  }

  /** A wait that fails on the GPU loses the backend's command, so the fence can never be waited for again: only
      a shutdown lets go of what it pins. */
  lemma FailedWait(s: State, d: Device, i: Input)
    requires Inv(s, d) && i.f.header.messageType == WAIT_FENCE && IsError(Step(s, d, i).reply)
    requires Step(s, d, i).state != s
    ensures i.f.header.resourceID in s.fences
    ensures var t := Step(s, d, i).state;
      i.f.header.resourceID in t.fences && i.f.header.resourceID !in t.tables.commands
  {
    ErrorChangesNothing(s, d, i);
    hide Step, Agree, UploadsFit, Quiet;
  }

  /** No step of the run shuts the session down. */
  ghost predicate NeverStops(s: State, d: Device, ins: seq<Input>)
    requires Inv(s, d)
    decreases |ins|
  {
    ins != [] ==> !Step(s, d, ins[0]).stop && NeverStops(Step(s, d, ins[0]).state, d, ins[1..])
  }

  lemma DeadFenceStep(s: State, d: Device, i: Input, fence: nat)
    requires Inv(s, d) && fence in s.fences && fence !in s.tables.commands && !Step(s, d, i).stop
    ensures !Releases(s, d, i, fence)
  {
    var e := StepEffect(s, d, i);
    hide Step, Decide, Inv, Names, Fits, Field, Filled;
  }

  lemma {:induction false} DeadFenceForever(s: State, d: Device, ins: seq<Input>, fence: nat)
    requires Inv(s, d) && fence in s.fences && fence !in s.tables.commands && NeverStops(s, d, ins)
    ensures NeverReleased(s, d, ins, fence)
    ensures fence in Run(s, d, ins).fences && fence !in Run(s, d, ins).tables.commands
    decreases |ins|
  {
    hide Step, Releases, Inv;
    if ins != [] {
      DeadFenceStep(s, d, ins[0], fence);
      StepKeepsPin(s, d, ins[0], fence);
      DeadFenceForever(Step(s, d, ins[0]).state, d, ins[1..], fence);
    }
  }

  /** So what a failed wait leaves pinned stays live over any run without a shutdown, and cannot be destroyed at
      its end either. */
  lemma FailedWaitPins(s: State, d: Device, i: Input, ins: seq<Input>, id: nat)
    requires Inv(s, d) && i.f.header.messageType == WAIT_FENCE && IsError(Step(s, d, i).reply)
    requires Step(s, d, i).state != s
    requires i.f.header.resourceID in s.fenceResources && id in s.fenceResources[i.f.header.resourceID]
    requires NeverStops(Step(s, d, i).state, d, ins)
    ensures var t := Run(Step(s, d, i).state, d, ins); Live(t, id) && !Destroyable(t, id)
  {
    var fence, after := i.f.header.resourceID, Step(s, d, i).state;
    FailedWait(s, d, i);
    ErrorChangesNothing(s, d, i);
    hide Step, Inv, Live;
    DeadFenceForever(after, d, ins, fence);
    PinnedUntilReleased(after, d, ins, fence, id);
  }

  /** A request of this version, well formed as far as its header goes. */
  predicate Addressed(f: Frame, kind: nat) {
    && HeaderError(f).None? && f.header.messageType == kind
    && f.header.versionMajor == MAJOR && f.header.versionMinor == MINOR
  }

  /** A wait succeeds exactly when the backend still has the fence's command and the GPU completed it. */
  lemma WaitIff(s: State, d: Device, i: Input)
    requires Inv(s, d) && s.negotiated && Addressed(i.f, WAIT_FENCE) && i.f.payload == []
    ensures !IsError(Step(s, d, i).reply) <==> i.f.header.resourceID in s.tables.commands && i.o.failure.None?
  {
    var c := Decide(s, d, i.f, i.o);
    assert c == if i.f.header.resourceID in s.fences && d.present then Wait else Refuse(ResourceNotFound);
    hide Decide, HeaderError, Agree, UploadsFit, Counted, LittleEndian;
  }

  function Request(kind: nat, id: nat, payload: Bytes): Frame {
    Frame(Header(MAGIC, MAJOR, MINOR, kind, 0, |payload|, 1, id), payload)
  }

  /** A world that accepts everything. */
  function Willing(): World {
    World(None, [], true, {}, [])
  }

  /** Some run without a shutdown releases the fence. */
  ghost predicate Releasable(s: State, d: Device, fence: nat)
    requires Inv(s, d)
  {
    exists ins :: NeverStops(s, d, ins) && !NeverReleased(s, d, ins, fence)
  }

  lemma OneWait(s: State, d: Device, fence: nat)
    requires Inv(s, d) && s.negotiated && fence in s.tables.commands
    ensures var ins := [Input(Request(WAIT_FENCE, fence, []), Willing())];
      NeverStops(s, d, ins) && !NeverReleased(s, d, ins, fence)
  {
    var i := Input(Request(WAIT_FENCE, fence, []), Willing());
    var ins := [i];
    assert ins[0] == i && ins[1..] == [];
    WaitIff(s, d, i);
    WaitKind(s, d, i);
    hide Step, Inv, Decide;
    assert NeverStops(Step(s, d, i).state, d, []);
  }

  lemma WaitKind(s: State, d: Device, i: Input)
    requires Inv(s, d) && s.negotiated && i.f.header.messageType == WAIT_FENCE
    ensures !IsError(Step(s, d, i).reply) ==>
      !Step(s, d, i).stop && Step(s, d, i).reply.header.messageType == WAIT_FENCE
  {
    var c := Decide(s, d, i.f, i.o);
    assert c.Wait? || c.Refuse? by { hide HeaderError; }
    hide Decide, Inv, LittleEndian;
  }

  /** A live fence of a negotiated session can be released by some run without a shutdown exactly when the
      backend still has its command: that is, until a wait for it fails on the GPU. */
  lemma ReleasableIff(s: State, d: Device, fence: nat)
    requires Inv(s, d) && s.negotiated && fence in s.fences
    ensures Releasable(s, d, fence) <==> fence in s.tables.commands
  {
    hide Step, Inv, NeverReleased, NeverStops;
    if fence in s.tables.commands {
      OneWait(s, d, fence);
    } else {
      forall ins | NeverStops(s, d, ins) ensures NeverReleased(s, d, ins, fence) {
        DeadFenceForever(s, d, ins, fence);
      }
    }
  }

  // ----- tables -----

  lemma AgreeIsUnion(t: State)
    requires Agree(t)
    ensures var b := t.tables;
      t.resources.Keys == b.buffers + b.images.Keys + b.pipelines + b.structures
      && b.buffers !! b.images.Keys !! b.pipelines !! b.structures
  {
    var b := t.tables;
    forall id: nat ensures id in t.resources <==> id in b.buffers + b.images.Keys + b.pipelines + b.structures {
      assert id in t.resources ==> 1 <= t.resources[id].kind <= 4;
    }
  }

  /** On every run from the initial state the session's table is the disjoint union of the backend's four
      tables, by ID and kind; the backend's commands belong to the session's fences. */
  lemma TablesAgree(d: Device, ins: seq<Input>, s: State)
    requires s == Initial()
    ensures Inv(s, d)
    ensures var t := Run(s, d, ins); var b := t.tables;
      && t.resources.Keys == b.buffers + b.images.Keys + b.pipelines + b.structures
      && b.buffers !! b.images.Keys !! b.pipelines !! b.structures
      && (forall id :: id in t.resources ==> Live(t, id)) && b.commands <= t.fences
  {
    InitialInv(d);
    var t := Run(s, d, ins);
    AgreeIsUnion(t);
    forall id | id in t.resources ensures Live(t, id) {
      AgreeIsLive(t, id);
    }
    assert t.tables.commands <= t.fences by { hide Agree, UploadsFit; }
    hide Run, Inv, Live;
  }

  lemma AgreeIsLive(t: State, id: nat)
    requires Agree(t) && id in t.resources
    ensures Live(t, id)
  {
  }

  // ----- uploads -----

  /** What the step adds to an image's upload: the chunk of an accepted write to it. */
  ghost function AcceptedChunk(s: State, d: Device, i: Input, id: nat): Option<Chunk>
    requires Inv(s, d)
  {
    if Step(s, d, i).reply.header.messageType == WRITE_RESOURCE && i.f.header.resourceID == id
      && i.f.header.messageType == WRITE_RESOURCE && IsKind(s.resources, id, 2) && |i.f.payload| >= 16
    then Some(Chunk(Field(i.f.payload, 0, 8), i.f.payload[16..])) else None
  }

  /** All the chunks accepted for an image over a run, in order. */
  ghost function AcceptedChunks(s: State, d: Device, ins: seq<Input>, id: nat): seq<Chunk>
    requires Inv(s, d)
    decreases |ins|
  {
    if ins == [] then []
    else
      var rest := AcceptedChunks(Step(s, d, ins[0]).state, d, ins[1..], id);
      match AcceptedChunk(s, d, ins[0], id) case None => rest case Some(c) => [c] + rest
  }

  /** The images the backend received under an ID, in order. */
  function Deliveries(received: seq<Received>, id: nat): seq<Bytes> {
    if received == [] then []
    else
      var last := received[|received| - 1];
      Deliveries(received[..|received| - 1], id) + (if last.id == id then [last.data] else [])
  }

  /** Chunks put together: what came since the last write at offset zero, and every image that was completed. */
  datatype Assembly = Assembly(pending: Option<Bytes>, images: seq<Bytes>)

  function Absorb(a: Assembly, c: Chunk, tight: nat): Assembly {
    var bytes := if c.offset == 0 || a.pending.None? then c.data else a.pending.value + c.data;
    if |bytes| == tight then Assembly(None, a.images + [bytes]) else Assembly(Some(bytes), a.images)
  }

  function Assemble(a: Assembly, chunks: seq<Chunk>, tight: nat): Assembly
    decreases |chunks|
  {
    if chunks == [] then a else Assemble(Absorb(a, chunks[0], tight), chunks[1..], tight)
  }

  /** Every chunk starts over or continues exactly where the last one ended, and stays inside the image. */
  predicate Contiguous(a: Assembly, chunks: seq<Chunk>, tight: nat)
    decreases |chunks|
  {
    chunks == [] || (
      var c := chunks[0];
      && (c.offset == 0 || (a.pending.Some? && |a.pending.value| == c.offset))
      && c.offset + |c.data| <= tight
      && Contiguous(Absorb(a, c, tight), chunks[1..], tight))
  }

  lemma FillPending(pending: Bytes, chunk: Bytes, tight: nat)
    requires |pending| + |chunk| <= tight
    ensures Fill(pending + Zeros(tight - |pending|), |pending|, chunk)
         == (pending + chunk) + Zeros(tight - |pending| - |chunk|)
  {
  }

  /** An upload under way: the bytes received, zeros after them. */
  function Partial(bytes: Bytes, tight: nat): Upload
    requires |bytes| <= tight
  {
    Upload(bytes + Zeros(tight - |bytes|), |bytes|)
  }

  /** The state agrees with the chunks put together so far. */
  ghost predicate Matches(s: State, id: nat, tight: nat, a: Assembly) {
    && Deliveries(s.tables.received, id) == a.images
    && (id in s.resources ==>
          && IsKind(s.resources, id, 2) && L.TightSize(s.resources[id].shape) == Some(tight)
          && (id in s.uploads <==> a.pending.Some?)
          && (a.pending.Some? ==> |a.pending.value| < tight && s.uploads[id] == Partial(a.pending.value, tight)))
  }

  /** What an accepted chunk does to the tables. */
  predicate Absorbed(s: State, t: State, id: nat, c: Chunk, tight: nat)
    requires Fits(s, id, c, tight)
  {
    var data, end := Filled(s, id, c, tight), c.offset + |c.data|;
    && t.resources == s.resources
    && (if end < tight then t.tables.received == s.tables.received && t.uploads == s.uploads[id := Upload(data, end)]
        else t.tables.received == s.tables.received + [Received(id, data)] && t.uploads == s.uploads - {id})
  }

  lemma AcceptedIsStored(s: State, d: Device, i: Input, id: nat, c: Chunk) returns (tight: nat)
    requires Inv(s, d) && AcceptedChunk(s, d, i, id) == Some(c)
    ensures Fits(s, id, c, tight) && Absorbed(s, Step(s, d, i).state, id, c, tight)
  {
    var e := StepEffect(s, d, i);
    StoredIs(s, d, i.f, Step(s, d, i), e, id, c);
    hide *;
    tight := e.tight;
  }

  lemma StoredIs(s: State, d: Device, f: Frame, t: Outcome, e: Effect, id: nat, c: Chunk)
    requires Effective(s, d, f, t, e) && t.reply.header.messageType == WRITE_RESOURCE
    requires IsKind(s.resources, id, 2) && IsWrite(f, id, c)
    ensures e.Stored? || e.Delivered?
    ensures Fits(s, id, c, e.tight) && Absorbed(s, t.state, id, c, e.tight)
  {
    hide Names, Field, Filled, Fits, Echo, Made, Dropped, Submitted, Reset, Agree;
  }

  lemma NotAcceptedEffect(s: State, d: Device, i: Input, id: nat) returns (e: Effect)
    requires Inv(s, d) && AcceptedChunk(s, d, i, id).None?
    ensures Effective(s, d, i.f, Step(s, d, i), e)
    ensures e.Stored? || e.Delivered? ==> e.id != id
  {
    e := StepEffect(s, d, i);
    hide Step, Decide, Inv, Names, Field, Filled;
  }

  predicate SameUpload(s: State, t: State, id: nat) {
    (id in t.uploads <==> id in s.uploads) && (id in s.uploads ==> t.uploads[id] == s.uploads[id])
  }

  /** A step with no accepted chunk for an image changes neither its upload nor its deliveries while it lives,
      and never brings it back. */
  lemma OtherStep(s: State, d: Device, i: Input, id: nat)
    requires Inv(s, d) && AcceptedChunk(s, d, i, id).None? && id < s.nextResource
    ensures Deliveries(Step(s, d, i).state.tables.received, id) == Deliveries(s.tables.received, id)
    ensures id in Step(s, d, i).state.resources ==>
      id in s.resources && Step(s, d, i).state.resources[id] == s.resources[id]
    ensures id in Step(s, d, i).state.resources || id !in s.resources ==> SameUpload(s, Step(s, d, i).state, id)
  {
    var e := NotAcceptedEffect(s, d, i, id);
    OtherDeliveries(s, d, i.f, Step(s, d, i), e, id);
    OtherTables(s, d, i.f, Step(s, d, i), e, id);
    hide *;
  }

  lemma OtherTables(s: State, d: Device, f: Frame, t: Outcome, e: Effect, id: nat)
    requires Effective(s, d, f, t, e) && (e.Stored? || e.Delivered? ==> e.id != id) && id < s.nextResource
    ensures id in t.state.resources ==> id in s.resources && t.state.resources[id] == s.resources[id]
    ensures id in t.state.resources || id !in s.resources ==> SameUpload(s, t.state, id)
  {
    hide Names, Fits, Field, Filled, Echo, Made, Dropped, Submitted, Reset;
  }

  lemma OtherDeliveries(s: State, d: Device, f: Frame, t: Outcome, e: Effect, id: nat)
    requires Effective(s, d, f, t, e) && (e.Delivered? ==> e.id != id)
    ensures Deliveries(t.state.tables.received, id) == Deliveries(s.tables.received, id)
  {
    hide Names, Fits, Field, Filled, Deliveries, Echo;
    if e.Delivered? {
      OtherDelivery(s.tables.received, t.state.tables.received[|s.tables.received|], id);
    }
  }

  lemma OtherDelivery(received: seq<Received>, r: Received, id: nat)
    requires r.id != id
    ensures Deliveries(received + [r], id) == Deliveries(received, id)
  {
    assert (received + [r])[..|received|] == received;
  }

  lemma ChunkStep(s: State, d: Device, i: Input, id: nat, tight: nat, a: Assembly, c: Chunk)
    requires Inv(s, d) && Matches(s, id, tight, a) && AcceptedChunk(s, d, i, id) == Some(c)
    ensures Matches(Step(s, d, i).state, id, tight, Absorb(a, c, tight))
    ensures (c.offset == 0 || (a.pending.Some? && |a.pending.value| == c.offset)) && c.offset + |c.data| <= tight
  {
    var same := AcceptedIsStored(s, d, i, id, c);
    hide Inv, Step, Decide, L.TightSize, Fill, AcceptedChunk, Deliveries, Absorbed, UploadFor;
    assert same == tight;
    var pending := if c.offset == 0 then [] else a.pending.value;
    FilledIs(s, id, tight, a, c, pending);
    StoreMatches(s, Step(s, d, i).state, id, tight, a, c, pending);
  }

  lemma FilledIs(s: State, id: nat, tight: nat, a: Assembly, c: Chunk, pending: Bytes)
    requires Matches(s, id, tight, a) && Fits(s, id, c, tight)
    requires if c.offset == 0 then pending == [] else a.pending == Some(pending)
    ensures |pending| == c.offset && Filled(s, id, c, tight) == (pending + c.data) + Zeros(tight - |pending| - |c.data|)
  {
    FillPending(pending, c.data, tight);
    assert [] + Zeros(tight) == Zeros(tight);
    hide Fill, L.TightSize, Deliveries, Zeros;
  }

  lemma StoreMatches(s: State, t: State, id: nat, tight: nat, a: Assembly, c: Chunk, pending: Bytes)
    requires Matches(s, id, tight, a) && Fits(s, id, c, tight) && Absorbed(s, t, id, c, tight)
    requires if c.offset == 0 then pending == [] else a.pending == Some(pending)
    requires Filled(s, id, c, tight) == (pending + c.data) + Zeros(tight - |pending| - |c.data|)
    requires |pending| == c.offset
    ensures Matches(t, id, tight, Absorb(a, c, tight))
  {
    var bytes := pending + c.data;
    AbsorbIs(a, c, tight, pending);
    hide L.TightSize, Filled, Deliveries, Zeros, Absorb, Matches, UploadFor;
    if |bytes| == tight {
      assert bytes + Zeros(0) == bytes by { NoZeros(bytes); }
      CompletedMatches(s, t, id, tight, a, bytes);
    } else {
      PartialMatches(s, t, id, tight, a, bytes);
    }
  }

  lemma NoZeros(bytes: Bytes)
    ensures bytes + Zeros(0) == bytes
  {
  }

  lemma AbsorbIs(a: Assembly, c: Chunk, tight: nat, pending: Bytes)
    requires if c.offset == 0 then pending == [] else a.pending == Some(pending)
    ensures var bytes := pending + c.data;
      Absorb(a, c, tight) == if |bytes| == tight then Assembly(None, a.images + [bytes])
          else Assembly(Some(bytes), a.images)
  {
    assert [] + c.data == c.data;
  }

  lemma CompletedMatches(s: State, t: State, id: nat, tight: nat, a: Assembly, bytes: Bytes)
    requires Matches(s, id, tight, a) && t.resources == s.resources && t.uploads == s.uploads - {id}
    requires t.tables.received == s.tables.received + [Received(id, bytes)]
    ensures Matches(t, id, tight, Assembly(None, a.images + [bytes]))
  {
    OneMoreDelivery(s.tables.received, id, bytes);
    hide L.TightSize, Deliveries, Zeros;
  }

  lemma PartialMatches(s: State, t: State, id: nat, tight: nat, a: Assembly, bytes: Bytes)
    requires Matches(s, id, tight, a) && t.resources == s.resources && t.tables.received == s.tables.received
    requires |bytes| < tight && t.uploads == s.uploads[id := Upload(bytes + Zeros(tight - |bytes|), |bytes|)]
    ensures Matches(t, id, tight, Assembly(Some(bytes), a.images))
  {
    hide L.TightSize, Deliveries, Zeros;
  }

  lemma OneMoreDelivery(received: seq<Received>, id: nat, data: Bytes)
    ensures Deliveries(received + [Received(id, data)], id) == Deliveries(received, id) + [data]
  {
    assert (received + [Received(id, data)])[..|received|] == received;
  }

  /** Chunked upload: over any run from a state that agrees with an assembly (a fresh image with the empty one),
      the backend receives exactly the images the accepted chunks put together, in order, each when its last
      byte arrives; the chunks are contiguous; and while the image lives its upload holds exactly the bytes
      received since the last write at offset zero. */
  lemma {:induction false} ChunkedUpload(s: State, d: Device, ins: seq<Input>, id: nat, tight: nat, a: Assembly)
    requires Inv(s, d) && id < s.nextResource && Matches(s, id, tight, a)
    ensures Matches(Run(s, d, ins), id, tight, Assemble(a, AcceptedChunks(s, d, ins, id), tight))
    ensures Contiguous(a, AcceptedChunks(s, d, ins, id), tight)
    decreases |ins|
  {
    if ins != [] {
      var t := Step(s, d, ins[0]).state;
      StepCounts(s, d, ins[0]);
      var c := AcceptedChunk(s, d, ins[0], id);
      hide Step, Matches, AcceptedChunk, Inv, Absorb;
      if c.None? {
        MatchesKept(s, d, ins[0], id, tight, a);
        ChunkedUpload(t, d, ins[1..], id, tight, a);
      } else {
        ChunkStep(s, d, ins[0], id, tight, a, c.value);
        var rest := AcceptedChunks(t, d, ins[1..], id);
        assert ([c.value] + rest)[1..] == rest;
        ChunkedUpload(t, d, ins[1..], id, tight, Absorb(a, c.value, tight));
      }
    }
  }

  lemma MatchesKept(s: State, d: Device, i: Input, id: nat, tight: nat, a: Assembly)
    requires Inv(s, d) && id < s.nextResource && Matches(s, id, tight, a) && AcceptedChunk(s, d, i, id).None?
    ensures Matches(Step(s, d, i).state, id, tight, a)
  {
    OtherStep(s, d, i, id);
    hide Inv, Step, AcceptedChunk, L.TightSize, Deliveries;
  }

  lemma {:induction false} NoDeliveries(received: seq<Received>, id: nat)
    requires forall k :: 0 <= k < |received| ==> received[k].id != id
    ensures Deliveries(received, id) == []
  {
    if received != [] { NoDeliveries(received[..|received| - 1], id); }
  }

  /** A freshly created image starts with nothing: no upload under way, nothing delivered. */
  lemma FreshImage(s: State, d: Device, i: Input, tight: nat)
    requires Inv(s, d) && Creates(s, d, i, s.nextResource) && IsKind(Step(s, d, i).state.resources, s.nextResource, 2)
    requires L.TightSize(Step(s, d, i).state.resources[s.nextResource].shape) == Some(tight)
    ensures Matches(Step(s, d, i).state, s.nextResource, tight, Assembly(None, []))
  {
    var e := StepEffect(s, d, i);
    NoDeliveries(s.tables.received, s.nextResource);
    hide Step, Decide, Agree, Pinned, UploadsFit, Quiet, Names, Fits, Field, Filled, Deliveries, L.TightSize;
  }

  /** The last chunk of an image is accepted exactly when the GPU takes it and the format is not 11: the size
      the session counted is always the size the backend asks for. */
  lemma LastChunkIff(s: State, d: Device, i: Input)
    requires Inv(s, d) && Decide(s, d, i.f, i.o).Store?
    requires var c := Decide(s, d, i.f, i.o); c.offset + |c.chunk| == c.tight
    ensures i.f.header.resourceID in s.resources
    ensures !IsError(Step(s, d, i).reply)
         <==> i.o.failure.None? && s.resources[i.f.header.resourceID].shape.format != 11
  {
    var c := Decide(s, d, i.f, i.o);
    StoreFits(s, d, i.f, i.o);
    L.SizesAgree(s.resources[i.f.header.resourceID].shape);
    hide Decide, Fill, L.TightSize, L.BackendBlock, L.Total, Pinned, UploadsFit, Quiet, Counted, LittleEndian;
  }

  /** A failed final write can be retried with the same chunk: the failure lost nothing, and once the GPU takes
      it the chunk is accepted. */
  lemma RetryLastChunk(s: State, d: Device, i: Input, again: World)
    requires Inv(s, d) && Decide(s, d, i.f, i.o).Store? && IsError(Step(s, d, i).reply) && again.failure.None?
    requires IsKind(s.resources, i.f.header.resourceID, 2) && s.resources[i.f.header.resourceID].shape.format != 11
    ensures Step(s, d, i).state == s
    ensures var c := Decide(s, d, i.f, i.o);
      AcceptedChunk(s, d, Input(i.f, again), i.f.header.resourceID) == Some(Chunk(c.offset, c.chunk))
  {
    hide Step, Inv, Field, L.TightSize;
    var c := Decide(s, d, i.f, i.o);
    Stage(s, d, i.f, i.o);
    ErrorChangesNothing(s, d, i);
    WritePayload(s, d, i.f, i.o);
    assert Decide(s, d, i.f, again) == c by { StoreFrom(s, d, i.f, i.o); hide HeaderError, DecideWrite; }
    RetrySucceeds(s, d, Input(i.f, again));
    hide Decide;
  }

  lemma RetrySucceeds(s: State, d: Device, i: Input)
    requires Inv(s, d) && Decide(s, d, i.f, i.o).Store? && i.o.failure.None?
    requires IsKind(s.resources, i.f.header.resourceID, 2) && s.resources[i.f.header.resourceID].shape.format != 11
    ensures Step(s, d, i).reply.header.messageType == WRITE_RESOURCE
  {
    StoreFits(s, d, i.f, i.o);
    L.SizesAgree(s.resources[i.f.header.resourceID].shape);
    hide Decide, Fill, L.TightSize, L.BackendBlock, L.Total, Pinned, UploadsFit, Quiet, Counted, LittleEndian;
  }

  /** After a shutdown every upload is an orphan. */
  lemma ShutdownOrphans(s: State, d: Device, i: Input)
    requires Inv(s, d) && Step(s, d, i).stop
    ensures Step(s, d, i).state.resources.Keys == {} && Step(s, d, i).state.uploads == s.uploads
  {
    var e := StepEffect(s, d, i);
    hide Step, Decide, Inv, Names, Fits, Field, Filled;
  }

  lemma UploadCounted(s: State, d: Device, id: nat)
    requires Inv(s, d) && id in s.uploads
    ensures id < s.nextResource
  {
  }

  /** An upload whose image is gone can never be continued: no write to it is ever accepted, its bytes stay as
      they are, and the backend receives nothing more under its ID. */
  lemma {:induction false} OrphanUpload(s: State, d: Device, ins: seq<Input>, id: nat)
    requires Inv(s, d) && id in s.uploads && id !in s.resources
    ensures var t := Run(s, d, ins);
      && id !in t.resources && id in t.uploads && t.uploads[id] == s.uploads[id]
      && AcceptedChunks(s, d, ins, id) == [] && Deliveries(t.tables.received, id) == Deliveries(s.tables.received, id)
    decreases |ins|
  {
    hide Step, Inv, Deliveries;
    if ins != [] {
      UploadCounted(s, d, id);
      OtherStep(s, d, ins[0], id);
      OrphanUpload(Step(s, d, ins[0]).state, d, ins[1..], id);
    }
  }
}

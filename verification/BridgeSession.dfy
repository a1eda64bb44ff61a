/** The handler that owns the session's tables and drives the backend: objects updated in place, each method
    proved against the whole-state function. */
module BridgeSession {
  import opened ByteStrings
  import opened Wire
  import opened SessionProtocol
  import opened SessionState
  import L = ImageLayout

  // ----- the objects -----

  /** The GPU backend: tables keyed by ID. The `failure` of a method is what the GPU itself makes of it. */
  class Backend {
    var buffers: set<nat>
    var images: map<nat, L.Image>
    var computePipelines: set<nat>
    var accelerationStructures: set<nat>
    var commandBuffers: set<nat>
    var frameImages: map<nat, nat>
    var received: seq<Received>

    constructor ()
      ensures View() == NoTables()
    {
      buffers, images, computePipelines, accelerationStructures := {}, map[], {}, {};
      commandBuffers, frameImages, received := {}, map[], [];
    }

    function View(): Tables
      reads this
    {
      Tables(buffers, images, computePipelines, accelerationStructures, commandBuffers, frameImages, received)
    }

    method CreateResource(id: nat, r: Resource, failure: Option<ErrorCode>) returns (error: Option<ErrorCode>)
      requires 1 <= r.kind <= 4
      modifies this
      ensures error == First(TakenError(old(View()), r.kind, id), failure)
      ensures View() == if error.Some? then old(View()) else Made(old(View()), id, r)
    {
      if id in buffers || id in images { return Some(if r.kind == 2 then OutOfBounds else UnsupportedCommand); }
      if r.kind == 3 && id in computePipelines { return Some(UnsupportedCommand); }
      if r.kind == 4 && (id in computePipelines || id in accelerationStructures) { return Some(UnsupportedCommand); }
      if failure.Some? { return failure; }
      match r.kind {
        case 1 => buffers := buffers + {id};
        case 2 => images := images[id := r.shape];
        case 3 => computePipelines := computePipelines + {id};
        case _ => accelerationStructures := accelerationStructures + {id};
      }
      error := None;
    }

    method DestroyResource(id: nat, kind: nat) returns (error: Option<ErrorCode>)
      modifies this
      ensures error == if Has(old(View()), kind, id) then None else Some(ResourceNotFound)
      ensures View() == if error.Some? then old(View()) else Dropped(old(View()), kind, id)
    {
      if kind == 1 {
        if id !in buffers { return Some(ResourceNotFound); }
        buffers := buffers - {id};
      } else if kind == 2 {
        if id !in images { return Some(ResourceNotFound); }
        images := images - {id};
      } else if kind == 3 {
        if id !in computePipelines { return Some(ResourceNotFound); }
        computePipelines := computePipelines - {id};
      } else {
        if id !in accelerationStructures { return Some(ResourceNotFound); }
        accelerationStructures := accelerationStructures - {id};
      }
      error := None;
    }

    method WriteImage(id: nat, data: Bytes, failure: Option<ErrorCode>) returns (error: Option<ErrorCode>)
      modifies this
      ensures error == First(ImageError(old(View()), id, data), failure)
      ensures View() == if error.Some? then old(View())
          else old(View()).(received := old(received) + [Received(id, data)])
    {
      if id !in images { return Some(ResourceNotFound); }
      var block := L.BackendBlock(images[id].format);
      if block.None? { return Some(UnsupportedCommand); }
      if |data| != L.Total(block.value, images[id]) { return Some(OutOfBounds); }
      if failure.Some? { return failure; }
      received := received + [Received(id, data)];
      error := None;
    }

    method SubmitCommand(fence: nat, frameImage: Option<nat>, failure: Option<ErrorCode>)
        returns (error: Option<ErrorCode>)
      modifies this
      ensures error == failure
      ensures View() == if error.Some? then old(View()) else Submitted(old(View()), fence, frameImage)
    {
      if failure.Some? { return failure; }
      commandBuffers := commandBuffers + {fence};
      if frameImage.Some? { frameImages := frameImages[fence := frameImage.value]; }
      error := None;
    }

    method WaitFence(id: nat, failure: Option<ErrorCode>) returns (error: Option<ErrorCode>)
      modifies this
      ensures error == if id in old(commandBuffers) then failure else Some(ResourceNotFound)
      ensures commandBuffers == old(commandBuffers) - {id}
      ensures frameImages == if error.Some? then old(frameImages) else old(frameImages) - {id}
      ensures View() == old(View()).(commands := commandBuffers, frameImages := frameImages)
    {
      if id !in commandBuffers { return Some(ResourceNotFound); }
      commandBuffers := commandBuffers - {id};
      if failure.Some? { return failure; }
      frameImages := frameImages - {id};
      error := None;
    }

    method Clear()
      modifies this
      ensures View() == Reset(old(View()))
    {
      commandBuffers, frameImages, buffers, images := {}, map[], {}, map[];
      computePipelines, accelerationStructures := {}, {};
    }
  }

  class Session {
    const device: Device
    const backend: Backend?
    var negotiated: bool
    var resources: Resources
    var imageUploads: map<nat, Upload>
    var fences: set<nat>
    var fenceResources: map<nat, set<nat>>
    var nextResourceID: nat
    var nextFenceID: nat

    ghost predicate Valid()
      reads this, backend
    {
      (device.present <==> backend != null) && Inv(View(), device)
    }

    function View(): State
      reads this, backend
    {
      State(negotiated, resources, imageUploads, fences, fenceResources, nextResourceID, nextFenceID,
            if backend == null then NoTables() else backend.View())
    }

    constructor (device: Device)
      ensures Valid() && (backend != null ==> fresh(backend)) && View() == Initial() && this.device == device
    {
      this.device := device;
      var b: Backend? := null;
      if device.present { b := new Backend(); }
      backend := b;
      negotiated, resources, imageUploads, fences, fenceResources := false, map[], map[], {}, map[];
      nextResourceID, nextFenceID := 1, 1;
    }

    method CreateResource(f: Frame, o: World, resource: Resource, kind: nat) returns (reply: Frame)
      requires Valid() && backend != null && 1 <= resource.kind <= 4
      modifies this, backend
      ensures Outcome(View(), reply, false) == NextCreate(old(View()), f, o, resource, kind)
    {
      var id := nextResourceID;
      var error := backend.CreateResource(id, resource, o.failure);
      if error.Some? { return Failure(f, error.value, o); }
      resources := resources[id := resource];
      nextResourceID := nextResourceID + 1;
      reply := Reply(f, kind, id, if kind == CREATE_COMPUTE_PIPELINE then o.answer else []);
    }

    method DestroyResource(f: Frame, o: World) returns (reply: Frame)
      requires Valid() && f.header.resourceID in resources
      modifies this, backend
      ensures Outcome(View(), reply, false) == NextDestroy(old(View()), device, f, o)
    {
      var id := f.header.resourceID;
      if backend != null {
        var error := backend.DestroyResource(id, resources[id].kind);
        if error.Some? { return Failure(f, error.value, o); }
      }
      imageUploads := imageUploads - {id};
      resources := resources - {id};
      reply := Reply(f, DESTROY_RESOURCE, id, []);
    }

    method StoreChunk(f: Frame, o: World, offset: nat, chunk: Bytes, tight: nat) returns (reply: Frame)
      requires Valid() && backend != null && offset + |chunk| <= tight
      requires |UploadFor(View(), f.header.resourceID, offset, tight).data| == tight
      requires offset != 0 ==> f.header.resourceID in imageUploads
      modifies this, backend
      ensures Outcome(View(), reply, false) == NextStore(old(View()), f, o, offset, chunk, tight)
    {
      hide ImageError;
      var id := f.header.resourceID;
      var upload;
      if offset == 0 {
        upload := Upload(Zeros(tight), 0);
      } else {
        upload := imageUploads[id];
      }
      var end := offset + |chunk|;
      upload := Upload(Fill(upload.data, offset, chunk), end);
      if end == tight {
        var error := backend.WriteImage(id, upload.data, o.failure);
        if error.Some? { return Failure(f, error.value, o); }
        imageUploads := imageUploads - {id};
      } else {
        imageUploads := imageUploads[id := upload];
      }
      reply := Reply(f, WRITE_RESOURCE, id, []);
    }

    /** handleSubmit after the command word: the loops decide what is refused and collect what is pinned. */
    method DecideCommand(f: Frame, o: World) returns (c: Decision)
      ensures c == DecideSubmit(resources, device, f, o)
    {
      var p, id := f.payload, f.header.resourceID;
      if |p| < 8 || Field(p, 2, 2) != 0 || Field(p, 4, 4) != 0 { return Refuse(InvalidPayload); }
      if !device.present { return Refuse(BackendUnavailable); }
      var command := Field(p, 0, 2);
      hide Field, Bit;
      if command == 0 {
        return if |p| == 8 && id == 0 then Submit({}, None) else Refuse(InvalidPayload);
      } else if command == 1 {
        return if |p| == 16 && IsKind(resources, id, 1) then Submit({id}, None) else Refuse(InvalidPayload);
      } else if command == 2 {
        return if |p| == 16 && IsKind(resources, id, 2) && Field(p, 12, 4) == 0 then Submit({id}, None)
            else Refuse(InvalidPayload);
      } else if command == 3 {
        if !DrawHeaderValid(resources, f) { return Refuse(InvalidPayload); }
        var valid, textures := CollectDraws(resources, p, Field(p, 52, 4));
        if !valid { return Refuse(InvalidPayload); }
        return Submit({id, Field(p, 8, 8), Field(p, 16, 8)} + textures, Some(id));
      } else if command == 4 {
        if !RayHeaderValid(resources, device, f) || !o.valuesValid { return Refuse(InvalidPayload); }
        var valid, lights := CollectLights(resources, p, LightCount(p));
        if !valid { return Refuse(InvalidPayload); }
        return Submit(if Bit(Field(p, 32, 4), 16) then {id} else {id, Field(p, 8, 8)} + lights, Some(id));
      } else if command == 5 {
        if !DispatchHeaderValid(resources, f) { return Refuse(InvalidPayload); }
        var error, named := CollectBindings(resources, p, Field(p, 20, 4), o);
        if error.Some? { return Refuse(error.value); }
        return Submit(named + {id}, None);
      }
      c := Refuse(UnsupportedCommand);
    }

    method SubmitCommand(f: Frame, o: World, named: set<nat>, frameImage: Option<nat>) returns (reply: Frame)
      requires Valid() && backend != null
      modifies this, backend
      ensures Outcome(View(), reply, false) == NextSubmit(old(View()), f, o, named, frameImage)
    {
      var fenceID := nextFenceID;
      var error := backend.SubmitCommand(fenceID, frameImage, o.failure);
      if error.Some? { return Failure(f, error.value, o); }
      fences := fences + {fenceID};
      if named != {} {
        fenceResources := fenceResources[fenceID := named];
      }
      nextFenceID := nextFenceID + 1;
      reply := Reply(f, SUBMIT_COMMAND, fenceID, []);
    }

    method WaitFence(f: Frame, o: World) returns (reply: Frame)
      requires Valid() && backend != null
      modifies this, backend
      ensures Outcome(View(), reply, false) == NextWait(old(View()), f, o)
    {
      var fence := f.header.resourceID;
      var error := backend.WaitFence(fence, o.failure);
      if error.Some? { return Failure(f, error.value, o); }
      fences := fences - {fence};
      fenceResources := fenceResources - {fence};
      reply := Reply(f, WAIT_FENCE, fence, LittleEndian(1, 4) + LittleEndian(0, 4));
    }

    method ShutDown(f: Frame) returns (reply: Frame)
      requires Valid()
      modifies this, backend
      ensures Outcome(View(), reply, true) == NextShutDown(old(View()), device, f)
    {
      resources, fences, fenceResources := map[], {}, map[];
      if backend != null {
        backend.Clear();
      }
      reply := Reply(f, SHUTDOWN, 0, []);
    }

    method Perform(c: Decision, f: Frame, o: World) returns (reply: Frame, stop: bool)
      requires Valid() && c == Decide(View(), device, f, o)
      modifies this, backend
      ensures Outcome(View(), reply, stop) == Next(old(View()), device, f, o)
    {
      Stage(View(), device, f, o);
      if c.Store? { StoreFits(View(), device, f, o); }
      hide Decide, Inv, NextCreate, NextDestroy, NextStore, NextSubmit, NextWait, NextShutDown;
      stop := false;
      match c {
        case Refuse(code) => reply := Failure(f, code, o);
        case Negotiate =>
          negotiated := true;
          reply := Reply(f, HELLO_REPLY, 0, LittleEndian(MAJOR, 2) + LittleEndian(MINOR, 2) + LittleEndian(0, 4));
        case Answer(kind, payload) => reply := Reply(f, kind, 0, payload);
        case Consult(kind, id) =>
          if o.failure.Some? { return Failure(f, o.failure.value, o), false; }
          reply := Reply(f, kind, id, o.answer);
        case Create(resource, kind) => reply := CreateResource(f, o, resource, kind);
        case Destroy => reply := DestroyResource(f, o);
        case Store(offset, chunk, tight) => reply := StoreChunk(f, o, offset, chunk, tight);
        case Submit(named, frameImage) => reply := SubmitCommand(f, o, named, frameImage);
        case Wait => reply := WaitFence(f, o);
        case ShutDown =>
          reply := ShutDown(f);
          stop := true;
      }
    }

    /** One request: the header's checks, the negotiation, the version, then the message. */
    method Handle(f: Frame, o: World) returns (reply: Frame, stop: bool)
      requires Valid()
      modifies this, backend
      ensures Valid()
      ensures Outcome(View(), reply, stop) == Next(old(View()), device, f, o)
    {
      NextInv(View(), device, f, o);
      hide Inv, DecideMessage, HeaderError, Next;
      var c;
      var error := HeaderError(f);
      if error.Some? {
        c := Refuse(error.value);
      } else if !negotiated {
        c := if f.header.messageType != HELLO then Refuse(HandshakeRequired) else DecideHello(f.payload);
      } else if f.header.versionMajor != MAJOR || f.header.versionMinor != MINOR {
        c := Refuse(UnsupportedVersion);
      } else if f.header.messageType == SUBMIT_COMMAND {
        c := DecideCommand(f, o);
        CommandMessage(View(), device, f, o);
      } else {
        c := DecideMessage(View(), device, f, o);
      }
      reply, stop := Perform(c, f, o);
    }
  }

  lemma CommandMessage(s: State, d: Device, f: Frame, o: World)
    requires f.header.messageType == SUBMIT_COMMAND
    ensures DecideMessage(s, d, f, o) == DecideSubmit(s.resources, d, f, o)
  {
  }
}

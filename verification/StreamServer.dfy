/** The frame loop over a byte stream: readExactly collects a count of bytes however the stream hands them
    out, and serve turns the stream into frames for one session. */
module StreamServer {
  import opened ByteStrings
  import opened Wire

  /** What a read can see: the bytes not yet delivered, the end of which is the end of the stream. */
  class InputHandle {
    var remaining: Bytes

    constructor (bytes: Bytes)
      ensures remaining == bytes
    {
      remaining := bytes;
    }

    /** Some non-empty amount up to the limit, whatever the transport happens to have; nothing at the end. */
    method Read(upTo: nat) returns (chunk: Bytes)
      requires upTo > 0
      modifies this
      ensures old(remaining) == chunk + remaining
      ensures |chunk| <= upTo && (chunk == [] <==> old(remaining) == [])
    {
      if remaining == [] {
        return [];
      }
      var n: nat :| 1 <= n <= upTo && n <= |remaining|;
      chunk := remaining[..n];
      remaining := remaining[n..];
    }
  }

  /** A session as the loop sees it: the answer to the latest of the frames handled so far, and whether to
      stop. */
  type Policy = seq<Frame> -> Answer

  datatype Answer = Answer(response: Frame, shutdown: bool)

  class Responder {
    const policy: Policy
    var handled: seq<Frame>

    constructor (policy: Policy)
      ensures this.policy == policy && handled == []
    {
      this.policy := policy;
      handled := [];
    }

    method Handle(f: Frame) returns (a: Answer)
      modifies this
      ensures handled == old(handled) + [f] && a == policy(handled)
    {
      handled := handled + [f];
      a := policy(handled);
    }
  }

  datatype Exact = Exactly(data: Bytes) | CleanEOF | UnexpectedEOF

  method ReadExactly(handle: InputHandle, count: nat, allowCleanEOF: bool) returns (r: Exact)
    modifies handle
    ensures count <= |old(handle.remaining)| ==>
      r == Exactly(old(handle.remaining)[..count]) && handle.remaining == old(handle.remaining)[count..]
    ensures count > |old(handle.remaining)| ==>
      r == if allowCleanEOF && old(handle.remaining) == [] then CleanEOF else UnexpectedEOF
  {
    var data: Bytes := [];
    while |data| < count
      invariant |data| <= count
      invariant old(handle.remaining) == data + handle.remaining
      decreases count - |data|
    {
      var chunk := handle.Read(count - |data|);
      if chunk == [] {
        if allowCleanEOF && data == [] {
          return CleanEOF;
        }
        return UnexpectedEOF;
      }
      data := data + chunk;
    }
    r := Exactly(data);
  }

  datatype Ending = CleanEnd | ShutDown | Truncated | Oversized

  datatype Outcome = Outcome(handled: seq<Frame>, output: Bytes, ending: Ending)

  /** What a stream means to a session that has already handled some frames. */
  function Meaning(policy: Policy, handled: seq<Frame>, output: Bytes, b: Bytes): Outcome
    decreases |b|
  {
    if b == [] then Outcome(handled, output, CleanEnd)
    else if |b| < 32 then Outcome(handled, output, Truncated)
    else
      var h := HeaderOf(b[..32]);
      if h.payloadLength > MAX_PAYLOAD then Outcome(handled, output, Oversized)
      else if |b| < 32 + h.payloadLength then Outcome(handled, output, Truncated)
      else
        var handled' := handled + [Frame(h, b[32..32 + h.payloadLength])];
        var a := policy(handled');
        var output' := output + FrameBytes(a.response);
        if a.shutdown then Outcome(handled', output', ShutDown)
        else Meaning(policy, handled', output', b[32 + h.payloadLength..])
  }

  /** The loop computes the stream's meaning under every way of chunking the reads. */
  method Serve(input: InputHandle, session: Responder) returns (output: Bytes, ending: Ending)
    modifies input, session
    ensures Outcome(session.handled, output, ending)
         == Meaning(session.policy, old(session.handled), [], old(input.remaining))
  {
    output := [];
    while true
      invariant Meaning(session.policy, session.handled, output, input.remaining)
             == Meaning(session.policy, old(session.handled), [], old(input.remaining))
      decreases |input.remaining|
    {
      ghost var b := input.remaining;
      var headerData := ReadExactly(input, 32, true);
      if headerData.CleanEOF? {
        return output, CleanEnd;
      } else if headerData.UnexpectedEOF? {
        return output, Truncated;
      }
      var header := DecodeHeader(headerData.data);
      if header.value.payloadLength > MAX_PAYLOAD {
        return output, Oversized;
      }
      var payload := ReadExactly(input, header.value.payloadLength, false);
      if payload.UnexpectedEOF? {
        return output, Truncated;
      }
      assert b[32..][..header.value.payloadLength] == b[32..32 + header.value.payloadLength];
      assert b[32..][header.value.payloadLength..] == b[32 + header.value.payloadLength..];
      var a := session.Handle(Frame(header.value, payload.data));
      output := output + FrameBytes(a.response);
      if a.shutdown {
        return output, ShutDown;
      }
    }
  }

  // ----- framing -----

  /** A frame a peer may send: its header states its payload's length, within the limit. */
  predicate Legal(f: Frame) {
    Fits(f.header) && f.header.payloadLength == |f.payload| <= 0x100_0000
  }

  function Stream(frames: seq<Frame>): Bytes {
    if frames == [] then [] else FrameBytes(frames[0]) + Stream(frames[1..])
  }

  /** Handling a list of frames, up to and including the first that shuts the session down. */
  function HandleAll(policy: Policy, handled: seq<Frame>, output: Bytes, frames: seq<Frame>): Outcome
    decreases |frames|
  {
    if frames == [] then Outcome(handled, output, CleanEnd)
    else
      var handled' := handled + [frames[0]];
      var a := policy(handled');
      var output' := output + FrameBytes(a.response);
      if a.shutdown then Outcome(handled', output', ShutDown)
      else HandleAll(policy, handled', output', frames[1..])
  }

  lemma FirstFrame(f: Frame, rest: Bytes)
    requires Legal(f)
    ensures var b := FrameBytes(f) + rest; var n := 32 + |f.payload|;
      |b| >= n && HeaderOf(b[..32]) == f.header && b[32..n] == f.payload && b[n..] == rest
  {
    DecodeEncode(f.header);
    var b := FrameBytes(f) + rest;
    assert b[..32] == HeaderBytes(f.header);
  }

  /** An encoded list of frames followed by a rest means: those frames in order, then the rest. */
  lemma {:induction false} StreamMeaning(policy: Policy, handled: seq<Frame>, output: Bytes, frames: seq<Frame>,
      rest: Bytes)
    requires forall f :: f in frames ==> Legal(f)
    ensures var o := HandleAll(policy, handled, output, frames);
      Meaning(policy, handled, output, Stream(frames) + rest)
        == if o.ending == ShutDown then o else Meaning(policy, o.handled, o.output, rest)
    decreases |frames|
  {
    if frames == [] {
      assert Stream(frames) + rest == rest;
    } else {
      var f := frames[0];
      var handled' := handled + [f];
      var output' := output + FrameBytes(policy(handled').response);
      assert Stream(frames) + rest == FrameBytes(f) + (Stream(frames[1..]) + rest);
      FirstMeaning(policy, handled, output, f, Stream(frames[1..]) + rest);
      HandleFirst(policy, handled, output, frames);
      hide Meaning, HandleAll, FrameBytes, Stream, Legal;
      if !policy(handled').shutdown {
        StreamMeaning(policy, handled', output', frames[1..], rest);
      }
    }
  }

  lemma FirstMeaning(policy: Policy, handled: seq<Frame>, output: Bytes, f: Frame, rest: Bytes)
    requires Legal(f)
    ensures var handled' := handled + [f];
      var output' := output + FrameBytes(policy(handled').response);
      Meaning(policy, handled, output, FrameBytes(f) + rest)
      == if policy(handled').shutdown then Outcome(handled', output', ShutDown)
         else Meaning(policy, handled', output', rest)
  {
    FirstFrame(f, rest);
    hide HeaderOf, FrameBytes;
  }

  lemma HandleFirst(policy: Policy, handled: seq<Frame>, output: Bytes, frames: seq<Frame>)
    requires frames != []
    ensures var handled' := handled + [frames[0]];
      var output' := output + FrameBytes(policy(handled').response);
      HandleAll(policy, handled, output, frames)
      == if policy(handled').shutdown then Outcome(handled', output', ShutDown)
         else HandleAll(policy, handled', output', frames[1..])
  {
  }

  /** The first n frames are served: none before the nth shuts the session down, and the nth does unless it is
      the last. */
  ghost predicate StopsAt(policy: Policy, frames: seq<Frame>, n: nat)
    requires n <= |frames|
  {
    && (forall k :: 0 < k < n ==> !policy(frames[..k]).shutdown)
    && (n < |frames| ==> n > 0 && policy(frames[..n]).shutdown)
  }

  /** The answers to the first n frames. */
  function Responses(policy: Policy, frames: seq<Frame>, n: nat): seq<Frame>
    requires n <= |frames|
  {
    if n == 0 then [] else Responses(policy, frames, n - 1) + [policy(frames[..n]).response]
  }

  lemma {:induction false} StreamAppend(a: seq<Frame>, f: Frame)
    ensures Stream(a + [f]) == Stream(a) + FrameBytes(f)
  {
    if a != [] {
      assert (a + [f])[1..] == a[1..] + [f];
      StreamAppend(a[1..], f);
    } else {
      assert a + [f] == [f] && [f][1..] == [];
    }
  }

  /** What is served of a list of frames: n of them, and n answers. */
  function Served(policy: Policy, frames: seq<Frame>, n: nat): Outcome
    requires n <= |frames|
  {
    Outcome(frames[..n], Stream(Responses(policy, frames, n)),
            if n > 0 && policy(frames[..n]).shutdown then ShutDown else CleanEnd)
  }

  /** From the kth frame on, none before having shut the session down. */
  lemma {:induction false} HandledFrom(policy: Policy, frames: seq<Frame>, k: nat) returns (n: nat)
    requires k <= |frames| && forall j :: 0 < j <= k ==> !policy(frames[..j]).shutdown
    ensures k <= n <= |frames| && StopsAt(policy, frames, n)
    ensures HandleAll(policy, frames[..k], Stream(Responses(policy, frames, k)), frames[k..])
         == Served(policy, frames, n)
    decreases |frames| - k
  {
    hide Stream, FrameBytes;
    n := k;
    if k < |frames| {
      var a := policy(frames[..k + 1]);
      assert frames[..k] + [frames[k..][0]] == frames[..k + 1] && frames[k..][1..] == frames[k + 1..];
      StreamAppend(Responses(policy, frames, k), a.response);
      HandleFirst(policy, frames[..k], Stream(Responses(policy, frames, k)), frames[k..]);
      hide HandleAll;
      n := k + 1;
      if !a.shutdown {
        n := HandledFrom(policy, frames, k + 1);
      }
    }
  }

  /** Of any encoded list of frames exactly the first n are handled, in order, where n is the first that shuts the
      session down, or all of them; n answers are written, and the end is clean. */
  lemma ServesAllFrames(policy: Policy, frames: seq<Frame>) returns (n: nat)
    requires forall f :: f in frames ==> Legal(f)
    ensures n <= |frames| && StopsAt(policy, frames, n)
    ensures Meaning(policy, [], [], Stream(frames)) == Served(policy, frames, n)
  {
    StreamMeaning(policy, [], [], frames, []);
    assert Stream(frames) + [] == Stream(frames);
    n := HandleAllServes(policy, frames);
    hide HandleAll, StopsAt, Responses, Stream;
  }

  lemma HandleAllServes(policy: Policy, frames: seq<Frame>) returns (n: nat)
    ensures n <= |frames| && StopsAt(policy, frames, n)
    ensures HandleAll(policy, [], [], frames) == Served(policy, frames, n)
  {
    n := HandledFrom(policy, frames, 0);
    assert frames[..0] == [] && frames[0..] == frames && Stream(Responses(policy, frames, 0)) == [];
    hide HandleAll, StopsAt, Stream;
  }

  /** A stream cut anywhere inside a frame is rejected after exactly the whole frames before the cut, unless one of
      those shut the session down. */
  lemma TruncationRejected(policy: Policy, frames: seq<Frame>, last: Frame, n: nat) returns (m: nat)
    requires (forall f :: f in frames ==> Legal(f)) && Legal(last) && 0 < n < |FrameBytes(last)|
    ensures m <= |frames| && StopsAt(policy, frames, m)
    ensures var o := Served(policy, frames, m);
      Meaning(policy, [], [], Stream(frames) + FrameBytes(last)[..n])
      == if o.ending == ShutDown then o else Outcome(frames, o.output, Truncated)
  {
    hide Meaning, HandleAll, FrameBytes, Stream;
    StreamMeaning(policy, [], [], frames, FrameBytes(last)[..n]);
    m := HandleAllServes(policy, frames);
    var o := HandleAll(policy, [], [], frames);
    CutFrame(policy, o.handled, o.output, last, n);
  }

  /** A header that announces more than sixteen mebibytes ends the service before any of the payload is read, after
      exactly the whole frames before it. */
  lemma OversizedRejected(policy: Policy, frames: seq<Frame>, h: Header, rest: Bytes) returns (m: nat)
    requires (forall f :: f in frames ==> Legal(f)) && Fits(h) && h.payloadLength > 0x100_0000
    ensures m <= |frames| && StopsAt(policy, frames, m)
    ensures var o := Served(policy, frames, m);
      Meaning(policy, [], [], Stream(frames) + (HeaderBytes(h) + rest))
      == if o.ending == ShutDown then o else Outcome(frames, o.output, Oversized)
  {
    hide Meaning, HandleAll, FrameBytes, Stream;
    StreamMeaning(policy, [], [], frames, HeaderBytes(h) + rest);
    m := HandleAllServes(policy, frames);
    var o := HandleAll(policy, [], [], frames);
    TooLong(policy, o.handled, o.output, h, rest);
  }

  lemma TooLong(policy: Policy, handled: seq<Frame>, output: Bytes, h: Header, rest: Bytes)
    requires Fits(h) && h.payloadLength > 0x100_0000
    ensures Meaning(policy, handled, output, HeaderBytes(h) + rest) == Outcome(handled, output, Oversized)
  {
    DecodeEncode(h);
    assert (HeaderBytes(h) + rest)[..32] == HeaderBytes(h);
    hide HeaderBytes, HeaderOf;
  }

  lemma CutFrame(policy: Policy, handled: seq<Frame>, output: Bytes, last: Frame, n: nat)
    requires Legal(last) && 0 < n < |FrameBytes(last)|
    ensures Meaning(policy, handled, output, FrameBytes(last)[..n]) == Outcome(handled, output, Truncated)
  {
    if n >= 32 {
      DecodeEncode(last.header);
      assert FrameBytes(last)[..n][..32] == HeaderBytes(last.header);
    }
  }
}

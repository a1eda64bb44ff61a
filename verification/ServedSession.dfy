/** The frame loop with the bridge session behind it: which bytes a peer gets back for the frames it sends. */
module ServedSession {
  import opened ByteStrings
  import opened Wire
  import opened SessionProtocol
  import S = SessionState
  import opened SessionRuns
  import Server = StreamServer

  /** What the world decides about the nth request of a session. */
  type Worlds = nat -> World

  function Inputs(worlds: Worlds, frames: seq<Frame>): (ins: seq<Input>)
    ensures |ins| == |frames|
  {
    if frames == [] then []
    else Inputs(worlds, frames[..|frames| - 1]) + [Input(frames[|frames| - 1], worlds(|frames| - 1))]
  }

  /** The step a session takes for the last of some frames, having taken one for each before it. */
  ghost function LastStep(d: Device, worlds: Worlds, frames: seq<Frame>): S.Outcome
    requires frames != []
  {
    var last := |frames| - 1;
    S.InitialInv(d);
    Step(Run(S.Initial(), d, Inputs(worlds, frames[..last])), d, Input(frames[last], worlds(last)))
  }

  /** The session, as the loop sees it; the loop never asks before the first frame. */
  ghost function SessionPolicy(d: Device, worlds: Worlds): Server.Policy {
    (handled: seq<Frame>) =>
      if handled == [] then Server.Answer(Frame(Header(0, 0, 0, 0, 0, 0, 0, 0), []), true)
      else Server.Answer(LastStep(d, worlds, handled).reply, LastStep(d, worlds, handled).stop)
  }

  /** The replies of the session's run to the first n frames. */
  ghost function Replies(d: Device, worlds: Worlds, frames: seq<Frame>, n: nat): seq<Frame>
    requires n <= |frames|
  {
    if n == 0 then [] else Replies(d, worlds, frames, n - 1) + [LastStep(d, worlds, frames[..n]).reply]
  }

  /** n frames are served: none before the last of them stops the session, and that one does unless the frames
      have all been served. */
  ghost predicate StopsAt(d: Device, worlds: Worlds, frames: seq<Frame>, n: nat)
    requires n <= |frames|
  {
    && (forall k :: 0 < k < n ==> !LastStep(d, worlds, frames[..k]).stop)
    && (n < |frames| ==> n > 0 && LastStep(d, worlds, frames[..n]).stop)
  }

  lemma PolicyIs(d: Device, worlds: Worlds, handled: seq<Frame>)
    requires handled != []
    ensures var t := LastStep(d, worlds, handled); SessionPolicy(d, worlds)(handled) == Server.Answer(t.reply, t.stop)
  {
  }

  lemma {:induction false} RepliesAre(d: Device, worlds: Worlds, frames: seq<Frame>, n: nat)
    requires n <= |frames|
    ensures Server.Responses(SessionPolicy(d, worlds), frames, n) == Replies(d, worlds, frames, n)
    decreases n
  {
    hide LastStep;
    if n > 0 { RepliesAre(d, worlds, frames, n - 1); }
  }

  /** What a peer that sends legal frames gets back is the encoded replies of the session's own run to them, one
      for each frame up to the one that stops it, in order and nothing else. */
  lemma BytesServed(d: Device, worlds: Worlds, frames: seq<Frame>) returns (n: nat)
    requires forall f :: f in frames ==> Server.Legal(f)
    ensures n <= |frames| && StopsAt(d, worlds, frames, n)
    ensures Server.Meaning(SessionPolicy(d, worlds), [], [], Server.Stream(frames))
         == Server.Outcome(frames[..n], Server.Stream(Replies(d, worlds, frames, n)),
              if n > 0 && LastStep(d, worlds, frames[..n]).stop then Server.ShutDown else Server.CleanEnd)
  {
    hide SessionPolicy, LastStep, Server.Meaning, Server.Stream, Server.Responses, Replies, Server.Legal;
    n := Server.ServesAllFrames(SessionPolicy(d, worlds), frames);
    RepliesAre(d, worlds, frames, n);
    StopsAgree(d, worlds, frames, n);
    hide StopsAt, Server.StopsAt;
    if n > 0 { PolicyIs(d, worlds, frames[..n]); }
  }

  lemma StopsAgree(d: Device, worlds: Worlds, frames: seq<Frame>, n: nat)
    requires n <= |frames| && Server.StopsAt(SessionPolicy(d, worlds), frames, n)
    ensures StopsAt(d, worlds, frames, n)
  {
    hide SessionPolicy, LastStep;
    forall k: nat | 0 < k <= n
      ensures SessionPolicy(d, worlds)(frames[..k]).shutdown == LastStep(d, worlds, frames[..k]).stop {
      PolicyIs(d, worlds, frames[..k]);
    }
  }
}

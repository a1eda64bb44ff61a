/** The clock shim's lock-free table of call sites. Any number of threads run callSiteFor and shouldDelayCall
    at once; one step is one atomic operation of one thread, and a run is any interleaving of steps. */
module CallSites {
  import opened ByteStrings

  type Address = bv64
  type ThreadId = nat

  type Slot = i: nat | i < 256 witness 0

  function Home(a: Address): Slot
  {
    (((a >> 4) ^ (a >> 13)) % 256) as int
  }

  /** The slot looked at by probe number p. */
  function Probe(a: Address, p: nat): Slot
  {
    (Home(a) + p) % 256
  }

  /** Where a thread stands between two atomic operations. */
  datatype Pc =
    | Idle
    | Probing(a: Address, p: Slot)
    | LoadDecision(a: Address, slot: Slot)
    | WriteDecision(a: Address, slot: Slot)
    | ReloadDecision(a: Address, slot: Slot)
    | Count(a: Address, slot: Slot)

  datatype Lookup = Lookup(a: Address, slot: Option<Slot>)

  /** The shared table (address 0 marks a free slot, decision 0 an undecided one, the counter wraps at 32
      bits), the threads, and a history: finished lookups, calls counted and calls delayed at each slot. */
  datatype State = State(
    address: seq<Address>,
    decision: seq<nat>,
    counter: seq<nat>,
    threads: map<ThreadId, Pc>,
    lookups: set<Lookup>,
    counted: seq<nat>,
    delayed: seq<nat>)

  ghost predicate Shape(s: State) {
    |s.address| == |s.decision| == |s.counter| == |s.counted| == |s.delayed| == 256
  }

  ghost predicate Init(s: State) {
    && Shape(s)
    && (forall i :: 0 <= i < 256 ==> s.address[i] == 0)
    && (forall i :: 0 <= i < 256 ==> s.decision[i] == 0)
    && (forall i :: 0 <= i < 256 ==> s.counter[i] == 0)
    && (forall i :: 0 <= i < 256 ==> s.counted[i] == 0)
    && (forall i :: 0 <= i < 256 ==> s.delayed[i] == 0)
    && s.lookups == {} && s.threads == map[]
  }

  /** A thread not in the map, like one that has returned, is between calls. */
  function PcOf(s: State, t: ThreadId): Pc {
    if t in s.threads then s.threads[t] else Idle
  }

  function Goto(s: State, t: ThreadId, pc: Pc): State {
    s.(threads := s.threads[t := pc])
  }

  /** One compare-exchange of callSiteFor: claim a free slot, recognise one's own, or move on. */
  function ProbeStep(s: State, t: ThreadId, a: Address, p: Slot): (s': State)
    requires Shape(s)
    ensures Shape(s')
  {
    var i := Probe(a, p);
    var claimed := if s.address[i] == 0 then s.(address := s.address[i := a]) else s;
    if claimed.address[i] == a then
      Goto(claimed.(lookups := s.lookups + {Lookup(a, Some(i))}), t, LoadDecision(a, i))
    else if p + 1 < 256 then Goto(s, t, Probing(a, p + 1))
    else Goto(s.(lookups := s.lookups + {Lookup(a, None)}), t, Idle)
  }

  function Decided(a: Address, slot: Slot, decision: nat): Pc {
    if decision == 2 then Count(a, slot) else Idle
  }

  /** fetch_add of one, then the comparison with the limit of 512. */
  function CountStep(s: State, t: ThreadId, slot: Slot): (s': State)
    requires Shape(s)
    ensures Shape(s')
  {
    var before := s.counter[slot];
    Goto(s.(counter := s.counter[slot := (before + 1) % 0x1_0000_0000],
            counted := s.counted[slot := s.counted[slot] + 1],
            delayed := s.delayed[slot := s.delayed[slot] + if before < 512 then 1 else 0]), t, Idle)
  }

  /** What the environment picks: the address of a new call, and whether the library that contains it is
      one of those that calibrate against the clock. */
  datatype Choice = Choice(a: Address, matches: bool)

  /** One atomic operation of thread t. */
  function Step(s: State, t: ThreadId, c: Choice): (s': State)
    requires Shape(s)
    ensures Shape(s')
  {
    match PcOf(s, t)
    case Idle => Goto(s, t, if c.a == 0 then Idle else Probing(c.a, 0))
    case Probing(a, p) => ProbeStep(s, t, a, p)
    case LoadDecision(a, slot) =>
      Goto(s, t, if s.decision[slot] == 0 then WriteDecision(a, slot) else Decided(a, slot, s.decision[slot]))
    case WriteDecision(a, slot) =>
      var resolved := if c.matches then 2 else 1;
      Goto(if s.decision[slot] == 0 then s.(decision := s.decision[slot := resolved]) else s,
           t, ReloadDecision(a, slot))
    case ReloadDecision(a, slot) => Goto(s, t, Decided(a, slot, s.decision[slot]))
    case Count(a, slot) => CountStep(s, t, slot)
  }

  /** Every probe of a before the p-th has met some other address. */
  ghost predicate PassedOver(s: State, a: Address, p: nat)
    requires Shape(s)
  {
    forall q :: 0 <= q < p ==> s.address[Probe(a, q)] != 0 && s.address[Probe(a, q)] != a
  }

  /** Slot i was reached by the probe sequence of the address it holds. */
  ghost predicate Reached(s: State, i: Slot)
    requires Shape(s)
  {
    exists p: Slot :: Probe(s.address[i], p) == i && PassedOver(s, s.address[i], p)
  }

  ghost predicate ThreadOk(s: State, pc: Pc)
    requires Shape(s)
  {
    match pc
    case Idle => true
    case Probing(a, p) => a != 0 && PassedOver(s, a, p)
    case Count(a, slot) => a != 0 && s.address[slot] == a && s.decision[slot] == 2
    case ReloadDecision(a, slot) => a != 0 && s.address[slot] == a && s.decision[slot] != 0
    case _ => pc.a != 0 && s.address[pc.slot] == pc.a
  }

  ghost predicate LookupOk(s: State, l: Lookup)
    requires Shape(s)
  {
    match l.slot
    case Some(i) => l.a != 0 && s.address[i] == l.a
    case None => forall i :: 0 <= i < 256 ==> s.address[i] != 0 && s.address[i] != l.a
  }

  /** How many of the first n counted calls a 32-bit counter lets through. */
  function DelaysAmong(n: nat): nat {
    n / 0x1_0000_0000 * 512 + if n % 0x1_0000_0000 < 512 then n % 0x1_0000_0000 else 512
  }

  ghost predicate Counters(s: State)
    requires Shape(s)
  {
    forall i :: 0 <= i < 256 ==>
      s.counter[i] == s.counted[i] % 0x1_0000_0000 && s.delayed[i] == DelaysAmong(s.counted[i])
  }

  ghost predicate Inv(s: State) {
    && Shape(s)
    && (forall i :: 0 <= i < 256 && s.address[i] != 0 ==> Reached(s, i))
    && (forall t :: t in s.threads ==> ThreadOk(s, s.threads[t]))
    && (forall l :: l in s.lookups ==> LookupOk(s, l))
    && Counters(s)
    && (forall i :: 0 <= i < 256 ==> s.decision[i] <= 2)
  }

  /** Claimed slots and taken decisions stay; the history only grows. */
  ghost predicate Grows(s: State, s': State) {
    && Shape(s) && Shape(s')
    && (forall i :: 0 <= i < 256 && s.address[i] != 0 ==> s'.address[i] == s.address[i])
    && (forall i :: 0 <= i < 256 && s.decision[i] != 0 ==> s'.decision[i] == s.decision[i])
    && s.lookups <= s'.lookups
  }

  lemma PassedOverStays(s: State, s': State, a: Address, p: nat)
    requires Grows(s, s') && PassedOver(s, a, p)
    ensures PassedOver(s', a, p)
  {
  }

  lemma ReachedStays(s: State, s': State, i: Slot)
    requires Grows(s, s') && s.address[i] != 0 && Reached(s, i)
    ensures Reached(s', i)
  {
    var p: Slot :| Probe(s.address[i], p) == i && PassedOver(s, s.address[i], p);
    PassedOverStays(s, s', s.address[i], p);
  }

  lemma ThreadStays(s: State, s': State, pc: Pc)
    requires Grows(s, s') && ThreadOk(s, pc)
    ensures ThreadOk(s', pc)
  {
  }

  lemma LookupStays(s: State, s': State, l: Lookup)
    requires Grows(s, s') && LookupOk(s, l)
    ensures LookupOk(s', l)
  {
  }

  lemma StepGrows(s: State, t: ThreadId, c: Choice)
    requires Inv(s)
    ensures Grows(s, Step(s, t, c))
  {
    assert ThreadOk(s, PcOf(s, t));
  }

  /** What is left to check once a step is known to grow the state: what it wrote anew. */
  lemma InvFromGrowth(s: State, s': State, t: ThreadId)
    requires Inv(s) && Grows(s, s')
    requires t in s'.threads && s'.threads == s.threads[t := s'.threads[t]]
    requires ThreadOk(s', s'.threads[t])
    requires forall i :: 0 <= i < 256 && s.address[i] != s'.address[i] ==> Reached(s', i)
    requires forall l :: l in s'.lookups && l !in s.lookups ==> LookupOk(s', l)
    requires Counters(s')
    requires forall i :: 0 <= i < 256 ==> s'.decision[i] <= 2
    ensures Inv(s')
  {
    forall i | 0 <= i < 256 && s'.address[i] != 0 ensures Reached(s', i) {
      if s.address[i] == s'.address[i] { ReachedStays(s, s', i); }
    }
    forall u | u in s'.threads ensures ThreadOk(s', s'.threads[u]) {
      if u != t { ThreadStays(s, s', s.threads[u]); }
    }
    forall l | l in s'.lookups ensures LookupOk(s', l) {
      if l in s.lookups { LookupStays(s, s', l); }
    }
  }

  /** After 256 probes every slot has been met: the probe sequence is onto. */
  lemma ProbeReaches(a: Address, i: Slot) returns (p: Slot)
    ensures Probe(a, p) == i
  {
    hide Home;
    var h := Home(a);
    p := if h <= i then i - h else i + 256 - h;
  }

  lemma ClaimReached(s: State, s': State, a: Address, p: Slot)
    requires Grows(s, s') && a != 0 && PassedOver(s, a, p) && s'.address[Probe(a, p)] == a
    ensures Reached(s', Probe(a, p))
  {
    PassedOverStays(s, s', a, p);
  }

  lemma LastProbeFailed(s: State, a: Address)
    requires Shape(s) && PassedOver(s, a, 256)
    ensures LookupOk(s, Lookup(a, None))
  {
    forall j | 0 <= j < 256 ensures s.address[j] != 0 && s.address[j] != a {
      var q := ProbeReaches(a, j);
    }
  }

  lemma ProbeStepInv(s: State, t: ThreadId, a: Address, p: Slot)
    requires Inv(s) && ThreadOk(s, Probing(a, p))
    requires Grows(s, ProbeStep(s, t, a, p))
    ensures Inv(ProbeStep(s, t, a, p))
  {
    var s' := ProbeStep(s, t, a, p);
    var i := Probe(a, p);
    if s.address[i] == 0 || s.address[i] == a {
      ClaimReached(s, s', a, p);
    } else {
      assert PassedOver(s', a, p + 1) by { PassedOverStays(s, s', a, p); }
      if p == 255 { LastProbeFailed(s', a); }
    }
    hide Home, Probe, PassedOver, Reached, DelaysAmong;
    InvFromGrowth(s, s', t);
  }

  lemma OneMoreCall(n: nat)
    ensures DelaysAmong(n + 1) == DelaysAmong(n) + if n % 0x1_0000_0000 < 512 then 1 else 0
    ensures (n + 1) % 0x1_0000_0000 == (n % 0x1_0000_0000 + 1) % 0x1_0000_0000
  {
    var q, r := n / 0x1_0000_0000, n % 0x1_0000_0000;
    if r + 1 < 0x1_0000_0000 {
      QuotientIs(n + 1, q, r + 1);
    } else {
      QuotientIs(n + 1, q + 1, 0);
    }
  }

  lemma QuotientIs(n: nat, q: nat, r: nat)
    requires n == q * 0x1_0000_0000 + r && r < 0x1_0000_0000
    ensures n / 0x1_0000_0000 == q && n % 0x1_0000_0000 == r
  {
  }

  lemma CountStepInv(s: State, t: ThreadId, slot: Slot)
    requires Inv(s)
    ensures Inv(CountStep(s, t, slot)) && Grows(s, CountStep(s, t, slot))
  {
    OneMoreCall(s.counted[slot]);
    hide Home, Probe, PassedOver, Reached, LookupOk, DelaysAmong;
    InvFromGrowth(s, CountStep(s, t, slot), t);
  }

  /** Steps that move a thread and at most settle a decision. */
  lemma MoveInv(s: State, t: ThreadId, pc: Pc, decision: seq<nat>)
    requires Inv(s) && |decision| == 256
    requires forall i :: 0 <= i < 256 ==> decision[i] <= 2 && (s.decision[i] != 0 ==> decision[i] == s.decision[i])
    requires ThreadOk(s.(decision := decision), pc)
    ensures var s' := Goto(s.(decision := decision), t, pc); Inv(s') && Grows(s, s')
  {
    hide Home, Probe, Reached, LookupOk, DelaysAmong;
    var s' := Goto(s.(decision := decision), t, pc);
    assert ThreadOk(s', pc);
    InvFromGrowth(s, s', t);
  }

  lemma StepInv(s: State, t: ThreadId, c: Choice)
    requires Inv(s)
    ensures Inv(Step(s, t, c)) && Grows(s, Step(s, t, c))
  {
    assert ThreadOk(s, PcOf(s, t));
    StepGrows(s, t, c);
    match PcOf(s, t)
    case Probing(a, p) => ProbeStepInv(s, t, a, p);
    case Count(a, slot) => CountStepInv(s, t, slot);
    case Idle => MoveInv(s, t, if c.a == 0 then Idle else Probing(c.a, 0), s.decision);
    case LoadDecision(a, slot) =>
      MoveInv(s, t, if s.decision[slot] == 0 then WriteDecision(a, slot)
                    else Decided(a, slot, s.decision[slot]), s.decision);
    case WriteDecision(a, slot) =>
      MoveInv(s, t, ReloadDecision(a, slot),
              if s.decision[slot] == 0 then s.decision[slot := if c.matches then 2 else 1] else s.decision);
    case ReloadDecision(a, slot) => MoveInv(s, t, Decided(a, slot, s.decision[slot]), s.decision);
  }

  datatype Turn = Turn(t: ThreadId, c: Choice)

  /** The state after a schedule: any threads, in any order, with any calls. */
  function Exec(s: State, schedule: seq<Turn>): (s': State)
    requires Shape(s)
    ensures Shape(s')
  {
    if schedule == [] then s
    else
      var turn := schedule[|schedule| - 1];
      Step(Exec(s, schedule[..|schedule| - 1]), turn.t, turn.c)
  }

  lemma {:induction false} ExecInv(s: State, schedule: seq<Turn>)
    requires Init(s)
    ensures Inv(Exec(s, schedule))
  {
    if schedule != [] {
      var turn := schedule[|schedule| - 1];
      ExecInv(s, schedule[..|schedule| - 1]);
      StepInv(Exec(s, schedule[..|schedule| - 1]), turn.t, turn.c);
    }
  }

  lemma GrowsReflexive(s: State)
    requires Shape(s)
    ensures Grows(s, s)
  {
  }

  lemma GrowsTransitive(s: State, s': State, s'': State)
    requires Grows(s, s') && Grows(s', s'')
    ensures Grows(s, s'')
  {
  }

  /** A claimed slot keeps its address and a decision, once taken, is final: at any two points of a run. */
  lemma {:induction false} NothingIsUndone(s: State, schedule: seq<Turn>, n: nat)
    requires Init(s) && n <= |schedule|
    ensures Grows(Exec(s, schedule[..n]), Exec(s, schedule))
    decreases |schedule|
  {
    hide Step, Grows, Inv;
    var m := |schedule| - 1;
    if n == |schedule| {
      assert schedule[..n] == schedule;
      GrowsReflexive(Exec(s, schedule));
    } else {
      NothingIsUndone(s, schedule[..m], n);
      assert schedule[..m][..n] == schedule[..n];
      ExecInv(s, schedule[..m]);
      StepInv(Exec(s, schedule[..m]), schedule[m].t, schedule[m].c);
      GrowsTransitive(Exec(s, schedule[..n]), Exec(s, schedule[..m]), Exec(s, schedule));
    }
  }

  /** An address never holds two slots. */
  lemma OneSlotPerAddress(s: State, i: Slot, j: Slot)
    requires Inv(s) && s.address[i] == s.address[j] != 0
    ensures i == j
  {
    var a := s.address[i];
    var p: Slot :| Probe(a, p) == i && PassedOver(s, a, p);
    var q: Slot :| Probe(a, q) == j && PassedOver(s, a, q);
  }

  /** Whoever asks, and whenever: all lookups of one address in one run return the same slot, or all fail. */
  lemma LookupsAgree(s: State, schedule: seq<Turn>, l: Lookup, l': Lookup)
    requires Init(s) && l in Exec(s, schedule).lookups && l' in Exec(s, schedule).lookups && l.a == l'.a
    ensures l == l'
  {
    var e := Exec(s, schedule);
    ExecInv(s, schedule);
    assert LookupOk(e, l) && LookupOk(e, l');
    if l.slot.Some? && l'.slot.Some? {
      OneSlotPerAddress(e, l.slot.value, l'.slot.value);
    }
  }

  /** A lookup that has failed proves that every slot holds some other address, then and for good. */
  lemma NullMeansFull(s: State, schedule: seq<Turn>, a: Address, i: Slot)
    requires Init(s) && Lookup(a, None) in Exec(s, schedule).lookups
    ensures Exec(s, schedule).address[i] != 0 && Exec(s, schedule).address[i] != a
  {
    ExecInv(s, schedule);
    assert LookupOk(Exec(s, schedule), Lookup(a, None));
  }

  /** Exactly how many calls a site delays, and the bound of 512 until the counter has wrapped. */
  lemma DelayedCalls(s: State, schedule: seq<Turn>, i: Slot)
    requires Init(s)
    ensures var e := Exec(s, schedule);
      e.delayed[i] == DelaysAmong(e.counted[i]) && (e.delayed[i] <= 512 <==> e.counted[i] <= 0x1_0000_0000)
  {
    ExecInv(s, schedule);
    DelayBound(Exec(s, schedule).counted[i]);
  }

  lemma DelayBound(n: nat)
    ensures DelaysAmong(n) <= 512 <==> n <= 0x1_0000_0000
  {
    if n > 0x1_0000_0000 {
      assert n / 0x1_0000_0000 >= 1;
    }
  }

  // ----- which sites are delayed -----

  /** The nth turn of a schedule settles slot i: a thread working for the address the slot ends up with resolves
      the library while no decision is there yet. */
  ghost predicate Settles(s: State, schedule: seq<Turn>, n: nat, i: Slot)
    requires Shape(s) && n < |schedule|
  {
    var e := Exec(s, schedule[..n]);
    PcOf(e, schedule[n].t) == WriteDecision(Exec(s, schedule).address[i], i) && e.decision[i] == 0
  }

  lemma SettlesEarlier(s: State, schedule: seq<Turn>, n: nat, i: Slot)
    requires Init(s) && n < |schedule| - 1 && Settles(s, schedule[..|schedule| - 1], n, i)
    ensures Settles(s, schedule, n, i)
  {
    var init := schedule[..|schedule| - 1];
    assert init[..n] == schedule[..n] && schedule[..|init|] == init;
    hide Step;
    ExecInv(s, init[..n]);
    ExecInv(s, init);
    NothingIsUndone(s, init, n);
    NothingIsUndone(s, schedule, |init|);
    hide Reached, LookupOk, Counters;
    assert PcOf(Exec(s, init[..n]), init[n].t) == WriteDecision(Exec(s, init).address[i], i);
    assert ThreadOk(Exec(s, init[..n]), PcOf(Exec(s, init[..n]), init[n].t));
  }

  /** Every decision comes from one turn, and from what the library was found to be in that turn: a site is decided
      for delaying only by a library that matches, and against it only by one that does not. */
  lemma {:induction false} DecidedBy(s: State, schedule: seq<Turn>, i: Slot) returns (n: nat)
    requires Init(s) && Exec(s, schedule).decision[i] != 0
    ensures n < |schedule| && Settles(s, schedule, n, i)
    ensures Exec(s, schedule).decision[i] == 2 <==> schedule[n].c.matches
    ensures Exec(s, schedule).decision[i] == 1 <==> !schedule[n].c.matches
    decreases |schedule|
  {
    var last := |schedule| - 1;
    var before := Exec(s, schedule[..last]);
    ExecInv(s, schedule[..last]);
    StepInv(before, schedule[last].t, schedule[last].c);
    if before.decision[i] == 0 {
      n := last;
      assert ThreadOk(before, PcOf(before, schedule[last].t));
    } else {
      n := DecidedBy(s, schedule[..last], i);
      hide Step, Settles, Inv;
      SettlesEarlier(s, schedule, n, i);
    }
  }

  /** And such a turn decides for good. */
  lemma SettledForGood(s: State, schedule: seq<Turn>, n: nat, i: Slot)
    requires Init(s) && n < |schedule| && Settles(s, schedule, n, i)
    ensures Exec(s, schedule).decision[i] == if schedule[n].c.matches then 2 else 1
  {
    assert schedule[..n + 1][..n] == schedule[..n];
    NothingIsUndone(s, schedule, n + 1);
  }

  /** Calls are counted only at sites decided for delaying. */
  lemma {:induction false} CountedDecided(s: State, schedule: seq<Turn>, i: Slot)
    requires Init(s) && Exec(s, schedule).counted[i] > 0
    ensures Exec(s, schedule).decision[i] == 2
  {
    if schedule != [] {
      var last := |schedule| - 1;
      var before := Exec(s, schedule[..last]);
      ExecInv(s, schedule[..last]);
      assert ThreadOk(before, PcOf(before, schedule[last].t));
      StepInv(before, schedule[last].t, schedule[last].c);
      if before.counted[i] > 0 {
        CountedDecided(s, schedule[..last], i);
      }
    }
  }

  /** A site where calls are delayed has been resolved to a library that matches, by a call for its own address. */
  lemma DelayedMatched(s: State, schedule: seq<Turn>, i: Slot) returns (n: nat)
    requires Init(s) && (Exec(s, schedule).counted[i] > 0 || Exec(s, schedule).delayed[i] > 0)
    ensures n < |schedule| && Settles(s, schedule, n, i) && schedule[n].c.matches
  {
    DelayedCalls(s, schedule, i);
    CountedDecided(s, schedule, i);
    n := DecidedBy(s, schedule, i);
    hide Settles, Exec;
  }

  /** Where no library matches nothing is counted and nothing delayed. */
  lemma NoneMatches(s: State, schedule: seq<Turn>, i: Slot)
    requires Init(s) && forall n :: 0 <= n < |schedule| ==> !schedule[n].c.matches
    ensures Exec(s, schedule).counted[i] == Exec(s, schedule).delayed[i] == 0
  {
    if Exec(s, schedule).counted[i] > 0 || Exec(s, schedule).delayed[i] > 0 {
      var n := DelayedMatched(s, schedule, i);
    }
  }

  // ----- the counter does wrap -----

  /** Thread 0 is between calls, and address a has its slot, decided for delaying. */
  ghost predicate Serving(s: State, a: Address) {
    Shape(s) && PcOf(s, 0) == Idle && s.address[Home(a)] == a != 0 && s.decision[Home(a)] == 2
  }

  lemma HomeFirst(a: Address)
    ensures Probe(a, 0) == Home(a)
  {
    hide Home;
  }

  lemma ExecStep(s: State, schedule: seq<Turn>, turn: Turn)
    requires Shape(s)
    ensures Exec(s, schedule + [turn]) == Step(Exec(s, schedule), turn.t, turn.c)
  {
    assert (schedule + [turn])[..|schedule|] == schedule;
  }

  /** Four turns of thread 0 are a counted call at a site that is being served: the call, the lookup, the
      decision, the count. */
  lemma CountedCall(s: State, a: Address)
    requires Serving(s, a)
    ensures var c := Choice(a, true); var t := Step(Step(Step(Step(s, 0, c), 0, c), 0, c), 0, c);
      Serving(t, a) && t.counted[Home(a)] == s.counted[Home(a)] + 1
  {
    HomeFirst(a);
    hide Home, Probe;
    var c := Choice(a, true);
    var s1 := Step(s, 0, c);
    assert PcOf(s1, 0) == Probing(a, 0);
    var s2 := Step(s1, 0, c);
    assert PcOf(s2, 0) == LoadDecision(a, Home(a));
    var s3 := Step(s2, 0, c);
    assert PcOf(s3, 0) == Count(a, Home(a));
  }

  /** The very first call at a site: six turns, two of them to take the decision. */
  lemma FirstCall(s: State, a: Address)
    requires Init(s) && a != 0
    ensures var c := Choice(a, true);
      var t := Step(Step(Step(Step(Step(Step(s, 0, c), 0, c), 0, c), 0, c), 0, c), 0, c);
      Serving(t, a) && t.counted[Home(a)] == 1
  {
    HomeFirst(a);
    hide Home, Probe;
    var c := Choice(a, true);
    var s1 := Step(s, 0, c);
    assert PcOf(s1, 0) == Probing(a, 0) && s1.address == s.address;
    var s2 := Step(s1, 0, c);
    assert PcOf(s2, 0) == LoadDecision(a, Home(a)) && s2.address[Home(a)] == a && s2.decision == s.decision;
    var s3 := Step(s2, 0, c);
    assert PcOf(s3, 0) == WriteDecision(a, Home(a)) && s3.address == s2.address && s3.decision == s.decision;
    var s4 := Step(s3, 0, c);
    assert PcOf(s4, 0) == ReloadDecision(a, Home(a)) && s4.decision[Home(a)] == 2 && s4.address == s2.address;
    var s5 := Step(s4, 0, c);
    assert PcOf(s5, 0) == Count(a, Home(a)) && s5.counted == s.counted;
  }

  /** n calls of one thread at one site. */
  lemma {:induction false} ManyCalls(s: State, a: Address, n: nat) returns (schedule: seq<Turn>)
    requires Init(s) && a != 0 && n > 0
    ensures Serving(Exec(s, schedule), a) && Exec(s, schedule).counted[Home(a)] == n
  {
    var turn := Turn(0, Choice(a, true));
    hide Step, Serving, Home;
    if n == 1 {
      FirstCall(s, a);
      ExecStep(s, [], turn);
      ExecStep(s, [] + [turn], turn);
      ExecStep(s, [] + [turn] + [turn], turn);
      ExecStep(s, [] + [turn] + [turn] + [turn], turn);
      ExecStep(s, [] + [turn] + [turn] + [turn] + [turn], turn);
      ExecStep(s, [] + [turn] + [turn] + [turn] + [turn] + [turn], turn);
      schedule := [] + [turn] + [turn] + [turn] + [turn] + [turn] + [turn];
    } else {
      var before := ManyCalls(s, a, n - 1);
      CountedCall(Exec(s, before), a);
      ExecStep(s, before, turn);
      ExecStep(s, before + [turn], turn);
      ExecStep(s, before + [turn] + [turn], turn);
      ExecStep(s, before + [turn] + [turn] + [turn], turn);
      schedule := before + [turn] + [turn] + [turn] + [turn];
    }
  }

  /** For any address some run counts more than 2^32 calls at its site and delays more than 512 of them. */
  lemma BoundExceeded(s: State, a: Address) returns (schedule: seq<Turn>)
    requires Init(s) && a != 0
    ensures Exec(s, schedule).counted[Home(a)] > 0x1_0000_0000 && Exec(s, schedule).delayed[Home(a)] > 512
  {
    schedule := ManyCalls(s, a, 0x1_0000_0001);
    DelayedCalls(s, schedule, Home(a));
  }
}

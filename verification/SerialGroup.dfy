/** The one threadgroup the host dispatches for a rewritten kernel. Its threads all run the rewritten text, with
    plain loads and stores in any interleaving; all but thread zero leave at the guard, so the group does what
    the serial loop does. Without the guard and the loop, plain loads and stores would lose updates. */
module SerialGroup {
  import opened SerialGrid

  const ZERO := Id(0, 0, 0)

  /** A thread of the rewritten kernel: not yet past the guard, returned, or in the body for the nth ID. */
  datatype Thread<L> = Begin | Gone | InBody(n: nat, point: Point<L>)

  datatype Group<L> = Group(memory: Memory, threads: map<Id, Thread<L>>)

  function Enter<L>(k: Kernel<L>, ids: seq<Id>, n: nat): Thread<L> {
    if n < |ids| then InBody(n, At(k.start(ids[n]))) else Gone
  }

  /** One step of a thread: the guard, a return statement, the end of the body, or one memory access. */
  function ThreadStep<L>(k: Kernel<L>, ids: seq<Id>, id: Id, t: Thread<L>, m: Memory): (Thread<L>, Memory) {
    match t
    case Begin => (if id != ZERO then Gone else Enter(k, ids, 0), m)
    case Gone => (Gone, m)
    case InBody(n, p) =>
      if p.At? && k.next(p.l).Return? then (Gone, m)
      else if p.At? && k.next(p.l).Halt? then (Enter(k, ids, n + 1), m)
      else
        var (q, m') := PlainStep(k, p, m);
        (InBody(n, q), m')
  }

  function GroupTurn<L>(k: Kernel<L>, ids: seq<Id>, c: Group<L>, id: Id): Group<L> {
    if id !in c.threads then c
    else
      var (t, m) := ThreadStep(k, ids, id, c.threads[id], c.memory);
      Group(m, c.threads[id := t])
  }

  /** The group under a schedule: whose step comes when. */
  function GroupRun<L>(k: Kernel<L>, ids: seq<Id>, c: Group<L>, schedule: seq<Id>): Group<L> {
    if schedule == [] then c
    else GroupTurn(k, ids, GroupRun(k, ids, c, schedule[..|schedule| - 1]), schedule[|schedule| - 1])
  }

  function Dispatch<L>(group: set<Id>, m: Memory): Group<L> {
    Group(m, map id | id in group :: Begin)
  }

  /** n steps of thread zero by itself. */
  function Steps<L>(k: Kernel<L>, ids: seq<Id>, s: (Thread<L>, Memory), n: nat): (Thread<L>, Memory) {
    if n == 0 then s
    else
      var before := Steps(k, ids, s, n - 1);
      ThreadStep(k, ids, ZERO, before.0, before.1)
  }

  lemma {:induction false} StepsAdd<L>(k: Kernel<L>, ids: seq<Id>, s: (Thread<L>, Memory), a: nat, b: nat)
    ensures Steps(k, ids, s, a + b) == Steps(k, ids, Steps(k, ids, s, a), b)
    decreases b
  {
    if b > 0 { StepsAdd(k, ids, s, a, b - 1); }
  }

  /** Whatever the schedule, memory is what thread zero's own steps make of it, and no other thread gets past
      the guard. */
  lemma {:induction false} OnlyThreadZero<L>(k: Kernel<L>, ids: seq<Id>, group: set<Id>, m: Memory, schedule: seq<Id>)
    requires ZERO in group
    ensures var c := GroupRun(k, ids, Dispatch(group, m), schedule);
      && c.threads.Keys == group
      && (c.threads[ZERO], c.memory) == Steps(k, ids, (Begin, m), Times(schedule, ZERO))
      && (forall id :: id in group && id != ZERO ==> c.threads[id] == if id in schedule then Gone else Begin)
  {
    if schedule != [] {
      var rest, id := schedule[..|schedule| - 1], schedule[|schedule| - 1];
      OnlyThreadZero(k, ids, group, m, rest);
      assert schedule == rest + [id];
      var c := GroupRun(k, ids, Dispatch(group, m), rest);
      assert GroupRun(k, ids, Dispatch(group, m), schedule) == GroupTurn(k, ids, c, id);
      if id == ZERO {
        StepsSuccessor(k, ids, (Begin, m), Times(rest, ZERO));
        hide ThreadStep;
      } else {
        hide PlainStep, Enter;
      }
      hide GroupRun, Steps;
    }
  }

  /** A body alone: its statements, each in one or two steps. */
  lemma {:induction false} BodySteps<L>(k: Kernel<L>, ids: seq<Id>, i: nat, s: Solo<L>, n: nat) returns (steps: nat)
    ensures var t := Alone(k, s, n);
      Steps(k, ids, (InBody(i, At(s.l)), s.memory), steps) == (InBody(i, At(t.l)), t.memory)
    decreases n
  {
    steps := 0;
    if n > 0 && !Finished(k, s.l) {
      var next := Statement(k, s);
      var rest := BodySteps(k, ids, i, next, n - 1);
      var few := StatementSteps(k, ids, i, s);
      StepsAdd(k, ids, (InBody(i, At(s.l)), s.memory), few, rest);
      hide Steps, Statement, Finished;
      steps := few + rest;
    }
  }

  lemma StatementSteps<L>(k: Kernel<L>, ids: seq<Id>, i: nat, s: Solo<L>) returns (few: nat)
    requires !Finished(k, s.l)
    ensures var t := Statement(k, s);
      Steps(k, ids, (InBody(i, At(s.l)), s.memory), few) == (InBody(i, At(t.l)), t.memory)
  {
    var start := (InBody(i, At(s.l)), s.memory);
    few := if k.next(s.l).CompareExchange? then 2 else 1;
    assert Steps(k, ids, start, 1) == ThreadStep(k, ids, ZERO, start.0, start.1);
    if few == 2 {
      var middle := Steps(k, ids, start, 1);
      assert middle.0 == InBody(i, Observed(s.l, Read(s.memory, k.next(s.l).a)));
      assert Steps(k, ids, start, 2) == ThreadStep(k, ids, ZERO, middle.0, middle.1);
    }
  }

  function Visited<L>(k: Kernel<L>, fuel: (Id, Memory) -> nat, m: Memory, ids: seq<Id>): Memory {
    VisitAll(k, fuel, Outcome(m, [], false), ids).memory
  }

  /** From the start of the ith body thread zero comes to the end of the loops, and memory is then that of the
      serial visit of the remaining IDs. */
  lemma {:induction false} LoopSteps<L(!new)>(k: Kernel<L>, fuel: (Id, Memory) -> nat, ids: seq<Id>, i: nat, m: Memory)
      returns (steps: nat)
    requires Terminates(k, fuel) && i <= |ids|
    ensures Steps(k, ids, (Enter(k, ids, i), m), steps) == (Gone, Visited(k, fuel, m, ids[i..]))
    decreases |ids| - i
  {
    if i == |ids| {
      steps := 0;
    } else {
      var start := (Enter(k, ids, i), m);
      var end := Body(k, fuel, ids[i], m);
      steps := BodyToEnd(k, fuel, ids, i, m);
      VisitFirst(k, fuel, m, ids[i..]);
      assert ids[i..][0] == ids[i] && ids[i..][1..] == ids[i + 1..];
      hide Body, Visited, Terminates, Steps;
      if !k.next(end.l).Return? {
        var rest := LoopSteps(k, fuel, ids, i + 1, end.memory);
        StepsAdd(k, ids, start, steps, rest);
        steps := steps + rest;
      }
    }
  }

  lemma BodyToEnd<L(!new)>(k: Kernel<L>, fuel: (Id, Memory) -> nat, ids: seq<Id>, i: nat, m: Memory)
      returns (steps: nat)
    requires Terminates(k, fuel) && i < |ids|
    ensures var end := Body(k, fuel, ids[i], m);
      Steps(k, ids, (Enter(k, ids, i), m), steps)
      == (if k.next(end.l).Return? then Gone else Enter(k, ids, i + 1), end.memory)
  {
    var end := Body(k, fuel, ids[i], m);
    assert Finished(k, end.l);
    steps := BodySteps(k, ids, i, Solo(k.start(ids[i]), m), fuel(ids[i], m));
    StepsSuccessor(k, ids, (Enter(k, ids, i), m), steps);
    steps := steps + 1;
    hide Steps, Terminates, Alone;
  }

  lemma StepsSuccessor<L>(k: Kernel<L>, ids: seq<Id>, s: (Thread<L>, Memory), n: nat)
    ensures var before := Steps(k, ids, s, n); Steps(k, ids, s, n + 1) == ThreadStep(k, ids, ZERO, before.0, before.1)
  {
  }

  lemma VisitFirst<L>(k: Kernel<L>, fuel: (Id, Memory) -> nat, m: Memory, ids: seq<Id>)
    requires ids != []
    ensures var s := Body(k, fuel, ids[0], m);
      Visited(k, fuel, m, ids) == if k.next(s.l).Return? then s.memory else Visited(k, fuel, s.memory, ids[1..])
  {
    var start := Outcome(m, [], false);
    var first := Visit(k, fuel, start, ids[0]);
    assert ids == [ids[0]] + ids[1..];
    VisitAppend(k, fuel, start, [ids[0]], ids[1..]);
    assert [ids[0]][..0] == [];
    assert VisitAll(k, fuel, start, [ids[0]]) == first;
    OnlyLeftAndMemory(k, fuel, first, Outcome(first.memory, [], false), ids[1..]);
  }

  /** Which IDs were visited before makes no difference to memory. */
  lemma {:induction false} OnlyLeftAndMemory<L>(k: Kernel<L>, fuel: (Id, Memory) -> nat, o: Outcome, p: Outcome,
      ids: seq<Id>)
    requires o.memory == p.memory
    ensures o.left ==> VisitAll(k, fuel, o, ids).memory == o.memory && VisitAll(k, fuel, o, ids).left
    ensures o.left == p.left ==>
      VisitAll(k, fuel, o, ids).memory == VisitAll(k, fuel, p, ids).memory
      && VisitAll(k, fuel, o, ids).left == VisitAll(k, fuel, p, ids).left
  {
    if ids != [] { OnlyLeftAndMemory(k, fuel, o, p, ids[..|ids| - 1]); }
  }

  /** Once thread zero has had enough turns and every other thread one, in whatever order, all threads have
      returned, and the group has done to memory what the serial loop does. */
  lemma GroupIsTheLoop<L(!new)>(k: Kernel<L>, fuel: (Id, Memory) -> nat, g: Grid, group: set<Id>, m: Memory)
      returns (enough: nat)
    requires Terminates(k, fuel) && ZERO in group
    ensures forall schedule :: EnoughTurns(schedule, group, enough) ==>
      Returned(GroupRun(k, GridIds(g), Dispatch(group, m), schedule))
    ensures forall schedule :: Returned(GroupRun(k, GridIds(g), Dispatch(group, m), schedule)) ==>
      GroupRun(k, GridIds(g), Dispatch(group, m), schedule).memory == Visited(k, fuel, m, GridIds(g))
  {
    var ids := GridIds(g);
    var steps := LoopSteps(k, fuel, ids, 0, m);
    assert ids[0..] == ids;
    enough := steps + 1;
    StepsAdd(k, ids, (Begin, m), 1, steps);
    assert Steps(k, ids, (Begin, m), 1) == (Enter(k, ids, 0), m);
    hide Terminates, Visited, GridIds, Enter;
    forall schedule
      ensures var c := GroupRun(k, ids, Dispatch(group, m), schedule);
        && (EnoughTurns(schedule, group, enough) ==> Returned(c))
        && (Returned(c) ==> c.memory == Visited(k, fuel, m, ids)) {
      GroupEnd(k, ids, group, m, schedule, enough);
    }
  }

  /** A schedule that gives thread zero so many turns, and every other thread of the group one. */
  predicate EnoughTurns(schedule: seq<Id>, group: set<Id>, enough: nat) {
    Times(schedule, ZERO) >= enough && group - {ZERO} <= (set id | id in schedule)
  }

  lemma GroupEnd<L>(k: Kernel<L>, ids: seq<Id>, group: set<Id>, m: Memory, schedule: seq<Id>, enough: nat)
    requires ZERO in group && Steps(k, ids, (Begin, m), enough).0.Gone?
    ensures var c := GroupRun(k, ids, Dispatch(group, m), schedule);
      && (EnoughTurns(schedule, group, enough) ==> Returned(c))
      && (Returned(c) ==> c.memory == Steps(k, ids, (Begin, m), enough).1)
  {
    hide Steps, GroupRun, Times;
    OnlyThreadZero(k, ids, group, m, schedule);
    var turns := Times(schedule, ZERO);
    if turns >= enough {
      Absorbed(k, ids, (Begin, m), enough, turns);
      var c := GroupRun(k, ids, Dispatch(group, m), schedule);
      if EnoughTurns(schedule, group, enough) {
        forall id | id in c.threads ensures c.threads[id].Gone? {
          assert id != ZERO ==> id in group - {ZERO} && id in (set x | x in schedule);
        }
      }
    } else if Steps(k, ids, (Begin, m), turns).0.Gone? {
      Absorbed(k, ids, (Begin, m), turns, enough);
    }
  }

  predicate Returned<L>(c: Group<L>) {
    forall id :: id in c.threads ==> c.threads[id].Gone?
  }

  lemma {:induction false} Absorbed<L>(k: Kernel<L>, ids: seq<Id>, s: (Thread<L>, Memory), a: nat, b: nat)
    requires a <= b && Steps(k, ids, s, a).0.Gone?
    ensures Steps(k, ids, s, b) == Steps(k, ids, s, a)
    decreases b
  {
    if a < b { Absorbed(k, ids, s, a, b - 1); }
  }

  // ----- why the guard and the loop are needed -----

  /** The body with plain loads and stores run for all IDs at once. */
  datatype Plain<L> = Plain(memory: Memory, points: map<Id, Point<L>>)

  function PlainTurn<L>(k: Kernel<L>, c: Plain<L>, id: Id): Plain<L> {
    if id !in c.points || (c.points[id].At? && Finished(k, c.points[id].l)) then c
    else
      var (p, m) := PlainStep(k, c.points[id], c.memory);
      Plain(m, c.points[id := p])
  }

  /** Every invocation tries to turn the zero at address 0 into a one, and keeps what it saw. */
  function ClaimKernel(): Kernel<(bool, Word)> {
    Kernel(
      id => (false, 0),
      (l: (bool, Word)) => if l.0 then Halt else CompareExchange(0, 0, 1),
      (l: (bool, Word), w: Word) => (true, w))
  }

  predicate Won(l: (bool, Word)) {
    l.0 && l.1 == 0
  }

  /** With plain loads and stores two invocations can both see the zero. */
  lemma BothWin()
    ensures var a, b, k := ZERO, Id(1, 0, 0), ClaimKernel();
      var c0 := Plain(map[], map[a := At((false, 0)), b := At((false, 0))]);
      var c := PlainTurn(k, PlainTurn(k, PlainTurn(k, PlainTurn(k, c0, a), b), a), b);
      c.points[a].At? && c.points[b].At? && Won(c.points[a].l) && Won(c.points[b].l)
  {
    var a, b, k := ZERO, Id(1, 0, 0), ClaimKernel();
    var c0 := Plain(map[], map[a := At((false, 0)), b := At((false, 0))]);
    var c1 := PlainTurn(k, c0, a);
    var c2 := PlainTurn(k, c1, b);
    var c3 := PlainTurn(k, c2, a);
    assert c2.points[a] == c2.points[b] == Observed((false, 0), 0);
    assert c3.points[b] == Observed((false, 0), 0);
  }

  /** At most one invocation has won, and none while the zero is there. */
  predicate OneWinner(c: Config<(bool, Word)>) {
    && Read(c.memory, 0) in {0, 1}
    && (forall i :: i in c.locals && Won(c.locals[i]) ==> Read(c.memory, 0) == 1)
    && (forall i, j :: i in c.locals && j in c.locals && Won(c.locals[i]) && Won(c.locals[j]) ==> i == j)
  }

  /** With the atomic operation no interleaving lets two invocations win. */
  lemma {:induction false} AtMostOneWins(c: Config<(bool, Word)>, schedule: seq<Id>)
    requires OneWinner(c)
    ensures OneWinner(Interleave(ClaimKernel(), c, schedule))
    decreases |schedule|
  {
    if schedule != [] {
      assert OneWinner(Turn(ClaimKernel(), c, schedule[0]));
      AtMostOneWins(Turn(ClaimKernel(), c, schedule[0]), schedule[1..]);
    }
  }

  /** So it is from the start with a zero at address 0, for any IDs. */
  lemma ClaimedOnce(ids: seq<Id>, m: Memory, schedule: seq<Id>, i: Id, j: Id)
    requires Read(m, 0) == 0
    ensures var c := Interleave(ClaimKernel(), Launch(ClaimKernel(), ids, m), schedule);
      i in c.locals && j in c.locals && Won(c.locals[i]) && Won(c.locals[j]) ==> i == j
  {
    assert OneWinner(Launch(ClaimKernel(), ids, m));
    AtMostOneWins(Launch(ClaimKernel(), ids, m), schedule);
  }
}

/** The serialized 64-bit compare-exchange kernel. The original kernel runs one invocation per global ID, all
    at once; the rewritten one runs the same body for every ID in one loop on one thread, with an ordinary
    load, test and store in place of the atomic. This module says when the second is one of the behaviours
    of the first. */
module SerialGrid {

  datatype Id = Id(x: nat, y: nat, z: nat)
  datatype Grid = Grid(x: nat, y: nat, z: nat)

  type Word = bv64
  type Memory = map<nat, Word>

  datatype Result<T> = Ok(value: T) | OutOfBounds

  function Read(m: Memory, a: nat): Word {
    if a in m then m[a] else 0
  }

  /** What an invocation does next. Return is an early return statement, Halt the end of the body. */
  datatype Op =
    | Load(a: nat)
    | Store(a: nat, v: Word)
    | CompareExchange(a: nat, expected: Word, desired: Word)
    | Halt
    | Return

  /** A kernel body over local states L: where an ID starts, what a local state does next, and how it goes
      on with the word that operation yields. */
  datatype Kernel<!L> = Kernel(start: Id -> L, next: L -> Op, resume: (L, Word) -> L)

  predicate Finished<L>(k: Kernel<L>, l: L) {
    k.next(l).Halt? || k.next(l).Return?
  }

  /** One indivisible operation of the original kernel. */
  function Atomic(op: Op, m: Memory): (Memory, Word) {
    match op
    case Load(a) => (m, Read(m, a))
    case Store(a, v) => (m[a := v], 0)
    case CompareExchange(a, e, d) => (if Read(m, a) == e then m[a := d] else m, Read(m, a))
    case Halt => (m, 0)
    case Return => (m, 0)
  }

  // ----- the original: any interleaving -----

  datatype Config<L> = Config(memory: Memory, locals: map<Id, L>)

  function Launch<L>(k: Kernel<L>, ids: seq<Id>, m: Memory): Config<L> {
    Config(m, map id | id in ids :: k.start(id))
  }

  function Turn<L>(k: Kernel<L>, c: Config<L>, id: Id): Config<L> {
    if id !in c.locals || Finished(k, c.locals[id]) then c
    else
      var (m, w) := Atomic(k.next(c.locals[id]), c.memory);
      Config(m, c.locals[id := k.resume(c.locals[id], w)])
  }

  function Interleave<L>(k: Kernel<L>, c: Config<L>, schedule: seq<Id>): Config<L>
    decreases |schedule|
  {
    if schedule == [] then c else Interleave(k, Turn(k, c, schedule[0]), schedule[1..])
  }

  predicate Complete<L>(k: Kernel<L>, c: Config<L>) {
    forall id :: id in c.locals ==> Finished(k, c.locals[id])
  }

  // ----- the rewritten kernel: plain loads and stores -----

  /** Where a thread of the rewritten kernel stands: before an operation, or inside the helper with the word
      it has loaded. */
  datatype Point<L> = At(l: L) | Observed(l: L, seen: Word)

  /** One memory access of the rewritten kernel. A compare-exchange has become two: the helper's load, and
      then its test and store, with the word loaded before. */
  function PlainStep<L>(k: Kernel<L>, p: Point<L>, m: Memory): (Point<L>, Memory) {
    match (p, k.next(p.l))
    case (At(l), CompareExchange(a, e, d)) => (Observed(l, Read(m, a)), m)
    case (Observed(l, seen), CompareExchange(a, e, d)) => (At(k.resume(l, seen)), if seen == e then m[a := d] else m)
    case (_, Load(a)) => (At(k.resume(p.l, Read(m, a))), m)
    case (_, Store(a, v)) => (At(k.resume(p.l, 0)), m[a := v])
    case (_, _) => (p, m)
  }

  datatype Solo<L> = Solo(l: L, memory: Memory)

  /** One operation of a body that nobody disturbs: one memory access, or the helper's two. */
  function Statement<L>(k: Kernel<L>, s: Solo<L>): Solo<L> {
    var (p, m) := PlainStep(k, At(s.l), s.memory);
    if p.At? then Solo(p.l, m)
    else
      var (q, n) := PlainStep(k, p, m);
      Solo(q.l, n)
  }

  /** With nobody else in between, the helper's load and store are the one atomic operation. */
  lemma StatementIsAtomic<L>(k: Kernel<L>, s: Solo<L>)
    requires !Finished(k, s.l)
    ensures var (m, w) := Atomic(k.next(s.l), s.memory); Statement(k, s) == Solo(k.resume(s.l, w), m)
  {
  }

  /** The helper the rewrite adds: load, compare, store, return what was there. Run in two steps it takes the
      body on as the atomic operation would. */
  method HelperCompareExchange<L>(k: Kernel<L>, l: L, m: Memory, a: nat, expected: Word, desired: Word)
      returns (stored: Memory, observed: Word)
    requires k.next(l) == CompareExchange(a, expected, desired)
    ensures Statement(k, Solo(l, m)) == Solo(k.resume(l, observed), stored)
    ensures observed == Read(m, a) && Read(stored, a) == (if observed == expected then desired else observed)
    ensures forall b :: b != a ==> Read(stored, b) == Read(m, b)
  {
    stored := m;
    observed := Read(stored, a);
    if observed == expected {
      stored := stored[a := desired];
    }
  }

  /** n operations of one body that nobody disturbs. */
  function Alone<L>(k: Kernel<L>, s: Solo<L>, n: nat): Solo<L>
    decreases n
  {
    if n == 0 || Finished(k, s.l) then s else Alone(k, Statement(k, s), n - 1)
  }

  /** The body for one ID, alone: what it leaves in memory, and whether it ends in an early return. */
  method RunBody<L>(k: Kernel<L>, start: L, memory: Memory, n: nat) returns (after: Memory, returned: bool)
    ensures var s := Alone(k, Solo(start, memory), n); after == s.memory && returned == k.next(s.l).Return?
  {
    var l, left := start, n;
    after := memory;
    while left > 0 && !Finished(k, l)
      invariant 0 <= left <= n
      invariant Alone(k, Solo(l, after), left) == Alone(k, Solo(start, memory), n)
    {
      ghost var before := Solo(l, after);
      var observed: Word := 0;
      match k.next(l) {
        case Load(a) =>
          observed := Read(after, a);
        case Store(a, v) =>
          after := after[a := v];
        case CompareExchange(a, expected, desired) =>
          after, observed := HelperCompareExchange(k, l, after, a, expected, desired);
      }
      l := k.resume(l, observed);
      assert Solo(l, after) == Statement(k, before);
      left := left - 1;
    }
    returned := k.next(l).Return?;
  }

  /** The premise that every body terminates when run alone: fuel bounds its number of operations. */
  ghost predicate Terminates<L(!new)>(k: Kernel<L>, fuel: (Id, Memory) -> nat) {
    forall id, m :: Finished(k, Body(k, fuel, id, m).l)
  }

  function Body<L>(k: Kernel<L>, fuel: (Id, Memory) -> nat, id: Id, m: Memory): Solo<L> {
    Alone(k, Solo(k.start(id), m), fuel(id, m))
  }

  datatype Outcome = Outcome(memory: Memory, ran: seq<Id>, left: bool)

  /** The loop body of the rewritten kernel: an early return leaves the whole kernel. */
  function Visit<L>(k: Kernel<L>, fuel: (Id, Memory) -> nat, o: Outcome, id: Id): Outcome {
    if o.left then o
    else
      var s := Body(k, fuel, id, o.memory);
      Outcome(s.memory, o.ran + [id], k.next(s.l).Return?)
  }

  function VisitAll<L>(k: Kernel<L>, fuel: (Id, Memory) -> nat, o: Outcome, ids: seq<Id>): Outcome {
    if ids == [] then o else Visit(k, fuel, VisitAll(k, fuel, o, ids[..|ids| - 1]), ids[|ids| - 1])
  }

  /** The IDs of a grid in the loop's order, x fastest: the first n of a row, rows of a layer, layers. */
  function Row(y: nat, z: nat, n: nat): seq<Id> {
    if n == 0 then [] else Row(y, z, n - 1) + [Id(n - 1, y, z)]
  }

  function Layer(g: Grid, z: nat, n: nat): seq<Id> {
    if n == 0 then [] else Layer(g, z, n - 1) + Row(n - 1, z, g.x)
  }

  function Layers(g: Grid, n: nat): seq<Id> {
    if n == 0 then [] else Layers(g, n - 1) + Layer(g, n - 1, g.y)
  }

  function GridIds(g: Grid): seq<Id> {
    Layers(g, g.z)
  }

  /** How often an ID occurs. */
  function Times(ids: seq<Id>, id: Id): nat {
    if ids == [] then 0 else Times(ids[..|ids| - 1], id) + if ids[|ids| - 1] == id then 1 else 0
  }

  lemma {:induction false} TimesAdd(a: seq<Id>, b: seq<Id>, id: Id)
    ensures Times(a + b, id) == Times(a, id) + Times(b, id)
    decreases |b|
  {
    if b == [] {
      assert a + b == a;
    } else {
      assert (a + b)[..|a + b| - 1] == a + b[..|b| - 1];
      TimesAdd(a, b[..|b| - 1], id);
    }
  }

  lemma {:induction false} TimesPositive(ids: seq<Id>, id: Id)
    ensures id in ids <==> Times(ids, id) > 0
  {
    if ids != [] {
      TimesPositive(ids[..|ids| - 1], id);
      assert ids == ids[..|ids| - 1] + [ids[|ids| - 1]];
    }
  }

  lemma {:induction false} RowOnce(y: nat, z: nat, n: nat, id: Id)
    ensures Times(Row(y, z, n), id) == if id.x < n && id.y == y && id.z == z then 1 else 0
  {
    if n > 0 {
      RowOnce(y, z, n - 1, id);
      TimesAdd(Row(y, z, n - 1), [Id(n - 1, y, z)], id);
    }
  }

  lemma {:induction false} LayerOnce(g: Grid, z: nat, n: nat, id: Id)
    ensures Times(Layer(g, z, n), id) == if id.x < g.x && id.y < n && id.z == z then 1 else 0
  {
    if n > 0 {
      var before, row := Layer(g, z, n - 1), Row(n - 1, z, g.x);
      assert Layer(g, z, n) == before + row;
      LayerOnce(g, z, n - 1, id);
      RowOnce(n - 1, z, g.x, id);
      hide Times, Layer, Row;
      TimesAdd(before, row, id);
    }
  }

  lemma {:induction false} LayersOnce(g: Grid, n: nat, id: Id)
    ensures Times(Layers(g, n), id) == if id.x < g.x && id.y < g.y && id.z < n then 1 else 0
  {
    if n > 0 {
      var before, layer := Layers(g, n - 1), Layer(g, n - 1, g.y);
      assert Layers(g, n) == before + layer;
      LayersOnce(g, n - 1, id);
      LayerOnce(g, n - 1, g.y, id);
      hide Times, Layer, Row;
      TimesAdd(before, layer, id);
    }
  }

  predicate InGrid(g: Grid, id: Id) {
    id.x < g.x && id.y < g.y && id.z < g.z
  }

  /** Every global ID of the grid is visited exactly once, and nothing else is. */
  lemma GridOnce(g: Grid, id: Id)
    ensures Times(GridIds(g), id) == if InGrid(g, id) then 1 else 0
    ensures id in GridIds(g) <==> InGrid(g, id)
  {
    LayersOnce(g, g.z, id);
    TimesPositive(GridIds(g), id);
  }

  lemma {:induction false} VisitAppend<L>(k: Kernel<L>, fuel: (Id, Memory) -> nat, o: Outcome, a: seq<Id>, b: seq<Id>)
    ensures VisitAll(k, fuel, o, a + b) == VisitAll(k, fuel, VisitAll(k, fuel, o, a), b)
    decreases |b|
  {
    if b == [] {
      assert a + b == a;
    } else {
      VisitAppend(k, fuel, o, a, b[..|b| - 1]);
      assert (a + b)[..|a + b| - 1] == a + b[..|b| - 1];
    }
  }

  /** groups times local size on one axis, rejected when it does not fit 32 bits. */
  method LogicalExtent(groups: nat, local: int) returns (r: Result<nat>)
    requires groups < 0x1_0000_0000
    ensures r.Ok? <==> 0 < local < 0x1_0000_0000 && groups * local < 0x1_0000_0000
    ensures r.Ok? ==> r.value == groups * local
  {
    if !(local > 0 && local <= 0xffff_ffff) {
      return OutOfBounds;
    }
    var extent := groups * local;
    if extent > 0xffff_ffff {
      return OutOfBounds;
    }
    return Ok(extent);
  }

  /** One pass of the innermost loop. */
  method VisitOne<L>(k: Kernel<L>, fuel: (Id, Memory) -> nat, o: Outcome, id: Id) returns (after: Outcome)
    ensures after == Visit(k, fuel, o, id)
  {
    after := o;
    if !o.left {
      var memory, returned := RunBody(k, k.start(id), o.memory, fuel(id, o.memory));
      after := Outcome(memory, o.ran + [id], returned);
    }
  }

  /** The rewritten kernel on thread zero: three counting loops around the body. */
  method RunSerialized<L>(k: Kernel<L>, fuel: (Id, Memory) -> nat, g: Grid, memory: Memory) returns (o: Outcome)
    ensures o == VisitAll(k, fuel, Outcome(memory, [], false), GridIds(g))
  {
    o := Outcome(memory, [], false);
    ghost var start := o;
    NothingVisited(k, fuel, o, g, 0, 0);
    hide Visit, VisitAll, Row, Layer, Layers;
    var z := 0;
    while z < g.z
      invariant z <= g.z
      invariant o == VisitAll(k, fuel, start, Layers(g, z))
    {
      ghost var before := o;
      NothingVisited(k, fuel, o, g, 0, z);
      var y := 0;
      while y < g.y
        invariant y <= g.y
        invariant o == VisitAll(k, fuel, before, Layer(g, z, y))
      {
        ghost var rowStart := o;
        NothingVisited(k, fuel, o, g, y, z);
        var x := 0;
        while x < g.x
          invariant x <= g.x
          invariant o == VisitAll(k, fuel, rowStart, Row(y, z, x))
        {
          RowStep(k, fuel, rowStart, y, z, x);
          o := VisitOne(k, fuel, o, Id(x, y, z));
          x := x + 1;
        }
        VisitAppend(k, fuel, before, Layer(g, z, y), Row(y, z, x));
        LayerStep(g, z, y);
        y := y + 1;
      }
      VisitAppend(k, fuel, start, Layers(g, z), Layer(g, z, y));
      LayersStep(g, z);
      z := z + 1;
    }
  }

  lemma NothingVisited<L>(k: Kernel<L>, fuel: (Id, Memory) -> nat, o: Outcome, g: Grid, y: nat, z: nat)
    ensures VisitAll(k, fuel, o, Row(y, z, 0)) == VisitAll(k, fuel, o, Layer(g, z, 0))
        == VisitAll(k, fuel, o, Layers(g, 0)) == o
  {
  }

  lemma RowStep<L>(k: Kernel<L>, fuel: (Id, Memory) -> nat, o: Outcome, y: nat, z: nat, x: nat)
    ensures VisitAll(k, fuel, o, Row(y, z, x + 1)) == Visit(k, fuel, VisitAll(k, fuel, o, Row(y, z, x)), Id(x, y, z))
  {
    RowLength(y, z, x);
    assert Row(y, z, x + 1)[..x] == Row(y, z, x);
    hide Visit;
  }

  lemma LayerStep(g: Grid, z: nat, y: nat)
    ensures Layer(g, z, y + 1) == Layer(g, z, y) + Row(y, z, g.x)
  {
  }

  lemma LayersStep(g: Grid, z: nat)
    ensures Layers(g, z + 1) == Layers(g, z) + Layer(g, z, g.y)
  {
  }

  lemma {:induction false} RowLength(y: nat, z: nat, n: nat)
    ensures |Row(y, z, n)| == n
  {
    if n > 0 { RowLength(y, z, n - 1); }
  }

  // ----- the serial loop is one of the interleavings -----

  /** One thread taking n turns in a row moves exactly as its body alone, and moves nobody else. */
  lemma {:induction false} TurnsAlone<L>(k: Kernel<L>, c: Config<L>, id: Id, n: nat)
    requires id in c.locals
    ensures var s := Alone(k, Solo(c.locals[id], c.memory), n);
      Interleave(k, c, seq(n, i => id)) == Config(s.memory, c.locals[id := s.l])
    decreases n
  {
    var schedule := seq(n, i => id);
    if n > 0 {
      assert schedule[1..] == seq(n - 1, i => id);
      TurnsAlone(k, Turn(k, c, id), id, n - 1);
      if !Finished(k, c.locals[id]) {
        StatementIsAtomic(k, Solo(c.locals[id], c.memory));
      } else {
        assert c.locals[id := c.locals[id]] == c.locals;
      }
    } else {
      assert c.locals[id := c.locals[id]] == c.locals;
    }
  }

  lemma {:induction false} InterleaveAppend<L>(k: Kernel<L>, c: Config<L>, a: seq<Id>, b: seq<Id>)
    ensures Interleave(k, c, a + b) == Interleave(k, Interleave(k, c, a), b)
    decreases |a|
  {
    if a == [] {
      assert a + b == b;
    } else {
      assert (a + b)[1..] == a[1..] + b;
      InterleaveAppend(k, Turn(k, c, a[0]), a[1..], b);
    }
  }

  /** The schedule that gives every visited ID as many turns as its body needs, one ID after the other. */
  function SerialSchedule<L>(k: Kernel<L>, fuel: (Id, Memory) -> nat, o: Outcome, ids: seq<Id>): seq<Id> {
    if ids == [] then []
    else
      var last := |ids| - 1;
      SerialSchedule(k, fuel, o, ids[..last])
        + seq(fuel(ids[last], VisitAll(k, fuel, o, ids[..last]).memory), i => ids[last])
  }

  /** No body visited before the last one leaves early. */
  ghost predicate NoEarlyReturn<L>(k: Kernel<L>, fuel: (Id, Memory) -> nat, m: Memory, ids: seq<Id>) {
    forall n :: 0 <= n < |ids| ==> !VisitAll(k, fuel, Outcome(m, [], false), ids[..n]).left
  }

  predicate Distinct(ids: seq<Id>) {
    forall i, j :: 0 <= i < j < |ids| ==> ids[i] != ids[j]
  }

  /** Running the schedule for the first n IDs leaves memory as the serial loop does, those IDs finished
      and the others still at their start. */
  lemma {:induction false} SerialPrefix<L(!new)>(k: Kernel<L>, fuel: (Id, Memory) -> nat, m: Memory, ids: seq<Id>,
      n: nat)
    requires Terminates(k, fuel) && Distinct(ids) && n <= |ids| && NoEarlyReturn(k, fuel, m, ids)
    ensures var c := Interleave(k, Launch(k, ids, m), SerialSchedule(k, fuel, Outcome(m, [], false), ids[..n]));
      && c.memory == VisitAll(k, fuel, Outcome(m, [], false), ids[..n]).memory
      && c.locals.Keys == (set id | id in ids)
      && (forall i :: 0 <= i < n ==> Finished(k, c.locals[ids[i]]))
      && (forall i :: n <= i < |ids| ==> c.locals[ids[i]] == k.start(ids[i]))
    decreases n
  {
    if n > 0 {
      var o := Outcome(m, [], false);
      var id := ids[n - 1];
      SerialPrefix(k, fuel, m, ids, n - 1);
      assert ids[..n][..n - 1] == ids[..n - 1];
      var c := Interleave(k, Launch(k, ids, m), SerialSchedule(k, fuel, o, ids[..n - 1]));
      var turns := seq(fuel(id, c.memory), i => id);
      InterleaveAppend(k, Launch(k, ids, m), SerialSchedule(k, fuel, o, ids[..n - 1]), turns);
      TurnsAlone(k, c, id, fuel(id, c.memory));
      assert Finished(k, Body(k, fuel, id, c.memory).l);
    }
  }

  /** If no body before the last leaves early, the serial result is what some complete interleaving of the
      original invocations leaves in memory. */
  lemma SerialIsAnInterleaving<L(!new)>(k: Kernel<L>, fuel: (Id, Memory) -> nat, g: Grid, m: Memory)
    requires Terminates(k, fuel) && NoEarlyReturn(k, fuel, m, GridIds(g))
    ensures exists schedule :: var c := Interleave(k, Launch(k, GridIds(g), m), schedule);
      Complete(k, c) && c.memory == VisitAll(k, fuel, Outcome(m, [], false), GridIds(g)).memory
  {
    var ids := GridIds(g);
    GridDistinct(g);
    SerialPrefix(k, fuel, m, ids, |ids|);
    assert ids[..|ids|] == ids;
    var schedule := SerialSchedule(k, fuel, Outcome(m, [], false), ids);
    assert Complete(k, Interleave(k, Launch(k, ids, m), schedule));
  }

  lemma GridDistinct(g: Grid)
    ensures Distinct(GridIds(g))
  {
    var ids := GridIds(g);
    forall i, j | 0 <= i < j < |ids| ensures ids[i] != ids[j] {
      GridOnce(g, ids[i]);
      TimesAdd(ids[..j], ids[j..], ids[i]);
      assert ids == ids[..j] + ids[j..];
      TimesPositive(ids[..j], ids[..j][i]);
      TimesPositive(ids[j..], ids[j..][0]);
    }
  }

  // ----- the premise that no body returns early -----

  lemma {:induction false} Ran<L>(k: Kernel<L>, fuel: (Id, Memory) -> nat, m: Memory, ids: seq<Id>)
    ensures var o := VisitAll(k, fuel, Outcome(m, [], false), ids);
      |o.ran| <= |ids| && (!o.left ==> o.ran == ids)
  {
    hide Visit;
    if ids == [] {
      assert VisitAll(k, fuel, Outcome(m, [], false), ids) == Outcome(m, [], false);
    } else {
      var last := |ids| - 1;
      var start := Outcome(m, [], false);
      var before := VisitAll(k, fuel, start, ids[..last]);
      assert VisitAll(k, fuel, start, ids) == Visit(k, fuel, before, ids[last]);
      hide VisitAll;
      Ran(k, fuel, m, ids[..last]);
      VisitStep(k, fuel, before, ids[last]);
      assert ids[..last] + [ids[last]] == ids;
    }
  }

  lemma VisitStep<L>(k: Kernel<L>, fuel: (Id, Memory) -> nat, o: Outcome, id: Id)
    ensures var o' := Visit(k, fuel, o, id);
      |o'.ran| <= |o.ran| + 1 && (o.left ==> o' == o) && (!o.left ==> o'.ran == o.ran + [id])
  {
  }

  lemma {:induction false} LeftForGood<L>(k: Kernel<L>, fuel: (Id, Memory) -> nat, o: Outcome, ids: seq<Id>, n: nat)
    requires n <= |ids| && VisitAll(k, fuel, o, ids[..n]).left
    ensures VisitAll(k, fuel, o, ids) == VisitAll(k, fuel, o, ids[..n])
    decreases |ids|
  {
    if n == |ids| {
      assert ids[..n] == ids;
    } else {
      var init := ids[..|ids| - 1];
      assert init[..n] == ids[..n];
      LeftForGood(k, fuel, o, init, n);
    }
  }

  /** The body runs for every ID exactly when no body before the last leaves early. */
  lemma RunsEveryIdIff<L>(k: Kernel<L>, fuel: (Id, Memory) -> nat, m: Memory, ids: seq<Id>)
    ensures VisitAll(k, fuel, Outcome(m, [], false), ids).ran == ids <==> NoEarlyReturn(k, fuel, m, ids)
  {
    var start := Outcome(m, [], false);
    forall n | 0 <= n < |ids| && VisitAll(k, fuel, start, ids[..n]).left
      ensures |VisitAll(k, fuel, start, ids).ran| < |ids|
    {
      LeftForGood(k, fuel, start, ids, n);
      Ran(k, fuel, m, ids[..n]);
    }
    if NoEarlyReturn(k, fuel, m, ids) && ids != [] {
      var last := |ids| - 1;
      Ran(k, fuel, m, ids[..last]);
      assert !VisitAll(k, fuel, start, ids[..last]).left;
      assert ids[..last] + [ids[last]] == ids;
    }
  }

  // ----- which kernels meet the premise -----

  /** The kernel's text has no return statement: the guard the rewrite does not have. */
  ghost predicate NeverReturns<L(!new)>(k: Kernel<L>) {
    forall l :: !k.next(l).Return?
  }

  predicate LeavesEarly<L>(k: Kernel<L>, fuel: (Id, Memory) -> nat, id: Id, m: Memory) {
    k.next(Body(k, fuel, id, m).l).Return?
  }

  /** With such a guard the rewrite would always be right: the serial memory is that of a complete
      interleaving, for every grid and every memory. */
  lemma NoReturnIsEnough<L(!new)>(k: Kernel<L>, fuel: (Id, Memory) -> nat, g: Grid, m: Memory)
    requires Terminates(k, fuel) && NeverReturns(k)
    ensures VisitAll(k, fuel, Outcome(m, [], false), GridIds(g)).ran == GridIds(g)
    ensures exists schedule :: var c := Interleave(k, Launch(k, GridIds(g), m), schedule);
      Complete(k, c) && c.memory == VisitAll(k, fuel, Outcome(m, [], false), GridIds(g)).memory
  {
    assert forall id, m :: !LeavesEarly(k, fuel, id, m);
    forall n | 0 <= n < |GridIds(g)| ensures !VisitAll(k, fuel, Outcome(m, [], false), GridIds(g)[..n]).left {
      NeverLeaves(k, fuel, Outcome(m, [], false), GridIds(g)[..n]);
    }
    RunsEveryIdIff(k, fuel, m, GridIds(g));
    SerialIsAnInterleaving(k, fuel, g, m);
  }

  lemma {:induction false} NeverLeaves<L(!new)>(k: Kernel<L>, fuel: (Id, Memory) -> nat, o: Outcome, ids: seq<Id>)
    requires forall id, m :: !LeavesEarly(k, fuel, id, m)
    ensures VisitAll(k, fuel, o, ids).left == o.left
  {
    if ids != [] {
      var last := |ids| - 1;
      NeverLeaves(k, fuel, o, ids[..last]);
      assert !LeavesEarly(k, fuel, ids[last], VisitAll(k, fuel, o, ids[..last]).memory);
    }
  }

  predicate RunsAll<L>(k: Kernel<L>, fuel: (Id, Memory) -> nat, m: Memory, ids: seq<Id>) {
    VisitAll(k, fuel, Outcome(m, [], false), ids).ran == ids
  }

  /** The memory the bodies of some IDs leave, one after the other and each to its end. */
  function MemoryAfter<L>(k: Kernel<L>, fuel: (Id, Memory) -> nat, m: Memory, ids: seq<Id>): Memory {
    if ids == [] then m
    else Body(k, fuel, ids[|ids| - 1], MemoryAfter(k, fuel, m, ids[..|ids| - 1])).memory
  }

  /** The ith body returns early on the memory the earlier ones leave. */
  predicate LeavesAt<L>(k: Kernel<L>, fuel: (Id, Memory) -> nat, m: Memory, ids: seq<Id>, i: nat)
    requires i < |ids|
  {
    LeavesEarly(k, fuel, ids[i], MemoryAfter(k, fuel, m, ids[..i]))
  }

  lemma {:induction false} VisitedSoFar<L>(k: Kernel<L>, fuel: (Id, Memory) -> nat, m: Memory, ids: seq<Id>, n: nat)
    requires n <= |ids| && forall i :: 0 <= i < n ==> !LeavesAt(k, fuel, m, ids, i)
    ensures VisitAll(k, fuel, Outcome(m, [], false), ids[..n])
         == Outcome(MemoryAfter(k, fuel, m, ids[..n]), ids[..n], false)
    decreases n
  {
    if n > 0 {
      VisitedSoFar(k, fuel, m, ids, n - 1);
      assert !LeavesAt(k, fuel, m, ids, n - 1);
      assert ids[..n][..n - 1] == ids[..n - 1] && ids[..n] == ids[..n - 1] + [ids[n - 1]];
      hide Body;
    }
  }

  /** The loop stops with the first body that returns early on the memory the earlier ones leave. */
  lemma CutAtFirst<L>(k: Kernel<L>, fuel: (Id, Memory) -> nat, m: Memory, ids: seq<Id>, n: nat)
    requires n < |ids| && LeavesAt(k, fuel, m, ids, n)
    requires forall i :: 0 <= i < n ==> !LeavesAt(k, fuel, m, ids, i)
    ensures VisitAll(k, fuel, Outcome(m, [], false), ids)
         == Outcome(MemoryAfter(k, fuel, m, ids[..n + 1]), ids[..n + 1], true)
  {
    VisitedSoFar(k, fuel, m, ids, n);
    var start := Outcome(m, [], false);
    assert ids[..n + 1][..n] == ids[..n] && ids[..n + 1] == ids[..n] + [ids[n]];
    assert VisitAll(k, fuel, start, ids[..n + 1]) == Visit(k, fuel, VisitAll(k, fuel, start, ids[..n]), ids[n]);
    hide Body;
    LeftForGood(k, fuel, start, ids, n + 1);
  }

  /** So every ID is run exactly when no body but the last returns early on the memory the earlier ones leave. */
  lemma RunsAllIff<L>(k: Kernel<L>, fuel: (Id, Memory) -> nat, m: Memory, ids: seq<Id>)
    ensures RunsAll(k, fuel, m, ids) <==> forall i :: 0 <= i < |ids| - 1 ==> !LeavesAt(k, fuel, m, ids, i)
  {
    var n := FirstLeaver(k, fuel, m, ids);
    if n < |ids| {
      CutAtFirst(k, fuel, m, ids, n);
      assert RunsAll(k, fuel, m, ids) <==> n == |ids| - 1;
    } else {
      VisitedSoFar(k, fuel, m, ids, n);
      assert ids[..n] == ids;
    }
  }

  lemma FirstLeaver<L>(k: Kernel<L>, fuel: (Id, Memory) -> nat, m: Memory, ids: seq<Id>) returns (n: nat)
    ensures n <= |ids| && (forall i :: 0 <= i < n ==> !LeavesAt(k, fuel, m, ids, i))
    ensures n < |ids| ==> LeavesAt(k, fuel, m, ids, n)
  {
    hide LeavesAt;
    n := 0;
    while n < |ids| && !LeavesAt(k, fuel, m, ids, n)
      invariant n <= |ids| && (forall i :: 0 <= i < n ==> !LeavesAt(k, fuel, m, ids, i))
    {
      n := n + 1;
    }
  }

  // ----- returns that the ID alone decides -----

  ghost predicate ByIdAlone<L>(k: Kernel<L>, fuel: (Id, Memory) -> nat) {
    forall id, a, b :: LeavesEarly(k, fuel, id, a) == LeavesEarly(k, fuel, id, b)
  }

  /** The grid's last ID. */
  predicate Last(g: Grid, id: Id) {
    id.x + 1 == g.x && id.y + 1 == g.y && id.z + 1 == g.z
  }

  /** Where the ID alone decides whether a body returns early, the loops run every ID of a grid if and only if no
      ID of the grid but the last returns early: from any memory, tried on any other. */
  lemma GridRunsAllIff<L(!new)>(k: Kernel<L>, fuel: (Id, Memory) -> nat, g: Grid, m: Memory, tried: Memory)
    requires ByIdAlone(k, fuel)
    ensures RunsAll(k, fuel, m, GridIds(g))
         <==> forall id :: InGrid(g, id) && !Last(g, id) ==> !LeavesEarly(k, fuel, id, tried)
  {
    var ids := GridIds(g);
    RunsAllIff(k, fuel, m, ids);
    hide GridIds, LeavesEarly, RunsAll, MemoryAfter;
    forall i: nat | i < |ids| ensures InGrid(g, ids[i]) && (Last(g, ids[i]) <==> i == |ids| - 1) {
      GridLast(g, i);
    }
    forall i: nat | i < |ids| ensures LeavesAt(k, fuel, m, ids, i) == LeavesEarly(k, fuel, ids[i], tried) {
    }
    forall id | InGrid(g, id) ensures id in ids {
      GridOnce(g, id);
    }
  }

  lemma GridLast(g: Grid, i: nat)
    requires i < |GridIds(g)|
    ensures InGrid(g, GridIds(g)[i]) && (Last(g, GridIds(g)[i]) <==> i == |GridIds(g)| - 1)
  {
    var ids := GridIds(g);
    GridOnce(g, ids[i]);
    GridDistinct(g);
    LayersLast(g);
    hide GridIds;
    var last := |ids| - 1;
    assert ids[last] == Id(g.x - 1, g.y - 1, g.z - 1);
  }

  lemma LayersLast(g: Grid)
    requires GridIds(g) != []
    ensures g.x > 0 && g.y > 0 && g.z > 0 && GridIds(g)[|GridIds(g)| - 1] == Id(g.x - 1, g.y - 1, g.z - 1)
  {
    GridOnce(g, GridIds(g)[0]);
    var layer, row := Layer(g, g.z - 1, g.y), Row(g.y - 1, g.z - 1, g.x);
    assert GridIds(g) == Layers(g, g.z - 1) + layer && layer == Layer(g, g.z - 1, g.y - 1) + row;
    assert row == Row(g.y - 1, g.z - 1, g.x - 1) + [Id(g.x - 1, g.y - 1, g.z - 1)];
  }

  /** And then the serial memory is that of a complete interleaving. */
  lemma GuardedIsAnInterleaving<L(!new)>(k: Kernel<L>, fuel: (Id, Memory) -> nat, g: Grid, m: Memory, tried: Memory)
    requires Terminates(k, fuel) && ByIdAlone(k, fuel)
    requires forall id :: InGrid(g, id) && !Last(g, id) ==> !LeavesEarly(k, fuel, id, tried)
    ensures exists schedule :: var c := Interleave(k, Launch(k, GridIds(g), m), schedule);
      Complete(k, c) && c.memory == VisitAll(k, fuel, Outcome(m, [], false), GridIds(g)).memory
  {
    GridRunsAllIff(k, fuel, g, m, tried);
    RunsEveryIdIff(k, fuel, m, GridIds(g));
    SerialIsAnInterleaving(k, fuel, g, m);
  }

  // ----- arbitrary lists -----

  /** Over arbitrary lists of IDs, with an ID allowed to come twice, as no grid has it: every ID of every list is
      run, from every memory, if and only if no body ever returns early, run alone. */
  lemma EveryIdAlwaysIff<L(!new)>(k: Kernel<L>, fuel: (Id, Memory) -> nat)
    ensures (forall m, ids :: RunsAll(k, fuel, m, ids)) <==> (forall id, m :: !LeavesEarly(k, fuel, id, m))
  {
    if forall id, m :: !LeavesEarly(k, fuel, id, m) {
      forall m, ids ensures RunsAll(k, fuel, m, ids) {
        NeverLeaves(k, fuel, Outcome(m, [], false), ids);
        Ran(k, fuel, m, ids);
      }
    } else {
      var id, m :| LeavesEarly(k, fuel, id, m);
      FirstLeaves(k, fuel, m, [id, id]);
      assert !RunsAll(k, fuel, m, [id, id]);
    }
  }

  /** Where x is 0 a zero is stored at address 0; every other ID loads that word and returns early on a seven. */
  function ClearingKernel(): Kernel<(Id, int, Word)> {
    Kernel(
      id => (id, 0, 0),
      (l: (Id, int, Word)) =>
        if l.1 == 0 then if l.0.x == 0 then Store(0, 0) else Load(0)
        else if l.0.x != 0 && l.2 == 7 then Return else Halt,
      (l: (Id, int, Word), w: Word) => (l.0, l.1 + 1, w))
  }

  /** That is a difference: this kernel has a body that returns early from some memory, yet every ID of every grid
      is run, because the first body takes that memory away. */
  lemma GridsAreNotLists(g: Grid, m: Memory)
    ensures RunsAll(ClearingKernel(), (id, m) => 1, m, GridIds(g))
    ensures LeavesEarly(ClearingKernel(), (id, m) => 1, Id(1, 0, 0), map[0 := 7])
  {
    var k, fuel, ids := ClearingKernel(), (id: Id, m: Memory) => 1, GridIds(g);
    RunsAllIff(k, fuel, m, ids);
    if ids != [] {
      LayersLast(g);
      LayersFirst(g, g.z);
      hide GridIds, RunsAll;
      forall i | 0 <= i < |ids| ensures !LeavesAt(k, fuel, m, ids, i) {
        Cleared(m, ids, i);
      }
    }
    assert Body(k, fuel, Id(1, 0, 0), map[0 := 7]) == Solo((Id(1, 0, 0), 1, 7), map[0 := 7]);
  }

  lemma {:induction false} Cleared(m: Memory, ids: seq<Id>, i: nat)
    requires i < |ids| && ids[0].x == 0
    ensures i > 0 ==> Read(MemoryAfter(ClearingKernel(), (id, m) => 1, m, ids[..i]), 0) == 0
    ensures !LeavesAt(ClearingKernel(), (id, m) => 1, m, ids, i)
  {
    if i > 0 {
      Cleared(m, ids, i - 1);
      assert ids[..i][..i - 1] == ids[..i - 1];
    }
  }

  lemma FirstLeaves<L>(k: Kernel<L>, fuel: (Id, Memory) -> nat, m: Memory, ids: seq<Id>)
    requires ids != [] && LeavesEarly(k, fuel, ids[0], m)
    ensures VisitAll(k, fuel, Outcome(m, [], false), ids).ran == [ids[0]]
  {
    var start := Outcome(m, [], false);
    assert ids[..1] == [ids[0]] && ids[..1][..0] == [];
    assert VisitAll(k, fuel, start, ids[..1]) == Visit(k, fuel, start, ids[0]);
    LeftForGood(k, fuel, start, ids, 1);
  }

  /** If the first body returns early from some memory, every grid with two or more IDs is cut short there:
      its first body is the only one to run. */
  lemma FirstReturnCutsAll<L>(k: Kernel<L>, fuel: (Id, Memory) -> nat, m: Memory, g: Grid)
    requires g.x > 0 && g.y > 0 && g.z > 0 && g.x * g.y * g.z >= 2
    requires LeavesEarly(k, fuel, Id(0, 0, 0), m)
    ensures VisitAll(k, fuel, Outcome(m, [], false), GridIds(g)).ran == [Id(0, 0, 0)]
    ensures |GridIds(g)| == g.x * g.y * g.z && !RunsAll(k, fuel, m, GridIds(g))
  {
    LayersFirst(g, g.z);
    FirstLeaves(k, fuel, m, GridIds(g));
  }

  lemma {:induction false} LayerFirst(g: Grid, z: nat, n: nat)
    ensures |Layer(g, z, n)| == n * g.x && (g.x > 0 && n > 0 ==> Layer(g, z, n)[0] == Id(0, 0, z))
  {
    if n > 0 {
      var before, row := Layer(g, z, n - 1), Row(n - 1, z, g.x);
      assert Layer(g, z, n) == before + row;
      hide Layer, Row;
      LayerFirst(g, z, n - 1);
      RowFirst(n - 1, z, g.x);
      assert n * g.x == (n - 1) * g.x + g.x;
      assert n > 1 && g.x > 0 ==> |before| > 0 by { assert n > 1 && g.x > 0 ==> (n - 1) * g.x > 0; }
    } else {
      assert Layer(g, z, 0) == [];
    }
  }

  lemma {:induction false} RowFirst(y: nat, z: nat, n: nat)
    ensures |Row(y, z, n)| == n && (n > 0 ==> Row(y, z, n)[0] == Id(0, y, z))
  {
    if n > 0 { RowFirst(y, z, n - 1); }
  }

  lemma {:induction false} LayersFirst(g: Grid, n: nat)
    requires g.x > 0 && g.y > 0
    ensures |Layers(g, n)| == g.x * g.y * n && (n > 0 ==> |Layers(g, n)| > 0 && Layers(g, n)[0] == Id(0, 0, 0))
  {
    if n > 0 {
      LayersFirst(g, n - 1);
      LayerFirst(g, n - 1, g.y);
      assert g.x * g.y * n == g.x * g.y * (n - 1) + g.y * g.x;
    }
  }

  // ----- the order of the loops -----

  /** x is fastest, then y, then z. */
  lemma VisitedAt(g: Grid, id: Id)
    requires InGrid(g, id)
    ensures var at := id.x + g.x * (id.y + g.y * id.z);
      |GridIds(g)| == g.x * g.y * g.z && at < |GridIds(g)| && GridIds(g)[at] == id
  {
    LayersFirst(g, g.z);
    var within := g.x * id.y + id.x;
    LayersAt(g, g.z, id, within, g.x * g.y * id.z + within);
    OffsetIs(g, id);
    hide GridIds;
  }

  lemma OffsetIs(g: Grid, id: Id)
    ensures g.x * g.y * id.z + (g.x * id.y + id.x) == id.x + g.x * (id.y + g.y * id.z)
  {
    assert g.x * (id.y + g.y * id.z) == g.x * id.y + g.x * (g.y * id.z);
    assert g.x * (g.y * id.z) == g.x * g.y * id.z;
  }

  lemma {:induction false} RowAt(y: nat, z: nat, n: nat, x: nat)
    requires x < n
    ensures |Row(y, z, n)| == n && Row(y, z, n)[x] == Id(x, y, z)
  {
    RowLength(y, z, n - 1);
    if x < n - 1 { RowAt(y, z, n - 1, x); }
  }

  lemma {:induction false} LayerAt(g: Grid, z: nat, n: nat, x: nat, y: nat, at: nat)
    requires x < g.x && y < n && at == g.x * y + x
    ensures at < |Layer(g, z, n)| && Layer(g, z, n)[at] == Id(x, y, z)
  {
    var before, row := Layer(g, z, n - 1), Row(n - 1, z, g.x);
    assert Layer(g, z, n) == before + row;
    LayerFirst(g, z, n - 1);
    RowAt(n - 1, z, g.x, x);
    hide Layer, Row;
    if y < n - 1 {
      LayerAt(g, z, n - 1, x, y, at);
    } else {
      assert |before| == g.x * y;
    }
  }

  lemma {:induction false} LayersAt(g: Grid, n: nat, id: Id, within: nat, at: nat)
    requires id.x < g.x && id.y < g.y && id.z < n
    requires within == g.x * id.y + id.x && at == g.x * g.y * id.z + within
    ensures at < |Layers(g, n)| && Layers(g, n)[at] == id
  {
    var before, layer := Layers(g, n - 1), Layer(g, n - 1, g.y);
    assert Layers(g, n) == before + layer;
    LayersFirst(g, n - 1);
    LayerAt(g, n - 1, g.y, id.x, id.y, within);
    hide Layers, Layer;
    if id.z < n - 1 {
      LayersAt(g, n - 1, id, within, at);
    } else {
      assert |before| == g.x * g.y * id.z;
    }
  }

  /** A body whose first invocation returns at once while every other one turns the zero at address 0 into a one:
      if (gl_GlobalInvocationID.x == 0) return; spvAtomicCompareExchange64(p, 0, 1); */
  function LeavingKernel(): Kernel<(Id, int)> {
    Kernel(
      id => (id, 0),
      (l: (Id, int)) => if l.1 > 0 then Halt else if l.0.x == 0 then Return else CompareExchange(0, 0, 1),
      (l: (Id, int), w: Word) => (l.0, l.1 + 1))
  }

  /** Every interleaving of the original kernel keeps: an invocation past its exchange has left a one. */
  lemma {:induction false} StoreHappens(c: Config<(Id, int)>, schedule: seq<Id>, id: Id)
    requires id in c.locals && c.locals[id].0 == id && id.x > 0 && Read(c.memory, 0) in {0, 1}
    requires c.locals[id].1 > 0 ==> Read(c.memory, 0) == 1
    requires forall i :: i in c.locals ==> c.locals[i].0 == i
    ensures var c' := Interleave(LeavingKernel(), c, schedule);
      id in c'.locals && (Finished(LeavingKernel(), c'.locals[id]) ==> Read(c'.memory, 0) == 1)
    decreases |schedule|
  {
    if schedule != [] {
      StoreHappens(Turn(LeavingKernel(), c, schedule[0]), schedule[1..], id);
    }
  }

  /** So the premise is needed: here the rewritten kernel's memory is not that of any complete run. */
  lemma EarlyReturnBreaksIt(schedule: seq<Id>)
    ensures var g := Grid(2, 1, 1);
      var c := Interleave(LeavingKernel(), Launch(LeavingKernel(), GridIds(g), map[]), schedule);
      Complete(LeavingKernel(), c) ==>
        Read(c.memory, 0)
        != Read(VisitAll(LeavingKernel(), (id, m) => 2, Outcome(map[], [], false), GridIds(g)).memory, 0)
  {
    var g := Grid(2, 1, 1);
    GridOnce(g, Id(1, 0, 0));
    StoreHappens(Launch(LeavingKernel(), GridIds(g), map[]), schedule, Id(1, 0, 0));
    TwoIds();
    LeavesAtOnce();
    hide GridIds, Interleave, VisitAll, LeavingKernel, Launch;
  }

  lemma TwoIds()
    ensures GridIds(Grid(2, 1, 1)) == [Id(0, 0, 0), Id(1, 0, 0)]
  {
    assert Row(0, 0, 2) == [Id(0, 0, 0), Id(1, 0, 0)];
  }

  lemma LeavesAtOnce()
    ensures VisitAll(LeavingKernel(), (id, m) => 2, Outcome(map[], [], false), [Id(0, 0, 0), Id(1, 0, 0)])
         == Outcome(map[], [Id(0, 0, 0)], true)
  {
    var ids := [Id(0, 0, 0), Id(1, 0, 0)];
    var start := Outcome(map[], [], false);
    assert ids[..1] == [Id(0, 0, 0)];
    assert VisitAll(LeavingKernel(), (id, m) => 2, start, ids[..1]) == Outcome(map[], [Id(0, 0, 0)], true);
  }
}

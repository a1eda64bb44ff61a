/** The input queue between the viewer's append-only record file and Kit: reading, coalescing moves, dispatching
    at most one button or key transition per update, and turning drags into navigation. */
module InputQueue {
  import opened ByteStrings

  const MAGIC := 0x3149_4d49
  const VERSION := 1

  datatype Record = Record(magic: nat, version: nat, kind: nat, sequence: nat, x: real, y: real, code: nat,
      modifiers: nat)

  predicate Move(r: Record) {
    r.kind == 1
  }

  /** Button and key presses and releases. */
  predicate Transition(r: Record) {
    r.kind in {2, 3, 4, 5, 6, 7, 9, 10}
  }

  // ----- the queue -----

  /** A move directly behind a pending move takes its place. */
  function Push(pending: seq<Record>, r: Record): (after: seq<Record>)
    ensures after != [] && after[|after| - 1] == r
  {
    if pending != [] && Move(pending[|pending| - 1]) && Move(r) then pending[..|pending| - 1] + [r] else pending + [r]
  }

  function PushAll(pending: seq<Record>, records: seq<Record>): seq<Record> {
    if records == [] then pending else Push(PushAll(pending, records[..|records| - 1]), records[|records| - 1])
  }

  /** How many records one update dispatches: up to and including the first transition, or all. */
  function Burst(pending: seq<Record>): (n: nat)
    ensures n <= |pending| && (n == 0 <==> pending == [])
  {
    if pending == [] then 0 else if Transition(pending[0]) then 1 else 1 + Burst(pending[1..])
  }

  /** `out` is `ins` in order, less only moves directly followed by a move. */
  predicate Thinned(out: seq<Record>, ins: seq<Record>)
    decreases |ins|
  {
    if ins == [] then out == []
    else
      && out != [] && out[|out| - 1] == ins[|ins| - 1]
      && (Thinned(out[..|out| - 1], ins[..|ins| - 1])
          || (|ins| >= 2 && Move(ins[|ins| - 2]) && Move(ins[|ins| - 1])
              && Thinned(out[..|out| - 1] + [ins[|ins| - 2]], ins[..|ins| - 1])))
  }

  /** The last step of a thinning: the record was appended, or it took the place of the move before it. */
  lemma ThinnedCases(out: seq<Record>, ins: seq<Record>)
      returns (o: seq<Record>, i: seq<Record>, r: Record, replaced: Option<Record>)
    requires Thinned(out, ins) && ins != []
    ensures out == o + [r] && ins == i + [r]
    ensures replaced.None? ==> Thinned(o, i)
    ensures replaced.Some? ==> Move(replaced.value) && Move(r) && Thinned(o + [replaced.value], i)
  {
    o, i, r := out[..|out| - 1], ins[..|ins| - 1], ins[|ins| - 1];
    replaced := if Thinned(o, i) then None else Some(ins[|ins| - 2]);
  }

  predicate TakesPlace(pending: seq<Record>, r: Record) {
    pending != [] && Move(pending[|pending| - 1]) && Move(r)
  }

  lemma PushAppends(done: seq<Record>, pending: seq<Record>, r: Record)
    requires !TakesPlace(pending, r)
    ensures done + Push(pending, r) == (done + pending) + [r]
  {
    hide Move;
  }

  lemma PushReplaces(done: seq<Record>, pending: seq<Record>, r: Record) returns (init: seq<Record>, last: Record)
    requires TakesPlace(pending, r)
    ensures Move(last) && Move(r)
    ensures done + pending == init + [last] && done + Push(pending, r) == init + [r]
  {
    hide Move;
    init, last := done + pending[..|pending| - 1], pending[|pending| - 1];
  }

  /** Reading one record keeps that: whether it is appended or takes a pending move's place. */
  lemma PushThins(done: seq<Record>, pending: seq<Record>, ins: seq<Record>, r: Record)
    requires Thinned(done + pending, ins)
    ensures Thinned(done + Push(pending, r), ins + [r])
  {
    hide Thinned, Push, Move, TakesPlace;
    if TakesPlace(pending, r) {
      var init, last := PushReplaces(done, pending, r);
      ReplacedThins(init, last, ins, r);
    } else {
      PushAppends(done, pending, r);
      AppendedThins(done + pending, ins, r);
    }
  }

  lemma AppendedThins(out: seq<Record>, ins: seq<Record>, r: Record)
    requires Thinned(out, ins)
    ensures Thinned(out + [r], ins + [r])
  {
    assert (out + [r])[..|out|] == out && (ins + [r])[..|ins|] == ins;
  }

  lemma ReplacedThins(out: seq<Record>, last: Record, ins: seq<Record>, r: Record)
    requires Thinned(out + [last], ins) && Move(last) && Move(r)
    ensures Thinned(out + [r], ins + [r])
  {
    assert ins != [] && ins[|ins| - 1] == last;
    assert (out + [r])[..|out|] == out && (ins + [r])[..|ins|] == ins;
    hide Move;
  }

  lemma {:induction false} PushAllThins(done: seq<Record>, pending: seq<Record>, ins: seq<Record>, records: seq<Record>)
    requires Thinned(done + pending, ins)
    ensures Thinned(done + PushAll(pending, records), ins + records)
  {
    hide Thinned, Push;
    if records == [] {
      assert ins + records == ins;
    } else {
      var rest, last := records[..|records| - 1], records[|records| - 1];
      PushAllThins(done, pending, ins, rest);
      PushThins(done, PushAll(pending, rest), ins + rest, last);
      assert ins + records == (ins + rest) + [last];
    }
  }

  function Others(records: seq<Record>): seq<Record> {
    if records == [] then []
    else Others(records[..|records| - 1]) + (if Move(records[|records| - 1]) then [] else [records[|records| - 1]])
  }

  /** Nothing but moves is ever dropped, and the last record never is. */
  lemma {:induction false} OthersKept(out: seq<Record>, ins: seq<Record>)
    requires Thinned(out, ins)
    ensures Others(out) == Others(ins) && |out| <= |ins|
    ensures ins != [] ==> out != [] && out[|out| - 1] == ins[|ins| - 1]
    decreases |ins|
  {
    if ins != [] {
      var o, i := out[..|out| - 1], ins[..|ins| - 1];
      if Thinned(o, i) {
        OthersKept(o, i);
      } else {
        var kept := o + [ins[|ins| - 2]];
        OthersKept(kept, i);
        assert kept[..|kept| - 1] == o;
      }
    }
  }

  // ----- draining -----

  function Transitions(pending: seq<Record>): nat {
    if pending == [] then 0 else (if Transition(pending[0]) then 1 else 0) + Transitions(pending[1..])
  }

  /** What is pending after n updates with nothing new to read. */
  function Rest(pending: seq<Record>, n: nat): seq<Record> {
    if n == 0 then pending else Rest(pending[Burst(pending)..], n - 1)
  }

  /** One update dispatches at most one transition, and last; it takes one off what is pending, or all. */
  lemma {:induction false} BurstHasOneTransition(pending: seq<Record>)
    ensures forall k :: 0 <= k < Burst(pending) - 1 ==> pending[k].kind !in {2, 3, 4, 5, 6, 7, 9, 10}
    ensures Burst(pending) < |pending| ==> pending[Burst(pending) - 1].kind in {2, 3, 4, 5, 6, 7, 9, 10}
    ensures Transitions(pending) == Transitions(pending[Burst(pending)..])
         + (if Burst(pending) > 0 && Transition(pending[Burst(pending) - 1]) then 1 else 0)
  {
    if pending != [] && !Transition(pending[0]) {
      BurstHasOneTransition(pending[1..]);
      assert pending[Burst(pending)..] == pending[1..][Burst(pending[1..])..];
    }
  }

  /** The queue drains: one update for each transition, and one more for what follows the last. */
  lemma {:induction false} Drains(pending: seq<Record>)
    ensures Rest(pending, Transitions(pending) + 1) == []
    decreases Transitions(pending)
  {
    BurstHasOneTransition(pending);
    var rest := pending[Burst(pending)..];
    if rest == [] {
      NothingLeft(Transitions(pending));
    } else {
      Drains(rest);
    }
  }

  lemma {:induction false} NothingLeft(n: nat)
    ensures Rest([], n) == []
  {
    if n > 0 {
      assert Burst([]) == 0;
      NothingLeft(n - 1);
    }
  }

  // ----- the sequence filter -----

  predicate WellFormed(r: Record) {
    r.magic == MAGIC && r.version == VERSION
  }

  /** The sequence number of the last record the filter let through, 0 at the start. */
  function Latest(records: seq<Record>): nat {
    if records == [] then 0
    else
      var before, r := Latest(records[..|records| - 1]), records[|records| - 1];
      if WellFormed(r) && r.sequence > before then r.sequence else before
  }

  /** The records the filter lets through: well formed, and newer than all let through before. */
  function Passing(records: seq<Record>): seq<Record> {
    if records == [] then []
    else
      var rest, r := records[..|records| - 1], records[|records| - 1];
      Passing(rest) + (if WellFormed(r) && r.sequence > Latest(rest) then [r] else [])
  }

  function Top(records: seq<Record>): nat {
    if records == [] then 0 else records[|records| - 1].sequence
  }

  /** A file as the viewer writes it: well-formed records, each newer than the one before, the first above 0. */
  predicate Increasing(records: seq<Record>) {
    records == [] || (
      var rest, r := records[..|records| - 1], records[|records| - 1];
      Increasing(rest) && WellFormed(r) && r.sequence > Top(rest))
  }

  lemma {:induction false} AllPass(records: seq<Record>)
    requires Increasing(records)
    ensures Passing(records) == records && Latest(records) == Top(records)
  {
    if records != [] {
      var rest := records[..|records| - 1];
      AllPass(rest);
      assert records == rest + [records[|records| - 1]];
      hide WellFormed;
    }
  }

  lemma {:induction false} ThinnedIncreasing(out: seq<Record>, ins: seq<Record>)
    requires Thinned(out, ins) && Increasing(ins)
    ensures Increasing(out) && Top(out) == Top(ins)
    decreases |ins|
  {
    if ins != [] {
      var o, i := out[..|out| - 1], ins[..|ins| - 1];
      if Thinned(o, i) {
        ThinnedIncreasing(o, i);
      } else {
        var kept := o + [ins[|ins| - 2]];
        ThinnedIncreasing(kept, i);
        assert kept[..|kept| - 1] == o;
      }
    }
  }

  /** No record passes twice, and none that is older than one that passed: what passes is a file as the viewer
      writes it. */
  lemma {:induction false} PassingIncreases(records: seq<Record>)
    ensures Increasing(Passing(records)) && Top(Passing(records)) == Latest(records)
  {
    if records != [] {
      var rest, r := records[..|records| - 1], records[|records| - 1];
      PassingIncreases(rest);
      var p := Passing(rest);
      assert p + [] == p && (p + [r])[..|p|] == p;
      hide WellFormed;
    }
  }

  // ----- navigation -----

  datatype Mode = Orbit | Pan
  datatype Drag = Drag(mode: Mode, x: real, y: real)

  /** The navigation fields: a mode and the previous position while a drag is under way. */
  datatype Navigation = Idle | Dragging(mode: Mode, x: real, y: real)

  predicate Alt(r: Record) {
    r.modifiers / 4 % 2 == 1
  }

  function After(n: Navigation, r: Record): Navigation {
    if r.kind == 2 && Alt(r) then Dragging(Orbit, r.x, r.y)
    else if r.kind == 6 && Alt(r) then Dragging(Pan, r.x, r.y)
    else if n.Idle? then n
    else if r.kind == 1 then Dragging(n.mode, r.x, r.y)
    else if (r.kind == 3 && n.mode == Orbit) || (r.kind == 7 && n.mode == Pan) then Idle
    else n
  }

  /** The camera movement a record applies. */
  function Movement(n: Navigation, r: Record): Option<Drag> {
    if r.kind == 1 && n.Dragging? then Some(Drag(n.mode, r.x - n.x, r.y - n.y)) else None
  }

  /** The record belongs to a navigation gesture and is not forwarded. */
  predicate Gesture(n: Navigation, r: Record) {
    || ((r.kind == 2 || r.kind == 6) && Alt(r))
    || Movement(n, r).Some?
    || (n.Dragging? && After(n, r).Idle?)
  }

  function AfterAll(n: Navigation, records: seq<Record>): Navigation {
    if records == [] then n else After(AfterAll(n, records[..|records| - 1]), records[|records| - 1])
  }

  /** Every drag of a stream with the total of the movements it applied; index 0 is the drag already under way. */
  function Drags(n: Navigation, records: seq<Record>): (d: seq<Drag>)
    ensures |d| > 0
  {
    if records == [] then [if n.Dragging? then Drag(n.mode, 0.0, 0.0) else Drag(Orbit, 0.0, 0.0)]
    else
      var rest, r := records[..|records| - 1], records[|records| - 1];
      Moved(Drags(n, rest), AfterAll(n, rest), r)
  }

  /** One more record: a press with Alt starts a drag, a movement adds to the latest. */
  function Moved(drags: seq<Drag>, before: Navigation, r: Record): (d: seq<Drag>)
    requires |drags| > 0
    ensures |d| > 0
  {
    if (r.kind == 2 || r.kind == 6) && Alt(r) then drags + [Drag(if r.kind == 2 then Orbit else Pan, 0.0, 0.0)]
    else match Movement(before, r)
      case None => drags
      case Some(m) =>
        var last := drags[|drags| - 1];
        drags[..|drags| - 1] + [Drag(last.mode, last.x + m.x, last.y + m.y)]
  }

  /** A move directly before another one changes neither the total nor where the drag is. */
  lemma MoveAbsorbed(drags: seq<Drag>, n: Navigation, a: Record, b: Record)
    requires |drags| > 0 && Move(a) && Move(b)
    ensures After(After(n, a), b) == After(n, b)
    ensures Moved(Moved(drags, n, a), After(n, a), b) == Moved(drags, n, b)
  {
    if n.Dragging? {
      var last := drags[|drags| - 1];
      var once := Moved(drags, n, a);
      assert once[..|once| - 1] == drags[..|drags| - 1];
      assert last.x + (a.x - n.x) + (b.x - a.x) == last.x + (b.x - n.x);
      assert last.y + (a.y - n.y) + (b.y - a.y) == last.y + (b.y - n.y);
    }
  }

  lemma DragsStep(n: Navigation, rest: seq<Record>, r: Record)
    ensures Drags(n, rest + [r]) == Moved(Drags(n, rest), AfterAll(n, rest), r)
    ensures AfterAll(n, rest + [r]) == After(AfterAll(n, rest), r)
  {
    assert (rest + [r])[..|rest|] == rest;
  }

  /** Coalescing leaves every drag's total movement unchanged, and the navigation ends up in the same place. */
  lemma {:induction false} DragTotalsKept(n: Navigation, out: seq<Record>, ins: seq<Record>)
    requires Thinned(out, ins)
    ensures Drags(n, out) == Drags(n, ins) && AfterAll(n, out) == AfterAll(n, ins)
    decreases |ins|
  {
    hide Drags, AfterAll, Moved, After, Thinned, Move;
    if ins != [] {
      var o, i, r, replaced := ThinnedCases(out, ins);
      DragsStep(n, o, r);
      DragsStep(n, i, r);
      if replaced.None? {
        DragTotalsKept(n, o, i);
      } else {
        DragTotalsKept(n, o + [replaced.value], i);
        DragsStep(n, o, replaced.value);
        MoveAbsorbed(Drags(n, o), AfterAll(n, o), replaced.value, r);
      }
    } else {
      EmptyThinned(out);
    }
  }

  lemma EmptyThinned(out: seq<Record>)
    requires Thinned(out, [])
    ensures out == []
  {
  }

  // ----- what reaches Kit -----

  /** All movements a stream applies, in order. */
  function Movements(n: Navigation, records: seq<Record>): seq<Drag> {
    if records == [] then []
    else
      var rest, r := records[..|records| - 1], records[|records| - 1];
      Movements(n, rest) + (match Movement(AfterAll(n, rest), r) case None => [] case Some(m) => [m])
  }

  /** The drag each movement belongs to: how many drags have been started before it. */
  function DragNumbers(n: Navigation, records: seq<Record>): (d: seq<nat>)
    ensures |d| == |Movements(n, records)|
  {
    if records == [] then []
    else
      var rest, r := records[..|records| - 1], records[|records| - 1];
      DragNumbers(n, rest) + (if Movement(AfterAll(n, rest), r).Some? then [|Drags(n, rest)| - 1] else [])
  }

  /** The movements numbered k, added up. */
  function Total(movements: seq<Drag>, numbers: seq<nat>, k: nat): (real, real)
    requires |movements| == |numbers|
  {
    if movements == [] then (0.0, 0.0)
    else
      var last := |movements| - 1;
      var t := Total(movements[..last], numbers[..last], k);
      if numbers[last] == k then Plus(t, movements[last]) else t
  }

  function Plus(t: (real, real), m: Drag): (real, real) {
    (t.0 + m.x, t.1 + m.y)
  }

  lemma TotalAppend(movements: seq<Drag>, numbers: seq<nat>, m: Drag, number: nat, k: nat)
    requires |movements| == |numbers|
    ensures Total(movements + [m], numbers + [number], k)
         == if number == k then Plus(Total(movements, numbers, k), m) else Total(movements, numbers, k)
  {
    assert (movements + [m])[..|movements|] == movements && (numbers + [number])[..|numbers|] == numbers;
  }

  lemma StartAndMovement(n: Navigation, r: Record)
    ensures (r.kind == 2 || r.kind == 6) && Alt(r) ==> Movement(n, r).None?
  {
  }

  /** What drag number k moved in all; nothing when there is no such drag. */
  function DragTotal(drags: seq<Drag>, k: nat): (real, real) {
    if k < |drags| then (drags[k].x, drags[k].y) else (0.0, 0.0)
  }

  /** A drag's entry is the sum of the movements that belong to it. */
  lemma {:induction false} TotalsAreDrags(n: Navigation, records: seq<Record>, k: nat)
    ensures Total(Movements(n, records), DragNumbers(n, records), k) == DragTotal(Drags(n, records), k)
  {
    if records == [] {
      assert Total([], [], k) == (0.0, 0.0);
    } else {
      var rest, r := records[..|records| - 1], records[|records| - 1];
      assert records == rest + [r];
      TotalsAreDrags(n, rest, k);
      MovementsStep(n, rest, r);
      MovedTotal(Drags(n, rest), AfterAll(n, rest), r, k);
      hide *;
      if Movement(AfterAll(n, rest), r).Some? {
        var m := Movement(AfterAll(n, rest), r).value;
        TotalAppend(Movements(n, rest), DragNumbers(n, rest), m, |Drags(n, rest)| - 1, k);
      }
    }
  }

  lemma MovementsStep(n: Navigation, rest: seq<Record>, r: Record)
    ensures Drags(n, rest + [r]) == Moved(Drags(n, rest), AfterAll(n, rest), r)
    ensures Movement(AfterAll(n, rest), r).None? ==> Movements(n, rest + [r]) == Movements(n, rest)
    ensures Movement(AfterAll(n, rest), r).None? ==> DragNumbers(n, rest + [r]) == DragNumbers(n, rest)
    ensures Movement(AfterAll(n, rest), r).Some? ==>
      Movements(n, rest + [r]) == Movements(n, rest) + [Movement(AfterAll(n, rest), r).value]
    ensures Movement(AfterAll(n, rest), r).Some? ==>
      DragNumbers(n, rest + [r]) == DragNumbers(n, rest) + [|Drags(n, rest)| - 1]
  {
    assert (rest + [r])[..|rest|] == rest;
    hide AfterAll, Movement, Moved;
  }

  lemma MovedTotal(drags: seq<Drag>, before: Navigation, r: Record, k: nat)
    requires drags != []
    ensures Movement(before, r).None? || |drags| - 1 != k ==>
      DragTotal(Moved(drags, before, r), k) == DragTotal(drags, k)
    ensures Movement(before, r).Some? && |drags| - 1 == k ==>
      DragTotal(Moved(drags, before, r), k) == Plus(DragTotal(drags, k), Movement(before, r).value)
  {
    StartAndMovement(before, r);
    hide Movement, Alt;
  }

  // ----- what a drag is, from its press to its release -----

  predicate Starts(r: Record) {
    (r.kind == 2 || r.kind == 6) && Alt(r)
  }

  /** The left button orbits, the middle one pans. */
  function ModeOf(press: Record): Mode {
    if press.kind == 2 then Orbit else Pan
  }

  predicate Releases(press: Record, r: Record) {
    r.kind == if press.kind == 2 then 3 else 7
  }

  /** Where the pointer last moved to since the press, or the press itself. */
  function LastAt(press: Record, since: seq<Record>): Record {
    if since == [] then press
    else if Move(since[|since| - 1]) then since[|since| - 1]
    else LastAt(press, since[..|since| - 1])
  }

  /** After some records the drag of a press is under way with the pointer at a place: it is in the mode of its
      button, its total is from the press to that place, along each axis, and it follows the drags before. */
  predicate UnderWay(n: Navigation, records: seq<Record>, before: seq<Record>, press: Record, at: Record) {
    && Drags(n, records) == Drags(n, before) + [Drag(ModeOf(press), at.x - press.x, at.y - press.y)]
    && AfterAll(n, records) == Dragging(ModeOf(press), at.x, at.y)
  }

  /** Neither another press that starts a drag nor the release of this one. */
  predicate Continues(press: Record, since: seq<Record>) {
    forall r :: r in since ==> !Starts(r) && !Releases(press, r)
  }

  /** So it is whatever came before the press, and whatever has come since that does not end the drag. */
  lemma {:induction false} DragUnderWay(n: Navigation, before: seq<Record>, press: Record, since: seq<Record>)
    requires Starts(press) && Continues(press, since)
    ensures UnderWay(n, before + [press] + since, before, press, LastAt(press, since))
    decreases |since|
  {
    if since == [] {
      assert before + [press] + since == before + [press];
      DragStarts(n, before, press);
    } else {
      var rest, r := since[..|since| - 1], since[|since| - 1];
      assert before + [press] + since == (before + [press] + rest) + [r];
      assert Continues(press, rest) && !Starts(r) && !Releases(press, r);
      hide UnderWay, Starts, Releases, Continues;
      DragUnderWay(n, before, press, rest);
      UnderWayStep(n, before + [press] + rest, before, press, LastAt(press, rest), r);
    }
  }

  lemma UnderWayStep(n: Navigation, records: seq<Record>, before: seq<Record>, press: Record, at: Record, r: Record)
    requires Starts(press) && !Starts(r) && !Releases(press, r) && UnderWay(n, records, before, press, at)
    ensures UnderWay(n, records + [r], before, press, if Move(r) then r else at)
  {
    hide Drags, AfterAll, Moved, After, Starts, Releases, ModeOf, Move, Alt;
    DragsStep(n, records, r);
    MovedOn(Drags(n, before), press, at, r);
  }

  lemma DragStarts(n: Navigation, before: seq<Record>, press: Record)
    requires Starts(press)
    ensures UnderWay(n, before + [press], before, press, press)
  {
    DragsStep(n, before, press);
    hide Drags, AfterAll;
  }

  lemma MovedOn(drags: seq<Drag>, press: Record, at: Record, r: Record)
    requires Starts(press) && !Starts(r) && !Releases(press, r)
    ensures var d, to := Drag(ModeOf(press), at.x - press.x, at.y - press.y), if Move(r) then r else at;
      && Moved(drags + [d], Dragging(ModeOf(press), at.x, at.y), r)
         == drags + [Drag(ModeOf(press), to.x - press.x, to.y - press.y)]
      && After(Dragging(ModeOf(press), at.x, at.y), r) == Dragging(ModeOf(press), to.x, to.y)
  {
    var d := Drag(ModeOf(press), at.x - press.x, at.y - press.y);
    assert (drags + [d])[..|drags|] == drags;
  }

  /** Its button's release ends it, and leaves every total as it is. */
  lemma DragReleased(n: Navigation, before: seq<Record>, press: Record, since: seq<Record>, release: Record)
    requires Starts(press) && Continues(press, since) && Releases(press, release)
    ensures var records := before + [press] + since;
      AfterAll(n, records + [release]) == Idle && Drags(n, records + [release]) == Drags(n, records)
  {
    DragUnderWay(n, before, press, since);
    DragsStep(n, before + [press] + since, release);
    hide Drags, AfterAll;
  }

  /** The modes of the presses that start a drag, in order. */
  function StartModes(records: seq<Record>): seq<Mode> {
    if records == [] then []
    else
      var r := records[|records| - 1];
      StartModes(records[..|records| - 1]) + (if Starts(r) then [ModeOf(r)] else [])
  }

  /** There is one drag for each such press, in its mode, after the one already under way. */
  lemma {:induction false} DragModes(n: Navigation, records: seq<Record>)
    ensures |Drags(n, records)| == 1 + |StartModes(records)|
    ensures forall k :: 0 <= k < |StartModes(records)| ==> Drags(n, records)[1 + k].mode == StartModes(records)[k]
    ensures n.Dragging? ==> Drags(n, records)[0].mode == n.mode
    ensures AfterAll(n, records).Dragging? ==>
      AfterAll(n, records).mode == Drags(n, records)[|StartModes(records)|].mode
  {
    if records != [] {
      DragModes(n, records[..|records| - 1]);
      hide Alt;
    }
  }

  /** Every movement applied is in the mode of the drag it belongs to. */
  lemma {:induction false} MovementModes(n: Navigation, records: seq<Record>, j: nat)
    requires j < |Movements(n, records)|
    ensures DragNumbers(n, records)[j] < |Drags(n, records)|
    ensures Movements(n, records)[j].mode == Drags(n, records)[DragNumbers(n, records)[j]].mode
  {
    var rest, r := records[..|records| - 1], records[|records| - 1];
    assert records == rest + [r];
    DragModes(n, rest);
    MovementsStep(n, rest, r);
    ModesStay(Drags(n, rest), AfterAll(n, rest), r);
    if j < |Movements(n, rest)| {
      MovementModes(n, rest, j);
    }
    hide Movements, DragNumbers, Drags, AfterAll, Moved, StartModes;
  }

  lemma ModesStay(drags: seq<Drag>, before: Navigation, r: Record)
    requires drags != []
    ensures var d := Moved(drags, before, r);
      |d| >= |drags| && forall k :: 0 <= k < |drags| ==> d[k].mode == drags[k].mode
  {
  }

  /** The codes with a Kit key. */
  predicate KnownKey(code: nat) {
    code <= 9 || 11 <= code <= 51 || code == 53 || 55 <= code <= 62 || code in {65, 67, 69, 71, 75, 76, 78, 81, 91, 92}
    || 82 <= code <= 89 || 96 <= code <= 101 || code in {103, 109, 111} || 114 <= code <= 126
  }

  /** Which records are handed on to Kit's own devices: mouse events that are no gesture, known keys, and
      characters that exist. */
  predicate HandedOn(n: Navigation, r: Record) {
    || (1 <= r.kind <= 8 && !Gesture(n, r))
    || (r.kind in {9, 10} && KnownKey(r.code))
    || (r.kind == 11 && r.code < 0x11_0000)
  }

  /** Alt is the third modifier bit: above whole eights it makes four or more. */
  lemma AltIs(r: Record, high: nat, low: nat)
    requires r.modifiers == 8 * high + low && low < 8
    ensures Alt(r) <==> low >= 4
  {
  }

  /** The right button and the scroll wheel always reach Kit, the left and middle buttons are taken only for a drag,
      a move only during one; keys and characters reach it if Kit has them; nothing else does. */
  lemma HandedOnIs(n: Navigation, r: Record)
    ensures r.kind in {4, 5, 8} ==> HandedOn(n, r)
    ensures r.kind in {2, 6} ==> (HandedOn(n, r) <==> !Alt(r))
    ensures r.kind == 1 ==> (HandedOn(n, r) <==> n == Idle)
    ensures r.kind == 3 ==> (HandedOn(n, r) <==> !(n.Dragging? && n.mode == Orbit))
    ensures r.kind == 7 ==> (HandedOn(n, r) <==> !(n.Dragging? && n.mode == Pan))
    ensures r.kind in {9, 10} ==> (HandedOn(n, r) <==> KnownKey(r.code))
    ensures r.kind == 11 ==> (HandedOn(n, r) <==> r.code < 0x11_0000)
    ensures r.kind == 0 || r.kind > 11 ==> !HandedOn(n, r)
  {
    hide KnownKey, Alt;
  }

  function Forwarded(n: Navigation, records: seq<Record>): seq<Record> {
    if records == [] then []
    else
      var rest, r := records[..|records| - 1], records[|records| - 1];
      Forwarded(n, rest) + (if HandedOn(AfterAll(n, rest), r) then [r] else [])
  }

  lemma ForwardedStep(n: Navigation, rest: seq<Record>, r: Record)
    ensures Forwarded(n, rest + [r]) == Forwarded(n, rest) + (if HandedOn(AfterAll(n, rest), r) then [r] else [])
    ensures Others(rest + [r]) == Others(rest) + (if Move(r) then [] else [r])
  {
    assert (rest + [r])[..|rest|] == rest;
  }

  /** Coalescing takes nothing but moves from what is handed on to Kit. */
  lemma {:induction false} ForwardedKept(n: Navigation, out: seq<Record>, ins: seq<Record>)
    requires Thinned(out, ins)
    ensures Others(Forwarded(n, out)) == Others(Forwarded(n, ins))
    decreases |ins|
  {
    hide Drags, AfterAll, After, Thinned, Move, Forwarded, HandedOn, Others;
    if ins != [] {
      var o, i, r, replaced := ThinnedCases(out, ins);
      ForwardedStep(n, o, r);
      ForwardedStep(n, i, r);
      ForwardedStep(n, Forwarded(n, o), r);
      ForwardedStep(n, Forwarded(n, i), r);
      assert Forwarded(n, o) + [] == Forwarded(n, o) && Forwarded(n, i) + [] == Forwarded(n, i);
      if replaced.None? {
        DragTotalsKept(n, o, i);
        ForwardedKept(n, o, i);
      } else {
        MoveNotHandedOn(n, o, replaced.value);
        ForwardedKept(n, o + [replaced.value], i);
        MoveIsNoOther(Forwarded(n, o), r);
        MoveIsNoOther(Forwarded(n, i), r);
      }
    } else {
      EmptyThinned(out);
    }
  }

  lemma MoveIsNoOther(records: seq<Record>, r: Record)
    requires Move(r)
    ensures Others(records + [r]) == Others(records)
  {
    assert (records + [r])[..|records|] == records;
  }

  lemma MoveNotHandedOn(n: Navigation, o: seq<Record>, r: Record)
    requires Move(r)
    ensures Others(Forwarded(n, o + [r])) == Others(Forwarded(n, o))
  {
    ForwardedStep(n, o, r);
    MoveIsNoOther(Forwarded(n, o), r);
    assert Forwarded(n, o) + [] == Forwarded(n, o);
  }

  // ----- the extension -----

  /** The extension's fields; a record's worth of the file is one element. Ghost fields keep what was read and
      dispatched since the file last shrank, and where navigation stood then. */
  class Extension {
    var offset: nat
    var lastSequence: nat
    var pending: seq<Record>
    var navigation: Navigation
    var applied: seq<Drag>
    var forwarded: seq<Record>
    ghost var consumed: seq<Record>
    ghost var dispatched: seq<Record>
    ghost var start: Navigation
    ghost var appliedBefore: seq<Drag>
    ghost var forwardedBefore: seq<Record>

    ghost predicate Valid()
      reads this
    {
      offset == |consumed| && Thinned(dispatched + pending, consumed) && UpToDate()
    }

    /** Everything done so far is what the dispatched records that pass the filter ask for, no more and no
        less: the filter, the navigation, the movements applied and the records handed on. */
    ghost predicate UpToDate()
      reads `lastSequence, `navigation, `applied, `forwarded, `dispatched, `start, `appliedBefore, `forwardedBefore
    {
      var passing := Passing(dispatched);
      && lastSequence == Latest(dispatched) && navigation == AfterAll(start, passing)
      && applied == appliedBefore + Movements(start, passing)
      && forwarded == forwardedBefore + Forwarded(start, passing)
    }

    constructor ()
      ensures Valid() && offset == 0 && pending == [] && dispatched == [] && navigation == Idle
      ensures applied == appliedBefore == [] && forwarded == forwardedBefore == []
    {
      appliedBefore, forwardedBefore := [], [];
      offset, lastSequence, pending, navigation, applied, forwarded := 0, 0, [], Idle, [], [];
      consumed, dispatched, start := [], [], Idle;
    }

    /** Consumes the Alt-drag gestures. */
    method HandleNavigation(r: Record) returns (handled: bool)
      modifies `navigation, `applied
      ensures navigation == After(old(navigation), r)
      ensures applied == old(applied) + (match Movement(old(navigation), r) case None => [] case Some(m) => [m])
      ensures handled == Gesture(old(navigation), r)
    {
      if r.kind == 2 && Alt(r) {
        navigation := Dragging(Orbit, r.x, r.y);
        return true;
      }
      if r.kind == 6 && Alt(r) {
        navigation := Dragging(Pan, r.x, r.y);
        return true;
      }
      if r.kind == 1 && navigation.Dragging? {
        applied := applied + [Drag(navigation.mode, r.x - navigation.x, r.y - navigation.y)];
        navigation := Dragging(navigation.mode, r.x, r.y);
        return true;
      }
      if navigation.Dragging?
        && ((r.kind == 3 && navigation.mode == Orbit) || (r.kind == 7 && navigation.mode == Pan)) {
        navigation := Idle;
        return true;
      }
      return false;
    }

    method Dispatch(r: Record)
      requires UpToDate()
      modifies `lastSequence, `navigation, `applied, `forwarded, `dispatched
      ensures dispatched == old(dispatched) + [r] && UpToDate()
    {
      PassingStep(start, dispatched, r);
      hide Passing, Latest, AfterAll, After, Movements, Forwarded, Movement, Gesture;
      dispatched := dispatched + [r];
      if r.magic != MAGIC || r.version != VERSION || r.sequence <= lastSequence {
        return;
      }
      lastSequence := r.sequence;
      var handled := HandleNavigation(r);
      if 1 <= r.kind <= 8 && !handled {
        forwarded := forwarded + [r];
      } else if r.kind in {9, 10} {
        if KnownKey(r.code) {
          forwarded := forwarded + [r];
        }
      } else if r.kind == 11 {
        if r.code >= 0x11_0000 {
          return;
        }
        forwarded := forwarded + [r];
      }
    }

    /** One update. `read` is how many of the records asked for the file system actually returned. */
    method OnUpdate(file: seq<Record>, read: nat)
      requires Valid() && (offset <= |file| ==> file[..offset] == consumed)
      modifies this
      ensures Valid() && offset <= |file| && consumed == file[..offset]
      ensures old(offset) <= |file| ==>
        offset == old(offset) + Least(read, Least(|file| - old(offset), 512)) && start == old(start)
      ensures old(offset) > |file| ==> offset == Least(read, Least(|file|, 512)) && start == old(navigation)
      ensures old(offset) <= |file| ==> appliedBefore == old(appliedBefore) && forwardedBefore == old(forwardedBefore)
      ensures old(offset) > |file| ==> appliedBefore == old(applied) && forwardedBefore == old(forwarded)
      ensures var queue := if old(offset) <= |file| then PushAll(old(pending), file[old(offset)..offset])
          else PushAll([], file[..offset]);
        && pending == queue[Burst(queue)..]
        && dispatched == (if old(offset) <= |file| then old(dispatched) else []) + queue[..Burst(queue)]
    {
      if |file| < offset {
        offset, lastSequence, pending := 0, 0, [];
        consumed, dispatched, start := [], [], navigation;
        appliedBefore, forwardedBefore := applied, forwarded;
      }
      Read(file, read);
      hide *;
      Drain();
    }

    method Read(file: seq<Record>, read: nat)
      requires Valid() && offset <= |file| && file[..offset] == consumed
      modifies `offset, `consumed, `pending
      ensures Valid() && offset <= |file| && consumed == file[..offset]
      ensures offset == old(offset) + Least(read, Least(|file| - old(offset), 512))
      ensures pending == PushAll(old(pending), file[old(offset)..offset])
    {
      hide UpToDate, Push, PushAll;
      var recordCount := Least(|file| - offset, 512);
      var count := Least(read, recordCount);
      var payload := file[offset..offset + count];
      PushAllThins(dispatched, pending, consumed, payload);
      Extends(file, offset, count);
      hide Thinned, Least;
      consumed := consumed + payload;
      offset := offset + |payload|;
      ReadRecords(payload);
    }

    /** Append every record read, or let it take a pending move's place. */
    method ReadRecords(payload: seq<Record>)
      modifies `pending
      ensures pending == PushAll(old(pending), payload)
    {
      var k := 0;
      while k < |payload|
        invariant k <= |payload| && pending == PushAll(old(pending), payload[..k])
      {
        var record := payload[k];
        if pending != [] && Move(pending[|pending| - 1]) && Move(record) {
          pending := pending[|pending| - 1 := record];
        } else {
          pending := pending + [record];
        }
        assert payload[..k + 1][..k] == payload[..k];
        k := k + 1;
      }
      assert payload[..k] == payload;
    }

    /** Dispatch from the front up to the first transition. */
    method Drain()
      requires Valid()
      modifies `pending, `lastSequence, `navigation, `applied, `forwarded, `dispatched
      ensures Valid()
      ensures pending == old(pending)[Burst(old(pending))..]
      ensures dispatched == old(dispatched) + old(pending)[..Burst(old(pending))]
    {
      ghost var n, queue, earlier := 0, pending, dispatched;
      hide Thinned, Transition, Burst, UpToDate;
      while pending != []
        invariant n <= |queue| && pending == queue[n..]
        invariant Burst(queue) == n + Burst(pending)
        invariant dispatched == earlier + queue[..n]
        invariant UpToDate()
        decreases |pending|
      {
        var record := pending[0];
        BurstStep(pending);
        pending := pending[1..];
        Dispatch(record);
        assert queue[..n + 1] == queue[..n] + [record];
        n := n + 1;
        if Transition(record) {
          break;
        }
      }
      BurstStep(pending);
      assert earlier + queue == dispatched + pending;
    }
  }

  lemma BurstStep(pending: seq<Record>)
    ensures Burst(pending) == if pending == [] then 0 else if Transition(pending[0]) then 1 else 1 + Burst(pending[1..])
  {
  }

  lemma Extends(file: seq<Record>, offset: nat, n: nat)
    requires offset + n <= |file|
    ensures file[..offset] + file[offset..offset + n] == file[..offset + n]
  {
  }

  function Least(a: nat, b: nat): nat {
    if a < b then a else b
  }

  lemma PassingStep(start: Navigation, records: seq<Record>, r: Record)
    ensures var newer := WellFormed(r) && r.sequence > Latest(records);
      var before, after := Passing(records), Passing(records + [r]);
      var n := AfterAll(start, before);
      && Latest(records + [r]) == (if newer then r.sequence else Latest(records))
      && AfterAll(start, after) == (if newer then After(n, r) else n)
      && Movements(start, after)
         == Movements(start, before) + (if newer && Movement(n, r).Some? then [Movement(n, r).value] else [])
      && Forwarded(start, after) == Forwarded(start, before) + (if newer && HandedOn(n, r) then [r] else [])
  {
    assert (records + [r])[..|records|] == records;
    var before := Passing(records);
    DragsStep(start, before, r);
    assert (before + [r])[..|before|] == before;
    assert before + [] == before;
  }

  /** For a file of the viewer's every record dispatched passes the filter, so once the queue is empty what was
      applied, added up drag by drag, and where navigation stands, are those of the file itself with no record
      left out. */
  lemma WholeFile(e: Extension)
    requires e.Valid() && e.pending == [] && Increasing(e.consumed)
    ensures Passing(e.dispatched) == e.dispatched && e.navigation == AfterAll(e.start, e.consumed)
    ensures e.applied == e.appliedBefore + Movements(e.start, e.dispatched)
    ensures e.forwarded == e.forwardedBefore + Forwarded(e.start, e.dispatched)
    ensures Others(Forwarded(e.start, e.dispatched)) == Others(Forwarded(e.start, e.consumed))
    ensures forall k: nat ::
      Total(Movements(e.start, e.dispatched), DragNumbers(e.start, e.dispatched), k)
      == DragTotal(Drags(e.start, e.consumed), k)
  {
    assert e.dispatched + [] == e.dispatched;
    ThinnedIncreasing(e.dispatched, e.consumed);
    AllPass(e.dispatched);
    DragTotalsKept(e.start, e.dispatched, e.consumed);
    ForwardedKept(e.start, e.dispatched, e.consumed);
    hide Thinned, Passing, Latest, AfterAll, Movements, Forwarded, Drags, DragNumbers, Total, Increasing;
    forall k: nat
      ensures Total(Movements(e.start, e.dispatched), DragNumbers(e.start, e.dispatched), k)
           == DragTotal(Drags(e.start, e.consumed), k) {
      TotalsAreDrags(e.start, e.dispatched, k);
    }
  }
}

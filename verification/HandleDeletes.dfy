/** What the CUDA shim's calls delete: which calls delete only live objects of their own, and the account of
    every object made and deleted over a run. */
module HandleDeletes {
  import opened ByteStrings
  import opened HandleGraph

  predicate Live(g: Graph, o: Object) {
    match o
    case ModuleAt(a) => a in g.modules
    case FunctionAt(a) => a in g.functions
    case LibraryAt(a) => a in g.libraries
    case KernelAt(a) => a in g.kernels
    case MemoryAt(a) => a in g.memories
    case MipmapAt(a) => a in g.mipmaps
    case ArrayAt(a) => a in g.arrays
  }

  predicate HasModule(g: Graph, library: Address) {
    library in g.libraries && g.libraries[library] in g.modules
  }

  /** How often a call executes `new` for an object, also when it then deletes it again. */
  function Creations(g: Graph, c: Call, o: Object): nat {
    match c
    case LoadModule(at) => Once(at.Some? && o == ModuleAt(at.value))
    case LoadLibrary(m, at) =>
      Once(m.Some? && o == ModuleAt(m.value)) + Once(m.Some? && at.Some? && o == LibraryAt(at.value))
    case GetKernel(library, _, f, at) =>
      if library == 0 || !HasModule(g, library) || f.None? then 0
      else Once(o == FunctionAt(f.value)) + Once(at.Some? && o == KernelAt(at.value))
    case GetFunction(m, at) => Once(m != 0 && m in g.modules && at.Some? && o == FunctionAt(at.value))
    case ImportMemory(size, at) => Once(size != 0 && at.Some? && o == MemoryAt(at.value))
    case MapMipmap(memory, offset, at, levelsAt) =>
      if levelsAt == [] || memory !in g.memories || offset >= g.memories[memory] || at.None? then 0
      else if o.ArrayAt? then LevelsAt(levelsAt, Allocated(levelsAt), o.at)
      else Once(o == MipmapAt(at.value))
    case CreateArray(at) => Once(at.Some? && o == ArrayAt(at.value))
    case _ => 0
  }

  // ----- who loaded which module -----

  /** The tables together with what they do not record: the library each live module was loaded for, if any. */
  datatype Traced = Traced(graph: Graph, loader: map<Address, Option<Address>>)

  function Trace(t: Traced, c: Call): Traced {
    var (after, r) := Next(t.graph, c);
    if r != Success then Traced(after, t.loader)
    else
      match c
      case LoadModule(at) => Traced(after, t.loader[at.value := None])
      case LoadLibrary(m, at) => Traced(after, t.loader[m.value := at])
      case UnloadLibrary(library) =>
        Traced(after, if library == 0 then t.loader else t.loader - {t.graph.libraries[library]})
      case UnloadModule(m) => Traced(after, t.loader - {m})
      case _ => Traced(after, t.loader)
  }

  function Start(): Traced {
    Traced(Empty(), map[])
  }

  /** The live modules are traced, and one loaded for a library is the one the library names. */
  predicate LoadersRight(t: Traced) {
    && t.loader.Keys == t.graph.modules
    && forall m :: m in t.loader && t.loader[m].Some? ==>
      t.loader[m].value in t.graph.libraries && t.graph.libraries[t.loader[m].value] == m
  }

  lemma TraceRight(t: Traced, c: Call)
    requires Inv(t.graph) && LoadersRight(t) && Allocates(t.graph, c)
    ensures LoadersRight(Trace(t, c))
  {
    if !TouchesModules(c) {
      SameModules(t, c);
      hide Next, Trace, Inv;
    } else if c.LoadModule? || c.LoadLibrary? {
      LoadTraced(t, c);
      hide *;
    } else {
      hide KernelsRight, LevelsRight, MemoriesRight, WithLevels, OtherArrays, OtherKernels;
    }
  }

  lemma LoadTraced(t: Traced, c: Call)
    requires (c.LoadModule? || c.LoadLibrary?) && LoadersRight(t) && Allocates(t.graph, c)
    ensures LoadersRight(Trace(t, c))
  {
  }

  predicate TouchesModules(c: Call) {
    c.LoadModule? || c.LoadLibrary? || c.UnloadLibrary? || c.UnloadModule?
  }

  lemma SameModules(t: Traced, c: Call)
    requires !TouchesModules(c)
    ensures var after := Trace(t, c);
      && after.loader == t.loader && after.graph.modules == t.graph.modules
      && after.graph.libraries == t.graph.libraries
  {
  }

  // ----- which calls delete only what is theirs -----

  /** The module a library was loaded with is still there, and nobody else's. */
  predicate KeepsModule(t: Traced, library: Address) {
    library in t.graph.libraries && t.graph.libraries[library] in t.loader
    && t.loader[t.graph.libraries[library]] == Some(library)
  }

  /** Unloading a library whose module is gone, or is by now another's. */
  predicate Stray(t: Traced, c: Call) {
    c.UnloadLibrary? && c.library != 0 && c.library in t.graph.libraries && !KeepsModule(t, c.library)
  }

  /** The live objects a call is entitled to delete: the one it names and what belongs to that. */
  predicate Own(t: Traced, c: Call, o: Object) {
    Live(t.graph, o) &&
    match c
    case UnloadLibrary(library) => (
      match o
      case LibraryAt(l) => l == library
      case KernelAt(k) => t.graph.kernels[k].library == library
      case FunctionAt(f) => KernelsWith(t.graph.kernels, library, {}, f) != {}
      case ModuleAt(m) => m in t.loader && t.loader[m] == Some(library)
      case _ => false)
    case UnloadModule(m) => o == ModuleAt(m)
    case DestroyMipmap(p) => o == MipmapAt(p) || (o.ArrayAt? && t.graph.arrays[o.at].mipmap == Some(p))
    case DestroyMemory(e) => o == MemoryAt(e)
    case DestroyArray(a) => o == ArrayAt(a)
    case _ => false
  }

  /** A call deletes nothing twice, and nothing but its own live objects and what it has just made. */
  ghost predicate DeletesOwn(t: Traced, c: Call) {
    forall o :: DeletesOwnOf(t, c, o)
  }

  predicate DeletesOwnOf(t: Traced, c: Call, o: Object) {
    && Deletions(t.graph, c, o) <= 1
    && (Deletions(t.graph, c, o) == 1 ==> Own(t, c, o) || Creations(t.graph, c, o) == 1)
  }

  /** Whether an address is that of one of the first n levels. */
  predicate AmongLevels(levels: seq<Option<Address>>, n: nat, a: Address)
    requires n <= |levels|
  {
    exists i: nat :: i < n && levels[i] == Some(a)
  }

  lemma {:induction false} LevelsOnce(levels: seq<Option<Address>>, n: nat, a: Address)
    requires n <= |levels|
    requires forall i, j :: 0 <= i < j < |levels| && levels[i].Some? ==> levels[i] != levels[j]
    ensures LevelsAt(levels, n, a) == Once(AmongLevels(levels, n, a))
  {
    if n > 0 { LevelsOnce(levels, n - 1, a); }
  }

  lemma MipmapLevelsOnce(g: Graph, p: Address, a: Address)
    requires Inv(g) && p in g.mipmaps
    ensures LevelsAt(g.mipmaps[p].levels, |g.mipmaps[p].levels|, a)
        == Once(a in g.arrays && g.arrays[a].mipmap == Some(p))
  {
    var levels := g.mipmaps[p].levels;
    forall i, j | 0 <= i < j < |levels| && levels[i].Some? ensures levels[i] != levels[j] {
    }
    LevelsOnce(levels, |levels|, a);
    if a in g.arrays && g.arrays[a].mipmap == Some(p) {
      assert LevelHolds(g, p, g.arrays[a].level, a);
    }
    hide KernelsRight, MemoriesRight;
  }

  lemma FunctionOnce(g: Graph, library: Address, f: Address)
    requires Inv(g)
    ensures |KernelsWith(g.kernels, library, {}, f)| <= 1
    ensures KernelsWith(g.kernels, library, {}, f) != {} ==>
      f in g.functions && |KernelsWith(g.kernels, library, {}, f)| == 1
    ensures KernelsWith(g.kernels, library, {}, f) != {} <==> f in OwnFunctions(g.kernels, library)
  {
    var ks := KernelsWith(g.kernels, library, {}, f);
    hide LevelsRight, MemoriesRight;
    if ks != {} {
      var k :| k in ks;
      assert ks == {k};
    }
    if f in OwnFunctions(g.kernels, library) {
      var k :| k in g.kernels && g.kernels[k].library == library && g.kernels[k].function_ == f;
      assert k in ks;
    }
  }

  /** A call deletes only live objects of its own, each once, if and only if it is not the unloading of a library
      whose module is gone or another's. */
  lemma DeletesOwnIff(t: Traced, c: Call)
    requires Inv(t.graph) && LoadersRight(t) && Allocates(t.graph, c)
    ensures DeletesOwn(t, c) <==> !Stray(t, c)
  {
    if Stray(t, c) {
      var o := ModuleAt(t.graph.libraries[c.library]);
      assert Deletions(t.graph, c, o) == 1 && !DeletesOwnOf(t, c, o);
    } else {
      forall o ensures DeletesOwnOf(t, c, o) {
        OwnOnly(t, c, o);
      }
    }
  }

  lemma OwnOnly(t: Traced, c: Call, o: Object)
    requires Inv(t.graph) && LoadersRight(t) && Allocates(t.graph, c) && !Stray(t, c)
    ensures DeletesOwnOf(t, c, o)
  {
    if c.UnloadLibrary? {
      UnloadOwn(t, c, o);
      hide *;
    } else if c.DestroyMipmap? || c.MapMipmap? {
      MipmapOwn(t, c, o);
      hide *;
    } else {
      hide Inv, LoadersRight, LevelsAt, LevelsFree;
    }
  }

  lemma MipmapOwn(t: Traced, c: Call, o: Object)
    requires Inv(t.graph) && Allocates(t.graph, c) && (c.DestroyMipmap? || c.MapMipmap?)
    ensures DeletesOwnOf(t, c, o)
  {
    if o.ArrayAt? && c.DestroyMipmap? && c.mipmap in t.graph.mipmaps {
      MipmapLevelsOnce(t.graph, c.mipmap, o.at);
    } else if o.ArrayAt? && c.MapMipmap? {
      LevelsOnce(c.levelsAt, Allocated(c.levelsAt), o.at);
    }
    hide Inv, LevelsAt, LevelsFree;
  }

  lemma UnloadOwn(t: Traced, c: Call, o: Object)
    requires Inv(t.graph) && LoadersRight(t) && c.UnloadLibrary? && !Stray(t, c)
    ensures DeletesOwnOf(t, c, o)
  {
    if o.FunctionAt? {
      FunctionOnce(t.graph, c.library, o.at);
    }
    hide Inv, KernelsWith;
  }

  // ----- the account of objects made and deleted -----

  /** What a call adds to the live objects it has made, and what it takes away it has deleted; the one exception
      is the unloading of a library whose module is gone. */
  predicate Accounted(g: Graph, c: Call, o: Object) {
    Once(Live(Next(g, c).0, o)) + Deletions(g, c, o) == Once(Live(g, o)) + Creations(g, c, o)
  }

  predicate Gone(g: Graph, c: Call) {
    c.UnloadLibrary? && c.library != 0 && c.library in g.libraries && !HasModule(g, c.library)
  }

  lemma AccountedIff(g: Graph, c: Call)
    requires Inv(g) && Allocates(g, c)
    ensures (forall o :: Accounted(g, c, o)) <==> !Gone(g, c)
  {
    if Gone(g, c) {
      var o := ModuleAt(g.libraries[c.library]);
      assert !Accounted(g, c, o);
    } else {
      forall o ensures Accounted(g, c, o) {
        if o.ArrayAt? {
          ArraysAccounted(g, c, o.at);
        } else {
          OthersAccounted(g, c, o);
        }
      }
    }
  }

  lemma ArraysAccounted(g: Graph, c: Call, a: Address)
    requires Inv(g) && Allocates(g, c)
    ensures Accounted(g, c, ArrayAt(a))
  {
    hide KernelsRight, LevelsRight, MemoriesRight;
    if c.MapMipmap? {
      MapAccounted(g, c, a);
      hide *;
    } else if c.DestroyMipmap? {
      DestroyMipmapAccounted(g, c, a);
      hide *;
    } else if c.CreateArray? || c.DestroyArray? {
      ArrayAccounted(g, c, a);
      hide *;
    } else {
      NoArrays(g, c, a);
      hide Next, Deletions, Creations;
    }
  }

  lemma DestroyMipmapAccounted(g: Graph, c: Call, a: Address)
    requires c.DestroyMipmap? && Inv(g)
    ensures Accounted(g, c, ArrayAt(a))
  {
    if c.mipmap in g.mipmaps {
      MipmapLevelsOnce(g, c.mipmap, a);
    }
    hide LevelsAt, KernelsRight, LevelsRight, MemoriesRight;
  }

  lemma ArrayAccounted(g: Graph, c: Call, a: Address)
    requires (c.CreateArray? || c.DestroyArray?) && Inv(g) && Allocates(g, c)
    ensures Accounted(g, c, ArrayAt(a))
  {
    hide KernelsRight, LevelsRight, MemoriesRight, WithoutLevel;
  }

  predicate TouchesArrays(c: Call) {
    c.MapMipmap? || c.DestroyMipmap? || c.CreateArray? || c.DestroyArray?
  }

  lemma NoArrays(g: Graph, c: Call, a: Address)
    requires !TouchesArrays(c)
    ensures Next(g, c).0.arrays == g.arrays && Deletions(g, c, ArrayAt(a)) == 0 && Creations(g, c, ArrayAt(a)) == 0
  {
  }

  lemma MapAccounted(g: Graph, c: Call, a: Address)
    requires c.MapMipmap? && Allocates(g, c)
    ensures Accounted(g, c, ArrayAt(a))
  {
    LevelsOnce(c.levelsAt, Allocated(c.levelsAt), a);
    if c.at.Some? {
      LevelsMade(g, c.at.value, c.levelsAt, Allocated(c.levelsAt), a);
    }
    hide LevelsAt, WithLevels;
  }

  lemma LevelsMade(g: Graph, p: Address, levelsAt: seq<Option<Address>>, n: nat, a: Address)
    requires n <= Allocated(levelsAt) && LevelsFree(g, Some(p), levelsAt)
    ensures a in WithLevels(g.arrays, p, levelsAt, n) <==> a in g.arrays || AmongLevels(levelsAt, n, a)
    ensures AmongLevels(levelsAt, n, a) ==> a !in g.arrays
  {
    WithLevelsAt(g.arrays, p, levelsAt, n, a);
    if AmongLevels(levelsAt, n, a) {
      var i: nat :| i < n && levelsAt[i] == Some(a);
      assert FreeIfAny(g, levelsAt[i]);
    }
  }

  lemma OthersAccounted(g: Graph, c: Call, o: Object)
    requires Inv(g) && Allocates(g, c) && !Gone(g, c) && !o.ArrayAt?
    ensures Accounted(g, c, o)
  {
    if c.UnloadLibrary? {
      UnloadAccounted(g, c, o);
      hide *;
    } else if c.LoadLibrary? {
      LoadAccounted(g, c, o);
      hide *;
    } else if c.GetKernel? {
      GetKernelAccounted(g, c, o);
      hide *;
    } else if c.MapMipmap? || c.DestroyMipmap? || c.DestroyArray? {
      MipmapAccounted(g, c, o);
      hide *;
    } else if c.ImportMemory? || c.CreateArray? {
      MemoryAccounted(g, c, o);
      hide *;
    } else if c.DestroyMemory? {
      DestroyMemoryAccounted(g, c, o);
      hide *;
    } else if c.UnloadModule? {
      UnloadModuleAccounted(g, c, o);
      hide *;
    } else if c.LoadModule? {
      ModuleAccounted(g, c, o);
      hide *;
    } else {
      GetFunctionAccounted(g, c, o);
      hide *;
    }
  }

  lemma GetFunctionAccounted(g: Graph, c: Call, o: Object)
    requires c.GetFunction? && Allocates(g, c)
    ensures Accounted(g, c, o)
  {
  }

  lemma MemoryAccounted(g: Graph, c: Call, o: Object)
    requires (c.ImportMemory? || c.CreateArray?) && Allocates(g, c) && !o.ArrayAt?
    ensures Accounted(g, c, o)
  {
  }

  lemma DestroyMemoryAccounted(g: Graph, c: Call, o: Object)
    requires c.DestroyMemory? && Inv(g)
    ensures Accounted(g, c, o)
  {
    hide KernelsRight, LevelsRight, MemoriesRight;
  }

  lemma ModuleAccounted(g: Graph, c: Call, o: Object)
    requires c.LoadModule? && Allocates(g, c)
    ensures Accounted(g, c, o)
  {
  }

  lemma UnloadModuleAccounted(g: Graph, c: Call, o: Object)
    requires c.UnloadModule? && Inv(g)
    ensures Accounted(g, c, o)
  {
    hide KernelsRight, LevelsRight, MemoriesRight;
  }

  lemma LoadAccounted(g: Graph, c: Call, o: Object)
    requires c.LoadLibrary? && Allocates(g, c)
    ensures Accounted(g, c, o)
  {
  }

  lemma GetKernelAccounted(g: Graph, c: Call, o: Object)
    requires c.GetKernel? && Allocates(g, c)
    ensures Accounted(g, c, o)
  {
  }

  lemma MipmapAccounted(g: Graph, c: Call, o: Object)
    requires (c.MapMipmap? || c.DestroyMipmap? || c.DestroyArray?) && Inv(g) && Allocates(g, c) && !o.ArrayAt?
    ensures Accounted(g, c, o)
  {
    hide KernelsRight, LevelsRight, MemoriesRight, LevelsAt, WithLevels, OtherArrays;
  }

  lemma UnloadAccounted(g: Graph, c: Call, o: Object)
    requires Inv(g) && c.UnloadLibrary? && !Gone(g, c) && !o.ArrayAt?
    ensures Accounted(g, c, o)
  {
    if o.FunctionAt? {
      FunctionOnce(g, c.library, o.at);
    }
    hide KernelsRight, LevelsRight, MemoriesRight, KernelsWith, OwnFunctions;
  }

  // ----- runs -----

  function TraceAll(t: Traced, calls: seq<Call>): Traced
    decreases |calls|
  {
    if calls == [] then t else TraceAll(Trace(t, calls[0]), calls[1..])
  }

  /** How often a run makes and deletes an object. */
  function AllCreations(g: Graph, calls: seq<Call>, o: Object): nat
    decreases |calls|
  {
    if calls == [] then 0 else Creations(g, calls[0], o) + AllCreations(Next(g, calls[0]).0, calls[1..], o)
  }

  function AllDeletions(g: Graph, calls: seq<Call>, o: Object): nat
    decreases |calls|
  {
    if calls == [] then 0 else Deletions(g, calls[0], o) + AllDeletions(Next(g, calls[0]).0, calls[1..], o)
  }

  /** A run no call of which is stray. */
  predicate NoStray(t: Traced, calls: seq<Call>)
    decreases |calls|
  {
    calls != [] ==> !Stray(t, calls[0]) && NoStray(Trace(t, calls[0]), calls[1..])
  }

  ghost predicate AllDeleteOwn(t: Traced, calls: seq<Call>)
    decreases |calls|
  {
    calls != [] ==> DeletesOwn(t, calls[0]) && AllDeleteOwn(Trace(t, calls[0]), calls[1..])
  }

  /** A run deletes only what is its calls' own exactly when it has no stray call, and then every object made is
      live or has been deleted, once for each time it was made. */
  lemma {:induction false} RunAccounted(t: Traced, calls: seq<Call>)
    requires Inv(t.graph) && LoadersRight(t) && Legal(t.graph, calls)
    ensures AllDeleteOwn(t, calls) <==> NoStray(t, calls)
    ensures NoStray(t, calls) ==> forall o ::
      Once(Live(Run(t.graph, calls), o)) + AllDeletions(t.graph, calls, o)
      == Once(Live(t.graph, o)) + AllCreations(t.graph, calls, o)
    decreases |calls|
  {
    hide Inv, Next, Allocates, Deletions, Creations, Live, DeletesOwn, LoadersRight, KeepsModule;
    if calls != [] {
      var c, after := calls[0], Trace(t, calls[0]);
      assert after.graph == Next(t.graph, c).0 by { TraceGraph(t, c); }
      NextInv(t.graph, c);
      TraceRight(t, c);
      DeletesOwnIff(t, c);
      AccountedIff(t.graph, c);
      GoneIsStray(t, c);
      RunAccounted(after, calls[1..]);
      if NoStray(t, calls) {
        forall o ensures Once(Live(Run(t.graph, calls), o)) + AllDeletions(t.graph, calls, o)
            == Once(Live(t.graph, o)) + AllCreations(t.graph, calls, o) {
          assert Accounted(t.graph, c, o);
        }
      }
    }
  }

  lemma TraceGraph(t: Traced, c: Call)
    ensures Trace(t, c).graph == Next(t.graph, c).0
  {
  }

  lemma GoneIsStray(t: Traced, c: Call)
    requires LoadersRight(t)
    ensures Gone(t.graph, c) ==> Stray(t, c)
  {
  }

  /** Every library's module was loaded for it. */
  predicate AllKeepModules(t: Traced) {
    forall l :: l in t.graph.libraries ==> KeepsModule(t, l)
  }

  lemma KeptByCall(t: Traced, c: Call)
    requires Inv(t.graph) && LoadersRight(t) && Allocates(t.graph, c) && AllKeepModules(t)
    ensures AllKeepModules(Trace(t, c)) <==> !(c.UnloadModule? && Owned(t.graph, c.module_))
  {
    if !TouchesModules(c) {
      SameModules(t, c);
      hide Next, Trace, Inv;
    } else if c.LoadModule? || c.LoadLibrary? {
      KeptByLoad(t, c);
      hide *;
    } else if c.UnloadModule? {
      KeptByUnload(t, c);
      hide *;
    } else {
      hide KernelsRight, LevelsRight, MemoriesRight, OtherKernels;
    }
  }

  lemma KeptByLoad(t: Traced, c: Call)
    requires (c.LoadModule? || c.LoadLibrary?) && LoadersRight(t) && Allocates(t.graph, c) && AllKeepModules(t)
    ensures AllKeepModules(Trace(t, c))
  {
  }

  lemma KeptByUnload(t: Traced, c: Call)
    requires c.UnloadModule? && Inv(t.graph) && LoadersRight(t) && AllKeepModules(t)
    ensures AllKeepModules(Trace(t, c)) <==> !Owned(t.graph, c.module_)
  {
    hide KernelsRight, LevelsRight, MemoriesRight;
    if Owned(t.graph, c.module_) {
      var l :| l in t.graph.libraries && t.graph.libraries[l] == c.module_;
      assert !KeepsModule(Trace(t, c), l);
    }
  }

  /** A run from the start that unloads no library's module directly has no stray call. */
  lemma {:induction false} RespectsNoStray(t: Traced, calls: seq<Call>)
    requires Inv(t.graph) && LoadersRight(t) && AllKeepModules(t) && Legal(t.graph, calls)
    requires Respects(t.graph, calls)
    ensures NoStray(t, calls)
    decreases |calls|
  {
    hide Inv, Next, Allocates, LoadersRight, KeepsModule, Owned;
    if calls != [] {
      TraceGraph(t, calls[0]);
      NextInv(t.graph, calls[0]);
      TraceRight(t, calls[0]);
      KeptByCall(t, calls[0]);
      RespectsNoStray(Trace(t, calls[0]), calls[1..]);
    }
  }

  /** Such a run deletes each object at most once for each time it was made, and what is left is live. */
  lemma DeletedOnce(calls: seq<Call>)
    requires Legal(Empty(), calls) && Respects(Empty(), calls)
    ensures AllDeleteOwn(Start(), calls)
    ensures forall o ::
      AllCreations(Empty(), calls, o) == AllDeletions(Empty(), calls, o) + Once(Live(Run(Empty(), calls), o))
  {
    assert Inv(Empty()) && LoadersRight(Start()) && AllKeepModules(Start());
    RespectsNoStray(Start(), calls);
    RunAccounted(Start(), calls);
    assert forall o :: !Live(Empty(), o);
  }

  // ----- what a caller can see of it -----

  /** Going back over the calls, the module was unloaded directly after the library was loaded. */
  predicate GivenUp(calls: seq<Call>, library: Address, m: Address) {
    if calls == [] then false
    else
      var c := calls[|calls| - 1];
      c == UnloadModule(m)
      || (!Loads(c, library) && GivenUp(calls[..|calls| - 1], library, m))
  }

  predicate Loads(c: Call, library: Address) {
    c.LoadLibrary? && c.moduleAt.Some? && c.at == Some(library)
  }

  lemma {:induction false} TraceAppend(t: Traced, calls: seq<Call>, c: Call)
    ensures TraceAll(t, calls + [c]) == Trace(TraceAll(t, calls), c)
    ensures Legal(t.graph, calls + [c]) <==> Legal(t.graph, calls) && Allocates(TraceAll(t, calls).graph, c)
    ensures NoStray(t, calls + [c]) <==> NoStray(t, calls) && !Stray(TraceAll(t, calls), c)
    decreases |calls|
  {
    hide Trace, Next, Allocates, Stray;
    if calls == [] {
      assert ([] + [c])[0] == c && ([] + [c])[1..] == [];
      assert TraceAll(Trace(t, c), []) == Trace(t, c) && NoStray(Trace(t, c), []) && Legal(Next(t.graph, c).0, []);
    } else {
      assert (calls + [c])[1..] == calls[1..] + [c];
      TraceGraph(t, calls[0]);
      TraceAppend(Trace(t, calls[0]), calls[1..], c);
    }
  }

  lemma {:induction false} TracedRun(t: Traced, calls: seq<Call>)
    requires Inv(t.graph) && LoadersRight(t) && Legal(t.graph, calls)
    ensures var after := TraceAll(t, calls);
      after.graph == Run(t.graph, calls) && Inv(after.graph) && LoadersRight(after)
    decreases |calls|
  {
    hide Inv, Next, Trace, Allocates, LoadersRight;
    if calls != [] {
      TraceGraph(t, calls[0]);
      NextInv(t.graph, calls[0]);
      TraceRight(t, calls[0]);
      TracedRun(Trace(t, calls[0]), calls[1..]);
    }
  }

  lemma StrayIs(t: Traced, c: Call)
    requires Inv(t.graph)
    ensures Stray(t, c) <==> c.UnloadLibrary? && c.library in t.graph.libraries && !KeepsModule(t, c.library)
  {
    hide KernelsRight, LevelsRight, MemoriesRight, KeepsModule;
  }

  /** One call: loading gives a library a module of its own, and only unloading that takes it away. */
  lemma KeptStep(t: Traced, c: Call, library: Address)
    requires Inv(t.graph) && LoadersRight(t) && Allocates(t.graph, c) && !Stray(t, c)
    requires library in Trace(t, c).graph.libraries
    ensures Loads(c, library) ==> KeepsModule(Trace(t, c), library)
    ensures !Loads(c, library) ==>
      library in t.graph.libraries && Trace(t, c).graph.libraries[library] == t.graph.libraries[library]
    ensures !Loads(c, library) ==>
      (KeepsModule(Trace(t, c), library)
       <==> KeepsModule(t, library) && c != UnloadModule(t.graph.libraries[library]))
  {
    hide KernelsRight, LevelsRight, MemoriesRight, WithLevels;
    if !TouchesModules(c) {
      SameModules(t, c);
      hide Next, Trace;
    }
  }

  /** Over a run from the start whose unloadings have all been of libraries with their module, a live library lacks
      its module exactly when that was unloaded directly after the library was loaded. */
  lemma {:induction false} LostIff(calls: seq<Call>, library: Address)
    requires Legal(Empty(), calls) && NoStray(Start(), calls) && library in Run(Empty(), calls).libraries
    ensures TraceAll(Start(), calls).graph == Run(Empty(), calls)
    ensures !KeepsModule(TraceAll(Start(), calls), library)
         <==> GivenUp(calls, library, Run(Empty(), calls).libraries[library])
    decreases |calls|
  {
    StartRight();
    hide Inv, LoadersRight, Allocates, Next, Trace, KeepsModule, Stray;
    TracedRun(Start(), calls);
    if calls != [] {
      var init, c := calls[..|calls| - 1], calls[|calls| - 1];
      assert calls == init + [c];
      TraceAppend(Start(), init, c);
      TracedRun(Start(), init);
      KeptStep(TraceAll(Start(), init), c, library);
      hide Run, Legal, NoStray, TraceAll;
      if !Loads(c, library) { LostIff(init, library); }
    }
  }

  lemma StartRight()
    ensures Inv(Start().graph) && LoadersRight(Start()) && Start().graph == Empty()
  {
  }

  /** The nth call unloads a live library whose module the caller has unloaded since loading the library. */
  ghost predicate UnloadsGivenUp(calls: seq<Call>, n: nat)
    requires n < |calls|
  {
    var libraries, c := Run(Empty(), calls[..n]).libraries, calls[n];
    c.UnloadLibrary? && c.library in libraries && GivenUp(calls[..n], c.library, libraries[c.library])
  }

  /** So a caller can tell from its own calls whether a run deletes anything that is not its calls' own. */
  lemma {:induction false} NoStrayIff(calls: seq<Call>)
    requires Legal(Empty(), calls)
    ensures NoStray(Start(), calls) <==> forall n: nat :: n < |calls| ==> !UnloadsGivenUp(calls, n)
    decreases |calls|
  {
    if calls != [] {
      var last := |calls| - 1;
      var init, c := calls[..last], calls[last];
      assert calls == init + [c];
      StartRight();
      hide Inv, LoadersRight, Allocates, Next, Trace, GivenUp;
      TraceAppend(Start(), init, c);
      NoStrayIff(init);
      TracedRun(Start(), init);
      StrayIs(TraceAll(Start(), init), c);
      hide Stray, KeepsModule, TraceAll, Run, NoStray, Legal;
      if NoStray(Start(), init) && c.UnloadLibrary? && c.library in Run(Empty(), init).libraries {
        LostIff(init, c.library);
      }
      assert calls[..last] == init && TraceAll(Start(), init).graph == Run(Empty(), init);
      assert NoStray(Start(), init) ==> (UnloadsGivenUp(calls, last) <==> Stray(TraceAll(Start(), init), c));
      forall n: nat | n < last ensures UnloadsGivenUp(calls, n) == UnloadsGivenUp(init, n) {
        assert calls[..n] == init[..n];
      }
      hide UnloadsGivenUp;
    }
  }

  // ----- two runs that unload a library's module directly -----

  /** The module is made once and deleted twice. */
  lemma DeletedTwice()
    ensures var calls := [LoadLibrary(Some(1), Some(2)), UnloadModule(1), UnloadLibrary(2)];
      && Legal(Empty(), calls) && !NoStray(Start(), calls)
      && AllCreations(Empty(), calls, ModuleAt(1)) == 1 && AllDeletions(Empty(), calls, ModuleAt(1)) == 2
  {
    var calls := [LoadLibrary(Some(1), Some(2)), UnloadModule(1), UnloadLibrary(2)];
    assert calls[1..] == [UnloadModule(1), UnloadLibrary(2)] && calls[1..][1..] == [UnloadLibrary(2)];
    var g1 := Next(Empty(), calls[0]).0;
    var g2 := Next(g1, calls[1]).0;
    var g3 := Next(g2, calls[2]).0;
    assert Legal(g3, []) && Legal(g2, [UnloadLibrary(2)]) && Legal(g1, calls[1..]);
    assert Stray(Trace(Trace(Start(), calls[0]), calls[1]), calls[2]);
  }

  /** With the address given out again in between, unloading the library takes a module that another call loaded
      and nobody unloaded. */
  lemma OthersModuleTaken()
    ensures var calls := [LoadLibrary(Some(1), Some(2)), UnloadModule(1), LoadModule(Some(1)), UnloadLibrary(2)];
      && Legal(Empty(), calls) && !NoStray(Start(), calls)
      && Live(Run(Empty(), calls[..3]), ModuleAt(1)) && !Live(Run(Empty(), calls), ModuleAt(1))
  {
    var a, b, c, d := LoadLibrary(Some(1), Some(2)), UnloadModule(1), LoadModule(Some(1)), UnloadLibrary(2);
    var calls := [a, b, c, d];
    TakenStray(a, b, c, d);
    var g1 := Next(Empty(), a).0;
    var g2 := Next(g1, b).0;
    var g3 := Next(g2, c).0;
    var g4 := Next(g3, d).0;
    assert g1 == Empty().(modules := {1}, libraries := map[2 := 1]);
    assert g3.modules == {1} && g3.libraries == map[2 := 1] && g4.modules == {};
    assert Allocates(Empty(), a) && Allocates(g1, b) && Allocates(g2, c) && Allocates(g3, d);
    assert Live(g3, ModuleAt(1)) && !Live(g4, ModuleAt(1));
    hide Next, Allocates, Trace, Stray, Live;
    assert calls[..3] == [a] + ([b] + ([c] + [])) && calls == [a] + ([b] + ([c] + ([d] + [])));
    FirstOf(Empty(), a, [b] + ([c] + []));
    FirstOf(g1, b, [c] + []);
    FirstOf(g2, c, []);
    FirstOf(Empty(), a, [b] + ([c] + ([d] + [])));
    FirstOf(g1, b, [c] + ([d] + []));
    FirstOf(g2, c, [d] + []);
    FirstOf(g3, d, []);
    NothingLeft(g3);
    NothingLeft(g4);
    hide Run, Legal;
  }

  lemma NothingLeft(g: Graph)
    ensures Run(g, []) == g && Legal(g, [])
  {
  }

  lemma FirstOf(g: Graph, c: Call, rest: seq<Call>)
    ensures Run(g, [c] + rest) == Run(Next(g, c).0, rest)
    ensures Legal(g, [c] + rest) <==> Allocates(g, c) && Legal(Next(g, c).0, rest)
  {
    assert ([c] + rest)[1..] == rest;
  }

  lemma TakenStray(a: Call, b: Call, c: Call, d: Call)
    requires a == LoadLibrary(Some(1), Some(2)) && b == UnloadModule(1) && c == LoadModule(Some(1))
    requires d == UnloadLibrary(2)
    ensures !NoStray(Start(), [a, b, c, d])
  {
    assert [a, b, c, d][1..] == [b, c, d] && [b, c, d][1..] == [c, d] && [c, d][1..] == [d];
    var t1 := Trace(Start(), a);
    var t2 := Trace(t1, b);
    var t3 := Trace(t2, c);
    assert t1.loader == map[1 := Some(2)] && t2.loader == map[] && t3.loader == map[1 := None];
    assert Stray(t3, d);
    hide Trace, Stray;
    assert !NoStray(t3, [d]) && !NoStray(t2, [c, d]) && !NoStray(t1, [b, c, d]);
  }
}

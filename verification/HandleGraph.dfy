/** The CUDA shim's graph of handles: modules, functions, libraries and kernels; external memories, mipmapped
    arrays and their level arrays. Handles are addresses, which the allocator may give out again once their
    object is deleted. */
module HandleGraph {
  import opened ByteStrings

  /** 0 is the null handle. */
  type Address = nat

  datatype Kernel = Kernel(library: Address, function_: Address, name: string)
  datatype Array = Array(mipmap: Option<Address>, level: nat)
  datatype Mipmap = Mipmap(memory: Address, levels: seq<Option<Address>>)

  /** The shim's tables; a function maps to the module it was made for. */
  datatype Graph = Graph(modules: set<Address>, functions: map<Address, Address>, libraries: map<Address, Address>,
    kernels: map<Address, Kernel>, memories: map<Address, nat>, mipmaps: map<Address, Mipmap>,
    arrays: map<Address, Array>)

  datatype Result = Success | InvalidValue | InvalidHandle | OutOfMemory

  /** The calls, with what the allocator answers to each `new` they make: an address, or none. */
  datatype Call =
    | LoadModule(at: Option<Address>)
    | LoadLibrary(moduleAt: Option<Address>, at: Option<Address>)
    | GetKernel(library: Address, name: string, functionAt: Option<Address>, at: Option<Address>)
    | UnloadLibrary(library: Address)
    | GetFunction(module_: Address, at: Option<Address>)
    | UnloadModule(module_: Address)
    | ImportMemory(size: nat, at: Option<Address>)
    | MapMipmap(memory: Address, offset: nat, at: Option<Address>, levelsAt: seq<Option<Address>>)
    | DestroyMipmap(mipmap: Address)
    | DestroyMemory(memory: Address)
    | CreateArray(at: Option<Address>)
    | DestroyArray(array_: Address)

  predicate Free(g: Graph, a: Address) {
    a != 0 && a !in g.modules && a !in g.functions && a !in g.libraries && a !in g.kernels && a !in g.memories
    && a !in g.mipmaps && a !in g.arrays
  }

  predicate FreeIfAny(g: Graph, a: Option<Address>) {
    a.Some? ==> Free(g, a.value)
  }

  /** The allocator's promise: addresses of no live object, and different for objects of one call. */
  predicate Allocates(g: Graph, c: Call) {
    match c
    case LoadModule(at) => FreeIfAny(g, at)
    case LoadLibrary(m, at) => FreeIfAny(g, m) && FreeIfAny(g, at) && (m.Some? ==> m != at)
    case GetKernel(_, _, f, at) => FreeIfAny(g, f) && FreeIfAny(g, at) && (f.Some? ==> f != at)
    case GetFunction(_, at) => FreeIfAny(g, at)
    case ImportMemory(_, at) => FreeIfAny(g, at)
    case MapMipmap(_, _, at, levelsAt) => FreeIfAny(g, at) && LevelsFree(g, at, levelsAt)
    case CreateArray(at) => FreeIfAny(g, at)
    case _ => true
  }

  predicate LevelsFree(g: Graph, at: Option<Address>, levelsAt: seq<Option<Address>>) {
    && (forall i :: 0 <= i < |levelsAt| ==> FreeIfAny(g, levelsAt[i]) && (levelsAt[i].Some? ==> levelsAt[i] != at))
    && (forall i, j :: 0 <= i < j < |levelsAt| && levelsAt[i].Some? ==> levelsAt[i] != levelsAt[j])
  }

  // ----- what each call does -----

  /** The first level the allocator has no address for, or the number of levels. */
  function Allocated(levelsAt: seq<Option<Address>>): (n: nat)
    ensures n <= |levelsAt|
    ensures forall i :: 0 <= i < n ==> levelsAt[i].Some?
    ensures n < |levelsAt| ==> levelsAt[n].None?
  {
    if levelsAt == [] || levelsAt[0].None? then 0 else 1 + Allocated(levelsAt[1..])
  }

  /** The arrays with the first n levels of a mipmap added. */
  function WithLevels(arrays: map<Address, Array>, mipmap: Address, levelsAt: seq<Option<Address>>,
      n: nat): map<Address, Array>
    requires n <= Allocated(levelsAt)
  {
    if n == 0 then arrays
    else WithLevels(arrays, mipmap, levelsAt, n - 1)[levelsAt[n - 1].value := Array(Some(mipmap), n - 1)]
  }

  /** The functions of a library's kernels. */
  function OwnFunctions(kernels: map<Address, Kernel>, library: Address): set<Address> {
    set k | k in kernels && kernels[k].library == library :: kernels[k].function_
  }

  function OtherKernels(kernels: map<Address, Kernel>, library: Address): map<Address, Kernel> {
    map k | k in kernels && kernels[k].library != library :: kernels[k]
  }

  function OtherArrays(arrays: map<Address, Array>, mipmap: Address): map<Address, Array> {
    map a | a in arrays && arrays[a].mipmap != Some(mipmap) :: arrays[a]
  }

  function Next(g: Graph, c: Call): (Graph, Result) {
    match c
    case LoadModule(at) =>
      if at.None? then (g, OutOfMemory) else (g.(modules := g.modules + {at.value}), Success)
    case LoadLibrary(m, at) =>
      if m.None? || at.None? then (g, OutOfMemory)
      else (g.(modules := g.modules + {m.value}, libraries := g.libraries[at.value := m.value]), Success)
    case GetKernel(library, name, f, at) =>
      if library == 0 then (g, InvalidValue)
      else if library !in g.libraries || g.libraries[library] !in g.modules then (g, InvalidHandle)
      else if f.None? || at.None? then (g, OutOfMemory)
      else (g.(functions := g.functions[f.value := g.libraries[library]],
               kernels := g.kernels[at.value := Kernel(library, f.value, name)]), Success)
    case UnloadLibrary(library) =>
      if library == 0 then (g, Success)
      else if library !in g.libraries then (g, InvalidHandle)
      else (g.(kernels := OtherKernels(g.kernels, library),
               functions := g.functions - OwnFunctions(g.kernels, library),
               modules := g.modules - {g.libraries[library]}, libraries := g.libraries - {library}), Success)
    case GetFunction(m, at) =>
      if m == 0 then (g, InvalidValue)
      else if m !in g.modules then (g, InvalidHandle)
      else if at.None? then (g, OutOfMemory)
      else (g.(functions := g.functions[at.value := m]), Success)
    case UnloadModule(m) =>
      if m == 0 then (g, Success) else if m !in g.modules then (g, InvalidHandle)
      else (g.(modules := g.modules - {m}), Success)
    case ImportMemory(size, at) =>
      if size == 0 then (g, InvalidValue) else if at.None? then (g, OutOfMemory)
      else (g.(memories := g.memories[at.value := size]), Success)
    case MapMipmap(memory, offset, at, levelsAt) =>
      if levelsAt == [] then (g, InvalidValue)
      else if memory !in g.memories || offset >= g.memories[memory] then (g, InvalidHandle)
      else if at.None? || Allocated(levelsAt) < |levelsAt| then (g, OutOfMemory)
      else (g.(mipmaps := g.mipmaps[at.value := Mipmap(memory, levelsAt)],
               arrays := WithLevels(g.arrays, at.value, levelsAt, |levelsAt|)), Success)
    case DestroyMipmap(p) =>
      if p == 0 then (g, Success) else if p !in g.mipmaps then (g, InvalidHandle)
      else (g.(mipmaps := g.mipmaps - {p}, arrays := OtherArrays(g.arrays, p)), Success)
    case DestroyMemory(e) =>
      if e == 0 then (g, Success)
      else if e !in g.memories || (exists p | p in g.mipmaps :: g.mipmaps[p].memory == e) then (g, InvalidHandle)
      else (g.(memories := g.memories - {e}), Success)
    case CreateArray(at) =>
      if at.None? then (g, OutOfMemory) else (g.(arrays := g.arrays[at.value := Array(None, 0)]), Success)
    case DestroyArray(a) =>
      if a == 0 then (g, Success) else if a !in g.arrays then (g, InvalidHandle)
      else (g.(arrays := g.arrays - {a}, mipmaps := WithoutLevel(g.mipmaps, a, g.arrays[a])), Success)
  }

  /** A level array that goes takes its slot in its mipmap with it. */
  function WithoutLevel(mipmaps: map<Address, Mipmap>, a: Address, array_: Array): map<Address, Mipmap> {
    if array_.mipmap.Some? && array_.mipmap.value in mipmaps && array_.level < |mipmaps[array_.mipmap.value].levels|
      && mipmaps[array_.mipmap.value].levels[array_.level] == Some(a)
    then
      var m := mipmaps[array_.mipmap.value];
      mipmaps[array_.mipmap.value := m.(levels := m.levels[array_.level := None])]
    else mipmaps
  }

  // ----- what each call deletes -----

  /** An object of the shim: its kind and where it is. */
  datatype Object =
    | ModuleAt(at: Address)
    | FunctionAt(at: Address)
    | LibraryAt(at: Address)
    | KernelAt(at: Address)
    | MemoryAt(at: Address)
    | MipmapAt(at: Address)
    | ArrayAt(at: Address)

  function Once(b: bool): nat {
    if b then 1 else 0
  }

  /** How many of the first n levels have their array at an address. */
  function LevelsAt(levels: seq<Option<Address>>, n: nat, a: Address): nat
    requires n <= |levels|
  {
    if n == 0 then 0 else LevelsAt(levels, n - 1, a) + Once(levels[n - 1] == Some(a))
  }

  /** The kernels of a library with their function at an address, less those not yet walked. */
  function KernelsWith(kernels: map<Address, Kernel>, library: Address, rest: set<Address>, f: Address): set<Address> {
    set k | k in kernels && k !in rest && kernels[k].library == library && kernels[k].function_ == f
  }

  /** What the walk over the kernels has deleted: each kernel of the library, and its function. */
  function WalkDeletions(kernels: map<Address, Kernel>, library: Address, rest: set<Address>, o: Object): nat {
    match o
    case KernelAt(k) => Once(k in kernels && k !in rest && kernels[k].library == library)
    case FunctionAt(f) => |KernelsWith(kernels, library, rest, f)|
    case _ => 0
  }

  /** How often a call executes `delete` on an object. Unloading a library deletes the module it was loaded with
      whether or not that is still live; a call that runs out of memory deletes what it has made itself. */
  function Deletions(g: Graph, c: Call, o: Object): nat {
    match c
    case LoadLibrary(m, at) => Once(m.Some? && at.None? && o == ModuleAt(m.value))
    case GetKernel(library, _, f, at) =>
      Once(library != 0 && library in g.libraries && g.libraries[library] in g.modules && f.Some? && at.None?
           && o == FunctionAt(f.value))
    case UnloadLibrary(library) =>
      if library == 0 || library !in g.libraries then 0
      else
        WalkDeletions(g.kernels, library, {}, o)
          + Once(o == ModuleAt(g.libraries[library])) + Once(o == LibraryAt(library))
    case UnloadModule(m) => Once(m != 0 && m in g.modules && o == ModuleAt(m))
    case MapMipmap(memory, offset, at, levelsAt) =>
      if memory !in g.memories || offset >= g.memories[memory] || at.None? || Allocated(levelsAt) == |levelsAt| then 0
      else if o.ArrayAt? then LevelsAt(levelsAt, Allocated(levelsAt), o.at)
      else Once(o == MipmapAt(at.value))
    case DestroyMipmap(p) =>
      if p == 0 || p !in g.mipmaps then 0
      else if o.ArrayAt? then LevelsAt(g.mipmaps[p].levels, |g.mipmaps[p].levels|, o.at)
      else Once(o == MipmapAt(p))
    case DestroyMemory(e) => Once(e in g.memories && e !in Next(g, c).0.memories && o == MemoryAt(e))
    case DestroyArray(a) => Once(a != 0 && a in g.arrays && o == ArrayAt(a))
    case _ => 0
  }

  // ----- the invariant -----

  /** Each kernel has a live library and a live function of its own, made for the library's module. */
  predicate KernelsRight(g: Graph) {
    && (forall k :: k in g.kernels ==>
          g.kernels[k].library in g.libraries && g.kernels[k].function_ in g.functions
          && g.functions[g.kernels[k].function_] == g.libraries[g.kernels[k].library])
    && (forall k, j :: k in g.kernels && j in g.kernels && k != j ==> g.kernels[k].function_ != g.kernels[j].function_)
  }

  /** Each level of a mipmap and its array point at each other; nothing else points at a mipmap. */
  predicate LevelsRight(g: Graph) {
    && (forall p, i :: p in g.mipmaps && 0 <= i < |g.mipmaps[p].levels| && g.mipmaps[p].levels[i].Some? ==>
          g.mipmaps[p].levels[i].value in g.arrays && g.arrays[g.mipmaps[p].levels[i].value] == Array(Some(p), i))
    && (forall a :: a in g.arrays && g.arrays[a].mipmap.Some? ==>
      LevelHolds(g, g.arrays[a].mipmap.value, g.arrays[a].level, a))
  }

  predicate LevelHolds(g: Graph, p: Address, level: nat, a: Address) {
    p in g.mipmaps && level < |g.mipmaps[p].levels| && g.mipmaps[p].levels[level] == Some(a)
  }

  /** The memory of every mipmap is live. */
  predicate MemoriesRight(g: Graph) {
    forall p :: p in g.mipmaps ==> g.mipmaps[p].memory in g.memories
  }

  /** No object is at the null address. */
  predicate NoneNull(g: Graph) {
    0 !in g.modules && 0 !in g.functions && 0 !in g.libraries && 0 !in g.kernels && 0 !in g.memories && 0 !in g.mipmaps
    && 0 !in g.arrays
  }

  predicate Inv(g: Graph) {
    KernelsRight(g) && LevelsRight(g) && MemoriesRight(g) && NoneNull(g)
  }

  /** Each library has a live module of its own. */
  predicate ModulesRight(g: Graph) {
    && (forall l :: l in g.libraries ==> g.libraries[l] in g.modules)
    && (forall l, m :: l in g.libraries && m in g.libraries && l != m ==> g.libraries[l] != g.libraries[m])
  }

  // ----- every call keeps it -----

  lemma GetKernelInv(g: Graph, library: Address, name: string, f: Address, at: Address)
    requires Inv(g) && library in g.libraries && Free(g, f) && Free(g, at) && f != at
    ensures Inv(g.(functions := g.functions[f := g.libraries[library]],
        kernels := g.kernels[at := Kernel(library, f, name)]))
  {
    hide LevelHolds;
    var t := g.(functions := g.functions[f := g.libraries[library]],
        kernels := g.kernels[at := Kernel(library, f, name)]);
    SameArrays(g, t);
  }

  lemma SameArrays(g: Graph, t: Graph)
    requires LevelsRight(g) && MemoriesRight(g) && t.arrays == g.arrays && t.mipmaps == g.mipmaps
    requires g.memories.Keys <= t.memories.Keys
    ensures LevelsRight(t) && MemoriesRight(t)
  {
  }

  lemma SameKernels(g: Graph, t: Graph)
    requires KernelsRight(g) && t.functions == g.functions && t.libraries == g.libraries && t.kernels == g.kernels
    ensures KernelsRight(t)
  {
  }

  lemma UnloadLibraryInv(g: Graph, library: Address)
    requires Inv(g) && library in g.libraries && library != 0
    ensures Inv(Next(g, UnloadLibrary(library)).0)
  {
    var t := Next(g, UnloadLibrary(library)).0;
    SameArrays(g, t);
    hide LevelsRight, MemoriesRight;
  }

  lemma {:induction false} WithLevelsAt(arrays: map<Address, Array>, p: Address, levelsAt: seq<Option<Address>>,
      n: nat, a: Address)
    requires n <= Allocated(levelsAt)
    requires forall i, j :: 0 <= i < j < |levelsAt| && levelsAt[i].Some? ==> levelsAt[i] != levelsAt[j]
    ensures forall i: nat :: i < n && levelsAt[i] == Some(a) ==>
      a in WithLevels(arrays, p, levelsAt, n) && WithLevels(arrays, p, levelsAt, n)[a] == Array(Some(p), i)
    ensures (forall i: nat :: i < n ==> levelsAt[i] != Some(a)) ==>
      && (a in WithLevels(arrays, p, levelsAt, n) <==> a in arrays)
      && (a in arrays ==> WithLevels(arrays, p, levelsAt, n)[a] == arrays[a])
  {
    if n > 0 { WithLevelsAt(arrays, p, levelsAt, n - 1, a); }
  }

  lemma MapMipmapInv(g: Graph, memory: Address, at: Address, levelsAt: seq<Option<Address>>)
    requires Inv(g) && memory in g.memories && Free(g, at) && LevelsFree(g, Some(at), levelsAt)
    requires Allocated(levelsAt) == |levelsAt|
    ensures Inv(g.(mipmaps := g.mipmaps[at := Mipmap(memory, levelsAt)],
        arrays := WithLevels(g.arrays, at, levelsAt, |levelsAt|)))
  {
    var t := g.(mipmaps := g.mipmaps[at := Mipmap(memory, levelsAt)],
        arrays := WithLevels(g.arrays, at, levelsAt, |levelsAt|));
    SameKernels(g, t);
    hide KernelsRight;
    forall a: Address ensures a in t.arrays && t.arrays[a].mipmap.Some? ==>
      LevelHolds(t, t.arrays[a].mipmap.value, t.arrays[a].level, a) {
      WithLevelsAt(g.arrays, at, levelsAt, |levelsAt|, a);
    }
    MapMipmapLevels(g, t, memory, at, levelsAt);
    WithLevelsAt(g.arrays, at, levelsAt, |levelsAt|, 0);
    hide WithLevels, LevelHolds;
  }

  lemma MapMipmapLevels(g: Graph, t: Graph, memory: Address, at: Address, levelsAt: seq<Option<Address>>)
    requires LevelsRight(g) && Free(g, at) && LevelsFree(g, Some(at), levelsAt) && Allocated(levelsAt) == |levelsAt|
    requires t == g.(mipmaps := g.mipmaps[at := Mipmap(memory, levelsAt)],
        arrays := WithLevels(g.arrays, at, levelsAt, |levelsAt|))
    ensures forall p, i :: p in t.mipmaps && 0 <= i < |t.mipmaps[p].levels| && t.mipmaps[p].levels[i].Some? ==>
      t.mipmaps[p].levels[i].value in t.arrays && t.arrays[t.mipmaps[p].levels[i].value] == Array(Some(p), i)
  {
    hide WithLevels, LevelHolds;
    forall p, i | p in t.mipmaps && 0 <= i < |t.mipmaps[p].levels| && t.mipmaps[p].levels[i].Some?
      ensures t.mipmaps[p].levels[i].value in t.arrays && t.arrays[t.mipmaps[p].levels[i].value] == Array(Some(p), i) {
      WithLevelsAt(g.arrays, at, levelsAt, |levelsAt|, t.mipmaps[p].levels[i].value);
    }
  }

  lemma DestroyMipmapInv(g: Graph, p: Address)
    requires Inv(g) && p in g.mipmaps && p != 0
    ensures Inv(Next(g, DestroyMipmap(p)).0)
  {
    SameKernels(g, Next(g, DestroyMipmap(p)).0);
    hide KernelsRight;
  }

  lemma DestroyArrayInv(g: Graph, a: Address)
    requires Inv(g) && a in g.arrays && a != 0
    ensures Inv(Next(g, DestroyArray(a)).0)
  {
    SameKernels(g, Next(g, DestroyArray(a)).0);
    hide KernelsRight;
  }

  lemma CreateArrayInv(g: Graph, a: Address)
    requires Inv(g) && Free(g, a)
    ensures Inv(Next(g, CreateArray(Some(a))).0)
  {
    SameKernels(g, Next(g, CreateArray(Some(a))).0);
    hide KernelsRight;
  }

  /** Modules, functions and libraries added, modules removed: kernels and arrays stay right. */
  lemma OtherInv(g: Graph, t: Graph)
    requires Inv(g) && NoneNull(t) && t.kernels == g.kernels && t.arrays == g.arrays && t.mipmaps == g.mipmaps
    requires forall f :: f in g.functions ==> f in t.functions && t.functions[f] == g.functions[f]
    requires forall l :: l in g.libraries ==> l in t.libraries && t.libraries[l] == g.libraries[l]
    requires forall p :: p in g.mipmaps ==> g.mipmaps[p].memory in t.memories
    ensures Inv(t)
  {
    hide LevelHolds;
    assert LevelsRight(t) by { OnlyArrays(g, t); }
  }

  lemma OnlyArrays(g: Graph, t: Graph)
    requires LevelsRight(g) && t.arrays == g.arrays && t.mipmaps == g.mipmaps
    ensures LevelsRight(t)
  {
  }

  /** Every call keeps the graph's invariant, whatever it is asked and however the allocator answers. */
  lemma NextInv(g: Graph, c: Call)
    requires Inv(g) && Allocates(g, c)
    ensures Inv(Next(g, c).0)
  {
    var t := Next(g, c).0;
    if t != g {
      hide KernelsRight, LevelsRight, MemoriesRight;
      match c {
        case GetKernel(library, name, f, at) => GetKernelInv(g, library, name, f.value, at.value);
        case UnloadLibrary(library) => UnloadLibraryInv(g, library);
        case MapMipmap(memory, _, at, levelsAt) => MapMipmapInv(g, memory, at.value, levelsAt);
        case DestroyMipmap(p) => DestroyMipmapInv(g, p);
        case DestroyArray(a) => DestroyArrayInv(g, a);
        case CreateArray(at) => CreateArrayInv(g, at.value);
        case _ => MemoriesStay(g, c); OtherInv(g, t);
      }
    }
  }

  lemma MemoriesStay(g: Graph, c: Call)
    requires Inv(g) && Allocates(g, c)
    ensures (c.DestroyMemory? || c.ImportMemory? || c.LoadModule? || c.LoadLibrary? || c.GetFunction?
             || c.UnloadModule?) ==>
      forall p :: p in g.mipmaps ==> g.mipmaps[p].memory in Next(g, c).0.memories
  {
    hide KernelsRight, LevelsRight;
  }

  // ----- runs -----

  /** A run: calls with allocator answers that are legal where they are made. */
  ghost predicate Legal(g: Graph, calls: seq<Call>)
    decreases |calls|
  {
    calls != [] ==> Allocates(g, calls[0]) && Legal(Next(g, calls[0]).0, calls[1..])
  }

  function Run(g: Graph, calls: seq<Call>): Graph
    decreases |calls|
  {
    if calls == [] then g else Run(Next(g, calls[0]).0, calls[1..])
  }

  function Empty(): Graph {
    Graph({}, map[], map[], map[], map[], map[], map[])
  }

  lemma {:induction false} RunInv(g: Graph, calls: seq<Call>)
    requires Inv(g) && Legal(g, calls)
    ensures Inv(Run(g, calls))
    decreases |calls|
  {
    hide Inv, Next, Allocates;
    if calls != [] {
      NextInv(g, calls[0]);
      RunInv(Next(g, calls[0]).0, calls[1..]);
    }
  }

  /** On every run of the shim: each live kernel has a live library and its own live function, each level of a
      mipmap and its array point at each other, and a mipmap's memory is live. */
  lemma EveryRun(calls: seq<Call>)
    requires Legal(Empty(), calls)
    ensures Inv(Run(Empty(), calls))
  {
    assert Inv(Empty());
    RunInv(Empty(), calls);
  }

  /** An external memory cannot be destroyed while a mipmap uses it: over any run that does not destroy the
      mipmap, the mipmap and its memory stay. */
  lemma {:induction false} MemoryHeld(g: Graph, calls: seq<Call>, p: Address)
    requires Inv(g) && Legal(g, calls) && p in g.mipmaps && DestroyMipmap(p) !in calls
    ensures var t := Run(g, calls);
      p in t.mipmaps && t.mipmaps[p].memory == g.mipmaps[p].memory && t.mipmaps[p].memory in t.memories
    decreases |calls|
  {
    hide Next, Allocates, KernelsRight, LevelsRight;
    if calls != [] {
      NextInv(g, calls[0]);
      MipmapStays(g, calls[0], p);
      MemoryHeld(Next(g, calls[0]).0, calls[1..], p);
    }
  }

  lemma MipmapStays(g: Graph, c: Call, p: Address)
    requires Inv(g) && Allocates(g, c) && p in g.mipmaps && c != DestroyMipmap(p)
    ensures var t := Next(g, c).0; p in t.mipmaps && t.mipmaps[p].memory == g.mipmaps[p].memory
  {
    hide KernelsRight, LevelsRight, WithLevels;
  }

  /** Unloading a library removes exactly its kernels and their functions: every other kernel keeps its library
      and its function, and every other function stays. */
  lemma UnloadExact(g: Graph, library: Address)
    requires Inv(g) && library in g.libraries
    ensures var t := Next(g, UnloadLibrary(library)).0;
      && (forall k :: k in t.kernels <==> k in g.kernels && g.kernels[k].library != library)
      && (forall k :: k in t.kernels ==> t.kernels[k] == g.kernels[k] && t.kernels[k].function_ in t.functions)
      && (forall f :: f in t.functions <==> f in g.functions && f !in OwnFunctions(g.kernels, library))
      && t.libraries.Keys == g.libraries.Keys - {library}
  {
    UnloadLibraryInv(g, library);
    hide LevelsRight, MemoriesRight;
  }

  /** A kernel keeps its library, its function and its name until its library is unloaded. */
  lemma {:induction false} KernelKept(g: Graph, calls: seq<Call>, k: Address)
    requires Inv(g) && Legal(g, calls) && k in g.kernels && UnloadLibrary(g.kernels[k].library) !in calls
    ensures k in Run(g, calls).kernels && Run(g, calls).kernels[k] == g.kernels[k]
    decreases |calls|
  {
    hide Next, Allocates, Inv;
    if calls != [] {
      NextInv(g, calls[0]);
      KernelStays(g, calls[0], k);
      KernelKept(Next(g, calls[0]).0, calls[1..], k);
    }
  }

  lemma KernelStays(g: Graph, c: Call, k: Address)
    requires Allocates(g, c) && k in g.kernels && c != UnloadLibrary(g.kernels[k].library)
    ensures var t := Next(g, c).0; k in t.kernels && t.kernels[k] == g.kernels[k]
  {
    hide WithLevels, OtherArrays, WithoutLevel;
  }

  /** An external memory keeps its size until it is destroyed. */
  lemma {:induction false} SizeKept(g: Graph, calls: seq<Call>, e: Address)
    requires Legal(g, calls) && e in g.memories && DestroyMemory(e) !in calls
    ensures e in Run(g, calls).memories && Run(g, calls).memories[e] == g.memories[e]
    decreases |calls|
  {
    hide Next, Allocates;
    if calls != [] {
      SizeStays(g, calls[0], e);
      SizeKept(Next(g, calls[0]).0, calls[1..], e);
    }
  }

  lemma SizeStays(g: Graph, c: Call, e: Address)
    requires Allocates(g, c) && e in g.memories && c != DestroyMemory(e)
    ensures var t := Next(g, c).0; e in t.memories && t.memories[e] == g.memories[e]
  {
    hide WithLevels, OtherArrays, WithoutLevel, OtherKernels, OwnFunctions;
  }

  /** So a kernel asked for by a name has that name, however many calls later. */
  lemma NameKept(g: Graph, library: Address, name: string, f: Address, at: Address, calls: seq<Call>)
    requires Inv(g) && Legal(g, [GetKernel(library, name, Some(f), Some(at))] + calls)
    requires UnloadLibrary(library) !in calls
    requires library != 0 && library in g.libraries && g.libraries[library] in g.modules
    ensures var t := Run(g, [GetKernel(library, name, Some(f), Some(at))] + calls);
      at in t.kernels && t.kernels[at] == Kernel(library, f, name)
  {
    var c := GetKernel(library, name, Some(f), Some(at));
    assert ([c] + calls)[1..] == calls;
    NextInv(g, c);
    assert Next(g, c).0.kernels[at] == Kernel(library, f, name);
    hide Next, Inv;
    KernelKept(Next(g, c).0, calls, at);
  }

  /** And an offset into a memory is refused exactly from the size it was imported with. */
  lemma OffsetRefusedIff(g: Graph, size: nat, e: Address, calls: seq<Call>, offset: nat, at: Option<Address>,
                         levelsAt: seq<Option<Address>>)
    requires Legal(g, [ImportMemory(size, Some(e))] + calls) && DestroyMemory(e) !in calls && size > 0 && levelsAt != []
    ensures var t := Run(g, [ImportMemory(size, Some(e))] + calls);
      Next(t, MapMipmap(e, offset, at, levelsAt)).1 == InvalidHandle <==> offset >= size
  {
    var c := ImportMemory(size, Some(e));
    assert ([c] + calls)[1..] == calls;
    assert Next(g, c).0.memories[e] == size;
    SizeKept(Next(g, c).0, calls, e);
    hide Legal, Run, WithLevels;
  }

  // ----- a library's module -----

  predicate Owned(g: Graph, m: Address) {
    exists l | l in g.libraries :: g.libraries[l] == m
  }

  /** The one call that can leave a library without its module is unloading that module directly: the shim lets
      a module be unloaded whoever loaded it. Every other call keeps each library's module live and its own. */
  lemma ModulesRightIff(g: Graph, c: Call)
    requires Inv(g) && ModulesRight(g) && Allocates(g, c)
    ensures ModulesRight(Next(g, c).0) <==> !(c.UnloadModule? && Owned(g, c.module_))
  {
    var t := Next(g, c).0;
    hide KernelsRight, LevelsRight, MemoriesRight, WithLevels;
    if c.UnloadModule? && Owned(g, c.module_) {
      var l :| l in g.libraries && g.libraries[l] == c.module_;
      assert l in t.libraries && t.libraries[l] !in t.modules;
    } else if c.UnloadLibrary? {
      UnloadOthers(g, c.library);
    }
  }

  lemma UnloadOthers(g: Graph, library: Address)
    requires ModulesRight(g)
    ensures ModulesRight(Next(g, UnloadLibrary(library)).0)
  {
  }

  /** A run in which no library's module is unloaded directly. */
  ghost predicate Respects(g: Graph, calls: seq<Call>)
    decreases |calls|
  {
    calls != [] ==> !(calls[0].UnloadModule? && Owned(g, calls[0].module_)) && Respects(Next(g, calls[0]).0, calls[1..])
  }

  lemma {:induction false} RunModules(g: Graph, calls: seq<Call>)
    requires Inv(g) && ModulesRight(g) && Legal(g, calls) && Respects(g, calls)
    ensures ModulesRight(Run(g, calls))
    decreases |calls|
  {
    hide Inv, Next, Allocates, ModulesRight, Owned;
    if calls != [] {
      NextInv(g, calls[0]);
      ModulesRightIff(g, calls[0]);
      RunModules(Next(g, calls[0]).0, calls[1..]);
    }
  }

  /** A concrete run that loses a library's module: the library is still there, and asking it for a kernel is an
      invalid handle. */
  lemma ModuleLost()
    ensures var calls := [LoadLibrary(Some(1), Some(2)), UnloadModule(1)]; var t := Run(Empty(), calls);
      && Legal(Empty(), calls) && 2 in t.libraries && !ModulesRight(t)
      && Next(t, GetKernel(2, "k", Some(3), Some(4))).1 == InvalidHandle
  {
    var calls := [LoadLibrary(Some(1), Some(2)), UnloadModule(1)];
    var g := Next(Empty(), calls[0]).0;
    var t := Next(g, calls[1]).0;
    assert calls[1..] == [UnloadModule(1)] && calls[1..][1..] == [];
    assert Run(Empty(), calls) == Run(g, calls[1..]) == Run(t, []) == t;
    assert Legal(t, []);
    assert Legal(g, calls[1..]);
  }

  // ----- the shim -----

  /** The shim's global tables and the calls that update them in place; every `delete` executed is recorded. */
  class Shim {
    var modules: set<Address>
    var functions: map<Address, Address>
    var libraries: map<Address, Address>
    var kernels: map<Address, Kernel>
    var memories: map<Address, nat>
    var mipmaps: map<Address, Mipmap>
    var arrays: map<Address, Array>
    ghost var deleted: multiset<Object>

    function View(): Graph
      reads `modules, `functions, `libraries, `kernels, `memories, `mipmaps, `arrays
    {
      Graph(modules, functions, libraries, kernels, memories, mipmaps, arrays)
    }

    constructor ()
      ensures View() == Empty() && Inv(View()) && deleted == multiset{}
    {
      deleted := multiset{};
      modules, functions, libraries, kernels := {}, map[], map[], map[];
      memories, mipmaps, arrays := map[], map[], map[];
    }

    method CuLibraryLoad(moduleAt: Option<Address>, at: Option<Address>) returns (r: Result)
      requires Allocates(View(), LoadLibrary(moduleAt, at))
      modifies this
      ensures (View(), r) == Next(old(View()), LoadLibrary(moduleAt, at))
      ensures Deleted(old(deleted), deleted, old(View()), LoadLibrary(moduleAt, at))
    {
      if moduleAt.None? { return OutOfMemory; }
      modules := modules + {moduleAt.value};
      if at.None? {
        modules := modules - {moduleAt.value};
        deleted := deleted + multiset{ModuleAt(moduleAt.value)};
        return OutOfMemory;
      }
      libraries := libraries[at.value := moduleAt.value];
      r := Success;
    }

    method CuLibraryGetKernel(library: Address, name: string, functionAt: Option<Address>, at: Option<Address>)
        returns (r: Result)
      modifies this
      ensures (View(), r) == Next(old(View()), GetKernel(library, name, functionAt, at))
      ensures Deleted(old(deleted), deleted, old(View()), GetKernel(library, name, functionAt, at))
    {
      if library == 0 { return InvalidValue; }
      if library !in libraries || libraries[library] !in modules { return InvalidHandle; }
      if functionAt.None? { return OutOfMemory; }
      if at.None? {
        deleted := deleted + multiset{FunctionAt(functionAt.value)};
        return OutOfMemory;
      }
      functions := functions[functionAt.value := libraries[library]];
      kernels := kernels[at.value := Kernel(library, functionAt.value, name)];
      r := Success;
    }

    method CuLibraryUnload(library: Address) returns (r: Result)
      requires Inv(View())
      modifies this
      ensures (View(), r) == Next(old(View()), UnloadLibrary(library)) && Inv(View())
      ensures Deleted(old(deleted), deleted, old(View()), UnloadLibrary(library))
    {
      ghost var g := View();
      NextInv(g, UnloadLibrary(library));
      if library == 0 { return Success; }
      if library !in libraries { return InvalidHandle; }
      hide Inv;
      EraseKernels(library);
      deleted := deleted + multiset{ModuleAt(libraries[library]), LibraryAt(library)};
      modules := modules - {libraries[library]};
      libraries := libraries - {library};
      r := Success;
    }

    /** Walks all kernels and erases the library's, each with its function. */
    method EraseKernels(library: Address)
      modifies `kernels, `functions, `deleted
      ensures kernels == OtherKernels(old(kernels), library)
      ensures WalkDeleted(old(deleted), deleted, old(kernels), library, {})
      ensures functions == old(functions) - OwnFunctions(old(kernels), library)
    {
      ghost var all, before, log := kernels, functions, deleted;
      var rest := kernels.Keys;
      AllKept(all, library);
      WalkStart(all, library, log);
      hide Kept, ErasedFunctions, WalkDeletions, WalkDeleted;
      while rest != {}
        invariant rest <= all.Keys
        invariant kernels == Kept(all, library, rest) && functions == before - ErasedFunctions(all, library, rest)
        invariant WalkDeleted(log, deleted, all, library, rest)
        decreases |rest|
      {
        var k :| k in rest;
        KernelStep(all, library, rest, k);
        WalkStep(log, deleted, all, library, rest, k);
        if kernels[k].library == library {
          functions := functions - {kernels[k].function_};
          deleted := deleted + multiset{FunctionAt(kernels[k].function_), KernelAt(k)};
          kernels := kernels - {k};
        }
        rest := rest - {k};
      }
      KernelsWalked(all, library);
    }

    /** One array per level; when an allocation fails the levels made so far are taken back. */
    method CuExternalMemoryGetMappedMipmappedArray(
        memory: Address, offset: nat, at: Option<Address>, levelsAt: seq<Option<Address>>)
      returns (r: Result)
      requires Allocates(View(), MapMipmap(memory, offset, at, levelsAt))
      modifies `mipmaps, `arrays, `deleted
      ensures (View(), r) == Next(old(View()), MapMipmap(memory, offset, at, levelsAt))
      ensures Deleted(old(deleted), deleted, old(View()), MapMipmap(memory, offset, at, levelsAt))
    {
      if levelsAt == [] { return InvalidValue; }
      if memory !in memories || offset >= memories[memory] { return InvalidHandle; }
      if at.None? { return OutOfMemory; }
      ghost var g, before := View(), arrays;
      var level := 0;
      hide WithLevels;
      LevelsStart(before, at.value, levelsAt);
      while level < |levelsAt|
        invariant level <= Allocated(levelsAt) && mipmaps == g.mipmaps
        invariant arrays == WithLevels(before, at.value, levelsAt, level) && deleted == old(deleted)
      {
        LevelStep(before, at.value, levelsAt, level);
        if levelsAt[level].None? {
          TakeBack(before, at.value, levelsAt, level);
          deleted := deleted + multiset{MipmapAt(at.value)};
          return OutOfMemory;
        }
        arrays := arrays[levelsAt[level].value := Array(Some(at.value), level)];
        level := level + 1;
      }
      mipmaps := mipmaps[at.value := Mipmap(memory, levelsAt)];
      r := Success;
    }

    method TakeBack(ghost before: map<Address, Array>, ghost p: Address, levelsAt: seq<Option<Address>>, made: nat)
      requires made <= Allocated(levelsAt) && arrays == WithLevels(before, p, levelsAt, made)
      requires forall i, j :: 0 <= i < j < |levelsAt| && levelsAt[i].Some? ==> levelsAt[i] != levelsAt[j]
      requires forall i :: 0 <= i < |levelsAt| && levelsAt[i].Some? ==> levelsAt[i].value !in before
      modifies `arrays, `deleted
      ensures arrays == before && LevelsDeleted(old(deleted), deleted, levelsAt, made)
    {
      ghost var all, log := arrays, deleted;
      var i := 0;
      while i < made
        invariant i <= made && arrays == all - Addresses(levelsAt, i)
        invariant LevelsDeleted(log, deleted, levelsAt, i)
      {
        deleted := deleted + multiset{ArrayAt(levelsAt[i].value)};
        arrays := arrays - {levelsAt[i].value};
        i := i + 1;
      }
      LevelsGone(before, p, levelsAt, made);
    }

    /** Erases every level's array that is still there, then the mipmap. */
    method CuMipmappedArrayDestroy(mipmap: Address) returns (r: Result)
      requires Inv(View())
      modifies `mipmaps, `arrays, `deleted
      ensures (View(), r) == Next(old(View()), DestroyMipmap(mipmap)) && Inv(View())
      ensures Deleted(old(deleted), deleted, old(View()), DestroyMipmap(mipmap))
    {
      ghost var g := View();
      NextInv(g, DestroyMipmap(mipmap));
      if mipmap == 0 { return Success; }
      if mipmap !in mipmaps { return InvalidHandle; }
      hide Inv;
      var levels := mipmaps[mipmap].levels;
      mipmaps := mipmaps - {mipmap};
      EraseLevels(levels);
      deleted := deleted + multiset{MipmapAt(mipmap)};
      LevelsAreItsArrays(g, mipmap);
      r := Success;
    }

    method EraseLevels(levels: seq<Option<Address>>)
      modifies `arrays, `deleted
      ensures arrays == old(arrays) - SomeAddresses(levels, |levels|)
      ensures LevelsDeleted(old(deleted), deleted, levels, |levels|)
    {
      ghost var before, log := arrays, deleted;
      var i := 0;
      while i < |levels|
        invariant i <= |levels| && arrays == before - SomeAddresses(levels, i)
        invariant LevelsDeleted(log, deleted, levels, i)
      {
        if levels[i].Some? {
          deleted := deleted + multiset{ArrayAt(levels[i].value)};
          arrays := arrays - {levels[i].value};
        }
        i := i + 1;
      }
    }

    /** Looks through all mipmaps before letting the memory go. */
    method CuDestroyExternalMemory(memory: Address) returns (r: Result)
      modifies `memories, `deleted
      ensures (View(), r) == Next(old(View()), DestroyMemory(memory))
      ensures Deleted(old(deleted), deleted, old(View()), DestroyMemory(memory))
    {
      if memory == 0 { return Success; }
      if memory !in memories { return InvalidHandle; }
      var rest := mipmaps.Keys;
      while rest != {}
        invariant rest <= mipmaps.Keys && forall p :: p in mipmaps && p !in rest ==> mipmaps[p].memory != memory
        decreases |rest|
      {
        var p :| p in rest;
        if mipmaps[p].memory == memory { return InvalidHandle; }
        rest := rest - {p};
      }
      memories := memories - {memory};
      deleted := deleted + multiset{MemoryAt(memory)};
      r := Success;
    }

    method CuArrayDestroy(a: Address) returns (r: Result)
      modifies `mipmaps, `arrays, `deleted
      ensures (View(), r) == Next(old(View()), DestroyArray(a))
      ensures Deleted(old(deleted), deleted, old(View()), DestroyArray(a))
    {
      if a == 0 { return Success; }
      if a !in arrays { return InvalidHandle; }
      var state := arrays[a];
      arrays := arrays - {a};
      if state.mipmap.Some? && state.mipmap.value in mipmaps && state.level < |mipmaps[state.mipmap.value].levels|
        && mipmaps[state.mipmap.value].levels[state.level] == Some(a) {
        var m := mipmaps[state.mipmap.value];
        mipmaps := mipmaps[state.mipmap.value := Mipmap(m.memory, m.levels[state.level := None])];
      }
      deleted := deleted + multiset{ArrayAt(a)};
      r := Success;
    }

    method CuModuleUnload(m: Address) returns (r: Result)
      modifies `modules, `deleted
      ensures (View(), r) == Next(old(View()), UnloadModule(m))
      ensures Deleted(old(deleted), deleted, old(View()), UnloadModule(m))
    {
      if m == 0 { return Success; }
      if m !in modules { return InvalidHandle; }
      modules := modules - {m};
      deleted := deleted + multiset{ModuleAt(m)};
      r := Success;
    }
  }

  /** What a call adds to the deletions executed. */
  ghost predicate Deleted(before: multiset<Object>, after: multiset<Object>, g: Graph, c: Call) {
    forall o :: after[o] == before[o] + Deletions(g, c, o)
  }

  ghost predicate LevelsDeleted(before: multiset<Object>, after: multiset<Object>, levels: seq<Option<Address>>, n: nat)
    requires n <= |levels|
  {
    forall o :: after[o] == before[o] + if o.ArrayAt? then LevelsAt(levels, n, o.at) else 0
  }

  /** The kernels left when all but `rest` have been walked. */
  function Kept(kernels: map<Address, Kernel>, library: Address, rest: set<Address>): map<Address, Kernel> {
    map k | k in kernels && (k in rest || kernels[k].library != library) :: kernels[k]
  }

  function ErasedFunctions(kernels: map<Address, Kernel>, library: Address, rest: set<Address>): set<Address> {
    set k | k in kernels && k !in rest && kernels[k].library == library :: kernels[k].function_
  }

  lemma AllKept(kernels: map<Address, Kernel>, library: Address)
    ensures Kept(kernels, library, kernels.Keys) == kernels && ErasedFunctions(kernels, library, kernels.Keys) == {}
  {
  }

  lemma KernelStep(kernels: map<Address, Kernel>, library: Address, rest: set<Address>, k: Address)
    requires k in rest && rest <= kernels.Keys
    ensures k in Kept(kernels, library, rest) && Kept(kernels, library, rest)[k] == kernels[k]
    ensures Kept(kernels, library, rest - {k})
         == if kernels[k].library == library then Kept(kernels, library, rest) - {k} else Kept(kernels, library, rest)
    ensures ErasedFunctions(kernels, library, rest - {k})
         == ErasedFunctions(kernels, library, rest)
          + (if kernels[k].library == library then {kernels[k].function_} else {})
  {
  }

  ghost predicate WalkDeleted(before: multiset<Object>, after: multiset<Object>, kernels: map<Address, Kernel>,
                              library: Address, rest: set<Address>) {
    forall o :: after[o] == before[o] + WalkDeletions(kernels, library, rest, o)
  }

  lemma WalkStep(before: multiset<Object>, log: multiset<Object>, kernels: map<Address, Kernel>, library: Address,
                 rest: set<Address>, k: Address)
    requires k in rest && rest <= kernels.Keys && WalkDeleted(before, log, kernels, library, rest)
    ensures WalkDeleted(before,
      if kernels[k].library == library then log + multiset{FunctionAt(kernels[k].function_), KernelAt(k)} else log,
      kernels, library, rest - {k})
  {
    var own := kernels[k].library == library;
    forall o: Object
      ensures WalkDeletions(kernels, library, rest - {k}, o) == WalkDeletions(kernels, library, rest, o)
           + if own then multiset{FunctionAt(kernels[k].function_), KernelAt(k)}[o] else 0 {
      if o.FunctionAt? {
        var with, wider := KernelsWith(kernels, library, rest, o.at), KernelsWith(kernels, library, rest - {k}, o.at);
        assert wider == if own && kernels[k].function_ == o.at then with + {k} else with;
      }
    }
  }

  lemma WalkStart(kernels: map<Address, Kernel>, library: Address, before: multiset<Object>)
    ensures WalkDeleted(before, before, kernels, library, kernels.Keys)
  {
    forall o: Object ensures WalkDeletions(kernels, library, kernels.Keys, o) == 0 {
      if o.FunctionAt? { assert KernelsWith(kernels, library, kernels.Keys, o.at) == {}; }
    }
  }

  lemma KernelsWalked(kernels: map<Address, Kernel>, library: Address)
    ensures Kept(kernels, library, {}) == OtherKernels(kernels, library)
    ensures ErasedFunctions(kernels, library, {}) == OwnFunctions(kernels, library)
  {
  }

  lemma LevelsStart(arrays: map<Address, Array>, p: Address, levelsAt: seq<Option<Address>>)
    ensures WithLevels(arrays, p, levelsAt, 0) == arrays
  {
  }

  lemma LevelStep(arrays: map<Address, Array>, p: Address, levelsAt: seq<Option<Address>>, level: nat)
    requires level <= Allocated(levelsAt) && level < |levelsAt|
    ensures levelsAt[level].Some? <==> level < Allocated(levelsAt)
    ensures levelsAt[level].Some? ==>
      WithLevels(arrays, p, levelsAt, level + 1)
          == WithLevels(arrays, p, levelsAt, level)[levelsAt[level].value := Array(Some(p), level)]
  {
  }

  function Addresses(levelsAt: seq<Option<Address>>, n: nat): set<Address>
    requires n <= Allocated(levelsAt)
  {
    if n == 0 then {} else Addresses(levelsAt, n - 1) + {levelsAt[n - 1].value}
  }

  function SomeAddresses(levels: seq<Option<Address>>, n: nat): (r: set<Address>)
    requires n <= |levels|
    ensures forall a :: a in r <==> exists i: nat :: i < n && levels[i] == Some(a)
  {
    if n == 0 then {} else SomeAddresses(levels, n - 1) + (if levels[n - 1].Some? then {levels[n - 1].value} else {})
  }

  /** Taking back every level made leaves the arrays as they were. */
  lemma {:induction false} LevelsGone(before: map<Address, Array>, p: Address, levelsAt: seq<Option<Address>>, n: nat)
    requires n <= Allocated(levelsAt)
    requires forall i :: 0 <= i < |levelsAt| && levelsAt[i].Some? ==> levelsAt[i].value !in before
    ensures WithLevels(before, p, levelsAt, n) - Addresses(levelsAt, n) == before
  {
    if n > 0 { LevelsGone(before, p, levelsAt, n - 1); }
  }

  /** A mipmap's level arrays are exactly the arrays that point at it. */
  lemma LevelsAreItsArrays(g: Graph, p: Address)
    requires Inv(g) && p in g.mipmaps
    ensures var levels := g.mipmaps[p].levels; g.arrays - SomeAddresses(levels, |levels|) == OtherArrays(g.arrays, p)
  {
    var levels := g.mipmaps[p].levels;
    forall a | a in g.arrays ensures a in SomeAddresses(levels, |levels|) <==> g.arrays[a].mipmap == Some(p) {
      if g.arrays[a].mipmap == Some(p) {
        assert LevelHolds(g, p, g.arrays[a].level, a);
      }
    }
    hide KernelsRight, MemoriesRight;
  }
}

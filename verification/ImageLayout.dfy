/** Image uploads: the session's count of tightly packed bytes, the backend's upload plans, and the repacking
    of tight rows into aligned staging rows. */
module ImageLayout {
  import opened ByteStrings

  const WORD_LIMIT := 0x1_0000_0000_0000_0000

  datatype Extent = Extent(width: nat, height: nat, depth: nat)
  datatype Block = Block(width: nat, height: nat, bytes: nat)
  datatype Image = Image(extent: Extent, format: nat, mips: nat, layers: nat, sparse: bool)

  predicate Positive(e: Extent) {
    e.width > 0 && e.height > 0 && e.depth > 0
  }

  predicate WellFormed(i: Image) {
    Positive(i.extent) && i.mips > 0 && i.layers > 0
  }

  /** The formats the session knows. */
  function SessionBlock(format: nat): (b: Option<Block>)
    ensures b.Some? ==> b.value.width > 0 && b.value.height > 0 && b.value.bytes > 0
  {
    if format in {1, 2, 8, 9, 10} then Some(Block(1, 1, 4))
    else if format in {3, 6, 7} then Some(Block(4, 4, 16))
    else if format == 4 then Some(Block(1, 1, 2))
    else if format == 5 then Some(Block(1, 1, 8))
    else if format == 11 then Some(Block(1, 1, 16))
    else None
  }

  /** The formats the backend uploads: it has no case for format 11. */
  function BackendBlock(format: nat): (b: Option<Block>)
    ensures b.Some? ==> b.value.width > 0 && b.value.height > 0 && b.value.bytes > 0
    ensures b == if format == 11 then None else SessionBlock(format)
  {
    if format in {1, 2, 8, 9, 10} then Some(Block(1, 1, 4))
    else if format in {3, 6, 7} then Some(Block(4, 4, 16))
    else if format == 4 then Some(Block(1, 1, 2))
    else if format == 5 then Some(Block(1, 1, 8))
    else None
  }

  function Max(a: nat, b: nat): nat {
    if a < b then b else a
  }

  function Smaller(e: Extent): Extent {
    Extent(Max(1, e.width / 2), Max(1, e.height / 2), Max(1, e.depth / 2))
  }

  /** The extent of a mip level. */
  function Level(e: Extent, mip: nat): (r: Extent)
    ensures Positive(e) ==> Positive(r)
  {
    if mip == 0 then e else Smaller(Level(e, mip - 1))
  }

  function Blocks(size: nat, block: nat): (n: nat)
    requires block > 0
    ensures size > 0 ==> n > 0
  {
    (size + block - 1) / block
  }

  function RowBytes(b: Block, e: Extent): nat
    requires b.width > 0
  {
    Blocks(e.width, b.width) * b.bytes
  }

  function Rows(b: Block, e: Extent): nat
    requires b.height > 0
  {
    Blocks(e.height, b.height)
  }

  predicate Solid(b: Block) {
    b.width > 0 && b.height > 0 && b.bytes > 0
  }

  function MipBytes(b: Block, e: Extent): nat
    requires Solid(b)
  {
    RowBytes(b, e) * Rows(b, e) * e.depth
  }

  /** The bytes of the first n mip levels of one layer. */
  function MipSum(b: Block, e: Extent, n: nat): nat
    requires Solid(b)
  {
    if n == 0 then 0 else MipSum(b, e, n - 1) + MipBytes(b, Level(e, n - 1))
  }

  /** n things of one size. */
  function Scaled(n: nat, size: nat): nat {
    n * size
  }

  lemma ScaledGrow(m: nat, n: nat, size: nat)
    requires m <= n
    ensures Scaled(m, size) <= Scaled(n, size)
    ensures Scaled(m + 1, size) == Scaled(m, size) + size
    ensures m < n ==> Scaled(m, size) + size <= Scaled(n, size)
  {
    assert (m + 1) * size == m * size + size;
    Grow(m, n, size);
    if m < n { Grow(m + 1, n, size); }
  }

  /** The whole image, tightly packed: layer after layer, each with its mip levels in order. */
  function Total(b: Block, i: Image): nat
    requires Solid(b)
  {
    Scaled(i.layers, MipSum(b, i.extent, i.mips))
  }

  // ----- arithmetic -----

  lemma Grow(a: nat, b: nat, c: nat)
    requires a <= b
    ensures a * c <= b * c && c * a <= c * b
  {
  }

  lemma AtLeast(a: nat, k: nat)
    requires k > 0
    ensures a <= a * k && a <= k * a
  {
  }

  lemma Regroup(x: nat, y: nat, z: nat, w: nat)
    ensures x * y * z * w == x * w * y * z
  {
    assert x * y * z * w == (x * y) * (z * w);
    assert x * w * y * z == (x * w) * (y * z);
    assert (x * y) * (z * w) == x * (y * (z * w)) == x * ((y * z) * w);
    assert (x * w) * (y * z) == x * (w * (y * z));
  }

  lemma Split(a: nat, b: nat, c: nat)
    ensures (a + b) * c == a * c + b * c && c * (a + b) == c * a + c * b
  {
  }

  lemma Associate(a: nat, b: nat, c: nat)
    ensures a * (b * c) == (a * b) * c
  {
  }

  lemma {:induction false} MipSumGrows(b: Block, e: Extent, m: nat, n: nat)
    requires Solid(b) && m <= n
    ensures MipSum(b, e, m) <= MipSum(b, e, n)
    decreases n
  {
    if m < n { MipSumGrows(b, e, m, n - 1); }
  }

  // ----- the session's count -----

  /** Multiplication and addition that report overflow of 64 bits. */
  function Times64(a: nat, b: nat): Option<nat> {
    if a * b < WORD_LIMIT then Some(a * b) else None
  }

  function Plus64(a: nat, b: nat): Option<nat> {
    if a + b < WORD_LIMIT then Some(a + b) else None
  }

  /** The bytes of one level, each of the three products checked. */
  function CheckedBytes(b: Block, e: Extent): Option<nat>
    requires Solid(b)
  {
    match Times64(Blocks(e.width, b.width), Blocks(e.height, b.height))
    case None => None
    case Some(xy) =>
      match Times64(xy, e.depth)
      case None => None
      case Some(count) => Times64(count, b.bytes)
  }

  /** No product overflows unless the level's bytes do. */
  lemma CheckedBytesExact(b: Block, e: Extent)
    requires Solid(b) && Positive(e)
    ensures CheckedBytes(b, e) == if MipBytes(b, e) < WORD_LIMIT then Some(MipBytes(b, e)) else None
  {
    var x, y := Blocks(e.width, b.width), Blocks(e.height, b.height);
    Regroup(x, y, e.depth, b.bytes);
    assert MipBytes(b, e) == x * b.bytes * y * e.depth;
    hide Blocks, MipBytes;
    AtLeast(x * y, e.depth);
    AtLeast(x * y * e.depth, b.bytes);
  }

  /** The level's bytes, and the sum they are added to, are part of the total. */
  lemma PartOfTotal(b: Block, i: Image, mip: nat)
    requires Solid(b) && WellFormed(i) && mip < i.mips
    ensures MipSum(b, i.extent, mip + 1) == MipSum(b, i.extent, mip) + MipBytes(b, Level(i.extent, mip))
    ensures MipSum(b, i.extent, mip + 1) <= Total(b, i)
  {
    SumStep(b, i.extent, mip);
    MipSumGrows(b, i.extent, mip + 1, i.mips);
    hide MipSum, Level, MipBytes;
    AtLeast(MipSum(b, i.extent, i.mips), i.layers);
  }

  /** What the session's count should be: the exact total when it fits 64 bits, nothing otherwise. */
  function TightSize(i: Image): Option<nat> {
    if !WellFormed(i) || SessionBlock(i.format).None? || Total(SessionBlock(i.format).value, i) >= WORD_LIMIT then None
    else Some(Total(SessionBlock(i.format).value, i))
  }

  /** The session's count, with every product and sum checked for overflow. Resources have a depth of at least
      one. */
  method TightlyPackedImageSize(i: Image) returns (r: Option<nat>)
    requires i.extent.depth > 0
    ensures r == TightSize(i)
  {
    if i.extent.width == 0 || i.extent.height == 0 || i.mips == 0 || i.layers == 0 { return None; }
    var block := SessionBlock(i.format);
    if block.None? { return None; }
    var b := block.value;
    hide SessionBlock, MipSum, MipBytes, CheckedBytes, Total;
    var e := i.extent;
    var layerBytes := 0;
    var mip := 0;
    EmptySum(b, i.extent);
    while mip < i.mips
      invariant mip <= i.mips
      invariant e == Level(i.extent, mip) && layerBytes == MipSum(b, i.extent, mip)
    {
      PartOfTotal(b, i, mip);
      CheckedBytesExact(b, e);
      var bytes := CheckedBytes(b, e);
      if bytes.None? { return None; }
      var sum := Plus64(layerBytes, bytes.value);
      if sum.None? { return None; }
      layerBytes := sum.value;
      e := Smaller(e);
      mip := mip + 1;
    }
    TotalIs(b, i);
    r := Times64(layerBytes, i.layers);
  }

  lemma TotalIs(b: Block, i: Image)
    requires Solid(b)
    ensures Total(b, i) == MipSum(b, i.extent, i.mips) * i.layers
  {
    var sum := MipSum(b, i.extent, i.mips);
    hide MipSum;
    assert Scaled(i.layers, sum) == sum * i.layers;
  }

  lemma EmptySum(b: Block, e: Extent)
    requires Solid(b)
    ensures MipSum(b, e, 0) == 0
  {
  }

  // ----- what the sizes are -----

  function TwoTo(n: nat): (p: nat)
    ensures p > 0
  {
    if n == 0 then 1 else TwoTo(n - 1) + TwoTo(n - 1)
  }

  lemma HalfAgain(size: nat, p: nat)
    requires p > 0
    ensures Max(1, Max(1, size / p) / 2) == Max(1, size / (p + p))
  {
    var q, r := size / p, size % p;
    assert size == q * p + r;
    Split(q / 2, q / 2, p);
    if q % 2 == 0 {
      QuotientIs(size, p + p, q / 2, r);
    } else {
      assert q == q / 2 + q / 2 + 1;
      Split(q - 1, 1, p);
      QuotientIs(size, p + p, q / 2, p + r);
    }
  }

  lemma QuotientIs(x: nat, d: nat, q: nat, r: nat)
    requires d > 0 && x == q * d + r && r < d
    ensures x / d == q
  {
    if x / d < q { Grow(x / d + 1, q, d); } else if x / d > q { Grow(q + 1, x / d, d); }
  }

  /** Each extent of a mip level is the image's divided by the level's power of two, rounded down, but never less
      than one. */
  lemma {:induction false} LevelIs(e: Extent, n: nat)
    requires Positive(e)
    ensures var p := TwoTo(n);
      Level(e, n) == Extent(Max(1, e.width / p), Max(1, e.height / p), Max(1, e.depth / p))
  {
    if n > 0 {
      LevelIs(e, n - 1);
      hide Max;
      HalfAgain(e.width, TwoTo(n - 1));
      HalfAgain(e.height, TwoTo(n - 1));
      HalfAgain(e.depth, TwoTo(n - 1));
    } else {
      assert TwoTo(0) == 1;
    }
  }

  /** n blocks cover a size, and one less would not. */
  predicate Covers(n: nat, block: nat, size: nat) {
    n * block >= size && (n == 0 || (n - 1) * block < size)
  }

  lemma BlocksCover(size: nat, block: nat)
    requires block > 0
    ensures Covers(Blocks(size, block), block, size)
  {
    var n, r := (size + block - 1) / block, (size + block - 1) % block;
    assert size + block - 1 == n * block + r;
    if n > 0 { Split(n - 1, 1, block); }
  }

  /** The least multiple of the alignment that is large enough. */
  lemma AlignedLeast(value: nat, a: nat, m: nat)
    requires a > 0 && m % a == 0
    ensures Aligned(value, a) <= m <==> value <= m
  {
    BlocksCover(value, a);
    assert Aligned(value, a) == Blocks(value, a) * a;
    var n := m / a;
    assert m == n * a;
    hide Aligned, Blocks;
    if value <= m && n < Blocks(value, a) { Grow(n, Blocks(value, a) - 1, a); }
    if n >= Blocks(value, a) { Grow(Blocks(value, a), n, a); }
  }

  /** x by y blocks for each unit of depth cover an extent. */
  predicate Grid(b: Block, width: nat, height: nat, depth: nat, x: nat, y: nat, bytes: nat) {
    Covers(x, b.width, width) && Covers(y, b.height, height) && bytes == x * b.bytes * y * depth
  }

  /** The bytes of level n, from the image's own extent. */
  ghost predicate LevelTakes(b: Block, e: Extent, n: nat, bytes: nat) {
    var p := TwoTo(n);
    exists x: nat, y: nat :: Grid(b, Max(1, e.width / p), Max(1, e.height / p), Max(1, e.depth / p), x, y, bytes)
  }

  function Sum(sizes: seq<nat>): nat {
    if sizes == [] then 0 else Sum(sizes[..|sizes| - 1]) + sizes[|sizes| - 1]
  }

  lemma CoversOnce(m: nat, n: nat, block: nat, size: nat)
    requires Covers(m, block, size) && Covers(n, block, size)
    ensures m == n
  {
    if m < n { Grow(m, n - 1, block); } else if n < m { Grow(n, m - 1, block); }
  }

  lemma LevelTakesIs(b: Block, e: Extent, n: nat, bytes: nat)
    requires Solid(b) && Positive(e)
    ensures LevelTakes(b, e, n, bytes) <==> bytes == MipBytes(b, Level(e, n))
  {
    LevelIs(e, n);
    var l := Level(e, n);
    GridIs(b, l);
    hide Grid, Level, TwoTo, MipBytes, Max;
    if LevelTakes(b, e, n, bytes) {
      var x: nat, y: nat :| Grid(b, l.width, l.height, l.depth, x, y, bytes);
      GridOnce(b, l, x, y, bytes);
    }
  }

  lemma GridIs(b: Block, l: Extent)
    requires Solid(b)
    ensures Grid(b, l.width, l.height, l.depth, Blocks(l.width, b.width), Blocks(l.height, b.height), MipBytes(b, l))
  {
    BlocksCover(l.width, b.width);
    BlocksCover(l.height, b.height);
    hide Covers, Blocks;
  }

  lemma GridOnce(b: Block, l: Extent, x: nat, y: nat, bytes: nat)
    requires Solid(b) && Grid(b, l.width, l.height, l.depth, x, y, bytes)
    ensures bytes == MipBytes(b, l)
  {
    GridIs(b, l);
    hide Covers, Blocks, MipBytes;
    CoversOnce(x, Blocks(l.width, b.width), b.width, l.width);
    CoversOnce(y, Blocks(l.height, b.height), b.height, l.height);
  }

  /** The image's total is that of its levels, as often as it has layers. */
  lemma TotalMeans(b: Block, i: Image, sizes: seq<nat>)
    requires Solid(b) && WellFormed(i) && |sizes| == i.mips
    requires forall n :: 0 <= n < i.mips ==> LevelTakes(b, i.extent, n, sizes[n])
    ensures Total(b, i) == Sum(sizes) * i.layers
  {
    SumMeans(b, i.extent, sizes, i.mips);
    assert sizes[..i.mips] == sizes;
    hide LevelTakes, Total;
    TotalIs(b, i);
  }

  lemma {:induction false} SumMeans(b: Block, e: Extent, sizes: seq<nat>, n: nat)
    requires Solid(b) && Positive(e) && n <= |sizes| && forall k :: 0 <= k < |sizes| ==> LevelTakes(b, e, k, sizes[k])
    ensures MipSum(b, e, n) == Sum(sizes[..n])
    decreases n
  {
    hide LevelTakes, MipBytes, Level;
    if n > 0 {
      SumMeans(b, e, sizes, n - 1);
      LevelTakesIs(b, e, n - 1, sizes[n - 1]);
      SumStep(b, e, n - 1);
      assert sizes[..n][..n - 1] == sizes[..n - 1];
    } else {
      EmptySum(b, e);
    }
  }

  /** An image of five by five with two levels, the second two by two, in every format. */
  lemma FiveByFive(format: nat)
    ensures TightSize(Image(Extent(5, 5, 1), format, 2, 1, true))
         == if format in {1, 2, 8, 9, 10} then Some(29 * 4)
            else if format in {3, 6, 7} then Some(5 * 16)
            else if format == 4 then Some(29 * 2)
            else if format == 5 then Some(29 * 8)
            else if format == 11 then Some(29 * 16)
            else None
  {
    var i := Image(Extent(5, 5, 1), format, 2, 1, true);
    if SessionBlock(format).Some? {
      var b := SessionBlock(format).value;
      EmptySum(b, i.extent);
      SumStep(b, i.extent, 0);
      SumStep(b, i.extent, 1);
      assert Level(i.extent, 0) == i.extent && Level(i.extent, 1) == Extent(2, 2, 1);
      assert MipBytes(b, Extent(5, 5, 1)) == (if b.width == 1 then 25 else 4) * b.bytes;
      assert MipBytes(b, Extent(2, 2, 1)) == (if b.width == 1 then 4 else 1) * b.bytes;
      hide MipSum, Level, MipBytes, Total;
      TotalIs(b, i);
    }
  }

  // ----- the backend's plans -----

  datatype Plan = Plan(tightOffset: nat, stagingOffset: nat, rowBytes: nat, rowPitch: nat, rowCount: nat,
    extent: Extent, mip: nat, slice: nat)

  function Aligned(value: nat, alignment: nat): (r: nat)
    requires alignment > 0
    ensures r % alignment == 0 && value <= r
  {
    AlignedUp(value, alignment);
    ((value + alignment - 1) / alignment) * alignment
  }

  lemma AlignedUp(value: nat, a: nat)
    requires a > 0
    ensures ((value + a - 1) / a) * a % a == 0 && value <= ((value + a - 1) / a) * a
  {
    var q := (value + a - 1) / a;
    assert value + a - 1 == q * a + (value + a - 1) % a;
    Multiple(q, a);
  }

  lemma Multiple(q: nat, a: nat)
    requires a > 0
    ensures q * a % a == 0
  {
    var v := q * a;
    Quotient(v, a, q, 0);
    assert v == (v / a) * a + v % a;
  }

  /** All rows of a plan, depth slice after depth slice. */
  function RowTotal(p: Plan): nat {
    p.rowCount * p.extent.depth
  }

  function StagingEnd(p: Plan): nat {
    p.stagingOffset + p.rowPitch * RowTotal(p)
  }

  /** A plan describes one mip level of one layer. */
  predicate Describes(p: Plan, b: Block, i: Image, slice: nat, mip: nat, alignment: nat)
    requires Solid(b) && alignment > 0
  {
    var e := Level(i.extent, mip);
    && p.slice == slice && p.mip == mip && p.extent == e
    && p.rowBytes == RowBytes(b, e) && p.rowCount == Rows(b, e)
    && p.tightOffset == Scaled(slice, MipSum(b, i.extent, i.mips)) + MipSum(b, i.extent, mip)
    && p.stagingOffset % alignment == 0 && p.rowPitch % alignment == 0 && p.rowBytes <= p.rowPitch
  }

  /** The plans lie one after the other, inside the staging buffer. */
  predicate Packed(plans: seq<Plan>, size: nat) {
    && (forall j :: 0 <= j < |plans| ==> StagingEnd(plans[j]) <= size)
    && (forall j, k :: 0 <= j < k < |plans| ==> StagingEnd(plans[j]) <= plans[k].stagingOffset)
  }

  /** Every plan so far describes its layer and level, layer by layer. */
  ghost predicate Planned(plans: seq<Plan>, b: Block, i: Image, alignment: nat)
    requires Solid(b) && alignment > 0
  {
    forall j :: 0 <= j < |plans| ==>
      plans[j].mip < i.mips && j == plans[j].slice * i.mips + plans[j].mip
      && Describes(plans[j], b, i, plans[j].slice, plans[j].mip, alignment)
  }

  lemma PackedAppend(plans: seq<Plan>, p: Plan, size: nat)
    requires Packed(plans, size) && size <= p.stagingOffset
    ensures Packed(plans + [p], StagingEnd(p))
  {
    var all := plans + [p];
    forall j, k | 0 <= j < k < |all| ensures StagingEnd(all[j]) <= all[k].stagingOffset {
      assert all[j] == plans[j];
      if k < |plans| { assert all[k] == plans[k]; }
    }
  }

  method MakePlans(i: Image, b: Block, alignment: nat) returns (plans: seq<Plan>, tightOffset: nat, stagingSize: nat)
    requires WellFormed(i) && Solid(b) && alignment > 0
    ensures |plans| == i.layers * i.mips
    ensures Planned(plans, b, i, alignment) && Packed(plans, stagingSize)
    ensures tightOffset == Total(b, i)
  {
    plans, tightOffset, stagingSize := [], 0, 0;
    var slice := 0;
    ghost var layer := MipSum(b, i.extent, i.mips);
    hide MipSum, Blocks;
    while slice < i.layers
      invariant slice <= i.layers && |plans| == slice * i.mips
      invariant tightOffset == Scaled(slice, layer)
      invariant Planned(plans, b, i, alignment) && Packed(plans, stagingSize)
    {
      var e := i.extent;
      var mip := 0;
      EmptySum(b, i.extent);
      while mip < i.mips
        invariant mip <= i.mips && |plans| == slice * i.mips + mip
        invariant e == Level(i.extent, mip) && tightOffset == Scaled(slice, layer) + MipSum(b, i.extent, mip)
        invariant Planned(plans, b, i, alignment) && Packed(plans, stagingSize)
      {
        var rowBytes := Blocks(e.width, b.width) * b.bytes;
        var rowCount := Blocks(e.height, b.height);
        var p := Plan(tightOffset, Aligned(stagingSize, alignment), rowBytes, Aligned(rowBytes, alignment),
                      rowCount, e, mip, slice);
        PackedAppend(plans, p, stagingSize);
        SumStep(b, i.extent, mip);
        PlannedAppend(plans, p, b, i, alignment);
        plans := plans + [p];
        tightOffset := tightOffset + rowBytes * rowCount * e.depth;
        stagingSize := p.stagingOffset + p.rowPitch * (rowCount * e.depth);
        e := Smaller(e);
        mip := mip + 1;
      }
      ScaledGrow(slice, slice, layer);
      Split(slice, 1, i.mips);
      slice := slice + 1;
    }
  }

  lemma SumStep(b: Block, e: Extent, n: nat)
    requires Solid(b)
    ensures MipSum(b, e, n + 1) == MipSum(b, e, n) + MipBytes(b, Level(e, n))
  {
  }

  lemma PlannedAppend(plans: seq<Plan>, p: Plan, b: Block, i: Image, alignment: nat)
    requires Solid(b) && alignment > 0 && Planned(plans, b, i, alignment)
    requires p.mip < i.mips && |plans| == p.slice * i.mips + p.mip && Describes(p, b, i, p.slice, p.mip, alignment)
    ensures Planned(plans + [p], b, i, alignment)
  {
    hide Describes;
  }

  /** The session and the backend count the same bytes, so a completed upload always has the size the backend
      asks for: for every format but 11, which the session counts and the backend refuses. */
  lemma SizesAgree(i: Image)
    requires TightSize(i).Some?
    ensures BackendBlock(i.format).None? <==> i.format == 11
    ensures i.format != 11 ==> TightSize(i) == Some(Total(BackendBlock(i.format).value, i))
  {
    assert SessionBlock(i.format).Some?;
    hide Total;
  }

  // ----- repacking -----

  /** Row r of a plan is in place in the staging buffer. */
  predicate RowPlaced(staging: Bytes, data: Bytes, p: Plan, r: nat)
    requires p.stagingOffset + r * p.rowPitch + p.rowBytes <= |staging|
    requires p.tightOffset + r * p.rowBytes + p.rowBytes <= |data|
  {
    var to, from := p.stagingOffset + r * p.rowPitch, p.tightOffset + r * p.rowBytes;
    staging[to..to + p.rowBytes] == data[from..from + p.rowBytes]
  }

  predicate Inside(p: Plan, staging: nat, tight: nat) {
    && p.rowBytes <= p.rowPitch && StagingEnd(p) <= staging
    && p.tightOffset + p.rowBytes * RowTotal(p) <= tight
  }

  /** A row of a plan lies inside both buffers; later rows lie after it. */
  lemma RowInside(p: Plan, r: nat, staging: nat, tight: nat)
    requires Inside(p, staging, tight) && r < RowTotal(p)
    ensures p.stagingOffset + r * p.rowPitch + p.rowBytes <= StagingEnd(p) <= staging
    ensures p.tightOffset + r * p.rowBytes + p.rowBytes <= tight
  {
    Grow(r + 1, RowTotal(p), p.rowPitch);
    Grow(r + 1, RowTotal(p), p.rowBytes);
    Split(r, 1, p.rowPitch);
    Split(r, 1, p.rowBytes);
  }

  lemma RowsApart(p: Plan, q: nat, r: nat)
    requires p.rowBytes <= p.rowPitch && q < r
    ensures p.stagingOffset + q * p.rowPitch + p.rowBytes <= p.stagingOffset + r * p.rowPitch
  {
    Grow(q + 1, r, p.rowPitch);
    Split(q, 1, p.rowPitch);
  }

  /** memcpy. */
  method Copy(destination: array<Byte>, to: nat, source: Bytes, from: nat, count: nat)
    requires to + count <= destination.Length && from + count <= |source|
    modifies destination
    ensures destination[to..to + count] == source[from..from + count]
    ensures forall k :: 0 <= k < destination.Length && !(to <= k < to + count) ==> destination[k] == old(destination[k])
  {
    var i := 0;
    while i < count
      invariant i <= count
      invariant destination[to..to + i] == source[from..from + i]
      invariant forall k :: 0 <= k < destination.Length && !(to <= k < to + count) ==>
        destination[k] == old(destination[k])
    {
      destination[to + i] := source[from + i];
      assert destination[to..to + i + 1] == destination[to..to + i] + [destination[to + i]];
      assert source[from..from + i + 1] == source[from..from + i] + [source[from + i]];
      i := i + 1;
    }
  }

  /** The first n rows of a plan are placed. */
  ghost predicate Placed(staging: Bytes, data: Bytes, p: Plan, n: nat)
    requires Inside(p, |staging|, |data|) && n <= RowTotal(p)
  {
    forall r: nat :: r < n ==> RowAt(staging, data, p, r)
  }

  predicate RowAt(staging: Bytes, data: Bytes, p: Plan, r: nat)
    requires Inside(p, |staging|, |data|) && r < RowTotal(p)
  {
    RowInside(p, r, |staging|, |data|);
    RowPlaced(staging, data, p, r)
  }

  lemma SliceKept(before: Bytes, after: Bytes, at: nat, n: nat, to: nat, count: nat)
    requires |before| == |after| && at + n <= |before| && (at + n <= to || to + count <= at)
    requires forall k :: 0 <= k < |before| && !(to <= k < to + count) ==> after[k] == before[k]
    ensures after[at..at + n] == before[at..at + n]
  {
  }

  /** Bytes written outside a row leave it in place. */
  lemma RowKept(before: Bytes, after: Bytes, data: Bytes, p: Plan, r: nat, to: nat, count: nat)
    requires |before| == |after| && Inside(p, |before|, |data|) && r < RowTotal(p)
    requires forall k :: 0 <= k < |before| && !(to <= k < to + count) ==> after[k] == before[k]
    requires var at := p.stagingOffset + r * p.rowPitch; at + p.rowBytes <= to || to + count <= at
    requires RowAt(before, data, p, r)
    ensures RowAt(after, data, p, r)
  {
    RowInside(p, r, |before|, |data|);
    SliceKept(before, after, p.stagingOffset + r * p.rowPitch, p.rowBytes, to, count);
    hide Inside, RowTotal;
  }

  /** Writing at or past the end of every placed row keeps them all. */
  lemma PlacedKept(before: Bytes, after: Bytes, data: Bytes, p: Plan, n: nat, to: nat, count: nat)
    requires |before| == |after| && Inside(p, |before|, |data|) && n <= RowTotal(p)
    requires forall k :: 0 <= k < |before| && !(to <= k < to + count) ==> after[k] == before[k]
    requires p.stagingOffset + n * p.rowPitch <= to
    requires Placed(before, data, p, n)
    ensures Placed(after, data, p, n)
  {
    forall r: nat | r < n ensures RowAt(after, data, p, r) {
      RowsApart(p, r, n);
      RowKept(before, after, data, p, r, to, count);
    }
  }

  ghost predicate AllPlaced(staging: Bytes, data: Bytes, plans: seq<Plan>, n: nat)
    requires n <= |plans| && forall j :: 0 <= j < |plans| ==> Inside(plans[j], |staging|, |data|)
  {
    forall j :: 0 <= j < n ==> Placed(staging, data, plans[j], RowTotal(plans[j]))
  }

  lemma EarlierKept(before: Bytes, after: Bytes, data: Bytes, plans: seq<Plan>, n: nat, to: nat, count: nat)
    requires n < |plans| && |before| == |after| && Packed(plans, |before|)
    requires forall j :: 0 <= j < |plans| ==> Inside(plans[j], |before|, |data|)
    requires forall k :: 0 <= k < |before| && !(to <= k < to + count) ==> after[k] == before[k]
    requires plans[n].stagingOffset <= to
    requires AllPlaced(before, data, plans, n)
    ensures AllPlaced(after, data, plans, n)
  {
    forall j | 0 <= j < n ensures Placed(after, data, plans[j], RowTotal(plans[j])) {
      assert StagingEnd(plans[j]) <= plans[n].stagingOffset;
      assert RowTotal(plans[j]) * plans[j].rowPitch == plans[j].rowPitch * RowTotal(plans[j]);
      PlacedKept(before, after, data, plans[j], RowTotal(plans[j]), to, count);
    }
  }

  /** One row: the rows before it stay, and it is placed. */
  method PlaceRow(staging: array<Byte>, data: Bytes, ghost plans: seq<Plan>, ghost n: nat, p: Plan, r: nat)
    requires n < |plans| && plans[n] == p && r < RowTotal(p) && Packed(plans, staging.Length)
    requires forall j :: 0 <= j < |plans| ==> Inside(plans[j], staging.Length, |data|)
    requires AllPlaced(staging[..], data, plans, n) && Placed(staging[..], data, p, r)
    modifies staging
    ensures AllPlaced(staging[..], data, plans, n) && Placed(staging[..], data, p, r + 1)
  {
    ghost var before := staging[..];
    RowInside(p, r, staging.Length, |data|);
    var to := p.stagingOffset + r * p.rowPitch;
    Copy(staging, to, data, p.tightOffset + r * p.rowBytes, p.rowBytes);
    ghost var after := staging[..];
    assert staging[to..to + p.rowBytes] == after[to..to + p.rowBytes];
    assert RowAt(after, data, p, r);
    hide *;
    EarlierKept(before, after, data, plans, n, to, p.rowBytes);
    PlacedKept(before, after, data, p, r, to, p.rowBytes);
    PlacedOneMore(after, data, p, r);
  }

  lemma PlacedOneMore(staging: Bytes, data: Bytes, p: Plan, r: nat)
    requires Inside(p, |staging|, |data|) && r < RowTotal(p)
    requires Placed(staging, data, p, r) && RowAt(staging, data, p, r)
    ensures Placed(staging, data, p, r + 1)
  {
    hide RowAt, Inside, RowTotal;
  }

  /** The repack loops: plan by plan, depth slice by depth slice, row by row. */
  method Repack(staging: array<Byte>, data: Bytes, plans: seq<Plan>)
    requires Packed(plans, staging.Length)
    requires forall j :: 0 <= j < |plans| ==> Inside(plans[j], staging.Length, |data|)
    modifies staging
    ensures AllPlaced(staging[..], data, plans, |plans|)
  {
    var n := 0;
    hide Packed, Inside, Placed, RowTotal;
    while n < |plans|
      invariant n <= |plans|
      invariant AllPlaced(staging[..], data, plans, n)
    {
      var p := plans[n];
      var z := 0;
      NothingPlaced(staging[..], data, p);
      while z < p.extent.depth
        invariant z <= p.extent.depth && z * p.rowCount <= RowTotal(p)
        invariant AllPlaced(staging[..], data, plans, n) && Placed(staging[..], data, p, z * p.rowCount)
      {
        var row := 0;
        SliceRows(p, z);
        while row < p.rowCount
          invariant row <= p.rowCount
          invariant AllPlaced(staging[..], data, plans, n) && Placed(staging[..], data, p, z * p.rowCount + row)
        {
          PlaceRow(staging, data, plans, n, p, z * p.rowCount + row);
          row := row + 1;
        }
        z := z + 1;
      }
      AllSlices(p);
      n := n + 1;
    }
  }

  lemma NothingPlaced(staging: Bytes, data: Bytes, p: Plan)
    requires Inside(p, |staging|, |data|)
    ensures Placed(staging, data, p, 0)
  {
  }

  lemma SliceRows(p: Plan, z: nat)
    requires z < p.extent.depth
    ensures z * p.rowCount + p.rowCount == (z + 1) * p.rowCount <= RowTotal(p)
  {
    Split(z, 1, p.rowCount);
    Grow(z + 1, p.extent.depth, p.rowCount);
  }

  lemma AllSlices(p: Plan)
    ensures p.extent.depth * p.rowCount == RowTotal(p)
  {
  }

  // ----- the whole upload -----

  /** Where the packed bytes of a row of a mip level of a layer start: an independent address, counted from
      the sizes of everything before it. */
  function RowAddress(b: Block, i: Image, slice: nat, mip: nat, row: nat): nat
    requires Solid(b)
  {
    Scaled(slice, MipSum(b, i.extent, i.mips)) + MipSum(b, i.extent, mip)
      + Scaled(row, RowBytes(b, Level(i.extent, mip)))
  }

  /** All rows of a mip level, depth slice after depth slice. */
  function LevelRows(b: Block, i: Image, mip: nat): nat
    requires Solid(b)
  {
    Rows(b, Level(i.extent, mip)) * Level(i.extent, mip).depth
  }

  /** Every row lies inside its level, its layer and the image's bytes. */
  lemma AddressInside(b: Block, i: Image, slice: nat, mip: nat, row: nat)
    requires Solid(b) && slice < i.layers && mip < i.mips && row < LevelRows(b, i, mip)
    ensures RowAddress(b, i, slice, mip, row) + RowBytes(b, Level(i.extent, mip))
         <= Scaled(slice, MipSum(b, i.extent, i.mips)) + MipSum(b, i.extent, mip + 1)
         <= Scaled(slice + 1, MipSum(b, i.extent, i.mips)) <= Total(b, i)
  {
    MipSumGrows(b, i.extent, mip + 1, i.mips);
    SumStep(b, i.extent, mip);
    LevelBytes(b, i, mip);
    hide MipSum, RowBytes, LevelRows, MipBytes, Scaled;
    ScaledGrow(slice, i.layers, MipSum(b, i.extent, i.mips));
    ScaledGrow(slice + 1, i.layers, MipSum(b, i.extent, i.mips));
    ScaledGrow(row, LevelRows(b, i, mip), RowBytes(b, Level(i.extent, mip)));
  }

  lemma LevelBytes(b: Block, i: Image, mip: nat)
    requires Solid(b)
    ensures Scaled(LevelRows(b, i, mip), RowBytes(b, Level(i.extent, mip))) == MipBytes(b, Level(i.extent, mip))
  {
    var e := Level(i.extent, mip);
    hide RowBytes, Rows, Level;
    Associate(RowBytes(b, e), Rows(b, e), e.depth);
  }

  /** Places before: an earlier row, level or layer. */
  predicate Before(slice: nat, mip: nat, row: nat, slice': nat, mip': nat, row': nat) {
    slice < slice' || (slice == slice' && (mip < mip' || (mip == mip' && row < row')))
  }

  /** Rows of different places do not overlap. */
  lemma AddressesApart(b: Block, i: Image, slice: nat, mip: nat, row: nat, slice': nat, mip': nat, row': nat)
    requires Solid(b) && slice' < i.layers && mip < i.mips && mip' < i.mips && row < LevelRows(b, i, mip)
    requires Before(slice, mip, row, slice', mip', row')
    ensures RowAddress(b, i, slice, mip, row) + RowBytes(b, Level(i.extent, mip))
        <= RowAddress(b, i, slice', mip', row')
  {
    AddressInside(b, i, slice, mip, row);
    hide MipSum, RowBytes, LevelRows, Scaled, Total, Level;
    if slice < slice' {
      ScaledGrow(slice + 1, slice', MipSum(b, i.extent, i.mips));
    } else if mip < mip' {
      MipSumGrows(b, i.extent, mip + 1, mip');
    } else {
      ScaledGrow(row, row', RowBytes(b, Level(i.extent, mip)));
    }
  }

  lemma {:induction false} LevelOf(b: Block, e: Extent, offset: nat, n: nat) returns (mip: nat)
    requires Solid(b) && offset < MipSum(b, e, n)
    ensures mip < n && MipSum(b, e, mip) <= offset < MipSum(b, e, mip + 1)
  {
    if offset >= MipSum(b, e, n - 1) { mip := n - 1; } else { mip := LevelOf(b, e, offset, n - 1); }
  }

  lemma Divide(v: nat, d: nat, limit: nat) returns (q: nat, r: nat)
    requires v < Scaled(limit, d)
    ensures q < limit && v == Scaled(q, d) + r && r < d
  {
    assert d != 0;
    q, r := v / d, v % d;
    if q >= limit { Grow(limit, q, d); }
  }

  /** And to at least one: with AddressesApart, exactly one. */
  lemma RowOfByte(b: Block, i: Image, t: nat) returns (slice: nat, mip: nat, row: nat, column: nat)
    requires Solid(b) && t < Total(b, i)
    ensures slice < i.layers && mip < i.mips && row < LevelRows(b, i, mip) && column < RowBytes(b, Level(i.extent, mip))
    ensures t == RowAddress(b, i, slice, mip, row) + column
  {
    var offset;
    hide MipSum, RowBytes, LevelRows, Scaled, MipBytes, Level;
    slice, offset := Divide(t, MipSum(b, i.extent, i.mips), i.layers);
    mip := LevelOf(b, i.extent, offset, i.mips);
    SumStep(b, i.extent, mip);
    LevelBytes(b, i, mip);
    row, column := Divide(offset - MipSum(b, i.extent, mip), RowBytes(b, Level(i.extent, mip)), LevelRows(b, i, mip));
  }

  /** How the texture's rows reach the GPU: straight from the data, or from the staging buffer by the plans. */
  datatype Upload = Direct(data: Bytes, bytesPerRow: nat, bytesPerImage: nat) | Staged(staging: Bytes, plans: seq<Plan>)
  datatype UploadResult = Done(upload: Upload) | Unsupported | OutOfBounds | Unavailable

  /** The row a copy command reads for depth slice z and row y of a mip level of a layer. */
  function RowRead(u: Upload, mips: nat, rowBytes: nat, slice: nat, mip: nat, z: nat, y: nat): Option<Bytes> {
    match u
    case Direct(data, bytesPerRow, bytesPerImage) =>
      var at := z * bytesPerImage + y * bytesPerRow;
      if at + rowBytes <= |data| then Some(data[at..at + rowBytes]) else None
    case Staged(staging, plans) =>
      if slice * mips + mip >= |plans| then None else
      var p := plans[slice * mips + mip];
      var at := p.stagingOffset + z * (p.rowPitch * p.rowCount) + y * p.rowPitch;
      if at + rowBytes <= |staging| then Some(staging[at..at + rowBytes]) else None
  }

  /** Every row the GPU reads is the image's own packed row. */
  ghost predicate Faithful(u: Upload, b: Block, i: Image, data: Bytes)
    requires Solid(b) && |data| == Total(b, i)
  {
    forall slice: nat, mip: nat, z: nat, y: nat ::
      slice < i.layers && mip < i.mips && z < Level(i.extent, mip).depth && y < Rows(b, Level(i.extent, mip)) ==>
      RowRead(u, i.mips, RowBytes(b, Level(i.extent, mip)), slice, mip, z, y) == PackedRow(b, i, data, slice, mip, z, y)
  }

  function PackedRow(b: Block, i: Image, data: Bytes, slice: nat, mip: nat, z: nat, y: nat): Option<Bytes>
    requires Solid(b)
  {
    var n := RowBytes(b, Level(i.extent, mip));
    var at := RowAddress(b, i, slice, mip, z * Rows(b, Level(i.extent, mip)) + y);
    if at + n <= |data| then Some(data[at..at + n]) else None
  }

  lemma PlanInside(plans: seq<Plan>, b: Block, i: Image, alignment: nat, size: nat, j: nat)
    requires WellFormed(i) && Solid(b) && alignment > 0 && |plans| == i.layers * i.mips
    requires Planned(plans, b, i, alignment) && Packed(plans, size) && j < |plans|
    ensures Inside(plans[j], size, Total(b, i))
  {
    var p := plans[j];
    PlanSlice(p.slice, p.mip, i.layers, i.mips);
    assert StagingEnd(p) <= size;
    PlanTight(p, b, i, alignment);
  }

  lemma PlanSlice(slice: nat, mip: nat, layers: nat, mips: nat)
    requires slice * mips + mip < layers * mips
    ensures slice < layers
  {
    if slice >= layers { Grow(layers, slice, mips); }
  }

  lemma PlanTight(p: Plan, b: Block, i: Image, alignment: nat)
    requires Solid(b) && alignment > 0 && p.slice < i.layers && p.mip < i.mips
    requires Describes(p, b, i, p.slice, p.mip, alignment)
    ensures p.tightOffset + p.rowBytes * RowTotal(p) <= Total(b, i)
  {
    hide MipSum, RowBytes, MipBytes, Level, Rows;
    LevelBytes(b, i, p.mip);
    assert p.rowBytes * RowTotal(p) == Scaled(LevelRows(b, i, p.mip), RowBytes(b, Level(i.extent, p.mip)));
    hide Scaled, LevelRows;
    SumStep(b, i.extent, p.mip);
    MipSumGrows(b, i.extent, p.mip + 1, i.mips);
    ScaledGrow(p.slice, i.layers, MipSum(b, i.extent, i.mips));
  }

  lemma StagingAt(p: Plan, z: nat, y: nat)
    ensures z * (p.rowPitch * p.rowCount) + y * p.rowPitch == (z * p.rowCount + y) * p.rowPitch
  {
    Associate(z, p.rowCount, p.rowPitch);
    assert p.rowPitch * p.rowCount == p.rowCount * p.rowPitch;
    Split(z * p.rowCount, y, p.rowPitch);
  }

  /** Reading a placed plan by depth slice and row finds the plan's tight row. */
  lemma PlanRow(staging: Bytes, p: Plan, data: Bytes, z: nat, y: nat, at: nat, from: nat)
    requires Inside(p, |staging|, |data|) && Placed(staging, data, p, RowTotal(p))
    requires z < p.extent.depth && y < p.rowCount
    requires at == p.stagingOffset + z * (p.rowPitch * p.rowCount) + y * p.rowPitch
    requires from == p.tightOffset + (z * p.rowCount + y) * p.rowBytes
    ensures at + p.rowBytes <= |staging| && from + p.rowBytes <= |data|
    ensures staging[at..at + p.rowBytes] == data[from..from + p.rowBytes]
  {
    StagingAt(p, z, y);
    SliceRows(p, z);
    RowSlices(staging, p, data, z * p.rowCount + y, at, from);
  }

  lemma RowSlices(staging: Bytes, p: Plan, data: Bytes, r: nat, at: nat, from: nat)
    requires Inside(p, |staging|, |data|) && Placed(staging, data, p, RowTotal(p)) && r < RowTotal(p)
    requires at == p.stagingOffset + r * p.rowPitch && from == p.tightOffset + r * p.rowBytes
    ensures at + p.rowBytes <= |staging| && from + p.rowBytes <= |data|
    ensures staging[at..at + p.rowBytes] == data[from..from + p.rowBytes]
  {
    hide RowTotal, Inside;
    RowInside(p, r, |staging|, |data|);
    assert RowAt(staging, data, p, r);
  }

  /** The plan of a slice and a mip level stands at its place in the list. */
  lemma PlanFor(plans: seq<Plan>, b: Block, i: Image, alignment: nat, slice: nat, mip: nat)
    requires Solid(b) && alignment > 0 && Planned(plans, b, i, alignment)
    requires slice < i.layers && mip < i.mips && slice * i.mips + mip < |plans|
    ensures Describes(plans[slice * i.mips + mip], b, i, slice, mip, alignment)
  {
    hide Describes, Solid;
    var p := plans[slice * i.mips + mip];
    SamePlace(p.slice, p.mip, slice, mip, i.mips);
  }

  /** A row read from staging is the packed row. */
  lemma StagedRow(u: Upload, b: Block, i: Image, alignment: nat, data: Bytes, slice: nat, mip: nat, z: nat, y: nat)
    requires WellFormed(i) && Solid(b) && alignment > 0 && |data| == Total(b, i)
    requires u.Staged? && |u.plans| == i.layers * i.mips && Planned(u.plans, b, i, alignment)
    requires forall j :: 0 <= j < |u.plans| ==> Inside(u.plans[j], |u.staging|, |data|)
    requires AllPlaced(u.staging, data, u.plans, |u.plans|)
    requires slice < i.layers && mip < i.mips && z < Level(i.extent, mip).depth && y < Rows(b, Level(i.extent, mip))
    ensures RowRead(u, i.mips, RowBytes(b, Level(i.extent, mip)), slice, mip, z, y)
        == PackedRow(b, i, data, slice, mip, z, y)
  {
    hide Inside, Placed, RowTotal, RowBytes, Rows, Level, MipSum, Planned;
    var j := slice * i.mips + mip;
    PlanIndex(slice, mip, i.layers, i.mips);
    var p := u.plans[j];
    PlanFor(u.plans, b, i, alignment, slice, mip);
    PlanRow(u.staging, p, data, z, y, p.stagingOffset + z * (p.rowPitch * p.rowCount) + y * p.rowPitch,
            p.tightOffset + (z * p.rowCount + y) * p.rowBytes);
    ScaledIs(z * p.rowCount + y, p.rowBytes);
    hide AllPlaced, Describes, Scaled, Total, WellFormed, Solid;
  }

  lemma ScaledIs(n: nat, size: nat)
    ensures n * size == Scaled(n, size)
  {
  }

  lemma PlanIndex(slice: nat, mip: nat, layers: nat, mips: nat)
    requires slice < layers && mip < mips
    ensures slice * mips + mip < layers * mips
  {
    Grow(slice + 1, layers, mips);
    Split(slice, 1, mips);
  }

  lemma SamePlace(s: nat, m: nat, slice: nat, mip: nat, mips: nat)
    requires m < mips && mip < mips && s * mips + m == slice * mips + mip
    ensures s == slice && m == mip
  {
    if s < slice { Grow(s + 1, slice, mips); } else if slice < s { Grow(slice + 1, s, mips); }
  }

  /** A single uncompressed level is read straight from the data. */
  lemma DirectRow(b: Block, i: Image, data: Bytes, z: nat, y: nat)
    requires WellFormed(i) && i.mips == 1 && i.layers == 1 && Solid(b) && |data| == Total(b, i)
    requires z < i.extent.depth && y < Rows(b, i.extent)
    ensures var n := RowBytes(b, i.extent);
      RowRead(Direct(data, n, n * Rows(b, i.extent)), 1, n, 0, 0, z, y) == PackedRow(b, i, data, 0, 0, z, y)
  {
    var n, rows := RowBytes(b, i.extent), Rows(b, i.extent);
    EmptySum(b, i.extent);
    assert Level(i.extent, 0) == i.extent;
    hide RowBytes, Rows, MipSum, Level, Total;
    StagingAt(Plan(0, 0, n, n, rows, i.extent, 0, 0), z, y);
    assert RowAddress(b, i, 0, 0, z * rows + y) == (z * rows + y) * n;
  }

  lemma StagingNeeded(plans: seq<Plan>, b: Block, i: Image, alignment: nat, size: nat)
    requires WellFormed(i) && Solid(b) && alignment > 0 && |plans| == i.layers * i.mips
    requires Planned(plans, b, i, alignment) && Packed(plans, size)
    ensures size > 0
  {
    AtLeast(i.mips, i.layers);
    var p := plans[0];
    assert Positive(Level(i.extent, p.mip));
    AtLeast(b.bytes, Blocks(p.extent.width, b.width));
    AtLeast(p.rowCount, p.extent.depth);
    AtLeast(p.rowPitch, RowTotal(p));
  }

  /** writeImage: the plans, the size check, then the direct or the staged path; `granted` says whether the
      staging buffer could be made. */
  method WriteImage(i: Image, data: Bytes, deviceAlignment: nat, granted: bool) returns (r: UploadResult)
    requires WellFormed(i)
    ensures BackendBlock(i.format).None? <==> r == Unsupported
    ensures BackendBlock(i.format).Some? ==> (|data| != Total(BackendBlock(i.format).value, i) <==> r == OutOfBounds)
    ensures r.Done? ==> Faithful(r.upload, BackendBlock(i.format).value, i, data)
    ensures r == Unavailable ==> !granted
  {
    var block := BackendBlock(i.format);
    if block.None? { return Unsupported; }
    var b := block.value;
    hide BackendBlock, MipSum;
    var alignment := if b.width > 1 || b.height > 1 then 256 else Max(1, deviceAlignment);
    var plans, tight, size := MakePlans(i, b, alignment);
    if |data| != tight { return OutOfBounds; }
    if !i.sparse && i.mips == 1 && i.layers == 1 && b.width == 1 && b.height == 1 {
      var p := plans[0];
      assert Describes(p, b, i, 0, 0, alignment);
      forall z: nat, y: nat | z < i.extent.depth && y < Rows(b, i.extent)
        ensures RowRead(Direct(data, p.rowBytes, p.rowBytes * p.rowCount), 1, p.rowBytes, 0, 0, z, y)
             == PackedRow(b, i, data, 0, 0, z, y) {
        DirectRow(b, i, data, z, y);
      }
      return Done(Direct(data, p.rowBytes, p.rowBytes * p.rowCount));
    }
    StagingNeeded(plans, b, i, alignment, size);
    if size == 0 || !granted {
      return Unavailable;
    }
    var staging := new Byte[size];
    forall j | 0 <= j < |plans| ensures Inside(plans[j], size, |data|) {
      PlanInside(plans, b, i, alignment, size, j);
    }
    Repack(staging, data, plans);
    var u := Staged(staging[..], plans);
    StagedFaithful(u, b, i, alignment, data);
    r := Done(u);
  }

  lemma StagedFaithful(u: Upload, b: Block, i: Image, alignment: nat, data: Bytes)
    requires WellFormed(i) && Solid(b) && alignment > 0 && |data| == Total(b, i)
    requires u.Staged? && |u.plans| == i.layers * i.mips && Planned(u.plans, b, i, alignment)
    requires forall j :: 0 <= j < |u.plans| ==> Inside(u.plans[j], |u.staging|, |data|)
    requires AllPlaced(u.staging, data, u.plans, |u.plans|)
    ensures Faithful(u, b, i, data)
  {
    hide RowRead, PackedRow, Total, Planned, AllPlaced, Inside;
    forall slice: nat, mip: nat, z: nat, y: nat
      | slice < i.layers && mip < i.mips && z < Level(i.extent, mip).depth && y < Rows(b, Level(i.extent, mip))
      ensures RowRead(u, i.mips, RowBytes(b, Level(i.extent, mip)), slice, mip, z, y)
          == PackedRow(b, i, data, slice, mip, z, y) {
      StagedRow(u, b, i, alignment, data, slice, mip, z, y);
    }
  }
}

/** The per-instance lookup tables of a top-level acceleration structure: how the build flattens each child's
    triangle data, what the ray shader's guarded lookups read back, the texture slots, and the transformed
    normals. */
module InstanceTables {
  import opened ByteStrings

  const MAX32 := 0xffff_ffff

  datatype Vector = Vector(x: real, y: real, z: real)
  datatype UV = UV(u: real, v: real)

  /** One child's data: so many values for each triangle. */
  datatype Local<T> = Local(values: seq<T>, triangles: nat, perTriangle: nat)

  datatype Parameters = Parameters(roughness: real, metallic: real, emission: Vector, intensity: real)

  datatype Child = Child(normals: Option<Local<Vector>>, tangents: Option<Local<Vector>>, uvs: Option<Local<UV>>,
    parameters: Option<Parameters>)

  /** A material named by an instance's user ID: five texture IDs and the packed channel word. */
  datatype Material = Material(textures: seq<nat>, channels: nat, opacity: Option<(real, real)>, cutout: bool)

  type Transform = t: seq<real> | |t| == 12 witness seq(12, i => 0.0)

  /** An instance with the structure its child ID resolves to, if it is a built one, and the material its user
      ID resolves to; `finite` says whether all of its transform is, and only then do the reals stand for it. */
  datatype Instance = Instance(transform: Transform, finite: bool, options: nat, mask: nat, tableOffset: nat,
    userID: nat, child: Option<Child>, material: Option<Material>)

  /** What the build demands of an instance before it looks at the data. */
  predicate Accepted(i: Instance) {
    i.finite && i.options < 16 && i.mask <= 0xff && i.tableOffset <= 0xff_ffff && i.userID <= 0xff_ffff && i.child.Some?
  }

  // ----- flattening -----

  datatype Range = Range(first: nat, triangles: nat, perTriangle: nat)

  datatype Flat<T> = Flat(data: seq<T>, ranges: seq<Range>)

  predicate Whole<T>(l: Local<T>) {
    l.perTriangle > 0 && |l.values| == l.triangles * l.perTriangle
  }

  /** One more instance: its data at the end, if it has some and every index still fits 32 bits. */
  function Append<T>(f: Flat<T>, part: Option<Local<T>>): Flat<T> {
    if part.Some? && |f.data| + |part.value.values| <= MAX32
    then Flat(f.data + part.value.values, f.ranges + [Range(|f.data|, part.value.triangles, part.value.perTriangle)])
    else Flat(f.data, f.ranges + [Range(0, 0, 0)])
  }

  function Flatten<T>(parts: seq<Option<Local<T>>>): (f: Flat<T>)
    ensures |f.ranges| == |parts|
  {
    if parts == [] then Flat([], []) else Append(Flatten(parts[..|parts| - 1]), parts[|parts| - 1])
  }

  /** All data is within reach of a 32-bit index. */
  lemma {:induction false} DataFits<T>(parts: seq<Option<Local<T>>>)
    ensures |Flatten(parts).data| <= 0xffff_ffff
  {
    if parts != [] { DataFits(parts[..|parts| - 1]); }
  }

  /** The shader's guarded lookup: the instance below the count, the triangle below its range's. */
  function Lookup<T>(f: Flat<T>, instanceCount: nat, k: nat, triangle: nat, corner: nat): Option<T> {
    if k < instanceCount && k < |f.ranges| && triangle < f.ranges[k].triangles then
      var at := f.ranges[k].first + triangle * f.ranges[k].perTriangle + corner;
      if at < |f.data| then Some(f.data[at]) else None
    else None
  }

  /** The count the shader is given: no instances when there is no data at all. */
  function InstanceCount<T>(f: Flat<T>): nat {
    if |f.data| == 0 then 0 else |f.ranges|
  }

  /** The data of instance k is in the flattened tables: it has some, and it fitted. */
  predicate Included<T>(parts: seq<Option<Local<T>>>, k: nat)
    requires k < |parts|
  {
    parts[k].Some? && |Flatten(parts[..k]).data| + |parts[k].value.values| <= MAX32
  }

  lemma {:induction false} RangeOf<T>(parts: seq<Option<Local<T>>>, n: nat, k: nat)
    requires k < n <= |parts|
    ensures var f := Flatten(parts[..n]); var start := |Flatten(parts[..k]).data|;
      if Included(parts, k)
      then f.ranges[k] == Range(start, parts[k].value.triangles, parts[k].value.perTriangle)
        && start + |parts[k].value.values| <= |f.data|
        && f.data[start..start + |parts[k].value.values|] == parts[k].value.values
      else f.ranges[k] == Range(0, 0, 0)
  {
    var f, g := Flatten(parts[..n]), Flatten(parts[..n - 1]);
    assert parts[..n][..n - 1] == parts[..n - 1] && parts[..n][n - 1] == parts[n - 1];
    assert f == Append(g, parts[n - 1]);
    hide Flatten;
    if k < n - 1 {
      RangeOf(parts, n - 1, k);
      if Included(parts, k) {
        SliceOfPrefix(g.data, f.data, |Flatten(parts[..k]).data|, |parts[k].value.values|);
      }
    } else if Included(parts, k) {
      TailSlice(g.data, parts[k].value.values);
    }
  }

  lemma TailSlice<T>(a: seq<T>, b: seq<T>)
    ensures (a + b)[|a|..|a| + |b|] == b
  {
  }

  lemma SliceOfPrefix<T>(a: seq<T>, b: seq<T>, from: nat, n: nat)
    requires a <= b && from + n <= |a|
    ensures b[from..from + n] == a[from..from + n]
  {
  }

  lemma TriangleInside(triangle: nat, triangles: nat, per: nat, corner: nat)
    requires triangle < triangles && corner < per
    ensures triangle * per + corner < triangles * per
  {
    var rest := triangles - triangle - 1;
    assert triangles * per == triangle * per + per + rest * per;
  }

  /** A child's own value for a corner of a triangle. */
  function Own<T>(l: Local<T>, triangle: nat, corner: nat): Option<T>
    requires Whole(l) && corner < l.perTriangle
  {
    if triangle < l.triangles then
      TriangleInside(triangle, l.triangles, l.perTriangle, corner);
      Some(l.values[triangle * l.perTriangle + corner])
    else None
  }

  /** The nested lookup: the own value of a child whose data is included. */
  function Nested<T>(parts: seq<Option<Local<T>>>, k: nat, triangle: nat, corner: nat): Option<T>
    requires k < |parts| && (parts[k].Some? ==> Whole(parts[k].value) && corner < parts[k].value.perTriangle)
  {
    if Included(parts, k) then Own(parts[k].value, triangle, corner) else None
  }

  /** The flattened tables refine the nested ones: every guarded lookup is inside the data and finds the child's
      own value, and it finds one exactly when the child's data is included and has that triangle. */
  lemma LookupIsNested<T>(parts: seq<Option<Local<T>>>, k: nat, triangle: nat, corner: nat)
    requires k < |parts| && (parts[k].Some? ==> Whole(parts[k].value) && corner < parts[k].value.perTriangle)
    ensures Lookup(Flatten(parts), InstanceCount(Flatten(parts)), k, triangle, corner)
         == Nested(parts, k, triangle, corner)
  {
    hide Flatten, Lookup, InstanceCount, Whole, Own;
    RangeOf(parts, |parts|, k);
    assert parts[..|parts|] == parts;
    if Included(parts, k) {
      FoundInRange(Flatten(parts), k, parts[k].value, |Flatten(parts[..k]).data|, triangle, corner);
    } else {
      NoneInEmpty(Flatten(parts), k, triangle, corner);
    }
  }

  lemma NoneInEmpty<T>(f: Flat<T>, k: nat, triangle: nat, corner: nat)
    requires k < |f.ranges| && f.ranges[k] == Range(0, 0, 0)
    ensures Lookup(f, InstanceCount(f), k, triangle, corner) == None
  {
  }

  lemma FoundInRange<T>(f: Flat<T>, k: nat, l: Local<T>, start: nat, triangle: nat, corner: nat)
    requires k < |f.ranges| && f.ranges[k] == Range(start, l.triangles, l.perTriangle) && Whole(l)
    requires corner < l.perTriangle
    requires start + |l.values| <= |f.data| && f.data[start..start + |l.values|] == l.values
    ensures Lookup(f, InstanceCount(f), k, triangle, corner) == Own(l, triangle, corner)
  {
    if triangle < l.triangles {
      TriangleInside(triangle, l.triangles, l.perTriangle, corner);
      var at := triangle * l.perTriangle + corner;
      assert f.data[start..start + |l.values|][at] == f.data[start + at];
    }
  }

  // ----- each instance's share -----

  function Dot(a: Vector, b: Vector): real {
    a.x * b.x + a.y * b.y + a.z * b.z
  }

  function TransformedNormal(n: Vector, t: Transform, inverseRoot: real -> real): Vector {
    var c := Cofactor(n, t);
    var lengthSquared := Dot(c, c);
    if lengthSquared > 0.000000000001 then Scale(c, inverseRoot(lengthSquared)) else Vector(0.0, 0.0, 0.0)
  }

  function TransformedDirection(v: Vector, t: Transform, inverseRoot: real -> real): Vector {
    var c := Apply(v, t);
    var lengthSquared := Dot(c, c);
    if lengthSquared > 0.000000000001 then Scale(c, inverseRoot(lengthSquared)) else Vector(0.0, 0.0, 0.0)
  }

  function Product(a: real, k: real): real {
    a * k
  }

  function Scale(v: Vector, k: real): Vector {
    Vector(Product(v.x, k), Product(v.y, k), Product(v.z, k))
  }

  /** A row of the transform's linear part: rows of four, the last column left out. */
  function Row(t: Transform, r: nat): Vector
    requires r < 3
  {
    Vector(t[4 * r], t[4 * r + 1], t[4 * r + 2])
  }

  function Apply(v: Vector, t: Transform): Vector {
    Vector(Dot(Row(t, 0), v), Dot(Row(t, 1), v), Dot(Row(t, 2), v))
  }

  /** A two by two determinant. */
  function Minor(a: real, b: real, c: real, d: real): real {
    a * b - c * d
  }

  function CofactorX(t: Transform): Vector {
    Vector(Minor(t[5], t[10], t[6], t[9]), Minor(t[6], t[8], t[4], t[10]), Minor(t[4], t[9], t[5], t[8]))
  }

  function CofactorY(t: Transform): Vector {
    Vector(Minor(t[2], t[9], t[1], t[10]), Minor(t[0], t[10], t[2], t[8]), Minor(t[1], t[8], t[0], t[9]))
  }

  function CofactorZ(t: Transform): Vector {
    Vector(Minor(t[1], t[6], t[2], t[5]), Minor(t[2], t[4], t[0], t[6]), Minor(t[0], t[5], t[1], t[4]))
  }

  function Cofactor(n: Vector, t: Transform): Vector {
    Vector(Dot(CofactorX(t), n), Dot(CofactorY(t), n), Dot(CofactorZ(t), n))
  }

  function Cross(a: Vector, b: Vector): Vector {
    Vector(Minor(a.y, b.z, a.z, b.y), Minor(a.z, b.x, a.x, b.z), Minor(a.x, b.y, a.y, b.x))
  }

  lemma CofactorRows(t: Transform)
    ensures CofactorX(t) == Cross(Row(t, 1), Row(t, 2)) && CofactorY(t) == Cross(Row(t, 2), Row(t, 0))
    ensures CofactorZ(t) == Cross(Row(t, 0), Row(t, 1))
  {
    MinorCommutes(t[2], t[9], t[1], t[10]);
    MinorCommutes(t[0], t[10], t[2], t[8]);
    MinorCommutes(t[1], t[8], t[0], t[9]);
    hide Minor;
  }

  lemma MinorCommutes(a: real, b: real, c: real, d: real)
    ensures Minor(a, b, c, d) == Minor(b, a, d, c)
  {
  }

  /** The Binet-Cauchy identity. */
  lemma CrossIdentity(p: Vector, q: Vector, a: Vector, b: Vector)
    ensures Minor(Dot(p, a), Dot(q, b), Dot(q, a), Dot(p, b)) == Dot(Cross(p, q), Cross(a, b))
  {
    CrossIdentityReals(p.x, p.y, p.z, q.x, q.y, q.z, a.x, a.y, a.z, b.x, b.y, b.z);
  }

  lemma CrossIdentityReals(p: real, q: real, r: real, p': real, q': real, r': real,
                           x: real, y: real, z: real, x': real, y': real, z': real)
    ensures Minor(p * x + q * y + r * z, p' * x' + q' * y' + r' * z', p' * x + q' * y + r' * z,
        p * x' + q * y' + r * z')
         == Minor(q, r', r, q') * Minor(y, z', z, y') + Minor(r, p', p, r') * Minor(z, x', x, z')
          + Minor(p, q', q, p') * Minor(x, y', y, x')
  {
  }

  lemma CofactorOfCross(a: Vector, b: Vector, t: Transform)
    ensures Cofactor(Cross(a, b), t) == Cross(Apply(a, t), Apply(b, t))
  {
    CofactorRows(t);
    CrossIdentity(Row(t, 1), Row(t, 2), a, b);
    CrossIdentity(Row(t, 2), Row(t, 0), a, b);
    CrossIdentity(Row(t, 0), Row(t, 1), a, b);
    hide Dot, CofactorX, CofactorY, CofactorZ, Row, Minor;
    var l, r := Cofactor(Cross(a, b), t), Cross(Apply(a, t), Apply(b, t));
    assert l.x == r.x && l.y == r.y && l.z == r.z;
    SameVector(l, r);
  }

  lemma CofactorScales(n: Vector, k: real, t: Transform)
    ensures Cofactor(Scale(n, k), t) == Scale(Cofactor(n, t), k)
  {
    DotScales(CofactorX(t), n, k);
    DotScales(CofactorY(t), n, k);
    DotScales(CofactorZ(t), n, k);
    hide Dot, CofactorX, CofactorY, CofactorZ, Product;
    var a, b := Cofactor(Scale(n, k), t), Scale(Cofactor(n, t), k);
    assert a.x == b.x && a.y == b.y && a.z == b.z;
    SameVector(a, b);
  }

  lemma SameVector(a: Vector, b: Vector)
    requires a.x == b.x && a.y == b.y && a.z == b.z
    ensures a == b
  {
  }

  lemma DotScales(a: Vector, n: Vector, k: real)
    ensures Dot(a, Scale(n, k)) == Product(Dot(a, n), k)
  {
    SumScales(a.x, a.y, a.z, n.x, n.y, n.z, k);
  }

  lemma SumScales(a: real, b: real, c: real, x: real, y: real, z: real, k: real)
    ensures a * (x * k) + b * (y * k) + c * (z * k) == (a * x + b * y + c * z) * k
  {
  }

  /** A stored normal lies along the cross product of the transformed edges: for a local normal that is a
      positive multiple of the cross product of two edges, the transformed normal is a positive multiple of the
      cross product of the transformed edges, of unit length; it is zero only when that product is (nearly)
      zero, the transformed triangle having no area. */
  lemma NormalFollowsTriangle(a: Vector, b: Vector, k: real, t: Transform, inverseRoot: real -> real) returns (m: real)
    requires k > 0.0
    requires forall l: real :: l > 0.0 ==> inverseRoot(l) > 0.0 && inverseRoot(l) * inverseRoot(l) * l == 1.0
    ensures var n := TransformedNormal(Scale(Cross(a, b), k), t, inverseRoot); var c := Cross(Apply(a, t), Apply(b, t));
      if Dot(Scale(c, k), Scale(c, k)) > 0.000000000001
      then m > 0.0 && n == Scale(c, m) && Dot(n, n) == 1.0
      else n == Vector(0.0, 0.0, 0.0)
  {
    ScaledNormal(a, b, k, t, inverseRoot);
    var c := Cross(Apply(a, t), Apply(b, t));
    var scaled := Scale(c, k);
    hide Cofactor, Apply, Cross, Scale, Dot, TransformedNormal;
    var l := Dot(scaled, scaled);
    m := 1.0;
    if l > 0.000000000001 {
      var r := inverseRoot(l);
      UnitLength(scaled, r, l);
      m := ScaleTwice(c, k, r);
    }
  }

  lemma ScaledNormal(a: Vector, b: Vector, k: real, t: Transform, inverseRoot: real -> real)
    ensures var c := Scale(Cross(Apply(a, t), Apply(b, t)), k);
      var n := TransformedNormal(Scale(Cross(a, b), k), t, inverseRoot);
      n == if Dot(c, c) > 0.000000000001 then Scale(c, inverseRoot(Dot(c, c))) else Vector(0.0, 0.0, 0.0)
  {
    CofactorOfCross(a, b, t);
    CofactorScales(Cross(a, b), k, t);
    hide Cofactor, Apply, Cross, Scale, Dot;
  }

  lemma ScaleTwice(c: Vector, k: real, r: real) returns (m: real)
    requires k > 0.0 && r > 0.0
    ensures m > 0.0 && Scale(Scale(c, k), r) == Scale(c, m)
  {
    m := k * r;
    assert c.x * k * r == c.x * m && c.y * k * r == c.y * m && c.z * k * r == c.z * m;
  }

  lemma UnitLength(c: Vector, r: real, l: real)
    requires l == Dot(c, c) && r * r * l == 1.0
    ensures Dot(Scale(c, r), Scale(c, r)) == 1.0
  {
    assert Dot(Scale(c, r), Scale(c, r)) == r * r * (c.x * c.x + c.y * c.y + c.z * c.z);
  }

  /** The cross product is perpendicular to both edges, so the stored normal is to the transformed ones. */
  lemma CrossPerpendicular(a: Vector, b: Vector, m: real)
    ensures Dot(Scale(Cross(a, b), m), a) == 0.0 && Dot(Scale(Cross(a, b), m), b) == 0.0
  {
    assert Dot(Cross(a, b), a) == 0.0 && Dot(Cross(a, b), b) == 0.0;
    assert Dot(Scale(Cross(a, b), m), a) == m * Dot(Cross(a, b), a);
    assert Dot(Scale(Cross(a, b), m), b) == m * Dot(Cross(a, b), b);
  }

  // ----- tangents -----

  function Minus(a: Vector, b: Vector): Vector {
    Vector(a.x - b.x, a.y - b.y, a.z - b.z)
  }

  function Plus(a: Vector, b: Vector): Vector {
    Vector(a.x + b.x, a.y + b.y, a.z + b.z)
  }

  /** Where the transform takes a point: three rows of four, the last column the translation. */
  function Place(p: Vector, t: Transform): Vector {
    Vector(t[0] * p.x + t[1] * p.y + t[2] * p.z + t[3], t[4] * p.x + t[5] * p.y + t[6] * p.z + t[7],
           t[8] * p.x + t[9] * p.y + t[10] * p.z + t[11])
  }

  /** An edge goes to the edge between the transformed points. */
  lemma EdgeOfPoints(p: Vector, q: Vector, t: Transform)
    ensures Apply(Minus(q, p), t) == Minus(Place(q, t), Place(p, t))
  {
    var a, b := Apply(Minus(q, p), t), Minus(Place(q, t), Place(p, t));
    DotMinus(Row(t, 0), q, p);
    DotMinus(Row(t, 1), q, p);
    DotMinus(Row(t, 2), q, p);
    assert a.x == b.x && a.y == b.y && a.z == b.z;
    hide Apply, Place, Minus;
    SameVector(a, b);
  }

  lemma DotMinus(r: Vector, q: Vector, p: Vector)
    ensures Dot(r, Minus(q, p)) == Dot(r, q) - Dot(r, p)
  {
  }

  /** A stored direction is a positive multiple of the difference of the transformed points, of unit length, unless
      that is (nearly) zero. */
  lemma DirectionFollowsEdge(p: Vector, q: Vector, t: Transform, inverseRoot: real -> real) returns (m: real)
    requires forall l: real :: l > 0.0 ==> inverseRoot(l) > 0.0 && inverseRoot(l) * inverseRoot(l) * l == 1.0
    ensures var d := TransformedDirection(Minus(q, p), t, inverseRoot); var e := Minus(Place(q, t), Place(p, t));
      if Dot(e, e) > 0.000000000001 then m > 0.0 && d == Scale(e, m) && Dot(d, d) == 1.0
      else d == Vector(0.0, 0.0, 0.0)
  {
    EdgeOfPoints(p, q, t);
    var e := Minus(Place(q, t), Place(p, t));
    hide Apply, Place, Minus, Dot, Scale;
    m := 1.0;
    if Dot(e, e) > 0.000000000001 {
      m := inverseRoot(Dot(e, e));
      UnitLength(e, m, Dot(e, e));
    }
  }

  /** A tangent lies in its triangle's plane, x edges a and y edges b of it; transformed it is perpendicular to the
      cross product of the transformed edges, along which the stored normal lies. */
  lemma TangentInPlane(a: Vector, b: Vector, x: real, y: real, t: Transform, m: real, n: real)
    ensures var tangent, c := Apply(Plus(Scale(a, x), Scale(b, y)), t), Cross(Apply(a, t), Apply(b, t));
      Dot(Scale(c, m), Scale(tangent, n)) == 0.0
  {
    var v, w := Apply(a, t), Apply(b, t);
    ApplyCombines(a, b, x, y, t);
    hide Apply;
    var c := Cross(v, w);
    CrossPerpendicular(v, w, m);
    hide Cross;
    DotCombines(Scale(c, m), v, w, x, y);
    hide Dot;
    DotScales(Scale(c, m), Plus(Scale(v, x), Scale(w, y)), n);
  }

  lemma ApplyCombines(a: Vector, b: Vector, x: real, y: real, t: Transform)
    ensures Apply(Plus(Scale(a, x), Scale(b, y)), t) == Plus(Scale(Apply(a, t), x), Scale(Apply(b, t), y))
  {
    DotCombines(Row(t, 0), a, b, x, y);
    DotCombines(Row(t, 1), a, b, x, y);
    DotCombines(Row(t, 2), a, b, x, y);
    hide Dot, Row;
    var l, r := Apply(Plus(Scale(a, x), Scale(b, y)), t), Plus(Scale(Apply(a, t), x), Scale(Apply(b, t), y));
    assert l.x == r.x && l.y == r.y && l.z == r.z;
    SameVector(l, r);
  }

  lemma DotCombines(r: Vector, v: Vector, w: Vector, x: real, y: real)
    ensures Dot(r, Plus(Scale(v, x), Scale(w, y))) == Product(Dot(r, v), x) + Product(Dot(r, w), y)
  {
    DotPlus(r, Scale(v, x), Scale(w, y));
    DotScales(r, v, x);
    DotScales(r, w, y);
    hide Dot, Scale;
  }

  lemma DotPlus(r: Vector, v: Vector, w: Vector)
    ensures Dot(r, Plus(v, w)) == Dot(r, v) + Dot(r, w)
  {
  }

  // ----- texture slots -----

  const SLOTS := 126

  predicate Distinct(ids: seq<nat>) {
    forall i, j :: 0 <= i < j < |ids| ==> ids[i] != ids[j]
  }

  function Elements(ids: seq<nat>): set<nat> {
    set id | id in ids
  }

  /** A slot index that means what was asked for: a slot holding that live texture, or none because nothing was
      asked for, the texture is not live, or every slot is taken by others. */
  predicate Settled(ids: seq<nat>, live: set<nat>, id: nat, index: Option<nat>) {
    match index
    case Some(i) => i < |ids| && ids[i] == id && id != 0 && id in live
    case None => id == 0 || id !in live || (id !in ids && |ids| >= SLOTS)
  }

  function FirstIndex(ids: seq<nat>, id: nat): (r: Option<nat>)
    ensures r.Some? ==> r.value < |ids| && ids[r.value] == id
    ensures r.None? ==> id !in ids
  {
    if ids == [] then None
    else if ids[0] == id then Some(0)
    else match FirstIndex(ids[1..], id) case Some(i) => Some(i + 1) case None => None
  }

  predicate SlotList(ids: seq<nat>) {
    Distinct(ids) && |ids| <= SLOTS
  }

  method AppendTextureIndex(ids: seq<nat>, live: set<nat>, id: nat) returns (index: Option<nat>, after: seq<nat>)
    requires SlotList(ids)
    ensures SlotList(after) && ids <= after && Settled(after, live, id, index)
  {
    if id == 0 || id !in live {
      return None, ids;
    }
    var existing := FirstIndex(ids, id);
    if existing.Some? {
      return existing, ids;
    }
    if |ids| >= SLOTS {
      return None, ids;
    }
    return Some(|ids|), ids + [id];
  }

  /** Later slots never change what an index means. */
  lemma SettledStays(ids: seq<nat>, after: seq<nat>, live: set<nat>, id: nat, index: Option<nat>)
    requires Settled(ids, live, id, index) && ids <= after && SlotList(after)
    ensures Settled(after, live, id, index)
  {
    if index.None? && |ids| >= SLOTS { assert after == ids; }
  }

  lemma RowStays(ids: seq<nat>, after: seq<nat>, live: set<nat>, asked: seq<nat>, row: seq<Option<nat>>)
    requires |asked| == |row| && (forall j :: 0 <= j < |row| ==> Settled(ids, live, asked[j], row[j]))
    requires ids <= after && SlotList(after)
    ensures forall j :: 0 <= j < |row| ==> Settled(after, live, asked[j], row[j])
  {
    forall j | 0 <= j < |row| ensures Settled(after, live, asked[j], row[j]) {
      SettledStays(ids, after, live, asked[j], row[j]);
    }
  }

  /** The textures an instance asks for: its material's five; without one, a base texture in the low bits of a
      tagged user ID. */
  function Asked(i: Instance): (ids: seq<nat>)
    requires i.material.Some? ==> |i.material.value.textures| == 5
    ensures |ids| == 5
  {
    if i.material.Some? then i.material.value.textures
    else [if i.userID / 0x40_0000 % 4 == 1 then i.userID % 0x40_0000 else 0, 0, 0, 0, 0]
  }

  /** All five of an instance, in order. */
  method AppendTextures(ids: seq<nat>, live: set<nat>, asked: seq<nat>) returns (row: seq<Option<nat>>, after: seq<nat>)
    requires SlotList(ids)
    ensures SlotList(after) && ids <= after && |row| == |asked|
    ensures forall j :: 0 <= j < |row| ==> Settled(after, live, asked[j], row[j])
  {
    row, after := [], ids;
    var j := 0;
    hide Settled;
    while j < |asked|
      invariant j <= |asked| && |row| == j && SlotList(after) && ids <= after
      invariant forall k :: 0 <= k < j ==> Settled(after, live, asked[k], row[k])
    {
      var index, grown := AppendTextureIndex(after, live, asked[j]);
      RowStays(after, grown, live, asked[..j], row);
      row, after := row + [index], grown;
      j := j + 1;
    }
  }

  // ----- the build -----

  function NormalPart(i: Instance, inverseRoot: real -> real): (p: Option<Local<Vector>>)
    ensures p.Some? ==> Whole(p.value)
  {
    match i.child
    case Some(Child(Some(l), _, _, _)) =>
      if Whole(l)
      then Some(Local(seq(|l.values|, n requires 0 <= n < |l.values| =>
                            TransformedNormal(l.values[n], i.transform, inverseRoot)),
                      l.triangles, l.perTriangle))
      else None
    case _ => None
  }

  function TangentPart(i: Instance, inverseRoot: real -> real): (p: Option<Local<Vector>>)
    ensures p.Some? ==> Whole(p.value) && p.value.perTriangle == 2
  {
    match i.child
    case Some(Child(_, Some(l), _, _)) =>
      if |l.values| == l.triangles * 2
      then Some(Local(seq(|l.values|, n requires 0 <= n < |l.values| =>
                            TransformedDirection(l.values[n], i.transform, inverseRoot)),
                      l.triangles, 2))
      else None
    case _ => None
  }

  function UVPart(i: Instance): (p: Option<Local<UV>>)
    ensures p.Some? ==> Whole(p.value) && p.value.perTriangle == 3
  {
    match i.child
    case Some(Child(_, _, Some(l), _)) =>
      if |l.values| == l.triangles * 3 then Some(Local(l.values, l.triangles, 3)) else None
    case _ => None
  }

  function NormalParts(instances: seq<Instance>, inverseRoot: real -> real): (p: seq<Option<Local<Vector>>>)
    ensures |p| == |instances|
  {
    seq(|instances|, k requires 0 <= k < |instances| => NormalPart(instances[k], inverseRoot))
  }

  function TangentParts(instances: seq<Instance>, inverseRoot: real -> real): (p: seq<Option<Local<Vector>>>)
    ensures |p| == |instances|
  {
    seq(|instances|, k requires 0 <= k < |instances| => TangentPart(instances[k], inverseRoot))
  }

  function UVParts(instances: seq<Instance>): (p: seq<Option<Local<UV>>>)
    ensures |p| == |instances|
  {
    seq(|instances|, k requires 0 <= k < |instances| => UVPart(instances[k]))
  }

  datatype Quad = Quad(x: real, y: real, z: real, w: real)

  datatype Tables = Tables(normals: Flat<Vector>, tangents: Flat<Vector>, uvs: Flat<UV>, textures: seq<nat>,
    textureRows: seq<seq<Option<nat>>>, channels: seq<nat>, opacities: seq<(real, real)>, parameters: seq<Quad>)

  function Opacity(i: Instance): (real, real) {
    match i.material
    case Some(m) => if m.opacity.Some? then m.opacity.value else if m.cutout then (1.0, 0.3333) else (1.0, 0.0)
    case None => (1.0, 0.0)
  }

  function ParameterPair(i: Instance): (p: seq<Quad>)
    ensures |p| == 2
  {
    match i.child
    case Some(Child(_, _, _, Some(p))) =>
      [Quad(p.roughness, p.metallic, 0.0, 1.0), Quad(p.emission.x, p.emission.y, p.emission.z, p.intensity)]
    case _ => [Quad(0.5, 0.0, 0.0, 0.0), Quad(0.0, 0.0, 0.0, 0.0)]
  }

  predicate WellFormed(instances: seq<Instance>) {
    forall k :: 0 <= k < |instances| ==> instances[k].material.Some? ==> |instances[k].material.value.textures| == 5
  }

  /** An instance's texture row: what it asked for if its triangle coordinates are in the tables, otherwise
      nothing. */
  predicate RowRight(i: Instance, uvRange: Range, row: seq<Option<nat>>, textures: seq<nat>, live: set<nat>)
    requires i.material.Some? ==> |i.material.value.textures| == 5
  {
    |row| == 5
    && (if uvRange.perTriangle == 3 then forall j :: 0 <= j < 5 ==> Settled(textures, live, Asked(i)[j], row[j])
        else forall j :: 0 <= j < 5 ==> row[j] == None)
  }

  predicate RowsRight(instances: seq<Instance>, ranges: seq<Range>, rows: seq<seq<Option<nat>>>, textures: seq<nat>,
      live: set<nat>)
    requires WellFormed(instances) && |ranges| == |rows| <= |instances|
  {
    forall k :: 0 <= k < |rows| ==> RowRight(instances[k], ranges[k], rows[k], textures, live)
  }

  lemma RowsStay(instances: seq<Instance>, ranges: seq<Range>, rows: seq<seq<Option<nat>>>, ids: seq<nat>,
      after: seq<nat>, live: set<nat>)
    requires WellFormed(instances) && |ranges| == |rows| <= |instances| && RowsRight(instances, ranges, rows, ids, live)
    requires ids <= after && SlotList(after)
    ensures RowsRight(instances, ranges, rows, after, live)
  {
    hide Settled;
    forall k | 0 <= k < |rows| ensures RowRight(instances[k], ranges[k], rows[k], after, live) {
      if ranges[k].perTriangle == 3 { RowStays(ids, after, live, Asked(instances[k]), rows[k]); }
    }
  }

  /** What the finished tables are: the flattened data of every instance, in the instances' order, one row, one
      opacity and two parameter quads for each. */
  ghost predicate Right(t: Tables, instances: seq<Instance>, live: set<nat>, inverseRoot: real -> real)
    requires WellFormed(instances)
  {
    var n := |instances|;
    && t.normals == Flatten(NormalParts(instances, inverseRoot))
    && t.tangents == Flatten(TangentParts(instances, inverseRoot))
    && t.uvs == Flatten(UVParts(instances))
    && SlotList(t.textures) && |t.textureRows| == |t.channels| == |t.opacities| == n && |t.parameters| == 2 * n
    && RowsRight(instances, t.uvs.ranges, t.textureRows, t.textures, live)
    && WordsRight(instances, t.uvs.ranges, t.opacities, t.channels) && ParametersRight(instances, t.parameters)
  }

  predicate WordsRight(instances: seq<Instance>, ranges: seq<Range>, opacities: seq<(real, real)>, channels: seq<nat>)
    requires |instances| == |ranges| == |opacities| == |channels|
  {
    forall k :: 0 <= k < |instances| ==>
      opacities[k] == Opacity(instances[k]) && channels[k] == ChannelWord(instances[k], ranges[k])
  }

  function ChannelWord(i: Instance, uvRange: Range): nat {
    if uvRange.perTriangle == 3 && i.material.Some? then i.material.value.channels else 0
  }

  ghost predicate ParametersRight(instances: seq<Instance>, parameters: seq<Quad>) {
    && |parameters| <= 2 * |instances| && |parameters| % 2 == 0
    && forall k: nat :: 2 * k + 1 < |parameters| ==>
      parameters[2 * k] == ParameterPair(instances[k])[0] && parameters[2 * k + 1] == ParameterPair(instances[k])[1]
  }

  lemma FlattenStep<T>(parts: seq<Option<Local<T>>>, part: Option<Local<T>>)
    ensures Flatten(parts + [part]) == Append(Flatten(parts), part)
  {
    assert (parts + [part])[..|parts|] == parts;
  }

  lemma PartsStep(done: seq<Instance>, i: Instance, inverseRoot: real -> real)
    ensures NormalParts(done + [i], inverseRoot) == NormalParts(done, inverseRoot) + [NormalPart(i, inverseRoot)]
    ensures TangentParts(done + [i], inverseRoot) == TangentParts(done, inverseRoot) + [TangentPart(i, inverseRoot)]
    ensures UVParts(done + [i]) == UVParts(done) + [UVPart(i)]
  {
    hide NormalPart, TangentPart, UVPart;
  }

  /** One instance: something appended to every table. */
  method AppendInstance(t: Tables, ghost done: seq<Instance>, i: Instance, live: set<nat>, inverseRoot: real -> real)
    returns (after: Tables)
    requires WellFormed(done + [i]) && WellFormed(done) && Right(t, done, live, inverseRoot)
    ensures Right(after, done + [i], live, inverseRoot)
  {
    hide NormalPart, TangentPart, UVPart, Opacity, ParameterPair, RowsRight, SlotList, ParametersRight, NormalParts,
        TangentParts, UVParts;
    PartsStep(done, i, inverseRoot);
    FlattenStep(NormalParts(done, inverseRoot), NormalPart(i, inverseRoot));
    FlattenStep(TangentParts(done, inverseRoot), TangentPart(i, inverseRoot));
    FlattenStep(UVParts(done), UVPart(i));
    hide Flatten;
    var uvs := Append(t.uvs, UVPart(i));
    assert uvs.ranges[..|done|] == t.uvs.ranges;
    var rows, textures := AppendRow(done, i, t.uvs.ranges, uvs.ranges, t.textureRows, t.textures, live);
    ParametersStep(done, i, t.parameters);
    WordsStep(done, i, t.uvs.ranges, uvs.ranges, t.opacities, t.channels);
    after := Tables(Append(t.normals, NormalPart(i, inverseRoot)), Append(t.tangents, TangentPart(i, inverseRoot)),
                    uvs, textures, rows, t.channels + [ChannelWord(i, uvs.ranges[|uvs.ranges| - 1])],
                    t.opacities + [Opacity(i)],
                    t.parameters + ParameterPair(i));
  }

  lemma WordsStep(done: seq<Instance>, i: Instance, before: seq<Range>, ranges: seq<Range>,
      opacities: seq<(real, real)>, channels: seq<nat>)
    requires |done| == |before| == |opacities| == |channels| && |ranges| == |done| + 1 && ranges[..|done|] == before
    requires WordsRight(done, before, opacities, channels)
    ensures WordsRight(done + [i], ranges, opacities + [Opacity(i)], channels + [ChannelWord(i, ranges[|done|])])
  {
    hide Opacity, ChannelWord;
    var all := done + [i];
    forall k | 0 <= k < |all|
      ensures (opacities + [Opacity(i)])[k] == Opacity(all[k])
        && (channels + [ChannelWord(i, ranges[|done|])])[k] == ChannelWord(all[k], ranges[k]) {
      if k < |done| { assert ranges[k] == before[k] && all[k] == done[k]; }
    }
  }

  /** The build loop: one instance after the other; an instance with a transform that is not finite, a field out
      of range, or a child that is not a built structure fails the whole build. */
  method Build(instances: seq<Instance>, live: set<nat>, inverseRoot: real -> real) returns (r: Option<Tables>)
    requires WellFormed(instances)
    ensures r.None? <==> exists k :: 0 <= k < |instances| && !Accepted(instances[k])
    ensures r.Some? ==> Right(r.value, instances, live, inverseRoot)
  {
    var t := Tables(Flat([], []), Flat([], []), Flat([], []), [], [], [], [], []);
    assert instances[..0] == [];
    EmptyTables(t, live, inverseRoot);
    var k := 0;
    PrefixWellFormed(instances, 0);
    hide *;
    while k < |instances|
      invariant k <= |instances| && forall j :: 0 <= j < k ==> Accepted(instances[j])
      invariant WellFormed(instances[..k]) && Right(t, instances[..k], live, inverseRoot)
    {
      if !Accepted(instances[k]) {
        return None;
      }
      PrefixWellFormed(instances, k + 1);
      PrefixGrows(instances, k);
      t := AppendInstance(t, instances[..k], instances[k], live, inverseRoot);
      k := k + 1;
    }
    assert instances[..k] == instances;
    r := Some(t);
  }

  lemma PrefixGrows(instances: seq<Instance>, k: nat)
    requires k < |instances|
    ensures instances[..k] + [instances[k]] == instances[..k + 1]
  {
  }

  lemma PrefixWellFormed(instances: seq<Instance>, k: nat)
    requires WellFormed(instances) && k <= |instances|
    ensures WellFormed(instances[..k])
  {
  }

  lemma EmptyTables(t: Tables, live: set<nat>, inverseRoot: real -> real)
    requires t == Tables(Flat([], []), Flat([], []), Flat([], []), [], [], [], [], [])
    ensures Right(t, [], live, inverseRoot)
  {
  }

  method AppendRow(ghost done: seq<Instance>, i: Instance, ghost before: seq<Range>, ranges: seq<Range>,
                   rows: seq<seq<Option<nat>>>, ids: seq<nat>, live: set<nat>)
    returns (after: seq<seq<Option<nat>>>, textures: seq<nat>)
    requires WellFormed(done) && WellFormed(done + [i]) && |done| == |rows| && |ranges| == |done| + 1
    requires ranges[..|done|] == before
    requires SlotList(ids) && RowsRight(done, before, rows, ids, live)
    ensures SlotList(textures) && |after| == |done| + 1 && RowsRight(done + [i], ranges, after, textures, live)
  {
    assert i == (done + [i])[|done|];
    var row;
    var last := ranges[|ranges| - 1];
    if last.perTriangle == 3 {
      row, textures := AppendTextures(ids, live, Asked(i));
    } else {
      row, textures := [None, None, None, None, None], ids;
    }
    assert RowRight(i, last, row, textures, live);
    hide RowRight, SlotList;
    RowsStay(done, before, rows, ids, textures, live);
    after := rows + [row];
    forall j | 0 <= j < |after| ensures RowRight((done + [i])[j], ranges[j], after[j], textures, live) {
      if j < |done| { assert ranges[j] == before[j] && after[j] == rows[j] && (done + [i])[j] == done[j]; }
    }
  }

  lemma ParametersStep(done: seq<Instance>, i: Instance, parameters: seq<Quad>)
    requires |parameters| == 2 * |done| && ParametersRight(done, parameters)
    ensures ParametersRight(done + [i], parameters + ParameterPair(i))
  {
    hide ParameterPair;
    var after, all := parameters + ParameterPair(i), done + [i];
    forall j: nat | 2 * j + 1 < |after|
      ensures after[2 * j] == ParameterPair(all[j])[0] && after[2 * j + 1] == ParameterPair(all[j])[1] {
      if j < |done| {
        assert after[2 * j] == parameters[2 * j] && after[2 * j + 1] == parameters[2 * j + 1];
        assert all[j] == done[j];
      }
    }
  }

  /** Where an instance has no material it is opaque, with no cutout and no channels, and where its child has no
      parameters it is half rough, not metallic and does not shine; a cutout without an opacity of its own is cut
      at a third. */
  lemma DefaultsFound(t: Tables, instances: seq<Instance>, live: set<nat>, inverseRoot: real -> real, k: nat)
    requires WellFormed(instances) && Right(t, instances, live, inverseRoot) && k < |instances|
    ensures instances[k].material.None? ==> t.opacities[k] == (1.0, 0.0) && t.channels[k] == 0
    ensures instances[k].material.Some? && instances[k].material.value.opacity.None? ==>
      t.opacities[k] == (1.0, if instances[k].material.value.cutout then 0.3333 else 0.0)
    ensures instances[k].child.Some? && instances[k].child.value.parameters.None? ==>
      2 * k + 1 < |t.parameters| && t.parameters[2 * k] == Quad(0.5, 0.0, 0.0, 0.0)
      && t.parameters[2 * k + 1] == Quad(0.0, 0.0, 0.0, 0.0)
  {
    hide Flatten, NormalParts, TangentParts, UVParts, RowsRight, SlotList;
  }

  /** What the shader finds for a hit of instance k: in every table its own instance's datum, or nothing. */
  lemma ShaderFindsOwn(t: Tables, instances: seq<Instance>, live: set<nat>, inverseRoot: real -> real, k: nat,
      triangle: nat)
    requires WellFormed(instances) && Right(t, instances, live, inverseRoot) && k < |instances|
    ensures t.opacities[k] == Opacity(instances[k])
    ensures 2 * k + 1 < |t.parameters| && t.parameters[2 * k..2 * k + 2] == ParameterPair(instances[k])
    ensures NormalPart(instances[k], inverseRoot).Some? ==>
      forall corner: nat :: corner < NormalPart(instances[k], inverseRoot).value.perTriangle ==>
      Lookup(t.normals, InstanceCount(t.normals), k, triangle, corner)
      == Nested(NormalParts(instances, inverseRoot), k, triangle, corner)
    ensures forall corner: nat :: corner < 2 ==>
      Lookup(t.tangents, InstanceCount(t.tangents), k, triangle, corner)
      == Nested(TangentParts(instances, inverseRoot), k, triangle, corner)
    ensures forall corner: nat :: corner < 3 ==>
      Lookup(t.uvs, InstanceCount(t.uvs), k, triangle, corner)
      == Nested(UVParts(instances), k, triangle, corner)
  {
    assert t.parameters[2 * k..2 * k + 2] == ParameterPair(instances[k]);
    hide Lookup, Nested, Flatten, NormalPart, TangentPart, UVPart, RowsRight, SlotList, InstanceCount, ParametersRight;
    var normals := NormalParts(instances, inverseRoot);
    var tangents := TangentParts(instances, inverseRoot);
    var uvs := UVParts(instances);
    forall corner: nat | normals[k].Some? && corner < normals[k].value.perTriangle
      ensures Lookup(t.normals, InstanceCount(t.normals), k, triangle, corner) == Nested(normals, k, triangle, corner) {
      LookupIsNested(normals, k, triangle, corner);
    }
    forall corner: nat | corner < 2
      ensures Lookup(t.tangents, InstanceCount(t.tangents), k, triangle, corner)
          == Nested(tangents, k, triangle, corner) {
      LookupIsNested(tangents, k, triangle, corner);
    }
    forall corner: nat | corner < 3
      ensures Lookup(t.uvs, InstanceCount(t.uvs), k, triangle, corner) == Nested(uvs, k, triangle, corner) {
      LookupIsNested(uvs, k, triangle, corner);
    }
  }

  /** A texture index the shader's guard lets through is a slot holding the live texture the instance asked for;
      one it does not asked for nothing, for a texture that is not live, or came when all 126 slots were taken. */
  lemma SlotsMeanTextures(t: Tables, instances: seq<Instance>, live: set<nat>, inverseRoot: real -> real, k: nat,
      j: nat)
    requires WellFormed(instances) && Right(t, instances, live, inverseRoot) && k < |instances| && j < 5
    requires t.uvs.ranges[k].perTriangle == 3
    ensures |t.textureRows[k]| == 5 && |t.textures| <= 126 && Distinct(t.textures)
    ensures var id := Asked(instances[k])[j]; var index := t.textureRows[k][j];
      && (index.Some? ==> index.value < |t.textures| && t.textures[index.value] == id)
      && (index.Some? <==> id != 0 && id in live && id in t.textures)
      && (id != 0 && id in live && index.None? ==> |t.textures| == 126)
  {
    hide Flatten, Asked, NormalPart, TangentPart, UVPart, ParametersRight;
    assert RowRight(instances[k], t.uvs.ranges[k], t.textureRows[k], t.textures, live);
    assert Settled(t.textures, live, Asked(instances[k])[j], t.textureRows[k][j]);
  }

  // ----- the ray dispatch's texture list -----

  datatype RayTextures = Combined(ids: seq<nat>, indices: map<nat, nat>) | Missing(id: nat) | TooMany

  predicate Indexed(ids: seq<nat>, indices: map<nat, nat>) {
    && indices.Keys == Elements(ids)
    && forall id :: id in indices ==> indices[id] < |ids| && ids[indices[id]] == id
  }

  /** The IDs a light list names: zeros name nothing. */
  function Named(lights: seq<nat>): set<nat> {
    set id | id in lights && id != 0
  }

  method IndexSlots(ids: seq<nat>) returns (indices: map<nat, nat>)
    requires Distinct(ids)
    ensures Indexed(ids, indices)
  {
    indices := map[];
    var i := 0;
    while i < |ids|
      invariant i <= |ids| && Indexed(ids[..i], indices)
    {
      IndexedStep(ids[..i], indices, ids[i]);
      assert ids[..i + 1] == ids[..i] + [ids[i]];
      indices := indices[ids[i] := i];
      i := i + 1;
    }
    assert ids[..i] == ids;
  }

  /** One light texture: nothing to add if it names nothing or is there already. */
  method AddTexture(ids: seq<nat>, indices: map<nat, nat>, id: nat, live: set<nat>) returns (r: RayTextures)
    requires SlotList(ids) && Indexed(ids, indices)
    ensures r.Combined? ==> SlotList(r.ids) && ids <= r.ids && Indexed(r.ids, r.indices)
    ensures r.Combined? ==> Elements(r.ids) == Elements(ids) + (if id != 0 then {id} else {})
    ensures r.Combined? ==> (id != 0 ==> id in live)
    ensures r.Missing? ==> r.id == id && id != 0 && id !in live
    ensures r.TooMany? ==> id != 0 && id in live && id !in ids && |ids| >= SLOTS
  {
    if id == 0 { return Combined(ids, indices); }
    if id !in live { return Missing(id); }
    if id in indices { return Combined(ids, indices); }
    if |ids| >= SLOTS { return TooMany; }
    IndexedStep(ids, indices, id);
    r := Combined(ids + [id], indices[id := |ids|]);
  }

  /** The material textures first, in their slots, then every light texture not yet there. It succeeds exactly
      when every light texture is live and all the textures together fit the slots. */
  method CombineTextures(materials: seq<nat>, lights: seq<nat>, live: set<nat>) returns (r: RayTextures)
    requires SlotList(materials)
    ensures r.Combined? ==> SlotList(r.ids) && materials <= r.ids && Indexed(r.ids, r.indices)
    ensures r.Combined? ==> Elements(r.ids) == Elements(materials) + Named(lights)
    ensures r.Combined? <==> Named(lights) <= live && |Elements(materials) + Named(lights)| <= 126
    ensures r.Missing? ==> r.id in Named(lights) && r.id !in live
    ensures r.TooMany? ==> |Elements(materials) + Named(lights)| > 126
  {
    var ids := materials;
    var indices: map<nat, nat> := IndexSlots(ids);
    var n := 0;
    NothingGathered(materials, lights, live);
    hide *;
    while n < |lights|
      invariant n <= |lights| && SlotList(ids) && Indexed(ids, indices) && Gathered(ids, materials, lights, n, live)
    {
      var next := AddTexture(ids, indices, lights[n], live);
      NamedLight(lights, n);
      if next.TooMany? {
        TooManyNamed(ids, materials, lights, n, live);
      }
      if !next.Combined? {
        return next;
      }
      GatheredStep(ids, next.ids, materials, lights, n, live);
      ids, indices := next.ids, next.indices;
      n := n + 1;
    }
    AllGathered(ids, materials, lights, live);
    r := Combined(ids, indices);
  }

  /** The slots after the first n lights. */
  ghost predicate Gathered(ids: seq<nat>, materials: seq<nat>, lights: seq<nat>, n: nat, live: set<nat>)
    requires n <= |lights|
  {
    materials <= ids && Elements(ids) == Elements(materials) + Named(lights[..n]) && Named(lights[..n]) <= live
  }

  lemma NothingGathered(materials: seq<nat>, lights: seq<nat>, live: set<nat>)
    ensures Gathered(materials, materials, lights, 0, live)
  {
  }

  lemma NamedLight(lights: seq<nat>, n: nat)
    requires n < |lights|
    ensures lights[n] != 0 ==> lights[n] in Named(lights)
  {
  }

  lemma GatheredStep(ids: seq<nat>, next: seq<nat>, materials: seq<nat>, lights: seq<nat>, n: nat, live: set<nat>)
    requires n < |lights| && Gathered(ids, materials, lights, n, live) && ids <= next
    requires Elements(next) == Elements(ids) + (if lights[n] != 0 then {lights[n]} else {})
    requires lights[n] != 0 ==> lights[n] in live
    ensures Gathered(next, materials, lights, n + 1, live)
  {
    NamedStep(lights, n);
    hide Elements, Named;
  }

  lemma AllGathered(ids: seq<nat>, materials: seq<nat>, lights: seq<nat>, live: set<nat>)
    requires Gathered(ids, materials, lights, |lights|, live) && SlotList(ids)
    ensures materials <= ids && Elements(ids) == Elements(materials) + Named(lights) && Named(lights) <= live
    ensures |Elements(materials) + Named(lights)| <= SLOTS
  {
    assert lights[..|lights|] == lights;
    DistinctSize(ids);
    hide Elements, Named;
  }

  lemma TooManyNamed(ids: seq<nat>, materials: seq<nat>, lights: seq<nat>, n: nat, live: set<nat>)
    requires n < |lights| && Gathered(ids, materials, lights, n, live)
    requires SlotList(ids) && |ids| >= SLOTS && lights[n] != 0 && lights[n] !in ids
    ensures |Elements(materials) + Named(lights)| > SLOTS
  {
    var all, some := Elements(materials) + Named(lights), Elements(ids) + {lights[n]};
    NamedStep(lights, n);
    DistinctSize(ids);
    assert lights[n] !in Elements(ids);
    hide Elements, Named;
    assert some <= all;
    SubsetSize(some, all);
  }

  lemma NamedStep(lights: seq<nat>, n: nat)
    requires n < |lights|
    ensures Named(lights[..n + 1]) == Named(lights[..n]) + (if lights[n] != 0 then {lights[n]} else {})
    ensures Named(lights[..n + 1]) <= Named(lights) && (lights[n] != 0 ==> lights[n] in Named(lights))
  {
    assert lights[..n + 1] == lights[..n] + [lights[n]];
  }

  lemma IndexedStep(ids: seq<nat>, indices: map<nat, nat>, id: nat)
    requires Indexed(ids, indices)
    ensures Indexed(ids + [id], indices[id := |ids|])
    ensures Elements(ids + [id]) == Elements(ids) + {id}
  {
    assert forall x :: x in ids + [id] <==> x in ids || x == id;
  }

  lemma {:induction false} DistinctSize(ids: seq<nat>)
    requires Distinct(ids)
    ensures |Elements(ids)| == |ids|
  {
    if ids != [] {
      var rest, last := ids[..|ids| - 1], ids[|ids| - 1];
      DistinctSize(rest);
      assert last !in rest;
      assert Elements(ids) == Elements(rest) + {last} by {
        assert ids == rest + [last];
      }
    }
  }

  lemma {:induction false} SubsetSize(a: set<nat>, b: set<nat>)
    requires a <= b
    ensures |a| <= |b|
  {
    if a != {} {
      var x :| x in a;
      SubsetSize(a - {x}, b - {x});
    }
  }
}

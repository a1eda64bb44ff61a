/** Front-to-back compositing of translucent hits in the ray shader, over exact reals. */
module Compositing {

  datatype Color = Color(r: real, g: real, b: real)

  /** One hit as the intersector supplies it: its linear colour, its opacity, and whether it may be translucent
      at all (a triangle of the scene view whose opacity threshold is not positive). The background is a hit
      that may not. */
  datatype Layer = Layer(color: Color, opacity: real, translucent: bool)

  predicate Valid(l: Layer) {
    0.0 <= l.opacity <= 1.0
  }

  function Plus(a: Color, b: Color): Color {
    Color(a.r + b.r, a.g + b.g, a.b + b.b)
  }

  /** A part k of x. */
  function Part(k: real, x: real): real {
    k * x
  }

  function Times(k: real, c: Color): Color {
    Color(Part(k, c.r), Part(k, c.g), Part(k, c.b))
  }

  const BLACK := Color(0.0, 0.0, 0.0)

  /** The shader's test: anything from 0.999999 up is taken for opaque. */
  predicate Fractional(l: Layer) {
    l.translucent && l.opacity < 0.999999
  }

  /** The opacity a layer is composited with. */
  function Alpha(l: Layer): real {
    if Fractional(l) then l.opacity else 1.0
  }

  /** The opacity it ought to be composited with. */
  function TrueAlpha(l: Layer): real {
    if l.translucent then l.opacity else 1.0
  }

  /** Source-over: one layer with opacity a over a background. */
  function Over(a: real, c: Color, background: Color): Color {
    Plus(Times(a, c), Times(1.0 - a, background))
  }

  /** The recursive composite of layers first, first + 1, ... up to `end` over a background. */
  function Composite(layers: nat -> Layer, first: nat, end: nat, background: Color): Color
    requires first <= end
    decreases end - first
  {
    if first == end then background
    else Over(Alpha(layers(first)), layers(first).color, Composite(layers, first + 1, end, background))
  }

  function TrueComposite(layers: nat -> Layer, first: nat, end: nat, background: Color): Color
    requires first <= end
    decreases end - first
  {
    if first == end then background
    else Over(TrueAlpha(layers(first)), layers(first).color, TrueComposite(layers, first + 1, end, background))
  }

  /** What is left of the light after n layers. */
  function Transmittance(layers: nat -> Layer, n: nat): real {
    if n == 0 then 1.0 else Part(Transmittance(layers, n - 1), 1.0 - Alpha(layers(n - 1)))
  }

  /** The weight layer k has in the result. */
  function Weight(layers: nat -> Layer, k: nat): real {
    Part(Transmittance(layers, k), Alpha(layers(k)))
  }

  function WeightSum(layers: nat -> Layer, n: nat): real {
    if n == 0 then 0.0 else WeightSum(layers, n - 1) + Weight(layers, n - 1)
  }

  /** The light gathered from n layers. */
  function Gathered(layers: nat -> Layer, n: nat): Color {
    if n == 0 then BLACK else Plus(Gathered(layers, n - 1), Times(Weight(layers, n - 1), layers(n - 1).color))
  }

  // ----- the loop -----

  datatype Result = Result(color: Color, transmittance: real, used: nat)

  /** The loop goes on after layer k. */
  predicate Passed(layers: nat -> Layer, k: nat) {
    Fractional(layers(k)) && Transmittance(layers, k + 1) > 0.0001
  }

  /** Why the loop stopped after n layers: an opaque layer, next to nothing left, or the layer cap. */
  predicate Stopped(layers: nat -> Layer, n: nat) {
    && 0 < n <= 64 && (forall k: nat | k < n - 1 :: Passed(layers, k))
    && (!Fractional(layers(n - 1)) || Transmittance(layers, n) <= 0.0001 || n == 64)
  }

  /** The shader's loop: accumulate in place while the hits are fractional, finish with the first opaque one. */
  method Trace(layers: nat -> Layer) returns (result: Result)
    requires forall k: nat :: Valid(layers(k))
    ensures Stopped(layers, result.used)
    ensures result.color == Gathered(layers, result.used)
    ensures result.transmittance == Transmittance(layers, result.used)
  {
    var accumulated := BLACK;
    var color := BLACK;
    var remaining := 1.0;
    var usedFractional := false;
    var layer := 0;
    NoLayers(layers);
    hide Gathered, Transmittance, Fractional, Plus, Times, Part, Valid;
    while layer < 64
      invariant layer <= 64 && (usedFractional <==> layer > 0)
      invariant accumulated == color == Gathered(layers, layer) && remaining == Transmittance(layers, layer)
      invariant forall k: nat :: k < layer ==> Passed(layers, k)
    {
      var hit := layers(layer);
      if Fractional(hit) {
        FractionalStep(layers, layer);
        usedFractional := true;
        accumulated := Plus(accumulated, Times(Part(remaining, hit.opacity), hit.color));
        remaining := Part(remaining, 1.0 - hit.opacity);
        color := accumulated;
        layer := layer + 1;
        if remaining <= 0.0001 {
          return Result(color, remaining, layer);
        }
        continue;
      }
      OpaqueStep(layers, layer);
      if usedFractional {
        accumulated := Plus(accumulated, Times(remaining, hit.color));
        color := accumulated;
      } else {
        color := hit.color;
      }
      return Result(color, 0.0, layer + 1);
    }
    result := Result(color, remaining, 64);
  }

  lemma NoLayers(layers: nat -> Layer)
    ensures Gathered(layers, 0) == BLACK && Transmittance(layers, 0) == 1.0
  {
  }

  lemma PartOne(x: real)
    ensures Part(1.0, x) == x && Part(x, 1.0) == x && Part(0.0, x) == 0.0 && Part(x, 0.0) == 0.0
  {
  }

  lemma FractionalStep(layers: nat -> Layer, n: nat)
    requires Fractional(layers(n))
    ensures var t, l := Transmittance(layers, n), layers(n);
      Gathered(layers, n + 1) == Plus(Gathered(layers, n), Times(Part(t, l.opacity), l.color))
      && Transmittance(layers, n + 1) == Part(t, 1.0 - l.opacity)
  {
    hide Plus, Times, Part, Fractional;
  }

  /** An opaque layer takes all that is left; alone it is the colour itself. */
  lemma OpaqueStep(layers: nat -> Layer, n: nat)
    requires !Fractional(layers(n))
    ensures Gathered(layers, n + 1) == Plus(Gathered(layers, n), Times(Transmittance(layers, n), layers(n).color))
    ensures Transmittance(layers, n + 1) == 0.0
    ensures n == 0 ==> Gathered(layers, 1) == layers(0).color
  {
    PartOne(Transmittance(layers, n));
    var c := layers(n).color;
    PartOne(c.r);
    PartOne(c.g);
    PartOne(c.b);
    hide Part, Fractional;
  }

  // ----- what the result is -----

  /** At every iteration the weights given out and the transmittance left sum to one. */
  lemma {:induction false} WeightsSumToOne(layers: nat -> Layer, n: nat)
    ensures WeightSum(layers, n) + Transmittance(layers, n) == 1.0
  {
    if n > 0 {
      WeightsSumToOne(layers, n - 1);
      WeightSplit(Transmittance(layers, n - 1), Alpha(layers(n - 1)));
      hide Part, Alpha;
    }
  }

  lemma WeightSplit(t: real, a: real)
    ensures Part(t, a) + Part(t, 1.0 - a) == t
  {
  }

  lemma {:induction false} TransmittanceRange(layers: nat -> Layer, n: nat)
    requires forall k: nat :: Valid(layers(k))
    ensures 0.0 <= Transmittance(layers, n) <= 1.0
  {
    if n > 0 {
      TransmittanceRange(layers, n - 1);
      assert Valid(layers(n - 1));
      PartRange(Transmittance(layers, n - 1), 1.0 - Alpha(layers(n - 1)));
      hide Part;
    }
  }

  lemma PartRange(a: real, b: real)
    requires 0.0 <= a <= 1.0 && 0.0 <= b <= 1.0
    ensures 0.0 <= Part(a, b) <= 1.0
  {
    PartMonotone(a, b, 1.0);
  }

  lemma PartMonotone(k: real, a: real, b: real)
    requires 0.0 <= k && a <= b
    ensures Part(k, a) <= Part(k, b) && (0.0 <= a ==> 0.0 <= Part(k, a))
  {
    assert k * (b - a) >= 0.0;
  }

  lemma PartSplit(k: real, a: real, b: real)
    ensures Part(k, a + b) == Part(k, a) + Part(k, b) && Part(a + b, k) == Part(a, k) + Part(b, k)
    ensures Part(k, a - b) == Part(k, a) - Part(k, b)
  {
  }

  lemma PartAssociates(a: real, b: real, x: real)
    ensures Part(a, Part(b, x)) == Part(Part(a, b), x)
  {
  }

  /** One channel of a layer over a rest, seen through transmittance t. */
  lemma Through(t: real, a: real, c: real, rest: real)
    ensures Part(t, Part(a, c) + Part(1.0 - a, rest)) == Part(Part(t, a), c) + Part(Part(t, 1.0 - a), rest)
  {
    PartSplit(t, Part(a, c), Part(1.0 - a, rest));
    PartAssociates(t, a, c);
    PartAssociates(t, 1.0 - a, rest);
    hide Part;
  }

  lemma ThroughColor(t: real, a: real, c: Color, rest: Color)
    ensures Times(t, Over(a, c, rest)) == Plus(Times(Part(t, a), c), Times(Part(t, 1.0 - a), rest))
  {
    Through(t, a, c.r, rest.r);
    Through(t, a, c.g, rest.g);
    Through(t, a, c.b, rest.b);
    hide Part;
  }

  lemma PlusAssociates(a: Color, b: Color, c: Color)
    ensures Plus(Plus(a, b), c) == Plus(a, Plus(b, c))
  {
  }

  /** Front to back is back to front: after n layers, what was gathered and the rest of the composite seen
      through the remaining transmittance make up the whole recursive composite. */
  lemma {:induction false} GatheredIsComposite(layers: nat -> Layer, n: nat, end: nat, background: Color)
    requires n <= end
    ensures Plus(Gathered(layers, n), Times(Transmittance(layers, n), Composite(layers, n, end, background)))
         == Composite(layers, 0, end, background)
  {
    if n == 0 {
      var c := Composite(layers, 0, end, background);
      PartOne(c.r);
      PartOne(c.g);
      PartOne(c.b);
      hide Part, Composite;
    } else {
      GatheredIsComposite(layers, n - 1, end, background);
      var t, l, rest := Transmittance(layers, n - 1), layers(n - 1), Composite(layers, n, end, background);
      ThroughColor(t, Alpha(l), l.color, rest);
      PlusAssociates(Gathered(layers, n - 1), Times(Part(t, Alpha(l)), l.color), Times(Part(t, 1.0 - Alpha(l)), rest));
      hide Over, Plus, Times, Alpha, Part;
    }
  }

  function Difference(a: Color, b: Color): Color {
    Color(a.r - b.r, a.g - b.g, a.b - b.b)
  }

  /** Every channel of a is within [0, limit]. */
  predicate Within(a: Color, limit: real) {
    0.0 <= a.r <= limit && 0.0 <= a.g <= limit && 0.0 <= a.b <= limit
  }

  predicate Near(a: Color, b: Color, limit: real) {
    -limit <= a.r - b.r <= limit && -limit <= a.g - b.g <= limit && -limit <= a.b - b.b <= limit
  }

  lemma MixRange(a: real, c: real, rest: real, limit: real)
    requires 0.0 <= a <= 1.0 && 0.0 <= c <= limit && 0.0 <= rest <= limit
    ensures 0.0 <= Part(a, c) + Part(1.0 - a, rest) <= limit
  {
    PartMonotone(a, c, limit);
    PartMonotone(1.0 - a, rest, limit);
    PartSplit(limit, a, 1.0 - a);
    PartOne(limit);
    hide Part;
  }

  lemma {:induction false} CompositeWithin(layers: nat -> Layer, first: nat, end: nat, background: Color, limit: real)
    requires first <= end && Within(background, limit)
    requires forall k: nat :: Valid(layers(k)) && Within(layers(k).color, limit)
    ensures Within(Composite(layers, first, end, background), limit)
    ensures Within(TrueComposite(layers, first, end, background), limit)
    decreases end - first
  {
    if first < end {
      CompositeWithin(layers, first + 1, end, background, limit);
      var l, a, b := layers(first), Composite(layers, first + 1, end, background),
          TrueComposite(layers, first + 1, end, background);
      assert Valid(l) && Within(l.color, limit);
      OverWithin(Alpha(l), l.color, a, limit);
      OverWithin(TrueAlpha(l), l.color, b, limit);
      hide Over, Within, Alpha, TrueAlpha;
    }
  }

  lemma OverWithin(a: real, c: Color, rest: Color, limit: real)
    requires 0.0 <= a <= 1.0 && Within(c, limit) && Within(rest, limit)
    ensures Within(Over(a, c, rest), limit)
  {
    MixRange(a, c.r, rest.r, limit);
    MixRange(a, c.g, rest.g, limit);
    MixRange(a, c.b, rest.b, limit);
  }

  /** The result against the recursive composite of any number of layers the loop may have left out, over any
      background: it falls short by exactly what the remaining transmittance lets through. That is nothing at
      all when the loop ended at an opaque layer, at most 0.0001 of the weight when it ended early, and the
      remaining transmittance at the cap of 64 layers. */
  lemma TraceIsComposite(layers: nat -> Layer, n: nat, end: nat, background: Color, limit: real)
    requires Stopped(layers, n) && n <= end && Within(background, limit)
    requires forall k: nat :: Valid(layers(k)) && Within(layers(k).color, limit)
    ensures var full, t := Composite(layers, 0, end, background), Transmittance(layers, n);
      && full == Plus(Gathered(layers, n), Times(t, Composite(layers, n, end, background)))
      && (!Fractional(layers(n - 1)) ==> t == 0.0 && Gathered(layers, n) == full)
      && (t <= 0.0001 || n == 64)
      && Within(Difference(full, Gathered(layers, n)), Part(t, limit))
  {
    GatheredIsComposite(layers, n, end, background);
    CompositeWithin(layers, n, end, background, limit);
    TransmittanceRange(layers, n);
    if !Fractional(layers(n - 1)) { OpaqueStep(layers, n - 1); }
    var t, rest := Transmittance(layers, n), Composite(layers, n, end, background);
    hide Transmittance, Composite, Gathered, Fractional, Part;
    ShareWithin(Gathered(layers, n), t, rest, limit);
  }

  lemma ShareWithin(gathered: Color, t: real, rest: Color, limit: real)
    requires 0.0 <= t && Within(rest, limit)
    ensures Within(Difference(Plus(gathered, Times(t, rest)), gathered), Part(t, limit))
    ensures t == 0.0 ==> Plus(gathered, Times(t, rest)) == gathered
  {
    PartMonotone(t, rest.r, limit);
    PartMonotone(t, rest.g, limit);
    PartMonotone(t, rest.b, limit);
    PartOne(rest.r);
    PartOne(rest.g);
    PartOne(rest.b);
    hide Part;
  }

  /** Taking an opacity from 0.999999 up for full opacity costs at most a millionth of a channel's range at
      each layer it happens to, seen through the layers in front: at most a millionth in all, because the rest
      is then hidden. */
  lemma {:induction false} NearlyOpaque(layers: nat -> Layer, first: nat, end: nat, background: Color, limit: real)
    requires first <= end && Within(background, limit) && 0.0 <= limit
    requires forall k: nat :: Valid(layers(k)) && Within(layers(k).color, limit)
    ensures Near(Composite(layers, first, end, background), TrueComposite(layers, first, end, background),
        Part(0.000001, limit))
    decreases end - first
  {
    if first < end {
      NearlyOpaque(layers, first + 1, end, background, limit);
      CompositeWithin(layers, first + 1, end, background, limit);
      var l, a, b := layers(first), Composite(layers, first + 1, end, background),
          TrueComposite(layers, first + 1, end, background);
      assert Valid(l) && Within(l.color, limit);
      OverNear(l, a.r, b.r, l.color.r, limit);
      OverNear(l, a.g, b.g, l.color.g, limit);
      OverNear(l, a.b, b.b, l.color.b, limit);
      hide Alpha, TrueAlpha, Part, Valid, Within, Transmittance;
    }
  }

  lemma OverNear(l: Layer, a: real, b: real, c: real, limit: real)
    requires Valid(l) && 0.0 <= c <= limit && 0.0 <= a <= limit && 0.0 <= b <= limit
    requires -Part(0.000001, limit) <= a - b <= Part(0.000001, limit)
    ensures -Part(0.000001, limit)
      <= (Part(Alpha(l), c) + Part(1.0 - Alpha(l), a)) - (Part(TrueAlpha(l), c) + Part(1.0 - TrueAlpha(l), b))
      <= Part(0.000001, limit)
  {
    if Alpha(l) == TrueAlpha(l) {
      KeptNear(1.0 - Alpha(l), a, b, Part(0.000001, limit));
      hide Part;
    } else {
      var rest := 1.0 - l.opacity;
      PartOne(a);
      PartOne(c);
      PartSplit(c, l.opacity, rest);
      SmallShare(rest, c, b, limit);
      hide Part;
    }
  }

  lemma KeptNear(k: real, a: real, b: real, limit: real)
    requires 0.0 <= k <= 1.0 && -limit <= a - b <= limit
    ensures -limit <= Part(k, a) - Part(k, b) <= limit
  {
    PartSplit(k, a, b);
    PartMonotone(k, -limit, a - b);
    PartMonotone(k, a - b, limit);
    PartMonotone(limit, k, 1.0);
    PartSplit(k, 0.0, limit);
    PartOne(limit);
    PartOne(k);
    assert Part(limit, k) == Part(k, limit);
    hide Part;
  }

  lemma SmallShare(rest: real, c: real, b: real, limit: real)
    requires 0.0 <= rest <= 0.000001 && 0.0 <= c <= limit && 0.0 <= b <= limit
    ensures -Part(0.000001, limit) <= Part(rest, c) - Part(rest, b) <= Part(0.000001, limit)
    ensures Part(rest, c) == Part(c, rest)
  {
    PartMonotone(rest, c, limit);
    PartMonotone(rest, b, limit);
    PartMonotone(limit, rest, 0.000001);
  }

  /** The whole error against the true source-over composite: the part the remaining transmittance hides, and a
      millionth. */
  lemma TraceNearTruth(layers: nat -> Layer, n: nat, end: nat, background: Color, limit: real)
    requires Stopped(layers, n) && n <= end && Within(background, limit)
    requires forall k: nat :: Valid(layers(k)) && Within(layers(k).color, limit)
    ensures Near(Gathered(layers, n), TrueComposite(layers, 0, end, background),
                 Part(Transmittance(layers, n), limit) + Part(0.000001, limit))
  {
    TraceIsComposite(layers, n, end, background, limit);
    NearlyOpaque(layers, 0, end, background, limit);
    PartMonotone(0.000001, 0.0, limit);
    hide Gathered, Transmittance, Composite, TrueComposite, Stopped, Part, Fractional;
  }
}

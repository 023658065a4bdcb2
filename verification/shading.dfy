/**
 * Trace contexts and the shading pipeline of the renderer (src/fj_shading.cc).
 *
 * A TraceContext is a value copied from parent to child ray. SlTrace shades the nearest
 * surface, marches the volumes in front of it and composites the volume over the
 * surface; SlIlluminance gates a light sample and attenuates it by a shadow ray.
 * Accelerators, shaders and lights are capabilities of the scene: the surface and
 * volume queries arrive as function fields of a Scene, each already answering for the
 * context's target and time.
 */
module Shading {
  import opened Optional
  import opened Geometry

  // ---------------------------------------------------------------------------
  // Trace contexts
  // ---------------------------------------------------------------------------

  /** CXT_*_RAY: the kind of ray a context traces. */
  datatype RayClass = CameraRay | ShadowRay | DiffuseRay | ReflectRay | RefractRay

  /** An object group a context traces against; only its identity matters here. */
  datatype ObjectGroup = ObjectGroup(id: int)

  datatype TraceContext = TraceContext(
    rayClass: RayClass,
    diffuseDepth: int, reflectDepth: int, refractDepth: int,
    maxDiffuseDepth: int, maxReflectDepth: int, maxRefractDepth: int,
    castShadow: int,
    time: real,
    opacityThreshold: real,
    raymarchStep: real, raymarchShadowStep: real, raymarchDiffuseStep: real,
    raymarchReflectStep: real, raymarchRefractStep: real,
    target: ObjectGroup)

  /** The object groups an object instance hands to the rays it spawns. */
  datatype ObjectInstance = ObjectInstance(reflectTarget: ObjectGroup, refractTarget: ObjectGroup,
                                           shadowTarget: ObjectGroup, selfHitTarget: ObjectGroup)

  /** has_reached_bounce_limit: camera and shadow rays compare 0 with 1, so only secondary rays can stop. */
  predicate HasReachedBounceLimit(c: TraceContext)
  {
    var (current, maximum) :=
      match c.rayClass
      case CameraRay => (0, 1)
      case ShadowRay => (0, 1)
      case DiffuseRay => (c.diffuseDepth, c.maxDiffuseDepth)
      case ReflectRay => (c.reflectDepth, c.maxReflectDepth)
      case RefractRay => (c.refractDepth, c.maxRefractDepth);
    current > maximum
  }

  /** shadow_ray_has_reached_opcity_limit */
  predicate ShadowRayHasReachedOpacityLimit(c: TraceContext, opac: real)
  {
    c.rayClass == ShadowRay && opac > c.opacityThreshold
  }

  /** The raymarch step of the context's ray class. */
  function StepFor(c: TraceContext): real
  {
    match c.rayClass
    case CameraRay => c.raymarchStep
    case ShadowRay => c.raymarchShadowStep
    case DiffuseRay => c.raymarchDiffuseStep
    case ReflectRay => c.raymarchReflectStep
    case RefractRay => c.raymarchRefractStep
  }

  /** Every raymarch step is positive, so a raymarch under any ray class ends. */
  predicate PositiveSteps(c: TraceContext)
  {
    c.raymarchStep > 0.0 && c.raymarchShadowStep > 0.0 && c.raymarchDiffuseStep > 0.0 &&
    c.raymarchReflectStep > 0.0 && c.raymarchRefractStep > 0.0
  }

  /**
   * SlCameraContext: the root context. It is never terminal, and its steps are positive
   * and stay so in every context derived from it.
   */
  function SlCameraContext(target: ObjectGroup): (c: TraceContext)
    ensures c.rayClass == CameraRay && !HasReachedBounceLimit(c) && PositiveSteps(c)
    ensures c.target == target && c.castShadow != 0
  {
    TraceContext(CameraRay, 0, 0, 0, 5, 5, 5, 1, 0.0, 0.995, 0.05, 0.05, 0.05, 0.05, 0.05, target)
  }

  /** SlDiffuseContext: one diffuse bounce deeper; the reflect target is reused. */
  function SlDiffuseContext(c: TraceContext, obj: ObjectInstance): (r: TraceContext)
    ensures r.diffuseDepth == c.diffuseDepth + 1 && r.rayClass == DiffuseRay && r.target == obj.reflectTarget
    ensures r.(diffuseDepth := c.diffuseDepth, rayClass := c.rayClass, target := c.target) == c
  {
    c.(diffuseDepth := c.diffuseDepth + 1, rayClass := DiffuseRay, target := obj.reflectTarget)
  }

  /** SlReflectContext: one reflection deeper. */
  function SlReflectContext(c: TraceContext, obj: ObjectInstance): (r: TraceContext)
    ensures r.reflectDepth == c.reflectDepth + 1 && r.rayClass == ReflectRay && r.target == obj.reflectTarget
    ensures r.(reflectDepth := c.reflectDepth, rayClass := c.rayClass, target := c.target) == c
  {
    c.(reflectDepth := c.reflectDepth + 1, rayClass := ReflectRay, target := obj.reflectTarget)
  }

  /** SlRefractContext: one refraction deeper. */
  function SlRefractContext(c: TraceContext, obj: ObjectInstance): (r: TraceContext)
    ensures r.refractDepth == c.refractDepth + 1 && r.rayClass == RefractRay && r.target == obj.refractTarget
    ensures r.(refractDepth := c.refractDepth, rayClass := c.rayClass, target := c.target) == c
  {
    c.(refractDepth := c.refractDepth + 1, rayClass := RefractRay, target := obj.refractTarget)
  }

  /**
   * SlShadowContext: a shadow ray whose maximum depths are all zero, which turns off
   * secondary tracing on the occluders it finds.
   */
  function SlShadowContext(c: TraceContext, obj: ObjectInstance): (r: TraceContext)
    ensures r.rayClass == ShadowRay && r.target == obj.shadowTarget && !HasReachedBounceLimit(r)
    ensures r.maxDiffuseDepth == 0 && r.maxReflectDepth == 0 && r.maxRefractDepth == 0
    ensures r.(rayClass := c.rayClass, target := c.target, maxDiffuseDepth := c.maxDiffuseDepth,
               maxReflectDepth := c.maxReflectDepth, maxRefractDepth := c.maxRefractDepth) == c
  {
    c.(rayClass := ShadowRay, maxDiffuseDepth := 0, maxReflectDepth := 0, maxRefractDepth := 0,
       target := obj.shadowTarget)
  }

  /** SlSelfHitContext: the same context aimed at the object's self-hit target. */
  function SlSelfHitContext(c: TraceContext, obj: ObjectInstance): (r: TraceContext)
    ensures r.target == obj.selfHitTarget && r.(target := c.target) == c
    ensures HasReachedBounceLimit(r) == HasReachedBounceLimit(c)
  {
    c.(target := obj.selfHitTarget)
  }

  /** The bounce limit, class by class. */
  lemma BounceLimit(c: TraceContext)
    ensures c.rayClass == CameraRay || c.rayClass == ShadowRay ==> !HasReachedBounceLimit(c)
    ensures c.rayClass == DiffuseRay ==> (HasReachedBounceLimit(c) <==> c.diffuseDepth > c.maxDiffuseDepth)
    ensures c.rayClass == ReflectRay ==> (HasReachedBounceLimit(c) <==> c.reflectDepth > c.maxReflectDepth)
    ensures c.rayClass == RefractRay ==> (HasReachedBounceLimit(c) <==> c.refractDepth > c.maxRefractDepth)
  {
  }

  /** A secondary ray spawned at a hit. */
  datatype Bounce = Diffuse(obj: ObjectInstance) | Reflect(obj: ObjectInstance) | Refract(obj: ObjectInstance)

  function Spawn(c: TraceContext, b: Bounce): TraceContext
  {
    match b
    case Diffuse(obj) => SlDiffuseContext(c, obj)
    case Reflect(obj) => SlReflectContext(c, obj)
    case Refract(obj) => SlRefractContext(c, obj)
  }

  /** The context after a chain of bounces, the first bounce first. */
  function Chain(c: TraceContext, bs: seq<Bounce>): TraceContext
    decreases |bs|
  {
    if bs == [] then c else Spawn(Chain(c, bs[..|bs| - 1]), bs[|bs| - 1])
  }

  function CountDiffuse(bs: seq<Bounce>): nat
    decreases |bs|
  {
    if bs == [] then 0 else CountDiffuse(bs[..|bs| - 1]) + (if bs[|bs| - 1].Diffuse? then 1 else 0)
  }

  function CountReflect(bs: seq<Bounce>): nat
    decreases |bs|
  {
    if bs == [] then 0 else CountReflect(bs[..|bs| - 1]) + (if bs[|bs| - 1].Reflect? then 1 else 0)
  }

  function CountRefract(bs: seq<Bounce>): nat
    decreases |bs|
  {
    if bs == [] then 0 else CountRefract(bs[..|bs| - 1]) + (if bs[|bs| - 1].Refract? then 1 else 0)
  }

  /**
   * Along a chain of bounces each depth counts the bounces of its own kind; the limits,
   * steps, shadow flag, threshold and time are inherited unchanged.
   */
  lemma {:induction false} ChainDepths(c: TraceContext, bs: seq<Bounce>)
    ensures var r := Chain(c, bs);
            && r.diffuseDepth == c.diffuseDepth + CountDiffuse(bs)
            && r.reflectDepth == c.reflectDepth + CountReflect(bs)
            && r.refractDepth == c.refractDepth + CountRefract(bs)
            && r.(diffuseDepth := c.diffuseDepth, reflectDepth := c.reflectDepth, refractDepth := c.refractDepth,
                  rayClass := c.rayClass, target := c.target) == c
    ensures bs != [] ==>
              Chain(c, bs).rayClass ==
              (match bs[|bs| - 1] case Diffuse(_) => DiffuseRay case Reflect(_) => ReflectRay case Refract(_) => RefractRay)
    decreases |bs|
  {
    if bs != [] {
      ChainDepths(c, bs[..|bs| - 1]);
    }
  }

  /**
   * A ray that has bounced along `bs` from the camera is terminal exactly when more than
   * five bounces of its own kind lie on its path; in particular a pure reflection chain
   * of length n is terminal iff n > 5.
   */
  lemma CameraChainTerminal(target: ObjectGroup, bs: seq<Bounce>)
    requires bs != []
    ensures var r := Chain(SlCameraContext(target), bs);
            HasReachedBounceLimit(r) <==>
              match bs[|bs| - 1]
              case Diffuse(_) => CountDiffuse(bs) > 5
              case Reflect(_) => CountReflect(bs) > 5
              case Refract(_) => CountRefract(bs) > 5
  {
    ChainDepths(SlCameraContext(target), bs);
  }

  /**
   * The point of zeroing the limits in SlShadowContext: a secondary ray spawned from a
   * shadow ray is always terminal, as long as the parent's depths are non-negative.
   */
  lemma ShadowStopsSecondary(c: TraceContext, obj: ObjectInstance, b: Bounce)
    requires c.diffuseDepth >= 0 && c.reflectDepth >= 0 && c.refractDepth >= 0
    ensures HasReachedBounceLimit(Spawn(SlShadowContext(c, obj), b))
  {
  }

  // ---------------------------------------------------------------------------
  // Colours and the scene's capabilities
  // ---------------------------------------------------------------------------

  datatype Color = Color(r: real, g: real, b: real)
  datatype Color4 = Color4(r: real, g: real, b: real, a: real)

  const Black: Color := Color(0.0, 0.0, 0.0)
  const Black4: Color4 := Color4(0.0, 0.0, 0.0, 0.0)

  /** NO_SHADER_COLOR: what a surface or volume without a shader shows. */
  const NO_SHADER_COLOR: Color := Color(0.5, 1.0, 0.0)

  /** What a surface shader outputs: colour Cs and opacity Os. */
  datatype SurfaceOutput = SurfaceOutput(cs: Color, os: real)

  /** A surface hit: its distance and the shader's output, None when the object has no shader. */
  datatype SurfaceHit = SurfaceHit(tHit: real, shading: Option<SurfaceOutput>)

  /**
   * A volume the ray passes through, sampled by the ray parameter t: its density there
   * and its shader's colour, None when the volume has no shader.
   */
  datatype VolumeInterval = VolumeInterval(density: real -> real, shading: real -> Option<Color>)

  /** The volume accelerator's answer: the interval list with its smallest and largest t. */
  datatype VolumeHits = VolumeHits(minT: real, maxT: real, intervals: seq<VolumeInterval>)

  /** The trace target's surface and volume accelerators, with the shaders behind them. */
  datatype Scene = Scene(surface: (TraceContext, Ray) -> Option<SurfaceHit>,
                         volume: (TraceContext, Ray) -> Option<VolumeHits>)

  function Clamp(x: real, lo: real, hi: real): (r: real)
    requires lo <= hi
    ensures lo <= r <= hi
    ensures lo <= x <= hi ==> r == x
    ensures x < lo ==> r == lo
    ensures x > hi ==> r == hi
  {
    if x < lo then lo else if x > hi then hi else x
  }

  /** The result of a trace: hit flag, colour with opacity, and the caller's t_hit. */
  datatype TraceResult = TraceResult(hit: bool, rgba: Color4, tHit: real)

  /**
   * trace_surface: shades the nearest surface hit. A miss gives zero colour and leaves
   * t_hit alone; a hit without a shader shows NO_SHADER_COLOR fully opaque; the opacity
   * is clamped to [0, 1].
   */
  function TraceSurface(c: TraceContext, scene: Scene, ray: Ray, tHitIn: real): (r: TraceResult)
    ensures r.hit <==> scene.surface(c, ray).Some?
    ensures !r.hit ==> r.rgba == Black4 && r.tHit == tHitIn
    ensures r.hit ==> r.tHit == scene.surface(c, ray).value.tHit && 0.0 <= r.rgba.a <= 1.0
    ensures r.hit && scene.surface(c, ray).value.shading.None? ==> r.rgba == Color4(0.5, 1.0, 0.0, 1.0)
    ensures r.hit && scene.surface(c, ray).value.shading.Some? ==>
              var out := scene.surface(c, ray).value.shading.value;
              r.rgba.r == out.cs.r && r.rgba.g == out.cs.g && r.rgba.b == out.cs.b &&
              (0.0 <= out.os <= 1.0 ==> r.rgba.a == out.os) &&
              (out.os < 0.0 ==> r.rgba.a == 0.0) && (out.os > 1.0 ==> r.rgba.a == 1.0)
  {
    match scene.surface(c, ray)
    case None => TraceResult(false, Black4, tHitIn)
    case Some(h) =>
      var out := if h.shading.Some? then h.shading.value else SurfaceOutput(NO_SHADER_COLOR, 1.0);
      TraceResult(true, Color4(out.cs.r, out.cs.g, out.cs.b, Clamp(out.os, 0.0, 1.0)), h.tHit)
  }

  // ---------------------------------------------------------------------------
  // The raymarch
  // ---------------------------------------------------------------------------

  /** C's trunc for reals. */
  function Trunc(x: real): int
  {
    if x >= 0.0 then x.Floor else -((-x).Floor)
  }

  /** C's fmod: the remainder of x / y with the sign of x. */
  function Fmod(x: real, y: real): real
    requires y != 0.0
  {
    x - (Trunc(x / y) as real) * y
  }

  /** The first sample: one step in if the volumes start behind the origin, else the next step boundary past minT. */
  function MarchStart(minT: real, step: real): real
    requires step > 0.0
  {
    if minT < 0.0 then step else minT - Fmod(minT, step) + step
  }

  /**
   * The first sample lies on the grid of whole steps, strictly past minT and at most one
   * step past it (or at the first step when minT is negative).
   */
  lemma MarchStartOnGrid(minT: real, step: real)
    requires step > 0.0
    ensures MarchStart(minT, step) > 0.0
    ensures minT >= 0.0 ==> minT < MarchStart(minT, step) <= minT + step
    ensures minT >= 0.0 ==> MarchStart(minT, step) == ((minT / step).Floor + 1) as real * step
  {
    if minT >= 0.0 {
      var q := minT / step;
      Quotient(minT, step, q);
      var fs := (q.Floor as real) * step;
      FloorMul(q, step, fs);
      assert Trunc(q) == q.Floor;
      assert MarchStart(minT, step) == fs + step;
    }
  }

  lemma MulNonneg(x: real, y: real)
    requires 0.0 <= x && 0.0 <= y
    ensures 0.0 <= x * y
  {
  }

  lemma MulPos(x: real, y: real)
    requires 0.0 < x && 0.0 < y
    ensures 0.0 < x * y
  {
  }

  /** q = x / step is non-negative for non-negative x, and q·step = x. */
  lemma Quotient(x: real, step: real, q: real)
    requires step > 0.0 && 0.0 <= x && q == x / step
    ensures q >= 0.0 && q * step == x
  {
    if q < 0.0 {
      MulNonneg(-q, step);
    }
  }

  /** Scaling the floor of q by a positive step stays within one step below q·step. */
  lemma FloorMul(q: real, step: real, fs: real)
    requires step > 0.0 && fs == (q.Floor as real) * step
    ensures fs <= q * step < fs + step
  {
    var f := q.Floor as real;
    assert f <= q < f + 1.0;
    var lo := q - f;
    var hi := f + 1.0 - q;
    MulNonneg(lo, step);
    MulPos(hi, step);
    assert lo * step == q * step - fs;
    assert hi * step == fs + step - q * step;
  }

  /** One step less, one whole quotient less. */
  lemma DivShift(x: real, step: real)
    requires step > 0.0
    ensures (x - step) / step == x / step - 1.0
  {
    var r := (x - step) / step;
    var q := x / step;
    assert r * step == x - step;
    assert q * step == x;
    var d := r - (q - 1.0);
    assert d * step == 0.0;
    if d > 0.0 {
      MulPos(d, step);
    } else if d < 0.0 {
      MulPos(-d, step);
    }
  }

  /** The opacity and colour of one sample point, merged over the intervals. */
  datatype Sample = Sample(opacity: real, color: Color)

  function Scale(c: Color, k: real): Color
  {
    Color(c.r * k, c.g * k, c.b * k)
  }

  /** The opacity one interval contributes over a step: step × density. */
  function StepOpacity(step: real, density: real): real
  {
    step * density
  }

  /**
   * The inner loop of raymarch_volume at parameter t: the opacity is the running
   * maximum of step × density, and (for other than shadow rays) the colour is the
   * current interval's shader colour times that running opacity.
   */
  function MergeIntervals(ivs: seq<VolumeInterval>, cls: RayClass, step: real, t: real): Sample
    decreases |ivs|
  {
    if ivs == [] then Sample(0.0, Black)
    else
      var s := MergeIntervals(ivs[..|ivs| - 1], cls, step, t);
      var iv := ivs[|ivs| - 1];
      var opacity := Max(s.opacity, StepOpacity(step, iv.density(t)));
      var cs := if iv.shading(t).Some? then iv.shading(t).value else NO_SHADER_COLOR;
      Sample(opacity, if cls == ShadowRay then s.color else Scale(cs, opacity))
  }

  /** The merged opacity is non-negative and no smaller than any interval's step-scaled density. */
  lemma {:induction false} MergeOpacityBound(ivs: seq<VolumeInterval>, cls: RayClass, step: real, t: real)
    ensures var s := MergeIntervals(ivs, cls, step, t);
            s.opacity >= 0.0 && forall i :: 0 <= i < |ivs| ==> StepOpacity(step, ivs[i].density(t)) <= s.opacity
    decreases |ivs|
  {
    if ivs != [] {
      var init := ivs[..|ivs| - 1];
      MergeOpacityBound(init, cls, step, t);
      forall i | 0 <= i < |ivs| - 1
        ensures ivs[i] == init[i]
      {
      }
    }
  }

  /** The merged opacity is 0 or one of the step-scaled densities: the maximum is attained. */
  lemma {:induction false} MergeOpacityAttained(ivs: seq<VolumeInterval>, cls: RayClass, step: real, t: real)
    ensures var s := MergeIntervals(ivs, cls, step, t);
            s.opacity == 0.0 || exists i :: 0 <= i < |ivs| && s.opacity == StepOpacity(step, ivs[i].density(t))
    decreases |ivs|
  {
    if ivs != [] {
      var init := ivs[..|ivs| - 1];
      MergeOpacityAttained(init, cls, step, t);
      var s := MergeIntervals(init, cls, step, t);
      var last := StepOpacity(step, ivs[|ivs| - 1].density(t));
      if s.opacity < last {
        assert MergeIntervals(ivs, cls, step, t).opacity == last;
      } else if s.opacity != 0.0 {
        var i :| 0 <= i < |init| && s.opacity == StepOpacity(step, init[i].density(t));
        assert ivs[i] == init[i];
      }
    }
  }

  /** A shadow ray's samples carry no colour. */
  lemma {:induction false} MergeShadowBlack(ivs: seq<VolumeInterval>, step: real, t: real)
    ensures MergeIntervals(ivs, ShadowRay, step, t).color == Black
    decreases |ivs|
  {
    if ivs != [] {
      MergeShadowBlack(ivs[..|ivs| - 1], step, t);
    }
  }

  /** The for loop over the interval list at one sample point. */
  method SampleIntervals(ivs: seq<VolumeInterval>, cls: RayClass, step: real, t: real) returns (s: Sample)
    ensures s == MergeIntervals(ivs, cls, step, t)
  {
    s := Sample(0.0, Black);
    var i := 0;
    while i < |ivs|
      invariant 0 <= i <= |ivs|
      invariant s == MergeIntervals(ivs[..i], cls, step, t)
    {
      var iv := ivs[i];
      var opacity := Max(s.opacity, StepOpacity(step, iv.density(t)));
      var color := s.color;
      if cls != ShadowRay {
        var shaded := iv.shading(t);
        var cs := if shaded.Some? then shaded.value else NO_SHADER_COLOR;
        color := Scale(cs, opacity);
      }
      assert ivs[..i + 1][..i] == ivs[..i];
      assert ivs[..i + 1][i] == iv;
      s := Sample(opacity, color);
      i := i + 1;
    }
    assert ivs[..|ivs|] == ivs;
  }

  /** A channel x with y seen behind it through the transparency 1 − alpha. */
  function Blend(x: real, y: real, alpha: real): real
  {
    x + y * (1.0 - alpha)
  }

  /** Blending two opacities in [0, 1] gives one in [0, 1] no lower than either. */
  lemma BlendAlpha(a: real, o: real)
    requires 0.0 <= a <= 1.0 && 0.0 <= o <= 1.0
    ensures a <= Blend(a, o, a)
    ensures o <= Blend(a, o, a)
    ensures Blend(a, o, a) <= 1.0
  {
    MulNonneg(o, 1.0 - a);
    MulNonneg(1.0 - o, 1.0 - a);
    MulNonneg(a, 1.0 - o);
  }

  /** One sample composited behind what has been accumulated: "over" with clamped opacity. */
  function Composite(acc: Color4, s: Sample): Color4
  {
    Color4(Blend(acc.r, s.color.r, acc.a), Blend(acc.g, s.color.g, acc.a), Blend(acc.b, s.color.b, acc.a),
           Blend(acc.a, Clamp(s.opacity, 0.0, 1.0), acc.a))
  }

  /** Compositing a sample never lowers the opacity and keeps it in [0, 1]. */
  lemma CompositeAlpha(acc: Color4, s: Sample)
    requires 0.0 <= acc.a <= 1.0
    ensures acc.a <= Composite(acc, s).a <= 1.0
  {
    BlendAlpha(acc.a, Clamp(s.opacity, 0.0, 1.0));
  }

  /** The number of sample points left at or before tLimit. */
  function StepsLeft(t: real, tLimit: real, step: real): nat
    requires step > 0.0
  {
    if t > tLimit then 0 else ((tLimit - t) / step).Floor + 1
  }

  lemma StepsDecrease(t: real, tLimit: real, step: real)
    requires step > 0.0 && t <= tLimit
    ensures StepsLeft(t + step, tLimit, step) < StepsLeft(t, tLimit, step)
  {
    var q := (tLimit - t) / step;
    Quotient(tLimit - t, step, q);
    if t + step <= tLimit {
      DivShift(tLimit - t, step);
      assert tLimit - (t + step) == (tLimit - t) - step;
      assert (q - 1.0).Floor == q.Floor - 1;
    }
  }

  /**
   * The marching loop from parameter t with accumulated colour acc: it samples while
   * t <= tLimit and the opacity is below the threshold, one step at a time.
   */
  function March(ivs: seq<VolumeInterval>, c: TraceContext, step: real, tLimit: real, t: real, acc: Color4): Color4
    requires step > 0.0
    decreases StepsLeft(t, tLimit, step)
  {
    if t <= tLimit && acc.a < c.opacityThreshold then
      StepsDecrease(t, tLimit, step);
      March(ivs, c, step, tLimit, t + step, Composite(acc, MergeIntervals(ivs, c.rayClass, step, t)))
    else acc
  }

  /**
   * The march never lowers the opacity, keeps it in [0, 1], and stops only past tLimit
   * or at the threshold; a shadow ray accumulates no colour.
   */
  lemma {:induction false} MarchProperties(ivs: seq<VolumeInterval>, c: TraceContext, step: real, tLimit: real,
                                           t: real, acc: Color4)
    requires step > 0.0 && 0.0 <= acc.a <= 1.0
    ensures var r := March(ivs, c, step, tLimit, t, acc);
            acc.a <= r.a <= 1.0
    ensures c.rayClass == ShadowRay && acc.r == acc.g == acc.b == 0.0 ==>
              var r := March(ivs, c, step, tLimit, t, acc);
              r.r == r.g == r.b == 0.0
    decreases StepsLeft(t, tLimit, step)
  {
    if t <= tLimit && acc.a < c.opacityThreshold {
      StepsDecrease(t, tLimit, step);
      var s := MergeIntervals(ivs, c.rayClass, step, t);
      CompositeAlpha(acc, s);
      MergeOpacityBound(ivs, c.rayClass, step, t);
      if c.rayClass == ShadowRay {
        MergeShadowBlack(ivs, step, t);
      }
      MarchProperties(ivs, c, step, tLimit, t + step, Composite(acc, s));
    }
  }

  /**
   * raymarch_volume as a function of its inputs: no volume hit gives zero colour;
   * otherwise the march from MarchStart up to min(maxT, tmax), then the opacity is
   * snapped to 1 at the threshold and clamped.
   */
  function RaymarchVolumeSpec(c: TraceContext, scene: Scene, ray: Ray): (bool, Color4)
    requires StepFor(c) > 0.0
  {
    match scene.volume(c, ray)
    case None => (false, Black4)
    case Some(hits) =>
      var step := StepFor(c);
      var marched := March(hits.intervals, c, step, Min(hits.maxT, ray.tmax), MarchStart(hits.minT, step), Black4);
      var snapped := if marched.a >= c.opacityThreshold then marched.(a := 1.0) else marched;
      (true, snapped.(a := Clamp(snapped.a, 0.0, 1.0)))
  }

  /**
   * The raymarch reports a hit exactly when the volume accelerator does; its opacity
   * lies in [0, 1] and is either 1 or below the threshold; shadow rays come back
   * colourless; a miss is black.
   */
  lemma RaymarchProperties(c: TraceContext, scene: Scene, ray: Ray)
    requires StepFor(c) > 0.0
    ensures var r := RaymarchVolumeSpec(c, scene, ray);
            && (r.0 <==> scene.volume(c, ray).Some?)
            && (!r.0 ==> r.1 == Black4)
            && 0.0 <= r.1.a <= 1.0
            && (r.0 ==> r.1.a == 1.0 || r.1.a < c.opacityThreshold)
            && (c.rayClass == ShadowRay ==> r.1.r == r.1.g == r.1.b == 0.0)
  {
    if scene.volume(c, ray).Some? {
      var hits := scene.volume(c, ray).value;
      var step := StepFor(c);
      MarchProperties(hits.intervals, c, step, Min(hits.maxT, ray.tmax), MarchStart(hits.minT, step), Black4);
    }
  }

  /** raymarch_volume: the stepping loop, with the interval loop at each sample point. */
  method RaymarchVolume(c: TraceContext, scene: Scene, ray: Ray) returns (hit: bool, rgba: Color4)
    requires StepFor(c) > 0.0
    ensures (hit, rgba) == RaymarchVolumeSpec(c, scene, ray)
  {
    rgba := Black4;
    var found := scene.volume(c, ray);
    if found.None? {
      return false, rgba;
    }
    hit := true;
    var hits := found.value;
    var step := StepFor(c);
    var tLimit := Min(hits.maxT, ray.tmax);
    var t := MarchStart(hits.minT, step);
    ghost var marched := March(hits.intervals, c, step, tLimit, t, Black4);
    while t <= tLimit && rgba.a < c.opacityThreshold
      invariant March(hits.intervals, c, step, tLimit, t, rgba) == marched
      decreases StepsLeft(t, tLimit, step)
    {
      var sample := SampleIntervals(hits.intervals, c.rayClass, step, t);
      rgba := Composite(rgba, sample);
      StepsDecrease(t, tLimit, step);
      t := t + step;
    }
    if rgba.a >= c.opacityThreshold {
      rgba := rgba.(a := 1.0);
    }
    rgba := rgba.(a := Clamp(rgba.a, 0.0, 1.0));
  }

  // ---------------------------------------------------------------------------
  // SlTrace
  // ---------------------------------------------------------------------------

  /** `front` composited over `back`, every channel including opacity. */
  function Over(front: Color4, back: Color4): Color4
  {
    Color4(Blend(front.r, back.r, front.a), Blend(front.g, back.g, front.a), Blend(front.b, back.b, front.a),
           Blend(front.a, back.a, front.a))
  }

  /**
   * SlTrace as a function of its inputs: a terminal context gives nothing; an opaque
   * enough surface ends a shadow ray; otherwise the volumes up to the surface are
   * composited over it.
   */
  function Trace(c: TraceContext, scene: Scene, ray: Ray, tHitIn: real): TraceResult
    requires StepFor(c) > 0.0
  {
    if HasReachedBounceLimit(c) then TraceResult(false, Black4, tHitIn)
    else
      var s := TraceSurface(c, scene, ray, tHitIn);
      if ShadowRayHasReachedOpacityLimit(c, s.rgba.a) then TraceResult(true, s.rgba, s.tHit)
      else
        var v := RaymarchVolumeSpec(c, scene, if s.hit then ray.(tmax := s.tHit) else ray);
        TraceResult(s.hit || v.0, Over(v.1, s.rgba), s.tHit)
  }

  /**
   * What SlTrace promises: a terminal context returns no hit, black and the caller's
   * t_hit; the opacity is always in [0, 1]; a shadow ray stopped by an opaque enough
   * surface returns that surface and does not look at the volumes; otherwise the hit
   * flag is surface-hit or volume-hit and the volumes are marched only up to the surface.
   */
  lemma TraceProperties(c: TraceContext, scene: Scene, ray: Ray, tHitIn: real)
    requires StepFor(c) > 0.0
    ensures HasReachedBounceLimit(c) ==> Trace(c, scene, ray, tHitIn) == TraceResult(false, Black4, tHitIn)
    ensures 0.0 <= Trace(c, scene, ray, tHitIn).rgba.a <= 1.0
    ensures !HasReachedBounceLimit(c) && ShadowRayHasReachedOpacityLimit(c, TraceSurface(c, scene, ray, tHitIn).rgba.a) ==>
              && Trace(c, scene, ray, tHitIn) == TraceSurface(c, scene, ray, tHitIn).(hit := true)
              && forall vol :: Trace(c, scene.(volume := vol), ray, tHitIn) == Trace(c, scene, ray, tHitIn)
    ensures !HasReachedBounceLimit(c) && !ShadowRayHasReachedOpacityLimit(c, TraceSurface(c, scene, ray, tHitIn).rgba.a) ==>
              var s := TraceSurface(c, scene, ray, tHitIn);
              var marched := if s.hit then ray.(tmax := s.tHit) else ray;
              Trace(c, scene, ray, tHitIn).hit == (s.hit || scene.volume(c, marched).Some?) &&
              Trace(c, scene, ray, tHitIn).rgba.a >= s.rgba.a
  {
    if !HasReachedBounceLimit(c) {
      var s := TraceSurface(c, scene, ray, tHitIn);
      if !ShadowRayHasReachedOpacityLimit(c, s.rgba.a) {
        var marched := if s.hit then ray.(tmax := s.tHit) else ray;
        RaymarchProperties(c, scene, marched);
        BlendAlpha(RaymarchVolumeSpec(c, scene, marched).1.a, s.rgba.a);
      }
    }
  }

  /** SlTrace: zeroes its output, then surface, shadow short cut, raymarch and compositing. */
  method SlTrace(c: TraceContext, scene: Scene, ray: Ray, tHitIn: real) returns (hit: bool, rgba: Color4, tHit: real)
    requires StepFor(c) > 0.0
    ensures TraceResult(hit, rgba, tHit) == Trace(c, scene, ray, tHitIn)
  {
    rgba := Black4;
    tHit := tHitIn;
    if HasReachedBounceLimit(c) {
      return false, rgba, tHit;
    }
    var surface := TraceSurface(c, scene, ray, tHit);
    tHit := surface.tHit;
    if ShadowRayHasReachedOpacityLimit(c, surface.rgba.a) {
      return true, surface.rgba, tHit;
    }
    var marched := ray;
    if surface.hit {
      marched := marched.(tmax := tHit);
    }
    var volumeHit, volume := RaymarchVolume(c, scene, marched);
    rgba := Over(volume, surface.rgba);
    hit := surface.hit || volumeHit;
  }

  // ---------------------------------------------------------------------------
  // Lights
  // ---------------------------------------------------------------------------

  /** Channels below this are too dark to matter. */
  const DARK: real := 0.0001

  /**
   * SlIlluminance, past its geometry: `inCone` is whether the direction to the sample lies
   * within the cone around the axis, `light` the light's colour at the point, and
   * `ps`, `ln`, `distance` the shading point, the unit direction to the sample and its
   * distance. The result is 0 with black for a sample outside the cone, for a dark
   * light and for a shadow-ray context; otherwise 1 with the light, attenuated by
   * 1 − the occluder's opacity when shadows are cast and the shadow ray hits.
   */
  method SlIlluminance(c: TraceContext, obj: ObjectInstance, scene: Scene, inCone: bool, light: Color,
                       ps: Vec3, ln: Vec3, distance: real)
    returns (ret: int, cl: Color)
    requires c.raymarchShadowStep > 0.0
    ensures ret == 1 <==> inCone && !(light.r < DARK && light.g < DARK && light.b < DARK) && c.rayClass != ShadowRay
    ensures ret == 0 || ret == 1
    ensures ret == 0 ==> cl == Black
    ensures ret == 1 && c.castShadow == 0 ==> cl == light
    ensures ret == 1 && c.castShadow != 0 ==>
              var occl := Trace(SlShadowContext(c, obj), scene, Ray(ps, ln, DARK, distance), FLT_MAX);
              cl == if occl.hit then Scale(light, 1.0 - occl.rgba.a) else light
  {
    cl := Black;
    if !inCone {
      return 0, cl;
    }
    if light.r < DARK && light.g < DARK && light.b < DARK {
      return 0, cl;
    }
    if c.rayClass == ShadowRay {
      return 0, cl;
    }
    var lightColor := light;
    if c.castShadow != 0 {
      var shadowContext := SlShadowContext(c, obj);
      var hit, occluder, tHit := SlTrace(shadowContext, scene, Ray(ps, ln, DARK, distance), FLT_MAX);
      if hit {
        lightColor := Scale(lightColor, 1.0 - occluder.a);
      }
    }
    return 1, lightColor;
  }

  /**
   * The shadow ray only ever dims a light: every channel of the attenuated colour lies
   * between 0 and the light's own, because the occluder's opacity is in [0, 1].
   */
  lemma ShadowAttenuates(c: TraceContext, obj: ObjectInstance, scene: Scene, light: Color, ps: Vec3, ln: Vec3,
                         distance: real)
    requires c.raymarchShadowStep > 0.0
    requires light.r >= 0.0 && light.g >= 0.0 && light.b >= 0.0
    ensures var occl := Trace(SlShadowContext(c, obj), scene, Ray(ps, ln, DARK, distance), FLT_MAX);
            var dimmed := Scale(light, 1.0 - occl.rgba.a);
            && 0.0 <= dimmed.r <= light.r
            && 0.0 <= dimmed.g <= light.g
            && 0.0 <= dimmed.b <= light.b
  {
    var occl := Trace(SlShadowContext(c, obj), scene, Ray(ps, ln, DARK, distance), FLT_MAX);
    TraceProperties(SlShadowContext(c, obj), scene, Ray(ps, ln, DARK, distance), FLT_MAX);
    Dim(light, 1.0 - occl.rgba.a);
  }

  /** Scaling a non-negative colour by a factor in [0, 1] dims every channel. */
  lemma Dim(light: Color, k: real)
    requires light.r >= 0.0 && light.g >= 0.0 && light.b >= 0.0 && 0.0 <= k <= 1.0
    ensures 0.0 <= Scale(light, k).r <= light.r
    ensures 0.0 <= Scale(light, k).g <= light.g
    ensures 0.0 <= Scale(light, k).b <= light.b
  {
    var dimmed := Scale(light, k);
    UnitScale(light.r, k, dimmed.r);
    UnitScale(light.g, k, dimmed.g);
    UnitScale(light.b, k, dimmed.b);
  }

  /** A product x·k with k in [0, 1] lies between 0 and x. */
  lemma UnitScale(x: real, k: real, p: real)
    requires 0.0 <= x && 0.0 <= k <= 1.0 && p == x * k
    ensures 0.0 <= p <= x
  {
    MulNonneg(x, k);
    MulNonneg(x, 1.0 - k);
  }

  /** A sample on a light. */
  datatype LightSample = LightSample(p: Vec3, light: int)

  /** A light, seen through GetSampleCount and GetSamples: the samples it hands out. */
  datatype Light = Light(samples: seq<LightSample>)

  /** The total number of samples over a light list. */
  function SampleTotal(lights: seq<Light>): nat
    decreases |lights|
  {
    if lights == [] then 0 else SampleTotal(lights[..|lights| - 1]) + |lights[|lights| - 1].samples|
  }

  /** Every light's samples, the lights in order. */
  function AllSamples(lights: seq<Light>): (all: seq<LightSample>)
    ensures |all| == SampleTotal(lights)
    decreases |lights|
  {
    if lights == [] then [] else AllSamples(lights[..|lights| - 1]) + lights[|lights| - 1].samples
  }

  /** A prefix of the light list has no more samples than the whole list. */
  lemma {:induction false} TotalGrows(lights: seq<Light>, i: nat)
    requires i <= |lights|
    ensures SampleTotal(lights[..i]) <= SampleTotal(lights)
    decreases |lights| - i
  {
    if i < |lights| {
      TotalGrows(lights, i + 1);
      assert lights[..i + 1][..i] == lights[..i];
    } else {
      assert lights[..i] == lights;
    }
  }

  /** SlGetLightSampleCount: 0 without a light list, else the sum of the lights' sample counts. */
  method SlGetLightSampleCount(lights: Option<seq<Light>>) returns (nsamples: int)
    ensures nsamples == if lights.None? then 0 else |AllSamples(lights.value)|
  {
    if lights.None? {
      return 0;
    }
    var ls := lights.value;
    nsamples := 0;
    var i := 0;
    while i < |ls|
      invariant 0 <= i <= |ls|
      invariant nsamples == SampleTotal(ls[..i])
    {
      assert ls[..i + 1][..i] == ls[..i];
      nsamples := nsamples + |ls[i].samples|;
      i := i + 1;
    }
    assert ls[..|ls|] == ls;
  }

  /** A light's GetSamples: writes its samples into the array from position at on. */
  method GetSamples(samples: array<LightSample>, at: nat, light: Light)
    requires at + |light.samples| <= samples.Length
    modifies samples
    ensures samples[..at + |light.samples|] == old(samples[..at]) + light.samples
    ensures samples[at + |light.samples|..] == old(samples[at + |light.samples|..])
  {
    var j := 0;
    while j < |light.samples|
      invariant 0 <= j <= |light.samples|
      invariant samples[..at + j] == old(samples[..at]) + light.samples[..j]
      invariant samples[at + j..] == old(samples[at + j..])
    {
      samples[at + j] := light.samples[j];
      assert light.samples[..j + 1] == light.samples[..j] + [light.samples[j]];
      j := j + 1;
    }
    assert light.samples[..j] == light.samples;
  }

  /**
   * SlNewLightSamples: no array when there are no samples, else a new array holding
   * every light's samples one light after another.
   */
  method SlNewLightSamples(lights: Option<seq<Light>>) returns (samples: array?<LightSample>)
    ensures samples == null <==> lights.None? || |AllSamples(lights.value)| == 0
    ensures samples != null ==> fresh(samples) && samples[..] == AllSamples(lights.value)
  {
    var nsamples := SlGetLightSampleCount(lights);
    if nsamples == 0 {
      return null;
    }
    var ls := lights.value;
    samples := new LightSample[nsamples];
    var sample := 0;
    var i := 0;
    while i < |ls|
      invariant 0 <= i <= |ls|
      invariant samples.Length == SampleTotal(ls)
      invariant sample == |AllSamples(ls[..i])| <= samples.Length
      invariant samples[..sample] == AllSamples(ls[..i])
    {
      assert ls[..i + 1][..i] == ls[..i];
      TotalGrows(ls, i + 1);
      var nsmp := |ls[i].samples|;
      GetSamples(samples, sample, ls[i]);
      sample := sample + nsmp;
      i := i + 1;
    }
    assert ls[..|ls|] == ls;
  }
}

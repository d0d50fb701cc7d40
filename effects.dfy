/** The self-aging visual effects (`VisualEffect`, `HitEffect`, `DamageNumberEffect`) and the
    arithmetic their `Draw` methods do before calling into the graphics library. Time is counted
    in updates: every `Update` adds 0.05 s, and in single precision 9 such steps stay below 0.5 s
    and 19 below 1.0 s while 10 and 20 reach them. */
module Effects {
  import opened Text
  import opened Numeric

  datatype Point = Point(x: int, y: int)

  type Channel = x: int | 0 <= x <= 255

  /** `Color.FromArgb(a, r, g, b)`; the library throws on a channel outside 0..255, so every
      value of this type is one the library accepts. */
  datatype Color = Argb(a: Channel, r: Channel, g: Channel, b: Channel)

  /** `(int)x` for a float `x`: truncation toward zero. */
  function Truncate(x: real): (r: int)
    ensures 0.0 <= x ==> r as real <= x < r as real + 1.0
    ensures x < 0.0 ==> r as real - 1.0 < x <= r as real
  {
    if x >= 0.0 then x.Floor else -((-x).Floor)
  }

  /** `Math.Min(1.0f, currentTime / lifetime)` with both times counted in updates. */
  function Progress(elapsed: nat, lifetime: nat): (p: real)
    requires lifetime > 0
    ensures 0.0 <= p <= 1.0
    ensures p == 1.0 <==> elapsed >= lifetime
    ensures elapsed < lifetime ==> p * lifetime as real == elapsed as real
  {
    if elapsed >= lifetime then 1.0 else elapsed as real / lifetime as real
  }

  /** Progress never decreases as time passes. */
  lemma ProgressMonotone(e1: nat, e2: nat, lifetime: nat)
    requires lifetime > 0 && e1 <= e2
    ensures Progress(e1, lifetime) <= Progress(e2, lifetime)
  {
    if e2 < lifetime {
      assert e1 as real / lifetime as real <= e2 as real / lifetime as real;
    }
  }

  /** One channel of `InterpolateColor`: `(int)(start + (end - start) * progress)`. */
  function Lerp(start: Channel, end: Channel, p: real): (r: Channel)
    requires 0.0 <= p <= 1.0
    ensures Min(start, end) <= r <= Max(start, end)
    ensures p == 0.0 ==> r == start
    ensures p == 1.0 ==> r == end
  {
    var x := start as real + (end - start) as real * p;
    assert Min(start, end) as real <= x <= Max(start, end) as real by {
      LerpBetween(start, end, p);
    }
    Truncate(x)
  }

  lemma LerpBetween(start: int, end: int, p: real)
    requires 0.0 <= p <= 1.0
    ensures var x := start as real + (end - start) as real * p;
      Min(start, end) as real <= x <= Max(start, end) as real
  {
    if start <= end {
      assert 0.0 <= (end - start) as real * p <= (end - start) as real;
    } else {
      assert (end - start) as real <= (end - start) as real * p <= 0.0;
    }
  }

  /** `InterpolateColor(start, end, progress)`: channel-wise linear blend, the start colour at
      progress 0 and the end colour at progress 1. */
  function InterpolateColor(start: Color, end: Color, p: real): (c: Color)
    requires 0.0 <= p <= 1.0
    ensures p == 0.0 ==> c == start
    ensures p == 1.0 ==> c == end
    ensures Min(start.a, end.a) <= c.a <= Max(start.a, end.a)
  {
    Argb(Lerp(start.a, end.a, p), Lerp(start.r, end.r, p), Lerp(start.g, end.g, p), Lerp(start.b, end.b, p))
  }

  // HitEffect constants
  const HitLifetime: nat := 10        // 0.5 s
  const InitialSize: real := 5.0
  const MaxSize: real := 40.0         // declared by the source, never applied
  const ExpandSpeed: real := 2.5
  const HitStartColor := Argb(255, 255, 220, 100)
  const HitEndColor := Argb(0, 255, 100, 0)
  // DamageNumberEffect constants
  const NumberLifetime: nat := 20     // 1.0 s
  const RiseSpeed: real := 3.0
  const CriticalColor := Argb(255, 255, 50, 50)
  const NormalColor := Argb(255, 255, 255, 200)

  /** The hit starburst's colour at a given progress. */
  function HitColor(p: real): (c: Color)
    requires 0.0 <= p <= 1.0
    ensures p == 0.0 ==> c == HitStartColor
    ensures p == 1.0 ==> c == HitEndColor
  {
    InterpolateColor(HitStartColor, HitEndColor, p)
  }

  /** `0.3f`: the single-precision value nearest to 0.3, a little above it. */
  const GlowFactor: real := 0.300000011920928955078125

  /** `(int)(alpha * 0.3f)` of the starburst's outer glow. The constant's excess over 0.3 is
      too small to carry the product of a channel value past the next integer, so the glow
      alpha is three tenths of the alpha, rounded down; it never exceeds the fill's alpha. */
  function GlowAlpha(alpha: Channel): (r: Channel)
    ensures r == Truncate(alpha as real * GlowFactor)
    ensures r <= HalfAlpha(alpha)
  {
    var r := alpha * 3 / 10;
    assert r as real <= alpha as real * GlowFactor < r as real + 1.0 by {
      assert 10 * r <= 3 * alpha <= 10 * r + 9;
      assert alpha as real * GlowFactor == alpha as real * 0.3 + alpha as real * (GlowFactor - 0.3);
      assert 0.0 <= alpha as real * (GlowFactor - 0.3) <= 255.0 * (GlowFactor - 0.3);
    }
    r
  }

  /** `(int)(alpha * 0.5f)`, the alpha of the starburst's fill and of the damage number's glow;
      `0.5f` is exact, so this is half the alpha rounded down, never above the alpha itself. */
  function HalfAlpha(alpha: Channel): (r: Channel)
    ensures r == Truncate(alpha as real * 0.5)
    ensures r <= alpha
  {
    alpha / 2
  }

  /** Both reduced alphas grow with the alpha they are taken from and vanish with it. */
  lemma ReducedAlphasMonotone(a: Channel, b: Channel)
    requires a <= b
    ensures GlowAlpha(a) <= GlowAlpha(b) && HalfAlpha(a) <= HalfAlpha(b)
    ensures GlowAlpha(0) == 0 && HalfAlpha(0) == 0
  {
  }

  /** The pen colour of the starburst's outer glow: the burst colour at 30% of its alpha. */
  function GlowColor(c: Color): (g: Color)
    ensures g.r == c.r && g.g == c.g && g.b == c.b
    ensures g.a <= c.a && (g.a == 0 <==> c.a < 4)
  {
    Argb(GlowAlpha(c.a), c.r, c.g, c.b)
  }

  /** The brush colour of the starburst's fill: the burst colour at half its alpha. */
  function FillColor(c: Color): (f: Color)
    ensures f.r == c.r && f.g == c.g && f.b == c.b
    ensures f.a <= c.a && (f.a == 0 <==> c.a < 2)
  {
    Argb(HalfAlpha(c.a), c.r, c.g, c.b)
  }

  /** The starburst's alpha never increases as progress grows. */
  lemma HitColorFades(p: real, q: real)
    requires 0.0 <= p <= q <= 1.0
    ensures HitColor(q).a <= HitColor(p).a
  {
    var a := HitStartColor.a as real;
    ScaleBelow(a, 1.0 - q, 1.0 - p);
    assert a * (1.0 - q) <= a * (1.0 - p);
    assert HitStartColor.a as real + (HitEndColor.a - HitStartColor.a) as real * q == a * (1.0 - q);
    assert HitStartColor.a as real + (HitEndColor.a - HitStartColor.a) as real * p == a * (1.0 - p);
    TruncateMonotone(a * (1.0 - q), a * (1.0 - p));
  }

  /** The starburst's three layers: the glow is fainter than the fill, which is fainter than
      the burst; all three fade as progress grows, start at alphas 76, 127 and 255, and are
      transparent once the effect is complete. */
  lemma StarburstLayers(p: real, q: real)
    requires 0.0 <= p <= q <= 1.0
    ensures GlowColor(HitColor(p)).a <= FillColor(HitColor(p)).a <= HitColor(p).a
    ensures GlowColor(HitColor(q)).a <= GlowColor(HitColor(p)).a
    ensures FillColor(HitColor(q)).a <= FillColor(HitColor(p)).a
    ensures p == 0.0 ==> GlowColor(HitColor(p)).a == 76 && FillColor(HitColor(p)).a == 127
    ensures q == 1.0 ==> HitColor(q).a == 0 && GlowColor(HitColor(q)).a == 0 && FillColor(HitColor(q)).a == 0
  {
    HitColorFades(p, q);
    ReducedAlphasMonotone(HitColor(q).a, HitColor(p).a);
  }

  /** The damage number's alpha, `(int)(A * (1.0f - progress))`. */
  function FadedAlpha(alpha: Channel, p: real): (r: Channel)
    requires 0.0 <= p <= 1.0
    ensures r <= alpha
    ensures p == 0.0 ==> r == alpha
    ensures p == 1.0 ==> r == 0
  {
    var x := alpha as real * (1.0 - p);
    assert 0.0 <= x <= alpha as real by {
      ScaleBelow(alpha as real, 1.0 - p, 1.0);
    }
    Truncate(x)
  }

  /** The damage number fades: its alpha never increases as progress grows. */
  lemma FadedAlphaMonotone(alpha: Channel, p: real, q: real)
    requires 0.0 <= p <= q <= 1.0
    ensures FadedAlpha(alpha, q) <= FadedAlpha(alpha, p)
  {
    var a := alpha as real;
    ScaleBelow(a, 1.0 - q, 1.0 - p);
    var x, y := a * (1.0 - q), a * (1.0 - p);
    TruncateMonotone(x, y);
  }

  lemma TruncateMonotone(x: real, y: real)
    requires 0.0 <= x <= y
    ensures Truncate(x) <= Truncate(y)
  {
  }

  lemma ScaleBelow(a: real, x: real, y: real)
    requires 0.0 <= a && 0.0 <= x <= y
    ensures 0.0 <= a * x <= a * y
  {
    assert a * y - a * x == a * (y - x);
  }

  /** The damage number's colour: the critical or normal base colour with the faded alpha. */
  function NumberColor(isCritical: bool, p: real): (c: Color)
    requires 0.0 <= p <= 1.0
    ensures var base := if isCritical then CriticalColor else NormalColor;
      && c.r == base.r && c.g == base.g && c.b == base.b && c.a <= base.a
      && (p == 0.0 ==> c == base)
      && (p == 1.0 ==> c.a == 0)
  {
    var base := if isCritical then CriticalColor else NormalColor;
    Argb(FadedAlpha(base.a, p), base.r, base.g, base.b)
  }

  /** The damage number's font scale: 1.5 for a critical hit, 1.0 otherwise, ramped up from 0
      during the first fifth of its life. */
  function NumberScale(isCritical: bool, p: real): (s: real)
    requires 0.0 <= p <= 1.0
    ensures var full := if isCritical then 1.5 else 1.0;
      && 0.0 <= s <= full
      && (p >= 0.2 ==> s == full)
      && (p < 0.2 ==> s * 0.2 == full * p)
  {
    var scale := if isCritical then 1.5 else 1.0;
    if p < 0.2 then scale * (p * 5.0) else scale
  }

  /** The pop-in never shrinks the number as progress grows. */
  lemma NumberScaleMonotone(isCritical: bool, p: real, q: real)
    requires 0.0 <= p <= q <= 1.0
    ensures NumberScale(isCritical, p) <= NumberScale(isCritical, q)
  {
  }

  /** The damage number's text: the decimal value, with a trailing "!" for a critical hit. */
  function NumberText(damage: int, isCritical: bool): (t: string)
    ensures |t| == |IntToString(damage)| + (if isCritical then 1 else 0)
    ensures t[..|IntToString(damage)|] == IntToString(damage)
    ensures t[|t| - 1] == '!' <==> isCritical
  {
    var text := IntToString(damage);
    if isCritical then text + "!" else text
  }

  /** Which subclass an effect is, with the payload fixed at construction. */
  datatype EffectKind = HitKind | DamageNumberKind(damage: int, isCritical: bool)

  function LifetimeOf(kind: EffectKind): (n: nat)
    ensures n > 0
  {
    if kind.HitKind? then HitLifetime else NumberLifetime
  }

  /** An effect, created at a fixed point and aged by `Update` once per animation tick.
      `size` belongs to a hit effect and `yOffset` to a damage number; each stays 0 in the other. */
  class VisualEffect {
    const kind: EffectKind
    const position: Point
    const lifetime: nat
    var currentTime: nat
    var isComplete: bool
    var size: real
    var yOffset: real

    ghost predicate Valid()
      reads this
    {
      && lifetime == LifetimeOf(kind)
      && isComplete == (currentTime >= lifetime)
      && size == (if kind.HitKind? then InitialSize + ExpandSpeed * currentTime as real else 0.0)
      && yOffset == (if kind.HitKind? then 0.0 else -RiseSpeed * currentTime as real)
    }

    /** `new HitEffect(position)`: lifetime 0.5 s, starting size 5. */
    constructor HitEffect(position0: Point)
      ensures Valid() && kind == HitKind && position == position0
      ensures currentTime == 0 && !isComplete && size == InitialSize
    {
      kind := HitKind;
      position := position0;
      lifetime := HitLifetime;
      currentTime := 0;
      isComplete := false;
      size := InitialSize;
      yOffset := 0.0;
    }

    /** `new DamageNumberEffect(position, damage, isCritical)`: lifetime 1.0 s. */
    constructor DamageNumberEffect(position0: Point, damage: int, isCritical: bool)
      ensures Valid() && kind == DamageNumberKind(damage, isCritical) && position == position0
      ensures currentTime == 0 && !isComplete && yOffset == 0.0
    {
      kind := DamageNumberKind(damage, isCritical);
      position := position0;
      lifetime := NumberLifetime;
      currentTime := 0;
      isComplete := false;
      size := 0.0;
      yOffset := 0.0;
    }

    /** `Update()`: one step older; a hit grows by 2.5 (never capped), a damage number rises by
        3; completion is recomputed, so once complete it stays complete. */
    method Update()
      requires Valid()
      modifies this
      ensures Valid()
      ensures currentTime == old(currentTime) + 1
      ensures isComplete <==> currentTime >= LifetimeOf(kind)
      ensures old(isComplete) ==> isComplete
      ensures kind.HitKind? ==> size == old(size) + ExpandSpeed && yOffset == old(yOffset)
      ensures kind.DamageNumberKind? ==> yOffset == old(yOffset) - RiseSpeed && size == old(size)
    {
      if kind.HitKind? {
        size := size + ExpandSpeed;
      } else {
        yOffset := yOffset - RiseSpeed;
      }
      currentTime := currentTime + 1;
      isComplete := currentTime >= lifetime;
    }

    /** The `progress` both `Draw` methods start from; it reaches 1 exactly on completion. */
    function DrawProgress(): (p: real)
      reads this
      requires Valid()
      ensures 0.0 <= p <= 1.0
      ensures p == 1.0 <==> isComplete
    {
      Progress(currentTime, lifetime)
    }
  }

  /** A fresh effect of kind `kind` at `at` after `n` calls of `Update`: a hit effect reports
      completion from its 10th update on and a damage number from its 20th, exactly when its
      drawing progress has reached 1. */
  method AgedEffect(kind: EffectKind, at: Point, n: nat) returns (e: VisualEffect)
    ensures fresh(e) && e.Valid() && e.kind == kind && e.position == at && e.currentTime == n
    ensures e.isComplete <==> n >= (if kind.HitKind? then 10 else 20)
    ensures e.isComplete <==> e.DrawProgress() == 1.0
  {
    if kind.HitKind? {
      e := new VisualEffect.HitEffect(at);
    } else {
      e := new VisualEffect.DamageNumberEffect(at, kind.damage, kind.isCritical);
    }
    for i := 0 to n
      invariant fresh(e) && e.Valid() && e.kind == kind && e.position == at && e.currentTime == i
    {
      e.Update();
    }
  }
}

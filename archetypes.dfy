/** The three archetype strategies: each turns the random draws of one `Attack()` call and the
    archetype's private state into a damage value and the next private state. */
module Archetypes {

  datatype Archetype = Adventurer | Crusader | Sorcerer

  /** The archetype-private mutable state of a fighter. */
  datatype Style =
    | CrusaderStyle(consecutiveHits: int)
    | AdventurerStyle(lastDamage: int)
    | SorcererStyle
  {
    function Kind(): Archetype {
      match this
      case CrusaderStyle(_) => Crusader
      case AdventurerStyle(_) => Adventurer
      case SorcererStyle => Sorcerer
    }
  }

  // Crusader constants
  const CrusaderMaxHealth := 100
  const HitsForEmpower := 3
  // Adventurer constants
  const AdventurerMaxHealth := 110
  const QuickStrikeMin := 10
  const QuickStrikeMax := 15
  const PowerStrikeMin := 18
  const PowerStrikeMax := 30
  const DamageThreshold := 20
  // Sorcerer constants
  const SorcererMaxHealth := 120

  /** The smallest and largest damage any archetype deals in one attack. */
  const MinDamage := 10
  const MaxDamage := 43

  /** The maximum health each archetype's constructor passes to the fighter base. */
  function BaseMaxHealth(a: Archetype): (h: int)
    ensures 0 < h <= SorcererMaxHealth
  {
    match a
    case Crusader => CrusaderMaxHealth
    case Adventurer => AdventurerMaxHealth
    case Sorcerer => SorcererMaxHealth
  }

  /** The private state a freshly constructed fighter of archetype `a` starts with. */
  function InitialStyle(a: Archetype): (s: Style)
    ensures s.Kind() == a && StyleOk(s)
  {
    match a
    case Crusader => CrusaderStyle(0)
    case Adventurer => AdventurerStyle(0)
    case Sorcerer => SorcererStyle
  }

  /** What every reachable private state satisfies: the Crusader's counter stays in 0..2 between
      calls, the Adventurer remembers either nothing yet or one of its own results. */
  predicate StyleOk(s: Style) {
    match s
    case CrusaderStyle(hits) => 0 <= hits < HitsForEmpower
    case AdventurerStyle(last) => last == 0 || QuickStrikeMin <= last <= PowerStrikeMax
    case SorcererStyle => true
  }

  /** The half-open range `[lo, hi)` of `Random.Next(lo, hi)`. */
  datatype Span = Span(lo: int, hi: int)

  predicate InSpan(x: int, s: Span) {
    s.lo <= x < s.hi
  }

  /** The range of the integer draw the next `Attack()` makes. */
  function DrawSpan(s: Style): (r: Span)
    ensures r.lo < r.hi
    ensures s.AdventurerStyle? && s.lastDamage > DamageThreshold ==> r == Span(QuickStrikeMin, QuickStrikeMax + 1)
    ensures s.AdventurerStyle? && s.lastDamage <= DamageThreshold ==> r == Span(PowerStrikeMin, PowerStrikeMax + 1)
  {
    match s
    case CrusaderStyle(_) => Span(15, 25)
    case AdventurerStyle(last) =>
      var lo := if last > DamageThreshold then QuickStrikeMin else PowerStrikeMin;
      var hi := if last > DamageThreshold then QuickStrikeMax else PowerStrikeMax;
      Span(lo, hi + 1)
    case SorcererStyle => Span(12, 25)
  }

  /** An outcome of one random draw from `s`, given as an unbounded choice `pick` that is
      reduced into the range by whole widths. */
  function Pick(s: Span, pick: nat): (x: int)
    requires s.lo < s.hi
    ensures InSpan(x, s)
    ensures x - s.lo <= pick
    decreases pick
  {
    if pick < s.hi - s.lo then s.lo + pick else Pick(s, pick - (s.hi - s.lo))
  }

  /** Every value in the range is the outcome of some choice, so `Pick` loses no behaviour. */
  lemma PickReaches(s: Span, x: int) returns (pick: nat)
    requires InSpan(x, s)
    ensures s.lo < s.hi && Pick(s, pick) == x
  {
    pick := x - s.lo;
  }

  /** `(int)(base * 1.8f)`: truncation of the float product, which for `base` in 15..24 is the
      integer part of the exact product. */
  function Empowered(base: int): (r: int)
    requires 15 <= base < 25
    ensures 5 * r <= 9 * base < 5 * r + 5
    ensures 27 <= r <= MaxDamage
  {
    base * 9 / 5
  }

  /** `(int)(base * 1.5f)`; the product is exact in single precision. */
  function CriticalDamage(base: int): (r: int)
    requires 12 <= base < 25
    ensures 2 * r <= 3 * base < 2 * r + 2
    ensures 18 <= r <= 36
  {
    base * 3 / 2
  }

  datatype AttackResult = AttackResult(damage: int, style: Style)

  /** One Crusader `Attack()` with counter `hits` before the call and integer draw `base`. */
  function CrusaderAttack(hits: int, base: int): (r: AttackResult)
    requires 0 <= hits < HitsForEmpower && InSpan(base, Span(15, 25))
    ensures r.style.CrusaderStyle? && r.style.consecutiveHits == (hits + 1) % HitsForEmpower
    ensures hits == HitsForEmpower - 1 ==> r.damage == Empowered(base)
    ensures hits < HitsForEmpower - 1 ==> r.damage == base
    ensures 15 <= r.damage <= MaxDamage
  {
    var h := hits + 1;
    if h >= HitsForEmpower then AttackResult(Empowered(base), CrusaderStyle(0))
    else AttackResult(base, CrusaderStyle(h))
  }

  /** One Adventurer `Attack()`: the draw, taken from the range its last result selects, is both
      the damage and the new `lastDamage`. */
  function AdventurerAttack(last: int, draw: int): (r: AttackResult)
    requires InSpan(draw, DrawSpan(AdventurerStyle(last)))
    ensures r.damage == draw && r.style == AdventurerStyle(r.damage)
    ensures last > DamageThreshold ==> QuickStrikeMin <= r.damage <= QuickStrikeMax
    ensures last <= DamageThreshold ==> PowerStrikeMin <= r.damage <= PowerStrikeMax
  {
    AttackResult(draw, AdventurerStyle(draw))
  }

  /** One Sorcerer `Attack()`: `isCritical` stands for `NextDouble() < 0.20`. */
  function SorcererAttack(base: int, isCritical: bool): (r: int)
    requires InSpan(base, Span(12, 25))
    ensures isCritical ==> 2 * r <= 3 * base < 2 * r + 2 && 18 <= r <= 36
    ensures !isCritical ==> r == base
    ensures 12 <= r <= 36
  {
    if isCritical then CriticalDamage(base) else base
  }

  /** The `Attack()` override selected by the archetype. `critRoll` is consumed only by the
      Sorcerer, the one archetype that draws a probability. */
  function AttackStep(s: Style, draw: int, critRoll: bool): (r: AttackResult)
    requires StyleOk(s) && InSpan(draw, DrawSpan(s))
    ensures StyleOk(r.style) && r.style.Kind() == s.Kind()
    ensures MinDamage <= r.damage <= MaxDamage
    ensures s.SorcererStyle? ==> r.style == s
  {
    match s
    case CrusaderStyle(hits) => CrusaderAttack(hits, draw)
    case AdventurerStyle(last) => AdventurerAttack(last, draw)
    case SorcererStyle => AttackResult(SorcererAttack(draw, critRoll), s)
  }

  // ---------- Sequences of calls ----------

  /** The damage of consecutive Crusader attacks from counter `hits`, one per base draw. */
  function CrusaderRun(hits: int, bases: seq<int>): (ds: seq<int>)
    requires 0 <= hits < HitsForEmpower
    requires forall k :: 0 <= k < |bases| ==> InSpan(bases[k], Span(15, 25))
    ensures |ds| == |bases|
    decreases |bases|
  {
    if bases == [] then []
    else
      var r := CrusaderAttack(hits, bases[0]);
      [r.damage] + CrusaderRun(r.style.consecutiveHits, bases[1..])
  }

  /** From a fresh Crusader, calls 3, 6, 9, ... are empowered and all others return their base
      draw unchanged (stated for any starting counter: call `k` is empowered when
      `hits + k + 1` is a multiple of three). */
  lemma {:induction false} CrusaderEveryThird(hits: int, bases: seq<int>, k: nat)
    requires 0 <= hits < HitsForEmpower
    requires forall j :: 0 <= j < |bases| ==> InSpan(bases[j], Span(15, 25))
    requires k < |bases|
    ensures CrusaderRun(hits, bases)[k] ==
      if (hits + k + 1) % HitsForEmpower == 0 then Empowered(bases[k]) else bases[k]
    decreases k
  {
    if k > 0 {
      var r := CrusaderAttack(hits, bases[0]);
      CrusaderEveryThird(r.style.consecutiveHits, bases[1..], k - 1);
      assert CrusaderRun(hits, bases)[k] == CrusaderRun(r.style.consecutiveHits, bases[1..])[k - 1];
    }
  }

  /** The draws of consecutive Adventurer attacks are legal: each lies in the range that the
      previous result (initially `last`) selects. */
  predicate AdventurerDrawsLegal(last: int, draws: seq<int>)
    decreases |draws|
  {
    draws == [] ||
    (InSpan(draws[0], DrawSpan(AdventurerStyle(last))) && AdventurerDrawsLegal(draws[0], draws[1..]))
  }

  /** Along any legal run: a quick strike (at most 15) is followed by a power strike, a hit above
      the threshold by a quick strike, and every result lies in [10, 30]. */
  lemma {:induction false} AdventurerAlternates(last: int, draws: seq<int>, k: nat)
    requires AdventurerDrawsLegal(last, draws)
    requires k < |draws|
    ensures QuickStrikeMin <= draws[k] <= PowerStrikeMax
    ensures k + 1 < |draws| && draws[k] <= QuickStrikeMax ==> PowerStrikeMin <= draws[k + 1]
    ensures k + 1 < |draws| && draws[k] > DamageThreshold ==> draws[k + 1] <= QuickStrikeMax
    decreases k
  {
    if k > 0 {
      AdventurerAlternates(draws[0], draws[1..], k - 1);
    } else if 1 < |draws| {
      assert AdventurerDrawsLegal(draws[0], draws[1..]);
    }
  }

  /** The first attack of a fresh Adventurer (`lastDamage == 0`) is a power strike. */
  lemma FirstAdventurerAttackIsPower(draw: int)
    requires AdventurerDrawsLegal(0, [draw])
    ensures PowerStrikeMin <= AdventurerAttack(0, draw).damage <= PowerStrikeMax
  {
  }
}

/** The fighter entity (`ClassFighter` with its three archetype subclasses) and the selector that
    builds one from a character-type string. */
module Fighters {
  import opened Wrappers
  import opened Numeric
  import opened Text
  import opened Archetypes

  /** The `ArgumentException`s and the unknown-champion `Exception` of fighter construction and use. */
  datatype FighterError =
    | BlankName
    | NonPositiveMaxHealth
    | NegativeDamage
    | NegativeHeal
    | UnknownChampion(selector: string)

  /** The two checks the base constructor makes before touching any field, in their order. */
  function CheckFighterArgs(name: string, maxHealth: int): (r: Outcome<FighterError>)
    ensures r.Pass? <==> !IsBlank(name) && maxHealth > 0
    ensures IsBlank(name) ==> r == Fail(BlankName)
    ensures !IsBlank(name) && maxHealth <= 0 ==> r == Fail(NonPositiveMaxHealth)
  {
    if IsBlank(name) then Fail(BlankName)
    else if maxHealth <= 0 then Fail(NonPositiveMaxHealth)
    else Pass
  }

  /** `Health = Math.Max(0, Health - damage)` through the clamping setter; no overflow is possible
      since both operands are non-negative. */
  function DamagedHealth(health: int, maxHealth: int, damage: int): (r: int)
    requires 0 <= health <= maxHealth && 0 <= damage
    ensures 0 <= r <= health
    ensures r == 0 <==> damage >= health
    ensures damage < health ==> r == health - damage
  {
    Clamp(Max(0, health - damage), 0, maxHealth)
  }

  /** `Health = Math.Min(MaxHealth, Health + amount)` through the clamping setter, with the sum
      computed in wrapping 32-bit arithmetic. */
  function HealedHealth(health: int, maxHealth: int, amount: int): (r: int)
    requires 0 <= health <= maxHealth && IsInt32(maxHealth) && 0 <= amount && IsInt32(amount)
    ensures 0 <= r <= maxHealth
    ensures health + amount <= IntMax ==> r == Min(maxHealth, health + amount) && health <= r
    ensures health + amount > IntMax ==> r == 0
  {
    Clamp(Min(maxHealth, Wrap32(health + amount)), 0, maxHealth)
  }

  /** A heal big enough to overflow the 32-bit sum knocks a living fighter out. */
  lemma HealOverflowKnocksOut()
    ensures HealedHealth(1, 100, IntMax) == 0
  {
  }

  /** The value of a fighter's fields. */
  datatype Combatant = Combatant(name: string, maxHealth: int, health: int, style: Style)

  /** What the fighter invariant guarantees about the values a battle works on. */
  predicate Ready(c: Combatant) {
    0 <= c.health <= c.maxHealth && StyleOk(c.style)
  }

  class Fighter {
    var name: string
    var maxHealth: int
    var health: int
    /** The subclass the object was built as. */
    const archetype: Archetype
    /** The subclass's private fields (`consecutiveHits` or `lastDamage`). */
    var style: Style

    /** The invariant that the validating and clamping setters keep. */
    ghost predicate Valid()
      reads this
    {
      && IsTrimmedName(name)
      && 0 < maxHealth && IsInt32(maxHealth)
      && 0 <= health <= maxHealth
      && style.Kind() == archetype && StyleOk(style)
    }

    function Snapshot(): (c: Combatant)
      reads this
      ensures c.name == name && c.maxHealth == maxHealth && c.health == health && c.style == style
      ensures Valid() ==> Ready(c)
    {
      Combatant(name, maxHealth, health, style)
    }

    /** The base constructor once its two checks have passed: `Name = name.Trim()` (which the
        setter trims again), `MaxHealth = maxHealth`, `Health = maxHealth`. */
    constructor (name0: string, maxHealth0: int, archetype0: Archetype)
      requires CheckFighterArgs(name0, maxHealth0).Pass? && IsInt32(maxHealth0)
      ensures Valid()
      ensures name == Trim(name0) && maxHealth == maxHealth0 && health == maxHealth0
      ensures archetype == archetype0 && style == InitialStyle(archetype0)
    {
      TrimmedNameOf(name0);
      TrimIdempotent(name0);
      name := Trim(Trim(name0));
      maxHealth := maxHealth0;
      health := Clamp(maxHealth0, 0, maxHealth0);
      archetype := archetype0;
      style := InitialStyle(archetype0);
    }

    /** `new ClassFighter(name, maxHealth)`: throws, producing no fighter, on a blank name or a
        non-positive maximum health. */
    static method Create(name0: string, maxHealth0: int, archetype0: Archetype)
      returns (r: Result<Fighter, FighterError>)
      requires IsInt32(maxHealth0)
      ensures r.Failure? <==> CheckFighterArgs(name0, maxHealth0).Fail?
      ensures r.Failure? ==> Fail(r.error) == CheckFighterArgs(name0, maxHealth0)
      ensures r.Success? ==> fresh(r.value) && r.value.Valid()
      ensures r.Success? ==> r.value.name == Trim(name0) && r.value.maxHealth == maxHealth0
      ensures r.Success? ==> r.value.health == r.value.maxHealth
      ensures r.Success? ==> r.value.archetype == archetype0 && r.value.style == InitialStyle(archetype0)
    {
      var check := CheckFighterArgs(name0, maxHealth0);
      if check.Fail? {
        return Failure(check.error);
      }
      var f := new Fighter(name0, maxHealth0, archetype0);
      return Success(f);
    }

    /** The public `Name` setter: rejects a blank value, otherwise stores it trimmed. */
    method SetName(value: string) returns (r: Outcome<FighterError>)
      requires Valid()
      modifies this`name
      ensures Valid()
      ensures IsBlank(value) ==> r == Fail(BlankName) && name == old(name)
      ensures !IsBlank(value) ==> r == Pass && name == Trim(value)
    {
      if IsBlank(value) {
        return Fail(BlankName);
      }
      TrimmedNameOf(value);
      name := Trim(value);
      return Pass;
    }

    /** `TakeDamage(damage)`: a negative amount is rejected and changes nothing; otherwise health
        drops by `damage`, stopping at 0. */
    method TakeDamage(damage: int) returns (r: Outcome<FighterError>)
      requires Valid() && IsInt32(damage)
      modifies this`health
      ensures Valid()
      ensures damage < 0 ==> r == Fail(NegativeDamage) && health == old(health)
      ensures damage >= 0 ==> r == Pass && health == DamagedHealth(old(health), maxHealth, damage)
      ensures health <= old(health)
    {
      if damage < 0 {
        return Fail(NegativeDamage);
      }
      health := Clamp(Max(0, health - damage), 0, maxHealth);
      return Pass;
    }

    /** `Heal(amount)`: a negative amount is rejected and changes nothing; otherwise health rises
        by `amount`, stopping at the maximum (unless the 32-bit sum wraps). */
    method Heal(amount: int) returns (r: Outcome<FighterError>)
      requires Valid() && IsInt32(amount)
      modifies this`health
      ensures Valid()
      ensures amount < 0 ==> r == Fail(NegativeHeal) && health == old(health)
      ensures amount >= 0 ==> r == Pass && health == HealedHealth(old(health), maxHealth, amount)
    {
      if amount < 0 {
        return Fail(NegativeHeal);
      }
      health := Clamp(Min(maxHealth, Wrap32(health + amount)), 0, maxHealth);
      return Pass;
    }

    /** `IsAlive`; under the invariant a fighter is dead exactly at health 0. */
    function IsAlive(): (b: bool)
      reads this
      requires Valid()
      ensures b <==> health != 0
    {
      health > 0
    }

    /** The archetype's `Attack()` override, given the value its integer draw produced and, for
        the Sorcerer, whether its probability draw fell below the critical chance. */
    method Attack(draw: int, critRoll: bool) returns (damage: int)
      requires Valid() && InSpan(draw, DrawSpan(style))
      modifies this`style
      ensures Valid()
      ensures AttackResult(damage, style) == AttackStep(old(style), draw, critRoll)
      ensures MinDamage <= damage <= MaxDamage
    {
      match style
      case CrusaderStyle(hits) =>
        var h := hits + 1;
        if h >= HitsForEmpower {
          style := CrusaderStyle(0);
          damage := Empowered(draw);
        } else {
          style := CrusaderStyle(h);
          damage := draw;
        }
      case AdventurerStyle(last) =>
        style := AdventurerStyle(draw);
        damage := draw;
      case SorcererStyle =>
        damage := if critRoll then CriticalDamage(draw) else draw;
    }
  }

  /** The character-type selector strings shown in the two selection boxes. */
  function SelectorName(a: Archetype): string
  {
    match a
    case Sorcerer => "The OA Sorcerer"
    case Crusader => "Ante Maloi Crusader"
    case Adventurer => "The Tao Lang Adventurer"
  }

  /** The `switch` of `CreateCharacter`: which archetype, if any, a selector string names. */
  function ArchetypeOf(selector: string): (r: Option<Archetype>)
    ensures r.Some? ==> selector == SelectorName(r.value)
  {
    if selector == "The Tao Lang Adventurer" then Some(Adventurer)
    else if selector == "Ante Maloi Crusader" then Some(Crusader)
    else if selector == "The OA Sorcerer" then Some(Sorcerer)
    else None
  }

  /** Selecting by an archetype's own selector string gives back that archetype. */
  lemma SelectorRoundTrip(a: Archetype)
    ensures ArchetypeOf(SelectorName(a)) == Some(a)
  {
  }

  /** The selector strings are exactly the three the switch knows; any other string is
      unknown. */
  lemma UnknownSelectors(selector: string)
    ensures ArchetypeOf(selector).None? <==>
      selector !in {"The OA Sorcerer", "Ante Maloi Crusader", "The Tao Lang Adventurer"}
  {
  }

  /** The values of a fighter of archetype `a` freshly built under the name `name`, which is
      already trimmed: at full health with the archetype's initial private state. */
  function Recruit(a: Archetype, name: string): (c: Combatant)
    ensures Ready(c) && 0 < c.health == c.maxHealth <= SorcererMaxHealth
    ensures c.name == name && c.style.Kind() == a
  {
    Combatant(name, BaseMaxHealth(a), BaseMaxHealth(a), InitialStyle(a))
  }

  /** `CreateCharacter(characterType, name)`: an unknown selector throws before any fighter is
      built; a known one runs that archetype's constructor, which fails only on a blank name. */
  method CreateCharacter(selector: string, name0: string) returns (r: Result<Fighter, FighterError>)
    ensures ArchetypeOf(selector).None? ==> r == Failure(UnknownChampion(selector))
    ensures ArchetypeOf(selector).Some? && IsBlank(name0) ==> r == Failure(BlankName)
    ensures ArchetypeOf(selector).Some? && !IsBlank(name0) ==> r.Success?
    ensures r.Success? ==> fresh(r.value) && r.value.Valid()
    ensures r.Success? ==> Some(r.value.archetype) == ArchetypeOf(selector)
    ensures r.Success? ==> r.value.maxHealth == BaseMaxHealth(r.value.archetype)
    ensures r.Success? ==> r.value.name == Trim(name0) && r.value.health == r.value.maxHealth
    ensures r.Success? ==> r.value.style == InitialStyle(r.value.archetype)
  {
    var kind := ArchetypeOf(selector);
    if kind.None? {
      return Failure(UnknownChampion(selector));
    }
    r := Fighter.Create(name0, BaseMaxHealth(kind.value), kind.value);
  }
}

/** The battle resolution shared by both battle windows, as a reference on values: one strike, the
    whole fight until a fighter reaches 0 health, and the battle log it produces. */
module Duel {
  import opened Text
  import opened Archetypes
  import opened Fighters
  import Numeric

  /** The random outcomes one `Attack()` consumes: the choice behind its `Random.Next` draw and
      whether its `NextDouble()` draw (used by the Sorcerer only) fell below the critical chance. */
  datatype Roll = Roll(pick: nat, critRoll: bool)

  /** The random source of a battle: the outcomes of the `n`-th attack. */
  type RandomSource = nat -> Roll

  datatype StrikeResult = StrikeResult(attacker: Combatant, defender: Combatant, damage: int)

  /** `damage = attacker.Attack(); defender.TakeDamage(damage)`. */
  function Strike(attacker: Combatant, defender: Combatant, roll: Roll): (x: StrikeResult)
    requires Ready(attacker) && Ready(defender)
    ensures Ready(x.attacker) && Ready(x.defender)
    ensures MinDamage <= x.damage <= MaxDamage
    ensures x.attacker == attacker.(style := x.attacker.style)
    ensures x.attacker.style.Kind() == attacker.style.Kind()
    ensures x.defender == defender.(health := x.defender.health)
    ensures x.defender.health == 0 <==> x.damage >= defender.health
    ensures x.damage < defender.health ==> x.defender.health == defender.health - x.damage
  {
    var a := AttackStep(attacker.style, Pick(DrawSpan(attacker.style), roll.pick), roll.critRoll);
    StrikeResult(attacker.(style := a.style),
                 defender.(health := DamagedHealth(defender.health, defender.maxHealth, a.damage)),
                 a.damage)
  }

  /** One resolved turn as the log reports it. */
  datatype StrikeEvent = StrikeEvent(attacker: string, defender: string, damage: int)

  /** The fighters and the turn flag when the loop stops, the number of turns and their events. */
  datatype BattleRecord =
    BattleRecord(p1: Combatant, p2: Combatant, player1Turn: bool, turns: nat, strikes: seq<StrikeEvent>)

  /** `while (player1.Health > 0 && player2.Health > 0)`: the attacker is `p1` exactly when the
      flag is set, and the flag flips after every turn. Turn `k` draws `rng(next + k)`. */
  function Fight(p1: Combatant, p2: Combatant, player1Turn: bool, rng: RandomSource, next: nat)
    : (r: BattleRecord)
    requires Ready(p1) && Ready(p2)
    ensures Ready(r.p1) && Ready(r.p2)
    ensures r.p1.health == 0 || r.p2.health == 0
    ensures r.p1.name == p1.name && r.p1.maxHealth == p1.maxHealth && r.p1.health <= p1.health
    ensures r.p2.name == p2.name && r.p2.maxHealth == p2.maxHealth && r.p2.health <= p2.health
    ensures r.p1.style.Kind() == p1.style.Kind() && r.p2.style.Kind() == p2.style.Kind()
    ensures |r.strikes| == r.turns
    decreases p1.health + p2.health
  {
    if p1.health == 0 || p2.health == 0 then BattleRecord(p1, p2, player1Turn, 0, [])
    else if player1Turn then
      var x := Strike(p1, p2, rng(next));
      var rest := Fight(x.attacker, x.defender, false, rng, next + 1);
      rest.(turns := rest.turns + 1, strikes := [StrikeEvent(p1.name, p2.name, x.damage)] + rest.strikes)
    else
      var x := Strike(p2, p1, rng(next));
      var rest := Fight(x.defender, x.attacker, true, rng, next + 1);
      rest.(turns := rest.turns + 1, strikes := [StrikeEvent(p2.name, p1.name, x.damage)] + rest.strikes)
  }

  /** `player1.Health > 0 ? player1.Name : player2.Name`. */
  function Winner(r: BattleRecord): (w: string)
    ensures w == r.p1.name || w == r.p2.name
  {
    if r.p1.health > 0 then r.p1.name else r.p2.name
  }

  /** The winner announced after a fight between two living fighters is the one left standing:
      it is above 0 health and the other fighter is at 0. */
  lemma WinnerOfFight(p1: Combatant, p2: Combatant, player1Turn: bool, rng: RandomSource, next: nat)
    requires Ready(p1) && Ready(p2) && p1.health > 0 && p2.health > 0
    ensures var r := Fight(p1, p2, player1Turn, rng, next);
      || (Winner(r) == p1.name && r.p1.health > 0 && r.p2.health == 0)
      || (Winner(r) == p2.name && r.p2.health > 0 && r.p1.health == 0)
  {
    FightHasOneSurvivor(p1, p2, player1Turn, rng, next);
  }

  /** A fight between two living fighters runs at least one turn and leaves exactly one of them
      standing; the winner is the survivor. */
  lemma {:induction false} FightHasOneSurvivor(p1: Combatant, p2: Combatant, player1Turn: bool,
                                               rng: RandomSource, next: nat)
    requires Ready(p1) && Ready(p2) && p1.health > 0 && p2.health > 0
    ensures var r := Fight(p1, p2, player1Turn, rng, next);
      && r.turns >= 1
      && (r.p1.health == 0 <==> r.p2.health > 0)
      && Winner(r) == (if r.p1.health > 0 then p1.name else p2.name)
    decreases p1.health + p2.health
  {
    if player1Turn {
      var x := Strike(p1, p2, rng(next));
      if x.defender.health > 0 {
        FightHasOneSurvivor(x.attacker, x.defender, false, rng, next + 1);
      }
    } else {
      var x := Strike(p2, p1, rng(next));
      if x.defender.health > 0 {
        FightHasOneSurvivor(x.defender, x.attacker, true, rng, next + 1);
      }
    }
  }

  /** The flag flips once per turn, so it ends as it started exactly when the fight took an even
      number of turns. */
  lemma {:induction false} FightFlagParity(p1: Combatant, p2: Combatant, player1Turn: bool,
                                           rng: RandomSource, next: nat)
    requires Ready(p1) && Ready(p2)
    ensures var r := Fight(p1, p2, player1Turn, rng, next);
      r.player1Turn == (player1Turn == (r.turns % 2 == 0))
    decreases p1.health + p2.health
  {
    if p1.health > 0 && p2.health > 0 {
      var r := Fight(p1, p2, player1Turn, rng, next);
      var rest;
      if player1Turn {
        var x := Strike(p1, p2, rng(next));
        rest := Fight(x.attacker, x.defender, false, rng, next + 1);
        FightFlagParity(x.attacker, x.defender, false, rng, next + 1);
      } else {
        var x := Strike(p2, p1, rng(next));
        rest := Fight(x.defender, x.attacker, true, rng, next + 1);
        FightFlagParity(x.defender, x.attacker, true, rng, next + 1);
      }
      assert r.turns == rest.turns + 1 && r.player1Turn == rest.player1Turn;
      Numeric.ParityFlips(rest.turns);
    }
  }

  /** The first turn of a fight between two living fighters: its event names the attacker the
      flag picks, and the fight is that event followed by the fight from the fighters `q1`,
      `q2` the turn leaves, with the flag flipped. */
  lemma FightUnfold(p1: Combatant, p2: Combatant, player1Turn: bool, rng: RandomSource, next: nat)
    returns (q1: Combatant, q2: Combatant, e: StrikeEvent)
    requires Ready(p1) && Ready(p2) && p1.health > 0 && p2.health > 0
    ensures Ready(q1) && Ready(q2) && q1.name == p1.name && q2.name == p2.name
    ensures e == (if player1Turn then StrikeEvent(p1.name, p2.name, e.damage)
                  else StrikeEvent(p2.name, p1.name, e.damage))
    ensures MinDamage <= e.damage <= MaxDamage
    ensures Fight(p1, p2, player1Turn, rng, next).strikes
         == [e] + Fight(q1, q2, !player1Turn, rng, next + 1).strikes
  {
    if player1Turn {
      var x := Strike(p1, p2, rng(next));
      q1, q2, e := x.attacker, x.defender, StrikeEvent(p1.name, p2.name, x.damage);
    } else {
      var x := Strike(p2, p1, rng(next));
      q1, q2, e := x.defender, x.attacker, StrikeEvent(p2.name, p1.name, x.damage);
    }
  }

  /** Turn `k` of the fight is struck by `p1` exactly when `k` has the parity of the first
      attacker, and deals between the archetypes' minimum and maximum damage. */
  lemma {:induction false} FightAlternates(p1: Combatant, p2: Combatant, player1Turn: bool,
                                           rng: RandomSource, next: nat, k: nat)
    requires Ready(p1) && Ready(p2)
    requires k < Fight(p1, p2, player1Turn, rng, next).turns
    ensures var e := Fight(p1, p2, player1Turn, rng, next).strikes[k];
      && (if player1Turn == (k % 2 == 0) then e.attacker == p1.name && e.defender == p2.name
          else e.attacker == p2.name && e.defender == p1.name)
      && MinDamage <= e.damage <= MaxDamage
    decreases k
  {
    assert p1.health > 0 && p2.health > 0;
    var q1, q2, e := FightUnfold(p1, p2, player1Turn, rng, next);
    if k > 0 {
      var rest := Fight(q1, q2, !player1Turn, rng, next + 1);
      assert Fight(p1, p2, player1Turn, rng, next).strikes[k] == rest.strikes[k - 1];
      FightAlternates(q1, q2, !player1Turn, rng, next + 1, k - 1);
      Numeric.ParityFlips(k - 1);
    }
  }

  /** The number of hits of at least `MinDamage` that certainly bring `health` to 0. */
  function HitsToDefeat(health: nat): nat {
    (health + MinDamage - 1) / MinDamage
  }

  /** How many turns a fight can last at most from these health values: the first defender
      falls by its `HitsToDefeat`-th hit, taken on an odd turn, the other by its own, taken on an
      even turn. */
  function TurnBound(h1: nat, h2: nat, player1Turn: bool): nat {
    if h1 == 0 || h2 == 0 then 0
    else if player1Turn then Numeric.Min(2 * HitsToDefeat(h2) - 1, 2 * HitsToDefeat(h1))
    else Numeric.Min(2 * HitsToDefeat(h1) - 1, 2 * HitsToDefeat(h2))
  }

  /** A hit of at least `MinDamage` that a fighter survives uses up one of its hits to defeat. */
  lemma HitUsesOneHit(health: nat, damage: int)
    requires MinDamage <= damage < health
    ensures HitsToDefeat(health - damage) + 1 <= HitsToDefeat(health)
  {
  }

  /** One turn in which the attacker (health `a`) hits the defender (health `b`, `b'` after the
      hit) uses up at least one turn of the bound, whichever player attacked. */
  lemma TurnBoundStep(a: nat, b: nat, b': nat, damage: int)
    requires a > 0 && b > 0 && MinDamage <= damage
    requires (b' == 0 <==> damage >= b) && (damage < b ==> b' == b - damage)
    ensures TurnBound(a, b', false) + 1 <= TurnBound(a, b, true)
    ensures TurnBound(b', a, true) + 1 <= TurnBound(b, a, false)
  {
    if b' > 0 {
      HitUsesOneHit(b, damage);
    }
  }

  lemma {:induction false} FightTurnBound(p1: Combatant, p2: Combatant, player1Turn: bool,
                                          rng: RandomSource, next: nat)
    requires Ready(p1) && Ready(p2)
    ensures Fight(p1, p2, player1Turn, rng, next).turns <= TurnBound(p1.health, p2.health, player1Turn)
    decreases p1.health + p2.health
  {
    if p1.health > 0 && p2.health > 0 {
      if player1Turn {
        var x := Strike(p1, p2, rng(next));
        FightTurnBound(x.attacker, x.defender, false, rng, next + 1);
        TurnBoundStep(p1.health, p2.health, x.defender.health, x.damage);
      } else {
        var x := Strike(p2, p1, rng(next));
        FightTurnBound(x.defender, x.attacker, true, rng, next + 1);
        TurnBoundStep(p2.health, p1.health, x.defender.health, x.damage);
      }
    }
  }

  /** Every archetype deals at least 10 damage and none has more than 120 health, so a battle
      between two archetype fighters ends within 23 turns. */
  lemma FightWithin23Turns(p1: Combatant, p2: Combatant, player1Turn: bool, rng: RandomSource, next: nat)
    requires Ready(p1) && Ready(p2)
    requires p1.maxHealth <= SorcererMaxHealth && p2.maxHealth <= SorcererMaxHealth
    ensures Fight(p1, p2, player1Turn, rng, next).turns <= 23
  {
    FightTurnBound(p1, p2, player1Turn, rng, next);
  }

  /** The lines a battle writes to its log window (the emoji decorations aside). */
  datatype LogEntry =
    | BattleBegins
    | GoesFirst(name: string)
    | BlankLine
    | Struck(event: StrikeEvent)
    | Victorious(name: string)

  /** The text of a log line. */
  function LogLine(e: LogEntry): (line: string)
    ensures e.GoesFirst? ==> e.name <= line
    ensures e.Struck? ==> e.event.attacker <= line && |line| >= 8 && line[|line| - 8..] == " damage!"
    ensures e.Victorious? ==> e.name <= line
  {
    match e
    case BattleBegins => "Battle Begins!"
    case GoesFirst(name) => name + " goes first!"
    case BlankLine => ""
    case Struck(ev) =>
      ev.attacker + " strikes " + ev.defender + " for " + IntToString(ev.damage) + " damage!"
    case Victorious(name) => name + " is victorious!"
  }

  /** A strike line names its attacker and then its defender, and the damage dealt can be read
      back from the digits between " for " and " damage!". */
  lemma StrikeLineCarriesDamage(ev: StrikeEvent)
    requires ev.damage >= 0
    ensures var line := LogLine(Struck(ev));
      var lo := |ev.attacker| + |" strikes "| + |ev.defender| + |" for "|;
      && lo <= |line| - 8
      && line[|ev.attacker| + |" strikes "|..lo - |" for "|] == ev.defender
      && line[lo..|line| - 8] == IntToString(ev.damage)
      && DigitsValue(line[lo..|line| - 8]) == ev.damage
  {
    var digits := IntToString(ev.damage);
    IntToStringRoundTrip(ev.damage);
    var line := LogLine(Struck(ev));
    assert line == ev.attacker + " strikes " + ev.defender + " for " + digits + " damage!";
  }

  function StrikeLog(strikes: seq<StrikeEvent>): (log: seq<LogEntry>)
    ensures |log| == |strikes| && forall k :: 0 <= k < |log| ==> log[k] == Struck(strikes[k])
  {
    if strikes == [] then [] else [Struck(strikes[0])] + StrikeLog(strikes[1..])
  }

  /** The whole log of a battle: the opening lines, one line per turn, and the victory line. */
  function BattleLog(first: string, r: BattleRecord): (log: seq<LogEntry>)
    ensures |log| == |r.strikes| + 5 && log[..2] == [BattleBegins, GoesFirst(first)]
    ensures log[3..|log| - 2] == StrikeLog(r.strikes) && log[|log| - 1] == Victorious(Winner(r))
  {
    [BattleBegins, GoesFirst(first), BlankLine] + StrikeLog(r.strikes) + [BlankLine, Victorious(Winner(r))]
  }

  /** A battle between two live fighters of the three archetypes lasts between 1 and 23 turns
      and leaves exactly one standing; it starts on course. */
  lemma BattleBounds(c1: Combatant, c2: Combatant, first: bool, rng: RandomSource)
    requires Ready(c1) && Ready(c2) && c1.health > 0 && c2.health > 0
    requires c1.maxHealth <= SorcererMaxHealth && c2.maxHealth <= SorcererMaxHealth
    ensures var r := Fight(c1, c2, first, rng, 0);
      1 <= r.turns <= 23 && ((r.p1.health == 0) != (r.p2.health == 0))
    ensures OnCourseOf(c1, c2, first, Fight(c1, c2, first, rng, 0), [], 0, rng)
  {
    FightHasOneSurvivor(c1, c2, first, rng, 0);
    FightWithin23Turns(c1, c2, first, rng, 0);
    assert [] + Fight(c1, c2, first, rng, 0).strikes == Fight(c1, c2, first, rng, 0).strikes;
  }

  /** The fight from `c1`, `c2` and `flag` at draw `turns`, prefixed by the events `done`,
      is the reference fight `goal`. */
  ghost predicate OnCourseOf(c1: Combatant, c2: Combatant, flag: bool, goal: BattleRecord,
                             done: seq<StrikeEvent>, turns: nat, rng: RandomSource)
    requires Ready(c1) && Ready(c2)
  {
    var rest := Fight(c1, c2, flag, rng, turns);
    && rest.p1 == goal.p1 && rest.p2 == goal.p2 && rest.player1Turn == goal.player1Turn
    && turns + rest.turns == goal.turns && done + rest.strikes == goal.strikes
  }

  /** Playing one turn from a state on course keeps it on course: the reference fight is the
      turn's strike followed by the rest of the fight from the new state. */
  lemma AdvanceCourse(c1: Combatant, c2: Combatant, flag: bool, goal: BattleRecord,
                      done: seq<StrikeEvent>, turns: nat, rng: RandomSource)
    requires Ready(c1) && Ready(c2) && c1.health > 0 && c2.health > 0
    requires OnCourseOf(c1, c2, flag, goal, done, turns, rng)
    ensures flag ==>
      var x := Strike(c1, c2, rng(turns));
      OnCourseOf(x.attacker, x.defender, false, goal, done + [StrikeEvent(c1.name, c2.name, x.damage)], turns + 1, rng)
    ensures !flag ==>
      var x := Strike(c2, c1, rng(turns));
      OnCourseOf(x.defender, x.attacker, true, goal, done + [StrikeEvent(c2.name, c1.name, x.damage)], turns + 1, rng)
  {
  }

  /** Once a fighter is down the rest of the fight is empty: the state on course is the
      reference fight's end. */
  lemma CourseComplete(c1: Combatant, c2: Combatant, flag: bool, goal: BattleRecord,
                       done: seq<StrikeEvent>, turns: nat, rng: RandomSource)
    requires Ready(c1) && Ready(c2) && (c1.health == 0 || c2.health == 0)
    requires OnCourseOf(c1, c2, flag, goal, done, turns, rng)
    ensures goal.p1 == c1 && goal.p2 == c2 && goal.player1Turn == flag
    ensures goal.turns == turns && goal.strikes == done
  {
  }

  /** Logging one more strike adds one line. */
  lemma StrikeLogSnoc(strikes: seq<StrikeEvent>, e: StrikeEvent)
    ensures StrikeLog(strikes + [e]) == StrikeLog(strikes) + [Struck(e)]
  {
  }

  /** The imperative turn both windows run on their fighter objects. */
  method PerformStrike(attacker: Fighter, defender: Fighter, roll: Roll) returns (damage: int)
    requires attacker != defender && attacker.Valid() && defender.Valid()
    modifies attacker`style, defender`health
    ensures attacker.Valid() && defender.Valid()
    ensures StrikeResult(attacker.Snapshot(), defender.Snapshot(), damage)
         == Strike(old(attacker.Snapshot()), old(defender.Snapshot()), roll)
  {
    damage := attacker.Attack(Pick(DrawSpan(attacker.style), roll.pick), roll.critRoll);
    var outcome := defender.TakeDamage(damage);
  }
}

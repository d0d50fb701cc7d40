/** The main window: the checks of the Battle button, the health-label colours, the two-frame
    idle animation and the window's own turn loop, which reports the battle in its log. */
module MainForm {
  import opened Wrappers
  import opened Numeric
  import opened Text
  import opened Archetypes
  import opened Fighters
  import opened Duel

  /** The messages the window shows in a message box. */
  datatype FormError =
    | MissingNames
    | MissingTypes
    | DuplicateChampion
    | ChampionFailed(cause: FighterError)
    | PlayersMissing

  /** `string.IsNullOrEmpty` on the `SelectedItem?.ToString()` of a selection box. */
  predicate IsNullOrEmpty(s: Option<string>) {
    s.None? || s.value == []
  }

  /** The types check fails only when a box has no selection (or an empty item): any
      champion type chosen from a box passes it. */
  lemma SelectionPresence(a: Archetype, item: Option<string>)
    ensures !IsNullOrEmpty(Some(SelectorName(a)))
    ensures IsNullOrEmpty(item) <==> item == None || item == Some("")
  {
  }

  /** The three checks of the Battle button, in their order, on the two name boxes' text and
      the two selections. */
  function ValidateSetup(text1: string, sel1: Option<string>, text2: string, sel2: Option<string>)
    : (r: Outcome<FormError>)
    ensures r.Fail? ==> r.error.MissingNames? || r.error.MissingTypes? || r.error.DuplicateChampion?
    ensures r.Pass? ==> !IsBlank(Trim(text1)) && !IsBlank(Trim(text2)) && sel1.Some? && sel2.Some?
  {
    var name1, name2 := Trim(text1), Trim(text2);
    if IsBlank(name1) || IsBlank(name2) then Fail(MissingNames)
    else if IsNullOrEmpty(sel1) || IsNullOrEmpty(sel2) then Fail(MissingTypes)
    else if name1 == name2 && sel1 == sel2 then Fail(DuplicateChampion)
    else Pass
  }

  /** A setup is accepted exactly when both names have a non-blank character, both types are
      selected, and the two champions differ in name or in type; the first failing check, in
      the order names, types, uniqueness, decides the message. */
  lemma SetupVerdict(text1: string, sel1: Option<string>, text2: string, sel2: Option<string>)
    ensures ValidateSetup(text1, sel1, text2, sel2).Pass? <==>
      && !IsBlank(text1) && !IsBlank(text2)
      && !IsNullOrEmpty(sel1) && !IsNullOrEmpty(sel2)
      && (Trim(text1) != Trim(text2) || sel1 != sel2)
    ensures IsBlank(text1) || IsBlank(text2) ==> ValidateSetup(text1, sel1, text2, sel2) == Fail(MissingNames)
    ensures !IsBlank(text1) && !IsBlank(text2) && (IsNullOrEmpty(sel1) || IsNullOrEmpty(sel2)) ==>
      ValidateSetup(text1, sel1, text2, sel2) == Fail(MissingTypes)
    ensures !IsBlank(text1) && !IsBlank(text2) && !IsNullOrEmpty(sel1) && !IsNullOrEmpty(sel2)
            && Trim(text1) == Trim(text2) && sel1 == sel2 ==>
      ValidateSetup(text1, sel1, text2, sel2) == Fail(DuplicateChampion)
  {
    BlankAfterTrim(text1);
    BlankAfterTrim(text2);
  }

  /** The names of an accepted setup are trimmed names, as a fighter's `Name` keeps them. */
  lemma AcceptedNamesTrimmed(text1: string, sel1: Option<string>, text2: string, sel2: Option<string>)
    requires ValidateSetup(text1, sel1, text2, sel2).Pass?
    ensures IsTrimmedName(Trim(text1)) && IsTrimmedName(Trim(text2))
  {
    BlankAfterTrim(text1);
    BlankAfterTrim(text2);
    TrimmedNameOf(text1);
    TrimmedNameOf(text2);
  }

  /** Two champions may share a name when their types differ. */
  lemma SameNameOtherTypeAccepted(text: string, sel1: string, sel2: string)
    requires !IsBlank(text) && sel1 != [] && sel2 != [] && sel1 != sel2
    ensures ValidateSetup(text, Some(sel1), text, Some(sel2)) == Pass
  {
    BlankAfterTrim(text);
  }

  /** An ARGB colour. */
  datatype Color = Color(a: int, r: int, g: int, b: int)

  const HealthyGreen := Color(255, 100, 255, 100)
  const WarningYellow := Color(255, 255, 200, 0)
  const CriticalRed := Color(255, 255, 80, 80)

  /** `(float)health / Math.Max(1, maxHealth)`, as an exact quotient. */
  function HealthPercent(health: int, maxHealth: int): (p: real)
    ensures 0 <= health <= maxHealth ==> 0.0 <= p <= 1.0
  {
    health as real / Max(1, maxHealth) as real
  }

  /** `GetHealthColor`: the colour of a health label by the fraction of health left. */
  function HealthColor(percent: real): (c: Color)
    ensures c == HealthyGreen || c == WarningYellow || c == CriticalRed
  {
    if percent > 0.5 then HealthyGreen
    else if percent > 0.2 then WarningYellow
    else CriticalRed
  }

  /** Over integer health the label is green above half the maximum, yellow above a fifth of
      it, and red from a fifth down. */
  lemma HealthColorOfHealth(health: int, maxHealth: int)
    requires 0 < maxHealth
    ensures HealthColor(HealthPercent(health, maxHealth)) ==
      if 2 * health > maxHealth then HealthyGreen
      else if 5 * health > maxHealth then WarningYellow
      else CriticalRed
  {
    assert Max(1, maxHealth) == maxHealth;
    DivAbove(health as real, maxHealth as real, 0.5);
    DivAbove(health as real, maxHealth as real, 0.2);
  }

  /** A quotient by a positive number exceeds `c` exactly when the dividend exceeds `c` times
      the divisor. */
  lemma DivAbove(x: real, m: real, c: real)
    requires m > 0.0
    ensures x / m > c <==> x > c * m
  {
    ScaleAbove(x / m, c, m);
  }

  /** Multiplying both sides by a positive factor keeps a strict comparison. */
  lemma ScaleAbove(p: real, c: real, m: real)
    requires m > 0.0
    ensures p > c <==> p * m > c * m
  {
    if p > c {
      assert (p - c) * m > 0.0;
    } else {
      assert (c - p) * m >= 0.0;
    }
  }

  /** `(animationFrame + 1) % 2`: the idle animation toggles between its two frames. */
  function NextFrame(frame: nat): (next: nat)
    ensures next < 2
    ensures frame < 2 ==> next == 1 - frame
  {
    (frame + 1) % 2
  }

  /** A fighter field that is either unset or holds a consistent fighter at its archetype's
      maximum health. */
  ghost predicate Armed(f: Fighter?)
    reads f
  {
    f != null ==> f.Valid() && f.maxHealth == BaseMaxHealth(f.archetype)
  }

  /** The two fighter fields: each unset or consistent, and distinct when both are set. */
  ghost predicate Seated(f1: Fighter?, f2: Fighter?)
    reads f1, f2
  {
    Armed(f1) && Armed(f2) && (f1 != null && f2 != null ==> f1 != f2)
  }

  /** `CreateCharacter(characterType, name)` on a name the window has already trimmed: it
      fails exactly on an unknown type, and otherwise builds a fresh fighter of that type,
      whose own trimming leaves the name as it is. */
  method Enroll(selector: string, name: string) returns (r: Result<Fighter, FighterError>)
    requires IsTrimmedName(name)
    ensures r.Failure? <==> ArchetypeOf(selector).None?
    ensures r.Failure? ==> r.error == UnknownChampion(selector)
    ensures r.Success? ==> fresh(r.value) && Armed(r.value)
    ensures r.Success? ==> r.value.Snapshot() == Recruit(ArchetypeOf(selector).value, name)
  {
    TrimmedNameIff(name);
    r := CreateCharacter(selector, name);
  }

  /** The state the turn loop starts from: the reference fight it follows and the log it found. */
  datatype Opening = Opening(goal: BattleRecord, log: seq<LogEntry>)

  class Form1 {
    var player1: Fighter?
    var player2: Fighter?
    var isAttacking: bool
    var animationFrame: nat
    /** The lines of `txtLog`. */
    var log: seq<LogEntry>
    var timerRunning: bool
    /** `btnBattle.Enabled`. */
    var battleEnabled: bool

    /** The window between two events: fighters that are set are distinct and consistent, no
        attack is shown, and the animation is on one of its two frames. */
    ghost predicate Valid()
      reads this`player1, this`player2, this`isAttacking, this`animationFrame, player1, player2
    {
      animationFrame < 2 && !isAttacking && Seated(player1, player2)
    }

    /** The window as it opens: no fighters, an empty log, the timer stopped. */
    constructor ()
      ensures Valid() && player1 == null && player2 == null
      ensures animationFrame == 0 && log == [] && !timerRunning && battleEnabled
    {
      player1, player2 := null, null;
      isAttacking := false;
      animationFrame := 0;
      log := [];
      timerRunning := false;
      battleEnabled := true;
    }

    /** `AnimationTimer_Tick`: advances the idle animation by one frame. */
    method AnimationTick()
      requires Valid()
      modifies this`animationFrame
      ensures Valid() && animationFrame == NextFrame(old(animationFrame))
    {
      animationFrame := NextFrame(animationFrame);
    }

    /** The strike of one turn while the attack is shown: the flag picks the attacker, only the
        defender's health and the attacker's private state change, and the log reports it. */
    method StrikeInTurn(p1: Fighter, p2: Fighter, player1Turn: bool, roll: Roll) returns (damage: int)
      requires p1 != p2 && p1.Valid() && p2.Valid() && isAttacking
      modifies this`log, p1`style, p1`health, p2`style, p2`health
      ensures p1.Valid() && p2.Valid()
      ensures player1Turn ==>
        StrikeResult(p1.Snapshot(), p2.Snapshot(), damage) == Strike(old(p1.Snapshot()), old(p2.Snapshot()), roll)
      ensures !player1Turn ==>
        StrikeResult(p2.Snapshot(), p1.Snapshot(), damage) == Strike(old(p2.Snapshot()), old(p1.Snapshot()), roll)
      ensures log == old(log) + [Struck(if player1Turn then StrikeEvent(p1.name, p2.name, damage)
                                        else StrikeEvent(p2.name, p1.name, damage))]
    {
      if player1Turn {
        damage := PerformStrike(p1, p2, roll);
        log := log + [Struck(StrikeEvent(p1.name, p2.name, damage))];
      } else {
        damage := PerformStrike(p2, p1, roll);
        log := log + [Struck(StrikeEvent(p2.name, p1.name, damage))];
      }
    }

    /** What the turn loop keeps while it plays the turns of the reference fight `s.goal`, with
        `done` the events of the `turns` turns played so far: the fighters and the turn flag are
        on course, the log has grown by exactly those turns, and no attack is shown. */
    ghost predicate Playing(p1: Fighter, p2: Fighter, rng: RandomSource, s: Opening, turns: nat,
                            done: seq<StrikeEvent>, player1Turn: bool)
      reads this`log, this`isAttacking, p1, p2
    {
      && p1 != p2 && p1.Valid() && p2.Valid()
      && |done| == turns
      && OnCourseOf(p1.Snapshot(), p2.Snapshot(), player1Turn, s.goal, done, turns, rng)
      && log == s.log + StrikeLog(done) && !isAttacking
    }

    /** One pass of the loop body: the attack is shown, the turn's strike is made with the
        `turns`-th roll, the flag flips and the attack is no longer shown. */
    method Step(p1: Fighter, p2: Fighter, rng: RandomSource, turns: nat, player1Turn: bool,
                ghost s: Opening, ghost done: seq<StrikeEvent>)
      returns (next: bool, ghost done': seq<StrikeEvent>)
      requires Playing(p1, p2, rng, s, turns, done, player1Turn) && p1.health > 0 && p2.health > 0
      modifies this`isAttacking, this`log, p1`style, p1`health, p2`style, p2`health
      ensures Playing(p1, p2, rng, s, turns + 1, done', next)
      ensures p1.health + p2.health < old(p1.health + p2.health)
    {
      ghost var c1, c2 := p1.Snapshot(), p2.Snapshot();
      isAttacking := true;
      var damage := StrikeInTurn(p1, p2, player1Turn, rng(turns));
      next := !player1Turn;
      isAttacking := false;
      ghost var event := if player1Turn then StrikeEvent(c1.name, c2.name, damage)
                         else StrikeEvent(c2.name, c1.name, damage);
      done' := done + [event];
      AdvanceCourse(c1, c2, player1Turn, s.goal, done, turns, rng);
      StrikeLogSnoc(done, event);
    }

    /** `while (player1.Health > 0 && player2.Health > 0)` from the coin toss `player1First`:
        the turns played are those of the reference fight `goal`. */
    method RunTurns(p1: Fighter, p2: Fighter, rng: RandomSource, player1First: bool, ghost goal: BattleRecord)
      requires p1 != p2 && p1.Valid() && p2.Valid() && !isAttacking
      requires goal == Fight(p1.Snapshot(), p2.Snapshot(), player1First, rng, 0)
      modifies this`isAttacking, this`log, p1`style, p1`health, p2`style, p2`health
      ensures p1.Valid() && p2.Valid() && !isAttacking
      ensures p1.Snapshot() == goal.p1 && p2.Snapshot() == goal.p2
      ensures log == old(log) + StrikeLog(goal.strikes)
    {
      var player1Turn := player1First;
      var turns := 0;
      ghost var s := Opening(goal, log);
      ghost var done: seq<StrikeEvent> := [];
      assert [] + goal.strikes == goal.strikes;
      assert log + StrikeLog(done) == log;
      while p1.health > 0 && p2.health > 0
        invariant Playing(p1, p2, rng, s, turns, done, player1Turn)
        decreases p1.health + p2.health
      {
        player1Turn, done := Step(p1, p2, rng, turns, player1Turn, s, done);
        turns := turns + 1;
      }
      CourseComplete(p1.Snapshot(), p2.Snapshot(), player1Turn, goal, done, turns, rng);
    }

    /** The battle has ended as the reference fight `r` says, `first` having moved first: the
        fighters are `r`'s and the log holds the opening lines, one line per turn of `r` and
        its winner. */
    ghost predicate Finished(r: BattleRecord, first: bool)
      reads this`player1, this`player2, this`log, player1, player2
      requires player1 != null && player2 != null && player1.Valid() && player2.Valid()
    {
      && player1.Snapshot() == r.p1 && player2.Snapshot() == r.p2
      && log == BattleLog(if first then player1.name else player2.name, r)
    }

    /** `StartBattle` with the coin toss `player1First` and the attacks' draws from `rng`: a
        missing fighter is a critical error that logs nothing and changes no fighter; otherwise
        the battle is fought to its end. Either way the `finally` block leaves no attack shown,
        the timer stopped and the button enabled. */
    method StartBattle(player1First: bool, rng: RandomSource) returns (r: Outcome<FormError>)
      requires Valid()
      modifies this`isAttacking, this`log, this`timerRunning, this`battleEnabled, player1, player2
      ensures Valid() && !timerRunning && battleEnabled
      ensures player1 == null || player2 == null ==>
        && r == Fail(PlayersMissing) && log == old(log)
        && (player1 != null ==> unchanged(player1)) && (player2 != null ==> unchanged(player2))
      ensures player1 != null && player2 != null ==>
        r == Pass && Finished(Fight(old(player1.Snapshot()), old(player2.Snapshot()), player1First, rng, 0), player1First)
    {
      if player1 == null || player2 == null {
        isAttacking, timerRunning, battleEnabled := false, false, true;
        return Fail(PlayersMissing);
      }
      FightOut(player1, player2, player1First, rng);
      isAttacking, timerRunning, battleEnabled := false, false, true;
      r := Pass;
    }

    /** The body of `StartBattle` once both fighters exist: the timer starts, the log is
        cleared and opened, the turns are played and the winner is announced. */
    method FightOut(p1: Fighter, p2: Fighter, player1First: bool, rng: RandomSource)
      requires Valid() && p1 == player1 && p2 == player2
      modifies this`isAttacking, this`log, this`timerRunning, p1`style, p1`health, p2`style, p2`health
      ensures Valid() && !timerRunning
      ensures Finished(Fight(old(p1.Snapshot()), old(p2.Snapshot()), player1First, rng, 0), player1First)
    {
      ghost var goal := Fight(p1.Snapshot(), p2.Snapshot(), player1First, rng, 0);
      timerRunning := true;
      log := [BattleBegins, GoesFirst(if player1First then p1.name else p2.name), BlankLine];
      RunTurns(p1, p2, rng, player1First, goal);
      timerRunning := false;
      log := log + [BlankLine, Victorious(if p1.health > 0 then p1.name else p2.name)];
    }

    /** The checks of `btnBattle_Click`, the disabled button and the two `CreateCharacter`
        calls: a setup that fails a check changes no fighter; otherwise each fighter is built
        in turn, an unknown type stopping with the fighters built so far. */
    method Enlist(text1: string, sel1: Option<string>, text2: string, sel2: Option<string>)
      returns (r: Outcome<FormError>)
      requires Valid()
      modifies this`player1, this`player2, this`battleEnabled
      ensures Valid()
      ensures log == old(log) && timerRunning == old(timerRunning) && isAttacking == old(isAttacking)
      ensures ValidateSetup(text1, sel1, text2, sel2).Fail? ==>
        r == ValidateSetup(text1, sel1, text2, sel2) && player1 == old(player1) && player2 == old(player2)
      ensures ValidateSetup(text1, sel1, text2, sel2).Pass? && ArchetypeOf(sel1.value).None? ==>
        r == Fail(ChampionFailed(UnknownChampion(sel1.value))) && player1 == old(player1) && player2 == old(player2)
      ensures ValidateSetup(text1, sel1, text2, sel2).Pass? && ArchetypeOf(sel1.value).Some?
              && ArchetypeOf(sel2.value).None? ==>
        && r == Fail(ChampionFailed(UnknownChampion(sel2.value))) && player2 == old(player2)
        && player1 != null && fresh(player1)
        && player1.Snapshot() == Recruit(ArchetypeOf(sel1.value).value, Trim(text1))
      ensures r.Pass? <==> ValidateSetup(text1, sel1, text2, sel2).Pass?
                           && ArchetypeOf(sel1.value).Some? && ArchetypeOf(sel2.value).Some?
      ensures r.Pass? ==>
        && player1 != null && player2 != null && fresh(player1) && fresh(player2)
        && player1.Snapshot() == Recruit(ArchetypeOf(sel1.value).value, Trim(text1))
        && player2.Snapshot() == Recruit(ArchetypeOf(sel2.value).value, Trim(text2))
    {
      var check := ValidateSetup(text1, sel1, text2, sel2);
      if check.Fail? {
        return check;
      }
      DisableBattle();
      AcceptedNamesTrimmed(text1, sel1, text2, sel2);
      r := CreatePlayers(sel1.value, Trim(text1), sel2.value, Trim(text2));
    }

    /** `player1 = CreateCharacter(char1, name1); player2 = CreateCharacter(char2, name2);`:
        an unknown type stops with the fighters built so far. */
    method CreatePlayers(sel1: string, name1: string, sel2: string, name2: string)
      returns (r: Outcome<FormError>)
      requires Valid() && IsTrimmedName(name1) && IsTrimmedName(name2)
      modifies this`player1, this`player2
      ensures Valid()
      ensures log == old(log) && timerRunning == old(timerRunning) && isAttacking == old(isAttacking)
      ensures battleEnabled == old(battleEnabled)
      ensures ArchetypeOf(sel1).None? ==>
        r == Fail(ChampionFailed(UnknownChampion(sel1))) && player1 == old(player1) && player2 == old(player2)
      ensures ArchetypeOf(sel1).Some? && ArchetypeOf(sel2).None? ==>
        && r == Fail(ChampionFailed(UnknownChampion(sel2))) && player2 == old(player2)
        && player1 != null && fresh(player1) && player1.Snapshot() == Recruit(ArchetypeOf(sel1).value, name1)
      ensures r.Pass? <==> ArchetypeOf(sel1).Some? && ArchetypeOf(sel2).Some?
      ensures r.Pass? ==>
        && player1 != null && player2 != null && fresh(player1) && fresh(player2)
        && player1.Snapshot() == Recruit(ArchetypeOf(sel1).value, name1)
        && player2.Snapshot() == Recruit(ArchetypeOf(sel2).value, name2)
    {
      var made1 := Enroll(sel1, name1);
      if made1.Failure? {
        return Fail(ChampionFailed(made1.error));
      }
      SeatPlayer1(made1.value);
      var made2 := Enroll(sel2, name2);
      if made2.Failure? {
        return Fail(ChampionFailed(made2.error));
      }
      SeatPlayer2(made2.value);
      r := Pass;
    }

    /** `player1 = ...` with a fighter other than `player2`. */
    method SeatPlayer1(f: Fighter)
      requires Valid() && Armed(f) && f != player2
      modifies this`player1
      ensures Valid() && player1 == f
    {
      player1 := f;
    }

    /** `player2 = ...` with a fighter other than `player1`. */
    method SeatPlayer2(f: Fighter)
      requires Valid() && Armed(f) && f != player1
      modifies this`player2
      ensures Valid() && player2 == f
    {
      player2 := f;
    }

    /** `btnBattle_Click` on the name boxes' text and the selections: a failed check or an
        unknown type is reported as `Enlist` says, with the log and the timer untouched; when
        both fighters are built, the battle between them is fought to its end, leaving exactly
        one standing and the timer stopped; the `finally` block enables the button again in
        every case. */
    method BattleClick(text1: string, sel1: Option<string>, text2: string, sel2: Option<string>,
                       player1First: bool, rng: RandomSource) returns (r: Outcome<FormError>)
      requires Valid()
      modifies this`player1, this`player2, this`isAttacking, this`log, this`timerRunning, this`battleEnabled
      ensures Valid() && battleEnabled
      ensures ValidateSetup(text1, sel1, text2, sel2).Fail? ==>
        r == ValidateSetup(text1, sel1, text2, sel2) && player1 == old(player1) && player2 == old(player2)
      ensures ValidateSetup(text1, sel1, text2, sel2).Pass? && ArchetypeOf(sel1.value).None? ==>
        r == Fail(ChampionFailed(UnknownChampion(sel1.value))) && player1 == old(player1) && player2 == old(player2)
      ensures ValidateSetup(text1, sel1, text2, sel2).Pass? && ArchetypeOf(sel1.value).Some?
              && ArchetypeOf(sel2.value).None? ==>
        && r == Fail(ChampionFailed(UnknownChampion(sel2.value))) && player2 == old(player2)
        && player1 != null && fresh(player1)
        && player1.Snapshot() == Recruit(ArchetypeOf(sel1.value).value, Trim(text1))
      ensures r.Fail? ==>
        log == old(log) && timerRunning == old(timerRunning) && isAttacking == old(isAttacking)
      ensures r.Pass? <==> ValidateSetup(text1, sel1, text2, sel2).Pass?
                           && ArchetypeOf(sel1.value).Some? && ArchetypeOf(sel2.value).Some?
      ensures r.Pass? ==>
        && player1 != null && player2 != null && fresh(player1) && fresh(player2) && !timerRunning
        && Finished(Fight(Recruit(ArchetypeOf(sel1.value).value, Trim(text1)),
                          Recruit(ArchetypeOf(sel2.value).value, Trim(text2)), player1First, rng, 0), player1First)
        && (player1.health == 0) != (player2.health == 0)
    {
      r := Enlist(text1, sel1, text2, sel2);
      if r.Pass? {
        FightEnlisted(Recruit(ArchetypeOf(sel1.value).value, Trim(text1)),
                      Recruit(ArchetypeOf(sel2.value).value, Trim(text2)), player1First, rng);
      } else {
        EnableBattle();
      }
    }

    /** `StartBattle` between the two fighters `btnBattle_Click` has just built: the battle is
        fought to its end and leaves exactly one of them standing. */
    method FightEnlisted(ghost c1: Combatant, ghost c2: Combatant, player1First: bool, rng: RandomSource)
      requires Valid() && player1 != null && player2 != null
      requires player1.Snapshot() == c1 && player2.Snapshot() == c2
      requires c1.health > 0 && c2.health > 0
      modifies this`isAttacking, this`log, this`timerRunning, this`battleEnabled, player1, player2
      ensures Valid() && battleEnabled && !timerRunning
      ensures player1 == old(player1) && player2 == old(player2)
      ensures Finished(Fight(c1, c2, player1First, rng, 0), player1First)
      ensures (player1.health == 0) != (player2.health == 0)
    {
      BattleBounds(c1, c2, player1First, rng);
      var outcome := StartBattle(player1First, rng);
    }

    /** `btnBattle.Enabled = false` once the checks have passed. */
    method DisableBattle()
      requires Valid()
      modifies this`battleEnabled
      ensures Valid() && !battleEnabled
      ensures player1 == old(player1) && player2 == old(player2) && log == old(log)
      ensures timerRunning == old(timerRunning) && isAttacking == old(isAttacking)
    {
      battleEnabled := false;
    }

    /** The `finally` block of `btnBattle_Click`. */
    method EnableBattle()
      requires Valid()
      modifies this`battleEnabled
      ensures Valid() && battleEnabled
      ensures player1 == old(player1) && player2 == old(player2) && log == old(log)
      ensures timerRunning == old(timerRunning) && isAttacking == old(isAttacking)
    {
      battleEnabled := true;
    }
  }
}

/** The battle window that holds the richer engine: the turn loop with its hit effects and the
    animation tick that advances the attack pose and ages and culls the effects. */
module BattleEngine {
  import opened Wrappers
  import opened Archetypes
  import opened Fighters
  import opened Duel
  import opened Effects
  import opened Text

  const AttackAnimationFrames := 5

  /** A control's `Bounds`. */
  datatype Rect = Rect(x: int, y: int, width: nat, height: nat)

  /** Where a turn's effects appear: centred across the defender's picture box, a third of the
      way down (integer division of non-negative sizes). */
  function AnchorPoint(bounds: Rect): (p: Point)
    ensures bounds.x <= p.x <= bounds.x + bounds.width && bounds.y <= p.y <= bounds.y + bounds.height
    ensures 2 * (p.x - bounds.x) <= bounds.width < 2 * (p.x - bounds.x) + 2
    ensures 3 * (p.y - bounds.y) <= bounds.height < 3 * (p.y - bounds.y) + 3
  {
    Point(bounds.x + bounds.width / 2, bounds.y + bounds.height / 3)
  }

  /** The effects that are not complete, in their original order. */
  function Survivors(s: seq<VisualEffect>): (r: seq<VisualEffect>)
    reads s
    ensures |r| <= |s|
  {
    if s == [] then [] else (if s[0].isComplete then [] else [s[0]]) + Survivors(s[1..])
  }

  /** The survivors are exactly the incomplete effects of the list. */
  lemma {:induction false} SurvivorsMembers(s: seq<VisualEffect>)
    ensures forall k :: 0 <= k < |Survivors(s)| ==> Survivors(s)[k] in s && !Survivors(s)[k].isComplete
    ensures forall k :: 0 <= k < |s| && !s[k].isComplete ==> s[k] in Survivors(s)
  {
    if s != [] {
      SurvivorsMembers(s[1..]);
      var rest := Survivors(s[1..]);
      var r := Survivors(s);
      var head := if s[0].isComplete then [] else [s[0]];
      assert r == head + rest;
      forall k | 0 <= k < |r| ensures r[k] in s && !r[k].isComplete {
        if k >= |head| {
          assert r[k] == rest[k - |head|];
          assert rest[k - |head|] in s[1..];
        }
      }
      forall k | 0 <= k < |s| && !s[k].isComplete ensures s[k] in r {
        if k > 0 {
          assert s[k] == s[1..][k - 1];
        }
      }
    }
  }

  /** The survivors of consistent effects are consistent and incomplete. */
  lemma {:induction false} SurvivorsValid(s: seq<VisualEffect>)
    requires forall k :: 0 <= k < |s| ==> s[k].Valid()
    ensures forall k :: 0 <= k < |Survivors(s)| ==> Survivors(s)[k].Valid() && !Survivors(s)[k].isComplete
  {
    if s != [] {
      assert forall k :: 0 <= k < |s[1..]| ==> s[1..][k].Valid() by {
        forall k | 0 <= k < |s[1..]| ensures s[1..][k].Valid() {
          assert s[1..][k] == s[k + 1];
        }
      }
      SurvivorsValid(s[1..]);
      var rest := Survivors(s[1..]);
      var head := if s[0].isComplete then [] else [s[0]];
      assert Survivors(s) == head + rest;
      forall k | 0 <= k < |Survivors(s)| ensures Survivors(s)[k].Valid() && !Survivors(s)[k].isComplete {
        if k >= |head| {
          assert Survivors(s)[k] == rest[k - |head|];
        }
      }
    }
  }

  predicate Distinct(s: seq<VisualEffect>) {
    forall j, k :: 0 <= j < k < |s| ==> s[j] != s[k]
  }

  /** Keeping some of a list of distinct objects keeps them distinct. */
  lemma {:induction false} SurvivorsDistinct(s: seq<VisualEffect>)
    requires Distinct(s)
    ensures Distinct(Survivors(s))
  {
    if s != [] {
      assert Distinct(s[1..]) by {
        forall j, k | 0 <= j < k < |s[1..]| ensures s[1..][j] != s[1..][k] {
          assert s[1..][j] == s[j + 1] && s[1..][k] == s[k + 1];
        }
      }
      SurvivorsDistinct(s[1..]);
      var rest := Survivors(s[1..]);
      if !s[0].isComplete {
        assert s[0] !in s[1..] by {
          forall k | 0 <= k < |s[1..]| ensures s[1..][k] != s[0] {
            assert s[1..][k] == s[k + 1];
          }
        }
        SurvivorsMembers(s[1..]);
        assert s[0] !in rest;
        var r := [s[0]] + rest;
        forall j, k | 0 <= j < k < |r| ensures r[j] != r[k] {
          if j == 0 {
            assert r[k] == rest[k - 1];
          } else {
            assert r[j] == rest[j - 1] && r[k] == rest[k - 1];
          }
        }
      }
    }
  }

  /** Removing the element at index `|front|` leaves what is around it. */
  lemma RemoveAt<T>(front: seq<T>, x: T, back: seq<T>)
    ensures (front + [x] + back)[..|front|] + (front + [x] + back)[|front| + 1..] == front + back
  {
    var s := front + [x] + back;
    assert s[..|front|] == front;
    assert s[|front| + 1..] == back;
  }

  /** The two effects one turn spawns: a hit burst, then a non-critical damage number, at the
      same point. (Kind and position never change, so this reads no state.) */
  predicate SpawnedPair(hit: VisualEffect, number: VisualEffect, at: Point, damage: int) {
    && hit.kind == HitKind && hit.position == at
    && number.kind == DamageNumberKind(damage, false) && number.position == at
  }

  class BattleForm {
    const player1: Fighter
    const player2: Fighter
    /** `picPlayer1.Bounds` and `picPlayer2.Bounds`, as laid out by the window. */
    const box1: Rect
    const box2: Rect
    var player1Turn: bool
    var isAttacking: bool
    var player1Attacking: bool
    var player2Attacking: bool
    var currentAttackFrame: int
    var activeEffects: seq<VisualEffect>
    var log: seq<LogEntry>
    var winnerName: Option<string>
    var timerRunning: bool

    ghost predicate Valid()
      reads player1, player2, this`currentAttackFrame, this`isAttacking
      reads this`player1Attacking, this`player2Attacking, this`activeEffects, activeEffects
    {
      PlayersValid() && PoseValid() && EffectsValid()
    }

    /** Two distinct fighters, each at its archetype's maximum health. */
    ghost predicate PlayersValid()
      reads player1, player2
    {
      && player1 != player2 && player1.Valid() && player2.Valid()
      && player1.maxHealth == BaseMaxHealth(player1.archetype)
      && player2.maxHealth == BaseMaxHealth(player2.archetype)
    }

    /** At most one fighter is shown attacking, and only during an attack. */
    ghost predicate PoseValid()
      reads this`currentAttackFrame, this`isAttacking, this`player1Attacking, this`player2Attacking
    {
      && 0 <= currentAttackFrame < AttackAnimationFrames
      && !(player1Attacking && player2Attacking)
      && (player1Attacking || player2Attacking ==> isAttacking)
    }

    /** The form's state when `StartBattle` has created the two fighters. */
    constructor (p1: Fighter, p2: Fighter, bounds1: Rect, bounds2: Rect)
      requires p1 != p2 && p1.Valid() && p2.Valid()
      requires p1.maxHealth == BaseMaxHealth(p1.archetype) && p2.maxHealth == BaseMaxHealth(p2.archetype)
      ensures Valid()
      ensures player1 == p1 && player2 == p2 && box1 == bounds1 && box2 == bounds2
      ensures !isAttacking && !player1Attacking && !player2Attacking && currentAttackFrame == 0
      ensures activeEffects == [] && log == [] && winnerName == None && !timerRunning
    {
      player1, player2 := p1, p2;
      box1, box2 := bounds1, bounds2;
      player1Turn := false;
      isAttacking, player1Attacking, player2Attacking := false, false, false;
      currentAttackFrame := 0;
      activeEffects, log := [], [];
      winnerName := None;
      timerRunning := false;
    }

    /** The effect list holds distinct objects, each in a consistent state. */
    ghost predicate EffectsValid()
      reads this`activeEffects, activeEffects
    {
      Distinct(activeEffects) && forall k :: 0 <= k < |activeEffects| ==> activeEffects[k].Valid()
    }

    /** The first half of `AnimationTimer_Tick`: while an attack is shown the pose advances one
        frame, and on the fifth frame it resets and every attacking flag is cleared. */
    method AdvanceAttackFrame()
      requires 0 <= currentAttackFrame < AttackAnimationFrames
      requires !(player1Attacking && player2Attacking) && (player1Attacking || player2Attacking ==> isAttacking)
      modifies this`currentAttackFrame, this`isAttacking, this`player1Attacking, this`player2Attacking
      ensures 0 <= currentAttackFrame < AttackAnimationFrames
      ensures !(player1Attacking && player2Attacking) && (player1Attacking || player2Attacking ==> isAttacking)
      ensures old(isAttacking) && old(currentAttackFrame) + 1 >= AttackAnimationFrames ==>
        currentAttackFrame == 0 && !isAttacking && !player1Attacking && !player2Attacking
      ensures old(isAttacking) && old(currentAttackFrame) + 1 < AttackAnimationFrames ==>
        currentAttackFrame == old(currentAttackFrame) + 1 && isAttacking
        && player1Attacking == old(player1Attacking) && player2Attacking == old(player2Attacking)
      ensures !old(isAttacking) ==>
        currentAttackFrame == old(currentAttackFrame) && !isAttacking
        && player1Attacking == old(player1Attacking) && player2Attacking == old(player2Attacking)
    {
      if isAttacking {
        currentAttackFrame := currentAttackFrame + 1;
        if currentAttackFrame >= AttackAnimationFrames {
          currentAttackFrame := 0;
          isAttacking := false;
          player1Attacking := false;
          player2Attacking := false;
        }
      }
    }

    /** The culling loop's state: of the effects `effects` the loop started from, with update
        counts `times`, all are still consistent; those from `updated` on have been updated once,
        and those after `i` also culled. */
    ghost predicate Culling(effects: seq<VisualEffect>, times: seq<nat>, i: int, updated: int)
      reads this`activeEffects, effects
    {
      && -1 <= i < |effects| && |times| == |effects| && Distinct(effects)
      && activeEffects == effects[..i + 1] + Survivors(effects[i + 1..])
      && (forall k :: 0 <= k < |effects| ==> effects[k].Valid())
      && (forall k :: 0 <= k < |effects| && k < updated ==> effects[k].currentTime == times[k])
      && (forall k :: 0 <= k < |effects| && updated <= k ==> effects[k].currentTime == times[k] + 1)
    }

    /** `activeEffects[i].Update()`. */
    method UpdateAt(i: int, ghost effects: seq<VisualEffect>, ghost times: seq<nat>)
      requires 0 <= i && Culling(effects, times, i, i + 1)
      modifies effects[i]
      ensures Culling(effects, times, i, i)
    {
      assert forall k :: 0 <= k < |effects| && k != i ==> effects[k] != effects[i];
      assert effects[i] !in effects[i + 1..] by {
        forall k | i + 1 <= k < |effects| ensures effects[k] != effects[i] {
        }
      }
      ghost var rest := Survivors(effects[i + 1..]);
      assert activeEffects[i] == effects[i];
      activeEffects[i].Update();
      assert Survivors(effects[i + 1..]) == rest;
    }

    /** `if (activeEffects[i].IsComplete) activeEffects.RemoveAt(i);` */
    method CullAt(i: int, ghost effects: seq<VisualEffect>, ghost times: seq<nat>)
      requires 0 <= i && Culling(effects, times, i, i)
      modifies this`activeEffects
      ensures Culling(effects, times, i - 1, i)
    {
      ghost var rest := Survivors(effects[i + 1..]);
      assert activeEffects[i] == effects[i];
      assert effects[i..][1..] == effects[i + 1..];
      assert effects[..i + 1] == effects[..i] + [effects[i]];
      if activeEffects[i].isComplete {
        assert Survivors(effects[i..]) == rest;
        RemoveAt(effects[..i], effects[i], rest);
        activeEffects := activeEffects[..i] + activeEffects[i + 1..];
      } else {
        assert Survivors(effects[i..]) == [effects[i]] + rest;
      }
    }

    /** The update counts of a list of effects. */
    ghost function Times(s: seq<VisualEffect>): (t: seq<nat>)
      reads s
      ensures |t| == |s| && forall k :: 0 <= k < |s| ==> t[k] == s[k].currentTime
    {
      if s == [] then [] else [s[0].currentTime] + Times(s[1..])
    }

    /** The second half of `AnimationTimer_Tick`: walks the effects from the back, updating each
        once and removing it in place if that update completed it. */
    method AgeEffects()
      requires EffectsValid()
      modifies this`activeEffects, activeEffects
      ensures EffectsValid()
      ensures forall k :: 0 <= k < |old(activeEffects)| ==>
        old(activeEffects)[k].currentTime == old(activeEffects[k].currentTime) + 1
      ensures activeEffects == Survivors(old(activeEffects))
      ensures forall k :: 0 <= k < |activeEffects| ==> !activeEffects[k].isComplete
    {
      ghost var effects := activeEffects;
      ghost var times := Times(effects);
      CullingStart(effects, times);
      CullLoop(effects, times);
      CullingDone(effects, times);
    }

    /** Before the loop nothing has been updated or culled. */
    lemma CullingStart(effects: seq<VisualEffect>, times: seq<nat>)
      requires EffectsValid() && effects == activeEffects && times == Times(effects)
      ensures Culling(effects, times, |effects| - 1, |effects|)
    {
      assert effects[|effects|..] == [] && effects[..|effects|] == effects;
    }

    /** After the loop every effect has been updated once and the list holds the survivors. */
    lemma CullingDone(effects: seq<VisualEffect>, times: seq<nat>)
      requires Culling(effects, times, -1, 0)
      ensures EffectsValid() && activeEffects == Survivors(effects)
      ensures forall k :: 0 <= k < |activeEffects| ==> !activeEffects[k].isComplete
      ensures forall k :: 0 <= k < |effects| ==> effects[k].currentTime == times[k] + 1
    {
      assert effects[..0] == [] && effects[0..] == effects;
      SurvivorsDistinct(effects);
      SurvivorsValid(effects);
    }

    /** `for (int i = activeEffects.Count - 1; i >= 0; i--)`: the loop of `AgeEffects`. */
    method CullLoop(ghost effects: seq<VisualEffect>, ghost times: seq<nat>)
      requires Culling(effects, times, |activeEffects| - 1, |activeEffects|)
      modifies this`activeEffects, effects
      ensures Culling(effects, times, -1, 0)
    {
      var i := |activeEffects| - 1;
      while i >= 0
        invariant Culling(effects, times, i, i + 1)
        decreases i + 1
      {
        UpdateAt(i, effects, times);
        CullAt(i, effects, times);
        i := i - 1;
      }
    }

    /** `AnimationTimer_Tick`: one tick of the 50 ms animation timer. */
    method AnimationTick()
      requires Valid()
      modifies this`currentAttackFrame, this`isAttacking, this`player1Attacking, this`player2Attacking
      modifies this`activeEffects, activeEffects
      ensures Valid()
      ensures old(isAttacking) && old(currentAttackFrame) + 1 >= AttackAnimationFrames ==>
        currentAttackFrame == 0 && !isAttacking && !player1Attacking && !player2Attacking
      ensures old(isAttacking) && old(currentAttackFrame) + 1 < AttackAnimationFrames ==>
        currentAttackFrame == old(currentAttackFrame) + 1 && isAttacking
        && player1Attacking == old(player1Attacking) && player2Attacking == old(player2Attacking)
      ensures !old(isAttacking) ==>
        currentAttackFrame == old(currentAttackFrame) && !isAttacking
        && player1Attacking == old(player1Attacking) && player2Attacking == old(player2Attacking)
      ensures forall k :: 0 <= k < |old(activeEffects)| ==>
        old(activeEffects)[k].currentTime == old(activeEffects[k].currentTime) + 1
      ensures activeEffects == Survivors(old(activeEffects))
      ensures forall k :: 0 <= k < |activeEffects| ==> !activeEffects[k].isComplete
    {
      AdvanceAttackFrame();
      AgeEffects();
    }

    /** The body of one pass of `StartBattle`'s loop, up to the flag flip: shows the attack pose,
        lets the attacker strike the defender, spawns a hit burst and a damage number at the
        defender's anchor point, logs the strike and passes the turn. */
    method ResolveTurn(roll: Roll) returns (damage: int)
      requires Valid()
      modifies this`player1Turn, this`isAttacking, this`player1Attacking, this`player2Attacking,
               this`currentAttackFrame, this`activeEffects, this`log,
               player1`style, player1`health, player2`style, player2`health
      ensures Valid()
      ensures isAttacking && currentAttackFrame == 0
      ensures player1Attacking == old(player1Turn) && player2Attacking == !old(player1Turn)
      ensures player1Turn == !old(player1Turn)
      ensures old(player1Turn) ==>
        StrikeResult(player1.Snapshot(), player2.Snapshot(), damage)
        == Strike(old(player1.Snapshot()), old(player2.Snapshot()), roll)
      ensures !old(player1Turn) ==>
        StrikeResult(player2.Snapshot(), player1.Snapshot(), damage)
        == Strike(old(player2.Snapshot()), old(player1.Snapshot()), roll)
      ensures log == old(log) + [Struck(if old(player1Turn) then StrikeEvent(player1.name, player2.name, damage)
                                        else StrikeEvent(player2.name, player1.name, damage))]
      ensures |activeEffects| == |old(activeEffects)| + 2
      ensures activeEffects[..|old(activeEffects)|] == old(activeEffects)
      ensures fresh(activeEffects[|old(activeEffects)|]) && fresh(activeEffects[|old(activeEffects)| + 1])
      ensures SpawnedPair(activeEffects[|old(activeEffects)|], activeEffects[|old(activeEffects)| + 1],
                          AnchorPoint(if old(player1Turn) then box2 else box1), damage)
    {
      BeginAttack();
      damage := StrikeInTurn(roll);
      SpawnEffects(AnchorPoint(if player1Turn then box2 else box1), damage);
      log := log + [Struck(if player1Turn then StrikeEvent(player1.name, player2.name, damage)
                           else StrikeEvent(player2.name, player1.name, damage))];
      player1Turn := !player1Turn;
    }

    /** The attack pose: frame 0, with the attacker's picture marked as attacking. */
    method BeginAttack()
      modifies this`currentAttackFrame, this`isAttacking, this`player1Attacking, this`player2Attacking
      ensures PoseValid()
      ensures isAttacking && currentAttackFrame == 0
      ensures player1Attacking == player1Turn && player2Attacking == !player1Turn
    {
      isAttacking := true;
      currentAttackFrame := 0;
      player1Attacking := player1Turn;
      player2Attacking := !player1Turn;
    }

    /** `damage = attacker.Attack(); defender.TakeDamage(damage);` with the attacker chosen by
        the turn flag. */
    method StrikeInTurn(roll: Roll) returns (damage: int)
      requires PlayersValid()
      modifies player1`style, player1`health, player2`style, player2`health
      ensures PlayersValid()
      ensures player1Turn ==>
        StrikeResult(player1.Snapshot(), player2.Snapshot(), damage)
        == Strike(old(player1.Snapshot()), old(player2.Snapshot()), roll)
      ensures !player1Turn ==>
        StrikeResult(player2.Snapshot(), player1.Snapshot(), damage)
        == Strike(old(player2.Snapshot()), old(player1.Snapshot()), roll)
    {
      if player1Turn {
        damage := PerformStrike(player1, player2, roll);
      } else {
        damage := PerformStrike(player2, player1, roll);
      }
    }

    /** `activeEffects.Add(new HitEffect(p))` then `activeEffects.Add(new DamageNumberEffect(p,
        damage))`; the damage number takes the constructor's default, not critical. */
    method SpawnEffects(at: Point, damage: int)
      requires EffectsValid()
      modifies this`activeEffects
      ensures EffectsValid()
      ensures |activeEffects| == |old(activeEffects)| + 2
      ensures activeEffects[..|old(activeEffects)|] == old(activeEffects)
      ensures fresh(activeEffects[|old(activeEffects)|]) && fresh(activeEffects[|old(activeEffects)| + 1])
      ensures SpawnedPair(activeEffects[|old(activeEffects)|], activeEffects[|old(activeEffects)| + 1], at, damage)
      ensures activeEffects[|old(activeEffects)|].currentTime == 0
      ensures activeEffects[|old(activeEffects)| + 1].currentTime == 0
    {
      var hit := new VisualEffect.HitEffect(at);
      var number := new VisualEffect.DamageNumberEffect(at, damage, false);
      activeEffects := activeEffects + [hit, number];
    }

    /** After the attack animation's delay: the attack pose is dropped. */
    method FinishTurn()
      requires Valid()
      modifies this`isAttacking, this`player1Attacking, this`player2Attacking
      ensures Valid()
      ensures !isAttacking && !player1Attacking && !player2Attacking
    {
      isAttacking := false;
      player1Attacking := false;
      player2Attacking := false;
    }

    /** The current fighters and turn flag, `OnCourseOf` the reference fight `goal`. */
    ghost predicate OnCourse(goal: BattleRecord, done: seq<StrikeEvent>, turns: nat, rng: RandomSource)
      reads this`player1Turn, player1, player2
      requires player1.Valid() && player2.Valid()
    {
      OnCourseOf(player1.Snapshot(), player2.Snapshot(), player1Turn, goal, done, turns, rng)
    }

    /** The effects spawned by the turns so far, two per turn after the first `n0`: turn `k`
        hits player 2's box exactly when player 1 attacked, that is when `k` is even and player 1
        went first or `k` is odd and player 2 did. */
    ghost predicate TurnEffects(n0: nat, first: bool, done: seq<StrikeEvent>)
      reads this`activeEffects
    {
      SpawnedFor(activeEffects, n0, first, done, AnchorPoint(box1), AnchorPoint(box2))
    }

    /** One pass of the loop, with the turn's roll drawn from `rng` at `turns`: the reference
        fight and the effect list both advance by one turn. */
    method PlayTurn(rng: RandomSource, turns: nat, ghost goal: BattleRecord, ghost done: seq<StrikeEvent>,
                    ghost n0: nat, ghost first: bool)
      returns (ghost done': seq<StrikeEvent>)
      requires Valid() && player1.health > 0 && player2.health > 0
      requires |done| == turns && player1Turn == ((turns % 2 == 0) == first)
      requires OnCourse(goal, done, turns, rng) && TurnEffects(n0, first, done)
      modifies this`player1Turn, this`isAttacking, this`player1Attacking, this`player2Attacking,
               this`currentAttackFrame, this`activeEffects, this`log,
               player1`style, player1`health, player2`style, player2`health
      ensures Valid()
      ensures |done'| == turns + 1 && player1Turn == (((turns + 1) % 2 == 0) == first)
      ensures done' == done + [done'[turns]]
      ensures OnCourse(goal, done', turns + 1, rng) && TurnEffects(n0, first, done')
      ensures activeEffects[..|old(activeEffects)|] == old(activeEffects)
      ensures log == old(log) + [Struck(done'[turns])]
      ensures !isAttacking && !player1Attacking && !player2Attacking
      ensures player1.health + player2.health < old(player1.health + player2.health)
    {
      ghost var c1, c2, flag := player1.Snapshot(), player2.Snapshot(), player1Turn;
      ghost var before := activeEffects;
      var damage := ResolveTurn(rng(turns));
      FinishTurn();
      ghost var event := if flag then StrikeEvent(c1.name, c2.name, damage) else StrikeEvent(c2.name, c1.name, damage);
      done' := done + [event];
      AdvanceCourse(c1, c2, flag, goal, done, turns, rng);
      Numeric.ParityFlips(turns);
      SpawnedForSnoc(before, activeEffects, n0, first, done, event, AnchorPoint(box1), AnchorPoint(box2));
    }

    /** What the turn loop keeps while it plays the turns of the reference fight `s.goal`, with
        `done` the events of the `turns` turns played so far: the form stays valid and on
        course, and the effects and the log grow by exactly those turns. */
    ghost predicate Playing(rng: RandomSource, s: LoopStart, turns: nat, done: seq<StrikeEvent>)
      reads this, player1, player2, activeEffects
    {
      && Valid()
      && |done| == turns && player1Turn == ((turns % 2 == 0) == s.first)
      && OnCourse(s.goal, done, turns, rng)
      && TurnEffects(|s.effects|, s.first, done) && activeEffects[..|s.effects|] == s.effects
      && log == s.log + StrikeLog(done)
      && (turns > 0 ==> !isAttacking && !player1Attacking && !player2Attacking)
    }

    /** One more turn played on top of a `Playing` state, whose effects were `before` and
        whose log was `log0`, is again `Playing`. */
    lemma PlayingAgain(rng: RandomSource, s: LoopStart, turns: nat, done: seq<StrikeEvent>,
                       done': seq<StrikeEvent>, before: seq<VisualEffect>, log0: seq<LogEntry>)
      requires |s.effects| <= |before| && before[..|s.effects|] == s.effects
      requires log0 == s.log + StrikeLog(done)
      requires Valid()
      requires |done'| == turns + 1 && player1Turn == (((turns + 1) % 2 == 0) == s.first)
      requires done' == done + [done'[turns]]
      requires OnCourse(s.goal, done', turns + 1, rng) && TurnEffects(|s.effects|, s.first, done')
      requires |before| <= |activeEffects| && activeEffects[..|before|] == before
      requires log == log0 + [Struck(done'[turns])]
      requires !isAttacking && !player1Attacking && !player2Attacking
      ensures Playing(rng, s, turns + 1, done')
    {
      PrefixOfExtension(before, activeEffects, |s.effects|);
      StrikeLogSnoc(done, done'[turns]);
    }

    /** One pass of the loop body, keeping `Playing`. */
    method Step(rng: RandomSource, turns: nat, ghost s: LoopStart, ghost done: seq<StrikeEvent>)
      returns (ghost done': seq<StrikeEvent>)
      requires Playing(rng, s, turns, done) && player1.health > 0 && player2.health > 0
      modifies this`player1Turn, this`isAttacking, this`player1Attacking, this`player2Attacking,
               this`currentAttackFrame, this`activeEffects, this`log,
               player1`style, player1`health, player2`style, player2`health
      ensures Playing(rng, s, turns + 1, done')
      ensures player1.health + player2.health < old(player1.health + player2.health)
    {
      ghost var before, log0 := activeEffects, log;
      done' := PlayTurn(rng, turns, s.goal, done, |s.effects|, s.first);
      PlayingAgain(rng, s, turns, done, done', before, log0);
    }

    /** `while (player1.Health > 0 && player2.Health > 0)`: plays turns until a fighter is down,
        staying on course for the reference fight `goal` that started with `first` to move. */
    method RunTurns(rng: RandomSource, ghost goal: BattleRecord, ghost first: bool)
      returns (turns: nat, ghost done: seq<StrikeEvent>)
      requires Valid() && player1Turn == first && OnCourse(goal, [], 0, rng)
      modifies this`player1Turn, this`isAttacking, this`player1Attacking, this`player2Attacking,
               this`currentAttackFrame, this`activeEffects, this`log,
               player1`style, player1`health, player2`style, player2`health
      ensures Valid()
      ensures player1.Snapshot() == goal.p1 && player2.Snapshot() == goal.p2
      ensures player1Turn == goal.player1Turn && turns == goal.turns && done == goal.strikes
      ensures TurnEffects(|old(activeEffects)|, first, goal.strikes)
      ensures activeEffects[..|old(activeEffects)|] == old(activeEffects)
      ensures log == old(log) + StrikeLog(goal.strikes)
      ensures turns > 0 ==> !isAttacking && !player1Attacking && !player2Attacking
    {
      ghost var s := LoopStart(goal, first, activeEffects, log);
      done := [];
      turns := 0;
      assert log + StrikeLog(done) == log;
      assert activeEffects[..|activeEffects|] == activeEffects;

      while player1.health > 0 && player2.health > 0
        invariant Playing(rng, s, turns, done)
        decreases player1.health + player2.health
      {
        done := Step(rng, turns, s, done);
        turns := turns + 1;
      }
      CourseComplete(player1.Snapshot(), player2.Snapshot(), player1Turn, goal, done, turns, rng);
    }

    /** `txtLog.Clear()`, `animationTimer.Start()`, the coin toss and the three opening lines. */
    method OpenBattle(player1First: bool)
      requires Valid()
      modifies this`log, this`timerRunning, this`player1Turn
      ensures Valid()
      ensures player1Turn == player1First && timerRunning
      ensures log == [BattleBegins, GoesFirst(if player1First then player1.name else player2.name), BlankLine]
    {
      log := [];
      timerRunning := true;
      player1Turn := player1First;
      log := log + [BattleBegins, GoesFirst(if player1Turn then player1.name else player2.name), BlankLine];
    }

    /** `animationTimer.Stop()`, then the winner is the fighter still alive and is announced. */
    method CloseBattle()
      requires Valid()
      modifies this`log, this`timerRunning, this`winnerName
      ensures Valid()
      ensures !timerRunning
      ensures winnerName == Some(if player1.health > 0 then player1.name else player2.name)
      ensures log == old(log) + [BlankLine, Victorious(winnerName.value)]
    {
      timerRunning := false;
      winnerName := Some(if player1.health > 0 then player1.name else player2.name);
      log := log + [BlankLine, Victorious(winnerName.value)];
    }

    /** The battle has ended as the reference fight `r` says, `first` having moved first and the
        effects list having held `n0` effects before it: the fighters, the turn flag and the turn
        count are `r`'s, the winner and the log are announced from `r`, and every turn of `r`
        has spawned its pair of effects. */
    ghost predicate Concluded(r: BattleRecord, first: bool, effects0: seq<VisualEffect>, turns: nat)
      reads this, player1, player2
      requires player1.Valid() && player2.Valid()
    {
      && player1.Snapshot() == r.p1 && player2.Snapshot() == r.p2
      && player1Turn == r.player1Turn && turns == r.turns
      && winnerName == Some(Winner(r))
      && log == BattleLog(if first then player1.name else player2.name, r)
      && TurnEffects(|effects0|, first, r.strikes) && activeEffects[..|effects0|] == effects0
    }

    /** `CloseBattle` at the end of the reference fight `goal`: the turn loop has played all of
        `goal`'s turns, so the battle ends `Concluded` as `goal` says. */
    method Conclude(ghost goal: BattleRecord, ghost first: bool, ghost effects0: seq<VisualEffect>, turns: nat)
      requires Valid()
      requires player1.Snapshot() == goal.p1 && player2.Snapshot() == goal.p2
      requires player1Turn == goal.player1Turn && turns == goal.turns
      requires (goal.p1.health == 0) != (goal.p2.health == 0)
      requires log == [BattleBegins, GoesFirst(if first then player1.name else player2.name), BlankLine]
                      + StrikeLog(goal.strikes)
      requires TurnEffects(|effects0|, first, goal.strikes) && activeEffects[..|effects0|] == effects0
      modifies this`log, this`timerRunning, this`winnerName
      ensures Valid() && Concluded(goal, first, effects0, turns)
      ensures activeEffects == old(activeEffects)
      ensures (player1.health == 0) != (player2.health == 0)
      ensures winnerName == Some(if player1.health > 0 then player1.name else player2.name)
      ensures isAttacking == old(isAttacking) && player1Attacking == old(player1Attacking)
      ensures player2Attacking == old(player2Attacking) && !timerRunning
    {
      CloseBattle();
    }

    /** `StartBattle` once both fighters exist: opens the log, runs turns while both fighters are
        alive, then closes the battle. Every turn draws the next roll from `rng`. */
    method RunBattle(player1First: bool, rng: RandomSource) returns (turns: nat)
      requires Valid() && player1.health > 0 && player2.health > 0
      modifies this`player1Turn, this`isAttacking, this`player1Attacking, this`player2Attacking,
               this`currentAttackFrame, this`activeEffects, this`log, this`timerRunning, this`winnerName,
               player1`style, player1`health, player2`style, player2`health
      ensures Valid()
      ensures Concluded(Fight(old(player1.Snapshot()), old(player2.Snapshot()), player1First, rng, 0),
                        player1First, old(activeEffects), turns)
      ensures 1 <= turns <= 23
      ensures (player1.health == 0) != (player2.health == 0)
      ensures winnerName == Some(if player1.health > 0 then player1.name else player2.name)
      ensures !isAttacking && !player1Attacking && !player2Attacking && !timerRunning
    {
      ghost var c1, c2 := player1.Snapshot(), player2.Snapshot();
      ghost var goal := Fight(c1, c2, player1First, rng, 0);
      ghost var effects0 := activeEffects;
      BattleBounds(c1, c2, player1First, rng);
      OpenBattle(player1First);
      assert activeEffects == effects0;
      ghost var done;
      turns, done := RunTurns(rng, goal, player1First);
      Conclude(goal, player1First, effects0, turns);
    }

    /** `new BattleForm(player1Name, char1Type, player2Name, char2Type)`: its `StartBattle`
        builds both fighters with `CreateCharacter`, where a failure is the critical error that
        closes the window, and then fights the battle out from the coin toss `player1First`. */
    static method Launch(player1Name: string, char1Type: string, player2Name: string, char2Type: string,
                         bounds1: Rect, bounds2: Rect, player1First: bool, rng: RandomSource)
      returns (r: Result<BattleForm, FighterError>)
      ensures r.Failure? <==> ArchetypeOf(char1Type).None? || IsBlank(player1Name)
                              || ArchetypeOf(char2Type).None? || IsBlank(player2Name)
      ensures ArchetypeOf(char1Type).None? ==> r == Failure(UnknownChampion(char1Type))
      ensures ArchetypeOf(char1Type).Some? && IsBlank(player1Name) ==> r == Failure(BlankName)
      ensures ArchetypeOf(char1Type).Some? && !IsBlank(player1Name) && ArchetypeOf(char2Type).None? ==>
        r == Failure(UnknownChampion(char2Type))
      ensures r.Success? ==>
        var goal := Fight(Recruit(ArchetypeOf(char1Type).value, Trim(player1Name)),
                          Recruit(ArchetypeOf(char2Type).value, Trim(player2Name)), player1First, rng, 0);
        && fresh(r.value) && r.value.Valid() && r.value.Concluded(goal, player1First, [], goal.turns)
        && (r.value.player1.health == 0) != (r.value.player2.health == 0)
    {
      var made1 := CreateCharacter(char1Type, player1Name);
      if made1.Failure? {
        return Failure(made1.error);
      }
      var made2 := CreateCharacter(char2Type, player2Name);
      if made2.Failure? {
        return Failure(made2.error);
      }
      var form := Open(made1.value, made2.value, bounds1, bounds2, player1First, rng);
      r := Success(form);
    }

    /** The window built around two fresh fighters at full health, with the battle between them
        fought to its end. */
    static method Open(p1: Fighter, p2: Fighter, bounds1: Rect, bounds2: Rect, player1First: bool,
                       rng: RandomSource)
      returns (form: BattleForm)
      requires p1 != p2 && p1.Valid() && p2.Valid() && p1.health > 0 && p2.health > 0
      requires p1.maxHealth == BaseMaxHealth(p1.archetype) && p2.maxHealth == BaseMaxHealth(p2.archetype)
      modifies p1, p2
      ensures fresh(form) && form.Valid() && form.player1 == p1 && form.player2 == p2
      ensures var goal := Fight(old(p1.Snapshot()), old(p2.Snapshot()), player1First, rng, 0);
        form.Concluded(goal, player1First, [], goal.turns)
      ensures (p1.health == 0) != (p2.health == 0)
    {
      form := new BattleForm(p1, p2, bounds1, bounds2);
      var turns := form.RunBattle(player1First, rng);
    }
  }

  /** The effects after the first `n0` are the pairs spawned by the turns `done`, two per turn:
      turn `k` spawns at `at2`, player 2's anchor, exactly when player 1 attacked, that is when
      `k` is even and player 1 went first or `k` is odd and player 2 did; otherwise at `at1`. */
  predicate SpawnedFor(effects: seq<VisualEffect>, n0: nat, first: bool, done: seq<StrikeEvent>,
                       at1: Point, at2: Point)
  {
    && |effects| == n0 + 2 * |done|
    && forall k :: 0 <= k < |done| ==>
      SpawnedPair(effects[n0 + 2 * k], effects[n0 + 2 * k + 1],
                  if (k % 2 == 0) == first then at2 else at1, done[k].damage)
  }

  /** A turn that appends its pair of effects extends `SpawnedFor` by that turn. */
  lemma SpawnedForSnoc(effects: seq<VisualEffect>, effects': seq<VisualEffect>, n0: nat, first: bool,
                       done: seq<StrikeEvent>, e: StrikeEvent, at1: Point, at2: Point)
    requires SpawnedFor(effects, n0, first, done, at1, at2)
    requires |effects'| == |effects| + 2 && effects'[..|effects|] == effects
    requires SpawnedPair(effects'[|effects|], effects'[|effects| + 1],
                         if (|done| % 2 == 0) == first then at2 else at1, e.damage)
    ensures SpawnedFor(effects', n0, first, done + [e], at1, at2)
  {
    forall k | 0 <= k < |done|
      ensures effects'[n0 + 2 * k] == effects[n0 + 2 * k] && effects'[n0 + 2 * k + 1] == effects[n0 + 2 * k + 1]
    {
      assert effects'[..|effects|][n0 + 2 * k] == effects'[n0 + 2 * k];
      assert effects'[..|effects|][n0 + 2 * k + 1] == effects'[n0 + 2 * k + 1];
    }
  }

  /** A prefix of a sequence is a prefix of every extension of it. */
  lemma PrefixOfExtension<T>(a: seq<T>, b: seq<T>, n: nat)
    requires n <= |a| <= |b| && b[..|a|] == a
    ensures b[..n] == a[..n]
  {
    assert b[..n] == b[..|a|][..n];
  }

  /** The state the turn loop starts from: the reference fight it follows, who moves first, and
      the effects and the log it found. */
  datatype LoopStart = LoopStart(goal: BattleRecord, first: bool, effects: seq<VisualEffect>,
                                 log: seq<LogEntry>)
}

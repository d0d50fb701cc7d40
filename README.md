# Classmates RPG battle core, modelled in Dafny

The Classmates RPG demo lets two champions fight each other turn by turn while a window
animates them. This project models every part of it that is not drawing:

- the fighter entity `ClassFighter` and its three archetypes. The Crusader empowers every third
  strike. The Adventurer alternates between quick strikes and power strikes, guided by its last
  result. The Sorcerer sometimes lands a critical hit;
- the self-aging visual effects (`HitEffect`, `DamageNumberEffect`) and the arithmetic their
  `Draw` methods do before calling the graphics library;
- the two battle windows. `BattleForm` holds the richer engine: turn loop, attack pose, effect
  spawning and culling. `Form1` is the window the program actually opens: setup checks,
  character creation, health-label colours and its own turn loop.

Modules, one per source component:

| file | module | source |
|---|---|---|
| `wrappers.dfy` | `Wrappers` | `Option`/`Result`/`Outcome` for the exceptions the code throws |
| `numeric.dfy` | `Numeric` | 32-bit `int` wrap-around, `Math.Min/Max/Clamp` |
| `text.dfy` | `Text` | `char.IsWhiteSpace`, `string.Trim`, `int.ToString` |
| `archetypes.dfy` | `Archetypes` | the three `Attack()` overrides as pure steps |
| `fighters.dfy` | `Fighters` | `ClassFighter` as a class, the `CreateCharacter` switch |
| `effects.dfy` | `Effects` | `VisualEffect` and its two subclasses |
| `duel.dfy` | `Duel` | the reference battle on values that both windows are proved to follow |
| `battle_form.dfy` | `BattleEngine` | `BattleForm` |
| `form1.dfy` | `MainForm` | `Form1` |

Design in brief:

- **Randomness is a parameter.** `Fighter.Attack(draw, critRoll)` takes the value that
  `Random.Next(lo, hi)` returned and requires it to be in the range of that call. Whole
  battles take a random source `rng: nat -> Roll`. `Pick` maps such a source into the legal
  range, and `PickReaches` shows that this loses no behaviour.
- **One reference battle.** `Duel.Fight` is the battle as a recursive function on values.
  The imperative loops of both windows (`BattleForm.RunBattle`, `Form1.StartBattle`) are
  proved to end in exactly the state `Fight` computes. The lemmas about `Fight` then hold for
  both windows: one survivor, alternating attackers, at most 23 turns.
- **Time is counted in updates.** An `Update` adds 0.05 s in single precision. Ten steps reach
  0.5 s and twenty reach 1.0 s, while nine and nineteen stay below. So a hit effect completes on
  its 10th update and a damage number on its 20th.
- **Float arithmetic.** The damage arithmetic is exact: `(int)(b * 1.8f)` is `b * 9 / 5` for
  every Crusader draw, and `(int)(b * 1.5f)` is `b * 3 / 2`. The glow and fill alphas,
  `(int)(a * 0.3f)` and `(int)(a * 0.5f)`, are exact too. The drawing progress is not: the model
  uses the exact quotient of update counts. The program divides a single-precision sum of
  0.05 steps, which lies slightly above that quotient. Interpolation, fading and scaling are
  then modelled on `real` with explicit truncation toward zero, so a colour channel drawn
  between the first and the last update can be one above the program's (see "Left out").

Where the code and the design description differ, the model follows the code:

- A completed effect is removed in the same tick as the update that completed it, not on the
  next tick.
- The damage number a turn spawns is always non-critical (`BattleForm.cs:904`). No criticality
  reaches the engine.
- `player1Turn` is a local variable of `StartBattle` in `BattleForm`. The model keeps it as a
  field of the window so that the turn step can be a method of its own.

## Model

| member | source | states |
|---|---|---|
| `Numeric.Wrap32` | Final_LabExam/FINAL_EXAM/ClassicFighter.cs:69 | an unchecked 32-bit sum is the exact sum reduced into the `int` range, and it equals the exact sum when that fits |
| `Numeric.Min` | Final_LabExam/FINAL_EXAM/ClassicFighter.cs:69 | `Math.Min` returns one of its arguments, no larger than either |
| `Numeric.Max` | Final_LabExam/FINAL_EXAM/ClassicFighter.cs:60 | `Math.Max` returns one of its arguments, no smaller than either |
| `Numeric.Clamp` | Final_LabExam/FINAL_EXAM/ClassicFighter.cs:40 | `Math.Clamp` returns a value in `[lo, hi]`, the value itself when it is inside, the nearer bound otherwise |
| `Text.AsciiWhiteSpace` | Final_LabExam/FINAL_EXAM/ClassicFighter.cs:18 | among ASCII characters, `char.IsWhiteSpace` holds exactly for the space and tab through carriage return (the model also covers the other Unicode white space) |
| `Text.Trim` | Final_LabExam/FINAL_EXAM/ClassicFighter.cs:20 | the trimmed text is no longer than the input and neither starts nor ends with white space |
| `Text.TrimIsSlice` | Final_LabExam/FINAL_EXAM/ClassicFighter.cs:20 | `Trim` returns a contiguous slice of its input, and everything cut away at either end is white space |
| `Text.BlankIffTrimsToEmpty` | Final_LabExam/FINAL_EXAM/ClassicFighter.cs:18 | `IsNullOrWhiteSpace` holds exactly when trimming leaves the empty string |
| `Text.TrimIdempotent` | Final_LabExam/FINAL_EXAM/ClassicFighter.cs:51 | trimming twice (the constructor's `name.Trim()`, then the setter's) is trimming once |
| `Text.TrimmedNameIff` | Final_LabExam/FINAL_EXAM/ClassicFighter.cs:18-20 | the names the `Name` setter can store are exactly the non-blank strings that `Trim` leaves unchanged |
| `Text.NatToStringRoundTrip` | Final_LabExam/FINAL_EXAM/VisualEffects.cs:137 | the decimal text of the damage reads back as the same number |
| `Text.IntToString` | Final_LabExam/FINAL_EXAM/VisualEffects.cs:137 | `int.ToString()` is non-empty and made of digits and the minus sign |
| `Text.IntToStringRoundTrip` | Final_LabExam/FINAL_EXAM/VisualEffects.cs:137 | the text starts with a minus sign exactly for a negative value, and its digits read back as the magnitude |
| `Archetypes.BaseMaxHealth` | Final_LabExam/FINAL_EXAM/AnteMaloiCrusader.cs:13 | each archetype passes a positive maximum health of at most 120 to the base (Crusader 100, Adventurer 110, Sorcerer 120) |
| `Archetypes.InitialStyle` | Final_LabExam/FINAL_EXAM/TaoLangAdventurer.cs:9 | a new fighter starts with the counter at 0 (Crusader) or `lastDamage` at 0 (Adventurer), a legal private state of its own archetype |
| `Archetypes.DrawSpan` | Final_LabExam/FINAL_EXAM/TaoLangAdventurer.cs:21-24 | the next integer draw is from `[15,25)` (Crusader), `[12,25)` (Sorcerer), or from the inclusive `[10,15]` after a last hit above 20 and `[18,30]` otherwise (Adventurer) |
| `Archetypes.PickReaches` | Final_LabExam/FINAL_EXAM/AnteMaloiCrusader.cs:18 | every value `Random.Next(lo, hi)` can return is produced by some choice of the random source |
| `Archetypes.Empowered` | Final_LabExam/FINAL_EXAM/AnteMaloiCrusader.cs:25 | `(int)(base * 1.8f)` is the integer part of `9 * base / 5`, in `[27, 43]` for a base in 15..24 |
| `Archetypes.CriticalDamage` | Final_LabExam/FINAL_EXAM/TheOASorcerer.cs:19 | `(int)(base * 1.5f)` is the integer part of `3 * base / 2`, in `[18, 36]` for a base in 12..24 |
| `Archetypes.CrusaderAttack` | Final_LabExam/FINAL_EXAM/AnteMaloiCrusader.cs:15-29 | the counter advances modulo 3; the call that brings it to 3 is empowered and resets it, every other call returns the base draw; the result is in `[15, 43]` |
| `Archetypes.AdventurerAttack` | Final_LabExam/FINAL_EXAM/TaoLangAdventurer.cs:18-26 | the result is the new `lastDamage`; it is a quick strike in `[10,15]` after a last hit above 20, a power strike in `[18,30]` otherwise |
| `Archetypes.SorcererAttack` | Final_LabExam/FINAL_EXAM/TheOASorcerer.cs:14-20 | a critical hit returns `floor(3 * base / 2)` in `[18,36]`, a plain hit returns the base unchanged; the result is in `[12,36]` |
| `Archetypes.AttackStep` | Final_LabExam/FINAL_EXAM/ClassicFighter.cs:63 | every archetype's attack deals between 10 and 43 damage, keeps its private state legal and of its own kind, and the Sorcerer keeps no state |
| `Archetypes.CrusaderEveryThird` | Final_LabExam/FINAL_EXAM/AnteMaloiCrusader.cs:19-28 | in any run of Crusader attacks, call `k` is empowered exactly when the counter plus `k + 1` is a multiple of 3 (calls 3, 6, 9, ... from a fresh fighter) and otherwise returns its base draw |
| `Archetypes.AdventurerAlternates` | Final_LabExam/FINAL_EXAM/TaoLangAdventurer.cs:21-25 | along any legal run every result is in `[10,30]`, a quick strike is always followed by a power strike, and a hit above 20 by a quick strike |
| `Archetypes.FirstAdventurerAttackIsPower` | Final_LabExam/FINAL_EXAM/TaoLangAdventurer.cs:9-24 | the first attack of a fresh Adventurer is a power strike in `[18,30]` |
| `Fighters.CheckFighterArgs` | Final_LabExam/FINAL_EXAM/ClassicFighter.cs:46-49 | construction is refused exactly for a blank name (checked first) or a non-positive maximum health |
| `Fighters.DamagedHealth` | Final_LabExam/FINAL_EXAM/ClassicFighter.cs:60 | damage never raises health; health falls by the damage and reaches 0 exactly when the damage is at least the health |
| `Fighters.HealedHealth` | Final_LabExam/FINAL_EXAM/ClassicFighter.cs:69 | healing stays in `[0, MaxHealth]`; without overflow it is `min(MaxHealth, health + amount)` and never lowers health; when the 32-bit sum overflows, health becomes 0 |
| `Fighters.Fighter.constructor` | Final_LabExam/FINAL_EXAM/ClassicFighter.cs:44-54 | after the checks pass, the fighter has the trimmed name, the given maximum, full health and its archetype's initial state, and the invariant holds |
| `Fighters.Fighter.Create` | Final_LabExam/FINAL_EXAM/ClassicFighter.cs:44-54 | `new ClassFighter(...)` fails with the first failing check and produces no fighter; otherwise it yields a fresh valid fighter with `Name == name.Trim()` and `Health == MaxHealth` |
| `Fighters.Fighter.SetName` | Final_LabExam/FINAL_EXAM/ClassicFighter.cs:13-22 | a blank value is rejected and the name kept; otherwise the trimmed value is stored; the invariant holds |
| `Fighters.Fighter.TakeDamage` | Final_LabExam/FINAL_EXAM/ClassicFighter.cs:56-61 | negative damage fails and leaves health unchanged; otherwise health becomes `max(0, old - damage)`; health never increases; name and maximum are untouched |
| `Fighters.Fighter.Heal` | Final_LabExam/FINAL_EXAM/ClassicFighter.cs:65-70 | a negative amount fails and leaves health unchanged; otherwise health becomes the clamped 32-bit sum; name and maximum are untouched |
| `Fighters.Fighter.IsAlive` | Final_LabExam/FINAL_EXAM/ClassicFighter.cs:72 | a fighter is alive exactly when its health is not 0 |
| `Fighters.Fighter.Attack` | Final_LabExam/FINAL_EXAM/ClassicFighter.cs:63 | the override selected by the archetype deals what `AttackStep` says, between 10 and 43, and updates only the private state |
| `Fighters.ArchetypeOf` | Final_LabExam/FINAL_EXAM/Form1.cs:962-971 | a recognised selector is the selector string of the archetype it names |
| `Fighters.SelectorRoundTrip` | Final_LabExam/FINAL_EXAM/BattleForm.cs:966-975 | each archetype's selector string selects that archetype |
| `Fighters.UnknownSelectors` | Final_LabExam/FINAL_EXAM/BattleForm.cs:973 | every string other than the three selector strings is unknown |
| `Fighters.Recruit` | Final_LabExam/FINAL_EXAM/TheOASorcerer.cs:12 | a freshly built fighter is at full health, at most 120, with its archetype's legal initial state |
| `Fighters.CreateCharacter` | Final_LabExam/FINAL_EXAM/BattleForm.cs:966-975 | an unknown selector fails before any fighter exists; a known one with a blank name fails; otherwise a fresh valid fighter of that archetype at its base maximum health |
| `Effects.Truncate` | Final_LabExam/FINAL_EXAM/VisualEffects.cs:20 | the `(int)` cast truncates toward zero: the result is the integer at most 1 away from the value on the side of zero |
| `Effects.Progress` | Final_LabExam/FINAL_EXAM/VisualEffects.cs:51 | progress is in `[0,1]`, is 1 exactly when the effect's time has reached its lifetime, and otherwise is time over lifetime |
| `Effects.ProgressMonotone` | Final_LabExam/FINAL_EXAM/VisualEffects.cs:124 | progress never decreases as time passes |
| `Effects.Lerp` | Final_LabExam/FINAL_EXAM/VisualEffects.cs:20 | one interpolated channel lies between its two ends, equals the start at progress 0 and the end at progress 1 |
| `Effects.InterpolateColor` | Final_LabExam/FINAL_EXAM/VisualEffects.cs:17-25 | the blended colour is the start colour at progress 0 and the end colour at progress 1, with alpha between the two alphas |
| `Effects.HitColor` | Final_LabExam/FINAL_EXAM/VisualEffects.cs:52 | the starburst goes from its opaque start colour to its transparent end colour |
| `Effects.GlowAlpha` | Final_LabExam/FINAL_EXAM/VisualEffects.cs:73 | the glow alpha is the truncated product of the alpha with the single-precision constant `0.3f` (a value a little above 0.3), and never exceeds the fill's alpha |
| `Effects.HalfAlpha` | Final_LabExam/FINAL_EXAM/VisualEffects.cs:84 | the fill alpha (and the damage number's glow alpha) is the truncated half of the alpha, never above the alpha |
| `Effects.ReducedAlphasMonotone` | Final_LabExam/FINAL_EXAM/VisualEffects.cs:72-87 | both reduced alphas grow with the alpha they come from and are 0 when it is 0 |
| `Effects.GlowColor` | Final_LabExam/FINAL_EXAM/VisualEffects.cs:72-76 | the glow pen keeps the burst's red, green and blue, is no more opaque than the burst, and is transparent exactly when the burst alpha is below 4 |
| `Effects.FillColor` | Final_LabExam/FINAL_EXAM/VisualEffects.cs:83-87 | the fill brush keeps the burst's red, green and blue, is no more opaque than the burst, and is transparent exactly when the burst alpha is below 2 |
| `Effects.HitColorFades` | Final_LabExam/FINAL_EXAM/VisualEffects.cs:52 | the starburst's alpha never increases as progress grows |
| `Effects.StarburstLayers` | Final_LabExam/FINAL_EXAM/VisualEffects.cs:51-90 | glow alpha <= fill alpha <= burst alpha; all three fade as progress grows; they start at 76, 127 and 255 and are all 0 at completion |
| `Effects.FadedAlpha` | Final_LabExam/FINAL_EXAM/VisualEffects.cs:126-130 | the damage number's alpha never exceeds the base alpha, is the base alpha at progress 0 and 0 at progress 1 |
| `Effects.FadedAlphaMonotone` | Final_LabExam/FINAL_EXAM/VisualEffects.cs:127 | the damage number's alpha never increases as progress grows |
| `Effects.NumberColor` | Final_LabExam/FINAL_EXAM/VisualEffects.cs:125-130 | the number keeps the red, green and blue of its critical or normal colour and fades its alpha to 0 |
| `Effects.NumberScale` | Final_LabExam/FINAL_EXAM/VisualEffects.cs:132-133 | the scale is 1.5 for a critical hit and 1.0 otherwise, ramped linearly from 0 while progress is below 0.2 |
| `Effects.NumberScaleMonotone` | Final_LabExam/FINAL_EXAM/VisualEffects.cs:133 | the pop-in never shrinks the number as progress grows |
| `Effects.NumberText` | Final_LabExam/FINAL_EXAM/VisualEffects.cs:137-138 | the text is the decimal damage, followed by "!" exactly for a critical hit |
| `Effects.VisualEffect.HitEffect` | Final_LabExam/FINAL_EXAM/VisualEffects.cs:36-40 | a new hit effect sits at its position, has lifetime 0.5 s (10 updates), size 5 and is not complete |
| `Effects.VisualEffect.DamageNumberEffect` | Final_LabExam/FINAL_EXAM/VisualEffects.cs:106-112 | a new damage number carries its damage and criticality, has lifetime 1.0 s (20 updates), offset 0 and is not complete |
| `Effects.VisualEffect.Update` | Final_LabExam/FINAL_EXAM/VisualEffects.cs:42-120 | both `Update` overrides (lines 42-47 and 114-120): one update ages the effect by one step; a hit grows by 2.5 with no cap, a number rises by 3; completion is recomputed, so it never reverts; the position never changes |
| `Effects.VisualEffect.DrawProgress` | Final_LabExam/FINAL_EXAM/VisualEffects.cs:124 | the progress a `Draw` starts from is in `[0,1]` and is 1 exactly when the effect is complete |
| `Effects.AgedEffect` | Final_LabExam/FINAL_EXAM/VisualEffects.cs:36-120 | a fresh effect updated `n` times has aged `n` steps; a hit effect reports completion exactly from its 10th update on, a damage number from its 20th, and exactly when its drawing progress is 1 |
| `Duel.Strike` | Final_LabExam/FINAL_EXAM/BattleForm.cs:889-893 | one strike deals 10 to 43 damage; only the attacker's private state and the defender's health change; the defender falls to 0 exactly when the damage reaches its health |
| `Duel.Fight` | Final_LabExam/FINAL_EXAM/Form1.cs:991-1025 | the loop ends with a fighter at 0; names and maxima are kept; health only falls; one event is logged per turn |
| `Duel.FightHasOneSurvivor` | Final_LabExam/FINAL_EXAM/Form1.cs:1028 | a fight between two living fighters takes at least one turn, leaves exactly one standing, and the winner named is that survivor |
| `Duel.Winner` | Final_LabExam/FINAL_EXAM/Form1.cs:1028 | the announced winner is one of the two fighters |
| `Duel.WinnerOfFight` | Final_LabExam/FINAL_EXAM/BattleForm.cs:925 | after a fight between two living fighters, the winner announced is the one still above 0 health, and the other is at 0 |
| `Duel.FightFlagParity` | Final_LabExam/FINAL_EXAM/Form1.cs:1012 | the turn flag flips once per turn, so it ends as it started exactly after an even number of turns |
| `Duel.FightAlternates` | Final_LabExam/FINAL_EXAM/BattleForm.cs:889-893 | turn `k` is struck by player 1 exactly when `k` has the parity of the first mover, the other fighter defends, and the damage is in `[10, 43]` |
| `Duel.FightTurnBound` | Final_LabExam/FINAL_EXAM/BattleForm.cs:879-908 | the number of turns is at most what the defenders' hits-to-defeat allow when every hit deals at least 10 |
| `Duel.FightWithin23Turns` | Final_LabExam/FINAL_EXAM/BattleForm.cs:879-908 | a battle between archetype fighters (at most 120 health, at least 10 damage a hit) ends within 23 turns |
| `Duel.BattleBounds` | Final_LabExam/FINAL_EXAM/Form1.cs:991-1028 | a battle between two living archetype fighters lasts 1 to 23 turns and leaves exactly one standing |
| `Duel.LogLine` | Final_LabExam/FINAL_EXAM/Form1.cs:987-1030 | the "goes first" and "victorious" lines start with the fighter's name; a strike line starts with the attacker's name and ends in " damage!" |
| `Duel.StrikeLineCarriesDamage` | Final_LabExam/FINAL_EXAM/Form1.cs:1002 | a strike line names the defender after " strikes ", and the digits between " for " and " damage!" read back as the damage dealt |
| `Duel.BattleLog` | Final_LabExam/FINAL_EXAM/Form1.cs:986-1030 | the log of a battle starts with the two opening lines, holds one line per strike in order after the third line, and ends with the victory line of the winner; it has five lines besides the strikes |
| `Duel.StrikeLog` | Final_LabExam/FINAL_EXAM/Form1.cs:1003 | the log holds one "strikes ... for ... damage!" line per turn, in turn order |
| `Duel.PerformStrike` | Final_LabExam/FINAL_EXAM/Form1.cs:1000-1001 | `Attack()` then `TakeDamage(damage)` on the fighter objects ends in exactly the state `Strike` computes |
| `BattleEngine.AnchorPoint` | Final_LabExam/FINAL_EXAM/BattleForm.cs:896-900 | the effects appear inside the defender's picture box, centred across it and a third of the way down |
| `BattleEngine.Survivors` | Final_LabExam/FINAL_EXAM/BattleForm.cs:273-280 | culling never lengthens the effect list (what it keeps is stated by `SurvivorsMembers`) |
| `BattleEngine.SurvivorsMembers` | Final_LabExam/FINAL_EXAM/BattleForm.cs:273-280 | after culling, the list holds exactly the effects of the old list that are not complete |
| `BattleEngine.SurvivorsDistinct` | Final_LabExam/FINAL_EXAM/BattleForm.cs:278 | removing effects never duplicates one |
| `BattleEngine.SpawnedForSnoc` | Final_LabExam/FINAL_EXAM/BattleForm.cs:903-904 | appending a turn's pair of effects extends the per-turn record of spawned pairs by that turn |
| `BattleEngine.BattleForm.constructor` | Final_LabExam/FINAL_EXAM/BattleForm.cs:34-50 | the window starts with two distinct valid fighters, no attack pose, frame 0, no effects, an empty log and no winner |
| `BattleEngine.BattleForm.AdvanceAttackFrame` | Final_LabExam/FINAL_EXAM/BattleForm.cs:243-253 | while attacking, the frame advances, and on reaching 5 it resets to 0 and clears all three attacking flags; the frame stays in 0..4 |
| `BattleEngine.BattleForm.UpdateAt` | Final_LabExam/FINAL_EXAM/BattleForm.cs:275 | updating effect `i` ages only that effect |
| `BattleEngine.BattleForm.CullAt` | Final_LabExam/FINAL_EXAM/BattleForm.cs:276-279 | effect `i` is removed in place exactly when it is complete, and the others keep their order |
| `BattleEngine.BattleForm.CullLoop` | Final_LabExam/FINAL_EXAM/BattleForm.cs:273-280 | the backward loop updates every effect once and leaves exactly the survivors, in order |
| `BattleEngine.BattleForm.AgeEffects` | Final_LabExam/FINAL_EXAM/BattleForm.cs:273-280 | every effect in the list is updated exactly once; the new list is the survivors in their original order; no complete effect remains |
| `BattleEngine.BattleForm.AnimationTick` | Final_LabExam/FINAL_EXAM/BattleForm.cs:240-285 | one tick advances the attack pose as `AdvanceAttackFrame` says, then ages and culls the effects as `AgeEffects` says |
| `BattleEngine.BattleForm.BeginAttack` | Final_LabExam/FINAL_EXAM/BattleForm.cs:884-887 | a turn starts at frame 0 with exactly the attacker's picture marked as attacking |
| `BattleEngine.BattleForm.StrikeInTurn` | Final_LabExam/FINAL_EXAM/BattleForm.cs:889-893 | the attacker is player 1 exactly when `player1Turn` is set, and the strike is the reference `Strike` |
| `BattleEngine.BattleForm.SpawnEffects` | Final_LabExam/FINAL_EXAM/BattleForm.cs:903-904 | exactly two fresh effects are appended: a hit, then a non-critical damage number carrying the damage, at the same point |
| `BattleEngine.BattleForm.ResolveTurn` | Final_LabExam/FINAL_EXAM/BattleForm.cs:883-908 | one turn: pose set for the attacker, only the defender damaged, two effects spawned at the defender's anchor, the strike logged, the flag flipped |
| `BattleEngine.BattleForm.FinishTurn` | Final_LabExam/FINAL_EXAM/BattleForm.cs:911-913 | after the attack delay no fighter is shown attacking |
| `BattleEngine.BattleForm.PlayTurn` | Final_LabExam/FINAL_EXAM/BattleForm.cs:881-914 | one pass of the loop advances the window by one turn of the reference fight and lowers total health |
| `BattleEngine.BattleForm.RunTurns` | Final_LabExam/FINAL_EXAM/BattleForm.cs:879-922 | the loop plays exactly the turns of the reference fight, spawning two effects per turn and logging each |
| `BattleEngine.BattleForm.OpenBattle` | Final_LabExam/FINAL_EXAM/BattleForm.cs:867-877 | the log is cleared and opened with the first mover's name, and the timer is running |
| `BattleEngine.BattleForm.CloseBattle` | Final_LabExam/FINAL_EXAM/BattleForm.cs:924-927 | the timer stops, the winner is player 1 if its health is above 0 and player 2 otherwise, and is announced |
| `BattleEngine.BattleForm.Conclude` | Final_LabExam/FINAL_EXAM/BattleForm.cs:924-927 | at the end of the reference fight, closing the battle leaves the window concluded as that fight says |
| `BattleEngine.BattleForm.RunBattle` | Final_LabExam/FINAL_EXAM/BattleForm.cs:866-927 | the battle ends in the state of the reference fight, within 1 to 23 turns, with exactly one survivor named winner and no attack pose |
| `BattleEngine.BattleForm.Launch` | Final_LabExam/FINAL_EXAM/BattleForm.cs:56-65 | building either fighter can fail (unknown type or blank name) and then no window results; otherwise the battle between two fresh fighters is fought to one survivor |
| `BattleEngine.BattleForm.Open` | Final_LabExam/FINAL_EXAM/BattleForm.cs:864-927 | a window opened on two fresh fighters fights the reference battle to its end |
| `MainForm.SelectionPresence` | Final_LabExam/FINAL_EXAM/Form1.cs:935 | `string.IsNullOrEmpty` on a selection holds exactly for no selection or an empty item, so any champion type chosen passes the types check |
| `MainForm.ValidateSetup` | Final_LabExam/FINAL_EXAM/Form1.cs:927-939 | the Battle button's checks fail only with the three setup messages, and pass only with two non-blank names and two selections |
| `MainForm.SetupVerdict` | Final_LabExam/FINAL_EXAM/Form1.cs:927-939 | setup is accepted exactly when both names are non-blank, both types selected, and the champions differ in name or in type; the first failing check decides the message |
| `MainForm.SameNameOtherTypeAccepted` | Final_LabExam/FINAL_EXAM/Form1.cs:938-939 | two champions may share a name when their types differ |
| `MainForm.HealthPercent` | Final_LabExam/FINAL_EXAM/Form1.cs:1054 | the health fraction of a valid fighter lies in `[0,1]` |
| `MainForm.HealthColor` | Final_LabExam/FINAL_EXAM/Form1.cs:1062-1070 | the label is one of the three colours green, yellow or red |
| `MainForm.HealthColorOfHealth` | Final_LabExam/FINAL_EXAM/Form1.cs:1054-1070 | over integer health the label is green when `2h > max`, yellow when `5h > max`, red otherwise |
| `MainForm.NextFrame` | Final_LabExam/FINAL_EXAM/Form1.cs:162 | the idle frame toggles between 0 and 1 |
| `MainForm.Enroll` | Final_LabExam/FINAL_EXAM/Form1.cs:942 | on a trimmed name, building fails exactly on an unknown type, otherwise yields a fresh fighter of that type at full health |
| `MainForm.Form1.constructor` | Final_LabExam/FINAL_EXAM/Form1.cs:25-30 | the window opens with no fighters, frame 0, an empty log, the timer stopped and the button enabled |
| `MainForm.Form1.AnimationTick` | Final_LabExam/FINAL_EXAM/Form1.cs:160-163 | one tick toggles the idle frame and changes nothing else |
| `MainForm.Form1.StrikeInTurn` | Final_LabExam/FINAL_EXAM/Form1.cs:998-1009 | the flag picks the attacker; only the defender's health and the attacker's state change; the strike line is logged |
| `MainForm.Form1.Step` | Final_LabExam/FINAL_EXAM/Form1.cs:993-1018 | one pass: the attack is shown during the strike and not after it, the flag flips, and the window advances one turn of the reference fight |
| `MainForm.Form1.RunTurns` | Final_LabExam/FINAL_EXAM/Form1.cs:991-1025 | the loop plays exactly the turns of the reference fight and logs each |
| `MainForm.Form1.FightOut` | Final_LabExam/FINAL_EXAM/Form1.cs:982-1030 | with both fighters present the log is cleared and opened, all turns are played, and the winner is announced |
| `MainForm.Form1.StartBattle` | Final_LabExam/FINAL_EXAM/Form1.cs:973-1045 | a missing fighter is a critical error that logs nothing; otherwise the battle is fought out; in every case the `finally` block leaves no attack shown, the timer stopped and the button enabled |
| `MainForm.Form1.Enlist` | Final_LabExam/FINAL_EXAM/Form1.cs:927-943 | a failed check changes no fighter; otherwise the fighters are built in order, and an unknown second type leaves the first fighter set |
| `MainForm.AcceptedNamesTrimmed` | Final_LabExam/FINAL_EXAM/Form1.cs:927-932 | the trimmed names of a setup that passes the checks are non-empty with no white space at either end, as a fighter's `Name` keeps them |
| `MainForm.Form1.DisableBattle` | Final_LabExam/FINAL_EXAM/Form1.cs:941 | once the checks pass the Battle button is disabled, and nothing else changes |
| `MainForm.Form1.CreatePlayers` | Final_LabExam/FINAL_EXAM/Form1.cs:942-943 | on trimmed names: an unknown first type changes no fighter; an unknown second type leaves the first fighter built and the second unchanged; it succeeds exactly when both types are known, seating two fresh fighters of those types and names; the log, timer and button are untouched |
| `MainForm.Form1.SeatPlayer1` | Final_LabExam/FINAL_EXAM/Form1.cs:942 | the first fighter field holds the new fighter, distinct from the second, and the window stays consistent |
| `MainForm.Form1.SeatPlayer2` | Final_LabExam/FINAL_EXAM/Form1.cs:943 | the second fighter field holds the new fighter, distinct from the first, and the window stays consistent |
| `MainForm.Form1.BattleClick` | Final_LabExam/FINAL_EXAM/Form1.cs:923-960 | a failed check returns its message and changes no fighter; an unknown first type changes no fighter; an unknown second type leaves the first fighter built; on any failure the log, timer and attack flag are untouched; the click succeeds exactly when the checks pass and both types are known, and then the battle between the two new fighters ends with exactly one standing and the timer stopped; the button is enabled again in every case |
| `MainForm.Form1.FightEnlisted` | Final_LabExam/FINAL_EXAM/Form1.cs:950 | the battle between the two fighters just built is fought to its end with one survivor, the timer stopped and the button enabled |
| `MainForm.Form1.EnableBattle` | Final_LabExam/FINAL_EXAM/Form1.cs:956-958 | the `finally` block enables the Battle button, and nothing else changes |

## Left out

- Rendering: the `Draw` bodies beyond their progress, colour, alpha and scale arithmetic. Also
  `DrawCharacter`, the sparkles, floating pixels and squares, the slash and rounded-rectangle
  paths, health bars, layout sizing and the paint handlers. All of these are float geometry
  over the graphics library.
- Control creation and layout, the `CreateStyled*` helpers and `UpdateControlPositions`. Also
  the label texts of `UpdateHealthLabels` (only the colour rule is kept) and `Invoke`
  marshalling. The log is a sequence of entries, without its emoji decorations.
- Image loading and disposal, and the background parallax offset. The offset depends on image
  size and float arithmetic.
- The program entry point and its message-box exception handlers. The message boxes of the two
  windows become `Failure`/`Fail` results.
- Timers, `Task.Delay`, `Thread.Sleep` and `Application.DoEvents`, and the interleaving of the
  battle loop with the animation timer. The tick and the turn step are separate atomic
  methods. The timer is a `timerRunning` flag.
- Random number generation. Every draw is a parameter with its range as a precondition. The
  Sorcerer's `NextDouble() < 0.20` is the boolean `critRoll`, so the 20% frequency is not
  modelled.
- The damage number's sinusoidal `xOffset` wobble and the font sizes.
- The per-turn `catch`/`continue` path of both loops. Archetype damage is never negative, so
  nothing in a turn can throw.
- The `player1 == null || player2 == null` check in the Battle button handler. `CreateCharacter`
  never returns null, so it cannot fire.
- The critical error path of `BattleForm.StartBattle` that closes the window. It appears only as
  the `Failure` result of `BattleEngine.BattleForm.Launch`.
- `Effects.Progress`: it is the exact quotient of update counts. The program divides a
  single-precision sum of 0.05 steps, which lies slightly above that quotient (about
  0.40000004 after a damage number's 8th update). So the `Lerp` and `FadedAlpha` channels the
  model computes from it (in `HitColor` and `NumberColor`) can be one above the program's on
  drawn states between the first and the last update. At progress 0 and 1, and for
  completion, the model agrees with the program.
- `MainForm.HealthPercent`: it is exact real division rather than single precision. For health
  up to 120, the quotient never lies close enough to 0.5 or 0.2 for rounding to change the
  colour.
- `Effects.VisualEffect.Update`: size and offset are exact reals. Multiples of 2.5 and 3 are
  exact in single precision in this range. Time is counted in whole updates.

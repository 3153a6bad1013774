/**
 * The lightsaber combat simulator (src/components/StarWarsGame.tsx).
 *
 * A turn-based duel against five opponents in a fixed order.  The React
 * state hooks become the fields of `BattleSimulator`; each state update the
 * component performs is a pure function on `GameState` here, and the
 * component's handlers are methods that apply those updates step by step.
 * Every `Math.random()` draw is an argument (a "roll") whose range is the
 * range the source's arithmetic can produce.
 */
module Battle {
  import opened Types
  import opened Text
  import opened Collections

  // ---------------------------------------------------------------------------
  // Opponents and constants

  datatype Enemy = Enemy(name: string, health: nat, force: nat, difficulty: nat, quote: string, color: string)

  /** The opponents, fought in this order; the last one is Darth Vader. */
  const Roster: seq<Enemy> := [
    Enemy("Padawan Trainee", 80, 60, 1, "I will prove myself to the Council!", "blue"),
    Enemy("Jedi Knight", 120, 100, 2, "The Force will guide me to victory.", "green"),
    Enemy("Sith Apprentice", 150, 120, 3, "Your fear will be your downfall!", "red"),
    Enemy("Jedi Master", 200, 150, 4, "Size matters not. Judge me by my size, do you?", "purple"),
    Enemy("Darth Vader", 300, 200, 5, "I find your lack of faith disturbing.", "crimson")
  ]

  const MAX_PLAYER_HEALTH: int := 100
  const MAX_PLAYER_FORCE: int := 100
  const FORCE_COST: int := 20
  const DEFEND_RESTORE: int := 15
  const ENEMY_FORCE_COST: int := 20
  const ENEMY_RESTORE: int := 15
  const COMBO_GOAL: int := 5
  const POINTS_PER_DIFFICULTY: int := 100

  /** The battle log shows at most this many messages. */
  const LOG_CAPACITY: nat := 5

  const FIRST_BLOOD: string := "First Blood"
  const FORCE_SENSITIVE: string := "Force Sensitive"
  const COMBO_MASTER: string := "Combo Master"
  const SITH_LORD: string := "Sith Lord"
  const NO_MERCY: string := "No Mercy"
  const CHOSEN_ONE: string := "The Chosen One"
  const DROIDS: string := "These Aren't The Droids"

  datatype Phase = Menu | Playing | Victory | Defeat

  datatype Action = Attack | Force | Defend

  /** `lastAction` is the empty string before the first action of a battle; here it is `None`. */
  datatype GameState = GameState(
    playerHealth: int,
    enemyHealth: int,
    playerForce: int,
    enemyForce: int,
    currentEnemy: nat,
    score: int,
    isGameActive: bool,
    gamePhase: Phase,
    achievements: seq<string>,
    combo: int,
    lastAction: Option<Action>)

  /** The state the component mounts with. */
  const InitialState: GameState :=
    GameState(100, 100, 100, 100, 0, 0, false, Menu, [], 0, None)

  function Max(a: int, b: int): int { if a >= b then a else b }
  function Min(a: int, b: int): int { if a <= b then a else b }

  /** `b` starts with `a`. */
  predicate Extends<T(==)>(a: seq<T>, b: seq<T>) {
    |a| <= |b| && b[..|a|] == a
  }

  // ---------------------------------------------------------------------------
  // Rolls: `Math.floor(Math.random() * spread) + min` lies in [min, min + spread).

  /** The damage roll a player action can draw: attacks deal 15..44, Force lightning 20..59. */
  predicate PlayerRollOk(action: Action, roll: int) {
    (action == Attack ==> 15 <= roll < 15 + 30)
    && (action == Force ==> 20 <= roll < 20 + 40)
  }

  /** The enemy picks move 0 (attack), 1 (Force) or 2 (defend); attacks deal 10..34, Force 15..49. */
  predicate EnemyRollOk(move: nat, roll: int) {
    move < 3
    && (move == 0 ==> 10 <= roll < 10 + 25)
    && (move == 1 ==> 15 <= roll < 15 + 35)
  }

  // ---------------------------------------------------------------------------
  // Invariant

  /**
   * What every reachable state satisfies: health and Force within their
   * ranges, an opponent from the roster, and a battle that is active exactly
   * while it is being played.
   */
  predicate Bounded(s: GameState) {
    s.currentEnemy < |Roster|
    && 0 <= s.playerHealth <= MAX_PLAYER_HEALTH
    && 0 <= s.playerForce <= MAX_PLAYER_FORCE
    && 0 <= s.enemyHealth && 0 <= s.enemyForce
    && 0 <= s.score && 0 <= s.combo
    && (s.isGameActive <==> s.gamePhase == Playing)
    && (s.isGameActive ==>
          0 < s.playerHealth
          && s.enemyHealth <= Roster[s.currentEnemy].health && s.enemyForce <= Roster[s.currentEnemy].force)
  }

  // ---------------------------------------------------------------------------
  // Messages

  function StartMessage(e: Enemy): string {
    "\U{2694}\U{FE0F} Battle begins against " + e.name + "!"
  }

  function StrikeMessage(damage: int): string {
    "\U{2694}\U{FE0F} You strike for " + IntToString(damage) + " damage!"
  }

  function LightningMessage(damage: int): string {
    "\U{26A1} Force lightning strikes for " + IntToString(damage) + " damage!"
  }

  const NOT_ENOUGH_FORCE: string := "\U{274C} Not enough Force energy!"
  const DEFEND_MESSAGE: string := "\U{1F6E1}\U{FE0F} You focus and restore Force energy!"
  const VICTORY_MESSAGE: string := "\U{1F389} You have brought balance to the Force!"
  const DEFEAT_MESSAGE: string := "\U{1F480} You have been defeated. The dark side clouds everything."
  const R2D2_MESSAGE: string := "\U{1F916} R2-D2 appears and beeps encouragingly!"

  function DefeatedMessage(e: Enemy): string {
    "\U{1F480} " + e.name + " has been defeated!"
  }

  function ApproachMessage(e: Enemy): string {
    "\U{2694}\U{FE0F} " + e.name + " approaches: \"" + e.quote + "\""
  }

  function UnlockMessage(name: string): string {
    "\U{1F3C6} Achievement Unlocked: " + name
  }

  function EnemyAttackMessage(e: Enemy, damage: int): string {
    "\U{1F4A5} " + e.name + " attacks for " + IntToString(damage) + " damage!"
  }

  function EnemyForceMessage(e: Enemy, damage: int): string {
    "\U{1F329}\U{FE0F} " + e.name + " uses the Force for " + IntToString(damage) + " damage!"
  }

  function EnemyForceFailMessage(e: Enemy): string {
    e.name + " tries to use the Force but fails!"
  }

  function EnemyDefendMessage(e: Enemy): string {
    e.name + " focuses and restores energy."
  }

  // ---------------------------------------------------------------------------
  // State updates

  /** `addToBattleLog`: keep the last four messages and append the new one. */
  function AddToLog(log: seq<string>, message: string): (r: seq<string>)
    ensures 1 <= |r| <= LOG_CAPACITY
    ensures |r| == Min(|log|, LOG_CAPACITY - 1) + 1
    ensures r[|r| - 1] == message
    ensures r[..|r| - 1] == log[|log| - (|r| - 1)..]
  {
    (if |log| <= LOG_CAPACITY - 1 then log else log[|log| - (LOG_CAPACITY - 1)..]) + [message]
  }

  /**
   * `unlockAchievement`: add the name once, announcing it in the log only
   * the first time; nothing but the achievement list changes.
   */
  function Unlock(s: GameState, log: seq<string>, name: string): (r: (GameState, seq<string>))
    ensures name in r.0.achievements
    ensures r.0 == s.(achievements := r.0.achievements)
    ensures Extends(s.achievements, r.0.achievements)
    ensures name in s.achievements ==> r == (s, log)
    ensures name !in s.achievements ==> r.0.achievements == s.achievements + [name]
    ensures name !in s.achievements ==> r.1 == AddToLog(log, UnlockMessage(name))
  {
    if name in s.achievements then (s, log)
    else (s.(achievements := s.achievements + [name]), AddToLog(log, UnlockMessage(name)))
  }

  /** Some achievement mentions "Force Sensitive". */
  predicate HasForceSensitive(achievements: seq<string>) {
    exists i :: 0 <= i < |achievements| && Contains(achievements[i], FORCE_SENSITIVE)
  }

  /**
   * The Force-power achievement check, as the source writes it: it fires
   * when no achievement mentions "Force Sensitive" and the score plus one
   * reaches ten (the score stands in for a count of Force uses).
   */
  predicate ForceSensitiveDue(s: GameState) {
    !HasForceSensitive(s.achievements) && s.score + 1 >= 10
  }

  /** `startGame`: the first opponent at full strength; achievements carry over. */
  function Started(s: GameState): (r: GameState)
    ensures Bounded(r) && r.isGameActive && r.currentEnemy == 0
    ensures r.achievements == s.achievements
    ensures r.score == 0 && r.combo == 0 && r.lastAction == None
  {
    GameState(MAX_PLAYER_HEALTH, Roster[0].health, MAX_PLAYER_FORCE, Roster[0].force, 0, 0,
              true, Playing, s.achievements, 0, None)
  }

  /** `resetGame`: back to the menu; the rest of the state is kept. */
  function ToMenu(s: GameState): (r: GameState)
    ensures !r.isGameActive && r.gamePhase == Menu
    ensures r.(isGameActive := s.isGameActive, gamePhase := s.gamePhase) == s
    ensures Bounded(s) ==> Bounded(r)
  {
    s.(gamePhase := Menu, isGameActive := false)
  }

  /** The combo after an action: it grows while the same attacking action repeats. */
  function NextCombo(s: GameState, action: Action): int {
    if action == Defend then 0
    else if s.lastAction == Some(action) then s.combo + 1
    else 1
  }

  /** The switch over the player's action, for an action that is not rejected. */
  function ApplyAction(s: GameState, log: seq<string>, action: Action, roll: int): (r: (GameState, seq<string>))
    requires action == Force ==> s.playerForce >= FORCE_COST
  {
    match action
    case Attack =>
      (s.(enemyHealth := Max(0, s.enemyHealth - roll), combo := NextCombo(s, Attack)),
       AddToLog(log, StrikeMessage(roll)))
    case Force => ForceLightning(s, log, roll)
    case Defend =>
      (s.(playerForce := Min(MAX_PLAYER_FORCE, s.playerForce + DEFEND_RESTORE), combo := 0),
       AddToLog(log, DEFEND_MESSAGE))
  }

  /** The Force branch of the switch: lightning, its cost, and the Force-power achievement check. */
  function ForceLightning(s: GameState, log: seq<string>, roll: int): (r: (GameState, seq<string>))
    requires s.playerForce >= FORCE_COST
  {
    var ns := s.(enemyHealth := Max(0, s.enemyHealth - roll), playerForce := s.playerForce - FORCE_COST,
                 combo := NextCombo(s, Force));
    UnlockIf(ForceSensitiveDue(s), ns, AddToLog(log, LightningMessage(roll)), FORCE_SENSITIVE)
  }

  /** Unlock `name` when `c` holds. */
  function UnlockIf(c: bool, s: GameState, log: seq<string>, name: string): (r: (GameState, seq<string>))
    ensures r == if c then Unlock(s, log, name) else (s, log)
  {
    if c then Unlock(s, log, name) else (s, log)
  }

  /** A conditional unlock only adds achievements, keeps those already held and leaves the rest of the state alone. */
  lemma UnlockIfEffect(c: bool, s: GameState, log: seq<string>, name: string)
    ensures var r := UnlockIf(c, s, log, name);
      r.0 == s.(achievements := r.0.achievements)
      && Extends(s.achievements, r.0.achievements)
      && (forall x :: x in s.achievements ==> x in r.0.achievements)
      && (c ==> name in r.0.achievements)
  {
    var r := UnlockIf(c, s, log, name);
    forall x | x in s.achievements ensures x in r.0.achievements {
      ExtendsKeeps(s.achievements, r.0.achievements, x);
    }
  }

  /** `b` extends `a` and `c` extends `b`. */
  lemma ExtendsTrans<T>(a: seq<T>, b: seq<T>, c: seq<T>)
    requires Extends(a, b) && Extends(b, c)
    ensures Extends(a, c)
  {
    assert c[..|a|] == c[..|b|][..|a|];
  }

  /** An element of a sequence stays in every extension of it. */
  lemma ExtendsKeeps<T>(a: seq<T>, b: seq<T>, x: T)
    requires Extends(a, b) && x in a
    ensures x in b
  {
    var i :| 0 <= i < |a| && a[i] == x;
    assert b[i] == b[..|a|][i];
  }

  /**
   * The scoring half of the defeat branch of `performAction`: the
   * opponent's difficulty times 100, "First Blood" for the first opponent
   * unless it was already held, "No Mercy" at full health, "Sith Lord" for
   * Darth Vader.  `before` is the state the action started from.
   */
  function AwardDefeat(before: GameState, s: GameState, log: seq<string>): (r: (GameState, seq<string>))
    requires before.currentEnemy < |Roster|
    ensures r.0 == s.(score := r.0.score, achievements := r.0.achievements)
    ensures r.0.score == s.score + Roster[before.currentEnemy].difficulty * POINTS_PER_DIFFICULTY
  {
    var enemy := Roster[before.currentEnemy];
    var s1 := s.(score := s.score + enemy.difficulty * POINTS_PER_DIFFICULTY);
    DefeatAchievements(before, s1, AddToLog(log, DefeatedMessage(enemy)))
  }

  /** The scoring half is the score, then the log line, then the achievement checks. */
  lemma AwardDefeatSteps(before: GameState, s: GameState, log: seq<string>)
    requires before.currentEnemy < |Roster|
    ensures var enemy := Roster[before.currentEnemy];
      AwardDefeat(before, s, log)
      == DefeatAchievements(before, s.(score := s.score + enemy.difficulty * POINTS_PER_DIFFICULTY), AddToLog(log, DefeatedMessage(enemy)))
  {
  }

  /** The three achievement checks of the defeat branch, in the source's order. */
  function DefeatAchievements(before: GameState, s: GameState, log: seq<string>): (r: (GameState, seq<string>))
    requires before.currentEnemy < |Roster|
  {
    var p2 := UnlockIf(before.currentEnemy == 0 && FIRST_BLOOD !in before.achievements, s, log, FIRST_BLOOD);
    var p3 := UnlockIf(p2.0.playerHealth == MAX_PLAYER_HEALTH, p2.0, p2.1, NO_MERCY);
    UnlockIf(Roster[before.currentEnemy].name == "Darth Vader", p3.0, p3.1, SITH_LORD)
  }

  /** The achievements the scoring half awards, on top of those already held. */
  lemma AwardDefeatEffect(before: GameState, s: GameState, log: seq<string>)
    requires before.currentEnemy < |Roster|
    requires Extends(before.achievements, s.achievements)
    ensures var r := AwardDefeat(before, s, log).0;
      Extends(s.achievements, r.achievements)
      && (before.currentEnemy == 0 ==> FIRST_BLOOD in r.achievements)
      && (s.playerHealth == MAX_PLAYER_HEALTH ==> NO_MERCY in r.achievements)
      && (Roster[before.currentEnemy].name == "Darth Vader" ==> SITH_LORD in r.achievements)
  {
    var enemy := Roster[before.currentEnemy];
    var s1 := s.(score := s.score + enemy.difficulty * POINTS_PER_DIFFICULTY);
    var p1 := (s1, AddToLog(log, DefeatedMessage(enemy)));
    var p2 := UnlockIf(before.currentEnemy == 0 && FIRST_BLOOD !in before.achievements, p1.0, p1.1, FIRST_BLOOD);
    var p3 := UnlockIf(p2.0.playerHealth == MAX_PLAYER_HEALTH, p2.0, p2.1, NO_MERCY);
    var p4 := UnlockIf(enemy.name == "Darth Vader", p3.0, p3.1, SITH_LORD);
    assert p4 == DefeatAchievements(before, p1.0, p1.1);
    assert p4 == AwardDefeat(before, s, log);
    UnlockIfEffect(before.currentEnemy == 0 && FIRST_BLOOD !in before.achievements, p1.0, p1.1, FIRST_BLOOD);
    UnlockIfEffect(p2.0.playerHealth == MAX_PLAYER_HEALTH, p2.0, p2.1, NO_MERCY);
    UnlockIfEffect(enemy.name == "Darth Vader", p3.0, p3.1, SITH_LORD);
    ExtendsTrans(s.achievements, p2.0.achievements, p3.0.achievements);
    ExtendsTrans(s.achievements, p3.0.achievements, p4.0.achievements);
    if before.currentEnemy == 0 && FIRST_BLOOD in before.achievements {
      ExtendsKeeps(before.achievements, s.achievements, FIRST_BLOOD);
    }
  }

  /** The closing half of the defeat branch: the next opponent enters, or the campaign is won. */
  function Advance(s: GameState, log: seq<string>): (r: (GameState, seq<string>))
    requires s.currentEnemy < |Roster|
    ensures s.currentEnemy < |Roster| - 1 ==>
      r.0 == s.(currentEnemy := s.currentEnemy + 1,
                enemyHealth := Roster[s.currentEnemy + 1].health,
                enemyForce := Roster[s.currentEnemy + 1].force)
    ensures s.currentEnemy == |Roster| - 1 ==>
      r.0 == s.(gamePhase := Victory, isGameActive := false, achievements := r.0.achievements)
      && Extends(s.achievements, r.0.achievements) && CHOSEN_ONE in r.0.achievements
      && |r.1| >= 1 && r.1[|r.1| - 1] == VICTORY_MESSAGE
  {
    if s.currentEnemy < |Roster| - 1 then
      var next := Roster[s.currentEnemy + 1];
      (s.(currentEnemy := s.currentEnemy + 1, enemyHealth := next.health, enemyForce := next.force),
       AddToLog(log, ApproachMessage(next)))
    else
      var p := Unlock(s.(gamePhase := Victory, isGameActive := false), log, CHOSEN_ONE);
      (p.0, AddToLog(p.1, VICTORY_MESSAGE))
  }

  /** The defeat branch of `performAction`. */
  function ResolveDefeat(before: GameState, s: GameState, log: seq<string>): (r: (GameState, seq<string>))
    requires before.currentEnemy < |Roster| && s.currentEnemy == before.currentEnemy
  {
    var p := AwardDefeat(before, s, log);
    Advance(p.0, p.1)
  }

  /** An accepted action up to the defeat check: the move, `lastAction`, and the combo achievement. */
  function ActionStep(s: GameState, log: seq<string>, action: Action, roll: int): (r: (GameState, seq<string>))
    requires action == Force ==> s.playerForce >= FORCE_COST
  {
    var p1 := ApplyAction(s, log, action, roll);
    var s1 := p1.0.(lastAction := Some(action));
    UnlockIf(s1.combo >= COMBO_GOAL, s1, p1.1, COMBO_MASTER)
  }

  /** What one press of an action button leads to. */
  datatype Turn = Turn(state: GameState, log: seq<string>, enemyTurnScheduled: bool)

  /**
   * `performAction`.  Each achievement is unlocked at the point the source
   * calls `unlockAchievement`; `PlayerTurnAsWritten` below is what React
   * makes of those calls, and `IntendedIsReplaceThenUnlock` relates the two.
   */
  function PlayerTurn(s: GameState, log: seq<string>, action: Action, roll: int): Turn
    requires s.currentEnemy < |Roster|
  {
    if !s.isGameActive then Turn(s, log, false)
    else if action == Force && s.playerForce < FORCE_COST then Turn(s, AddToLog(log, NOT_ENOUGH_FORCE), false)
    else AcceptedTurn(s, log, action, roll)
  }

  /** An accepted action: the opponent's defeat is resolved at once, otherwise its reply is scheduled. */
  function AcceptedTurn(s: GameState, log: seq<string>, action: Action, roll: int): Turn
    requires s.currentEnemy < |Roster|
    requires action == Force ==> s.playerForce >= FORCE_COST
  {
    var p2 := ActionStep(s, log, action, roll);
    if p2.0.enemyHealth <= 0 then
      var p3 := ResolveDefeat(s, p2.0, p2.1);
      Turn(p3.0, p3.1, false)
    else
      Turn(p2.0, p2.1, true)
  }

  /**
   * `enemyTurn` on the state captured when it was scheduled: the opponent's
   * move (0 attack, 1 Force, 2 defend), then the check for the player's defeat.
   */
  function EnemyMove(s: GameState, log: seq<string>, move: nat, roll: int): (r: (GameState, seq<string>))
    requires s.currentEnemy < |Roster|
  {
    var p := EnemyAction(s, log, move, roll);
    if p.0.playerHealth <= 0 then
      (p.0.(gamePhase := Defeat, isGameActive := false), AddToLog(p.1, DEFEAT_MESSAGE))
    else
      p
  }

  /** The opponent's move itself, before the check for the player's defeat. */
  function EnemyAction(s: GameState, log: seq<string>, move: nat, roll: int): (r: (GameState, seq<string>))
    requires s.currentEnemy < |Roster|
  {
    var enemy := Roster[s.currentEnemy];
    if move == 0 then
      (s.(playerHealth := Max(0, s.playerHealth - roll)), AddToLog(log, EnemyAttackMessage(enemy, roll)))
    else if move == 1 then
      if s.enemyForce >= ENEMY_FORCE_COST then
        (s.(playerHealth := Max(0, s.playerHealth - roll), enemyForce := s.enemyForce - ENEMY_FORCE_COST),
         AddToLog(log, EnemyForceMessage(enemy, roll)))
      else
        (s, AddToLog(log, EnemyForceFailMessage(enemy)))
    else
      (s.(enemyForce := Min(enemy.force, s.enemyForce + ENEMY_RESTORE)), AddToLog(log, EnemyDefendMessage(enemy)))
  }

  // ---------------------------------------------------------------------------
  // Properties of a turn

  /** Outside a battle the buttons do nothing. */
  lemma InactiveTurnChangesNothing(s: GameState, log: seq<string>, action: Action, roll: int)
    requires s.currentEnemy < |Roster| && !s.isGameActive
    ensures PlayerTurn(s, log, action, roll) == Turn(s, log, false)
  {
  }

  /** Force powers below 20 energy are refused: only the log changes and the opponent does not move. */
  lemma ForceRefused(s: GameState, log: seq<string>, roll: int)
    requires s.currentEnemy < |Roster| && s.isGameActive && s.playerForce < FORCE_COST
    ensures PlayerTurn(s, log, Force, roll).state == s
    ensures PlayerTurn(s, log, Force, roll).log == AddToLog(log, NOT_ENOUGH_FORCE)
    ensures !PlayerTurn(s, log, Force, roll).enemyTurnScheduled
  {
  }

  /** The damage an action deals to the opponent. */
  function Damage(action: Action, roll: int): int {
    if action == Defend then 0 else roll
  }

  /** The effect of an accepted action on the duel's numbers. */
  lemma ActionStepEffect(s: GameState, log: seq<string>, action: Action, roll: int)
    requires action == Force ==> s.playerForce >= FORCE_COST
    ensures var r := ActionStep(s, log, action, roll);
      r.0.enemyHealth == (if action == Defend then s.enemyHealth else Max(0, s.enemyHealth - roll))
      && r.0.playerForce == (match action
                             case Attack => s.playerForce
                             case Force => s.playerForce - FORCE_COST
                             case Defend => Min(MAX_PLAYER_FORCE, s.playerForce + DEFEND_RESTORE))
      && r.0.combo == NextCombo(s, action)
      && r.0.lastAction == Some(action)
      && r.0.playerHealth == s.playerHealth && r.0.currentEnemy == s.currentEnemy
      && r.0.score == s.score && r.0.isGameActive == s.isGameActive && r.0.gamePhase == s.gamePhase
      && r.0.enemyForce == s.enemyForce
      && Extends(s.achievements, r.0.achievements)
      && (r.0.combo >= COMBO_GOAL ==> COMBO_MASTER in r.0.achievements)
      && 1 <= |r.1| <= LOG_CAPACITY
  {
    var p1 := ApplyAction(s, log, action, roll);
    ApplyActionEffect(s, log, action, roll);
    var s1 := p1.0.(lastAction := Some(action));
    var r := UnlockIf(s1.combo >= COMBO_GOAL, s1, p1.1, COMBO_MASTER);
    assert r == ActionStep(s, log, action, roll);
    UnlockIfEffect(s1.combo >= COMBO_GOAL, s1, p1.1, COMBO_MASTER);
    ExtendsTrans(s.achievements, s1.achievements, r.0.achievements);
  }

  /** The switch alone: the numbers each action sets, and achievements only gained. */
  lemma ApplyActionEffect(s: GameState, log: seq<string>, action: Action, roll: int)
    requires action == Force ==> s.playerForce >= FORCE_COST
    ensures var r := ApplyAction(s, log, action, roll);
      r.0 == s.(enemyHealth := if action == Defend then s.enemyHealth else Max(0, s.enemyHealth - roll),
                playerForce := match action
                               case Attack => s.playerForce
                               case Force => s.playerForce - FORCE_COST
                               case Defend => Min(MAX_PLAYER_FORCE, s.playerForce + DEFEND_RESTORE),
                combo := NextCombo(s, action),
                achievements := r.0.achievements)
      && Extends(s.achievements, r.0.achievements)
      && 1 <= |r.1| <= LOG_CAPACITY
  {
    match action {
      case Attack =>
      case Force =>
        var ns := s.(enemyHealth := Max(0, s.enemyHealth - roll), playerForce := s.playerForce - FORCE_COST,
                     combo := NextCombo(s, Force));
        UnlockIfEffect(ForceSensitiveDue(s), ns, AddToLog(log, LightningMessage(roll)), FORCE_SENSITIVE);
      case Defend =>
    }
  }

  /**
   * An accepted action that leaves the opponent standing scores nothing and
   * schedules the opponent's turn on the new state.
   */
  lemma OpponentSurvives(s: GameState, log: seq<string>, action: Action, roll: int)
    requires Bounded(s) && s.isGameActive && PlayerRollOk(action, roll)
    requires action == Force ==> s.playerForce >= FORCE_COST
    requires s.enemyHealth > Damage(action, roll)
    ensures var t := PlayerTurn(s, log, action, roll);
      t.enemyTurnScheduled
      && t.state.enemyHealth == s.enemyHealth - Damage(action, roll)
      && t.state.score == s.score && t.state.currentEnemy == s.currentEnemy
      && t.state.isGameActive && t.state.lastAction == Some(action)
      && t.state.combo == NextCombo(s, action)
      && t.state.playerHealth == s.playerHealth
  {
    ActionStepEffect(s, log, action, roll);
  }

  /** The defeat branch as a whole. */
  lemma ResolveDefeatEffect(before: GameState, s: GameState, log: seq<string>)
    requires before.currentEnemy < |Roster| && s.currentEnemy == before.currentEnemy
    requires Extends(before.achievements, s.achievements)
    ensures var r := ResolveDefeat(before, s, log);
      r.0.score == s.score + Roster[s.currentEnemy].difficulty * POINTS_PER_DIFFICULTY
      && r.0.playerHealth == s.playerHealth && r.0.playerForce == s.playerForce
      && r.0.combo == s.combo && r.0.lastAction == s.lastAction
      && Extends(s.achievements, r.0.achievements)
      && 1 <= |r.1| <= LOG_CAPACITY
      && (s.currentEnemy == 0 ==> FIRST_BLOOD in r.0.achievements)
      && (s.playerHealth == MAX_PLAYER_HEALTH ==> NO_MERCY in r.0.achievements)
      && (s.currentEnemy < |Roster| - 1 ==>
            r.0.currentEnemy == s.currentEnemy + 1
            && r.0.enemyHealth == Roster[s.currentEnemy + 1].health
            && r.0.enemyForce == Roster[s.currentEnemy + 1].force
            && r.0.isGameActive == s.isGameActive && r.0.gamePhase == s.gamePhase)
      && (s.currentEnemy == |Roster| - 1 ==>
            r.0.gamePhase == Victory && !r.0.isGameActive
            && CHOSEN_ONE in r.0.achievements && SITH_LORD in r.0.achievements
            && |r.1| >= 1 && r.1[|r.1| - 1] == VICTORY_MESSAGE)
  {
    var p := AwardDefeat(before, s, log);
    AwardDefeatEffect(before, s, log);
    var r := Advance(p.0, p.1);
    if s.currentEnemy == |Roster| - 1 {
      assert Roster[before.currentEnemy].name == "Darth Vader";
      ExtendsKeeps(p.0.achievements, r.0.achievements, SITH_LORD);
      ExtendsTrans(s.achievements, p.0.achievements, r.0.achievements);
      if s.playerHealth == MAX_PLAYER_HEALTH {
        ExtendsKeeps(p.0.achievements, r.0.achievements, NO_MERCY);
      }
    }
  }

  /**
   * An accepted action that brings the opponent down scores its difficulty
   * times 100 and schedules no reply.  The first opponent always yields
   * "First Blood" and a win at full health "No Mercy"; the next opponent
   * enters at full strength, or, after Darth Vader, the campaign is won with
   * "Sith Lord" and "The Chosen One".
   */
  lemma OpponentDefeated(s: GameState, log: seq<string>, action: Action, roll: int)
    requires Bounded(s) && s.isGameActive && PlayerRollOk(action, roll)
    requires action == Force ==> s.playerForce >= FORCE_COST
    requires s.enemyHealth <= Damage(action, roll)
    ensures var t := PlayerTurn(s, log, action, roll);
      !t.enemyTurnScheduled
      && t.state.score == s.score + Roster[s.currentEnemy].difficulty * POINTS_PER_DIFFICULTY
      && (s.currentEnemy == 0 ==> FIRST_BLOOD in t.state.achievements)
      && (s.playerHealth == MAX_PLAYER_HEALTH ==> NO_MERCY in t.state.achievements)
      && t.state.combo == NextCombo(s, action)
      && (s.currentEnemy < |Roster| - 1 ==>
            t.state.currentEnemy == s.currentEnemy + 1
            && t.state.enemyHealth == Roster[s.currentEnemy + 1].health
            && t.state.enemyForce == Roster[s.currentEnemy + 1].force
            && t.state.isGameActive && t.state.gamePhase == Playing)
      && (s.currentEnemy == |Roster| - 1 ==>
            t.state.gamePhase == Victory && !t.state.isGameActive
            && CHOSEN_ONE in t.state.achievements && SITH_LORD in t.state.achievements
            && |t.log| >= 1 && t.log[|t.log| - 1] == VICTORY_MESSAGE)
  {
    var p2 := ActionStep(s, log, action, roll);
    ActionStepEffect(s, log, action, roll);
    ResolveDefeatEffect(s, p2.0, p2.1);
  }

  /** A turn keeps the state within bounds, never loses an achievement, and keeps the log short. */
  lemma PlayerTurnKeepsBounds(s: GameState, log: seq<string>, action: Action, roll: int)
    requires Bounded(s) && PlayerRollOk(action, roll)
    ensures var t := PlayerTurn(s, log, action, roll);
      Bounded(t.state)
      && Extends(s.achievements, t.state.achievements)
      && (t.enemyTurnScheduled ==> t.state.isGameActive)
      && (|log| <= LOG_CAPACITY ==> |t.log| <= LOG_CAPACITY)
  {
    if s.isGameActive && !(action == Force && s.playerForce < FORCE_COST) {
      var p2 := ActionStep(s, log, action, roll);
      ActionStepEffect(s, log, action, roll);
      if p2.0.enemyHealth <= 0 {
        DefeatKeepsBounds(s, p2.0, p2.1);
      }
    }
  }

  /** The defeat branch, entered from a bounded active state, ends in a bounded state. */
  lemma DefeatKeepsBounds(before: GameState, s: GameState, log: seq<string>)
    requires Bounded(before) && before.isGameActive
    requires s.currentEnemy == before.currentEnemy && s.isGameActive && s.gamePhase == Playing
    requires s.playerHealth == before.playerHealth && 0 <= s.playerForce <= MAX_PLAYER_FORCE
    requires 0 <= s.score && 0 <= s.combo && 0 <= s.enemyHealth && 0 <= s.enemyForce
    requires Extends(before.achievements, s.achievements)
    ensures Bounded(ResolveDefeat(before, s, log).0)
    ensures Extends(before.achievements, ResolveDefeat(before, s, log).0.achievements)
    ensures |ResolveDefeat(before, s, log).1| <= LOG_CAPACITY
  {
    ResolveDefeatEffect(before, s, log);
    ExtendsTrans(before.achievements, s.achievements, ResolveDefeat(before, s, log).0.achievements);
  }

  /**
   * The opponent's turn changes only the player's health, the opponent's
   * Force and, when the player falls, the phase: the battle is lost exactly
   * when the player's health reaches zero.
   */
  lemma EnemyMoveEffect(s: GameState, log: seq<string>, move: nat, roll: int)
    requires Bounded(s) && s.isGameActive && EnemyRollOk(move, roll)
    ensures var r := EnemyMove(s, log, move, roll).0;
      r == s.(playerHealth := r.playerHealth, enemyForce := r.enemyForce,
              gamePhase := r.gamePhase, isGameActive := r.isGameActive)
      && (r.gamePhase == Defeat <==> r.playerHealth == 0)
      && (!r.isGameActive <==> r.playerHealth == 0)
      && (r.gamePhase != Defeat ==> r.gamePhase == Playing)
      && r.playerHealth <= s.playerHealth
      && (move == 0 ==> r.playerHealth == Max(0, s.playerHealth - roll) && r.enemyForce == s.enemyForce)
      && (move == 1 && s.enemyForce >= ENEMY_FORCE_COST ==>
            r.playerHealth == Max(0, s.playerHealth - roll) && r.enemyForce == s.enemyForce - ENEMY_FORCE_COST)
      && (move == 1 && s.enemyForce < ENEMY_FORCE_COST ==> r == s)
      && (move == 2 ==> r.playerHealth == s.playerHealth
                        && r.enemyForce == Min(Roster[s.currentEnemy].force, s.enemyForce + ENEMY_RESTORE))
  {
  }

  /** Below 20 energy the opponent's Force move fails: one message and nothing else changes. */
  lemma EnemyForceFails(s: GameState, log: seq<string>, roll: int)
    requires Bounded(s) && s.isGameActive && s.enemyForce < ENEMY_FORCE_COST
    ensures EnemyMove(s, log, 1, roll) == (s, AddToLog(log, EnemyForceFailMessage(Roster[s.currentEnemy])))
  {
  }

  /** The opponent's turn keeps the state within bounds and the log short. */
  lemma EnemyMoveKeepsBounds(s: GameState, log: seq<string>, move: nat, roll: int)
    requires Bounded(s) && EnemyRollOk(move, roll)
    ensures Bounded(EnemyMove(s, log, move, roll).0)
    ensures EnemyMove(s, log, move, roll).0.achievements == s.achievements
    ensures |EnemyMove(s, log, move, roll).1| <= LOG_CAPACITY
  {
  }

  // ---------------------------------------------------------------------------
  // Whole battles

  /** One round: the player's action and, when one is scheduled, the opponent's reply. */
  datatype Round = Round(action: Action, roll: int, enemyMove: nat, enemyRoll: int)

  predicate RoundOk(r: Round) {
    PlayerRollOk(r.action, r.roll) && EnemyRollOk(r.enemyMove, r.enemyRoll)
  }

  /**
   * One round: the player's action and, when it schedules one, the
   * opponent's reply.  Every round keeps the state within bounds, keeps every
   * achievement and keeps a short log short.
   */
  function PlayRound(s: GameState, log: seq<string>, r: Round): (a: (GameState, seq<string>))
    requires Bounded(s) && RoundOk(r)
    ensures Bounded(a.0)
    ensures Extends(s.achievements, a.0.achievements)
    ensures |log| <= LOG_CAPACITY ==> |a.1| <= LOG_CAPACITY
  {
    PlayerTurnKeepsBounds(s, log, r.action, r.roll);
    var t := PlayerTurn(s, log, r.action, r.roll);
    if t.enemyTurnScheduled then
      EnemyMoveKeepsBounds(t.state, t.log, r.enemyMove, r.enemyRoll);
      EnemyMove(t.state, t.log, r.enemyMove, r.enemyRoll)
    else (t.state, t.log)
  }

  /** Rounds played in turn, each reply resolving before the next action. */
  function Play(s: GameState, log: seq<string>, rounds: seq<Round>): (GameState, seq<string>)
    requires Bounded(s)
    requires forall i :: 0 <= i < |rounds| ==> RoundOk(rounds[i])
    decreases |rounds|
  {
    if rounds == [] then (s, log)
    else
      assert RoundOk(rounds[0]);
      assert forall i :: 0 <= i < |rounds[1..]| ==> RoundOk(rounds[1..][i]) by {
        forall i | 0 <= i < |rounds[1..]| ensures RoundOk(rounds[1..][i]) {
          assert rounds[1..][i] == rounds[i + 1];
        }
      }
      var after := PlayRound(s, log, rounds[0]);
      Play(after.0, after.1, rounds[1..])
  }

  /** Any number of rounds keeps the state within bounds, keeps every achievement and keeps the log short. */
  lemma {:induction false} PlayKeepsBounds(s: GameState, log: seq<string>, rounds: seq<Round>)
    requires Bounded(s) && |log| <= LOG_CAPACITY
    requires forall i :: 0 <= i < |rounds| ==> RoundOk(rounds[i])
    ensures Bounded(Play(s, log, rounds).0)
    ensures Extends(s.achievements, Play(s, log, rounds).0.achievements)
    ensures |Play(s, log, rounds).1| <= LOG_CAPACITY
    decreases |rounds|
  {
    if rounds != [] {
      var after := PlayRound(s, log, rounds[0]);
      PlayKeepsBounds(after.0, after.1, rounds[1..]);
      ExtendsTrans(s.achievements, after.0.achievements, Play(after.0, after.1, rounds[1..]).0.achievements);
    }
  }

  /** Once a battle is over, further presses change nothing. */
  lemma {:induction false} FinishedBattleIsFinal(s: GameState, log: seq<string>, rounds: seq<Round>)
    requires Bounded(s) && !s.isGameActive
    requires forall i :: 0 <= i < |rounds| ==> RoundOk(rounds[i])
    ensures Play(s, log, rounds) == (s, log)
    decreases |rounds|
  {
    if rounds != [] {
      assert PlayRound(s, log, rounds[0]) == (s, log);
      FinishedBattleIsFinal(s, log, rounds[1..]);
    }
  }

  /**
   * Two strikes of 40 points or more against the Padawan Trainee, who
   * defends in between, win the first duel at full health: 100 points,
   * "First Blood" and "No Mercy", and the Jedi Knight steps in.
   */
  lemma OpeningDuel(round: Round)
    requires round.action == Attack && 40 <= round.roll < 45 && round.enemyMove == 2 && RoundOk(round)
    ensures var r := Play(Started(InitialState), [], [round, round]).0;
      r.currentEnemy == 1 && r.score == 100 && FIRST_BLOOD in r.achievements && NO_MERCY in r.achievements
      && r.enemyHealth == 120 && r.combo == 2 && r.isGameActive
  {
    var s0 := Started(InitialState);
    FirstExchange(s0, round);
    var a1 := PlayRound(s0, [], round);
    SecondStrike(a1.0, a1.1, round);
    PlayTwo(s0, [], round, round);
  }

  /** Two rounds played in turn are the second round played on the first one's outcome. */
  lemma PlayTwo(s: GameState, log: seq<string>, r1: Round, r2: Round)
    requires Bounded(s) && RoundOk(r1) && RoundOk(r2)
    ensures var a := PlayRound(s, log, r1);
      Play(s, log, [r1, r2]) == PlayRound(a.0, a.1, r2)
  {
    var a := PlayRound(s, log, r1);
    assert [r1, r2][1..] == [r2];
    assert [r2][1..] == [];
    assert Play(a.0, a.1, [r2]) == Play(PlayRound(a.0, a.1, r2).0, PlayRound(a.0, a.1, r2).1, []);
  }

  /** The first strike of the opening duel leaves the trainee standing; the trainee's defence changes nothing that matters. */
  lemma FirstExchange(s0: GameState, round: Round)
    requires s0 == Started(InitialState)
    requires round.action == Attack && 40 <= round.roll < 45 && round.enemyMove == 2
    ensures var a := PlayRound(s0, [], round).0;
      a.score == 0 && a.playerHealth == MAX_PLAYER_HEALTH && a.currentEnemy == 0
      && a.isGameActive && a.enemyHealth == 80 - round.roll
      && a.combo == 1 && a.lastAction == Some(Attack)
  {
    OpponentSurvives(s0, [], Attack, round.roll);
    var t1 := PlayerTurn(s0, [], Attack, round.roll);
    EnemyMoveEffect(t1.state, t1.log, 2, round.enemyRoll);
  }

  /** The second strike finishes the trainee at full health, and the Jedi Knight enters. */
  lemma SecondStrike(s: GameState, log: seq<string>, round: Round)
    requires Bounded(s) && round.action == Attack && 40 <= round.roll < 45 && round.enemyMove == 2
    requires s.score == 0 && s.playerHealth == MAX_PLAYER_HEALTH && s.currentEnemy == 0
    requires s.isGameActive && s.enemyHealth == 80 - round.roll
    requires s.combo == 1 && s.lastAction == Some(Attack)
    ensures var a := PlayRound(s, log, round).0;
      a.currentEnemy == 1 && a.score == 100 && FIRST_BLOOD in a.achievements && NO_MERCY in a.achievements
      && a.enemyHealth == 120 && a.combo == 2 && a.isGameActive
  {
    OpponentDefeated(s, log, Attack, round.roll);
  }

  // ---------------------------------------------------------------------------
  // The update queue of the `gameState` hook, as React processes it

  /** An update queued on `gameState`: the updater of `unlockAchievement(name)`, or `setGameState(value)`. */
  datatype Update = Unlocking(name: string) | Replace(value: GameState)

  /** An achievement list with `name` added once. */
  function AddName(a: seq<string>, name: string): (r: seq<string>)
    ensures name in r && Extends(a, r)
    ensures name in a ==> r == a
    ensures name !in a ==> r == a + [name]
  {
    if name in a then a else a + [name]
  }

  /** An achievement list with several names added in turn. */
  function AddNames(a: seq<string>, names: seq<string>): seq<string>
    decreases |names|
  {
    if names == [] then a else AddNames(AddName(a, names[0]), names[1..])
  }

  /** One queued update applied to the state React holds: the updater unlocks, a plain value replaces. */
  function ApplyUpdate(prev: GameState, u: Update): (r: GameState)
    ensures u.Replace? ==> r == u.value
    ensures u.Unlocking? ==> r == Unlock(prev, [], u.name).0
  {
    match u
    case Unlocking(name) => prev.(achievements := AddName(prev.achievements, name))
    case Replace(value) => value
  }

  /** The queue applied at the next render, in the order it was issued, from the state React holds. */
  function ApplyQueue(base: GameState, q: seq<Update>): GameState
    decreases |q|
  {
    if q == [] then base else ApplyQueue(ApplyUpdate(base, q[0]), q[1..])
  }

  /** One `unlockAchievement` updater per name, in order. */
  function Unlockings(names: seq<string>): (q: seq<Update>)
    ensures |q| == |names|
    ensures forall i :: 0 <= i < |q| ==> q[i] == Unlocking(names[i])
  {
    seq(|names|, i requires 0 <= i < |names| => Unlocking(names[i]))
  }

  /** Applying a queue in two parts is applying the first part and then the second. */
  lemma {:induction false} ApplyQueueAppend(base: GameState, p: seq<Update>, q: seq<Update>)
    ensures ApplyQueue(base, p + q) == ApplyQueue(ApplyQueue(base, p), q)
    decreases |p|
  {
    if p == [] {
      assert p + q == q;
    } else {
      assert (p + q)[1..] == p[1..] + q;
      ApplyQueueAppend(ApplyUpdate(base, p[0]), p[1..], q);
    }
  }

  /** Whatever is queued before it, a plain `setGameState(value)` decides the state. */
  lemma QueueEndingInReplace(base: GameState, q: seq<Update>, value: GameState)
    ensures ApplyQueue(base, q + [Replace(value)]) == value
  {
    ApplyQueueAppend(base, q, [Replace(value)]);
    var mid := ApplyQueue(base, q);
    assert [Replace(value)][1..] == [];
    assert ApplyQueue(mid, [Replace(value)]) == ApplyQueue(value, []);
  }

  /** A run of unlock updaters adds the names to the achievements and changes nothing else. */
  lemma {:induction false} UnlockingsAddNames(g: GameState, names: seq<string>)
    ensures ApplyQueue(g, Unlockings(names)) == g.(achievements := AddNames(g.achievements, names))
    decreases |names|
  {
    if names != [] {
      var q := Unlockings(names);
      assert q[1..] == Unlockings(names[1..]);
      var g1 := g.(achievements := AddName(g.achievements, names[0]));
      assert ApplyUpdate(g, q[0]) == g1;
      UnlockingsAddNames(g1, names[1..]);
    }
  }

  /** Adding names in two parts is adding the first part and then the second. */
  lemma {:induction false} AddNamesAppend(a: seq<string>, x: seq<string>, y: seq<string>)
    ensures AddNames(a, x + y) == AddNames(AddNames(a, x), y)
    decreases |x|
  {
    if x == [] {
      assert x + y == y;
    } else {
      assert (x + y)[1..] == x[1..] + y;
      AddNamesAppend(AddName(a, x[0]), x[1..], y);
    }
  }

  lemma AddOneName(a: seq<string>, name: string)
    ensures AddNames(a, [name]) == AddName(a, name)
  {
    assert [name][1..] == [];
  }

  // The record `performAction` builds, without the achievements it unlocks

  /** The switch over the action and `newState.lastAction = action`, on the copied state. */
  function MovedState(s: GameState, action: Action, roll: int): (r: GameState)
    requires action == Force ==> s.playerForce >= FORCE_COST
    ensures r.achievements == s.achievements && r.playerHealth == s.playerHealth
    ensures r.currentEnemy == s.currentEnemy && r.lastAction == Some(action)
    ensures r.combo == NextCombo(s, action)
  {
    var m := match action
      case Attack => s.(enemyHealth := Max(0, s.enemyHealth - roll), combo := NextCombo(s, Attack))
      case Force => s.(enemyHealth := Max(0, s.enemyHealth - roll), playerForce := s.playerForce - FORCE_COST,
                       combo := NextCombo(s, Force))
      case Defend => s.(playerForce := Min(MAX_PLAYER_FORCE, s.playerForce + DEFEND_RESTORE), combo := 0);
    m.(lastAction := Some(action))
  }

  /** The end of the defeat branch on the copy: the next opponent, or the victory. */
  function Advanced(m: GameState): (r: GameState)
    requires m.currentEnemy < |Roster|
    ensures r.achievements == m.achievements && r.score == m.score
  {
    if m.currentEnemy < |Roster| - 1 then
      m.(currentEnemy := m.currentEnemy + 1, enemyHealth := Roster[m.currentEnemy + 1].health,
         enemyForce := Roster[m.currentEnemy + 1].force)
    else
      m.(gamePhase := Victory, isGameActive := false)
  }

  /** `newState.score += enemy.difficulty * 100`. */
  function Scored(m: GameState): (r: GameState)
    requires m.currentEnemy < |Roster|
  {
    m.(score := m.score + Roster[m.currentEnemy].difficulty * POINTS_PER_DIFFICULTY)
  }

  /** The defeat branch on the copy: the score, then the next opponent or the victory. */
  function AfterDefeat(m: GameState): (r: GameState)
    requires m.currentEnemy < |Roster|
    ensures r.achievements == m.achievements
    ensures r.score == m.score + Roster[m.currentEnemy].difficulty * POINTS_PER_DIFFICULTY
  {
    Advanced(Scored(m))
  }

  /** The defeat branch on the copy never looks at the achievement list. */
  lemma AfterDefeatKeepsList(m: GameState, a: seq<string>)
    requires m.currentEnemy < |Roster|
    ensures AfterDefeat(m.(achievements := a)) == AfterDefeat(m).(achievements := a)
  {
    assert Scored(m.(achievements := a)) == Scored(m).(achievements := a);
  }

  /** `newState` as `performAction` hands it to `setGameState`: no achievement is ever written into it. */
  function NewStateOf(s: GameState, action: Action, roll: int): (r: GameState)
    requires s.currentEnemy < |Roster|
    requires action == Force ==> s.playerForce >= FORCE_COST
    ensures r.achievements == s.achievements
  {
    var m := MovedState(s, action, roll);
    if m.enemyHealth <= 0 then AfterDefeat(m) else m
  }

  /** The names the action half passes to `unlockAchievement`, in call order. */
  function ActionCalls(s: GameState, action: Action, roll: int): seq<string>
    requires action == Force ==> s.playerForce >= FORCE_COST
  {
    (if action == Force && ForceSensitiveDue(s) then [FORCE_SENSITIVE] else [])
    + (if MovedState(s, action, roll).combo >= COMBO_GOAL then [COMBO_MASTER] else [])
  }

  /** The names the scoring half of the defeat branch passes to `unlockAchievement`; `health` is `newState.playerHealth`. */
  function AwardCalls(s: GameState, health: int): seq<string>
    requires s.currentEnemy < |Roster|
  {
    (if s.currentEnemy == 0 && FIRST_BLOOD !in s.achievements then [FIRST_BLOOD] else [])
    + (if health == MAX_PLAYER_HEALTH then [NO_MERCY] else [])
    + (if Roster[s.currentEnemy].name == "Darth Vader" then [SITH_LORD] else [])
  }

  /** The name the victory passes to `unlockAchievement`. */
  function VictoryCalls(s: GameState): seq<string> {
    if s.currentEnemy == |Roster| - 1 then [CHOSEN_ONE] else []
  }

  /** The names the defeat branch passes to `unlockAchievement`, in call order; `m` is `newState` at the check. */
  function DefeatCalls(s: GameState, m: GameState): seq<string>
    requires s.currentEnemy < |Roster|
  {
    AwardCalls(s, m.playerHealth) + VictoryCalls(s)
  }

  /** Every `unlockAchievement` call of an accepted action, in call order. */
  function UnlockCalls(s: GameState, action: Action, roll: int): seq<string>
    requires s.currentEnemy < |Roster|
    requires action == Force ==> s.playerForce >= FORCE_COST
  {
    var m := MovedState(s, action, roll);
    ActionCalls(s, action, roll) + (if m.enemyHealth <= 0 then DefeatCalls(s, m) else [])
  }

  /**
   * The updates one press queues on `gameState`: an updater for each
   * `unlockAchievement` call, then `setGameState(newState)`.  The early
   * returns queue nothing.
   */
  function IssuedUpdates(s: GameState, action: Action, roll: int): (q: seq<Update>)
    requires s.currentEnemy < |Roster|
  {
    if !s.isGameActive || (action == Force && s.playerForce < FORCE_COST) then []
    else Unlockings(UnlockCalls(s, action, roll)) + [Replace(NewStateOf(s, action, roll))]
  }

  /** `performAction` as React executes it: the issued queue applied at the next render. */
  function PlayerTurnAsWritten(s: GameState, action: Action, roll: int): GameState
    requires s.currentEnemy < |Roster|
  {
    ApplyQueue(s, IssuedUpdates(s, action, roll))
  }

  /**
   * As written, every press ends with the achievement list it started with:
   * an accepted action ends at `newState`, whose list is the old one, and an
   * early return changes nothing.
   */
  lemma AsWrittenLosesUnlocks(s: GameState, action: Action, roll: int)
    requires s.currentEnemy < |Roster|
    ensures PlayerTurnAsWritten(s, action, roll).achievements == s.achievements
    ensures s.isGameActive && (action == Force ==> s.playerForce >= FORCE_COST) ==>
      PlayerTurnAsWritten(s, action, roll) == NewStateOf(s, action, roll)
    ensures !s.isGameActive || (action == Force && s.playerForce < FORCE_COST) ==>
      PlayerTurnAsWritten(s, action, roll) == s
  {
    if s.isGameActive && (action == Force ==> s.playerForce >= FORCE_COST) {
      QueueEndingInReplace(s, Unlockings(UnlockCalls(s, action, roll)), NewStateOf(s, action, roll));
    }
  }

  /** A guarded unlock adds the name to the achievements when the guard holds, and changes nothing else. */
  lemma UnlockIfRecord(c: bool, g: GameState, log: seq<string>, name: string)
    ensures UnlockIf(c, g, log, name).0 == g.(achievements := AddNames(g.achievements, if c then [name] else []))
  {
    if c { AddOneName(g.achievements, name); }
  }

  /** One more guarded unlock on a record built by earlier unlocks extends the list of names. */
  lemma UnlockIfAfter(c: bool, g: GameState, a: seq<string>, names: seq<string>, log: seq<string>, name: string)
    ensures UnlockIf(c, g.(achievements := AddNames(a, names)), log, name).0
      == g.(achievements := AddNames(a, names + (if c then [name] else [])))
  {
    UnlockIfRecord(c, g.(achievements := AddNames(a, names)), log, name);
    AddNamesAppend(a, names, if c then [name] else []);
  }

  /** The action half of the intended turn is the moved record with the action's unlocks. */
  lemma ActionStepRecord(s: GameState, log: seq<string>, action: Action, roll: int)
    requires action == Force ==> s.playerForce >= FORCE_COST
    ensures ActionStep(s, log, action, roll).0
      == MovedState(s, action, roll).(achievements := AddNames(s.achievements, ActionCalls(s, action, roll)))
  {
    var m := MovedState(s, action, roll);
    var p1 := ApplyAction(s, log, action, roll);
    var f := if action == Force && ForceSensitiveDue(s) then [FORCE_SENSITIVE] else [];
    assert p1.0.(lastAction := Some(action)) == m.(achievements := AddNames(s.achievements, f)) by {
      if action == Force {
        var ns := s.(enemyHealth := Max(0, s.enemyHealth - roll), playerForce := s.playerForce - FORCE_COST,
                     combo := NextCombo(s, Force));
        UnlockIfRecord(ForceSensitiveDue(s), ns, AddToLog(log, LightningMessage(roll)), FORCE_SENSITIVE);
      }
    }
    UnlockIfAfter(m.combo >= COMBO_GOAL, m, s.achievements, f, p1.1, COMBO_MASTER);
  }

  /** The three checks of the defeat branch add the names they call for and change nothing else. */
  lemma DefeatAchievementsRecord(before: GameState, g: GameState, log: seq<string>)
    requires before.currentEnemy < |Roster|
    ensures DefeatAchievements(before, g, log).0
      == g.(achievements := AddNames(g.achievements, AwardCalls(before, g.playerHealth)))
  {
    var a := g.achievements;
    var c1 := before.currentEnemy == 0 && FIRST_BLOOD !in before.achievements;
    var c2 := g.playerHealth == MAX_PLAYER_HEALTH;
    var c3 := Roster[before.currentEnemy].name == "Darth Vader";
    var fb := if c1 then [FIRST_BLOOD] else [];
    var nm := if c2 then [NO_MERCY] else [];
    var p2 := UnlockIf(c1, g, log, FIRST_BLOOD);
    UnlockIfRecord(c1, g, log, FIRST_BLOOD);
    var p3 := UnlockIf(c2, p2.0, p2.1, NO_MERCY);
    UnlockIfAfter(c2, g, a, fb, p2.1, NO_MERCY);
    UnlockIfAfter(c3, g, a, fb + nm, p3.1, SITH_LORD);
  }

  /** The closing half of the intended defeat branch is the advanced record, with "The Chosen One" after the last opponent. */
  lemma AdvanceRecord(g: GameState, a: seq<string>, names: seq<string>, log: seq<string>)
    requires g.currentEnemy < |Roster|
    ensures Advance(g.(achievements := AddNames(a, names)), log).0
      == Advanced(g).(achievements := AddNames(a, names + VictoryCalls(g)))
  {
    AddNamesAppend(a, names, VictoryCalls(g));
    if g.currentEnemy == |Roster| - 1 {
      AddOneName(AddNames(a, names), CHOSEN_ONE);
    } else {
      assert names + [] == names;
    }
  }

  /** The scoring half of the intended defeat branch is the scored record with its three unlocks. */
  lemma AwardDefeatRecord(before: GameState, p: GameState, a: seq<string>, names: seq<string>, log: seq<string>)
    requires before.currentEnemy < |Roster| && p.currentEnemy == before.currentEnemy
    requires p.achievements == AddNames(a, names)
    ensures AwardDefeat(before, p, log).0
      == Scored(p).(achievements := AddNames(a, names + AwardCalls(before, p.playerHealth)))
  {
    var scored := Scored(p);
    AwardDefeatSteps(before, p, log);
    DefeatAchievementsRecord(before, scored, AddToLog(log, DefeatedMessage(Roster[before.currentEnemy])));
    AddNamesAppend(a, names, AwardCalls(before, p.playerHealth));
  }

  /** The defeat half of the intended turn is the defeat record with the defeat's unlocks. */
  lemma ResolveDefeatRecord(before: GameState, p: GameState, a: seq<string>, names: seq<string>, log: seq<string>)
    requires before.currentEnemy < |Roster| && p.currentEnemy == before.currentEnemy
    requires p.achievements == AddNames(a, names)
    ensures ResolveDefeat(before, p, log).0
      == AfterDefeat(p).(achievements := AddNames(a, names + DefeatCalls(before, p)))
  {
    var q := AwardDefeat(before, p, log);
    AwardDefeatRecord(before, p, a, names, log);
    AdvanceRecord(Scored(p), a, names + AwardCalls(before, p.playerHealth), q.1);
    DefeatCallsSplit(before, p, names);
  }

  lemma DefeatCallsSplit(before: GameState, p: GameState, names: seq<string>)
    requires before.currentEnemy < |Roster| && p.currentEnemy == before.currentEnemy
    ensures names + AwardCalls(before, p.playerHealth) + VictoryCalls(Scored(p)) == names + DefeatCalls(before, p)
  {
  }

  /**
   * The intended turn, `PlayerTurn`, is the record `performAction` builds
   * with every unlock it calls for applied on top of it, in call order.
   */
  lemma IntendedTurnRecord(s: GameState, log: seq<string>, action: Action, roll: int)
    requires s.currentEnemy < |Roster| && s.isGameActive
    requires action == Force ==> s.playerForce >= FORCE_COST
    ensures PlayerTurn(s, log, action, roll).state
      == NewStateOf(s, action, roll).(achievements := AddNames(s.achievements, UnlockCalls(s, action, roll)))
  {
    if MovedState(s, action, roll).enemyHealth <= 0 {
      DefeatedTurnRecord(s, log, action, roll);
    } else {
      SurvivingTurnRecord(s, log, action, roll);
    }
  }

  /** The intended turn that leaves the opponent standing, as a record with its unlocks. */
  lemma SurvivingTurnRecord(s: GameState, log: seq<string>, action: Action, roll: int)
    requires s.currentEnemy < |Roster| && s.isGameActive
    requires action == Force ==> s.playerForce >= FORCE_COST
    requires MovedState(s, action, roll).enemyHealth > 0
    ensures PlayerTurn(s, log, action, roll).state
      == MovedState(s, action, roll).(achievements := AddNames(s.achievements, UnlockCalls(s, action, roll)))
  {
    ActionStepRecord(s, log, action, roll);
    var ac := ActionCalls(s, action, roll);
    assert UnlockCalls(s, action, roll) == ac + [];
    assert ac + [] == ac;
  }

  /** The intended turn that defeats the opponent, as a record with its unlocks. */
  lemma DefeatedTurnRecord(s: GameState, log: seq<string>, action: Action, roll: int)
    requires s.currentEnemy < |Roster|
    requires action == Force ==> s.playerForce >= FORCE_COST
    requires s.isGameActive
    requires MovedState(s, action, roll).enemyHealth <= 0
    ensures PlayerTurn(s, log, action, roll).state
      == AfterDefeat(MovedState(s, action, roll)).(achievements := AddNames(s.achievements, UnlockCalls(s, action, roll)))
  {
    var m := MovedState(s, action, roll);
    var ac := ActionCalls(s, action, roll);
    ActionStepRecord(s, log, action, roll);
    var p2 := ActionStep(s, log, action, roll);
    ResolveDefeatRecord(s, p2.0, s.achievements, ac, p2.1);
    assert DefeatCalls(s, p2.0) == DefeatCalls(s, m);
    AfterDefeatKeepsList(m, p2.0.achievements);
  }

  /**
   * The correction, stated on the queue: the intended turn is the one
   * whose `setGameState(newState)` comes first and whose unlock updaters
   * follow it, while the source issues them the other way round.
   */
  lemma IntendedIsReplaceThenUnlock(s: GameState, log: seq<string>, action: Action, roll: int)
    requires s.currentEnemy < |Roster| && s.isGameActive
    requires action == Force ==> s.playerForce >= FORCE_COST
    ensures var n, u := NewStateOf(s, action, roll), Unlockings(UnlockCalls(s, action, roll));
      PlayerTurn(s, log, action, roll).state == ApplyQueue(s, [Replace(n)] + u)
      && IssuedUpdates(s, action, roll) == u + [Replace(n)]
  {
    var n, names := NewStateOf(s, action, roll), UnlockCalls(s, action, roll);
    var u := Unlockings(names);
    IntendedTurnRecord(s, log, action, roll);
    UnlockingsAddNames(n, names);
    assert ([Replace(n)] + u)[1..] == u;
    assert ApplyQueue(s, [Replace(n)] + u) == ApplyQueue(n, u);
  }

  /** Beating the first opponent as written leaves "First Blood" locked; the intended turn unlocks it. */
  lemma FirstBloodIsLost()
    ensures var s := Started(InitialState).(enemyHealth := 10);
      FIRST_BLOOD !in PlayerTurnAsWritten(s, Attack, 15).achievements
      && FIRST_BLOOD in PlayerTurn(s, [], Attack, 15).state.achievements
  {
    var s := Started(InitialState).(enemyHealth := 10);
    AsWrittenLosesUnlocks(s, Attack, 15);
    OpponentDefeated(s, [], Attack, 15);
  }

  // ---------------------------------------------------------------------------
  // The hidden key sequence

  const KONAMI_CODE: seq<string> := ["ArrowUp", "ArrowUp", "ArrowDown", "ArrowDown",
                                     "ArrowLeft", "ArrowRight", "ArrowLeft", "ArrowRight", "KeyB", "KeyA"]

  const KONAMI_LENGTH: nat := 10

  /** The key window after a keydown: the last ten key codes. */
  function KonamiWindow(keys: seq<string>, code: string): (r: seq<string>)
    ensures 1 <= |r| <= KONAMI_LENGTH && r[|r| - 1] == code
  {
    var xs := keys + [code];
    var r := LastN(xs, KONAMI_LENGTH);
    assert r[|r| - 1] == xs[|xs| - 1];
    r
  }

  /** The source compares the comma-joined window with the comma-joined code. */
  predicate KonamiMatched(window: seq<string>) {
    Join(window, ',') == Join(KONAMI_CODE, ',')
  }

  /** Key codes are names such as "Comma", never a comma, so the joined comparison is an exact one. */
  lemma KonamiMatchIsExact(window: seq<string>)
    requires |window| >= 1
    requires forall i :: 0 <= i < |window| ==> ',' !in window[i]
    ensures KonamiMatched(window) <==> window == KONAMI_CODE
  {
    forall i | 0 <= i < |KONAMI_CODE| ensures ',' !in KONAMI_CODE[i] {
      assert KONAMI_CODE[i] in KONAMI_CODE;
    }
    JoinInjective(window, KONAMI_CODE, ',');
  }

  /** The window after a run of keydowns. */
  function Feed(keys: seq<string>, codes: seq<string>): seq<string>
    decreases |codes|
  {
    if codes == [] then keys else Feed(KonamiWindow(keys, codes[0]), codes[1..])
  }

  /** Whatever came before, the window holds the last ten keys pressed. */
  lemma {:induction false} FeedKeepsLastKeys(keys: seq<string>, codes: seq<string>)
    requires |keys| <= KONAMI_LENGTH
    ensures Feed(keys, codes) == LastN(keys + codes, KONAMI_LENGTH)
    decreases |codes|
  {
    if codes != [] {
      var w := KonamiWindow(keys, codes[0]);
      FeedKeepsLastKeys(w, codes[1..]);
      LastNOfLastN(keys + [codes[0]], codes[1..], KONAMI_LENGTH);
      AppendHeadTail(keys, codes);
    }
  }

  /** Typing the code after any earlier keys fills the window with exactly the code. */
  lemma TypingTheCodeMatches(keys: seq<string>)
    requires |keys| <= KONAMI_LENGTH
    ensures Feed(keys, KONAMI_CODE) == KONAMI_CODE
    ensures KonamiMatched(Feed(keys, KONAMI_CODE))
  {
    FeedKeepsLastKeys(keys, KONAMI_CODE);
    LastNOfSuffix(keys, KONAMI_CODE);
  }

  // ---------------------------------------------------------------------------
  // The component

  /** The simulator's state hooks: the game, the battle log, the easter egg flag and the key window. */
  class BattleSimulator {
    var state: GameState
    var battleLog: seq<string>
    var showEasterEgg: bool
    var konami: seq<string>

    ghost predicate Valid()
      reads this
    {
      Bounded(state) && |battleLog| <= LOG_CAPACITY && |konami| <= KONAMI_LENGTH
    }

    constructor ()
      ensures Valid()
      ensures state == InitialState && battleLog == [] && !showEasterEgg && konami == []
    {
      state := InitialState;
      battleLog := [];
      showEasterEgg := false;
      konami := [];
    }

    /** `startGame`. */
    method StartGame()
      requires Valid()
      modifies this
      ensures Valid()
      ensures state == Started(old(state)) && battleLog == [StartMessage(Roster[0])]
      ensures showEasterEgg == old(showEasterEgg) && konami == old(konami)
    {
      state := GameState(MAX_PLAYER_HEALTH, Roster[0].health, MAX_PLAYER_FORCE, Roster[0].force, 0, 0,
                         true, Playing, state.achievements, 0, None);
      battleLog := [StartMessage(Roster[0])];
    }

    /** `resetGame`. */
    method ResetGame()
      requires Valid()
      modifies this
      ensures Valid()
      ensures state == ToMenu(old(state)) && battleLog == []
      ensures showEasterEgg == old(showEasterEgg) && konami == old(konami)
    {
      state := state.(gamePhase := Menu, isGameActive := false);
      battleLog := [];
    }

    /**
     * `performAction`: the returned state is the one the scheduled
     * `enemyTurn` will receive, or `None` when no turn was scheduled.
     */
    method PerformAction(action: Action, roll: int) returns (pending: Option<GameState>)
      requires Valid() && PlayerRollOk(action, roll)
      modifies this
      ensures Valid()
      ensures var t := PlayerTurn(old(state), old(battleLog), action, roll);
        state == t.state && battleLog == t.log
        && pending == (if t.enemyTurnScheduled then Some(t.state) else None)
      ensures pending.Some? ==> Bounded(pending.value) && pending.value.isGameActive
      ensures showEasterEgg == old(showEasterEgg) && konami == old(konami)
    {
      PlayerTurnKeepsBounds(state, battleLog, action, roll);
      if !state.isGameActive {
        return None;
      }
      if action == Force && state.playerForce < FORCE_COST {
        battleLog := AddToLog(battleLog, NOT_ENOUGH_FORCE);
        return None;
      }
      pending := Accept(action, roll);
    }

    /** The body of `performAction` once the action is accepted. */
    method Accept(action: Action, roll: int) returns (pending: Option<GameState>)
      requires state.currentEnemy < |Roster|
      requires action == Force ==> state.playerForce >= FORCE_COST
      modifies this
      ensures var t := AcceptedTurn(old(state), old(battleLog), action, roll);
        state == t.state && battleLog == t.log
        && pending == (if t.enemyTurnScheduled then Some(t.state) else None)
      ensures showEasterEgg == old(showEasterEgg) && konami == old(konami)
    {
      var current := state;
      ghost var step := ActionStep(current, battleLog, action, roll);
      ActionStepEffect(current, battleLog, action, roll);
      var newState := PlayerMove(current, action, roll);
      newState := newState.(lastAction := Some(action));
      if newState.combo >= COMBO_GOAL {
        newState := UnlockAchievement(newState, COMBO_MASTER);
      }
      assert (newState, battleLog) == step;
      if newState.enemyHealth <= 0 {
        newState := ScoreDefeat(current, newState);
        newState := NextOpponent(newState);
        pending := None;
      } else {
        pending := Some(newState);
      }
      state := newState;
    }

    /** The `switch` over the player's action, once a Force action is known to be affordable. */
    method PlayerMove(current: GameState, action: Action, roll: int) returns (newState: GameState)
      requires action == Force ==> current.playerForce >= FORCE_COST
      modifies this
      ensures (newState, battleLog) == ApplyAction(current, old(battleLog), action, roll)
      ensures state == old(state) && showEasterEgg == old(showEasterEgg) && konami == old(konami)
    {
      newState := current;
      match action {
        case Attack =>
          newState := newState.(enemyHealth := Max(0, newState.enemyHealth - roll));
          battleLog := AddToLog(battleLog, StrikeMessage(roll));
          newState := newState.(combo := if newState.lastAction == Some(Attack) then newState.combo + 1 else 1);
        case Force =>
          newState := UseForce(current, roll);
        case Defend =>
          newState := newState.(playerForce := Min(MAX_PLAYER_FORCE, newState.playerForce + DEFEND_RESTORE));
          battleLog := AddToLog(battleLog, DEFEND_MESSAGE);
          newState := newState.(combo := 0);
      }
    }

    /** The Force case of the switch. */
    method UseForce(current: GameState, roll: int) returns (newState: GameState)
      requires current.playerForce >= FORCE_COST
      modifies this
      ensures (newState, battleLog) == ForceLightning(current, old(battleLog), roll)
      ensures state == old(state) && showEasterEgg == old(showEasterEgg) && konami == old(konami)
    {
      newState := current.(enemyHealth := Max(0, current.enemyHealth - roll));
      newState := newState.(playerForce := newState.playerForce - FORCE_COST);
      battleLog := AddToLog(battleLog, LightningMessage(roll));
      newState := newState.(combo := if newState.lastAction == Some(Force) then newState.combo + 1 else 1);
      newState := UnlockWhen(!HasForceSensitive(current.achievements) && current.score + 1 >= 10, newState, FORCE_SENSITIVE);
    }

    /** The scoring part of the defeat branch; `before` is the state the action started from. */
    method ScoreDefeat(before: GameState, current: GameState) returns (newState: GameState)
      requires before.currentEnemy < |Roster|
      modifies this
      ensures (newState, battleLog) == AwardDefeat(before, current, old(battleLog))
      ensures state == old(state) && showEasterEgg == old(showEasterEgg) && konami == old(konami)
    {
      var enemy := Roster[before.currentEnemy];
      newState := current.(score := current.score + enemy.difficulty * POINTS_PER_DIFFICULTY);
      battleLog := AddToLog(battleLog, DefeatedMessage(enemy));
      AwardDefeatSteps(before, current, old(battleLog));
      newState := CheckDefeatAchievements(before, newState);
    }

    /** The achievement checks that follow a defeat. */
    method CheckDefeatAchievements(before: GameState, current: GameState) returns (newState: GameState)
      requires before.currentEnemy < |Roster|
      modifies this
      ensures (newState, battleLog) == DefeatAchievements(before, current, old(battleLog))
      ensures state == old(state) && showEasterEgg == old(showEasterEgg) && konami == old(konami)
    {
      newState := UnlockWhen(before.currentEnemy == 0 && FIRST_BLOOD !in before.achievements, current, FIRST_BLOOD);
      newState := UnlockWhen(newState.playerHealth == MAX_PLAYER_HEALTH, newState, NO_MERCY);
      newState := UnlockWhen(Roster[before.currentEnemy].name == "Darth Vader", newState, SITH_LORD);
    }

    /** `if (c) unlockAchievement(name)`, applied to the state being built. */
    method UnlockWhen(c: bool, current: GameState, name: string) returns (newState: GameState)
      modifies this
      ensures (newState, battleLog) == UnlockIf(c, current, old(battleLog), name)
      ensures state == old(state) && showEasterEgg == old(showEasterEgg) && konami == old(konami)
    {
      newState := current;
      if c {
        newState := UnlockAchievement(current, name);
      }
    }

    /** `unlockAchievement(name)`: record it and announce it, unless it is already held. */
    method UnlockAchievement(current: GameState, name: string) returns (newState: GameState)
      modifies this
      ensures (newState, battleLog) == Unlock(current, old(battleLog), name)
      ensures state == old(state) && showEasterEgg == old(showEasterEgg) && konami == old(konami)
    {
      newState := current;
      if name !in current.achievements {
        battleLog := AddToLog(battleLog, UnlockMessage(name));
        newState := current.(achievements := current.achievements + [name]);
      }
    }

    /** The closing part of the defeat branch: the next opponent, or victory. */
    method NextOpponent(current: GameState) returns (newState: GameState)
      requires current.currentEnemy < |Roster|
      modifies this
      ensures (newState, battleLog) == Advance(current, old(battleLog))
      ensures state == old(state) && showEasterEgg == old(showEasterEgg) && konami == old(konami)
    {
      newState := current;
      if newState.currentEnemy < |Roster| - 1 {
        newState := newState.(currentEnemy := newState.currentEnemy + 1);
        var nextEnemy := Roster[newState.currentEnemy];
        newState := newState.(enemyHealth := nextEnemy.health, enemyForce := nextEnemy.force);
        battleLog := AddToLog(battleLog, ApproachMessage(nextEnemy));
      } else {
        newState := newState.(gamePhase := Victory, isGameActive := false);
        newState := UnlockAchievement(newState, CHOSEN_ONE);
        battleLog := AddToLog(battleLog, VICTORY_MESSAGE);
      }
    }

    /** `enemyTurn(currentState)`: the reply computed on the captured state replaces the current one. */
    method EnemyTurn(captured: GameState, move: nat, roll: int)
      requires Valid() && Bounded(captured) && EnemyRollOk(move, roll)
      modifies this
      ensures Valid()
      ensures var r := EnemyMove(captured, old(battleLog), move, roll);
        state == r.0 && battleLog == r.1
      ensures showEasterEgg == old(showEasterEgg) && konami == old(konami)
    {
      EnemyMoveKeepsBounds(captured, battleLog, move, roll);
      var newState := EnemyAct(captured, move, roll);
      if newState.playerHealth <= 0 {
        newState := newState.(gamePhase := Defeat, isGameActive := false);
        battleLog := AddToLog(battleLog, DEFEAT_MESSAGE);
      }
      state := newState;
    }

    /** The `switch` over the opponent's move inside `enemyTurn`. */
    method EnemyAct(captured: GameState, move: nat, roll: int) returns (newState: GameState)
      requires captured.currentEnemy < |Roster|
      modifies this
      ensures (newState, battleLog) == EnemyAction(captured, old(battleLog), move, roll)
      ensures state == old(state) && showEasterEgg == old(showEasterEgg) && konami == old(konami)
    {
      var enemy := Roster[captured.currentEnemy];
      newState := captured;
      if move == 0 {
        newState := newState.(playerHealth := Max(0, newState.playerHealth - roll));
        battleLog := AddToLog(battleLog, EnemyAttackMessage(enemy, roll));
      } else if move == 1 {
        if newState.enemyForce >= ENEMY_FORCE_COST {
          newState := newState.(playerHealth := Max(0, newState.playerHealth - roll));
          newState := newState.(enemyForce := newState.enemyForce - ENEMY_FORCE_COST);
          battleLog := AddToLog(battleLog, EnemyForceMessage(enemy, roll));
        } else {
          battleLog := AddToLog(battleLog, EnemyForceFailMessage(enemy));
        }
      } else {
        newState := newState.(enemyForce := Min(enemy.force, newState.enemyForce + ENEMY_RESTORE));
        battleLog := AddToLog(battleLog, EnemyDefendMessage(enemy));
      }
    }

    /**
     * The keydown listener: only while the simulator is open; the full code
     * reveals R2-D2.  `setKonami` has already queued an update on the
     * component, so React defers the `unlockAchievement` updater, and the
     * log line it adds, to the next render: the R2-D2 line is queued first.
     */
    method HandleKeyPress(isOpen: bool, code: string)
      requires Valid()
      modifies this
      ensures Valid()
      ensures !isOpen ==> state == old(state) && battleLog == old(battleLog)
                          && showEasterEgg == old(showEasterEgg) && konami == old(konami)
      ensures isOpen ==> konami == KonamiWindow(old(konami), code)
      ensures isOpen && KonamiMatched(konami) ==>
        showEasterEgg
        && state == Unlock(old(state), AddToLog(old(battleLog), R2D2_MESSAGE), DROIDS).0
        && battleLog == Unlock(old(state), AddToLog(old(battleLog), R2D2_MESSAGE), DROIDS).1
      ensures isOpen && !KonamiMatched(konami) ==>
        state == old(state) && battleLog == old(battleLog) && showEasterEgg == old(showEasterEgg)
    {
      if !isOpen {
        return;
      }
      var newKonami := KonamiWindow(konami, code);
      konami := newKonami;
      if Join(newKonami, ',') == Join(KONAMI_CODE, ',') {
        RevealDroid();
      }
    }

    /** The body of the match: the easter egg shows, R2-D2's line is logged, then the deferred unlock runs. */
    method RevealDroid()
      requires Valid()
      modifies this
      ensures Valid() && showEasterEgg && konami == old(konami)
      ensures state == Unlock(old(state), AddToLog(old(battleLog), R2D2_MESSAGE), DROIDS).0
      ensures battleLog == Unlock(old(state), AddToLog(old(battleLog), R2D2_MESSAGE), DROIDS).1
    {
      showEasterEgg := true;
      battleLog := AddToLog(battleLog, R2D2_MESSAGE);
      state := UnlockAchievement(state, DROIDS);
    }
  }
}

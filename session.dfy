/**
 * game_loop as the program runs it: the set-up of a session, one frame as a sequence of updates to
 * the game's locals, and the frame loop that ends when the snake collides and stores the high score.
 */
module Session {
  import opened Wrappers
  import opened Config
  import opened Grid
  import opened Achievements
  import opened Spawn
  import opened HighScore
  import opened Rules
  import opened Properties

  /** The start cell, (width // 2, height // 2). */
  const Start := Cell(Width / 2, Height / 2)

  /**
   * The set-up of game_loop for the chosen difficulty: one cell at the centre, standing still, no
   * score, level 1 at the level's base speed, the first food where it was drawn and the level's
   * obstacles placed from the draws. The achievement records carry over from earlier runs. None
   * when the obstacle draws run out before every obstacle is placed.
   */
  method NewSession(difficulty: Difficulty, achievements: seq<Achievement>, food: Cell, obstacleDraws: seq<Cell>)
    returns (s: Option<GameState>)
    requires InBounds(food)
    ensures s.Some? ==> Valid(s.value) && Alive(s.value)
    ensures s.Some? ==>
      && s.value.snake == [Start] && s.value.dx == 0 && s.value.dy == 0 && s.value.length == 1
      && s.value.score == 0 && s.value.levelProgress == 0 && s.value.currentLevel == 1
      && s.value.baseSpeed == Settings(difficulty).speed && s.value.food == food && s.value.powerup.None?
      && s.value.boostTimer == 0 && s.value.boostCooldown == 0 && !s.value.multiplierActive
      && s.value.frameCount == 0 && s.value.stats == Stats(0, 0, 1) && s.value.achievements == achievements
    ensures s.Some? <==> ObstaclesFrom(Settings(difficulty).obstacles, [], obstacleDraws, [Start], food).Some?
    ensures s.Some? ==> s.value.obstacles == ObstaclesFrom(Settings(difficulty).obstacles, [], obstacleDraws, [Start], food).value
  {
    var settings := Settings(difficulty);
    var snake := [Start];
    var obstacles := PlaceObstacles(settings.obstacles, snake, food, obstacleDraws);
    if obstacles.None? {
      return None;
    }
    var placed := obstacles.value;
    forall c | c in placed ensures InBounds(c) && c != food && c != Start {
      var i :| 0 <= i < |placed| && placed[i] == c;
    }
    s := Some(GameState(difficulty, snake, 0, 0, 1, 0, 0, 1, settings.speed, food, None, placed,
                        0, 0, false, 0, 0, Stats(0, 0, 1), achievements));
  }

  /** The key chain at the top of the frame: a direction key turns the snake, space starts a boost. */
  method ReadKeys(s: GameState, keys: Keys) returns (st: GameState)
    ensures st == ApplyInput(s, keys)
  {
    st := s;
    if keys.left && st.dx == 0 {
      st := st.(dx := -Block, dy := 0);
    } else if keys.right && st.dx == 0 {
      st := st.(dx := Block, dy := 0);
    } else if keys.up && st.dy == 0 {
      st := st.(dx := 0, dy := -Block);
    } else if keys.down && st.dy == 0 {
      st := st.(dx := 0, dy := Block);
    } else if keys.space && st.boostCooldown <= 0 {
      st := st.(boostTimer := BoostFrames, boostCooldown := BoostCooldownFrames);
    }
  }

  /** The move: one block along the heading with wrap-around, appended as the new head, the tail dropped if too long. */
  method Step(s: GameState) returns (st: GameState, head: Cell)
    requires |s.snake| > 0
    ensures st == Move(s) && head == Head(st.snake)
  {
    head := MoveHead(Head(s.snake), s.dx, s.dy);
    var snake := s.snake + [head];
    if |snake| > s.length {
      snake := snake[1..];
    }
    st := s.(snake := snake);
  }

  /** On food: points, length and progress, new food (None if the draws run out), a power-up attempt, the level check. */
  method EatFood(s: GameState, inp: FrameInput) returns (r: Option<GameState>)
    requires InputOk(inp)
    ensures r == Eat(s, inp)
  {
    var st := s;
    var factor := if st.multiplierActive then 2 else 1;
    st := st.(score := st.score + FoodPoints * factor);
    st := st.(stats := st.stats.(score := st.score));
    st := st.(length := st.length + 1, levelProgress := st.levelProgress + ProgressPerFood);
    var food := SpawnFood(inp.foodDraws, st.snake, st.obstacles, PowerupCell(st.powerup));
    if food.None? {
      return None;
    }
    st := st.(food := food.value);
    if inp.roll < Settings(st.difficulty).powerupChance && st.powerup.None? {
      var pos := PlacePowerup(inp.powerupDraws, st.snake, st.obstacles, food.value);
      if pos.Some? {
        st := st.(powerup := Some(Powerup(pos.value, inp.kind)));
      }
    }
    if st.levelProgress >= LevelThreshold {
      st := st.(currentLevel := st.currentLevel + 1);
      st := st.(stats := st.stats.(level := st.currentLevel));
      st := st.(levelProgress := 0, baseSpeed := st.baseSpeed + LevelUpSpeedup);
    }
    return Some(st);
  }

  /** The pickup: count it, apply its kind, remove it. */
  method PickUp(s: GameState, now: int) returns (st: GameState)
    requires s.powerup.Some?
    ensures st == Collect(s, now)
  {
    st := s.(stats := s.stats.(powerupsCollected := s.stats.powerupsCollected + 1));
    match s.powerup.value.kind {
      case Length =>
        var factor := if st.multiplierActive then 2 else 1;
        st := st.(score := st.score + GrowthPoints * factor);
        st := st.(stats := st.stats.(score := st.score), length := st.length + GrowthCells);
      case Speed =>
        st := st.(boostTimer := BoostFrames);
      case Multiplier =>
        st := st.(multiplierActive := true, multiplierStart := now);
    }
    st := st.(powerup := None);
  }

  /** The end of the frame: the timers count down, the multiplier may expire, the frame counter advances. */
  method Tick(s: GameState, now: int) returns (st: GameState)
    ensures st == EndOfFrame(s, now)
  {
    st := s;
    if st.boostTimer > 0 {
      st := st.(boostTimer := st.boostTimer - 1);
    }
    if st.boostCooldown > 0 {
      st := st.(boostCooldown := st.boostCooldown - 1);
    }
    if st.multiplierActive && now - st.multiplierStart > MultiplierMillis {
      st := st.(multiplierActive := false);
    }
    st := st.(frameCount := st.frameCount + 1);
  }

  /** The frame after the move: eating, the pickup, the achievement check and the timers. */
  method FinishFrame(before: GameState, s: GameState, inp: FrameInput) returns (t: GameState, outcome: Outcome)
    requires |s.snake| > 0 && InputOk(inp)
    ensures (t, outcome) == AfterMove(before, s, inp)
  {
    var st := s;
    if Head(st.snake) == st.food {
      var eaten := EatFood(st, inp);
      if eaten.None? {
        return before, FoodUnplaceable;
      }
      st := eaten.value;
    }
    if st.powerup.Some? && Head(st.snake) == st.powerup.value.pos {
      st := PickUp(st, inp.now);
    }
    var updated, unlocked := CheckAchievements(st.achievements, st.stats);
    st := st.(achievements := updated);
    st := Tick(st, inp.now);
    t, outcome := st, Continue(unlocked);
  }

  /**
   * One pass of the frame loop: the key chain, the move gate, the move and the collision test, then
   * the rest of the frame. It computes FrameSpec, so it keeps the invariant and inherits every
   * property proved about it.
   */
  method Frame(s: GameState, inp: FrameInput) returns (t: GameState, outcome: Outcome)
    requires Valid(s) && InputOk(inp)
    ensures (t, outcome) == FrameSpec(s, inp)
    ensures Valid(t)
  {
    FrameKeepsValid(s, inp);
    InputKeepsValid(s, inp.keys);
    var st := ReadKeys(s, inp.keys);
    var speed := EffectiveSpeed(st.baseSpeed, st.score, st.boostTimer);
    var interval := Fps / speed;
    if interval < 1 {
      interval := 1;
    }
    if st.frameCount % interval == 0 {
      var head;
      st, head := Step(st);
      if head in st.snake[..|st.snake| - 1] || head in st.obstacles {
        return st, GameOver;
      }
    }
    assert st == Moved(s, inp);
    t, outcome := FinishFrame(s, st, inp);
  }

  /** Some record that was locked in before is unlocked in after and carries the name n. */
  ghost predicate Witnessed(before: seq<Achievement>, after: seq<Achievement>, n: string)
  {
    exists i :: 0 <= i < |before| && i < |after| && !before[i].unlocked && after[i].unlocked && before[i].name == n
  }

  /** Every name reported was the name of a record that went from locked to unlocked. */
  ghost predicate Justified(before: seq<Achievement>, after: seq<Achievement>, notices: seq<string>)
  {
    forall n :: n in notices ==> Witnessed(before, after, n)
  }

  /** Later checks only unlock, so a name reported once stays justified. */
  lemma StillJustified(a: seq<Achievement>, b: seq<Achievement>, c: seq<Achievement>, notices: seq<string>)
    requires OnlyUnlocks(b, c) && Justified(a, b, notices)
    ensures Justified(a, c, notices)
  {
    forall n | n in notices ensures Witnessed(a, c, n) {
      var i :| 0 <= i < |a| && i < |b| && !a[i].unlocked && b[i].unlocked && a[i].name == n;
    }
  }

  /** A frame that continues reports only names of records it unlocked, so the notices stay justified. */
  lemma FrameJustified(a: seq<Achievement>, s: GameState, inp: FrameInput, notices: seq<string>)
    requires Valid(s) && InputOk(inp) && FrameSpec(s, inp).1.Continue?
    requires OnlyUnlocks(a, s.achievements) && Justified(a, s.achievements, notices)
    ensures Justified(a, FrameSpec(s, inp).0.achievements, notices + FrameSpec(s, inp).1.unlocked)
  {
    var r := FrameSpec(s, inp);
    FrameIsMonotone(s, inp);
    StillJustified(a, s.achievements, r.0.achievements, notices);
    forall n | n in r.1.unlocked ensures Witnessed(a, r.0.achievements, n) {
      FrameReportsNewUnlocks(s, inp, n);
      var i :| 0 <= i < |s.achievements| && !s.achievements[i].unlocked && r.0.achievements[i].unlocked && s.achievements[i].name == n;
      assert s.achievements[i] == a[i].(unlocked := a[i].unlocked || s.achievements[i].unlocked);
    }
  }

  /** Every record that went from locked to unlocked had its name reported. */
  ghost predicate Complete(before: seq<Achievement>, after: seq<Achievement>, notices: seq<string>)
  {
    forall i :: 0 <= i < |before| && i < |after| && !before[i].unlocked && after[i].unlocked ==> before[i].name in notices
  }

  /** A frame that continues reports every record it unlocks, so no unlock goes unreported. */
  lemma StillComplete(a: seq<Achievement>, s: GameState, inp: FrameInput, notices: seq<string>)
    requires Valid(s) && InputOk(inp) && FrameSpec(s, inp).1.Continue?
    requires OnlyUnlocks(a, s.achievements) && Complete(a, s.achievements, notices)
    ensures Complete(a, FrameSpec(s, inp).0.achievements, notices + FrameSpec(s, inp).1.unlocked)
  {
    var r := FrameSpec(s, inp);
    FrameIsMonotone(s, inp);
    forall i | 0 <= i < |a| && i < |r.0.achievements| && !a[i].unlocked && r.0.achievements[i].unlocked
      ensures a[i].name in notices + r.1.unlocked
    {
      if !s.achievements[i].unlocked {
        FrameReportsNewUnlocks(s, inp, s.achievements[i].name);
      }
    }
  }

  /** Every frame of the list is well-formed input. */
  predicate InputsOk(inputs: seq<FrameInput>)
  {
    forall i :: 0 <= i < |inputs| ==> InputOk(inputs[i])
  }

  /**
   * The frame loop over the frames supplied, from a set-up session: it stops when the snake
   * collides (storing the high score then), when the food cannot be placed, or when the frames run
   * out. The notices are the achievement names reported along the way (achievement_notification).
   */
  method Play(s0: GameState, inputs: seq<FrameInput>, highScoreFile: Option<string>)
    returns (s: GameState, over: bool, file: Option<string>, notices: seq<string>)
    requires Valid(s0) && Alive(s0) && InputsOk(inputs)
    ensures Valid(s)
    ensures over <==> !Alive(s)
    ensures over ==> file == Some(StoredAfterRun(highScoreFile, s.score))
    ensures !over ==> file == highScoreFile
    ensures s.score >= s0.score && s.currentLevel >= s0.currentLevel && s.length >= s0.length
    ensures s.obstacles == s0.obstacles && s.difficulty == s0.difficulty
    ensures OnlyUnlocks(s0.achievements, s.achievements)
    ensures Justified(s0.achievements, s.achievements, notices)
    ensures Complete(s0.achievements, s.achievements, notices)
    ensures !over && NoRepeats(s0.snake) ==> NoRepeats(s.snake)
  {
    s, over, file, notices := s0, false, highScoreFile, [];
    var k := 0;
    while k < |inputs|
      invariant 0 <= k <= |inputs|
      invariant Valid(s) && Alive(s) && !over && file == highScoreFile
      invariant s.score >= s0.score && s.currentLevel >= s0.currentLevel && s.length >= s0.length
      invariant s.obstacles == s0.obstacles && s.difficulty == s0.difficulty
      invariant OnlyUnlocks(s0.achievements, s.achievements)
      invariant Justified(s0.achievements, s.achievements, notices)
      invariant Complete(s0.achievements, s.achievements, notices)
      invariant NoRepeats(s0.snake) ==> NoRepeats(s.snake)
    {
      var inp := inputs[k];
      var t, outcome := Frame(s, inp);
      FrameEndsRunOnCollision(s, inp);
      FrameIsMonotone(s, inp);
      if outcome.FoodUnplaceable? {
        return;
      }
      if outcome.GameOver? {
        MovedKeepsCounters(s, inp);
        assert t.achievements == s.achievements;
        s, over, file := t, true, Some(StoredAfterRun(highScoreFile, t.score));
        return;
      }
      FrameJustified(s0.achievements, s, inp, notices);
      StillComplete(s0.achievements, s, inp, notices);
      if NoRepeats(s0.snake) {
        FrameKeepsCellsDistinct(s, inp);
      }
      s, notices := t, notices + outcome.unlocked;
      k := k + 1;
    }
  }
}

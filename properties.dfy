/** What the per-frame rules guarantee: the invariant is kept, collisions end the run exactly, and the scoring rules. */
module Properties {
  import opened Wrappers
  import opened Config
  import opened Grid
  import opened Achievements
  import opened Spawn
  import opened Rules

  lemma InputKeepsValid(s: GameState, keys: Keys)
    requires Valid(s)
    ensures Valid(ApplyInput(s, keys))
  {
  }

  lemma MoveKeepsValid(s: GameState)
    requires Valid(s)
    ensures Valid(Move(s))
  {
    var head := MoveHead(Head(s.snake), s.dx, s.dy);
    assert OnGrid(head);
  }

  lemma EatKeepsValid(s: GameState, inp: FrameInput)
    requires Valid(s) && InputOk(inp) && Head(s.snake) == s.food
    requires Eat(s, inp).Some?
    ensures Valid(Eat(s, inp).value)
  {
    FirstValidIsFree(inp.foodDraws, s.snake, s.obstacles, None, PowerupCell(s.powerup));
    var food := FirstValid(inp.foodDraws, s.snake, s.obstacles, None, PowerupCell(s.powerup)).value;
    FirstValidIsFree(inp.powerupDraws[..MaxPowerupAttempts], s.snake, s.obstacles, Some(food), None);
  }

  lemma CollectKeepsValid(s: GameState, now: int)
    requires Valid(s) && s.powerup.Some?
    ensures Valid(Collect(s, now))
  {
  }

  lemma EndKeepsValid(s: GameState, now: int)
    requires Valid(s)
    ensures Valid(EndOfFrame(s.(achievements := Checked(s.achievements, s.stats)), now))
  {
  }

  lemma AfterMoveKeepsValid(before: GameState, s: GameState, inp: FrameInput)
    requires Valid(before) && Valid(s) && InputOk(inp)
    ensures Valid(AfterMove(before, s, inp).0)
  {
    if Head(s.snake) == s.food {
      if Eat(s, inp).Some? {
        EatKeepsValid(s, inp);
        var s3 := Eat(s, inp).value;
        if s3.powerup.Some? && Head(s3.snake) == s3.powerup.value.pos {
          CollectKeepsValid(s3, inp.now);
          EndKeepsValid(Collect(s3, inp.now), inp.now);
        } else {
          EndKeepsValid(s3, inp.now);
        }
      }
    } else if s.powerup.Some? && Head(s.snake) == s.powerup.value.pos {
      CollectKeepsValid(s, inp.now);
      EndKeepsValid(Collect(s, inp.now), inp.now);
    } else {
      EndKeepsValid(s, inp.now);
    }
  }

  /** Every frame keeps the invariant, whatever the keys and the draws. */
  lemma FrameKeepsValid(s: GameState, inp: FrameInput)
    requires Valid(s) && InputOk(inp)
    ensures Valid(FrameSpec(s, inp).0)
  {
    var s1 := ApplyInput(s, inp.keys);
    InputKeepsValid(s, inp.keys);
    MoveKeepsValid(s1);
    AfterMoveKeepsValid(s, s1, inp);
    AfterMoveKeepsValid(s, Move(s1), inp);
  }

  /** Everything after the move leaves the body, the heading and the obstacles alone, and never ends the run. */
  lemma AfterMoveShape(before: GameState, s: GameState, inp: FrameInput)
    requires |s.snake| > 0 && InputOk(inp)
    ensures var r := AfterMove(before, s, inp);
      && !r.1.GameOver?
      && (r.1.FoodUnplaceable? ==> r.0 == before)
      && (r.1.Continue? ==>
            r.0.snake == s.snake && r.0.obstacles == s.obstacles && r.0.dx == s.dx && r.0.dy == s.dy &&
            r.0.difficulty == s.difficulty)
  {
    if Head(s.snake) == s.food && Eat(s, inp).Some? {
      var s3 := Eat(s, inp).value;
      assert s3.snake == s.snake && s3.obstacles == s.obstacles && s3.dx == s.dx && s3.dy == s.dy;
    }
  }

  lemma MovedKeepsValid(s: GameState, inp: FrameInput)
    requires Valid(s)
    ensures Valid(Moved(s, inp))
  {
    InputKeepsValid(s, inp.keys);
    MoveKeepsValid(ApplyInput(s, inp.keys));
  }

  lemma MovedSnake(s: GameState, inp: FrameInput)
    requires Valid(s)
    ensures var m := Moved(s, inp);
      IsMoveFrame(s, inp) ==> m.snake == Advance(s.snake, MoveHead(Head(s.snake), m.dx, m.dy), s.length)
    ensures !IsMoveFrame(s, inp) ==> Moved(s, inp).snake == s.snake
  {
  }

  lemma MovedKeepsCounters(s: GameState, inp: FrameInput)
    requires Valid(s)
    ensures var m := Moved(s, inp);
      && m.score == s.score && m.length == s.length && m.currentLevel == s.currentLevel && m.levelProgress == s.levelProgress
      && m.baseSpeed == s.baseSpeed && m.stats == s.stats && m.achievements == s.achievements && m.obstacles == s.obstacles
      && m.food == s.food && m.powerup == s.powerup && m.difficulty == s.difficulty
      && m.multiplierActive == s.multiplierActive && m.multiplierStart == s.multiplierStart && m.frameCount == s.frameCount
  {
  }

  // ----- The rest of the frame, after the move -----

  lemma AfterMoveIsMonotone(before: GameState, s: GameState, inp: FrameInput)
    requires Valid(s) && InputOk(inp)
    ensures var r := AfterMove(before, s, inp);
      r.1.Continue? ==>
        && r.0.score >= s.score && r.0.currentLevel >= s.currentLevel && r.0.length >= s.length
        && r.0.stats.powerupsCollected >= s.stats.powerupsCollected
        && OnlyUnlocks(s.achievements, r.0.achievements)
  {
    var s3 := if Head(s.snake) == s.food then Eat(s, inp) else Some(s);
    if s3.Some? {
      var s4 := if s3.value.powerup.Some? && Head(s3.value.snake) == s3.value.powerup.value.pos then Collect(s3.value, inp.now) else s3.value;
      assert s4.achievements == s.achievements;
      assert s4.score >= s.score && s4.currentLevel >= s.currentLevel && s4.length >= s.length;
    }
  }

  lemma AfterMoveEats(before: GameState, s: GameState, inp: FrameInput)
    requires Valid(s) && InputOk(inp) && Head(s.snake) == s.food && AfterMove(before, s, inp).1.Continue?
    ensures var t := AfterMove(before, s, inp).0;
      && t.score == s.score + FoodPoints * ScoreFactor(s.multiplierActive)
      && t.length == s.length + 1
      && (if s.levelProgress + ProgressPerFood >= LevelThreshold
          then t.currentLevel == s.currentLevel + 1 && t.levelProgress == 0 && t.baseSpeed == s.baseSpeed + LevelUpSpeedup
          else t.currentLevel == s.currentLevel && t.levelProgress == s.levelProgress + ProgressPerFood && t.baseSpeed == s.baseSpeed)
      && t.food != s.food && t.food !in s.snake
      && t.stats.powerupsCollected == s.stats.powerupsCollected
      && (s.powerup.Some? ==> t.powerup == s.powerup)
      && (t.powerup.Some? && s.powerup.None? ==>
            inp.roll < Settings(s.difficulty).powerupChance && t.powerup.value.pos !in s.snake)
      && (s.powerup.None? && inp.roll < Settings(s.difficulty).powerupChance ==>
            t.powerup == match FirstValid(inp.powerupDraws[..MaxPowerupAttempts], s.snake, s.obstacles, Some(t.food), None)
                         case Some(c) => Some(Powerup(c, inp.kind))
                         case None => None)
  {
    FirstValidIsFree(inp.foodDraws, s.snake, s.obstacles, None, PowerupCell(s.powerup));
    var food := FirstValid(inp.foodDraws, s.snake, s.obstacles, None, PowerupCell(s.powerup)).value;
    FirstValidIsFree(inp.powerupDraws[..MaxPowerupAttempts], s.snake, s.obstacles, Some(food), None);
    var s3 := Eat(s, inp).value;
    assert !(s3.powerup.Some? && Head(s3.snake) == s3.powerup.value.pos);
  }

  lemma AfterMoveCollects(before: GameState, s: GameState, inp: FrameInput)
    requires Valid(s) && InputOk(inp) && s.powerup.Some? && Head(s.snake) == s.powerup.value.pos
    ensures var r := AfterMove(before, s, inp);
      && r.1.Continue?
      && r.0.powerup.None?
      && r.0.stats.powerupsCollected == s.stats.powerupsCollected + 1
      && r.0.food == s.food
      && match s.powerup.value.kind
         case Length => r.0.score == s.score + GrowthPoints * ScoreFactor(s.multiplierActive) && r.0.length == s.length + GrowthCells
         case Speed => r.0.score == s.score && r.0.length == s.length && r.0.boostTimer == BoostFrames - 1
         case Multiplier => r.0.score == s.score && r.0.length == s.length && r.0.multiplierActive && r.0.multiplierStart == inp.now
  {
  }

  /** The achievement check after the move runs on the records as they were and on the final stats. */
  lemma AfterMoveChecks(before: GameState, s: GameState, inp: FrameInput)
    requires Valid(s) && InputOk(inp) && AfterMove(before, s, inp).1.Continue?
    ensures var r := AfterMove(before, s, inp);
      && r.0.achievements == Checked(s.achievements, r.0.stats)
      && r.1.unlocked == NewUnlocks(s.achievements, r.0.stats)
  {
    var s3 := if Head(s.snake) == s.food then Eat(s, inp).value else s;
    var s4 := if s3.powerup.Some? && Head(s3.snake) == s3.powerup.value.pos then Collect(s3, inp.now) else s3;
    assert s4.achievements == s.achievements;
  }

  lemma AfterMoveReportsNewUnlocks(before: GameState, s: GameState, inp: FrameInput, name: string)
    requires Valid(s) && InputOk(inp) && AfterMove(before, s, inp).1.Continue?
    ensures var r := AfterMove(before, s, inp);
      && |r.0.achievements| == |s.achievements|
      && (forall i :: 0 <= i < |r.0.achievements| && Holds(r.0.achievements[i].condition, r.0.stats) ==> r.0.achievements[i].unlocked)
      && (name in r.1.unlocked <==>
            exists i :: 0 <= i < |s.achievements| && !s.achievements[i].unlocked && r.0.achievements[i].unlocked && s.achievements[i].name == name)
  {
    AfterMoveChecks(before, s, inp);
    var r := AfterMove(before, s, inp);
    NewUnlocksExact(s.achievements, r.0.stats, name);
  }

  // ----- Whole frames -----

  /** A frame that does not end the run is the rest of the frame applied to the moved state. */
  lemma FrameIsAfterMove(s: GameState, inp: FrameInput)
    requires Valid(s) && InputOk(inp) && !FrameSpec(s, inp).1.GameOver?
    ensures FrameSpec(s, inp) == AfterMove(s, Moved(s, inp), inp)
  {
    MovedKeepsValid(s, inp);
  }

  /** Advancing keeps the old cells in order behind the new head: the body is a suffix of the old snake. */
  lemma AdvanceKeepsOrder(snake: seq<Cell>, head: Cell, length: int)
    ensures var r := Advance(snake, head, length);
      |r| > 0 ==> Body(r) == snake[|snake| + 1 - |r|..]
  {
    var grown := snake + [head];
    var r := Advance(snake, head, length);
    if |r| > 0 {
      assert Body(r) == grown[|snake| + 1 - |r|..|snake|];
    }
  }

  /**
   * A frame moves the snake by at most one cell: either the body is as it was, or one new head (one
   * block along the frame's heading, wrapped) was appended and at most one tail cell dropped, the
   * other cells keeping their order.
   */
  lemma FrameMovesOneStep(s: GameState, inp: FrameInput)
    requires Valid(s) && InputOk(inp)
    ensures var t := FrameSpec(s, inp).0;
      || t.snake == s.snake
      || (&& t.snake == Advance(s.snake, MoveHead(Head(s.snake), t.dx, t.dy), s.length)
          && |s.snake| <= |t.snake| <= |s.snake| + 1
          && Body(t.snake) == s.snake[|s.snake| + 1 - |t.snake|..])
  {
    MovedKeepsValid(s, inp);
    MovedSnake(s, inp);
    var m := Moved(s, inp);
    var r := FrameSpec(s, inp);
    if !r.1.GameOver? {
      FrameIsAfterMove(s, inp);
      AfterMoveShape(s, m, inp);
    }
    assert r.0 == s || (r.0.snake == m.snake && r.0.dx == m.dx && r.0.dy == m.dy);
    if IsMoveFrame(s, inp) {
      AdvanceKeepsOrder(s.snake, MoveHead(Head(s.snake), m.dx, m.dy), s.length);
    }
  }

  /** No cell occurs twice. */
  predicate NoRepeats(cells: seq<Cell>)
  {
    forall i, j :: 0 <= i < j < |cells| ==> cells[i] != cells[j]
  }

  lemma SuffixNoRepeats(cells: seq<Cell>, k: nat)
    requires NoRepeats(cells) && k <= |cells|
    ensures NoRepeats(cells[k..])
  {
    forall i, j | 0 <= i < j < |cells| - k ensures cells[k..][i] != cells[k..][j] {
      assert cells[k..][i] == cells[k + i] && cells[k..][j] == cells[k + j];
    }
  }

  lemma AppendNoRepeats(cells: seq<Cell>, c: Cell)
    requires NoRepeats(cells) && c !in cells
    ensures NoRepeats(cells + [c])
  {
    forall i, j | 0 <= i < j < |cells| + 1 ensures (cells + [c])[i] != (cells + [c])[j] {
      if j == |cells| {
        assert (cells + [c])[i] == cells[i];
      }
    }
  }

  /**
   * A frame that does not end the run keeps the snake free of repeated cells: the body is a suffix
   * of the old snake and the new head, clear of the body, is appended once.
   */
  lemma FrameKeepsCellsDistinct(s: GameState, inp: FrameInput)
    requires Valid(s) && Alive(s) && InputOk(inp) && NoRepeats(s.snake)
    requires !FrameSpec(s, inp).1.GameOver?
    ensures NoRepeats(FrameSpec(s, inp).0.snake)
  {
    var t := FrameSpec(s, inp).0;
    FrameKeepsValid(s, inp);
    FrameEndsRunOnCollision(s, inp);
    FrameMovesOneStep(s, inp);
    if t.snake != s.snake {
      SuffixNoRepeats(s.snake, |s.snake| + 1 - |t.snake|);
      AppendNoRepeats(Body(t.snake), Head(t.snake));
      assert t.snake == Body(t.snake) + [Head(t.snake)];
    }
  }

  /**
   * The run ends exactly on a collision: a frame that ends the run has just moved the snake onto
   * its own body or an obstacle, and a frame that continues leaves the head clear of both.
   */
  lemma FrameEndsRunOnCollision(s: GameState, inp: FrameInput)
    requires Valid(s) && Alive(s) && InputOk(inp)
    ensures var r := FrameSpec(s, inp);
      && (r.1.GameOver? <==> !Alive(r.0))
      && (r.1.GameOver? ==> r.0.snake == Advance(s.snake, MoveHead(Head(s.snake), r.0.dx, r.0.dy), s.length))
      && (r.1.FoodUnplaceable? ==> r.0 == s)
  {
    MovedSnake(s, inp);
    MovedKeepsCounters(s, inp);
    AfterMoveShape(s, Moved(s, inp), inp);
  }

  /** Nothing is ever lost: score, level, length and power-up count never go down, achievement records only ever unlock, obstacles never change. */
  lemma FrameIsMonotone(s: GameState, inp: FrameInput)
    requires Valid(s) && InputOk(inp)
    ensures var t := FrameSpec(s, inp).0;
      && t.score >= s.score && t.currentLevel >= s.currentLevel && t.length >= s.length
      && t.stats.powerupsCollected >= s.stats.powerupsCollected
      && t.obstacles == s.obstacles && t.difficulty == s.difficulty
      && OnlyUnlocks(s.achievements, t.achievements)
  {
    MovedKeepsValid(s, inp);
    MovedKeepsCounters(s, inp);
    AfterMoveShape(s, Moved(s, inp), inp);
    AfterMoveIsMonotone(s, Moved(s, inp), inp);
  }

  /**
   * A frame whose head lands on the food: 10 points (20 with the multiplier), one more cell of
   * length, ten more progress with a level-up at 50, new food off the snake, no pickup as well, and
   * a power-up attempt only when none was out.
   */
  lemma FrameEatsFood(s: GameState, inp: FrameInput)
    requires Valid(s) && InputOk(inp)
    requires FrameSpec(s, inp).1.Continue? && Head(Moved(s, inp).snake) == s.food
    ensures var t := FrameSpec(s, inp).0;
      && t.score == s.score + FoodPoints * ScoreFactor(s.multiplierActive)
      && t.length == s.length + 1
      && (if s.levelProgress + ProgressPerFood >= LevelThreshold
          then t.currentLevel == s.currentLevel + 1 && t.levelProgress == 0 && t.baseSpeed == s.baseSpeed + LevelUpSpeedup
          else t.currentLevel == s.currentLevel && t.levelProgress == s.levelProgress + ProgressPerFood && t.baseSpeed == s.baseSpeed)
      && t.food != s.food && t.food !in t.snake
      && t.stats.powerupsCollected == s.stats.powerupsCollected
      && (s.powerup.Some? ==> t.powerup == s.powerup)
      && (t.powerup.Some? && s.powerup.None? ==>
            inp.roll < Settings(s.difficulty).powerupChance && t.powerup.value.pos !in t.snake)
      && (s.powerup.None? && inp.roll < Settings(s.difficulty).powerupChance ==>
            t.powerup == match FirstValid(inp.powerupDraws[..MaxPowerupAttempts], t.snake, s.obstacles, Some(t.food), None)
                         case Some(c) => Some(Powerup(c, inp.kind))
                         case None => None)
  {
    FrameIsAfterMove(s, inp);
    MovedKeepsValid(s, inp);
    MovedKeepsCounters(s, inp);
    var m := Moved(s, inp);
    AfterMoveShape(s, m, inp);
    AfterMoveEats(s, m, inp);
  }

  /**
   * A frame that continues with the head on neither the food nor the power-up changes none of the
   * counters: score, length, progress, level, base speed, stats, food and power-up stay as they were.
   */
  lemma QuietFrame(s: GameState, inp: FrameInput)
    requires Valid(s) && InputOk(inp) && FrameSpec(s, inp).1.Continue?
    requires Head(Moved(s, inp).snake) != s.food
    requires !(s.powerup.Some? && Head(Moved(s, inp).snake) == s.powerup.value.pos)
    ensures var t := FrameSpec(s, inp).0;
      && t.score == s.score && t.length == s.length && t.levelProgress == s.levelProgress
      && t.currentLevel == s.currentLevel && t.baseSpeed == s.baseSpeed && t.stats == s.stats
      && t.food == s.food && t.powerup == s.powerup
  {
    FrameIsAfterMove(s, inp);
    MovedKeepsValid(s, inp);
    MovedKeepsCounters(s, inp);
    AfterMoveShape(s, Moved(s, inp), inp);
  }

  /**
   * A frame whose head lands on the power-up: it is counted and removed, and its kind takes effect —
   * "length" gives 20 points (40 with the multiplier) and two cells, "speed" starts a boost (one frame
   * of it already spent), "multiplier" turns the multiplier on from the current clock reading.
   */
  lemma FrameCollectsPowerup(s: GameState, inp: FrameInput)
    requires Valid(s) && InputOk(inp) && s.powerup.Some?
    requires FrameSpec(s, inp).1.Continue? && Head(Moved(s, inp).snake) == s.powerup.value.pos
    ensures var r := FrameSpec(s, inp);
      && r.0.powerup.None?
      && r.0.stats.powerupsCollected == s.stats.powerupsCollected + 1
      && r.0.food == s.food
      && match s.powerup.value.kind
         case Length => r.0.score == s.score + GrowthPoints * ScoreFactor(s.multiplierActive) && r.0.length == s.length + GrowthCells
         case Speed => r.0.score == s.score && r.0.length == s.length && r.0.boostTimer == BoostFrames - 1
         case Multiplier => r.0.score == s.score && r.0.length == s.length && r.0.multiplierActive && r.0.multiplierStart == inp.now
  {
    MovedKeepsValid(s, inp);
    MovedKeepsCounters(s, inp);
    var m := Moved(s, inp);
    AfterMoveShape(s, m, inp);
    AfterMoveCollects(s, m, inp);
  }

  /**
   * The achievement check of a frame: afterwards every record whose condition holds on the stats is
   * unlocked, and the names reported are exactly those of the records that were locked before.
   */
  lemma FrameReportsNewUnlocks(s: GameState, inp: FrameInput, name: string)
    requires Valid(s) && InputOk(inp) && FrameSpec(s, inp).1.Continue?
    ensures var r := FrameSpec(s, inp);
      && |r.0.achievements| == |s.achievements|
      && (forall i :: 0 <= i < |r.0.achievements| && Holds(r.0.achievements[i].condition, r.0.stats) ==> r.0.achievements[i].unlocked)
      && (name in r.1.unlocked <==>
            exists i :: 0 <= i < |s.achievements| && !s.achievements[i].unlocked && r.0.achievements[i].unlocked && s.achievements[i].name == name)
  {
    FrameIsAfterMove(s, inp);
    MovedKeepsValid(s, inp);
    MovedKeepsCounters(s, inp);
    AfterMoveIsMonotone(s, Moved(s, inp), inp);
    AfterMoveReportsNewUnlocks(s, Moved(s, inp), inp, name);
  }

  // ----- The score and level tracker over several meals -----

  /** k meals in a row, as the score and level tracker sees them. */
  function Meals(s: GameState, k: nat): GameState
  {
    if k == 0 then s else LevelCheck(Feed(Meals(s, k - 1)))
  }

  /** An eating frame moves score, length, progress, level and base speed exactly as one meal of the tracker does. */
  lemma FrameIsOneMeal(s: GameState, inp: FrameInput)
    requires Valid(s) && InputOk(inp)
    requires FrameSpec(s, inp).1.Continue? && Head(Moved(s, inp).snake) == s.food
    ensures var t := FrameSpec(s, inp).0;
      var m := Meals(s, 1);
      && t.score == m.score && t.length == m.length && t.levelProgress == m.levelProgress
      && t.currentLevel == m.currentLevel && t.baseSpeed == m.baseSpeed
  {
    FrameEatsFood(s, inp);
  }

  /**
   * After k meals without the multiplier: 10 k more points and k more length, and the level has gone
   * up once per five meals counted from the current progress, with progress and base speed to match.
   */
  lemma {:induction false} MealsLevelUp(s: GameState, k: nat)
    requires Valid(s) && !s.multiplierActive
    ensures var t := Meals(s, k);
      var n := s.levelProgress / ProgressPerFood + k;
      && t.score == s.score + FoodPoints * k
      && t.length == s.length + k
      && t.currentLevel == s.currentLevel + n / 5
      && t.levelProgress == ProgressPerFood * (n % 5)
      && t.baseSpeed == s.baseSpeed + LevelUpSpeedup * (n / 5)
      && t.stats.score == t.score && t.stats.level == t.currentLevel
      && !t.multiplierActive
  {
    if k > 0 {
      MealsLevelUp(s, k - 1);
      var m := s.levelProgress / ProgressPerFood + k - 1;
      assert (m + 1) / 5 == if m % 5 == 4 then m / 5 + 1 else m / 5;
      assert (m + 1) % 5 == if m % 5 == 4 then 0 else m % 5 + 1;
    }
  }

  /** Five meals from a fresh Medium session: score 50, length 6, level 2, progress 0, base speed 17. */
  lemma FiveMealsOnMedium(s: GameState)
    requires Valid(s) && s.difficulty == Medium && !s.multiplierActive
    requires s.score == 0 && s.length == 1 && s.currentLevel == 1 && s.levelProgress == 0
    ensures var t := Meals(s, 5);
      t.score == 50 && t.length == 6 && t.currentLevel == 2 && t.levelProgress == 0 && t.baseSpeed == 17
  {
    MealsLevelUp(s, 5);
  }
}

/**
 * The per-frame rules of game_loop as a specification over an explicit state value: steering and
 * the boost action, the move gate, the move with wrap-around and tail drop, collision, eating,
 * power-up placement and pickup, level-up, the achievement check and the timers.
 */
module Rules {
  import opened Wrappers
  import opened Config
  import opened Grid
  import opened Achievements
  import opened Spawn

  /** The source's power-up types "length", "speed" and "multiplier". */
  datatype PowerupKind = Length | Speed | Multiplier

  datatype Powerup = Powerup(pos: Cell, kind: PowerupKind)

  /**
   * The locals of game_loop that the frame body updates. The snake's head is its last cell (the
   * source's x, y); timers count frames; multiplierStart is the clock reading at the last pickup.
   */
  datatype GameState = GameState(
    difficulty: Difficulty,
    snake: seq<Cell>,
    dx: int,
    dy: int,
    length: int,
    score: int,
    levelProgress: int,
    currentLevel: int,
    baseSpeed: int,
    food: Cell,
    powerup: Option<Powerup>,
    obstacles: seq<Cell>,
    boostTimer: int,
    boostCooldown: int,
    multiplierActive: bool,
    multiplierStart: int,
    frameCount: int,
    stats: Stats,
    achievements: seq<Achievement>)

  /** The keys held during a frame. */
  datatype Keys = Keys(left: bool, right: bool, up: bool, down: bool, space: bool)

  /**
   * What the outside world supplies to one frame: the keys, the wall clock in milliseconds, the
   * random food draws, the power-up chance roll (random.random() scaled to 0 .. ChanceScale - 1),
   * the random power-up draws and the random power-up kind.
   */
  datatype FrameInput = FrameInput(keys: Keys, now: int, foodDraws: seq<Cell>, roll: int, powerupDraws: seq<Cell>, kind: PowerupKind)

  /** The roll is a scaled random.random(), and the power-up loop may draw its full 100 times. */
  predicate InputOk(inp: FrameInput)
  {
    0 <= inp.roll < ChanceScale && |inp.powerupDraws| >= MaxPowerupAttempts
  }

  /**
   * How a frame ends: it continues (with the achievement names unlocked in it), the run is over,
   * or the food draws ran out before one was accepted (the source keeps drawing forever).
   */
  datatype Outcome = Continue(unlocked: seq<string>) | GameOver | FoodUnplaceable

  function Head(snake: seq<Cell>): Cell
    requires |snake| > 0
  {
    snake[|snake| - 1]
  }

  function Body(snake: seq<Cell>): seq<Cell>
    requires |snake| > 0
  {
    snake[..|snake| - 1]
  }

  function PowerupCell(p: Option<Powerup>): Option<Cell>
  {
    match p
    case None => None
    case Some(q) => Some(q.pos)
  }

  /** What holds between frames. */
  ghost predicate Valid(s: GameState)
  {
    && 1 <= |s.snake| <= s.length
    && (forall c :: c in s.snake ==> OnGrid(c))
    && IsHeading(s.dx, s.dy)
    && 0 <= s.levelProgress < LevelThreshold && s.levelProgress % ProgressPerFood == 0
    && s.currentLevel >= 1
    && s.baseSpeed == Settings(s.difficulty).speed + LevelUpSpeedup * (s.currentLevel - 1)
    && s.score >= 0
    && s.stats.score == s.score && s.stats.level == s.currentLevel && s.stats.powerupsCollected >= 0
    && 0 <= s.boostTimer <= BoostFrames && 0 <= s.boostCooldown <= BoostCooldownFrames
    && s.frameCount >= 0
    && |s.obstacles| == Settings(s.difficulty).obstacles
    && (forall c :: c in s.obstacles ==> InBounds(c))
    && InBounds(s.food) && s.food !in s.obstacles
    && (s.powerup.Some? ==>
          InBounds(s.powerup.value.pos) && s.powerup.value.pos !in s.obstacles && s.powerup.value.pos != s.food)
  }

  /** The head lies on another segment or on an obstacle. */
  predicate Collides(snake: seq<Cell>, obstacles: seq<Cell>)
    requires |snake| > 0
  {
    Head(snake) in Body(snake) || Head(snake) in obstacles
  }

  /** The run is still on: the head touches neither the rest of the body nor an obstacle. */
  ghost predicate Alive(s: GameState)
  {
    |s.snake| > 0 && !Collides(s.snake, s.obstacles)
  }

  // ----- Steering and the boost action -----

  datatype Steering = Turn(dx: int, dy: int) | Boost | NoChange

  /** A direction key is taken: LEFT or RIGHT while not moving sideways, UP or DOWN while not moving vertically. */
  predicate TakesDirection(dx: int, dy: int, keys: Keys)
  {
    ((keys.left || keys.right) && dx == 0) || ((keys.up || keys.down) && dy == 0)
  }

  /** The key chain at the top of the frame. */
  function Steer(dx: int, dy: int, cooldown: int, keys: Keys): (r: Steering)
    ensures r.Turn? <==> TakesDirection(dx, dy, keys)
    ensures r.Boost? <==> !TakesDirection(dx, dy, keys) && keys.space && cooldown <= 0
    ensures r.Turn? ==> IsHeading(r.dx, r.dy) && (r.dx != 0 || r.dy != 0)
    ensures r.Turn? ==> (r.dx != 0 ==> dx == 0) && (r.dy != 0 ==> dy == 0)
    ensures r.Turn? ==>
      (r.dx == -Block ==> keys.left) && (r.dx == Block ==> keys.right) &&
      (r.dy == -Block ==> keys.up) && (r.dy == Block ==> keys.down)
    ensures r.Turn? && (dx != 0 || dy != 0) ==> !(r.dx == -dx && r.dy == -dy)
  {
    if keys.left && dx == 0 then Turn(-Block, 0)
    else if keys.right && dx == 0 then Turn(Block, 0)
    else if keys.up && dy == 0 then Turn(0, -Block)
    else if keys.down && dy == 0 then Turn(0, Block)
    else if keys.space && cooldown <= 0 then Boost
    else NoChange
  }

  function ApplyInput(s: GameState, keys: Keys): GameState
  {
    match Steer(s.dx, s.dy, s.boostCooldown, keys)
    case Turn(a, b) => s.(dx := a, dy := b)
    case Boost => s.(boostTimer := BoostFrames, boostCooldown := BoostCooldownFrames)
    case NoChange => s
  }

  /** The boost action while the cooldown still runs does nothing; once it has run out it starts a boost. */
  lemma BoostRespectsCooldown(s: GameState)
    requires Valid(s)
    ensures s.boostCooldown > 0 ==> ApplyInput(s, Keys(false, false, false, false, true)) == s
    ensures s.boostCooldown == 0 ==>
      ApplyInput(s, Keys(false, false, false, false, true)) == s.(boostTimer := BoostFrames, boostCooldown := BoostCooldownFrames)
  {
    var keys := Keys(false, false, false, false, true);
    assert !TakesDirection(s.dx, s.dy, keys);
  }

  // ----- The move gate -----

  /** effective_speed: base speed plus one per 50 points, doubled while the boost runs. */
  function EffectiveSpeed(baseSpeed: int, score: int, boostTimer: int): (r: int)
    ensures baseSpeed > 0 && score >= 0 ==> r >= baseSpeed
  {
    (baseSpeed + score / PointsPerSpeedStep) * (if boostTimer > 0 then 2 else 1)
  }

  /** More points never slow the snake, and the boost doubles the speed. */
  lemma SpeedGrowsWithScore(baseSpeed: int, score: int, score': int, boostTimer: int)
    requires 0 <= score <= score'
    ensures EffectiveSpeed(baseSpeed, score, boostTimer) <= EffectiveSpeed(baseSpeed, score', boostTimer)
    ensures boostTimer > 0 ==> EffectiveSpeed(baseSpeed, score, boostTimer) == 2 * EffectiveSpeed(baseSpeed, score, 0)
  {
    assert score / PointsPerSpeedStep <= score' / PointsPerSpeedStep;
  }

  /** Frames per move, max(1, 60 // effective_speed): the most whole frames that fit in 1/speed seconds, at least one. */
  function MoveInterval(speed: int): (k: int)
    requires speed > 0
    ensures k >= 1
    ensures speed <= Fps ==> k * speed <= Fps < (k + 1) * speed
    ensures Fps < speed ==> k == 1
  {
    var q := Fps / speed;
    if q > 1 then q else 1
  }

  /** The snake moves on every frame whose count is a multiple of the interval. */
  predicate MovesThisFrame(frameCount: int, speed: int)
    requires speed > 0
  {
    frameCount % MoveInterval(speed) == 0
  }

  // ----- The move -----

  /** snake.append(head), then `del snake[0]` once if the snake is longer than length. */
  function Advance(snake: seq<Cell>, head: Cell, length: int): (r: seq<Cell>)
    ensures |snake| <= |r| <= |snake| + 1
    ensures |r| > 0 ==> r[|r| - 1] == head
    ensures r == (snake + [head])[|snake| + 1 - |r|..]
    ensures |snake| <= length ==> |r| <= length
    ensures |snake| < length ==> |r| == |snake| + 1
    ensures forall c :: c in r ==> c in snake || c == head
  {
    var grown := snake + [head];
    if |grown| > length then grown[1..] else grown
  }

  function Move(s: GameState): GameState
    requires |s.snake| > 0
  {
    s.(snake := Advance(s.snake, MoveHead(Head(s.snake), s.dx, s.dy), s.length))
  }

  // ----- Eating -----

  /** 2 while the score multiplier is active, else 1. */
  function ScoreFactor(multiplierActive: bool): int
  {
    if multiplierActive then 2 else 1
  }

  /** On food: points, one more cell of length and ten of level progress. */
  function Feed(s: GameState): GameState
  {
    var score := s.score + FoodPoints * ScoreFactor(s.multiplierActive);
    s.(score := score, stats := s.stats.(score := score), length := s.length + 1,
       levelProgress := s.levelProgress + ProgressPerFood)
  }

  /** The level check after a meal: at 50 progress the level goes up, progress restarts and the base speed rises. */
  function LevelCheck(s: GameState): GameState
  {
    if s.levelProgress >= LevelThreshold then
      s.(currentLevel := s.currentLevel + 1, stats := s.stats.(level := s.currentLevel + 1),
         levelProgress := 0, baseSpeed := s.baseSpeed + LevelUpSpeedup)
    else s
  }

  /**
   * The power-up after a meal: attempted only when the roll falls under the level's chance and no
   * power-up is out; the placement tries at most 100 draws against the new food.
   */
  function PowerupAfterMeal(s: GameState, food: Cell, inp: FrameInput): Option<Powerup>
    requires InputOk(inp)
  {
    if inp.roll < Settings(s.difficulty).powerupChance && s.powerup.None? then
      match FirstValid(inp.powerupDraws[..MaxPowerupAttempts], s.snake, s.obstacles, Some(food), None)
      case Some(c) => Some(Powerup(c, inp.kind))
      case None => None
    else s.powerup
  }

  /** Eating the food: feed, respawn the food off the snake, the obstacles and the power-up, try a power-up, check the level. */
  function Eat(s: GameState, inp: FrameInput): Option<GameState>
    requires InputOk(inp)
  {
    match FirstValid(inp.foodDraws, s.snake, s.obstacles, None, PowerupCell(s.powerup))
    case None => None
    case Some(food) => Some(LevelCheck(Feed(s).(food := food, powerup := PowerupAfterMeal(s, food, inp))))
  }

  // ----- Power-up pickup -----

  /** Picking up the power-up: count it, apply its effect, remove it. */
  function Collect(s: GameState, now: int): GameState
    requires s.powerup.Some?
  {
    var stats := s.stats.(powerupsCollected := s.stats.powerupsCollected + 1);
    var t := s.(stats := stats, powerup := None);
    match s.powerup.value.kind
    case Length =>
      var score := s.score + GrowthPoints * ScoreFactor(s.multiplierActive);
      t.(score := score, stats := stats.(score := score), length := s.length + GrowthCells)
    case Speed => t.(boostTimer := BoostFrames)
    case Multiplier => t.(multiplierActive := true, multiplierStart := now)
  }

  // ----- End of frame -----

  /** The timers count down one frame, the multiplier expires 10 s after pickup, and the frame counter advances. */
  function EndOfFrame(s: GameState, now: int): GameState
  {
    s.(boostTimer := if s.boostTimer > 0 then s.boostTimer - 1 else s.boostTimer,
       boostCooldown := if s.boostCooldown > 0 then s.boostCooldown - 1 else s.boostCooldown,
       multiplierActive := s.multiplierActive && !(now - s.multiplierStart > MultiplierMillis),
       frameCount := s.frameCount + 1)
  }

  /** Everything after the move: food, power-up pickup, achievements, timers; `before` is returned if the food cannot be placed. */
  function AfterMove(before: GameState, s: GameState, inp: FrameInput): (GameState, Outcome)
    requires |s.snake| > 0 && InputOk(inp)
  {
    var eaten := if Head(s.snake) == s.food then Eat(s, inp) else Some(s);
    match eaten
    case None => (before, FoodUnplaceable)
    case Some(s3) =>
      var s4 := if s3.powerup.Some? && Head(s3.snake) == s3.powerup.value.pos then Collect(s3, inp.now) else s3;
      var s5 := s4.(achievements := Checked(s4.achievements, s4.stats));
      (EndOfFrame(s5, inp.now), Continue(NewUnlocks(s4.achievements, s4.stats)))
  }

  /** Whether this frame moves the snake, judged on the speed after the keys were applied. */
  predicate IsMoveFrame(s: GameState, inp: FrameInput)
    requires Valid(s)
  {
    var s1 := ApplyInput(s, inp.keys);
    MovesThisFrame(s1.frameCount, EffectiveSpeed(s1.baseSpeed, s1.score, s1.boostTimer))
  }

  /** The frame's state before the food check: steered and, on a move frame, moved. */
  function Moved(s: GameState, inp: FrameInput): GameState
    requires Valid(s)
  {
    if IsMoveFrame(s, inp) then Move(ApplyInput(s, inp.keys)) else ApplyInput(s, inp.keys)
  }

  /** One iteration of the game loop: keys, move, collision, then the rest of the frame. */
  function FrameSpec(s: GameState, inp: FrameInput): (GameState, Outcome)
    requires Valid(s) && InputOk(inp)
  {
    var m := Moved(s, inp);
    if IsMoveFrame(s, inp) && Collides(m.snake, m.obstacles) then (m, GameOver) else AfterMove(s, m, inp)
  }
}

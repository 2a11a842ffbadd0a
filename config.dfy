/**
 * Constants of snake_game.py: the window and grid geometry, the frame rate, the scoring and
 * level-up rules, the power-up timings and the LEVELS difficulty table with its menu cycle.
 */
module Config {
  /** Window size in pixels; the playfield is everything below the score band. */
  const Width: int := 600
  const Height: int := 400
  /** The top band of this many pixels holds the score box; the snake never enters it. */
  const HeaderHeight: int := 40
  /** Side of one grid cell in pixels; every move is one block. */
  const Block: int := 10
  /** Frames per second of the main loop (the source also writes the literal 60 for it). */
  const Fps: int := 60

  /** Eating food: points (before the multiplier), growth and level progress. */
  const FoodPoints: int := 10
  const ProgressPerFood: int := 10
  /** Level progress at which the level goes up. */
  const LevelThreshold: int := 50
  /** Base speed gained on every level-up. */
  const LevelUpSpeedup: int := 2
  /** Every this many points add one to the effective speed. */
  const PointsPerSpeedStep: int := 50

  /** The "length" power-up: points (before the multiplier) and growth. */
  const GrowthPoints: int := 20
  const GrowthCells: int := 2

  /** Speed boost lasts 5 seconds, its player-triggered use recharges in 15 seconds (counted in frames). */
  const BoostFrames: int := 5 * Fps
  const BoostCooldownFrames: int := 15 * Fps
  /** The score multiplier expires 10 seconds of wall-clock time after pickup (in milliseconds). */
  const MultiplierMillis: int := 10000

  /** Placement draws tried for a power-up before giving up. */
  const MaxPowerupAttempts: int := 100
  /** Power-up chances are stated in parts per this many. */
  const ChanceScale: int := 1000

  datatype Difficulty = Low | Medium | High

  /** One row of LEVELS: starting speed, power-up chance (per mille) and obstacle count. */
  datatype LevelSettings = LevelSettings(speed: int, powerupChance: int, obstacles: nat)

  /** The LEVELS table. */
  function Settings(d: Difficulty): (r: LevelSettings)
    ensures 10 <= r.speed <= 20
    ensures 0 < r.powerupChance < ChanceScale
    ensures r.obstacles <= 5
  {
    match d
    case Low => LevelSettings(10, 50, 0)
    case Medium => LevelSettings(15, 30, 3)
    case High => LevelSettings(20, 20, 5)
  }

  /** The Left key in the difficulty menu. */
  function CycleLeft(d: Difficulty): (r: Difficulty)
    ensures r != d
  {
    match d
    case Low => High
    case Medium => Low
    case High => Medium
  }

  /** The Right key in the difficulty menu: the inverse of the Left key. */
  function CycleRight(d: Difficulty): (r: Difficulty)
    ensures CycleLeft(r) == d
    ensures r != d
  {
    match d
    case Low => Medium
    case Medium => High
    case High => Low
  }

  /** Right undoes Left, and three presses of either key come back to the start. */
  lemma CycleRoundTrips(d: Difficulty)
    ensures CycleRight(CycleLeft(d)) == d
    ensures CycleLeft(CycleLeft(CycleLeft(d))) == d
    ensures CycleRight(CycleRight(CycleRight(d))) == d
    ensures {d, CycleRight(d), CycleRight(CycleRight(d))} == {Low, Medium, High}
  {
  }
}

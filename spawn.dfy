/**
 * Item placement. The source draws random grid cells and keeps the first one that
 * is_valid_position accepts; here the draws are a sequence supplied by the caller.
 *  - food: retried without limit;
 *  - power-up: at most MaxPowerupAttempts draws, then no power-up;
 *  - obstacles: one retried draw per obstacle, at session start.
 */
module Spawn {
  import opened Wrappers
  import opened Config
  import opened Grid

  /** Index of the first acceptable draw, or |draws| when none is acceptable. */
  function FirstValidIndex(draws: seq<Cell>, snake: seq<Cell>, obstacles: seq<Cell>, food: Option<Cell>, powerup: Option<Cell>): (k: nat)
    ensures k <= |draws|
    ensures forall j :: 0 <= j < k ==> !IsValidPosition(draws[j], snake, obstacles, food, powerup)
    ensures k < |draws| ==> IsValidPosition(draws[k], snake, obstacles, food, powerup)
    decreases |draws|
  {
    if |draws| == 0 then 0
    else if IsValidPosition(draws[0], snake, obstacles, food, powerup) then 0
    else 1 + FirstValidIndex(draws[1..], snake, obstacles, food, powerup)
  }

  /** The first acceptable draw, if any. */
  function FirstValid(draws: seq<Cell>, snake: seq<Cell>, obstacles: seq<Cell>, food: Option<Cell>, powerup: Option<Cell>): Option<Cell>
  {
    var k := FirstValidIndex(draws, snake, obstacles, food, powerup);
    if k < |draws| then Some(draws[k]) else None
  }

  /** The first index is determined by its two defining properties. */
  lemma FirstValidIndexUnique(draws: seq<Cell>, snake: seq<Cell>, obstacles: seq<Cell>, food: Option<Cell>, powerup: Option<Cell>, i: nat)
    requires i <= |draws|
    requires forall j :: 0 <= j < i ==> !IsValidPosition(draws[j], snake, obstacles, food, powerup)
    requires i < |draws| ==> IsValidPosition(draws[i], snake, obstacles, food, powerup)
    ensures FirstValidIndex(draws, snake, obstacles, food, powerup) == i
  {
  }

  /** A placed cell is in bounds, off the snake and the obstacles, and apart from the given items. */
  lemma {:induction false} FirstValidIsFree(draws: seq<Cell>, snake: seq<Cell>, obstacles: seq<Cell>, food: Option<Cell>, powerup: Option<Cell>)
    ensures match FirstValid(draws, snake, obstacles, food, powerup)
      case Some(c) => c in draws && InBounds(c) && c !in snake && c !in obstacles && food != Some(c) && powerup != Some(c)
      case None => forall d :: d in draws ==> !IsValidPosition(d, snake, obstacles, food, powerup)
  {
    var k := FirstValidIndex(draws, snake, obstacles, food, powerup);
    if k == |draws| {
      forall d | d in draws ensures !IsValidPosition(d, snake, obstacles, food, powerup) {
        var j :| 0 <= j < |draws| && draws[j] == d;
      }
    }
  }

  /** The food respawn loop (`while True`): scan the draws until one is accepted. */
  method SpawnFood(draws: seq<Cell>, snake: seq<Cell>, obstacles: seq<Cell>, powerup: Option<Cell>) returns (food: Option<Cell>)
    ensures food == FirstValid(draws, snake, obstacles, None, powerup)
  {
    var i := 0;
    while i < |draws|
      invariant 0 <= i <= |draws|
      invariant forall j :: 0 <= j < i ==> !IsValidPosition(draws[j], snake, obstacles, None, powerup)
    {
      if IsValidPosition(draws[i], snake, obstacles, None, powerup) {
        FirstValidIndexUnique(draws, snake, obstacles, None, powerup, i);
        return Some(draws[i]);
      }
      i := i + 1;
    }
    FirstValidIndexUnique(draws, snake, obstacles, None, powerup, i);
    return None;
  }

  /**
   * The power-up placement loop: at most MaxPowerupAttempts draws, checked against the new food;
   * when all of them are rejected there is no power-up.
   */
  method PlacePowerup(draws: seq<Cell>, snake: seq<Cell>, obstacles: seq<Cell>, food: Cell) returns (pos: Option<Cell>)
    requires |draws| >= MaxPowerupAttempts
    ensures pos == FirstValid(draws[..MaxPowerupAttempts], snake, obstacles, Some(food), None)
  {
    ghost var tried := draws[..MaxPowerupAttempts];
    var attempts := 0;
    while attempts < MaxPowerupAttempts
      invariant 0 <= attempts <= MaxPowerupAttempts
      invariant forall j :: 0 <= j < attempts ==> !IsValidPosition(tried[j], snake, obstacles, Some(food), None)
    {
      var candidate := draws[attempts];
      if IsValidPosition(candidate, snake, obstacles, Some(food), None) {
        FirstValidIndexUnique(tried, snake, obstacles, Some(food), None, attempts);
        return Some(candidate);
      }
      attempts := attempts + 1;
    }
    FirstValidIndexUnique(tried, snake, obstacles, Some(food), None, attempts);
    return None;
  }

  /**
   * Obstacle placement from the draws, continuing from the obstacles already placed: each draw is
   * checked against the snake, the placed obstacles and the food; None when the draws run out first.
   */
  function ObstaclesFrom(count: nat, placed: seq<Cell>, draws: seq<Cell>, snake: seq<Cell>, food: Cell): (r: Option<seq<Cell>>)
    requires |placed| <= count
    ensures r.Some? ==> |r.value| == count && r.value[..|placed|] == placed
    ensures r.Some? ==> forall i :: |placed| <= i < |r.value| ==>
      InBounds(r.value[i]) && r.value[i] !in snake && r.value[i] != food && r.value[i] !in r.value[..i]
    decreases |draws|
  {
    if |placed| == count then Some(placed)
    else if |draws| == 0 then None
    else if IsValidPosition(draws[0], snake, placed, Some(food), None) then
      var r := ObstaclesFrom(count, placed + [draws[0]], draws[1..], snake, food);
      assert r.Some? ==> r.value[..|placed|] == (r.value[..|placed| + 1])[..|placed|];
      r
    else ObstaclesFrom(count, placed, draws[1..], snake, food)
  }

  /**
   * Each obstacle still missing is the first draw accepted against the snake, the obstacles placed
   * so far and the food; the set-up fails exactly when no remaining draw is accepted.
   */
  lemma {:induction false} ObstacleIsFirstAccepted(count: nat, placed: seq<Cell>, draws: seq<Cell>, snake: seq<Cell>, food: Cell)
    requires |placed| < count
    ensures var k := FirstValidIndex(draws, snake, placed, Some(food), None);
      && (k == |draws| ==> ObstaclesFrom(count, placed, draws, snake, food).None?)
      && (k < |draws| ==>
            ObstaclesFrom(count, placed, draws, snake, food) == ObstaclesFrom(count, placed + [draws[k]], draws[k + 1..], snake, food))
    decreases |draws|
  {
    if |draws| > 0 && !IsValidPosition(draws[0], snake, placed, Some(food), None) {
      ObstacleIsFirstAccepted(count, placed, draws[1..], snake, food);
      var k := FirstValidIndex(draws[1..], snake, placed, Some(food), None);
      if k < |draws| - 1 {
        assert draws[1..][k + 1..] == draws[k + 2..];
      }
    }
  }

  /** The obstacle set-up loop: for each obstacle, retry draws until one is accepted. */
  method PlaceObstacles(count: nat, snake: seq<Cell>, food: Cell, draws: seq<Cell>) returns (obstacles: Option<seq<Cell>>)
    ensures obstacles == ObstaclesFrom(count, [], draws, snake, food)
  {
    var placed: seq<Cell> := [];
    var j := 0;
    for n := 0 to count
      invariant |placed| == n && j <= |draws|
      invariant ObstaclesFrom(count, placed, draws[j..], snake, food) == ObstaclesFrom(count, [], draws, snake, food)
    {
      while true
        invariant j <= |draws|
        invariant ObstaclesFrom(count, placed, draws[j..], snake, food) == ObstaclesFrom(count, [], draws, snake, food)
        decreases |draws| - j
      {
        if j == |draws| {
          return None;
        }
        var candidate := draws[j];
        assert draws[j..][1..] == draws[j + 1..];
        j := j + 1;
        if IsValidPosition(candidate, snake, placed, Some(food), None) {
          placed := placed + [candidate];
          break;
        }
      }
    }
    return Some(placed);
  }
}

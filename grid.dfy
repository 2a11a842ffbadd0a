/**
 * The playfield: cells, the bounds below the score band, the occupancy test used to place items
 * (is_valid_position) and the one-block move with toroidal wrap-around.
 */
module Grid {
  import opened Wrappers
  import opened Config

  /** A position in pixels; on the grid both coordinates are multiples of Block. */
  datatype Cell = Cell(x: int, y: int)

  /** Inside the window and below the score band. */
  predicate InBounds(c: Cell)
  {
    0 <= c.x < Width && HeaderHeight <= c.y < Height
  }

  /**
   * In bounds and aligned to the block grid. The snake is kept on these cells; the item draws are
   * only required to be in bounds, so the model also covers items the head cannot reach.
   */
  predicate OnGrid(c: Cell)
  {
    InBounds(c) && c.x % Block == 0 && c.y % Block == 0
  }

  /** A heading (dx, dy): standing still or one block along one axis. */
  predicate IsHeading(dx: int, dy: int)
  {
    (dx == 0 && dy == 0) || (dx == 0 && (dy == Block || dy == -Block)) || (dy == 0 && (dx == Block || dx == -Block))
  }

  /**
   * is_valid_position: a candidate cell for an item must be in bounds, off the snake and the
   * obstacles, and differ from the food and power-up cells when those are given.
   */
  function IsValidPosition(pos: Cell, snake: seq<Cell>, obstacles: seq<Cell>, food: Option<Cell>, powerup: Option<Cell>): (ok: bool)
    ensures ok <==> InBounds(pos) && pos !in snake && pos !in obstacles && food != Some(pos) && powerup != Some(pos)
  {
    if !InBounds(pos) then false
    else if pos in snake || pos in obstacles then false
    else if food.Some? && pos == food.value then false
    else if powerup.Some? && pos == powerup.value then false
    else true
  }

  /**
   * The head's next cell: x += dx, y += dy, then a coordinate that left the playfield re-enters at
   * the opposite edge (right edge to x = 0, top band to the bottom row, and so on).
   */
  function MoveHead(head: Cell, dx: int, dy: int): (r: Cell)
    ensures InBounds(head) && -Block <= dx <= Block && -Block <= dy <= Block ==> InBounds(r)
    ensures OnGrid(head) && IsHeading(dx, dy) ==> OnGrid(r)
    ensures InBounds(Cell(head.x + dx, head.y + dy)) ==> r == Cell(head.x + dx, head.y + dy)
  {
    var x := head.x + dx;
    var y := head.y + dy;
    var x' := if x >= Width then 0 else if x < 0 then Width - Block else x;
    var y' := if y >= Height then HeaderHeight else if y < HeaderHeight then Height - Block else y;
    Cell(x', y')
  }

  /** Leaving through an edge re-enters at the opposite edge on the same row or column. */
  lemma WrapsToOppositeEdge(head: Cell)
    requires OnGrid(head)
    ensures head.x == Width - Block ==> MoveHead(head, Block, 0) == Cell(0, head.y)
    ensures head.x == 0 ==> MoveHead(head, -Block, 0) == Cell(Width - Block, head.y)
    ensures head.y == Height - Block ==> MoveHead(head, 0, Block) == Cell(head.x, HeaderHeight)
    ensures head.y == HeaderHeight ==> MoveHead(head, 0, -Block) == Cell(head.x, Height - Block)
  {
  }
}

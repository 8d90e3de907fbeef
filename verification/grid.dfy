/** The fixed 10 x 6 world: terrain, passability and adjacency. */
module Grid {

  const Width: int := 10
  const Height: int := 6

  /** Row y of the map, read by column x: '.' is grass, '~' is water, '#' is wall. */
  function MapRow(y: int): (row: string)
    requires 0 <= y < Height
    ensures |row| == Width
  {
    if y == 0 then ".........."
    else if y == 1 then "..~~~....."
    else if y == 2 then "..~~~....."
    else if y == 3 then "..~~~..##."
    else if y == 4 then "......##.."
    else ".........."
  }

  datatype Pos = Pos(x: int, y: int)

  /** The four cardinal steps; North is up the screen (y decreases). */
  datatype Dir = North | South | West | East

  function DeltaX(d: Dir): int {
    match d
    case West => -1
    case East => 1
    case _ => 0
  }

  function DeltaY(d: Dir): int {
    match d
    case North => -1
    case South => 1
    case _ => 0
  }

  /** The tile one step from p in direction d. */
  function Step(p: Pos, d: Dir): Pos {
    Pos(p.x + DeltaX(d), p.y + DeltaY(d))
  }

  predicate InBounds(x: int, y: int) {
    0 <= x < Width && 0 <= y < Height
  }

  /** The terrain character at an in-bounds tile, read off the map as its three features:
      the lake (columns 2-4 of rows 1-3) and the two wall segments of rows 3 and 4. */
  function Terrain(x: int, y: int): char
    requires InBounds(x, y)
  {
    if 2 <= x <= 4 && 1 <= y <= 3 then '~'
    else if (y == 3 && 7 <= x <= 8) || (y == 4 && 6 <= x <= 7) then '#'
    else '.'
  }

  /** A tile can be entered when it lies on the map and is neither wall nor water. */
  predicate Passable(x: int, y: int) {
    InBounds(x, y) && Terrain(x, y) != '#' && Terrain(x, y) != '~'
  }

  function Abs(n: int): nat {
    if n < 0 then -n else n
  }

  function Distance(a: Pos, b: Pos): nat {
    Abs(a.x - b.x) + Abs(a.y - b.y)
  }

  /** Two tiles are adjacent when their Manhattan distance is exactly 1. */
  predicate Adjacent(a: Pos, b: Pos) {
    Distance(a, b) == 1
  }

  /** Terrain agrees with the map rows tile by tile. */
  lemma TerrainIsMap(x: int, y: int)
    requires InBounds(x, y)
    ensures Terrain(x, y) == MapRow(y)[x]
  {
    if y == 0 {} else if y == 1 {} else if y == 2 {}
    else if y == 3 {} else if y == 4 {} else {}
  }

  /** Every tile off the map is impassable, and on the map exactly the grass tiles are passable. */
  lemma PassableExactlyGrass(x: int, y: int)
    ensures !InBounds(x, y) ==> !Passable(x, y)
    ensures Passable(x, y) <==> InBounds(x, y) && MapRow(y)[x] == '.'
  {
    if InBounds(x, y) {
      TerrainIsMap(x, y);
    }
  }

  /** Every step lands on an adjacent tile. */
  lemma StepIsAdjacent(p: Pos, d: Dir)
    ensures Adjacent(p, Step(p, d))
  {
  }

  /** Adjacency is exactly "one cardinal step away". */
  lemma AdjacentIsOneStep(a: Pos, b: Pos)
    ensures Adjacent(a, b) <==> exists d: Dir :: Step(a, d) == b
  {
    if Adjacent(a, b) {
      if a.x + 1 == b.x { assert Step(a, East) == b; }
      else if a.x - 1 == b.x { assert Step(a, West) == b; }
      else if a.y + 1 == b.y { assert Step(a, South) == b; }
      else { assert Step(a, North) == b; }
    }
  }
}

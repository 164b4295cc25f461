/**
 * The grid of the A* maze solver (astar_maze_gui.py): a 4 by 5 board of cells
 * numbered 1 to 20 row by row, walls between neighbouring cells, the Manhattan
 * heuristic and the neighbour enumeration.
 */
module MazeGrid {

  const Rows: int := 4
  const Cols: int := 5

  /** A cell as (row, column). */
  type Pos = (int, int)
  /** A wall as the pair of cells it separates. */
  type Wall = (Pos, Pos)

  predicate InGrid(p: Pos)
  {
    0 <= p.0 < Rows && 0 <= p.1 < Cols
  }

  ghost function GridCells(): set<Pos>
  {
    set i, j | 0 <= i < Rows && 0 <= j < Cols :: (i, j)
  }

  /** `cell_map[n]`: the cell numbered `n`. */
  function CellOf(n: int): (p: Pos)
    requires 1 <= n <= Rows * Cols
    ensures InGrid(p)
  {
    ((n - 1) / Cols, (n - 1) % Cols)
  }

  /** `position_map[p]`: the number of cell `p`. */
  function NumberOf(p: Pos): (n: int)
    requires InGrid(p)
    ensures 1 <= n <= Rows * Cols
  {
    p.0 * Cols + p.1 + 1
  }

  /** The two numberings are mutual inverses. */
  lemma CellNumbering(n: int, p: Pos)
    ensures 1 <= n <= Rows * Cols ==> NumberOf(CellOf(n)) == n
    ensures InGrid(p) ==> CellOf(NumberOf(p)) == p
  {
  }

  /** The cells numbered below `n + 1`. */
  ghost function CellsUpTo(n: nat): set<Pos>
    requires n <= Rows * Cols
  {
    set k | 1 <= k <= n :: CellOf(k)
  }

  lemma {:induction false} CellsUpToCount(n: nat)
    requires n <= Rows * Cols
    ensures |CellsUpTo(n)| == n
  {
    if n > 0 {
      CellsUpToCount(n - 1);
      assert CellsUpTo(n) == CellsUpTo(n - 1) + {CellOf(n)};
      forall k | 1 <= k <= n - 1 ensures CellOf(k) != CellOf(n) {
        CellNumbering(k, CellOf(k));
        CellNumbering(n, CellOf(n));
      }
    }
  }

  /** The grid has exactly `Rows * Cols` cells. */
  lemma GridCellCount()
    ensures |GridCells()| == Rows * Cols
  {
    forall p | p in GridCells() ensures p in CellsUpTo(Rows * Cols) {
      CellNumbering(NumberOf(p), p);
    }
    assert GridCells() == CellsUpTo(Rows * Cols);
    CellsUpToCount(Rows * Cols);
  }

  /**
   * The constructor's double loop that numbers the cells row by row and
   * records both directions of the numbering.
   */
  method BuildCellMaps() returns (cellMap: map<int, Pos>, positionMap: map<Pos, int>)
    ensures forall n :: n in cellMap <==> 1 <= n <= Rows * Cols
    ensures forall p :: p in positionMap <==> InGrid(p)
    ensures forall n :: n in cellMap ==> cellMap[n] == CellOf(n)
    ensures forall p :: p in positionMap ==> positionMap[p] == NumberOf(p)
  {
    cellMap, positionMap := map[], map[];
    var num := 1;
    for i := 0 to Rows
      invariant num == i * Cols + 1
      invariant forall n :: n in cellMap <==> 1 <= n < num
      invariant forall n :: n in cellMap ==> cellMap[n] == CellOf(n)
      invariant forall p :: p in positionMap <==> InGrid(p) && p.0 < i
      invariant forall p :: p in positionMap ==> positionMap[p] == NumberOf(p)
    {
      for j := 0 to Cols
        invariant num == i * Cols + j + 1
        invariant forall n :: n in cellMap <==> 1 <= n < num
        invariant forall n :: n in cellMap ==> cellMap[n] == CellOf(n)
        invariant forall p :: p in positionMap <==> InGrid(p) && (p.0 < i || (p.0 == i && p.1 < j))
        invariant forall p :: p in positionMap ==> positionMap[p] == NumberOf(p)
      {
        CellNumbering(num, (i, j));
        cellMap := cellMap[num := (i, j)];
        positionMap := positionMap[(i, j) := num];
        num := num + 1;
      }
    }
  }

  predicate Adjacent(a: Pos, b: Pos)
  {
    (a.0 == b.0 && (a.1 - b.1 == 1 || b.1 - a.1 == 1)) ||
    (a.1 == b.1 && (a.0 - b.0 == 1 || b.0 - a.0 == 1))
  }

  /** A wall between `a` and `b`, stored in either orientation. */
  predicate Blocked(walls: set<Wall>, a: Pos, b: Pos)
  {
    (a, b) in walls || (b, a) in walls
  }

  /** One move of the search: to an in-grid, orthogonally adjacent cell with no wall in between. */
  predicate Step(walls: set<Wall>, a: Pos, b: Pos)
  {
    InGrid(b) && Adjacent(a, b) && !Blocked(walls, a, b)
  }

  /** The shape of every wall a click can make: two in-grid neighbours, the lower (row, column) first. */
  predicate Canonical(w: Wall)
  {
    InGrid(w.0) && InGrid(w.1) &&
    ((w.0.0 == w.1.0 && w.1.1 == w.0.1 + 1) || (w.0.1 == w.1.1 && w.1.0 == w.0.0 + 1))
  }

  /** Where a click landed: on the vertical line left of column `col`, or the horizontal line above row `row`. */
  datatype Edge = VerticalEdge(row: int, col: int) | HorizontalEdge(row: int, col: int)

  /** The lines a click is tested against: interior lines only. */
  predicate ValidEdge(e: Edge)
  {
    match e
    case VerticalEdge(i, j) => 0 <= i < Rows && 1 <= j < Cols
    case HorizontalEdge(i, j) => 1 <= i < Rows && 0 <= j < Cols
  }

  /** The wall a click on an edge toggles; it is always canonical. */
  function EdgeWall(e: Edge): (w: Wall)
    requires ValidEdge(e)
    ensures Canonical(w)
  {
    match e
    case VerticalEdge(i, j) => ((i, j - 1), (i, j))
    case HorizontalEdge(i, j) => ((i - 1, j), (i, j))
  }

  /** Every canonical wall is made by exactly one click position. */
  lemma EveryCanonicalWallIsClickable(w: Wall)
    requires Canonical(w)
    ensures w.0.0 == w.1.0 ==> ValidEdge(VerticalEdge(w.1.0, w.1.1)) && EdgeWall(VerticalEdge(w.1.0, w.1.1)) == w
    ensures w.0.0 != w.1.0 ==> ValidEdge(HorizontalEdge(w.1.0, w.1.1)) && EdgeWall(HorizontalEdge(w.1.0, w.1.1)) == w
  {
  }

  /** `toggle_wall` on the set: a present wall is removed, an absent one added, no other changes. */
  function Toggle(walls: set<Wall>, w: Wall): (r: set<Wall>)
    ensures w in r <==> w !in walls
    ensures forall v :: v != w ==> (v in r <==> v in walls)
  {
    if w in walls then walls - {w} else walls + {w}
  }

  /** Toggling the same wall twice restores the set. */
  lemma ToggleTwice(walls: set<Wall>, w: Wall)
    ensures Toggle(Toggle(walls, w), w) == walls
  {
  }

  /** `calculate_heuristic`: the Manhattan distance to the goal. */
  function Heuristic(p: Pos, goal: Pos): (h: int)
    ensures h >= 0
    ensures h == 0 <==> p == goal
  {
    (if p.0 >= goal.0 then p.0 - goal.0 else goal.0 - p.0) +
    (if p.1 >= goal.1 then p.1 - goal.1 else goal.1 - p.1)
  }

  /** The heuristic is consistent: one step changes it by at most one. */
  lemma HeuristicConsistent(a: Pos, b: Pos, goal: Pos)
    requires Adjacent(a, b)
    ensures Heuristic(a, goal) <= Heuristic(b, goal) + 1
  {
  }

  /** A walk of moves; its number of steps is its length less one. */
  predicate IsPath(walls: set<Wall>, p: seq<Pos>)
  {
    |p| >= 1 && forall i :: 0 <= i < |p| - 1 ==> Step(walls, p[i], p[i + 1])
  }

  /** The heuristic is admissible: no walk to the goal is shorter than it. */
  lemma {:induction false} HeuristicAdmissible(walls: set<Wall>, p: seq<Pos>, goal: Pos)
    requires IsPath(walls, p) && p[|p| - 1] == goal
    ensures Heuristic(p[0], goal) <= |p| - 1
  {
    if |p| > 1 {
      assert IsPath(walls, p[1..]);
      HeuristicAdmissible(walls, p[1..], goal);
      HeuristicConsistent(p[0], p[1], goal);
    }
  }

  /** `directions`: right, down, left, up, as (row, column) offsets. */
  const Directions: seq<Pos> := [(0, 1), (1, 0), (0, -1), (-1, 0)]

  function Shift(p: Pos, d: Pos): Pos
  {
    (p.0 + d.0, p.1 + d.1)
  }

  /** Which direction leads from `a` to its neighbour `b`. */
  function DirectionOf(a: Pos, b: Pos): (k: nat)
    requires Adjacent(a, b)
    ensures k < |Directions| && b == Shift(a, Directions[k])
  {
    if b.1 == a.1 + 1 then 0
    else if b.0 == a.0 + 1 then 1
    else if b.1 == a.1 - 1 then 2
    else 3
  }

  /**
   * `get_neighbors`: the in-grid cells one direction away, in the order right,
   * down, left, up, skipping any behind a wall stored in either orientation.
   */
  method GetNeighbors(walls: set<Wall>, p: Pos) returns (neighbors: seq<Pos>)
    ensures |neighbors| <= 4
    ensures forall q :: q in neighbors <==> Step(walls, p, q)
    ensures forall i :: 0 <= i < |neighbors| ==> Adjacent(p, neighbors[i])
    ensures forall i, j :: 0 <= i < j < |neighbors| ==> DirectionOf(p, neighbors[i]) < DirectionOf(p, neighbors[j])
    ensures forall i, j :: 0 <= i < j < |neighbors| ==> neighbors[i] != neighbors[j]
  {
    neighbors := [];
    for k := 0 to |Directions|
      invariant |neighbors| <= k
      invariant forall q :: q in neighbors <==> Step(walls, p, q) && DirectionOf(p, q) < k
      invariant forall i :: 0 <= i < |neighbors| ==> Adjacent(p, neighbors[i]) && DirectionOf(p, neighbors[i]) < k
      invariant forall i, j :: 0 <= i < j < |neighbors| ==> DirectionOf(p, neighbors[i]) < DirectionOf(p, neighbors[j])
    {
      var q := Shift(p, Directions[k]);
      if 0 <= q.0 < Rows && 0 <= q.1 < Cols {
        var wall := (p, q);
        var wallReverse := (q, p);
        if wall !in walls && wallReverse !in walls {
          neighbors := neighbors + [q];
        }
      }
    }
  }
}

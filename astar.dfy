/**
 * The A* search of the maze solver (astar_maze_gui.py): search nodes linked to
 * their parents, path reconstruction, and the search loop of `run_algorithm`.
 *
 * A node's fields never change once it is in the open list. The source creates
 * each neighbour node with g = h = 0 and no parent and fills them in only when
 * the node is about to be pushed; the one other write, when an already-open
 * cell is reached with a smaller g, goes to a fresh node that is then dropped.
 * So nodes are modelled with constant fields, created with their final values.
 */
module AStar {
  import opened Wrappers
  import opened MazeGrid

  class Node {
    const x: int
    const y: int
    /** Cost from the start: the number of moves to reach this node. */
    const g: nat
    /** Heuristic cost to the goal. */
    const h: int
    const f: int
    const parent: Node?

    constructor (x: int, y: int, g: nat, h: int, parent: Node?)
      ensures this.x == x && this.y == y && this.g == g && this.h == h && this.parent == parent
      ensures f == g + h
    {
      this.x, this.y, this.g, this.h, this.parent := x, y, g, h, parent;
      f := g + h;
    }
  }

  function PosOf(n: Node): Pos
  {
    (n.x, n.y)
  }

  /** The parent chain ends: every parent has a smaller g. */
  ghost predicate Linked(n: Node)
    decreases n.g
  {
    n.parent == null || (n.parent.g < n.g && Linked(n.parent))
  }

  /** The cells from the root ancestor down to `n`. */
  ghost function Lineage(n: Node): (cells: seq<Pos>)
    requires Linked(n)
    decreases n.g
    ensures |cells| >= 1 && cells[|cells| - 1] == PosOf(n)
  {
    if n.parent == null then [PosOf(n)] else Lineage(n.parent) + [PosOf(n)]
  }

  function Reversed(s: seq<Pos>): (r: seq<Pos>)
    ensures |r| == |s|
    ensures forall i :: 0 <= i < |s| ==> r[i] == s[|s| - 1 - i]
  {
    if s == [] then [] else [s[|s| - 1]] + Reversed(s[..|s| - 1])
  }

  /** The lineage of a possibly-absent node: empty past the root. */
  ghost function Ancestry(n: Node?): seq<Pos>
    requires n != null ==> Linked(n)
  {
    if n == null then [] else Lineage(n)
  }

  /** One step up the parent chain moves a cell from the ancestry to the reversed tail. */
  lemma {:induction false} AncestryStep(n: Node, collected: seq<Pos>)
    requires Linked(n)
    ensures Ancestry(n) + Reversed(collected) == Ancestry(n.parent) + Reversed(collected + [PosOf(n)])
  {
    assert (collected + [PosOf(n)])[..|collected|] == collected;
    assert Reversed(collected + [PosOf(n)]) == [PosOf(n)] + Reversed(collected);
  }

  /**
   * `reconstruct_path`: walk the parents collecting cells, then reverse. The
   * result is the lineage: the root ancestor first and `node` last.
   */
  method ReconstructPath(node: Node) returns (path: seq<Pos>)
    requires Linked(node)
    ensures path == Lineage(node)
    ensures path[|path| - 1] == PosOf(node)
  {
    var collected: seq<Pos> := [];
    var current: Node? := node;
    while current != null
      invariant current != null ==> Linked(current)
      invariant Lineage(node) == Ancestry(current) + Reversed(collected)
      decreases if current == null then 0 else current.g + 1
    {
      AncestryStep(current, collected);
      collected := collected + [PosOf(current)];
      current := current.parent;
    }
    path := Reversed(collected);
  }

  /** A node the search has built: its lineage is a walk from `start` to it of `g` moves. */
  ghost predicate Reached(n: Node, start: Pos, walls: set<Wall>)
  {
    Linked(n) && Lineage(n)[0] == start && IsPath(walls, Lineage(n)) && |Lineage(n)| == n.g + 1
  }

  ghost function OpenCells(open: seq<Node>): set<Pos>
  {
    set i | 0 <= i < |open| :: PosOf(open[i])
  }

  ghost predicate DistinctCells(open: seq<Node>)
  {
    forall i, j :: 0 <= i < j < |open| ==> PosOf(open[i]) != PosOf(open[j])
  }

  /** `heappop`: the heap orders by f alone, so it yields some node of least f. */
  method PopMin(open: seq<Node>) returns (current: Node, rest: seq<Node>, k: nat)
    requires |open| > 0
    ensures k < |open| && current == open[k] && rest == open[..k] + open[k + 1..]
    ensures forall j :: 0 <= j < |open| ==> current.f <= open[j].f
  {
    ghost var least := LeastF(open);
    k :| k < |open| && forall j :: 0 <= j < |open| ==> open[k].f <= open[j].f;
    current := open[k];
    rest := open[..k] + open[k + 1..];
  }

  ghost function LeastF(open: seq<Node>): (k: nat)
    requires |open| > 0
    ensures k < |open| && forall j :: 0 <= j < |open| ==> open[k].f <= open[j].f
  {
    if |open| == 1 then 0
    else
      var k := LeastF(open[1..]);
      if open[0].f <= open[1..][k].f then 0 else k + 1
  }

  /** The scan of the open list for a node on cell `q`: the first one, if any. */
  method FindOpen(open: seq<Node>, q: Pos) returns (found: Option<nat>)
    ensures found.None? <==> q !in OpenCells(open)
    ensures found.Some? ==> found.value < |open| && PosOf(open[found.value]) == q
    ensures found.Some? ==> forall i :: 0 <= i < found.value ==> PosOf(open[i]) != q
  {
    var i := 0;
    while i < |open|
      invariant 0 <= i <= |open|
      invariant forall j :: 0 <= j < i ==> PosOf(open[j]) != q
    {
      if open[i].x == q.0 && open[i].y == q.1 {
        return Some(i);
      }
      i := i + 1;
    }
    found := None;
  }

  /** A set of cells containing `start` that no move leaves holds every walk from `start`. */
  lemma {:induction false} ClosedUnderSteps(walls: set<Wall>, cells: set<Pos>, p: seq<Pos>)
    requires forall c, q :: c in cells && Step(walls, c, q) ==> q in cells
    requires IsPath(walls, p) && p[0] in cells
    ensures p[|p| - 1] in cells
  {
    if |p| > 1 {
      assert IsPath(walls, p[1..]);
      ClosedUnderSteps(walls, cells, p[1..]);
    }
  }

  /** Where each node of the open list minus its `k`-th node came from. */
  lemma RestIndex(open: seq<Node>, k: nat, rest: seq<Node>)
    requires k < |open| && rest == open[..k] + open[k + 1..]
    ensures |rest| == |open| - 1
    ensures forall i :: 0 <= i < |rest| ==> rest[i] == open[if i < k then i else i + 1]
  {
  }

  /** Removing the `k`-th node removes exactly its cell, when cells are distinct. */
  lemma RestCells(open: seq<Node>, k: nat)
    requires k < |open| && DistinctCells(open)
    ensures OpenCells(open[..k] + open[k + 1..]) == OpenCells(open) - {PosOf(open[k])}
  {
    var rest := open[..k] + open[k + 1..];
    RestIndex(open, k, rest);
    forall c | c in OpenCells(open) - {PosOf(open[k])} ensures c in OpenCells(rest) {
      var i :| 0 <= i < |open| && PosOf(open[i]) == c;
      var j := if i < k then i else i - 1;
      assert rest[j] == open[i];
    }
    forall c | c in OpenCells(rest) ensures c in OpenCells(open) - {PosOf(open[k])} {
      var i :| 0 <= i < |rest| && PosOf(rest[i]) == c;
      var j := if i < k then i else i + 1;
      assert rest[i] == open[j];
    }
  }

  /** Removing a node keeps the cells of the others distinct. */
  lemma RestDistinct(open: seq<Node>, k: nat)
    requires k < |open| && DistinctCells(open)
    ensures DistinctCells(open[..k] + open[k + 1..])
  {
    var rest := open[..k] + open[k + 1..];
    RestIndex(open, k, rest);
    forall i, j | 0 <= i < j < |rest| ensures PosOf(rest[i]) != PosOf(rest[j]) {
      var i', j' := if i < k then i else i + 1, if j < k then j else j + 1;
      assert rest[i] == open[i'] && rest[j] == open[j'] && i' < j';
    }
  }

  /**
   * `heappop` of the node at `k`: the rest of the open list keeps its
   * invariant once that node's cell is closed, and loses exactly that cell.
   */
  lemma PopKeepsValid(open: seq<Node>, k: nat, closed: set<Pos>, start: Pos, walls: set<Wall>)
    requires k < |open| && OpenValid(open, closed, start, walls)
    ensures OpenValid(open[..k] + open[k + 1..], closed + {PosOf(open[k])}, start, walls)
    ensures OpenCells(open[..k] + open[k + 1..]) == OpenCells(open) - {PosOf(open[k])}
    ensures PosOf(open[k]) in OpenCells(open)
  {
    var rest := open[..k] + open[k + 1..];
    RestIndex(open, k, rest);
    RestCells(open, k);
    RestDistinct(open, k);
    forall i | 0 <= i < |rest| ensures Reached(rest[i], start, walls) {
      assert rest[i] == open[if i < k then i else i + 1];
    }
  }

  /** A child of a reached node, one move further on, is reached. */
  lemma ChildReached(parent: Node, child: Node, start: Pos, walls: set<Wall>)
    requires Reached(parent, start, walls)
    requires child.parent == parent && child.g == parent.g + 1 && Step(walls, PosOf(parent), PosOf(child))
    ensures Reached(child, start, walls)
    ensures Lineage(child) == Lineage(parent) + [PosOf(child)]
  {
    var l := Lineage(parent);
    var lc := l + [PosOf(child)];
    assert Lineage(child) == lc;
    forall i | 0 <= i < |lc| - 1 ensures Step(walls, lc[i], lc[i + 1]) {
      if i < |l| - 1 { assert lc[i] == l[i] && lc[i + 1] == l[i + 1]; }
    }
  }

  /** What holds of the open list throughout the search. */
  ghost predicate OpenValid(open: seq<Node>, closed: set<Pos>, start: Pos, walls: set<Wall>)
  {
    (forall i :: 0 <= i < |open| ==> Reached(open[i], start, walls)) &&
    DistinctCells(open) && OpenCells(open) !! closed && OpenCells(open) <= GridCells()
  }

  /** `heappush` of a node on a cell not yet open. */
  lemma PushKeepsValid(open: seq<Node>, node: Node, closed: set<Pos>, start: Pos, walls: set<Wall>)
    requires OpenValid(open, closed, start, walls)
    requires Reached(node, start, walls) && InGrid(PosOf(node))
    requires PosOf(node) !in OpenCells(open) && PosOf(node) !in closed
    ensures OpenValid(open + [node], closed, start, walls)
    ensures OpenCells(open + [node]) == OpenCells(open) + {PosOf(node)}
  {
    var after := open + [node];
    assert PosOf(after[|open|]) == PosOf(node);
    forall c | c in OpenCells(after) ensures c in OpenCells(open) + {PosOf(node)} {
      var i :| 0 <= i < |after| && PosOf(after[i]) == c;
      if i < |open| { assert after[i] == open[i]; }
    }
    forall c | c in OpenCells(open) ensures c in OpenCells(after) {
      var i :| 0 <= i < |open| && PosOf(open[i]) == c;
      assert after[i] == open[i];
    }
    forall i, j | 0 <= i < j < |after| ensures PosOf(after[i]) != PosOf(after[j]) {
      assert after[i] == open[i];
      if j < |open| { assert after[j] == open[j]; } else { assert PosOf(open[i]) in OpenCells(open); }
    }
  }

  /**
   * The neighbour loop of one expansion: a neighbour that is closed is
   * skipped; one not yet open is pushed as a child of `current`; one already
   * open is left as it is, even when the new route to it is shorter (the
   * source then updates only the throw-away node `get_neighbors` built).
   * Afterwards every neighbour is closed or open.
   */
  method PushNeighbors(current: Node, neighbors: seq<Pos>, open: seq<Node>, closed: set<Pos>, goal: Pos,
                       ghost start: Pos, walls: set<Wall>)
    returns (next: seq<Node>)
    requires OpenValid(open, closed, start, walls) && Reached(current, start, walls)
    requires forall q :: q in neighbors ==> Step(walls, PosOf(current), q)
    ensures OpenValid(next, closed, start, walls)
    ensures OpenCells(next) == OpenCells(open) + (set q | q in neighbors && q !in closed)
    ensures open <= next
    ensures ChildrenFrom(next, |open|, current)
  {
    next := open;
    for n := 0 to |neighbors|
      invariant OpenValid(next, closed, start, walls)
      invariant OpenCells(next) == OpenCells(open) + UnclosedUpTo(neighbors, closed, n)
      invariant open <= next
      invariant ChildrenFrom(next, |open|, current)
    {
      var neighbor := neighbors[n];
      assert neighbor in neighbors;
      UnclosedStep(neighbors, closed, n);
      if neighbor in closed {
        continue;
      }
      var tentativeG := current.g + 1;
      var existing := FindOpen(next, neighbor);
      if existing.None? || tentativeG < next[existing.value].g {
        if existing.None? {
          var node := new Node(neighbor.0, neighbor.1, tentativeG, Heuristic(neighbor, goal), current);
          ChildReached(current, node, start, walls);
          PushKeepsValid(next, node, closed, start, walls);
          ChildrenPush(next, |open|, current, node);
          next := next + [node];
        }
      }
    }
    UnclosedAll(neighbors, closed);
  }

  /** The nodes from index `from` on are children of `parent`, one step further from the start. */
  ghost predicate ChildrenFrom(nodes: seq<Node>, from: nat, parent: Node)
  {
    forall i :: from <= i < |nodes| ==> nodes[i].parent == parent && nodes[i].g == parent.g + 1
  }

  lemma ChildrenPush(nodes: seq<Node>, from: nat, parent: Node, node: Node)
    requires ChildrenFrom(nodes, from, parent) && from <= |nodes|
    requires node.parent == parent && node.g == parent.g + 1
    ensures ChildrenFrom(nodes + [node], from, parent)
  {
    var after := nodes + [node];
    forall i | from <= i < |after| ensures after[i].parent == parent && after[i].g == parent.g + 1 {
      if i < |nodes| { assert after[i] == nodes[i]; }
    }
  }

  /** The neighbours among the first `n` that are not closed. */
  ghost function UnclosedUpTo(neighbors: seq<Pos>, closed: set<Pos>, n: nat): set<Pos>
    requires n <= |neighbors|
  {
    set m | 0 <= m < n && neighbors[m] !in closed :: neighbors[m]
  }

  lemma UnclosedStep(neighbors: seq<Pos>, closed: set<Pos>, n: nat)
    requires n < |neighbors|
    ensures neighbors[n] in closed ==> UnclosedUpTo(neighbors, closed, n + 1) == UnclosedUpTo(neighbors, closed, n)
    ensures neighbors[n] !in closed ==>
      UnclosedUpTo(neighbors, closed, n + 1) == UnclosedUpTo(neighbors, closed, n) + {neighbors[n]}
  {
  }

  lemma UnclosedAll(neighbors: seq<Pos>, closed: set<Pos>)
    ensures UnclosedUpTo(neighbors, closed, |neighbors|) == (set q | q in neighbors && q !in closed)
  {
  }

  /**
   * The search loop of `run_algorithm`. A cell is pushed only when it is neither
   * closed nor already open, and it is closed when popped, so every cell is
   * expanded at most once. A path is returned when the goal is popped: it runs
   * from the start to the goal in wall-free moves. No path is returned only
   * when the open list runs empty, and then no walk from the start reaches the
   * goal. Shortness is not claimed: a better route to an open cell is dropped.
   */
  method Search(start: Pos, goal: Pos, walls: set<Wall>) returns (path: Option<seq<Pos>>, ghost expanded: seq<Pos>)
    requires InGrid(start)
    ensures path.Some? ==> IsPath(walls, path.value) && path.value[0] == start && path.value[|path.value| - 1] == goal
    ensures path.None? ==> forall p :: IsPath(walls, p) && p[0] == start ==> p[|p| - 1] != goal
    ensures forall i, j :: 0 <= i < j < |expanded| ==> expanded[i] != expanded[j]
    ensures |expanded| <= Rows * Cols
  {
    var startNode := new Node(start.0, start.1, 0, Heuristic(start, goal), null);
    var open: seq<Node> := [startNode];
    var closed: set<Pos> := {};
    expanded := [];
    path := None;
    assert PosOf(open[0]) == start;
    assert OpenCells(open) == {start};

    while |open| > 0
      invariant Frontier(open, closed, expanded, start, walls)
      invariant goal !in closed
      decreases |GridCells() - closed|
    {
      var current, rest, k := PopMin(open);
      var currentPos := (current.x, current.y);
      PopFromFrontier(open, k, closed, expanded, start, walls);
      ghost var openBefore, closedBefore, expandedBefore := open, closed, expanded;
      open := rest;
      closed := closed + {currentPos};
      expanded := expanded + [currentPos];

      if currentPos == goal {
        var cells := ReconstructPath(current);
        path := Some(cells);
        break;
      }

      var neighbors := GetNeighbors(walls, currentPos);
      open := PushNeighbors(current, neighbors, open, closed, goal, start, walls);
      ExpandKeepsFrontier(openBefore, k, closedBefore, expandedBefore, start, walls, neighbors, open);
    }

    if path.None? {
      forall p | IsPath(walls, p) && p[0] == start ensures p[|p| - 1] != goal {
        ClosedUnderSteps(walls, closed, p);
      }
    }
    GridCellCount();
    SubsetSize(closed, GridCells());
  }

  /**
   * The invariant of the search loop: the open list is valid, the closed cells
   * are cells of the grid, the start is closed or open, every move out of a
   * closed cell lands on a closed or open cell, and `expanded` lists the closed
   * cells once each.
   */
  ghost predicate Frontier(open: seq<Node>, closed: set<Pos>, expanded: seq<Pos>, start: Pos, walls: set<Wall>)
  {
    OpenValid(open, closed, start, walls) && closed <= GridCells() &&
    (start in closed || start in OpenCells(open)) &&
    (forall c, q :: c in closed && Step(walls, c, q) ==> q in closed || q in OpenCells(open)) &&
    |expanded| == |closed| && (forall c :: c in expanded <==> c in closed) &&
    (forall i, j :: 0 <= i < j < |expanded| ==> expanded[i] != expanded[j])
  }

  /**
   * Popping the `k`-th open node and closing its cell: the rest of the open list
   * stays valid, the node was reached from the start, the unexplored part of the
   * grid shrinks, and `expanded` gains a new cell.
   */
  lemma PopFromFrontier(open: seq<Node>, k: nat, closed: set<Pos>, expanded: seq<Pos>, start: Pos, walls: set<Wall>)
    requires Frontier(open, closed, expanded, start, walls) && k < |open|
    ensures OpenValid(open[..k] + open[k + 1..], closed + {PosOf(open[k])}, start, walls)
    ensures Reached(open[k], start, walls)
    ensures closed + {PosOf(open[k])} <= GridCells()
    ensures GridCells() - (closed + {PosOf(open[k])}) < GridCells() - closed
    ensures |expanded + [PosOf(open[k])]| == |closed + {PosOf(open[k])}|
    ensures forall i, j :: 0 <= i < j < |expanded + [PosOf(open[k])]| ==>
      (expanded + [PosOf(open[k])])[i] != (expanded + [PosOf(open[k])])[j]
  {
    PopKeepsValid(open, k, closed, start, walls);
    ExpandOne(closed, PosOf(open[k]), expanded);
  }

  /** One round of the loop (pop, close, push the neighbours) keeps the invariant. */
  lemma ExpandKeepsFrontier(open: seq<Node>, k: nat, closed: set<Pos>, expanded: seq<Pos>, start: Pos, walls: set<Wall>,
                            neighbors: seq<Pos>, next: seq<Node>)
    requires Frontier(open, closed, expanded, start, walls) && k < |open|
    requires forall q :: q in neighbors <==> Step(walls, PosOf(open[k]), q)
    requires OpenValid(next, closed + {PosOf(open[k])}, start, walls)
    requires OpenCells(next) ==
      OpenCells(open[..k] + open[k + 1..]) + (set q | q in neighbors && q !in closed + {PosOf(open[k])})
    ensures Frontier(next, closed + {PosOf(open[k])}, expanded + [PosOf(open[k])], start, walls)
  {
    var c := PosOf(open[k]);
    PopKeepsValid(open, k, closed, start, walls);
    ExpandOne(closed, c, expanded);
    CloseAndExpand(walls, closed, OpenCells(open), c, neighbors, OpenCells(next));
  }

  lemma SubsetSize(a: set<Pos>, b: set<Pos>)
    requires a <= b
    ensures |a| <= |b|
  {
    assert b == a + (b - a);
  }

  /**
   * The closure invariant survives one expansion: every move out of a closed
   * cell lands on a closed or open cell, once the popped cell `c` is closed and
   * its neighbours that are not closed are open.
   */
  lemma CloseAndExpand(walls: set<Wall>, closed: set<Pos>, open: set<Pos>, c: Pos, neighbors: seq<Pos>, after: set<Pos>)
    requires forall d, q :: d in closed && Step(walls, d, q) ==> q in closed || q in open
    requires c in open
    requires forall q :: q in neighbors <==> Step(walls, c, q)
    requires after == (open - {c}) + (set q | q in neighbors && q !in closed + {c})
    ensures forall d, q :: d in closed + {c} && Step(walls, d, q) ==> q in closed + {c} || q in after
  {
  }

  /** Closing a cell that was open: the unexplored part of the grid shrinks and the expansion record stays exact. */
  lemma ExpandOne(closed: set<Pos>, c: Pos, expanded: seq<Pos>)
    requires c in GridCells() && c !in closed
    requires forall x :: x in expanded <==> x in closed
    requires forall i, j :: 0 <= i < j < |expanded| ==> expanded[i] != expanded[j]
    ensures GridCells() - (closed + {c}) < GridCells() - closed
    ensures |closed + {c}| == |closed| + 1
    ensures forall i, j :: 0 <= i < j < |expanded + [c]| ==> (expanded + [c])[i] != (expanded + [c])[j]
  {
    var e := expanded + [c];
    forall i, j | 0 <= i < j < |e| ensures e[i] != e[j] {
      if j == |expanded| { assert e[i] == expanded[i] && expanded[i] in expanded; }
    }
  }
}

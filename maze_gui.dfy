/**
 * The state of the maze window (astar_maze_gui.py, class `MazeGUI`): the wall
 * set, the start and goal cells chosen by number, the wall-mode switch, and
 * the handlers that change them. Widgets and drawing are not modelled.
 */
module MazeGui {
  import opened Wrappers
  import opened MazeGrid
  import opened AStar

  predicate IsDigit(c: char)
  {
    '0' <= c <= '9'
  }

  predicate AllDigits(s: string)
  {
    forall i :: 0 <= i < |s| ==> IsDigit(s[i])
  }

  /** The value of a run of decimal digits, most significant first. */
  function DigitsValue(s: string): (v: nat)
    requires AllDigits(s)
  {
    if s == [] then 0 else DigitsValue(s[..|s| - 1]) * 10 + (s[|s| - 1] as int - '0' as int)
  }

  /** The decimal numeral of `n`, as the combo boxes list the cell numbers. */
  function Numeral(n: nat): (s: string)
    ensures |s| >= 1 && AllDigits(s) && DigitsValue(s) == n
    ensures n > 0 ==> s[0] != '0'
  {
    var d := ['0' + ((n % 10) as char)];
    if n < 10 then d
    else
      var s := Numeral(n / 10) + d;
      assert s[..|s| - 1] == Numeral(n / 10);
      s
  }

  /**
   * The model of Python's `int()` on the text of a combo box: an optional sign
   * followed by one or more ASCII decimal digits is a number, and any other text
   * is a `ValueError`. Python also accepts surrounding white space, underscores
   * between digits and non-ASCII digits, which this model reads as not a number.
   */
  function ParseInt(s: string): (r: Option<int>)
    ensures r.Some? <==>
      (|s| >= 1 && AllDigits(s)) || (|s| >= 2 && (s[0] == '+' || s[0] == '-') && AllDigits(s[1..]))
    ensures r.Some? && AllDigits(s) ==> r.value == DigitsValue(s)
    ensures r.Some? && s[0] == '-' ==> r.value == -(DigitsValue(s[1..]) as int)
    ensures r.Some? && s[0] == '+' ==> r.value == DigitsValue(s[1..])
  {
    if |s| >= 1 && AllDigits(s) then Some(DigitsValue(s))
    else if |s| >= 2 && s[0] == '-' && AllDigits(s[1..]) then Some(-(DigitsValue(s[1..]) as int))
    else if |s| >= 2 && s[0] == '+' && AllDigits(s[1..]) then Some(DigitsValue(s[1..]))
    else None
  }

  /** Every listed cell number reads back as itself. */
  lemma NumeralParses(n: nat)
    ensures ParseInt(Numeral(n)) == Some(n)
    ensures n == 1 ==> Numeral(n) == "1"
    ensures n == 20 ==> Numeral(n) == "20"
  {
  }

  /** Text that names a cell: a number from 1 to 20. */
  predicate CellNumberText(text: string)
  {
    var n := ParseInt(text);
    n.Some? && 1 <= n.value <= Rows * Cols
  }

  /** The combo boxes' initial texts, "1" and "20", name cells 1 and 20. */
  lemma DefaultsParse()
    ensures CellNumberText("1") && ParseInt("1").value == 1
    ensures CellNumberText("20") && ParseInt("20").value == 20
  {
    NumeralParses(1);
    NumeralParses(20);
  }

  class Maze {
    var walls: set<Wall>
    var start: Pos
    var goal: Pos
    var wallMode: bool
    /** The text of the start combo box. */
    var startVar: string
    /** The text of the goal combo box. */
    var goalVar: string
    var cellMap: map<int, Pos>
    var positionMap: map<Pos, int>

    /** The cell maps number the grid row by row, and start and goal are cells of the grid. */
    ghost predicate Valid()
      reads this
    {
      (forall n :: n in cellMap <==> 1 <= n <= Rows * Cols) &&
      (forall n :: n in cellMap ==> cellMap[n] == CellOf(n)) &&
      (forall p :: p in positionMap <==> InGrid(p)) &&
      (forall p :: p in positionMap ==> positionMap[p] == NumberOf(p)) &&
      InGrid(start) && InGrid(goal)
    }

    /**
     * The constructor: no walls, wall mode off, the combo boxes showing "1"
     * and "20", and the closing `update_start()` and `update_goal()` calls
     * selecting cells 1 and 20, the opposite corners.
     */
    constructor ()
      ensures Valid()
      ensures walls == {} && !wallMode
      ensures startVar == "1" && goalVar == "20"
      ensures start == (0, 0) && goal == (Rows - 1, Cols - 1)
    {
      walls := {};
      start := (0, 0);
      goal := (3, 4);
      var cells, positions := BuildCellMaps();
      cellMap, positionMap := cells, positions;
      wallMode := false;
      startVar := "1";
      goalVar := "20";
      new;
      DefaultsParse();
      UpdateStart();
      UpdateGoal();
    }

    /** Typing into or choosing from the start combo box. */
    method SetStartText(text: string)
      modifies this`startVar
      ensures startVar == text
    {
      startVar := text;
    }

    /** Typing into or choosing from the goal combo box. */
    method SetGoalText(text: string)
      modifies this`goalVar
      ensures goalVar == text
    {
      goalVar := text;
    }

    /**
     * `update_start`: a number from 1 to 20 selects that cell; any other
     * number, or text that is not a number, resets the box to "1" and the
     * start to cell 1.
     */
    method UpdateStart()
      requires Valid()
      modifies this`start, this`startVar
      ensures Valid()
      ensures CellNumberText(old(startVar)) ==> start == CellOf(ParseInt(old(startVar)).value) && startVar == old(startVar)
      ensures !CellNumberText(old(startVar)) ==> start == CellOf(1) && startVar == "1"
    {
      var n := ParseInt(startVar);
      if n.Some? && 1 <= n.value <= 20 {
        start := cellMap[n.value];
      } else {
        startVar := "1";
        start := cellMap[1];
      }
    }

    /**
     * `update_goal`: a number from 1 to 20 selects that cell; any other
     * number, or text that is not a number, resets the box to "20" and the
     * goal to cell 20.
     */
    method UpdateGoal()
      requires Valid()
      modifies this`goal, this`goalVar
      ensures Valid()
      ensures CellNumberText(old(goalVar)) ==> goal == CellOf(ParseInt(old(goalVar)).value) && goalVar == old(goalVar)
      ensures !CellNumberText(old(goalVar)) ==> goal == CellOf(20) && goalVar == "20"
    {
      var n := ParseInt(goalVar);
      if n.Some? && 1 <= n.value <= 20 {
        goal := cellMap[n.value];
      } else {
        goalVar := "20";
        goal := cellMap[20];
      }
    }

    /** The wall-mode check box. */
    method SetWallMode(on: bool)
      modifies this`wallMode
      ensures wallMode == on
    {
      wallMode := on;
    }

    /**
     * `toggle_wall`: a present wall is removed, an absent one added; the
     * result tells which, and the status line names the two cell numbers.
     */
    method ToggleWall(w: Wall) returns (added: bool, numbers: (int, int))
      requires Valid() && InGrid(w.0) && InGrid(w.1)
      modifies this`walls
      ensures walls == Toggle(old(walls), w)
      ensures added <==> w !in old(walls)
      ensures numbers == (NumberOf(w.0), NumberOf(w.1))
    {
      numbers := (positionMap[w.0], positionMap[w.1]);
      if w in walls {
        walls := walls - {w};
        added := false;
      } else {
        walls := walls + {w};
        added := true;
      }
    }

    /**
     * `canvas_click`, with the pixel hit-test already resolved to the grid
     * line under the pointer, if any. Outside wall mode nothing changes; in
     * wall mode the wall of that line is toggled. Walls made this way always
     * join two neighbouring cells, lower cell first.
     */
    method CanvasClick(hit: Option<Edge>)
      requires Valid()
      requires hit.Some? ==> ValidEdge(hit.value)
      modifies this`walls
      ensures walls == if wallMode && hit.Some? then Toggle(old(walls), EdgeWall(hit.value)) else old(walls)
      ensures (forall v :: v in old(walls) ==> Canonical(v)) ==> forall v :: v in walls ==> Canonical(v)
    {
      if !wallMode {
        return;
      }
      if hit.Some? {
        var added, numbers := ToggleWall(EdgeWall(hit.value));
      }
    }

    /**
     * `run_algorithm`: the search from the start to the goal through the
     * current walls. When a path is found it runs from start to goal in
     * wall-free moves and the reported length is its number of moves; when
     * none is found, no walk from the start reaches the goal.
     */
    method RunAlgorithm() returns (path: Option<seq<Pos>>, steps: int)
      requires Valid()
      ensures path.Some? ==> IsPath(walls, path.value) && path.value[0] == start
                             && path.value[|path.value| - 1] == goal && steps == |path.value| - 1
      ensures path.None? ==> forall p :: IsPath(walls, p) && p[0] == start ==> p[|p| - 1] != goal
    {
      ghost var expanded;
      path, expanded := Search(start, goal, walls);
      steps := if path.Some? then |path.value| - 1 else 0;
    }

    /** `reset_maze`: every wall is removed; start and goal stay. */
    method ResetMaze()
      modifies this`walls
      ensures walls == {}
    {
      walls := {};
    }
  }
}

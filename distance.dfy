/** What the wave labels of SearchPath mean as distances: every label is backed by a
    4-connected chain of labelled cells back to a start cell no longer than the label, and on
    an open grid with one start the labels are exactly the Manhattan distances to it. */
module RouterDistance {
  import opened Grid
  import opened Router
  import opened RouterFacts

  /** The grids the router is started on: every cell is a start cell or a sentinel other
      than a target already found. */
  ghost predicate Unlabelled(g: Grid<int>)
    requires IsGrid(g)
  {
    forall x, y :: InGrid(x, y) ==>
      g[x][y] == PATH_START || (g[x][y] < 0 && g[x][y] != PATH_TARGET_FOUND)
  }

  /** (x, y) is labelled in f and reaches a start cell of g in at most k steps between
      4-neighbours, every cell on the way labelled in f. */
  ghost predicate Chain(f: Grid<int>, g: Grid<int>, x: int, y: int, k: nat)
    requires IsGrid(f) && IsGrid(g)
    decreases k
  {
    InGrid(x, y) && f[x][y] >= 0 &&
    (g[x][y] == PATH_START ||
     (k > 0 && (Chain(f, g, x - 1, y, k - 1) || Chain(f, g, x + 1, y, k - 1) ||
                Chain(f, g, x, y - 1, k - 1) || Chain(f, g, x, y + 1, k - 1))))
  }

  /** A chain of at most k steps is one of at most k' steps for k <= k'. */
  lemma {:induction false} ChainMonotone(f: Grid<int>, g: Grid<int>, x: int, y: int, k: nat, k': nat)
    requires IsGrid(f) && IsGrid(g) && k <= k' && Chain(f, g, x, y, k)
    ensures Chain(f, g, x, y, k')
    decreases k
  {
    if g[x][y] != PATH_START {
      if Chain(f, g, x - 1, y, k - 1) {
        ChainMonotone(f, g, x - 1, y, k - 1, k' - 1);
      } else if Chain(f, g, x + 1, y, k - 1) {
        ChainMonotone(f, g, x + 1, y, k - 1, k' - 1);
      } else if Chain(f, g, x, y - 1, k - 1) {
        ChainMonotone(f, g, x, y - 1, k - 1, k' - 1);
      } else {
        ChainMonotone(f, g, x, y + 1, k - 1, k' - 1);
      }
    }
  }

  /** A chain ending at a labelled neighbour (a, b) extends to (x, y) with d more steps. */
  lemma ChainStep(f: Grid<int>, g: Grid<int>, x: int, y: int, a: int, b: int, k: nat, d: nat)
    requires IsGrid(f) && IsGrid(g) && InGrid(x, y) && f[x][y] >= 0 && d >= 1
    requires Adjacent(a, b, x, y) && Chain(f, g, a, b, k)
    ensures Chain(f, g, x, y, k + d)
  {
    ChainMonotone(f, g, a, b, k, k + d - 1);
  }

  /** The Manhattan distance from (x, y) to s. */
  function Dist(x: int, y: int, s: Pos): nat { Abs(x - s.x) + Abs(y - s.y) }

  /** A chain of at most k steps ends at a start cell within Manhattan distance k. */
  lemma {:induction false} ChainNearStart(f: Grid<int>, g: Grid<int>, x: int, y: int, k: nat)
    requires IsGrid(f) && IsGrid(g) && Chain(f, g, x, y, k)
    ensures exists a, b :: InGrid(a, b) && g[a][b] == PATH_START && Dist(x, y, Pos(a, b)) <= k
    decreases k
  {
    if g[x][y] == PATH_START {
      assert Dist(x, y, Pos(x, y)) == 0;
    } else {
      var n :=
        if Chain(f, g, x - 1, y, k - 1) then Pos(x - 1, y)
        else if Chain(f, g, x + 1, y, k - 1) then Pos(x + 1, y)
        else if Chain(f, g, x, y - 1, k - 1) then Pos(x, y - 1)
        else Pos(x, y + 1);
      ChainNearStart(f, g, n.x, n.y, k - 1);
      var a, b :| InGrid(a, b) && g[a][b] == PATH_START && Dist(n.x, n.y, Pos(a, b)) <= k - 1;
      assert Dist(x, y, Pos(a, b)) <= k;
    }
  }

  /** f labels g as a search from wave 0 does: closed cells are kept and every rewritten
      cell is justified by a neighbour. */
  ghost predicate WaveLabelling(g: Grid<int>, f: Grid<int>)
    requires IsGrid(g) && IsGrid(f)
  {
    forall x, y :: InGrid(x, y) ==> KeptAt(g, f, x, y) && JustifiedAt(g, f, x, y, 0)
  }

  /** Under such a labelling a cell labelled v has a chain of at most v steps back to a
      start cell, by induction on the label. */
  lemma {:induction false} LabelChain(g: Grid<int>, f: Grid<int>, x: int, y: int)
    requires IsGrid(g) && IsGrid(f) && Unlabelled(g) && WaveLabelling(g, f)
    requires InGrid(x, y) && f[x][y] >= 0
    ensures Chain(f, g, x, y, f[x][y])
    decreases f[x][y]
  {
    assert KeptAt(g, f, x, y) && JustifiedAt(g, f, x, y, 0);
    if f[x][y] != g[x][y] {
      var v := f[x][y];
      var d := if g[x][y] == PATH_DESTROYABLE then 8 else 1;
      assert HasNeighbourValued(f, x, y, v - d);
      var n :=
        if x > 0 && f[x - 1][y] == v - d then Pos(x - 1, y)
        else if x < N - 1 && f[x + 1][y] == v - d then Pos(x + 1, y)
        else if y > 0 && f[x][y - 1] == v - d then Pos(x, y - 1)
        else Pos(x, y + 1);
      LabelChain(g, f, n.x, n.y);
      ChainStep(f, g, x, y, n.x, n.y, v - d, d);
    }
  }

  /** No label is smaller than the breadth-first depth of its cell: every cell the search
      from wave 0 labels v has a chain of at most v steps back to a start cell. */
  lemma LabelBoundsDepth(g: Grid<int>, range: int)
    requires IsGrid(g) && Unlabelled(g)
    ensures var f := Search(g, 0, range).grid;
      forall x, y :: InGrid(x, y) && f[x][y] >= 0 ==> Chain(f, g, x, y, f[x][y])
  {
    var f := Search(g, 0, range).grid;
    SearchKeepsClosedCells(g, 0, range);
    SearchLabelsJustified(g, 0, range);
    assert WaveLabelling(g, f);
    forall x, y | InGrid(x, y) && f[x][y] >= 0 ensures Chain(f, g, x, y, f[x][y]) {
      LabelChain(g, f, x, y);
    }
  }

  /** After waves 0 .. p - 1 on an open grid: the cells within p of s hold their distance,
      the others are still empty. */
  ghost predicate LabelledUpTo(g: Grid<int>, s: Pos, p: int)
    requires IsGrid(g)
  {
    forall x, y :: InGrid(x, y) ==> g[x][y] == if Dist(x, y, s) <= p then Dist(x, y, s) else PATH_EMPTY
  }

  /** Some grid cell lies at every distance from s between 0 and that of a grid cell. */
  lemma CellAtDistance(s: Pos, x: int, y: int, p: int)
    requires InGridPos(s) && InGrid(x, y) && 0 <= p <= Dist(x, y, s)
    ensures exists a, b :: InGrid(a, b) && Dist(a, b, s) == p
  {
    var dx := if p <= Abs(x - s.x) then p else Abs(x - s.x);
    var a := if x >= s.x then s.x + dx else s.x - dx;
    var dy := p - dx;
    var b := if y >= s.y then s.y + dy else s.y - dy;
    assert InGrid(a, b) && Dist(a, b, s) == p;
  }

  /** One wave on an open grid labels the next ring of cells around s. */
  lemma OpenSweepCell(g: Grid<int>, s: Pos, p: int, x: int, y: int)
    requires IsGrid(g) && InGridPos(s) && p >= 0 && LabelledUpTo(g, s, p) && InGrid(x, y)
    ensures SweepCell(g, p, x, y) == if Dist(x, y, s) <= p + 1 then Dist(x, y, s) else PATH_EMPTY
  {
    var d := Dist(x, y, s);
    if d == p + 1 {
      var n :=
        if x > s.x then Pos(x - 1, y) else if x < s.x then Pos(x + 1, y)
        else if y > s.y then Pos(x, y - 1) else Pos(x, y + 1);
      assert InGrid(n.x, n.y) && Dist(n.x, n.y, s) == p && g[n.x][n.y] == p;
    } else if d > p + 1 {
      assert x > 0 ==> Dist(x - 1, y, s) > p;
      assert x < N - 1 ==> Dist(x + 1, y, s) > p;
      assert y > 0 ==> Dist(x, y - 1, s) > p;
      assert y < N - 1 ==> Dist(x, y + 1, s) > p;
      assert !HasNeighbourValued(g, x, y, p);
    }
  }

  /** One wave of the router on an open grid finds nothing and advances the labelling by one. */
  lemma OpenWave(g: Grid<int>, s: Pos, p: int)
    requires IsGrid(g) && InGridPos(s) && p >= 0 && LabelledUpTo(g, s, p)
    ensures FoundCells(Sweep(g, p)) == []
    ensures LabelledUpTo(Collect(Sweep(g, p), p), s, p + 1)
  {
    var w := Sweep(g, p);
    forall x, y | InGrid(x, y)
      ensures w[x][y] == if Dist(x, y, s) <= p + 1 then Dist(x, y, s) else PATH_EMPTY
    {
      OpenSweepCell(g, s, p, x, y);
    }
    FoundCellsEmpty(w);
  }

  /** The sweep of wave p meets a cell of its wave unless every cell is closer than p. */
  lemma WaveOrDone(g: Grid<int>, s: Pos, p: int)
    requires IsGrid(g) && InGridPos(s) && p >= 0 && LabelledUpTo(g, s, p)
    ensures HasWave(g, p) || forall x, y :: InGrid(x, y) ==> Dist(x, y, s) < p
  {
    if !forall x, y :: InGrid(x, y) ==> Dist(x, y, s) < p {
      var x, y :| InGrid(x, y) && Dist(x, y, s) >= p;
      CellAtDistance(s, x, y, p);
      var a, b :| InGrid(a, b) && Dist(a, b, s) == p;
      assert g[a][b] == p;
    }
  }

  /** Hence no label is below the Manhattan distance from its cell to the nearest start cell. */
  lemma LabelsAtLeastDistance(g: Grid<int>, range: int)
    requires IsGrid(g) && Unlabelled(g)
    ensures var f := Search(g, 0, range).grid;
      forall x, y :: InGrid(x, y) && f[x][y] >= 0 ==>
        exists a, b :: InGrid(a, b) && g[a][b] == PATH_START && Dist(x, y, Pos(a, b)) <= f[x][y]
  {
    var f := Search(g, 0, range).grid;
    LabelBoundsDepth(g, range);
    forall x, y | InGrid(x, y) && f[x][y] >= 0
      ensures exists a, b :: InGrid(a, b) && g[a][b] == PATH_START && Dist(x, y, Pos(a, b)) <= f[x][y]
    {
      ChainNearStart(f, g, x, y, f[x][y]);
    }
  }

  /** The search from wave p on a grid labelled up to p labels every cell with its distance. */
  lemma {:induction false} OpenSearch(g: Grid<int>, s: Pos, p: int, range: int)
    requires IsGrid(g) && InGridPos(s) && p >= 0 && LabelledUpTo(g, s, p) && range >= 2 * (N - 1)
    ensures var r := Search(g, p, range);
      !r.found && r.targets == [] &&
      forall x, y :: InGrid(x, y) ==> r.grid[x][y] == Dist(x, y, s)
    decreases range - p
  {
    var r := Search(g, p, range);
    if p > range {
      assert forall x, y :: InGrid(x, y) ==> Dist(x, y, s) <= 2 * (N - 1);
    } else {
      OpenWave(g, s, p);
      WaveOrDone(g, s, p);
      if HasWave(g, p) {
        OpenSearch(Collect(Sweep(g, p), p), s, p + 1, range);
      }
    }
  }

  /** On a grid with one start cell s and every other cell empty, the router finds no target
      and labels every cell with its Manhattan distance from s. */
  lemma OpenGridDistances(g: Grid<int>, s: Pos, range: int)
    requires IsGrid(g) && InGridPos(s) && range >= 2 * (N - 1)
    requires forall x, y :: InGrid(x, y) ==> g[x][y] == if x == s.x && y == s.y then PATH_START else PATH_EMPTY
    ensures var r := Search(g, 0, range);
      !r.found && r.targets == [] &&
      forall x, y :: InGrid(x, y) ==> r.grid[x][y] == Dist(x, y, s)
  {
    assert LabelledUpTo(g, s, 0);
    OpenSearch(g, s, 0, range);
  }
}

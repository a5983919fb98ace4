/** What the cells produced by the generator look like as a whole: they lie in
    the cell they came from, their interiors do not meet, they cover every point
    of it, their areas add up to its area, they respect the size floor, and
    their number is bounded by the remaining depth. */
module Tiling {
  import opened MondrianGenerator

  /** c lies within outer (colours are ignored). */
  predicate Inside(c: Cell, outer: Cell) {
    && outer.x <= c.x && c.x + c.width <= outer.x + outer.width
    && outer.y <= c.y && c.y + c.height <= outer.y + outer.height
  }

  /** The interiors of a and b do not intersect: one lies entirely to one side of the other. */
  predicate Disjoint(a: Cell, b: Cell) {
    || a.x + a.width <= b.x || b.x + b.width <= a.x
    || a.y + a.height <= b.y || b.y + b.height <= a.y
  }

  /** The unit square with lower corner (px, py) belongs to c. */
  predicate Contains(c: Cell, px: int, py: int) {
    c.x <= px < c.x + c.width && c.y <= py < c.y + c.height
  }

  predicate AllInside(cells: seq<Cell>, outer: Cell) {
    forall i :: 0 <= i < |cells| ==> Inside(cells[i], outer)
  }

  predicate PairwiseDisjoint(cells: seq<Cell>) {
    forall i, j :: 0 <= i < j < |cells| ==> Disjoint(cells[i], cells[j])
  }

  /** Every point of outer belongs to some cell. */
  ghost predicate Covers(cells: seq<Cell>, outer: Cell) {
    forall px, py :: Contains(outer, px, py) ==> exists i :: 0 <= i < |cells| && Contains(cells[i], px, py)
  }

  predicate SidesAtLeast(cells: seq<Cell>, m: int) {
    forall i :: 0 <= i < |cells| ==> cells[i].width >= m && cells[i].height >= m
  }

  function TotalArea(cells: seq<Cell>): int {
    if cells == [] then 0 else cells[0].width * cells[0].height + TotalArea(cells[1..])
  }

  /** A non-empty run of cells inside first, followed by a non-empty run of cells inside second. */
  predicate FirstThen(cells: seq<Cell>, first: Cell, second: Cell) {
    exists k :: 1 <= k < |cells| && AllInside(cells[..k], first) && AllInside(cells[k..], second)
  }

  /** Same position and size, whatever the colours. */
  predicate SameFrame(a: Cell, b: Cell) {
    a.x == b.x && a.y == b.y && a.width == b.width && a.height == b.height
  }

  lemma {:induction false} TotalAreaAppend(a: seq<Cell>, b: seq<Cell>)
    ensures TotalArea(a + b) == TotalArea(a) + TotalArea(b)
  {
    if a != [] {
      assert (a + b)[1..] == a[1..] + b;
      TotalAreaAppend(a[1..], b);
    } else {
      assert a + b == b;
    }
  }

  lemma InsideTransitive(a: Cell, b: Cell, c: Cell)
    requires Inside(a, b) && Inside(b, c)
    ensures Inside(a, c)
  {
  }

  /** Cells inside two disjoint cells are disjoint. */
  lemma DisjointInside(a: Cell, b: Cell, outerA: Cell, outerB: Cell)
    requires Inside(a, outerA) && Inside(b, outerB) && Disjoint(outerA, outerB)
    ensures Disjoint(a, b)
  {
  }

  /** A point lies in at most one of two disjoint cells. */
  lemma DisjointNoSharedPoint(a: Cell, b: Cell, px: int, py: int)
    requires Disjoint(a, b)
    ensures !(Contains(a, px, py) && Contains(b, px, py))
  {
  }

  /** With a non-negative size floor both halves lie inside the cut cell, do not
      overlap, and every point of the cell falls in one of them. */
  lemma HalvesPartition(cell: Cell, m: int, draw: nat)
    requires m >= 0 && CutRangeNonEmpty(cell, m)
    ensures Inside(Halves(cell, m, draw).0, cell) && Inside(Halves(cell, m, draw).1, cell)
    ensures Disjoint(Halves(cell, m, draw).0, Halves(cell, m, draw).1)
    ensures forall px, py :: Contains(cell, px, py) ==>
      Contains(Halves(cell, m, draw).0, px, py) || Contains(Halves(cell, m, draw).1, px, py)
  {
  }

  lemma Distributes(p: int, q: int, k: int)
    ensures p * k + q * k == (p + q) * k
  {
  }

  /** The two halves of a cut cell have areas summing to its area. */
  lemma HalvesArea(cell: Cell, m: int, draw: nat)
    requires CutRangeNonEmpty(cell, m)
    ensures var h := Halves(cell, m, draw);
      h.0.width * h.0.height + h.1.width * h.1.height == cell.width * cell.height
  {
    var h := Halves(cell, m, draw);
    var a, b := h.0, h.1;
    if SplitsAlongX(cell) {
      assert a.height == cell.height && b.height == cell.height;
      Distributes(a.width, b.width, cell.height);
    } else {
      assert a.width == cell.width && b.width == cell.width;
      Distributes(a.height, b.height, cell.width);
      assert a.width * a.height == a.height * cell.width;
      assert b.width * b.height == b.height * cell.width;
      assert cell.width * cell.height == cell.height * cell.width;
    }
  }

  /** Areas add up: the cells' areas sum exactly to the area of the cell they came from. */
  lemma {:induction false} SplitCellArea(cell: Cell, config: MondrianConfig, depth: int, oracle: Oracle, path: Path)
    requires UsablePalette(config.colorPalette)
    ensures TotalArea(SplitCell(cell, config, depth, oracle, path)) == cell.width * cell.height
    decreases config.maxDepth - depth
  {
    var d := oracle(path);
    if !Stops(cell, config, depth, d) {
      var h := Halves(cell, config.minCellSize, d.cut);
      var a := SplitCell(h.0, config, depth + 1, oracle, path + [false]);
      var b := SplitCell(h.1, config, depth + 1, oracle, path + [true]);
      SplitCellArea(h.0, config, depth + 1, oracle, path + [false]);
      SplitCellArea(h.1, config, depth + 1, oracle, path + [true]);
      assert SplitCell(cell, config, depth, oracle, path) == a + b;
      TotalAreaAppend(a, b);
      HalvesArea(cell, config.minCellSize, d.cut);
    }
  }

  /** Containment: every cell lies within the cell it came from. */
  lemma {:induction false} SplitCellInside(cell: Cell, config: MondrianConfig, depth: int, oracle: Oracle, path: Path)
    requires UsablePalette(config.colorPalette) && config.minCellSize >= 0
    ensures AllInside(SplitCell(cell, config, depth, oracle, path), cell)
    decreases config.maxDepth - depth
  {
    var d := oracle(path);
    if !Stops(cell, config, depth, d) {
      var h := Halves(cell, config.minCellSize, d.cut);
      var a := SplitCell(h.0, config, depth + 1, oracle, path + [false]);
      var b := SplitCell(h.1, config, depth + 1, oracle, path + [true]);
      SplitCellInside(h.0, config, depth + 1, oracle, path + [false]);
      SplitCellInside(h.1, config, depth + 1, oracle, path + [true]);
      HalvesPartition(cell, config.minCellSize, d.cut);
      forall i | 0 <= i < |a + b| ensures Inside((a + b)[i], cell) {
        if i < |a| {
          InsideTransitive(a[i], h.0, cell);
        } else {
          InsideTransitive(b[i - |a|], h.1, cell);
        }
      }
    }
  }

  /** Non-overlap: no two cells share interior points. */
  lemma {:induction false} SplitCellDisjoint(cell: Cell, config: MondrianConfig, depth: int, oracle: Oracle, path: Path)
    requires UsablePalette(config.colorPalette) && config.minCellSize >= 0
    ensures PairwiseDisjoint(SplitCell(cell, config, depth, oracle, path))
    decreases config.maxDepth - depth
  {
    var d := oracle(path);
    if !Stops(cell, config, depth, d) {
      var h := Halves(cell, config.minCellSize, d.cut);
      var a := SplitCell(h.0, config, depth + 1, oracle, path + [false]);
      var b := SplitCell(h.1, config, depth + 1, oracle, path + [true]);
      SplitCellDisjoint(h.0, config, depth + 1, oracle, path + [false]);
      SplitCellDisjoint(h.1, config, depth + 1, oracle, path + [true]);
      SplitCellInside(h.0, config, depth + 1, oracle, path + [false]);
      SplitCellInside(h.1, config, depth + 1, oracle, path + [true]);
      HalvesPartition(cell, config.minCellSize, d.cut);
      var r := a + b;
      forall i, j | 0 <= i < j < |r| ensures Disjoint(r[i], r[j]) {
        if j < |a| {
          assert r[i] == a[i] && r[j] == a[j];
        } else if |a| <= i {
          assert r[i] == b[i - |a|] && r[j] == b[j - |a|];
        } else {
          DisjointInside(a[i], b[j - |a|], h.0, h.1);
        }
      }
    }
  }

  /** No gaps: every point of the cell belongs to some produced cell. */
  lemma {:induction false} SplitCellCovers(cell: Cell, config: MondrianConfig, depth: int, oracle: Oracle, path: Path)
    requires UsablePalette(config.colorPalette)
    ensures Covers(SplitCell(cell, config, depth, oracle, path), cell)
    decreases config.maxDepth - depth
  {
    var r := SplitCell(cell, config, depth, oracle, path);
    var d := oracle(path);
    if Stops(cell, config, depth, d) {
      forall px, py | Contains(cell, px, py) ensures exists i :: 0 <= i < |r| && Contains(r[i], px, py) {
        assert Contains(r[0], px, py);
      }
    } else {
      var h := Halves(cell, config.minCellSize, d.cut);
      var a := SplitCell(h.0, config, depth + 1, oracle, path + [false]);
      var b := SplitCell(h.1, config, depth + 1, oracle, path + [true]);
      SplitCellCovers(h.0, config, depth + 1, oracle, path + [false]);
      SplitCellCovers(h.1, config, depth + 1, oracle, path + [true]);
      forall px, py | Contains(cell, px, py) ensures exists i :: 0 <= i < |r| && Contains(r[i], px, py) {
        if Contains(h.0, px, py) {
          var i :| 0 <= i < |a| && Contains(a[i], px, py);
          assert r[i] == a[i];
        } else {
          assert Contains(h.1, px, py);
          var i :| 0 <= i < |b| && Contains(b[i], px, py);
          assert r[|a| + i] == b[i];
        }
      }
    }
  }

  /** Exact tiling: every point of the cell belongs to exactly one produced cell,
      and every point of a produced cell belongs to the cell. */
  lemma SplitCellPartitions(cell: Cell, config: MondrianConfig, depth: int, oracle: Oracle, path: Path, px: int, py: int)
    requires UsablePalette(config.colorPalette) && config.minCellSize >= 0
    ensures var r := SplitCell(cell, config, depth, oracle, path);
      Contains(cell, px, py) <==> exists i :: 0 <= i < |r| && Contains(r[i], px, py)
    ensures var r := SplitCell(cell, config, depth, oracle, path);
      forall i, j :: 0 <= i < |r| && 0 <= j < |r| && Contains(r[i], px, py) && Contains(r[j], px, py) ==> i == j
  {
    var r := SplitCell(cell, config, depth, oracle, path);
    SplitCellCovers(cell, config, depth, oracle, path);
    SplitCellInside(cell, config, depth, oracle, path);
    SplitCellDisjoint(cell, config, depth, oracle, path);
    forall i, j | 0 <= i < |r| && 0 <= j < |r| && Contains(r[i], px, py) && Contains(r[j], px, py)
      ensures i == j
    {
      if i < j {
        DisjointNoSharedPoint(r[i], r[j], px, py);
      } else if j < i {
        DisjointNoSharedPoint(r[j], r[i], px, py);
      }
    }
  }

  /** Size floor: when the starting cell has both sides at least minCellSize, so has every produced cell. */
  lemma {:induction false} SplitCellSizeFloor(cell: Cell, config: MondrianConfig, depth: int, oracle: Oracle, path: Path)
    requires UsablePalette(config.colorPalette)
    requires cell.width >= config.minCellSize && cell.height >= config.minCellSize
    ensures SidesAtLeast(SplitCell(cell, config, depth, oracle, path), config.minCellSize)
    decreases config.maxDepth - depth
  {
    var d := oracle(path);
    if !Stops(cell, config, depth, d) {
      var h := Halves(cell, config.minCellSize, d.cut);
      SplitCellSizeFloor(h.0, config, depth + 1, oracle, path + [false]);
      SplitCellSizeFloor(h.1, config, depth + 1, oracle, path + [true]);
    }
  }

  /** Count bound: at most 2^(maxDepth - depth) cells, and exactly one once the depth limit is reached. */
  lemma {:induction false} SplitCellCount(cell: Cell, config: MondrianConfig, depth: int, oracle: Oracle, path: Path)
    requires UsablePalette(config.colorPalette)
    ensures depth <= config.maxDepth ==> |SplitCell(cell, config, depth, oracle, path)| <= Pow2(config.maxDepth - depth)
    ensures depth >= config.maxDepth ==> |SplitCell(cell, config, depth, oracle, path)| == 1
    decreases config.maxDepth - depth
  {
    var d := oracle(path);
    if !Stops(cell, config, depth, d) {
      var h := Halves(cell, config.minCellSize, d.cut);
      SplitCellCount(h.0, config, depth + 1, oracle, path + [false]);
      SplitCellCount(h.1, config, depth + 1, oracle, path + [true]);
    }
  }

  /** Base case, both ways: a single cell comes back exactly when the cell stops,
      and then it is the input cell with the leaf colour drawn for it. */
  lemma SplitCellLeaf(cell: Cell, config: MondrianConfig, depth: int, oracle: Oracle, path: Path)
    requires UsablePalette(config.colorPalette)
    ensures var r := SplitCell(cell, config, depth, oracle, path);
      |r| == 1 <==> Stops(cell, config, depth, oracle(path))
    ensures var r := SplitCell(cell, config, depth, oracle, path);
      Stops(cell, config, depth, oracle(path)) ==>
        SameFrame(r[0], cell) && r[0].color == RandomColor(config.colorPalette, oracle(path))
  {
  }

  /** Ordering: after a cut, the cells from the left/top half come first and
      the cells from the right/bottom half follow, each group non-empty. */
  lemma SplitCellOrder(cell: Cell, config: MondrianConfig, depth: int, oracle: Oracle, path: Path)
    requires UsablePalette(config.colorPalette) && config.minCellSize >= 0
    requires !Stops(cell, config, depth, oracle(path))
    ensures var r := SplitCell(cell, config, depth, oracle, path);
      var h := Halves(cell, config.minCellSize, oracle(path).cut);
      FirstThen(r, h.0, h.1)
  {
    var d := oracle(path);
    var r := SplitCell(cell, config, depth, oracle, path);
    var h := Halves(cell, config.minCellSize, d.cut);
    var a := SplitCell(h.0, config, depth + 1, oracle, path + [false]);
    var b := SplitCell(h.1, config, depth + 1, oracle, path + [true]);
    SplitCellInside(h.0, config, depth + 1, oracle, path + [false]);
    SplitCellInside(h.1, config, depth + 1, oracle, path + [true]);
    assert r == a + b;
    assert r[..|a|] == a && r[|a|..] == b;
    var k := |a|;
    assert 1 <= k < |r| && AllInside(r[..k], h.0) && AllInside(r[k..], h.1);
    assert FirstThen(r, h.0, h.1);
  }

  /** The whole composition tiles the canvas (0, 0, canvasWidth, canvasHeight).
      Always: every point of the canvas is covered and the areas sum to the
      canvas area. With minCellSize >= 0: every cell lies inside the canvas and
      no two overlap. With a canvas at least minCellSize on each side: no cell
      is below the size floor. With maxDepth >= 0: at most 2^maxDepth cells.
      And when the palette does not hold the unset placeholder, no cell keeps it. */
  lemma GenerateMondrianTiles(config: MondrianConfig, oracle: Oracle)
    requires UsablePalette(config.colorPalette)
    ensures var r := GenerateMondrian(config, oracle);
      && Covers(r, Canvas(config))
      && TotalArea(r) == config.canvasWidth * config.canvasHeight
    ensures config.minCellSize >= 0 ==>
      var r := GenerateMondrian(config, oracle);
      AllInside(r, Canvas(config)) && PairwiseDisjoint(r)
    ensures config.canvasWidth >= config.minCellSize && config.canvasHeight >= config.minCellSize ==>
      SidesAtLeast(GenerateMondrian(config, oracle), config.minCellSize)
    ensures config.maxDepth >= 0 ==> |GenerateMondrian(config, oracle)| <= Pow2(config.maxDepth)
    ensures Unset !in config.colorPalette ==>
      forall i :: 0 <= i < |GenerateMondrian(config, oracle)| ==> GenerateMondrian(config, oracle)[i].color != Unset
  {
    var c := Canvas(config);
    if config.minCellSize >= 0 {
      SplitCellInside(c, config, 0, oracle, []);
      SplitCellDisjoint(c, config, 0, oracle, []);
    }
    SplitCellCovers(c, config, 0, oracle, []);
    SplitCellArea(c, config, 0, oracle, []);
    SplitCellCount(c, config, 0, oracle, []);
    if config.canvasWidth >= config.minCellSize && config.canvasHeight >= config.minCellSize {
      SplitCellSizeFloor(c, config, 0, oracle, []);
    }
  }

  /** With the default configuration every composition has between 1 and 32
      cells, each at least 50 by 50, whose areas add up to 800 * 600. */
  lemma DefaultComposition(oracle: Oracle)
    ensures var r := GenerateMondrian(DefaultConfig, oracle);
      && 1 <= |r| <= 32
      && SidesAtLeast(r, 50)
      && TotalArea(r) == 480000
      && PairwiseDisjoint(r)
  {
    GenerateMondrianTiles(DefaultConfig, oracle);
    assert Pow2(5) == 32;
  }
}

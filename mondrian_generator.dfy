/** The composition generator: a cell is either coloured as a leaf or cut in two
    along its longer side, and the two halves are split again one level deeper.

    Math.random is replaced by an explicit oracle. Every cell the recursion
    visits is named by its path from the starting cell (false = left/top half,
    true = right/bottom half) and makes at most one draw of each kind, so the
    oracle hands each path one record of draws. */
module MondrianGenerator {

  type Color = string

  /** Route from the starting cell: false picks the left/top half, true the right/bottom half. */
  type Path = seq<bool>

  datatype MondrianConfig = MondrianConfig(
    canvasWidth: int,
    canvasHeight: int,
    minCellSize: int,
    maxCellSize: int,
    lineThickness: int,
    lineColor: Color,
    colorPalette: seq<Color>,
    colorProbability: real,
    splitProbability: real,
    maxDepth: int)

  datatype Cell = Cell(x: int, y: int, width: int, height: int, color: Color)

  /** The random draws one cell may make.
      split:   the split draw did not exceed splitProbability (the cell may be cut)
      colored: the colour draw did not exceed colorProbability (a foreground colour is used)
      cut:     raw draw behind the cut position
      hue:     raw draw behind the foreground colour index */
  datatype Draws = Draws(split: bool, colored: bool, cut: nat, hue: nat)

  type Oracle = Path -> Draws

  /** Colour carried by an intermediate cell before it is split or coloured. */
  const Unset: Color := ""

  const White: Color := "#FFFFFF"

  const DefaultConfig: MondrianConfig := MondrianConfig(
    canvasWidth := 800,
    canvasHeight := 600,
    minCellSize := 50,
    maxCellSize := 200,
    lineThickness := 8,
    lineColor := "#000000",
    colorPalette := [White, "#FF0000", "#0000FF", "#FFFF00"],
    colorProbability := 0.3,
    splitProbability := 0.7,
    maxDepth := 5)

  /** A palette the generator can draw from: a background entry and at least one foreground entry. */
  predicate UsablePalette(palette: seq<Color>) {
    |palette| >= 2
  }

  function Pow2(n: nat): (p: nat)
    ensures p >= 1
  {
    if n == 0 then 1 else 2 * Pow2(n - 1)
  }

  /** An integer between lo and hi inclusive, picked by a raw draw. */
  function RandomInt(lo: int, hi: int, draw: nat): (n: int)
    requires lo <= hi
    ensures lo <= n <= hi
  {
    lo + draw % (hi - lo + 1)
  }

  /** Every integer of the range is the outcome of some draw. */
  lemma RandomIntReaches(lo: int, hi: int, n: int)
    requires lo <= n <= hi
    ensures RandomInt(lo, hi, n - lo) == n
  {
  }

  /** The background colour palette[0] when the colour draw fails, otherwise one
      of the foreground colours palette[1..]. */
  function RandomColor(palette: seq<Color>, d: Draws): (color: Color)
    requires UsablePalette(palette)
    ensures color in palette
    ensures !d.colored ==> color == palette[0]
    ensures d.colored ==> exists i :: 1 <= i < |palette| && color == palette[i]
  {
    if !d.colored then palette[0]
    else palette[RandomInt(1, |palette| - 1, d.hue)]
  }

  /** Every palette entry is the outcome of some colour draw: the background on a
      failed draw, each foreground entry on a successful one. */
  lemma RandomColorReaches(palette: seq<Color>, i: int)
    requires UsablePalette(palette) && 0 <= i < |palette|
    ensures exists d: Draws :: RandomColor(palette, d) == palette[i]
  {
    if i == 0 {
      assert RandomColor(palette, Draws(false, false, 0, 0)) == palette[0];
    } else {
      RandomIntReaches(1, |palette| - 1, i);
      assert RandomColor(palette, Draws(false, true, 0, i - 1)) == palette[i];
    }
  }

  /** The cell is cut along x (side by side halves) exactly when it is wider than tall. */
  predicate SplitsAlongX(cell: Cell) {
    cell.width > cell.height
  }

  /** The longer side, as the split decision sees it, leaves room for two minimum-size halves. */
  predicate CutRangeNonEmpty(cell: Cell, minCellSize: int) {
    if SplitsAlongX(cell) then cell.width >= 2 * minCellSize else cell.height >= 2 * minCellSize
  }

  /** The two halves of a cell cut at a position in [origin + minCellSize, origin + size - minCellSize]. */
  function Halves(cell: Cell, minCellSize: int, draw: nat): (halves: (Cell, Cell))
    requires CutRangeNonEmpty(cell, minCellSize)
    ensures halves.0.color == Unset && halves.1.color == Unset
    ensures halves.0.x == cell.x && halves.0.y == cell.y
    ensures SplitsAlongX(cell) ==>
      && halves.0.height == cell.height && halves.1.height == cell.height
      && halves.1.y == cell.y
      && halves.1.x == cell.x + halves.0.width
      && halves.0.width + halves.1.width == cell.width
      && halves.0.width >= minCellSize && halves.1.width >= minCellSize
    ensures !SplitsAlongX(cell) ==>
      && halves.0.width == cell.width && halves.1.width == cell.width
      && halves.1.x == cell.x
      && halves.1.y == cell.y + halves.0.height
      && halves.0.height + halves.1.height == cell.height
      && halves.0.height >= minCellSize && halves.1.height >= minCellSize
  {
    if SplitsAlongX(cell) then
      var splitX := RandomInt(cell.x + minCellSize, cell.x + cell.width - minCellSize, draw);
      (Cell(cell.x, cell.y, splitX - cell.x, cell.height, Unset),
       Cell(splitX, cell.y, cell.x + cell.width - splitX, cell.height, Unset))
    else
      var splitY := RandomInt(cell.y + minCellSize, cell.y + cell.height - minCellSize, draw);
      (Cell(cell.x, cell.y, cell.width, splitY - cell.y, Unset),
       Cell(cell.x, splitY, cell.width, cell.y + cell.height - splitY, Unset))
  }

  /** The base case: maximum depth reached, a side too short to hold two
      minimum-size cells, or a failed split draw. */
  predicate Stops(cell: Cell, config: MondrianConfig, depth: int, d: Draws) {
    || depth >= config.maxDepth
    || cell.width < config.minCellSize * 2
    || cell.height < config.minCellSize * 2
    || !d.split
  }

  /** The cells the recursion produces from one cell, left/top half first. */
  function SplitCell(cell: Cell, config: MondrianConfig, depth: int, oracle: Oracle, path: Path): (cells: seq<Cell>)
    requires UsablePalette(config.colorPalette)
    ensures |cells| >= 1
    ensures forall i :: 0 <= i < |cells| ==> cells[i].color in config.colorPalette
    decreases config.maxDepth - depth
  {
    var d := oracle(path);
    if Stops(cell, config, depth, d) then
      [cell.(color := RandomColor(config.colorPalette, d))]
    else
      var halves := Halves(cell, config.minCellSize, d.cut);
      SplitCell(halves.0, config, depth + 1, oracle, path + [false])
        + SplitCell(halves.1, config, depth + 1, oracle, path + [true])
  }

  /** The uncoloured cell covering the whole canvas. */
  function Canvas(config: MondrianConfig): Cell {
    Cell(0, 0, config.canvasWidth, config.canvasHeight, Unset)
  }

  function GenerateMondrian(config: MondrianConfig, oracle: Oracle): (cells: seq<Cell>)
    requires UsablePalette(config.colorPalette)
    ensures |cells| >= 1
    ensures forall i :: 0 <= i < |cells| ==> cells[i].color in config.colorPalette
  {
    SplitCell(Canvas(config), config, 0, oracle, [])
  }
}

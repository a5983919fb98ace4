/** The configuration edits of the control panel. Each handler builds the next
    configuration from the current one; the palette handlers copy the palette
    and change the copy. Every palette edit keeps at least two colours, which
    is what the generator's colour draw needs. */
module ControlPanel {
  import opened MondrianGenerator

  /** A change to one scalar field through its input control, the value already parsed. */
  datatype FieldEdit =
    | CanvasWidth(width: int)
    | CanvasHeight(height: int)
    | MinCellSize(minSize: int)
    | MaxCellSize(maxSize: int)
    | LineThickness(thickness: int)
    | LineColor(lineColor: Color)
    | ColorProbability(colorP: real)
    | SplitProbability(splitP: real)
    | MaxDepth(depth: int)

  /** The field e names holds e's value in c. */
  predicate Holds(c: MondrianConfig, e: FieldEdit) {
    match e
    case CanvasWidth(v) => c.canvasWidth == v
    case CanvasHeight(v) => c.canvasHeight == v
    case MinCellSize(v) => c.minCellSize == v
    case MaxCellSize(v) => c.maxCellSize == v
    case LineThickness(v) => c.lineThickness == v
    case LineColor(v) => c.lineColor == v
    case ColorProbability(v) => c.colorProbability == v
    case SplitProbability(v) => c.splitProbability == v
    case MaxDepth(v) => c.maxDepth == v
  }

  /** a and b agree on every field other than the one e names. */
  predicate AgreeExcept(a: MondrianConfig, b: MondrianConfig, e: FieldEdit) {
    && (e.CanvasWidth? || a.canvasWidth == b.canvasWidth)
    && (e.CanvasHeight? || a.canvasHeight == b.canvasHeight)
    && (e.MinCellSize? || a.minCellSize == b.minCellSize)
    && (e.MaxCellSize? || a.maxCellSize == b.maxCellSize)
    && (e.LineThickness? || a.lineThickness == b.lineThickness)
    && (e.LineColor? || a.lineColor == b.lineColor)
    && (e.ColorProbability? || a.colorProbability == b.colorProbability)
    && (e.SplitProbability? || a.splitProbability == b.splitProbability)
    && (e.MaxDepth? || a.maxDepth == b.maxDepth)
    && a.colorPalette == b.colorPalette
  }

  /** A scalar input changed: the named field takes the new value, nothing else changes. */
  function HandleChange(config: MondrianConfig, e: FieldEdit): (r: MondrianConfig)
    ensures Holds(r, e)
    ensures AgreeExcept(r, config, e)
  {
    match e
    case CanvasWidth(v) => config.(canvasWidth := v)
    case CanvasHeight(v) => config.(canvasHeight := v)
    case MinCellSize(v) => config.(minCellSize := v)
    case MaxCellSize(v) => config.(maxCellSize := v)
    case LineThickness(v) => config.(lineThickness := v)
    case LineColor(v) => config.(lineColor := v)
    case ColorProbability(v) => config.(colorProbability := v)
    case SplitProbability(v) => config.(splitProbability := v)
    case MaxDepth(v) => config.(maxDepth := v)
  }

  /** e1 and e2 name the same field. */
  predicate SameField(e1: FieldEdit, e2: FieldEdit) {
    && e1.CanvasWidth? == e2.CanvasWidth?
    && e1.CanvasHeight? == e2.CanvasHeight?
    && e1.MinCellSize? == e2.MinCellSize?
    && e1.MaxCellSize? == e2.MaxCellSize?
    && e1.LineThickness? == e2.LineThickness?
    && e1.LineColor? == e2.LineColor?
    && e1.ColorProbability? == e2.ColorProbability?
    && e1.SplitProbability? == e2.SplitProbability?
    && e1.MaxDepth? == e2.MaxDepth?
  }

  /** Editing a field and then editing the same field again keeps only the second value. */
  lemma HandleChangeLastWins(config: MondrianConfig, e1: FieldEdit, e2: FieldEdit)
    requires SameField(e1, e2)
    ensures HandleChange(HandleChange(config, e1), e2) == HandleChange(config, e2)
  {
  }

  /** One swatch's colour picker changed: the palette keeps its length, the
      entry at index becomes color, every other entry stays. */
  method HandleColorChange(config: MondrianConfig, index: int, color: Color) returns (r: MondrianConfig)
    requires 0 <= index < |config.colorPalette|
    ensures |r.colorPalette| == |config.colorPalette|
    ensures r.colorPalette[index] == color
    ensures forall j :: 0 <= j < |r.colorPalette| && j != index ==> r.colorPalette[j] == config.colorPalette[j]
    ensures r == config.(colorPalette := r.colorPalette)
  {
    var newPalette := config.colorPalette;
    newPalette := newPalette[index := color];
    r := config.(colorPalette := newPalette);
  }

  /** A white entry is appended; the earlier entries are untouched. */
  function AddColor(config: MondrianConfig): (r: MondrianConfig)
    ensures |r.colorPalette| == |config.colorPalette| + 1
    ensures r.colorPalette[..|config.colorPalette|] == config.colorPalette
    ensures r.colorPalette[|config.colorPalette|] == White
    ensures r == config.(colorPalette := r.colorPalette)
  {
    config.(colorPalette := config.colorPalette + [White])
  }

  /** The position splice(index, 1) starts at on an array of length len: a
      negative index counts from the end (clamped at 0), a large one is clamped at len. */
  function SpliceStart(len: nat, index: int): (start: nat)
    ensures start <= len
    ensures 0 <= index <= len ==> start == index
    ensures index < 0 && len + index >= 0 ==> start == len + index
    ensures index > len ==> start == len
    ensures len + index < 0 ==> start == 0
  {
    if index < 0 then (if len + index < 0 then 0 else len + index)
    else if index > len then len
    else index
  }

  /** Removes one entry, but never below two entries. With more than two, the
      entry at the splice position goes and the rest keep their order; a
      position past the end removes nothing. */
  method RemoveColor(config: MondrianConfig, index: int) returns (r: MondrianConfig)
    ensures |config.colorPalette| <= 2 ==> r == config
    ensures r == config.(colorPalette := r.colorPalette)
    ensures UsablePalette(config.colorPalette) ==> UsablePalette(r.colorPalette)
    ensures var p, s := config.colorPalette, SpliceStart(|config.colorPalette|, index);
      |p| > 2 && s < |p| ==>
        && |r.colorPalette| == |p| - 1
        && (forall j :: 0 <= j < s ==> r.colorPalette[j] == p[j])
        && (forall j :: s <= j < |r.colorPalette| ==> r.colorPalette[j] == p[j + 1])
        && multiset(r.colorPalette) + multiset{p[s]} == multiset(p)
    ensures var p := config.colorPalette;
      |p| > 2 && SpliceStart(|p|, index) == |p| ==> r.colorPalette == p
  {
    if |config.colorPalette| <= 2 {
      return config;
    }
    var newPalette := config.colorPalette;
    var start := SpliceStart(|newPalette|, index);
    if start < |newPalette| {
      assert newPalette == newPalette[..start] + [newPalette[start]] + newPalette[start + 1..];
      newPalette := newPalette[..start] + newPalette[start + 1..];
    }
    r := config.(colorPalette := newPalette);
  }

  /** A click on swatch index removes it only when it is not the background
      swatch 0: the background entry survives every click on a swatch. */
  method SwatchClick(config: MondrianConfig, index: int) returns (r: MondrianConfig)
    requires 0 <= index < |config.colorPalette|
    ensures index == 0 ==> r == config
    ensures |config.colorPalette| <= 2 ==> r == config
    ensures |r.colorPalette| ==
      if index > 0 && |config.colorPalette| > 2 then |config.colorPalette| - 1 else |config.colorPalette|
    ensures r.colorPalette[0] == config.colorPalette[0]
    ensures UsablePalette(config.colorPalette) ==> UsablePalette(r.colorPalette)
    ensures index > 0 && |config.colorPalette| > 2 ==>
      r.colorPalette == config.colorPalette[..index] + config.colorPalette[index + 1..]
    ensures r == config.(colorPalette := r.colorPalette)
  {
    if index > 0 {
      r := RemoveColor(config, index);
      if |config.colorPalette| > 2 {
        var p := config.colorPalette;
        assert r.colorPalette == p[..index] + p[index + 1..];
      }
    } else {
      r := config;
    }
  }

  /** The reset button restores the default configuration, whose palette is
      white followed by red, blue and yellow, usable by the generator. */
  function ResetConfig(): (r: MondrianConfig)
    ensures r == DefaultConfig
    ensures r.colorPalette == [White, "#FF0000", "#0000FF", "#FFFF00"]
    ensures UsablePalette(r.colorPalette) && r.minCellSize >= 1
  {
    DefaultConfig
  }
}

# Mondrian composition generator, modelled in Dafny

This project models the core of a generator of compositions in the style of
Piet Mondrian, together with the control-panel handlers that edit its
configuration.

The generator starts from one cell covering the canvas. It cuts a cell in two
along its longer side at a random position that leaves at least `minCellSize`
on each side. Both halves are split again one level deeper. A cell stops, and
gets a colour, when the depth limit is reached, when a side is shorter than
`2 * minCellSize`, or when the split draw fails. A stopped cell gets the
background colour `palette[0]` when the colour draw fails, and otherwise a
colour drawn from `palette[1..]`.

The control panel edits the configuration. A scalar input replaces one field.
The palette can be edited in three ways: replace one swatch's colour, append
white, or remove a swatch. Removal is refused when only two colours are left,
and the background swatch is never removed by a click. The reset button
restores the default configuration.

Files:

- `mondrian_generator.dfy`, module `MondrianGenerator`: the records, the
  default configuration, the random helpers, `SplitCell` and `GenerateMondrian`.
- `tiling.dfy`, module `Tiling`: the geometry of a composition and the
  lemmas about it. These cover containment, non-overlap, coverage of every
  point, area sum, size floor, count bound, base case and ordering.
- `control_panel.dfy`, module `ControlPanel`: the configuration and palette edits.

Randomness is an explicit oracle. Each cell visited by the recursion is named
by its path from the starting cell (`false` = left/top half, `true` =
right/bottom half). Such a cell makes at most one split draw, one colour draw,
one cut draw and one colour-index draw, so the oracle maps each path to a
`Draws` record. The booleans `split` and `colored` stand for the comparisons
`Math.random() > splitProbability` and `Math.random() > colorProbability`,
both negated. `getRandomInt(lo, hi)` becomes `RandomInt(lo, hi, draw)`, which
picks `lo + draw % (hi - lo + 1)`.

As written, the generator stops at sides below `2 * minCellSize`, cuts along
x exactly when `width > height`, and cuts at any integer in the allowed range.
Every cut produces exactly two halves. The generator reads neither
`maxCellSize` nor any minimum cell count, and it does not recolour cells after
the recursion.

## Model

| member | source | states |
|---|---|---|
| `MondrianGenerator.RandomInt` | src/utils/mondrianGenerator.ts:37-40 | for `lo <= hi` the result lies in `[lo, hi]` inclusive |
| `MondrianGenerator.RandomIntReaches` | src/utils/mondrianGenerator.ts:37-40 | every integer of `[lo, hi]` is the result of some draw, so the range is exactly `[lo, hi]` |
| `MondrianGenerator.RandomColor` | src/utils/mondrianGenerator.ts:43-52 | on a failed colour draw the result is `palette[0]`; otherwise it is `palette[i]` for some `1 <= i < len`; either way it is a palette member (needs `len >= 2`) |
| `MondrianGenerator.RandomColorReaches` | src/utils/mondrianGenerator.ts:43-52 | every palette entry, the background and each foreground colour, is the result of some colour draw |
| `MondrianGenerator.Halves` | src/utils/mondrianGenerator.ts:70-122 | on the x branch (`width > height`) both halves keep the parent's y and height; the second starts where the first ends; the widths sum to the parent width and are each `>= minCellSize`. The y branch is symmetric. Halves start with the empty placeholder colour |
| `MondrianGenerator.SplitCell` | src/utils/mondrianGenerator.ts:55-130 | the result is non-empty and every cell's colour is a palette entry, so the empty placeholder of intermediate cells never reaches the output unless the palette holds it |
| `MondrianGenerator.GenerateMondrian` | src/utils/mondrianGenerator.ts:133-145 | the composition of the whole canvas is non-empty and coloured from the palette |
| `Tiling.HalvesPartition` | src/utils/mondrianGenerator.ts:73-122 | with `minCellSize >= 0` both halves lie inside the parent, their interiors are disjoint, and every point of the parent lies in one of them |
| `Tiling.HalvesArea` | src/utils/mondrianGenerator.ts:73-122 | the areas of the two halves sum to the parent's area |
| `Tiling.SplitCellArea` | src/utils/mondrianGenerator.ts:73-129 | the areas of the produced cells sum exactly to `width * height` of the input cell |
| `Tiling.SplitCellInside` | src/utils/mondrianGenerator.ts:73-129 | with `minCellSize >= 0` every produced cell lies inside the input cell |
| `Tiling.SplitCellDisjoint` | src/utils/mondrianGenerator.ts:73-129 | with `minCellSize >= 0` no two produced cells overlap |
| `Tiling.SplitCellCovers` | src/utils/mondrianGenerator.ts:73-129 | every point of the input cell lies in some produced cell: there are no gaps |
| `Tiling.SplitCellPartitions` | src/utils/mondrianGenerator.ts:55-130 | a point lies in the input cell if and only if it lies in some produced cell, and it lies in at most one |
| `Tiling.SplitCellSizeFloor` | src/utils/mondrianGenerator.ts:61-105 | if the input cell has both sides `>= minCellSize`, so has every produced cell |
| `Tiling.SplitCellCount` | src/utils/mondrianGenerator.ts:61-129 | when `depth <= maxDepth` at most `2^(maxDepth - depth)` cells come back; when `depth >= maxDepth` exactly one |
| `Tiling.SplitCellLeaf` | src/utils/mondrianGenerator.ts:61-68 | exactly one cell comes back if and only if a stop condition holds (depth, either side below `2 * minCellSize`, failed split draw); that cell has the input's position and size and the colour drawn for it |
| `Tiling.SplitCellOrder` | src/utils/mondrianGenerator.ts:97-128 | after a cut, a non-empty run of cells inside the left/top half comes first and a non-empty run inside the right/bottom half follows |
| `Tiling.GenerateMondrianTiles` | src/utils/mondrianGenerator.ts:133-145 | the composition tiles the canvas `(0, 0, canvasWidth, canvasHeight)`: gap-free with areas summing to `canvasWidth * canvasHeight`, and with `minCellSize >= 0` contained and non-overlapping. Each side is `>= minCellSize` when the canvas allows it, there are at most `2^maxDepth` cells, and no cell keeps the empty colour unless the palette holds it |
| `Tiling.DefaultComposition` | src/utils/mondrianGenerator.ts:24-35 | with the default configuration every composition has 1 to 32 non-overlapping cells, each at least 50 by 50, with areas summing to 480000 |
| `ControlPanel.HandleChange` | src/components/ControlPanel.tsx:141-153 | the named field takes the new value; every other field, the palette included, is unchanged |
| `ControlPanel.HandleChangeLastWins` | src/components/ControlPanel.tsx:149-152 | two edits of the same field leave only the second value |
| `ControlPanel.HandleColorChange` | src/components/ControlPanel.tsx:155-162 | the palette keeps its length; position `index` holds the new colour and every other position is unchanged; nothing else changes |
| `ControlPanel.AddColor` | src/components/ControlPanel.tsx:164-169 | the palette grows by one; the earlier entries are unchanged and `#FFFFFF` is last; nothing else changes |
| `ControlPanel.SpliceStart` | src/components/ControlPanel.tsx:174 | the start of `splice(index, 1)` lies in `[0, len]`: it equals the index when in range, counts from the end when negative, and is `len` above the range and `0` below `-len` |
| `ControlPanel.RemoveColor` | src/components/ControlPanel.tsx:171-179 | with at most two colours nothing changes. Otherwise exactly the entry at the splice position is removed and the others keep their relative order (a position past the end removes nothing). A palette of length `>= 2` stays at `>= 2` |
| `ControlPanel.SwatchClick` | src/components/ControlPanel.tsx:324 | clicking swatch 0 changes nothing, and with at most two colours no click changes anything. Clicking another swatch removes it when more than two colours remain. `palette[0]` is never removed, length `>= 2` is kept, the clicked entry is the one removed, and no other field changes |
| `ControlPanel.ResetConfig` | src/components/ControlPanel.tsx:181-183 | the result is the default configuration, whose palette is `#FFFFFF`, `#FF0000`, `#0000FF`, `#FFFF00`, usable by the generator (length `>= 2`) |

## Left out

- `Math.random` is not modelled. The oracle's booleans replace the float comparisons against `splitProbability` and `colorProbability`. `RandomInt`'s `draw % n` stands in for `Math.floor(Math.random() * n)`. The probabilities are kept as `real` fields of the configuration but the generator does not read them. The order in which draws are made is not modelled.
- `MondrianGenerator.RandomColor`: requires `len >= 2`. On a successful colour draw, a shorter palette is read past its end and yields `undefined`, which is not modelled; a failed draw on a one-colour palette still returns `palette[0]`. Every palette edit keeps `len >= 2` and the default palette has 4 entries, so this case is never reached.
- `MondrianGenerator.RandomColorReaches`: reachability is over all draws, with the draw not tied to `colorProbability`. In the source, `palette[0]` can be drawn only when `colorProbability < 1`; at `colorProbability = 0` a foreground colour is drawn only when `Math.random()` returns exactly 0.
- `ControlPanel.HandleColorChange`: requires an index inside the palette. The only caller passes the index of an existing swatch, so JavaScript's growth of an array written past its end is not modelled.
- Sizes, depth and line thickness are mathematical integers; the probabilities are reals the generator does not read. Non-integer canvas sizes or cell sizes, `NaN` from `parseFloat`, and IEEE rounding are not modelled. The parsed value is an input to `HandleChange`.
- `Tiling.SplitCellInside`, `Tiling.SplitCellDisjoint`, `Tiling.SplitCellPartitions`, `Tiling.SplitCellOrder` and `Tiling.HalvesPartition` require `minCellSize >= 0`, and `Tiling.GenerateMondrianTiles` states containment and non-overlap only under it (its coverage and area conclusions hold for every size floor). With a negative size floor the source produces halves of negative size, which do not lie inside their parent. The slider allows only 20 to 200.
- `generateMondrian`'s default argument (`config = defaultConfig`) is covered by `Tiling.DefaultComposition` on `GenerateMondrian(DefaultConfig, ...)`. It is not a separate member.
- Canvas drawing, styled components and layout, internationalisation, React state wiring and the smoke test are not part of this model.

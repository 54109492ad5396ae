# susalyzer sprite scanner, modelled in Dafny

The program scans a picture for small sprites. Each sprite is described by a
template whose cells have one of four roles: background (BG), visor, body, and
any (a wildcard). The program produces a copy of the picture in which matched
sprites keep their colours and everything else is dimmed to a quarter of its
intensity. It also counts the matches. This project models that core and proves
properties of it. The core is:

- the colour comparator `delta`, `diff` and `isSame`;
- the template helpers `bodyPoint`, `visorPoint`, `reverse` and `flipHorizontal`;
- the catalog of nine base templates and its expansion into the library of 18 variants;
- the scan itself, taken out of `main` and written as a method over an in-memory picture.

The project has eight modules:

- `Options`: the `Option` type.
- `Colours` (`colours.dfy`):
  - 8-bit RGBA colours;
  - the channel distance `Delta`;
  - the wrapping four-channel sum `Diff`;
  - the strict tolerance test `IsSame`;
  - the quarter-intensity `Dim`.
- `Templates` (`templates.dfy`):
  - the role flags and the flag test `Has`;
  - the anchors, each the row-major first cell that holds exactly BODY or exactly VISOR:
    - `Find` and `Anchor` are the reference functions;
    - the method `Locate` is the nested loop with an early return;
  - row reversal: the reference `Reversed`, and the method `Reverse`, which fills the result from both ends at once;
  - the mirror: the reference `Flipped`, and the method `FlipHorizontal`, which builds it row by row.
- `Library` (`library.dfy`):
  - the catalog `BaseTemplates`, a constant with every cell as written in the program (main.go:19-81), including the one `BG | BODY` cell; its facts are `VariantsLayout`, `BaseWellFormed`, `MixedCell` and `UniformImage.BaseShape`;
  - the reference expansion `Expand`;
  - the start-up loop `BuildLibrary`;
  - facts about the 18 variants.
- `Scan` (`scan.dfy`):
  - The match rule, in `Fits`, `Matches` and `FirstMatch`.
  - A step semantics on values. `Step` is the work at one origin and `Transition` the same work as a function value. `Column` and `RunFrom` fix the order of the origins, x outer and y inner, for any such transition. `FinalWith` and `Final` are the whole scan.
  - The imperative scan. It updates an `array2` canvas in place through `TestCells`, `TryVariant`, `MatchAt`, `Claim`, `Visit`, `ScanColumn`, `ScanWith` and `Scan`.
  - Each of these methods is proved to end in the state that the step semantics gives.
- `ScanProperties` (`properties.dfy`): what the scan guarantees, proved over the step semantics:
  - what one step writes;
  - that writes never reach an origin already visited;
  - first-match priority;
  - that claims persist;
  - an induction principle, `RunFromKeeps` (with `ColumnKeeps` for one column): an invariant that every step and every change of column preserve holds at the end of the scan;
  - that every pixel ends up as the source pixel or its dimmed copy.
- `UniformImage` (`uniform.dfy`): a picture of one colour gives no match and a fully dimmed output.
- `SingleSprite` (`sprite.dfy`): a 4-by-6 picture painting the first catalog template. The first library variant matches it and wins at the origin, the first step counts it, and the whole scan keeps its BODY and VISOR pixels.

## Modelling decisions

- **Picture layout.** Pictures are stored by columns: `src[x][y]` is the pixel at (x, y), and the canvas array is indexed `[x, y]`.
- **Reads outside the picture.** `At` reads the picture the way Go's NRGBA image does. Outside its bounds it gives the zero colour (0, 0, 0, 0).
- **Writes outside the picture** are ignored, as `Set` on an NRGBA image ignores them.
- **Flag test.** The bit test `t & F != 0`, for a one-bit flag F, is `Has(t, F) = (t / F) % 2 == 1`. `Templates.HasIsBitTest` proves that it agrees with the bitwise `&` on 4-bit cells.
- **Byte arithmetic.** `Diff` adds four byte values in byte arithmetic, so the sum wraps modulo 256.

### Where the code does not do what its names suggest

The model follows the code in each case:

- **Wrap-around.** `diff` reads like a distance between two colours, the sum of the four channel differences. The code adds them as `uint8` values (main.go:93-97), so the result is that distance modulo 256. Two colours 256 apart therefore count as identical: see `Colours.WrapAroundExample`.
- **Background rule.** The role name BG suggests that such a cell must show the background. The code (main.go:197) passes a BG cell when its pixel is NOT within 6 of the body colour, so any colour at wrapped distance 6 or more from the body colour will do.
- **Bounds.** A template laid near the right or bottom edge reaches past the picture, and the code reads those cells with no bounds guard (main.go:190). Such a read gives the zero colour, and the cell can still pass, for example as an ANY or BG cell.
- **Claimed pixels.** An origin whose canvas pixel is already painted is skipped (main.go:184-186), but a later match at another origin may still write over a claimed pixel (main.go:230-236). It always writes the same source pixel, so a claim on a pixel that is not fully transparent is never undone: see `ScanProperties.StepKeepsClaims`.

## Model

| member | source | states |
|---|---|---|
| Colours.Delta | main.go:83-88 | the result is the absolute difference of the two channel values; adding it to the smaller one gives the larger |
| Colours.DeltaSymmetric | main.go:83-88 | delta does not depend on the argument order |
| Colours.Diff | main.go:90-98 | the byte sum of the four channel deltas equals their plain Manhattan distance reduced modulo 256 |
| Colours.DiffSymmetric | main.go:90-98 | diff does not depend on the argument order |
| Colours.WrapAroundExample | main.go:93-97 | black and (255, 1, 0), both opaque, are 256 apart; the sum wraps to 0, so they count as the same under every positive tolerance |
| Colours.IsSameWithoutWrap | main.go:90-102 | when the Manhattan distance is below 256, isSame is exactly "distance < tolerance" |
| Colours.IsSameSymmetric | main.go:100-102 | isSame(c1, c2, t) equals isSame(c2, c1, t) |
| Colours.IsSameStrict | main.go:100-102 | a distance equal to the tolerance is not "the same" |
| Colours.IsSameReflexive | main.go:100-102 | a colour is the same as itself exactly when the tolerance is positive |
| Colours.DimChannels | main.go:216-222 | the dimmed colour keeps alpha; each of red, green and blue is the source channel divided by 4, rounded down |
| Colours.DimFixedPoint | main.go:216-222 | dimming leaves a colour unchanged exactly when it has no red, green or blue |
| Templates.HasIsBitTest | main.go:14-17 | on 4-bit cells, the flag test agrees with the bitwise `cell & flag != 0` for each of BG, VISOR, BODY and ANY |
| Templates.FirstUnique | main.go:104-124 | the row-major first cell holding a value is unique |
| Templates.Find | main.go:104-124 | finds a cell exactly when the template contains the value, and then the row-major first cell holding exactly that value |
| Templates.Anchor | main.go:104-124 | for a template containing the value: the row-major first cell holding exactly it |
| Templates.Locate | main.go:104-124 | the nested search with early return yields the row-major first cell holding exactly the value, the same cell as Anchor |
| Templates.ReversedAt | main.go:126-132 | the reversed row has the same length, and position k holds element len-1-k |
| Templates.ReversedTwice | main.go:126-132 | reversing a row twice gives it back |
| Templates.Reverse | main.go:126-132 | the fill from both ends returns a row of the same length with out[k] = in[len-1-k], equal to the reference reversal |
| Templates.FlippedAt | main.go:134-140 | the mirror keeps the row count and every row length, and reverses the cells of each row |
| Templates.FlippedTwice | main.go:134-140 | mirroring twice gives the template back |
| Templates.FlippedContains | main.go:134-140 | a value occurs in the mirror exactly when it occurs in the template |
| Templates.FlippedWellFormed | main.go:134-140 | the mirror of a template with a BODY and a VISOR cell has both too |
| Templates.FlippedCell | main.go:134-140 | cell dx of a row moves to len-1-dx in the mirror, and back |
| Templates.FirstRowBound | main.go:104-124 | no cell holding the value lies on a row above its anchor |
| Templates.FirstRowAtMostMirror | main.go:104-140 | the anchor of a template lies on a row no lower than the anchor of its mirror |
| Templates.FlippedAnchorRow | main.go:104-140 | a mirrored anchor stays on the same row as the original anchor |
| Templates.FlipHorizontal | main.go:134-140 | the row-by-row loop returns the reference mirror |
| Library.Expand | main.go:167-171 | the expansion has twice as many entries as the catalog; entry 2k is base k and entry 2k+1 is its mirror |
| Library.ExpandSnoc | main.go:167-171 | appending one base template to the catalog appends it and its mirror to the expansion |
| Library.BuildLibrary | main.go:167-171 | the start-up loop builds exactly the reference expansion of the catalog |
| Library.VariantsLayout | main.go:19-81 | the catalog has 9 entries and the library 18; base i sits at 2i and its mirror at 2i+1 |
| Library.BaseWellFormed | main.go:19-81 | every catalog entry has a BODY and a VISOR cell |
| Library.VariantsWellFormed | main.go:19-81 | every library variant has a BODY and a VISOR cell, so both anchors are defined |
| Library.MixedCell | main.go:65 | the BG+BODY cell carries both flags but is not exactly BODY; the body anchor of that template is (1, 0), not that cell |
| Colours.IsSame | main.go:100-102 | definition: the wrapped distance is strictly below the tolerance |
| Colours.Dim | main.go:216-222 | definition: red, green and blue divided by 4, alpha kept |
| Templates.Has | main.go:191-197 | definition: the flag test `t & F != 0`, written as bit F of the cell |
| Scan.At | main.go:179-190 | definition: the source pixel inside the picture, the zero colour outside |
| Scan.CellPasses | main.go:191-202 | definition: a cell passes as BODY within 8 of the body colour, as VISOR within 8 of the visor colour, as BG not within 6 of the body colour, or as exactly ANY |
| Scan.Matches | main.go:177-210 | definition: anchor colours not within 16, the canvas origin still transparent, and every cell passing |
| Scan.DimmedAt | main.go:223-225 | definition: the origin takes the dimmed source pixel when the canvas there is transparent |
| Scan.Covers | main.go:230-232 | definition: the pixel lies under a cell of the template, laid at the origin, that holds BODY or VISOR |
| Scan.Claimed | main.go:230-236 | definition: every covered pixel takes the source pixel, every other keeps the canvas |
| Scan.Step | main.go:175-236 | definition: dim the origin, then, when some variant wins, count it and claim its pixels; the canvas keeps its size |
| Scan.FinalWith | main.go:172-238 | definition: run the transition over every origin, x outer and y inner, from a fresh canvas and a zero count |
| Scan.Final | main.go:172-238 | definition: the whole scan with the library of 18 variants |
| Scan.FirstMatch | main.go:175-215 | the winning variant matches, and no earlier variant does; when no variant wins, none matches |
| Scan.Blank | main.go:162-165 | the new canvas has the picture's size and is transparent everywhere |
| Scan.TransitionIsStep | main.go:175-236 | helper: unfolds `Transition` to `Step` at an origin on the canvas |
| Scan.ColumnStep | main.go:174 | helper: unfolds `Column` by one row |
| Scan.Set | main.go:233 | writing a pixel changes only that pixel; a write outside the canvas changes nothing |
| Scan.TestCells | main.go:187-210 | the cell loop with early exit reports true exactly when every cell of the template passes |
| Scan.AnchorColours | main.go:177-180 | the colours read under the two anchors |
| Scan.TryVariant | main.go:177-210 | a variant is accepted exactly when its anchor colours are not within 16, the canvas origin is transparent, and every cell passes |
| Scan.MatchAt | main.go:175-215 | the loop over the library returns the first matching variant, or none |
| Scan.Claim | main.go:230-236 | each in-bounds pixel under a BODY or VISOR cell becomes the source pixel; every other pixel is kept |
| Scan.DimOrigin | main.go:216-225 | the origin is dimmed when the canvas there is still transparent, as the step semantics says |
| Scan.ClaimCanvas | main.go:230-236 | the canvas after the claim equals the claimed canvas value |
| Scan.Visit | main.go:175-236 | the work at one origin leaves the canvas of the step semantics; it reports whether the count grows |
| Scan.ScanColumn | main.go:174-237 | one column of the scan, x fixed and y from top to bottom, as the step semantics says |
| Scan.ScanWith | main.go:172-238 | the nested scan leaves the canvas and the count of the step semantics on a fresh canvas of the picture's size |
| Scan.Scan | main.go:162-238 | the whole scan with the library built at start-up ends in the state Final describes |
| ScanProperties.StepEffect | main.go:211-236 | at one origin the count grows by one exactly when some variant wins; the winner's BODY and VISOR pixels become the source pixels; a still-transparent origin is dimmed otherwise; every other pixel is unchanged |
| ScanProperties.StepOnlyAhead | main.go:173-236 | a step never changes the pixel of an origin already visited |
| ScanProperties.OccupiedOriginSkipped | main.go:184-186 | no variant matches at an origin whose canvas pixel is not transparent, and the count stays |
| ScanProperties.EarlierVariantWins | main.go:176-214 | when variant i matches, the winner is variant i or an earlier one |
| ScanProperties.StepKeepsClaims | main.go:223-236 | a pixel holding its source colour, when that colour is not fully transparent, still holds it after any later step |
| ScanProperties.StepSettles | main.go:216-236 | each step keeps the invariant: every pixel is claimed or dimmed, or else not yet visited and still transparent |
| ScanProperties.ColumnKeeps | main.go:174 | any invariant that every step down column x preserves holds at the bottom of the column once it holds at the starting row |
| ScanProperties.RunFromKeeps | main.go:172-238 | any invariant of the origin reached that every step and every change of column preserve holds when the scan ends |
| ScanProperties.ScanSettles | main.go:172-238 | after the scan of any picture, every output pixel is the source pixel or its dimmed copy |
| UniformImage.BaseShape | main.go:19-81 | every catalog entry has one of the two base shapes, and its mirror has the third shape |
| UniformImage.MirrorShape | main.go:134-140 | a template with BODY, VISOR and BODY at the right ends of rows 0 and 1 mirrors to the third shape |
| UniformImage.VariantShapes | main.go:167-171 | every library variant has one of the three shapes |
| UniformImage.TwoColourTests | main.go:191-199 | with anchor colours not within 16, a pixel of one of them is within 8 of that one only, and not within 6 of the body colour exactly when it is the visor colour |
| UniformImage.BodyCellTest | main.go:191-193 | a BODY cell over one of the anchor colours passes exactly on the body colour |
| UniformImage.VisorCellTest | main.go:194-196 | a VISOR cell over one of the anchor colours passes exactly on the visor colour |
| UniformImage.BgCellTest | main.go:197-199 | a BG cell over one of the anchor colours passes exactly on the visor colour |
| UniformImage.ShapeAFails | main.go:187-210 | on a uniform picture the first base shape cannot fit |
| UniformImage.ShapeBFails | main.go:187-210 | on a uniform picture the mirrored shape cannot fit |
| UniformImage.ShapeCFails | main.go:187-210 | on a uniform picture the third shape cannot fit |
| UniformImage.UniformNoMatch | main.go:177-210 | on a uniform picture no template of the three shapes matches anywhere |
| UniformImage.UniformNoWinner | main.go:175-215 | on a uniform picture no library variant wins at any origin |
| UniformImage.StepUniform | main.go:216-229 | on a uniform picture a step finds no match, keeps the count and dims the origin |
| UniformImage.UniformRun | main.go:172-238 | on a uniform picture, with any library of templates of the three shapes, the scan counts nothing and dims every pixel |
| UniformImage.UniformScan | main.go:172-238 | a uniform picture of any size gives zero matches and an output dimmed everywhere to the picture's colour |
| SingleSprite.Base0IsFirstVariant | main.go:19-27 | the first library variant is the first catalog template as a literal |
| SingleSprite.Base0Anchors | main.go:104-124 | the first template's body anchor is (1, 0) and its visor anchor (2, 1) |
| SingleSprite.SpriteAnchorColours | main.go:177-180 | at the origin of the sprite the anchors read the body colour and the visor colour |
| SingleSprite.AnchorsApart | main.go:181-183 | the body and visor colours are not within 16, so the variant is not skipped |
| SingleSprite.PaintPasses | main.go:191-202 | each of the four roles passes over the colour painted under it |
| SingleSprite.PaintedFits | main.go:187-210 | a picture painting every cell of a template of plain roles passes the cell loop at the origin |
| SingleSprite.SpriteMatches | main.go:177-210 | the first library variant matches the sprite at the origin of a transparent canvas |
| SingleSprite.SpriteFirstMatch | main.go:175-215 | the first variant is the winner at the origin |
| SingleSprite.WinnerStep | main.go:211-236 | at a transparent origin where variant k wins, the count grows by one, the winner's pixels take the source pixels and an uncovered origin is dimmed |
| SingleSprite.SpriteFirstStep | main.go:175-236 | the first step of the scan of the sprite counts 1, claims the winner's pixels and dims the origin |
| SingleSprite.KeptStep | main.go:175-236 | once counted and claimed, the sprite stays counted and claimed after any later step |
| SingleSprite.KeptTransition | main.go:173-236 | each transition of the scan of the sprite keeps the invariant: a fresh canvas before the first origin, the sprite counted and claimed after it |
| SingleSprite.SpriteScan | main.go:172-238 | the whole scan of the sprite counts at least one match, and every BODY and VISOR pixel of it keeps its colour in the output |

## Left out

- Command-line handling, reading and decoding the PNG file, creating and encoding the output file (whose creation error is ignored), and printing (main.go:142-166, 239-245) are I/O. The model takes the decoded picture as a value and returns the canvas and the count.
- Go's colour-model conversions are library calls and are not modelled. Pixels are 8-bit non-premultiplied RGBA values. This covers `color.NRGBAModel.Convert` on non-NRGBA sources, and the conversion from premultiplied RGBA to NRGBA that `Set` applies to the dimmed colour. The model stores the dimmed value (R/4, G/4, B/4, A) directly, which is exact only for fully opaque pixels. So ScanProperties.ScanSettles describes the program's output exactly only at opaque pixels.
- ScanProperties.StepKeepsClaims: requires that the claimed pixel is not fully transparent, because with alpha 0 a claimed pixel still reads as unclaimed and a later origin there dims it.
- UniformImage.UniformScan: states that every output pixel is `Dim(c)`, the value the model stores. For a colour with alpha < 255 the program's `Set` converts the premultiplied dimmed colour back to NRGBA: with 0 < alpha < 255 it rescales the channels, and with alpha 0 it stores (0, 0, 0, 0); that conversion is not modelled (see the colour-model line above).
- Bounds that do not start at (0, 0), and the out-of-bounds behaviour of image types other than NRGBA (such as a paletted image returning its first palette entry), are not modelled.
- Templates.Locate: requires a template containing the value. Without one, the program can only panic, which the model does not represent.
- The total count is not related in closed form to the picture. It depends on the canvas state at each origin, and it is stated step by step (ScanProperties.StepEffect, Scan.ScanWith).
- SingleSprite.SpriteScan: states at least one match, not exactly one. An exact count needs a proof that no variant matches at each of the other five transparent origins of the picture, which the model does not carry out.

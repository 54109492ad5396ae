/**
 * The scan of a uniform image: every pixel has the same colour, so none of
 * the three shapes the library variants take can match anywhere, no variant
 * wins, and the whole output is the dimmed image colour.
 */
module UniformImage {

  import opened Options
  import opened Colours
  import opened Templates
  import opened Library
  import opened Scan
  import opened ScanProperties

  /** Every pixel of the source is the colour c. */
  predicate IsUniform(src: Grid, c: Colour)
  {
    forall i, j :: 0 <= i < |src| && 0 <= j < |src[i]| ==> src[i][j] == c
  }

  /** Base templates 0 to 6: BG at (0, 0), BODY at (1, 0), VISOR at (2, 1). */
  predicate ShapeA(t: Template)
  {
    |t| >= 2 && |t[0]| >= 2 && |t[1]| >= 3 && t[0][0] == BG && t[0][1] == BODY && t[1][2] == VISOR
  }

  /** Every mirrored variant: BODY at (0, 0), VISOR at (0, 1), BODY at (2, 1). */
  predicate ShapeB(t: Template)
  {
    |t| >= 2 && |t[0]| >= 1 && |t[1]| >= 3 && t[0][0] == BODY && t[1][0] == VISOR && t[1][2] == BODY
  }

  /** Base templates 7 and 8: BODY at (0, 0), (1, 0) and (0, 1), VISOR at (1, 1). */
  predicate ShapeC(t: Template)
  {
    |t| >= 2 && |t[0]| >= 2 && |t[1]| >= 2 && t[0][0] == BODY && t[0][1] == BODY && t[1][0] == BODY && t[1][1] == VISOR
  }

  /** A base template whose mirror has ShapeB: read from the right end of rows 0 and 1. */
  predicate MirrorsToShapeB(t: Template)
  {
    |t| >= 2 && |t[0]| >= 1 && |t[1]| >= 3 &&
    t[0][|t[0]| - 1] == BODY && t[1][|t[1]| - 1] == VISOR && t[1][|t[1]| - 3] == BODY
  }

  lemma MirrorShape(t: Template)
    requires MirrorsToShapeB(t)
    ensures ShapeB(Flipped(t))
  {
    FlippedAt(t);
  }

  /** Every base template has ShapeA or ShapeC, and its mirror has ShapeB. */
  lemma BaseShape(k: nat)
    requires k < |BaseTemplates|
    ensures ShapeA(BaseTemplates[k]) || ShapeC(BaseTemplates[k])
    ensures MirrorsToShapeB(BaseTemplates[k])
  {
  }

  /** Every library variant has one of the three shapes. */
  lemma VariantShapes()
    ensures AllShaped(Variants)
  {
    forall i | 0 <= i < |Variants|
      ensures ShapeA(Variants[i]) || ShapeB(Variants[i]) || ShapeC(Variants[i])
    {
      var k := i / 2;
      var t := BaseTemplates[k];
      BaseShape(k);
      if i % 2 == 0 {
        assert Variants[i] == t;
      } else {
        assert Variants[i] == Flipped(t);
        MirrorShape(t);
      }
    }
  }

  /**
   * With two reference colours at least 16 apart, a pixel equal to one of
   * them is within 8 of that one only, and not within 6 of the body colour
   * exactly when it is the visor colour.
   */
  lemma TwoColourTests(pixel: Colour, body: Colour, visor: Colour)
    requires !IsSame(body, visor, 16)
    requires pixel == body || pixel == visor
    ensures IsSame(pixel, body, 8) <==> pixel == body
    ensures IsSame(pixel, visor, 8) <==> pixel == visor
    ensures !IsSame(pixel, body, 6) <==> pixel == visor
  {
    DiffSymmetric(body, visor);
    IsSameReflexive(body, 16);
    IsSameReflexive(visor, 8);
    IsSameReflexive(body, 8);
    IsSameReflexive(body, 6);
  }

  /** With the reference colours at least 16 apart, a BODY cell over one of them passes exactly on the body colour. */
  lemma BodyCellTest(pixel: Colour, body: Colour, visor: Colour)
    requires !IsSame(body, visor, 16) && (pixel == body || pixel == visor)
    ensures CellPasses(BODY, pixel, body, visor) <==> pixel == body
  {
    TwoColourTests(pixel, body, visor);
  }

  /** A VISOR cell over one of the reference colours passes exactly on the visor colour. */
  lemma VisorCellTest(pixel: Colour, body: Colour, visor: Colour)
    requires !IsSame(body, visor, 16) && (pixel == body || pixel == visor)
    ensures CellPasses(VISOR, pixel, body, visor) <==> pixel == visor
  {
    TwoColourTests(pixel, body, visor);
  }

  /** A BG cell over one of the reference colours passes exactly on the visor colour. */
  lemma BgCellTest(pixel: Colour, body: Colour, visor: Colour)
    requires !IsSame(body, visor, 16) && (pixel == body || pixel == visor)
    ensures CellPasses(BG, pixel, body, visor) <==> pixel == visor
  {
    TwoColourTests(pixel, body, visor);
  }

  /** The reference colours of a uniform image are the image colour and the zero colour, one each. */
  predicate UniformPair(c: Colour, body: Colour, visor: Colour)
  {
    !IsSame(body, visor, 16) && ((body == c && visor == Transparent) || (body == Transparent && visor == c))
  }

  /**
   * ShapeA cannot fit: with the body colour c its BG cell over the
   * in-bounds origin fails; with body colour zero its BODY cell at (1, 0)
   * must lie outside the image, and then so does its VISOR cell at (2, 1).
   */
  lemma ShapeAFails(src: Grid, c: Colour, w: nat, h: nat, t: Template, x: nat, y: nat, body: Colour, visor: Colour)
    requires IsGrid(src, w, h) && IsUniform(src, c) && x < w && y < h
    requires UniformPair(c, body, visor) && ShapeA(t)
    ensures !Fits(t, src, x, y, body, visor)
  {
    var p00, p10, p21 := At(src, x, y), At(src, x + 1, y), At(src, x + 2, y + 1);
    assert p00 == c;
    assert p10 == if x + 1 < w then c else Transparent;
    assert p21 == if x + 2 < w && y + 1 < h then c else Transparent;
    BgCellTest(p00, body, visor);
    BodyCellTest(p10, body, visor);
    VisorCellTest(p21, body, visor);
    assert !CellPasses(t[0][0], p00, body, visor) || !CellPasses(t[0][1], p10, body, visor) || !CellPasses(t[1][2], p21, body, visor);
  }

  /**
   * ShapeB cannot fit: with body colour zero its BODY cell over the origin
   * fails; with the body colour c its VISOR cell at (0, 1) must lie below the
   * image, and then so does its BODY cell at (2, 1).
   */
  lemma ShapeBFails(src: Grid, c: Colour, w: nat, h: nat, t: Template, x: nat, y: nat, body: Colour, visor: Colour)
    requires IsGrid(src, w, h) && IsUniform(src, c) && x < w && y < h
    requires UniformPair(c, body, visor) && ShapeB(t)
    ensures !Fits(t, src, x, y, body, visor)
  {
    var p00, p01, p21 := At(src, x, y), At(src, x, y + 1), At(src, x + 2, y + 1);
    assert p00 == c;
    assert p01 == if y + 1 < h then c else Transparent;
    assert p21 == if x + 2 < w && y + 1 < h then c else Transparent;
    BodyCellTest(p00, body, visor);
    VisorCellTest(p01, body, visor);
    BodyCellTest(p21, body, visor);
    assert !CellPasses(t[0][0], p00, body, visor) || !CellPasses(t[1][0], p01, body, visor) || !CellPasses(t[1][2], p21, body, visor);
  }

  /**
   * ShapeC cannot fit: with body colour zero its BODY cell over the origin
   * fails; with the body colour c its BODY cells at (1, 0) and (0, 1) put
   * its VISOR cell at (1, 1) inside the image.
   */
  lemma ShapeCFails(src: Grid, c: Colour, w: nat, h: nat, t: Template, x: nat, y: nat, body: Colour, visor: Colour)
    requires IsGrid(src, w, h) && IsUniform(src, c) && x < w && y < h
    requires UniformPair(c, body, visor) && ShapeC(t)
    ensures !Fits(t, src, x, y, body, visor)
  {
    var p00, p10, p01, p11 := At(src, x, y), At(src, x + 1, y), At(src, x, y + 1), At(src, x + 1, y + 1);
    assert p00 == c;
    assert p10 == if x + 1 < w then c else Transparent;
    assert p01 == if y + 1 < h then c else Transparent;
    assert p11 == if x + 1 < w && y + 1 < h then c else Transparent;
    BodyCellTest(p00, body, visor);
    BodyCellTest(p10, body, visor);
    BodyCellTest(p01, body, visor);
    VisorCellTest(p11, body, visor);
    assert !CellPasses(t[0][0], p00, body, visor) || !CellPasses(t[0][1], p10, body, visor)
      || !CellPasses(t[1][0], p01, body, visor) || !CellPasses(t[1][1], p11, body, visor);
  }

  /**
   * On a uniform w-by-h image a variant of any of the three shapes never
   * matches: every read is the image colour or, outside the image, the zero
   * colour, and the cells of the shape cannot all lie on the side of the
   * image border that their role needs.
   */
  lemma UniformNoMatch(src: Grid, c: Colour, w: nat, h: nat, t: Template, free: bool, x: nat, y: nat)
    requires IsGrid(src, w, h) && IsUniform(src, c) && x < w && y < h
    requires WellFormed(t) && (ShapeA(t) || ShapeB(t) || ShapeC(t))
    ensures !Matches(t, src, free, x, y)
  {
    var body := BodyColour(t, src, x, y);
    var visor := VisorColour(t, src, x, y);
    if !IsSame(body, visor, 16) {
      IsSameReflexive(body, 16);
      assert body == c || body == Transparent;
      assert visor == c || visor == Transparent;
      assert UniformPair(c, body, visor);
      if ShapeA(t) {
        ShapeAFails(src, c, w, h, t, x, y, body, visor);
      } else if ShapeB(t) {
        ShapeBFails(src, c, w, h, t, x, y, body, visor);
      } else {
        ShapeCFails(src, c, w, h, t, x, y, body, visor);
      }
    }
  }

  /** Every template of lib has one of the three shapes. */
  predicate AllShaped(lib: seq<Template>)
  {
    forall k :: 0 <= k < |lib| ==> ShapeA(lib[k]) || ShapeB(lib[k]) || ShapeC(lib[k])
  }

  /** No template of a shaped library matches anywhere on a uniform image. */
  lemma UniformNoWinner(src: Grid, c: Colour, w: nat, h: nat, lib: seq<Template>, free: bool, x: nat, y: nat)
    requires IsGrid(src, w, h) && IsUniform(src, c) && x < w && y < h
    requires AllWellFormed(lib) && AllShaped(lib)
    ensures FirstMatch(lib, src, free, x, y) == None
  {
    forall k | 0 <= k < |lib|
      ensures !Matches(lib[k], src, free, x, y)
    {
      UniformNoMatch(src, c, w, h, lib[k], free, x, y);
    }
  }

  /** The scan state on a uniform image at origin (x, y): nothing counted, visited pixels dimmed, the rest transparent. */
  predicate UniformBefore(s: State, c: Colour, w: nat, h: nat, x: nat, y: nat)
  {
    IsGrid(s.canvas, w, h) && s.count == 0 &&
    forall i, j :: 0 <= i < w && 0 <= j < h ==> s.canvas[i][j] == if Visited(i, j, x, y) then Dim(c) else Transparent
  }

  /** At the bottom of column x the scan is at the top of column x + 1. */
  lemma UniformNextColumn(s: State, c: Colour, w: nat, h: nat, x: nat)
    requires UniformBefore(s, c, w, h, x, h)
    ensures UniformBefore(s, c, w, h, x + 1, 0)
  {
    forall i, j | 0 <= i < w && 0 <= j < h
      ensures Visited(i, j, x, h) == Visited(i, j, x + 1, 0)
    {
    }
  }

  /** One origin of a uniform image: no template wins and the origin is dimmed. */
  lemma StepUniform(src: Grid, c: Colour, w: nat, h: nat, lib: seq<Template>, s: State, x: nat, y: nat)
    requires IsGrid(src, w, h) && IsUniform(src, c)
    requires x < w && y < h && UniformBefore(s, c, w, h, x, y)
    requires AllWellFormed(lib) && AllShaped(lib)
    ensures UniformBefore(Step(src, lib, s, x, y), c, w, h, x, y + 1)
  {
    UniformNoWinner(src, c, w, h, lib, s.canvas[x][y].a == 0, x, y);
    assert s.canvas[x][y] == Transparent;
    var r := Step(src, lib, s, x, y);
    assert r == State(DimmedAt(s.canvas, src, x, y), s.count);
    assert r.canvas == s.canvas[x := s.canvas[x][y := Dim(c)]];
    forall i, j | 0 <= i < w && 0 <= j < h
      ensures r.canvas[i][j] == if Visited(i, j, x, y + 1) then Dim(c) else Transparent
    {
    }
  }

  /** The scan of a uniform image with any library of such templates counts nothing and dims every pixel. */
  lemma UniformRun(src: Grid, c: Colour, w: nat, h: nat, lib: seq<Template>)
    requires IsGrid(src, w, h) && IsUniform(src, c)
    requires AllWellFormed(lib) && AllShaped(lib)
    ensures UniformBefore(FinalWith(src, lib, w, h), c, w, h, w, 0)
  {
    var inv := (t: State, i: nat, j: nat) => UniformBefore(t, c, w, h, i, j);
    forall t: State, i: nat, j: nat | i < w && j < h && inv(t, i, j)
      ensures inv(Transition(src, lib)(t, i, j), i, j + 1)
    {
      TransitionIsStep(src, lib, t, i, j);
      StepUniform(src, c, w, h, lib, t, i, j);
    }
    forall t: State, i: nat | i < w && inv(t, i, h)
      ensures inv(t, i + 1, 0)
    {
      UniformNextColumn(t, c, w, h, i);
    }
    assert inv(State(Blank(w, h), 0), 0, 0);
    RunFromKeeps(Transition(src, lib), w, h, inv, State(Blank(w, h), 0), 0);
  }

  /**
   * A uniform image of any size: the scan finds no match and the output is
   * the dimmed image colour everywhere.
   */
  lemma UniformScan(src: Grid, c: Colour, w: nat, h: nat)
    requires IsGrid(src, w, h) && IsUniform(src, c)
    ensures Final(src, w, h).count == 0
    ensures IsGrid(Final(src, w, h).canvas, w, h)
    ensures forall i, j :: 0 <= i < w && 0 <= j < h ==> Final(src, w, h).canvas[i][j] == Dim(c)
  {
    VariantsWellFormed();
    VariantShapes();
    UniformRun(src, c, w, h, Variants);
    assert UniformBefore(Final(src, w, h), c, w, h, w, 0);
  }

}

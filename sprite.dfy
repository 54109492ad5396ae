/**
 * One exact sprite: a 4-by-6 picture that paints the first catalog template
 * in three colours, body red, visor blue, and green under every BG and ANY
 * cell. The first library variant matches it at the origin and wins there;
 * the first step of the scan counts it and claims its pixels, and the rest
 * of the scan keeps them.
 */
module SingleSprite {

  import opened Options
  import opened Colours
  import opened Templates
  import opened Library
  import opened Scan
  import opened ScanProperties

  const Body: Colour := Colour(200, 0, 0, 255)
  const Visor: Colour := Colour(0, 0, 200, 255)
  const Green: Colour := Colour(0, 200, 0, 255)

  /** The colour painted under one template cell. */
  function Paint(cell: int): (c: Colour)
  {
    if cell == BODY then Body else if cell == VISOR then Visor else Green
  }

  /** The first catalog template as a literal, to paint from. */
  const Base0: Template := [
    [BG, BODY, BODY, BODY],
    [BODY, BODY, VISOR, VISOR],
    [BODY, BODY, BODY, BODY],
    [BG, BODY, BODY, BODY],
    [ANY, BODY, BG, BODY],
    [ANY, BODY, BG, BODY]
  ]

  /** The picture, stored by columns: the pixel at (x, y) is the paint of cell (x, y) of the template. */
  const Sprite: Grid := seq(4, x requires 0 <= x < 4 => seq(6, y requires 0 <= y < 6 => Paint(Base0[y][x])))

  /** The literal is the first catalog template, the first library variant. */
  lemma Base0IsFirstVariant()
    ensures |Variants| == 18 && Variants[0] == Base0
  {
    VariantsLayout();
  }

  /** The picture is a 4-by-6 grid that reads the paint of every template cell. */
  lemma SpriteLayout()
    ensures IsGrid(Sprite, 4, 6)
    ensures forall dy, dx :: 0 <= dy < |Base0| && 0 <= dx < |Base0[dy]| ==> At(Sprite, dx, dy) == Paint(Base0[dy][dx])
  {
  }

  /** The anchors of the first template: body at (1, 0), visor at (2, 1). */
  lemma Base0Anchors()
    ensures WellFormed(Base0)
    ensures Anchor(Base0, BODY) == Point(1, 0)
    ensures Anchor(Base0, VISOR) == Point(2, 1)
  {
    assert IsFirst(Base0, BODY, Point(1, 0));
    assert IsFirst(Base0, VISOR, Point(2, 1));
    FirstUnique(Base0, BODY, Anchor(Base0, BODY), Point(1, 0));
    FirstUnique(Base0, VISOR, Anchor(Base0, VISOR), Point(2, 1));
  }

  /** The body and the visor colour are not within 16 of each other, so the variant test goes on to the cells. */
  lemma AnchorsApart()
    ensures !IsSame(Body, Visor, 16)
  {
  }

  /** Every cell of the template passes over its own paint: BG and ANY over green, BODY over red, VISOR over blue. */
  lemma PaintPasses()
    ensures CellPasses(BG, Paint(BG), Body, Visor)
    ensures CellPasses(BODY, Paint(BODY), Body, Visor)
    ensures CellPasses(VISOR, Paint(VISOR), Body, Visor)
    ensures CellPasses(ANY, Paint(ANY), Body, Visor)
  {
    assert !IsSame(Green, Body, 6);
  }

  /** Every cell of the first template is one of the four plain roles. */
  lemma Base0Cells()
    ensures forall dy, dx :: 0 <= dy < |Base0| && 0 <= dx < |Base0[dy]| ==>
      Base0[dy][dx] == BG || Base0[dy][dx] == BODY || Base0[dy][dx] == VISOR || Base0[dy][dx] == ANY
  {
  }

  /** A picture that shows the paint of every cell of a template of plain roles fits it at the origin. */
  lemma PaintedFits(t: Template, src: Grid)
    requires forall dy, dx :: 0 <= dy < |t| && 0 <= dx < |t[dy]| ==>
      t[dy][dx] == BG || t[dy][dx] == BODY || t[dy][dx] == VISOR || t[dy][dx] == ANY
    requires forall dy, dx :: 0 <= dy < |t| && 0 <= dx < |t[dy]| ==> At(src, dx, dy) == Paint(t[dy][dx])
    ensures Fits(t, src, 0, 0, Body, Visor)
  {
    PaintPasses();
  }

  /** The anchors of the first template read the body and the visor colour of the sprite. */
  lemma SpriteAnchorColours()
    ensures WellFormed(Base0)
    ensures BodyColour(Base0, Sprite, 0, 0) == Body && VisorColour(Base0, Sprite, 0, 0) == Visor
  {
    Base0Anchors();
    assert At(Sprite, 1, 0) == Paint(Base0[0][1]);
    assert At(Sprite, 2, 1) == Paint(Base0[1][2]);
  }

  /** The first library variant matches the sprite at the origin of a transparent canvas. */
  lemma SpriteMatches()
    ensures WellFormed(Variants[0])
    ensures BodyColour(Variants[0], Sprite, 0, 0) == Body && VisorColour(Variants[0], Sprite, 0, 0) == Visor
    ensures Matches(Variants[0], Sprite, true, 0, 0)
  {
    Base0IsFirstVariant();
    SpriteAnchorColours();
    SpriteLayout();
    Base0Cells();
    PaintedFits(Base0, Sprite);
    AnchorsApart();
  }

  /** The first variant wins at the origin. */
  lemma SpriteFirstMatch()
    ensures AllWellFormed(Variants)
    ensures FirstMatch(Variants, Sprite, true, 0, 0) == Some(0)
  {
    VariantsWellFormed();
    SpriteMatches();
    EarlierVariantWins(Variants, Sprite, true, 0, 0, 0);
  }

  /** A step whose origin is transparent and where variant k wins counts one and claims the winner's pixels. */
  lemma WinnerStep(src: Grid, lib: seq<Template>, s: State, x: nat, y: nat, w: nat, h: nat, k: nat)
    requires AllWellFormed(lib) && IsGrid(s.canvas, w, h) && x < w && y < h
    requires s.canvas[x][y] == Transparent && FirstMatch(lib, src, true, x, y) == Some(k)
    ensures Step(src, lib, s, x, y).count == s.count + 1
    ensures forall i, j :: 0 <= i < w && 0 <= j < h && Covers(lib[k], x, y, i, j) ==> Step(src, lib, s, x, y).canvas[i][j] == At(src, i, j)
    ensures !Covers(lib[k], x, y, x, y) ==> Step(src, lib, s, x, y).canvas[x][y] == Dim(At(src, x, y))
  {
    StepEffect(src, lib, s, x, y, w, h);
  }

  /** The fresh canvas is transparent at the origin. */
  lemma BlankOrigin()
    ensures IsGrid(Blank(4, 6), 4, 6) && Blank(4, 6)[0][0] == Transparent
  {
  }

  /** The origin of the sprite is a BG cell, painted green and not covered by the winner. */
  lemma SpriteOrigin()
    ensures At(Sprite, 0, 0) == Green
    ensures |Variants| == 18 && !Covers(Variants[0], 0, 0, 0, 0)
  {
    Base0IsFirstVariant();
    assert Base0[0][0] == BG;
  }

  /**
   * The first step of the scan of the sprite: the count becomes 1, the
   * winner's BODY and VISOR pixels hold the source pixels, and the origin,
   * a BG cell, holds the dimmed green.
   */
  lemma SpriteFirstStep()
    ensures AllWellFormed(Variants) && |Variants| == 18
    ensures Step(Sprite, Variants, State(Blank(4, 6), 0), 0, 0).count == 1
    ensures forall i, j :: 0 <= i < 4 && 0 <= j < 6 && Covers(Variants[0], 0, 0, i, j) ==>
      Step(Sprite, Variants, State(Blank(4, 6), 0), 0, 0).canvas[i][j] == At(Sprite, i, j)
    ensures Step(Sprite, Variants, State(Blank(4, 6), 0), 0, 0).canvas[0][0] == Dim(Green)
  {
    SpriteFirstMatch();
    BlankOrigin();
    SpriteOrigin();
    WinnerStep(Sprite, Variants, State(Blank(4, 6), 0), 0, 0, 4, 6, 0);
  }

  /** Every pixel of the sprite is fully opaque. */
  lemma SpriteOpaque()
    ensures forall p, q :: 0 <= p < 4 && 0 <= q < 6 ==> At(Sprite, p, q).a == 255
  {
    SpriteLayout();
  }

  /** The scan has counted the sprite and its BODY and VISOR pixels hold the source pixels. */
  predicate SpriteKept(t: State, src: Grid)
  {
    IsGrid(t.canvas, 4, 6) && t.count >= 1 &&
    forall p, q :: 0 <= p < 4 && 0 <= q < 6 && Covers(Base0, 0, 0, p, q) ==> t.canvas[p][q] == At(src, p, q)
  }

  /** Before the first origin the canvas is fresh; from then on the sprite is kept. */
  predicate ScanKept(t: State, i: nat, j: nat, src: Grid)
  {
    if i == 0 && j == 0 then t == State(Blank(4, 6), 0) else SpriteKept(t, src)
  }

  /** Every later step keeps the sprite counted and claimed. */
  lemma KeptStep(t: State, i: nat, j: nat)
    requires AllWellFormed(Variants) && SpriteKept(t, Sprite) && i < 4 && j < 6
    ensures SpriteKept(Step(Sprite, Variants, t, i, j), Sprite)
  {
    StepEffect(Sprite, Variants, t, i, j, 4, 6);
    SpriteOpaque();
    forall p, q | 0 <= p < 4 && 0 <= q < 6 && Covers(Base0, 0, 0, p, q)
      ensures Step(Sprite, Variants, t, i, j).canvas[p][q] == At(Sprite, p, q)
    {
      StepKeepsClaims(Sprite, Variants, t, i, j, 4, 6, p, q);
    }
  }

  /** After the first origin the scan has counted the sprite and claimed its pixels. */
  lemma FirstStepKept()
    ensures AllWellFormed(Variants)
    ensures SpriteKept(Step(Sprite, Variants, State(Blank(4, 6), 0), 0, 0), Sprite)
  {
    SpriteFirstStep();
    Base0IsFirstVariant();
    BlankOrigin();
    StepEffect(Sprite, Variants, State(Blank(4, 6), 0), 0, 0, 4, 6);
  }

  /** One transition of the scan of the sprite keeps the scan invariant. */
  lemma KeptTransition(t: State, i: nat, j: nat)
    requires AllWellFormed(Variants) && i < 4 && j < 6 && ScanKept(t, i, j, Sprite)
    ensures ScanKept(Transition(Sprite, Variants)(t, i, j), i, j + 1, Sprite)
  {
    if i == 0 && j == 0 {
      BlankOrigin();
      TransitionIsStep(Sprite, Variants, t, i, j);
      FirstStepKept();
    } else {
      TransitionIsStep(Sprite, Variants, t, i, j);
      KeptStep(t, i, j);
    }
  }

  /**
   * The whole scan of the sprite counts at least one match, and every BODY
   * and VISOR pixel of the sprite keeps its colour in the output.
   */
  lemma SpriteScan()
    ensures SpriteKept(Final(Sprite, 4, 6), Sprite)
  {
    VariantsWellFormed();
    var inv := (t: State, i: nat, j: nat) => ScanKept(t, i, j, Sprite);
    forall t: State, i: nat, j: nat | i < 4 && j < 6 && inv(t, i, j)
      ensures inv(Transition(Sprite, Variants)(t, i, j), i, j + 1)
    {
      KeptTransition(t, i, j);
    }
    RunFromKeeps(Transition(Sprite, Variants), 4, 6, inv, State(Blank(4, 6), 0), 0);
  }

}

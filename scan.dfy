/**
 * The scan/match/claim engine and the compositor. Every origin (x, y) is
 * visited, x outer and y inner; at each origin the library variants are tried
 * in order and the first that matches wins; the origin pixel is dimmed unless
 * it is already non-transparent on the canvas, and a match copies the source
 * pixel into every BODY or VISOR cell of the matched footprint.
 *
 * The specification is a step semantics on values (Step, RunFrom, Final);
 * the method Scan updates an array in place and is proved to end in the state
 * Final describes.
 */
module Scan {

  import opened Options
  import opened Colours
  import opened Templates
  import opened Library

  /** A grid of colours stored by columns: g[x][y] is the pixel at (x, y). */
  type Grid = seq<seq<Colour>>

  /** g is a w-by-h grid. */
  predicate IsGrid(g: Grid, w: nat, h: nat)
  {
    |g| == w && forall x :: 0 <= x < w ==> |g[x]| == h
  }

  /**
   * Reading the source image at any point. The image's bounds start at (0, 0);
   * outside them the zero colour is reported, like an NRGBA image does.
   */
  function At(src: Grid, x: int, y: int): (c: Colour)
  {
    if 0 <= x < |src| && 0 <= y < |src[x]| then src[x][y] else Transparent
  }

  predicate AllWellFormed(lib: seq<Template>)
  {
    forall i :: 0 <= i < |lib| ==> WellFormed(lib[i])
  }

  /** The claim test `cell & (BODY | VISOR) != 0`. */
  predicate IsClaimCell(cell: int)
  {
    Has(cell, BODY) || Has(cell, VISOR)
  }

  /**
   * The per-cell test, in the order the scan tries it: a BODY-flagged cell
   * passes when the pixel is within 8 of the body colour, a VISOR-flagged cell
   * when it is within 8 of the visor colour, a BG-flagged cell when it is NOT
   * within 6 of the body colour, and an ANY cell always.
   */
  predicate CellPasses(cell: int, pixel: Colour, body: Colour, visor: Colour)
  {
    (Has(cell, BODY) && IsSame(pixel, body, 8)) ||
    (Has(cell, VISOR) && IsSame(pixel, visor, 8)) ||
    (Has(cell, BG) && !IsSame(pixel, body, 6)) ||
    cell == ANY
  }

  /** Every cell of t, laid over the source with its (0, 0) at (x, y), passes. */
  predicate Fits(t: Template, src: Grid, x: nat, y: nat, body: Colour, visor: Colour)
  {
    forall dy, dx :: 0 <= dy < |t| && 0 <= dx < |t[dy]| ==> CellPasses(t[dy][dx], At(src, x + dx, y + dy), body, visor)
  }

  /** The colour under the body anchor of t, for origin (x, y). */
  function BodyColour(t: Template, src: Grid, x: nat, y: nat): (c: Colour)
    requires Contains(t, BODY)
  {
    var p := Anchor(t, BODY);
    At(src, x + p.dx, y + p.dy)
  }

  /** The colour under the visor anchor of t, for origin (x, y). */
  function VisorColour(t: Template, src: Grid, x: nat, y: nat): (c: Colour)
    requires Contains(t, VISOR)
  {
    var p := Anchor(t, VISOR);
    At(src, x + p.dx, y + p.dy)
  }

  /**
   * Variant t matches at origin (x, y), where free says whether the canvas
   * pixel at the origin is still transparent: the two anchor colours are not
   * within 16 of each other, the origin is free, and every cell passes.
   */
  predicate Matches(t: Template, src: Grid, free: bool, x: nat, y: nat)
    requires WellFormed(t)
  {
    var body := BodyColour(t, src, x, y);
    var visor := VisorColour(t, src, x, y);
    !IsSame(body, visor, 16) && free && Fits(t, src, x, y, body, visor)
  }

  /** The position of the first true entry at position i or later, if any. */
  function FirstTrue(hits: seq<bool>, i: nat): (m: Option<nat>)
    requires i <= |hits|
    ensures m.Some? ==> i <= m.value < |hits| && hits[m.value]
    ensures forall j :: i <= j < |hits| && (m.None? || j < m.value) ==> !hits[j]
    decreases |hits| - i
  {
    if i == |hits| then None
    else if hits[i] then Some(i)
    else FirstTrue(hits, i + 1)
  }

  /** Which variants of the library match at (x, y), in library order. */
  function Hits(lib: seq<Template>, src: Grid, free: bool, x: nat, y: nat): (hits: seq<bool>)
    requires AllWellFormed(lib)
  {
    seq(|lib|, j requires 0 <= j < |lib| => Matches(lib[j], src, free, x, y))
  }

  /**
   * The variant that wins at an origin: the earliest in library order that
   * matches, or None when no variant matches.
   */
  function FirstMatch(lib: seq<Template>, src: Grid, free: bool, x: nat, y: nat): (m: Option<nat>)
    requires AllWellFormed(lib)
    ensures m.Some? ==> m.value < |lib| && Matches(lib[m.value], src, free, x, y)
    ensures forall j :: 0 <= j < |lib| && (m.None? || j < m.value) ==> !Matches(lib[j], src, free, x, y)
  {
    var hits := Hits(lib, src, free, x, y);
    assert forall j :: 0 <= j < |lib| ==> hits[j] == Matches(lib[j], src, free, x, y);
    FirstTrue(hits, 0)
  }

  /** The output canvas as a value, stored by columns like the source. */
  type Canvas = Grid

  /** The canvas of a freshly created image: transparent everywhere. */
  function Blank(w: nat, h: nat): (cv: Canvas)
    ensures IsGrid(cv, w, h)
    ensures forall i, j :: 0 <= i < w && 0 <= j < h ==> cv[i][j] == Transparent
  {
    seq(w, i => seq(h, j => Transparent))
  }

  /** Cell (i, j) of the canvas lies under a BODY or VISOR cell of t placed at (x, y). */
  predicate Covers(t: Template, x: nat, y: nat, i: int, j: int)
  {
    y <= j < y + |t| && x <= i < x + |t[j - y]| && IsClaimCell(t[j - y][i - x])
  }

  /** The canvas after the claim step: the source pixel under every covered cell. */
  function Claimed(cv: Canvas, src: Grid, t: Template, x: nat, y: nat): (r: Canvas)
  {
    seq(|cv|, i requires 0 <= i < |cv| =>
      seq(|cv[i]|, j requires 0 <= j < |cv[i]| =>
        if Covers(t, x, y, i, j) then At(src, i, j) else cv[i][j]))
  }

  /** The canvas after the dimming step at (x, y): the origin is dimmed only while it is transparent. */
  function DimmedAt(cv: Canvas, src: Grid, x: nat, y: nat): (r: Canvas)
    requires x < |cv| && y < |cv[x]|
  {
    if cv[x][y].a == 0 then cv[x := cv[x][y := Dim(At(src, x, y))]] else cv
  }

  /** What the scan carries from one origin to the next: the canvas and the match count. */
  datatype State = State(canvas: Canvas, count: nat)

  /** The work done at one origin. */
  function Step(src: Grid, lib: seq<Template>, s: State, x: nat, y: nat): (r: State)
    requires AllWellFormed(lib) && x < |s.canvas| && y < |s.canvas[x]|
    ensures |r.canvas| == |s.canvas| && forall i :: 0 <= i < |s.canvas| ==> |r.canvas[i]| == |s.canvas[i]|
  {
    var dimmed := DimmedAt(s.canvas, src, x, y);
    match FirstMatch(lib, src, s.canvas[x][y].a == 0, x, y)
    case None => State(dimmed, s.count)
    case Some(k) => State(Claimed(dimmed, src, lib[k], x, y), s.count + 1)
  }

  /**
   * The step as a transition on any state; an origin outside the canvas, or
   * a library that is not well formed, leaves the state as it is.
   */
  function Transition(src: Grid, lib: seq<Template>): (step: (State, nat, nat) -> State)
  {
    (s: State, x: nat, y: nat) =>
      if AllWellFormed(lib) && x < |s.canvas| && y < |s.canvas[x]| then Step(src, lib, s, x, y) else s
  }

  /** On the canvas the transition is the step. */
  lemma TransitionIsStep(src: Grid, lib: seq<Template>, s: State, x: nat, y: nat)
    requires AllWellFormed(lib) && x < |s.canvas| && y < |s.canvas[x]|
    ensures Transition(src, lib)(s, x, y) == Step(src, lib, s, x, y)
  {
  }

  /** The order of one column: the origins (x, y), (x, y + 1), ..., (x, h - 1), each through step. */
  function Column(step: (State, nat, nat) -> State, h: nat, s: State, x: nat, y: nat): (r: State)
    decreases h - y
  {
    if y >= h then s else Column(step, h, step(s, x, y), x, y + 1)
  }

  /** The rest of column x from row y is the step at (x, y) followed by the rest of column x from row y + 1. */
  lemma ColumnStep(src: Grid, lib: seq<Template>, h: nat, s: State, x: nat, y: nat)
    requires AllWellFormed(lib) && x < |s.canvas| && y < |s.canvas[x]| && y < h
    ensures Column(Transition(src, lib), h, s, x, y) == Column(Transition(src, lib), h, Step(src, lib, s, x, y), x, y + 1)
  {
  }

  /** The order of the scan from the top of column x on: column x, then every later column, x outer and y inner. */
  function RunFrom(step: (State, nat, nat) -> State, w: nat, h: nat, s: State, x: nat): (r: State)
    decreases w - x
  {
    if x >= w then s else RunFrom(step, w, h, Column(step, h, s, x, 0), x + 1)
  }

  /** The state at the end of the whole scan of a w-by-h source with library lib. */
  function FinalWith(src: Grid, lib: seq<Template>, w: nat, h: nat): (r: State)
    requires AllWellFormed(lib)
  {
    RunFrom(Transition(src, lib), w, h, State(Blank(w, h), 0), 0)
  }

  /** The state at the end of the whole scan with the expanded template library. */
  function Final(src: Grid, w: nat, h: nat): (r: State)
  {
    VariantsWellFormed();
    FinalWith(src, Variants, w, h)
  }

  /** The array holds the canvas value cv. */
  predicate Holds(out: array2<Colour>, cv: Canvas)
    reads out
  {
    IsGrid(cv, out.Length0, out.Length1) &&
    forall i, j :: 0 <= i < out.Length0 && 0 <= j < out.Length1 ==> out[i, j] == cv[i][j]
  }

  /** Writing one pixel of the output image; a point outside its bounds is ignored. */
  method Set(out: array2<Colour>, x: int, y: int, c: Colour)
    modifies out
    ensures forall i, j :: 0 <= i < out.Length0 && 0 <= j < out.Length1 ==>
      out[i, j] == if i == x && j == y then c else old(out[i, j])
  {
    if 0 <= x < out.Length0 && 0 <= y < out.Length1 {
      out[x, y] := c;
    }
  }

  /** The cell-by-cell test of one variant; it stops at the first cell that fails. */
  method TestCells(t: Template, src: Grid, x: nat, y: nat, body: Colour, visor: Colour) returns (ok: bool)
    ensures ok == Fits(t, src, x, y, body, visor)
  {
    ok := true;
    var dy := 0;
    while dy < |t| && ok
      invariant 0 <= dy <= |t|
      invariant ok ==> forall dy', dx' :: 0 <= dy' < dy && 0 <= dx' < |t[dy']| ==>
        CellPasses(t[dy'][dx'], At(src, x + dx', y + dy'), body, visor)
      invariant !ok ==> !Fits(t, src, x, y, body, visor)
    {
      var row := t[dy];
      var dx := 0;
      while dx < |row| && ok
        invariant 0 <= dx <= |row|
        invariant ok ==> forall dx' :: 0 <= dx' < dx ==> CellPasses(row[dx'], At(src, x + dx', y + dy), body, visor)
        invariant !ok ==> !Fits(t, src, x, y, body, visor)
      {
        var pixel := At(src, x + dx, y + dy);
        if !CellPasses(row[dx], pixel, body, visor) {
          ok := false;
        }
        dx := dx + 1;
      }
      dy := dy + 1;
    }
  }

  /** The source colours under the body and visor anchors of t placed at (x, y). */
  method AnchorColours(t: Template, src: Grid, x: nat, y: nat) returns (body: Colour, visor: Colour)
    requires WellFormed(t)
    ensures body == BodyColour(t, src, x, y) && visor == VisorColour(t, src, x, y)
  {
    var bodyAt := Locate(t, BODY);
    var visorAt := Locate(t, VISOR);
    body := At(src, x + bodyAt.dx, y + bodyAt.dy);
    visor := At(src, x + visorAt.dx, y + visorAt.dy);
  }

  /**
   * Trying one variant at (x, y): it is skipped when its anchor colours are
   * within 16 of each other or when the canvas origin is no longer
   * transparent, and otherwise compared cell by cell.
   */
  method TryVariant(src: Grid, out: array2<Colour>, template: Template, x: nat, y: nat) returns (hit: bool)
    requires WellFormed(template) && x < out.Length0 && y < out.Length1
    ensures hit == Matches(template, src, out[x, y].a == 0, x, y)
  {
    var body, visor := AnchorColours(template, src, x, y);
    if IsSame(body, visor, 16) {
      return false;
    }
    if out[x, y].a != 0 {
      return false;
    }
    hit := TestCells(template, src, x, y, body, visor);
  }

  /** The search for the winning variant at (x, y): the variants are tried in library order. */
  method MatchAt(src: Grid, out: array2<Colour>, lib: seq<Template>, x: nat, y: nat) returns (matched: Option<nat>)
    requires AllWellFormed(lib) && x < out.Length0 && y < out.Length1
    ensures matched == FirstMatch(lib, src, out[x, y].a == 0, x, y)
  {
    ghost var hits := Hits(lib, src, out[x, y].a == 0, x, y);
    var i := 0;
    while i < |lib|
      invariant 0 <= i <= |lib|
      invariant FirstTrue(hits, i) == FirstMatch(lib, src, out[x, y].a == 0, x, y)
    {
      var hit := TryVariant(src, out, lib[i], x, y);
      assert hit == hits[i];
      if hit {
        return Some(i);
      }
      i := i + 1;
    }
    return None;
  }

  /** The claim step: the source pixel is copied into every BODY or VISOR cell of t placed at (x, y). */
  method Claim(out: array2<Colour>, src: Grid, t: Template, x: nat, y: nat)
    modifies out
    ensures forall i, j :: 0 <= i < out.Length0 && 0 <= j < out.Length1 ==>
      out[i, j] == if Covers(t, x, y, i, j) then At(src, i, j) else old(out[i, j])
  {
    var dy := 0;
    while dy < |t|
      invariant 0 <= dy <= |t|
      invariant forall i, j :: 0 <= i < out.Length0 && 0 <= j < out.Length1 ==>
        out[i, j] == if Covers(t, x, y, i, j) && j - y < dy then At(src, i, j) else old(out[i, j])
    {
      var row := t[dy];
      var dx := 0;
      while dx < |row|
        invariant 0 <= dx <= |row|
        invariant forall i, j :: 0 <= i < out.Length0 && 0 <= j < out.Length1 ==>
          out[i, j] == if Covers(t, x, y, i, j) && (j - y < dy || (j - y == dy && i - x < dx)) then At(src, i, j) else old(out[i, j])
      {
        if IsClaimCell(row[dx]) {
          Set(out, x + dx, y + dy, At(src, x + dx, y + dy));
        }
        dx := dx + 1;
      }
      dy := dy + 1;
    }
  }

  /** The dimming step on the array: it keeps the canvas value in line with DimmedAt. */
  method DimOrigin(out: array2<Colour>, src: Grid, x: nat, y: nat, ghost cv: Canvas)
    requires x < out.Length0 && y < out.Length1 && Holds(out, cv)
    modifies out
    ensures Holds(out, DimmedAt(cv, src, x, y))
  {
    var original := At(src, x, y);
    if out[x, y].a == 0 {
      out[x, y] := Dim(original);
    }
  }

  /** The claim step on the array: it keeps the canvas value in line with Claimed. */
  method ClaimCanvas(out: array2<Colour>, src: Grid, t: Template, x: nat, y: nat, ghost cv: Canvas)
    requires Holds(out, cv)
    modifies out
    ensures Holds(out, Claimed(cv, src, t, x, y))
  {
    Claim(out, src, t, x, y);
  }

  /**
   * The work at one origin: the winning variant is looked up, the origin is
   * dimmed if the canvas is still transparent there, and a match is claimed.
   */
  method Visit(src: Grid, out: array2<Colour>, lib: seq<Template>, x: nat, y: nat, ghost s: State) returns (found: bool)
    requires AllWellFormed(lib) && x < out.Length0 && y < out.Length1 && Holds(out, s.canvas)
    modifies out
    ensures Holds(out, Step(src, lib, s, x, y).canvas)
    ensures Step(src, lib, s, x, y).count == s.count + (if found then 1 else 0)
  {
    var matched := MatchAt(src, out, lib, x, y);
    ghost var dimmed := DimmedAt(s.canvas, src, x, y);
    DimOrigin(out, src, x, y, s.canvas);
    found := matched.Some?;
    if found {
      ClaimCanvas(out, src, lib[matched.value], x, y, dimmed);
    }
  }

  /**
   * The inner loop of the scan: column x from top to bottom. The count grows
   * by one per origin that matched.
   */
  method ScanColumn(src: Grid, out: array2<Colour>, lib: seq<Template>, x: nat, count0: nat, ghost s0: State)
    returns (count: nat, ghost s: State)
    requires AllWellFormed(lib) && x < out.Length0 && Holds(out, s0.canvas) && count0 == s0.count
    modifies out
    ensures s == Column(Transition(src, lib), out.Length1, s0, x, 0)
    ensures Holds(out, s.canvas) && count == s.count
  {
    var w, h := out.Length0, out.Length1;
    count, s := count0, s0;
    var y := 0;
    while y < h
      invariant 0 <= y <= h
      invariant Holds(out, s.canvas) && count == s.count
      invariant Column(Transition(src, lib), h, s0, x, 0) == Column(Transition(src, lib), h, s, x, y)
    {
      ColumnStep(src, lib, h, s, x, y);
      var found := Visit(src, out, lib, x, y, s);
      if found {
        count := count + 1;
      }
      s := Step(src, lib, s, x, y);
      y := y + 1;
    }
  }

  /**
   * The scan of a w-by-h source with library lib: every origin is processed,
   * x outer and y inner, on a canvas that starts transparent. The result is
   * the canvas and the number of origins that matched, as FinalWith
   * describes them.
   */
  method ScanWith(src: Grid, w: nat, h: nat, lib: seq<Template>) returns (out: array2<Colour>, count: nat)
    requires IsGrid(src, w, h) && AllWellFormed(lib)
    ensures fresh(out) && out.Length0 == w && out.Length1 == h
    ensures Holds(out, FinalWith(src, lib, w, h).canvas)
    ensures count == FinalWith(src, lib, w, h).count
  {
    out := new Colour[w, h]((i, j) => Transparent);
    count := 0;
    ghost var s := State(Blank(w, h), 0);
    var x := 0;
    while x < w
      invariant 0 <= x <= w
      invariant Holds(out, s.canvas) && count == s.count
      invariant RunFrom(Transition(src, lib), w, h, s, x) == FinalWith(src, lib, w, h)
    {
      count, s := ScanColumn(src, out, lib, x, count, s);
      x := x + 1;
    }
  }

  /**
   * The whole scan of a w-by-h source: the library is built from the
   * catalog, then every origin is processed with it.
   */
  method Scan(src: Grid, w: nat, h: nat) returns (out: array2<Colour>, count: nat)
    requires IsGrid(src, w, h)
    ensures fresh(out) && out.Length0 == w && out.Length1 == h
    ensures Holds(out, Final(src, w, h).canvas)
    ensures count == Final(src, w, h).count
  {
    var lib := BuildLibrary();
    VariantsWellFormed();
    out, count := ScanWith(src, w, h, lib);
  }

}

/**
 * What the scan guarantees, stated over its step semantics: what one origin
 * writes, that writes never reach an origin already visited, first-match
 * priority, that claimed pixels stay claimed, an induction principle for
 * invariants of the scan, and that every pixel ends up either claimed or
 * dimmed.
 */
module ScanProperties {

  import opened Options
  import opened Colours
  import opened Templates
  import opened Scan

  /** Origin (i, j) is visited before origin (x, y): x outer, y inner. */
  predicate Visited(i: int, j: int, x: nat, y: nat)
  {
    i < x || (i == x && j < y)
  }

  /**
   * What one origin does to the canvas and the count. The count grows by one
   * exactly when some variant wins. A pixel under a BODY or VISOR cell of the
   * winner becomes the source pixel; otherwise the origin itself becomes the
   * dimmed source pixel if it was transparent; every other pixel is kept.
   */
  lemma StepEffect(src: Grid, lib: seq<Template>, s: State, x: nat, y: nat, w: nat, h: nat)
    requires AllWellFormed(lib) && IsGrid(s.canvas, w, h) && x < w && y < h
    ensures IsGrid(Step(src, lib, s, x, y).canvas, w, h)
    ensures Step(src, lib, s, x, y).count == s.count + if FirstMatch(lib, src, s.canvas[x][y].a == 0, x, y).Some? then 1 else 0
    ensures forall i, j :: 0 <= i < w && 0 <= j < h ==>
      Step(src, lib, s, x, y).canvas[i][j] ==
        var m := FirstMatch(lib, src, s.canvas[x][y].a == 0, x, y);
        if m.Some? && Covers(lib[m.value], x, y, i, j) then At(src, i, j)
        else if i == x && j == y && s.canvas[x][y].a == 0 then Dim(At(src, x, y))
        else s.canvas[i][j]
  {
  }

  /**
   * The footprint of a template lies right of and below its origin, so no
   * step writes to an origin that the scan has already visited: the pixel at
   * (i, j) is final once origin (i, j) has been processed.
   */
  lemma StepOnlyAhead(src: Grid, lib: seq<Template>, s: State, x: nat, y: nat, w: nat, h: nat)
    requires AllWellFormed(lib) && IsGrid(s.canvas, w, h) && x < w && y < h
    ensures forall i, j :: 0 <= i < w && 0 <= j < h && Visited(i, j, x, y) ==>
      Step(src, lib, s, x, y).canvas[i][j] == s.canvas[i][j]
  {
    StepEffect(src, lib, s, x, y, w, h);
  }

  /** An origin whose canvas pixel is no longer transparent never matches; its count stays. */
  lemma OccupiedOriginSkipped(src: Grid, lib: seq<Template>, s: State, x: nat, y: nat)
    requires AllWellFormed(lib) && x < |s.canvas| && y < |s.canvas[x]| && s.canvas[x][y].a != 0
    ensures FirstMatch(lib, src, s.canvas[x][y].a == 0, x, y) == None
    ensures Step(src, lib, s, x, y).count == s.count
  {
  }

  /** Priority: whenever variant i matches, the winner is variant i or an earlier one. */
  lemma EarlierVariantWins(lib: seq<Template>, src: Grid, free: bool, x: nat, y: nat, i: nat)
    requires AllWellFormed(lib) && i < |lib| && Matches(lib[i], src, free, x, y)
    ensures FirstMatch(lib, src, free, x, y).Some?
    ensures FirstMatch(lib, src, free, x, y).value <= i
  {
  }

  /** The canvas pixel p at (i, j) is the source pixel (claimed) or its dimmed copy. */
  predicate Settled(p: Colour, src: Grid, i: nat, j: nat)
  {
    p == At(src, i, j) || p == Dim(At(src, i, j))
  }

  /**
   * The invariant of the scan at origin (x, y): every pixel is claimed or
   * dimmed, or else it is not yet visited and still transparent.
   */
  predicate SettledBefore(s: State, src: Grid, w: nat, h: nat, x: nat, y: nat)
  {
    IsGrid(s.canvas, w, h) &&
    forall i, j {:trigger s.canvas[i][j]} :: 0 <= i < w && 0 <= j < h ==>
      Settled(s.canvas[i][j], src, i, j) || (!Visited(i, j, x, y) && s.canvas[i][j] == Transparent)
  }

  /**
   * A claimed pixel whose source pixel is not fully transparent stays
   * claimed: dimming only touches a transparent origin, and a later claim
   * writes the same source pixel again.
   */
  lemma StepKeepsClaims(src: Grid, lib: seq<Template>, s: State, x: nat, y: nat, w: nat, h: nat, i: nat, j: nat)
    requires AllWellFormed(lib) && IsGrid(s.canvas, w, h)
    requires x < w && y < h && i < w && j < h && s.canvas[i][j] == At(src, i, j) && At(src, i, j).a != 0
    ensures Step(src, lib, s, x, y).canvas[i][j] == At(src, i, j)
  {
    StepEffect(src, lib, s, x, y, w, h);
  }

  lemma StepSettles(src: Grid, lib: seq<Template>, s: State, x: nat, y: nat, w: nat, h: nat)
    requires AllWellFormed(lib)
    requires x < w && y < h && SettledBefore(s, src, w, h, x, y)
    ensures SettledBefore(Step(src, lib, s, x, y), src, w, h, x, y + 1)
  {
    StepEffect(src, lib, s, x, y, w, h);
    var cv := Step(src, lib, s, x, y).canvas;
    forall i, j | 0 <= i < w && 0 <= j < h
      ensures Settled(cv[i][j], src, i, j) || (!Visited(i, j, x, y + 1) && cv[i][j] == Transparent)
    {
      if i == x && j == y && s.canvas[x][y].a != 0 {
        assert s.canvas[x][y] != Transparent;
        assert Settled(s.canvas[x][y], src, x, y);
      }
    }
  }

  /** Every pixel of the w-by-h canvas is claimed or dimmed. */
  predicate AllSettled(s: State, src: Grid, w: nat, h: nat)
  {
    IsGrid(s.canvas, w, h) && forall i, j :: 0 <= i < w && 0 <= j < h ==> Settled(s.canvas[i][j], src, i, j)
  }

  /** Past the last column every pixel is settled. */
  lemma SettledAtEnd(s: State, src: Grid, w: nat, h: nat, y: nat)
    requires SettledBefore(s, src, w, h, w, y)
    ensures AllSettled(s, src, w, h)
  {
    forall i, j | 0 <= i < w && 0 <= j < h
      ensures Settled(s.canvas[i][j], src, i, j)
    {
      assert Visited(i, j, w, y);
    }
  }

  /** At the bottom of column x the scan is at the top of column x + 1. */
  lemma SettledNextColumn(s: State, src: Grid, w: nat, h: nat, x: nat)
    requires SettledBefore(s, src, w, h, x, h)
    ensures SettledBefore(s, src, w, h, x + 1, 0)
  {
    forall i, j | 0 <= i < w && 0 <= j < h
      ensures Visited(i, j, x, h) == Visited(i, j, x + 1, 0)
    {
    }
  }

  /**
   * Induction down one column: an invariant that every step preserves holds
   * at the bottom of column x once it holds at row y.
   */
  lemma {:induction false} ColumnKeeps(step: (State, nat, nat) -> State, h: nat, inv: (State, nat, nat) -> bool, s: State, x: nat, y: nat)
    requires forall t: State, j: nat :: j < h && inv(t, x, j) ==> inv(step(t, x, j), x, j + 1)
    requires y <= h && inv(s, x, y)
    ensures inv(Column(step, h, s, x, y), x, h)
    decreases h - y
  {
    if y < h {
      ColumnKeeps(step, h, inv, step(s, x, y), x, y + 1);
    }
  }

  /**
   * Induction over the scan: an invariant that every step and every change
   * of column preserve holds when the scan from the top of column x ends.
   */
  lemma {:induction false} RunFromKeeps(step: (State, nat, nat) -> State, w: nat, h: nat, inv: (State, nat, nat) -> bool, s: State, x: nat)
    requires forall t: State, i: nat, j: nat :: i < w && j < h && inv(t, i, j) ==> inv(step(t, i, j), i, j + 1)
    requires forall t: State, i: nat :: i < w && inv(t, i, h) ==> inv(t, i + 1, 0)
    requires x <= w && inv(s, x, 0)
    ensures inv(RunFrom(step, w, h, s, x), w, 0)
    decreases w - x
  {
    if x < w {
      ColumnKeeps(step, h, inv, s, x, 0);
      RunFromKeeps(step, w, h, inv, Column(step, h, s, x, 0), x + 1);
    }
  }

  /**
   * After the scan of any picture, every output pixel is either the
   * source pixel (claimed by a match) or its dimmed copy; none is left
   * transparent.
   */
  lemma ScanSettles(src: Grid, lib: seq<Template>, w: nat, h: nat)
    requires AllWellFormed(lib) && IsGrid(src, w, h)
    ensures IsGrid(FinalWith(src, lib, w, h).canvas, w, h)
    ensures forall i, j :: 0 <= i < w && 0 <= j < h ==>
      var p := FinalWith(src, lib, w, h).canvas[i][j];
      p == At(src, i, j) || p == Dim(At(src, i, j))
  {
    var inv := (t: State, i: nat, j: nat) => SettledBefore(t, src, w, h, i, j);
    forall t: State, i: nat, j: nat | i < w && j < h && inv(t, i, j)
      ensures inv(Transition(src, lib)(t, i, j), i, j + 1)
    {
      TransitionIsStep(src, lib, t, i, j);
      StepSettles(src, lib, t, i, j, w, h);
    }
    forall t: State, i: nat | i < w && inv(t, i, h)
      ensures inv(t, i + 1, 0)
    {
      SettledNextColumn(t, src, w, h, i);
    }
    assert inv(State(Blank(w, h), 0), 0, 0);
    RunFromKeeps(Transition(src, lib), w, h, inv, State(Blank(w, h), 0), 0);
    SettledAtEnd(FinalWith(src, lib, w, h), src, w, h, 0);
    var cv := FinalWith(src, lib, w, h).canvas;
    forall i, j | 0 <= i < w && 0 <= j < h
      ensures cv[i][j] == At(src, i, j) || cv[i][j] == Dim(At(src, i, j))
    {
      assert Settled(cv[i][j], src, i, j);
    }
  }

}

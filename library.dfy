/**
 * The template library: the fixed catalog of nine base sprites and its
 * expansion into the matchable variants [base0, mirror0, base1, mirror1, ...],
 * whose order is the match priority.
 */
module Library {

  import opened Templates

  /** The catalog of base templates, in catalog order. */
  const BaseTemplates: seq<Template> := [
    [
      [BG, BODY, BODY, BODY],
      [BODY, BODY, VISOR, VISOR],
      [BODY, BODY, BODY, BODY],
      [BG, BODY, BODY, BODY],
      [ANY, BODY, BG, BODY],
      [ANY, BODY, BG, BODY]
    ],
    [
      [BG, BODY, BODY, BODY],
      [BODY, BODY, VISOR, VISOR],
      [BODY, BODY, BODY, BODY],
      [BG, BODY, BODY, BODY],
      [ANY, BODY, BG, BODY]
    ],
    [
      [BG, BODY, BODY, BODY],
      [BODY, BODY, VISOR, VISOR],
      [BG, BODY, BODY, BODY],
      [BG, BODY, BODY, BODY],
      [ANY, BODY, BG, BODY]
    ],
    [
      [BG, BODY, BODY, BODY],
      [BODY, BODY, VISOR, VISOR],
      [BG, BODY, BODY, BODY],
      [ANY, BODY, BG, BODY]
    ],
    [
      [BG, BODY, BODY, BODY],
      [BODY, BODY, VISOR, VISOR],
      [BODY, BODY, BODY, BODY],
      [BG, BODY, BG, BODY]
    ],
    [
      [BG, BODY, BODY, BODY],
      [BG, BODY, VISOR, VISOR],
      [BODY, BODY, BODY, BODY],
      [BG, BODY, BODY, BODY],
      [ANY, BODY, BG, BODY]
    ],
    [
      [BG, BODY, BODY, BODY],
      [BODY, BODY, VISOR, VISOR],
      [BODY, BODY, BODY, BODY],
      [BG + BODY, BODY, BODY, BODY],   // the one cell with two flags, BG | BODY
      [BG, BODY, BG, BODY]
    ],
    [
      [BODY, BODY, BODY],
      [BODY, VISOR, VISOR],
      [BODY, BODY, BODY],
      [BODY, BODY, BODY],
      [BODY, BG, BODY]
    ],
    [
      [BODY, BODY, BODY],
      [BODY, VISOR, VISOR],
      [BODY, BODY, BODY],
      [BODY, BG, BODY]
    ]
  ]

  /** The reference expansion: each base template followed by its mirror. */
  function Expand(bases: seq<Template>): (lib: seq<Template>)
    ensures |lib| == 2 * |bases|
    ensures forall k :: 0 <= k < |bases| ==> lib[2 * k] == bases[k] && lib[2 * k + 1] == Flipped(bases[k])
  {
    if bases == [] then []
    else
      var rest := Expand(bases[1..]);
      assert forall k :: 1 <= k < |bases| ==> rest[2 * k - 2] == bases[k] && rest[2 * k - 1] == Flipped(bases[k]);
      [bases[0], Flipped(bases[0])] + rest
  }

  lemma {:induction false} ExpandSnoc(bases: seq<Template>, t: Template)
    ensures Expand(bases + [t]) == Expand(bases) + [t, Flipped(t)]
  {
    if bases != [] {
      assert (bases + [t])[1..] == bases[1..] + [t];
      ExpandSnoc(bases[1..], t);
    }
  }

  /**
   * The library built at start-up: every base template is appended, then the
   * result of mirroring it.
   */
  method BuildLibrary() returns (lib: seq<Template>)
    ensures lib == Expand(BaseTemplates)
  {
    lib := [];
    var k := 0;
    while k < |BaseTemplates|
      invariant 0 <= k <= |BaseTemplates|
      invariant lib == Expand(BaseTemplates[..k])
    {
      var template := BaseTemplates[k];
      lib := lib + [template];
      var mirror := FlipHorizontal(template);
      lib := lib + [mirror];
      assert BaseTemplates[..k + 1] == BaseTemplates[..k] + [template];
      ExpandSnoc(BaseTemplates[..k], template);
      k := k + 1;
    }
    assert BaseTemplates[..k] == BaseTemplates;
  }

  /** The expanded library, in match-priority order. */
  const Variants: seq<Template> := Expand(BaseTemplates)

  /** The library has 18 variants: base i at position 2i and its mirror right after it. */
  lemma VariantsLayout()
    ensures |BaseTemplates| == 9 && |Variants| == 18
    ensures forall k :: 0 <= k < 9 ==> Variants[2 * k] == BaseTemplates[k] && Variants[2 * k + 1] == Flipped(BaseTemplates[k])
  {
  }

  /** Every catalog entry has a BODY cell at (1, 0) and a VISOR cell at (2, 1). */
  lemma BaseWellFormed(k: nat)
    requires k < |BaseTemplates|
    ensures WellFormed(BaseTemplates[k])
  {
    var t := BaseTemplates[k];
    assert t[0][1] == BODY && t[1][2] == VISOR;
  }

  /** Every variant has a BODY and a VISOR cell, so both of its anchors are defined. */
  lemma VariantsWellFormed()
    ensures forall i :: 0 <= i < |Variants| ==> WellFormed(Variants[i])
  {
    forall i | 0 <= i < |Variants|
      ensures WellFormed(Variants[i])
    {
      var k := i / 2;
      BaseWellFormed(k);
      if i % 2 == 0 {
        assert Variants[i] == BaseTemplates[k];
      } else {
        assert Variants[i] == Flipped(BaseTemplates[k]);
        FlippedWellFormed(BaseTemplates[k]);
      }
    }
  }

  /**
   * The BG | BODY cell carries both flags but is not exactly BODY, so it can
   * never be a body anchor.
   */
  lemma MixedCell()
    ensures Has(BaseTemplates[6][3][0], BG) && Has(BaseTemplates[6][3][0], BODY)
    ensures BaseTemplates[6][3][0] != BODY
    ensures Contains(BaseTemplates[6], BODY)
    ensures Anchor(BaseTemplates[6], BODY) == Point(1, 0)
  {
    var t := BaseTemplates[6];
    assert t[0][1] == BODY && t[0][0] != BODY;
  }

}

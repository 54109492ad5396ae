/**
 * The template model: a template is a jagged grid of role flags, its two
 * anchors are the row-major first cells that hold exactly BODY and exactly
 * VISOR, and its horizontal mirror reverses every row.
 */
module Templates {

  import opened Options

  /** The role flags a template cell is made of. */
  const BG: int := 1
  const VISOR: int := 2
  const BODY: int := 4
  const ANY: int := 8

  type Row = seq<int>

  /** A jagged grid: t[dy][dx] is the cell dx columns right of and dy rows below the origin. */
  type Template = seq<Row>

  /**
   * The flag test `cell & flag != 0` for a one-bit flag. For flag = 2^k, bit k
   * of the two's-complement form of any int is floor(cell / 2^k) mod 2, and
   * Dafny's / and % with a positive divisor are exactly floor division and
   * its non-negative remainder.
   */
  predicate Has(cell: int, flag: int)
    requires flag > 0
  {
    (cell / flag) % 2 == 1
  }

  /** On the four-bit cells of a template, Has is the bitwise test `cell & flag != 0`. */
  lemma HasIsBitTest(cell: int, flag: int)
    requires 0 <= cell < 16 && (flag == BG || flag == VISOR || flag == BODY || flag == ANY)
    ensures Has(cell, flag) <==> (cell as bv4) & (flag as bv4) != 0
  {
    var flags := cell as bv4;
    assert cell == flags as int;
    if flag == BG {
      assert Has(cell, flag) <==> flags & 1 != 0;
    } else if flag == VISOR {
      assert Has(cell, flag) <==> flags & 2 != 0;
    } else if flag == BODY {
      assert Has(cell, flag) <==> flags & 4 != 0;
    } else {
      assert Has(cell, flag) <==> flags & 8 != 0;
    }
  }

  /** An offset (dx, dy) into a template. */
  datatype Point = Point(dx: nat, dy: nat)

  predicate IsCell(t: Template, p: Point)
  {
    p.dy < |t| && p.dx < |t[p.dy]|
  }

  /** Whether some cell of t holds exactly the value v. */
  predicate Contains(t: Template, v: int)
  {
    exists dy, dx :: 0 <= dy < |t| && 0 <= dx < |t[dy]| && t[dy][dx] == v
  }

  /** Row-major order: p comes before q when it is on an earlier row, or earlier on the same row. */
  predicate Earlier(p: Point, q: Point)
  {
    p.dy < q.dy || (p.dy == q.dy && p.dx < q.dx)
  }

  /** p is the row-major first cell of t that holds exactly v. */
  predicate IsFirst(t: Template, v: int, p: Point)
  {
    IsCell(t, p) && t[p.dy][p.dx] == v &&
    forall dy, dx :: 0 <= dy < |t| && 0 <= dx < |t[dy]| && Earlier(Point(dx, dy), p) ==> t[dy][dx] != v
  }

  /** A template that can be matched: it has a BODY cell and a VISOR cell. */
  predicate WellFormed(t: Template)
  {
    Contains(t, BODY) && Contains(t, VISOR)
  }

  /** There is at most one row-major first cell. */
  lemma FirstUnique(t: Template, v: int, p: Point, q: Point)
    requires IsFirst(t, v, p) && IsFirst(t, v, q)
    ensures p == q
  {
  }

  /** The position of the first v in a row, or the row's length when there is none. */
  function IndexIn(row: Row, v: int): (i: nat)
    ensures i <= |row|
    ensures i < |row| ==> row[i] == v
    ensures forall k :: 0 <= k < i ==> row[k] != v
  {
    if row == [] then 0
    else if row[0] == v then 0
    else 1 + IndexIn(row[1..], v)
  }

  /** The row-major search for the first cell holding exactly v: the reference for the anchors. */
  function Find(t: Template, v: int): (r: Option<Point>)
    ensures r.Some? <==> Contains(t, v)
    ensures r.Some? ==> IsFirst(t, v, r.value)
  {
    if t == [] then None
    else
      var i := IndexIn(t[0], v);
      if i < |t[0]| then Some(Point(i, 0))
      else match Find(t[1..], v)
        case None =>
          assert forall dy, dx :: 1 <= dy < |t| && 0 <= dx < |t[dy]| ==> t[1..][dy - 1][dx] == t[dy][dx];
          None
        case Some(p) =>
          assert forall dy, dx :: 1 <= dy < |t| && 0 <= dx < |t[dy]| ==> t[1..][dy - 1][dx] == t[dy][dx];
          assert IsFirst(t[1..], v, p);
          Some(Point(p.dx, p.dy + 1))
  }

  /** The anchor for value v: the row-major first cell holding exactly v. */
  function Anchor(t: Template, v: int): (p: Point)
    requires Contains(t, v)
    ensures IsFirst(t, v, p)
  {
    Find(t, v).value
  }

  /**
   * bodyPoint and visorPoint: the nested row-major search with an early
   * return. A template without such a cell makes the search panic, which is
   * what the precondition rules out.
   */
  method Locate(t: Template, v: int) returns (p: Point)
    requires Contains(t, v)
    ensures IsFirst(t, v, p)
    ensures p == Anchor(t, v)
  {
    p := Point(0, 0);
    var dy := 0;
    while dy < |t|
      invariant 0 <= dy <= |t|
      invariant forall dy', dx' :: 0 <= dy' < dy && 0 <= dx' < |t[dy']| ==> t[dy'][dx'] != v
    {
      var row := t[dy];
      var dx := 0;
      while dx < |row|
        invariant 0 <= dx <= |row|
        invariant forall dx' :: 0 <= dx' < dx ==> row[dx'] != v
      {
        if row[dx] == v {
          p := Point(dx, dy);
          FirstUnique(t, v, p, Anchor(t, v));
          return;
        }
        dx := dx + 1;
      }
      dy := dy + 1;
    }
    assert false;
  }

  /** The reference definition of a reversed row. */
  function Reversed(s: Row): (r: Row)
  {
    if s == [] then [] else Reversed(s[1..]) + [s[0]]
  }

  lemma {:induction false} ReversedAt(s: Row)
    ensures |Reversed(s)| == |s|
    ensures forall k :: 0 <= k < |s| ==> Reversed(s)[k] == s[|s| - 1 - k]
  {
    if s != [] {
      ReversedAt(s[1..]);
    }
  }

  /** Reversing twice gives the row back. */
  lemma ReversedTwice(s: Row)
    ensures Reversed(Reversed(s)) == s
  {
    ReversedAt(s);
    ReversedAt(Reversed(s));
  }

  /**
   * reverse: fills a fresh slice from both ends at once. The input is a value,
   * so it is left unchanged.
   */
  method Reverse(numbers: Row) returns (r: Row)
    ensures |r| == |numbers|
    ensures forall k :: 0 <= k < |r| ==> r[k] == numbers[|numbers| - 1 - k]
    ensures r == Reversed(numbers)
  {
    var n := |numbers|;
    var reversed := new int[n];
    var i, j := 0, n - 1;
    while i <= j
      invariant 0 <= i && j == n - 1 - i && 2 * i <= n + 1
      invariant forall k :: 0 <= k < i ==> reversed[k] == numbers[n - 1 - k]
      invariant forall k :: n - i <= k < n ==> reversed[k] == numbers[n - 1 - k]
    {
      reversed[i], reversed[j] := numbers[j], numbers[i];
      i, j := i + 1, j - 1;
    }
    r := reversed[..];
    ReversedAt(numbers);
  }

  /** The reference definition of the horizontal mirror: every row reversed. */
  function Flipped(t: Template): (r: Template)
  {
    seq(|t|, i requires 0 <= i < |t| => Reversed(t[i]))
  }

  /** The mirror keeps the row count and every row length, and reverses the cells of each row. */
  lemma FlippedAt(t: Template)
    ensures |Flipped(t)| == |t|
    ensures forall i :: 0 <= i < |t| ==> |Flipped(t)[i]| == |t[i]|
    ensures forall i, k :: 0 <= i < |t| && 0 <= k < |t[i]| ==> Flipped(t)[i][k] == t[i][|t[i]| - 1 - k]
  {
    forall i | 0 <= i < |t| {
      ReversedAt(t[i]);
    }
  }

  /** Mirroring twice gives the template back. */
  lemma FlippedTwice(t: Template)
    ensures Flipped(Flipped(t)) == t
  {
    forall i | 0 <= i < |t| {
      ReversedTwice(t[i]);
    }
  }

  /** A value occurs in the mirror exactly when it occurs in the template. */
  lemma FlippedContains(t: Template, v: int)
    ensures Contains(Flipped(t), v) <==> Contains(t, v)
  {
    FlippedAt(t);
    FlippedAt(Flipped(t));
    FlippedTwice(t);
    if Contains(t, v) {
      var dy, dx :| 0 <= dy < |t| && 0 <= dx < |t[dy]| && t[dy][dx] == v;
      assert Flipped(t)[dy][|t[dy]| - 1 - dx] == v;
    }
    if Contains(Flipped(t), v) {
      var dy, dx :| 0 <= dy < |Flipped(t)| && 0 <= dx < |Flipped(t)[dy]| && Flipped(t)[dy][dx] == v;
      assert t[dy][|t[dy]| - 1 - dx] == v;
    }
  }

  /** The mirror of a matchable template is matchable: its anchors exist and are found afresh. */
  lemma FlippedWellFormed(t: Template)
    requires WellFormed(t)
    ensures WellFormed(Flipped(t))
  {
    FlippedContains(t, BODY);
    FlippedContains(t, VISOR);
  }

  /** A cell and its mirror image: column dx of row dy lands in column |t[dy]| - 1 - dx. */
  lemma FlippedCell(t: Template, dy: nat, dx: nat)
    requires dy < |t| && dx < |t[dy]|
    ensures |Flipped(t)[dy]| == |t[dy]|
    ensures Flipped(t)[dy][|t[dy]| - 1 - dx] == t[dy][dx]
    ensures Flipped(t)[dy][dx] == t[dy][|t[dy]| - 1 - dx]
  {
    ReversedAt(t[dy]);
  }

  /** No cell holding v lies on a row above the first one. */
  lemma FirstRowBound(t: Template, v: int, p: Point, dy: nat, dx: nat)
    requires IsFirst(t, v, p) && dy < |t| && dx < |t[dy]| && t[dy][dx] == v
    ensures p.dy <= dy
  {
    assert !Earlier(Point(dx, dy), p);
  }

  /** The first cell of t holding v lies on a row no lower than the first such cell of its mirror. */
  lemma FirstRowAtMostMirror(t: Template, v: int, p: Point, q: Point)
    requires IsFirst(t, v, p) && IsFirst(Flipped(t), v, q)
    ensures p.dy <= q.dy
  {
    var mirror := |t[q.dy]| - 1 - q.dx;
    assert 0 <= mirror && t[q.dy][mirror] == v by {
      ReversedAt(t[q.dy]);
      FlippedCell(t, q.dy, q.dx);
    }
    FirstRowBound(t, v, p, q.dy, mirror);
  }

  /** A mirrored anchor stays on the anchor's row: mirroring moves cells only along their row. */
  lemma FlippedAnchorRow(t: Template, v: int)
    requires Contains(t, v)
    ensures Contains(Flipped(t), v)
    ensures Anchor(Flipped(t), v).dy == Anchor(t, v).dy
  {
    FlippedContains(t, v);
    var p, q := Anchor(t, v), Anchor(Flipped(t), v);
    FirstRowAtMostMirror(t, v, p, q);
    FlippedTwice(t);
    FirstRowAtMostMirror(Flipped(t), v, q, p);
  }

  /**
   * flipHorizontal: appends the reversal of each row to a new template, in
   * row order.
   */
  method FlipHorizontal(t: Template) returns (f: Template)
    ensures f == Flipped(t)
  {
    f := [];
    var k := 0;
    while k < |t|
      invariant 0 <= k <= |t|
      invariant |f| == k
      invariant forall i :: 0 <= i < k ==> f[i] == Reversed(t[i])
    {
      var row := Reverse(t[k]);
      f := f + [row];
      k := k + 1;
    }
  }

}

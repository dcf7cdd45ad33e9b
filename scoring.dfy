/** `compute_score`: the contribution of building i to antenna j placed at
    the grid point (xa, ya). */
module Scoring {
  import opened Errors
  import opened Records
  import opened Geometry

  /** Both subscripts are in Python's range and the two records are long
      enough for the fields the score reads (`[3]`, `[2]`, `[0]`, `[1]` of
      the building and `[1]` of the antenna). */
  predicate ScoreDefined(buildings: seq<Record>, antennas: seq<Record>, i: int, j: int)
  {
    -|buildings| <= i < |buildings| && -|antennas| <= j < |antennas| &&
    |buildings[Resolve(|buildings|, i)]| >= 4 && |antennas[Resolve(|antennas|, j)]| >= 2
  }

  function ComputeScore(buildings: seq<Record>, antennas: seq<Record>, i: int, j: int, xa: int, ya: int)
    : (r: Result<int>)
    ensures r.Ok? <==> ScoreDefined(buildings, antennas, i, j)
    ensures r.Err? ==> r.error == IndexError
    ensures r.Ok? ==>
      var b, a := buildings[Resolve(|buildings|, i)], antennas[Resolve(|antennas|, j)];
      r.value == Bc(b) * Ac(a) - Bl(b) * ManhattanDistance(Bx(b), By(b), xa, ya)
  {
    match PyIndex(buildings, i)
    case None => Err(IndexError)
    case Some(b) =>
      match PyIndex(antennas, j)
      case None => Err(IndexError)
      case Some(a) =>
        if |b| < 4 || |a| < 2 then Err(IndexError)
        else Ok(Bc(b) * Ac(a) - Bl(b) * ManhattanDistance(Bx(b), By(b), xa, ya))
  }

  /** Placed on the building's own position, the distance term vanishes. */
  lemma ScoreAtOwnSite(buildings: seq<Record>, antennas: seq<Record>, i: int, j: int)
    requires ScoreDefined(buildings, antennas, i, j)
    ensures var b, a := buildings[Resolve(|buildings|, i)], antennas[Resolve(|antennas|, j)];
      ComputeScore(buildings, antennas, i, j, Bx(b), By(b)) == Ok(Bc(b) * Ac(a))
  {
  }

  /** With a non-negative load, no placement scores more than the building's
      own position, and with a positive load every other point scores less. */
  lemma OwnSiteScoresBest(buildings: seq<Record>, antennas: seq<Record>, i: int, j: int, xa: int, ya: int)
    requires ScoreDefined(buildings, antennas, i, j)
    requires Bl(buildings[Resolve(|buildings|, i)]) >= 0
    ensures var b := buildings[Resolve(|buildings|, i)];
      var here, own := ComputeScore(buildings, antennas, i, j, xa, ya), ComputeScore(buildings, antennas, i, j, Bx(b), By(b));
      here.value <= own.value &&
      (Bl(b) > 0 && (xa, ya) != (Bx(b), By(b)) ==> here.value < own.value)
  {
  }

  /** The score is unclamped: it is negative once the distance penalty
      outweighs the speed term. */
  lemma ScoreCanBeNegative()
    ensures ComputeScore([[0, 0, 2, 1, 0]], [[5, 3, 0]], 0, 0, 3, 4) == Ok(-11)
  {
  }

  /** Moving the placement point changes the score by at most the size of
      the load times the distance moved. */
  lemma ScoreChangeBounded(buildings: seq<Record>, antennas: seq<Record>, i: int, j: int,
                           x1: int, y1: int, x2: int, y2: int)
    requires ScoreDefined(buildings, antennas, i, j)
    ensures var s1, s2 := ComputeScore(buildings, antennas, i, j, x1, y1), ComputeScore(buildings, antennas, i, j, x2, y2);
      Abs(s1.value - s2.value) <= Abs(Bl(buildings[Resolve(|buildings|, i)])) * ManhattanDistance(x1, y1, x2, y2)
  {
    var b := buildings[Resolve(|buildings|, i)];
    var d1 := ManhattanDistance(Bx(b), By(b), x1, y1);
    var d2 := ManhattanDistance(Bx(b), By(b), x2, y2);
    TriangleInequality(Bx(b), By(b), x1, y1, x2, y2);
    TriangleInequality(Bx(b), By(b), x2, y2, x1, y1);
    DistanceSymmetric(x1, y1, x2, y2);
    PenaltyDifference(Bc(b) * Ac(antennas[Resolve(|antennas|, j)]), Bl(b), d1, d2, ManhattanDistance(x1, y1, x2, y2));
  }

  lemma PenaltyDifference(c: int, l: int, d1: int, d2: int, m: int)
    requires Abs(d1 - d2) <= m
    ensures Abs((c - l * d1) - (c - l * d2)) <= Abs(l) * m
  {
    assert (c - l * d1) - (c - l * d2) == l * (d2 - d1);
    MulAbsBound(l, d2 - d1, m);
  }

  /** |l * e| <= |l| * m whenever |e| <= m. */
  lemma MulAbsBound(l: int, e: int, m: int)
    requires Abs(e) <= m
    ensures Abs(l * e) <= Abs(l) * m
  {
    assert Abs(l * e) == Abs(l) * Abs(e) by {
      if l < 0 && e < 0 { assert l * e == (-l) * (-e); }
      else if l < 0 { assert l * e == -((-l) * e); }
      else if e < 0 { assert l * e == -(l * (-e)); }
    }
    assert Abs(l) * Abs(e) <= Abs(l) * m;
  }
}

/** The grid distance used by the score. The source calls
    `manhattandistance` without defining it; it is taken here to be the
    Manhattan metric. */
module Geometry {

  function Abs(n: int): nat { if n < 0 then -n else n }

  function ManhattanDistance(x1: int, y1: int, x2: int, y2: int): (d: nat)
    ensures d == 0 <==> x1 == x2 && y1 == y2
  {
    Abs(x1 - x2) + Abs(y1 - y2)
  }

  lemma DistanceSymmetric(x1: int, y1: int, x2: int, y2: int)
    ensures ManhattanDistance(x1, y1, x2, y2) == ManhattanDistance(x2, y2, x1, y1)
  {
  }

  lemma TriangleInequality(x1: int, y1: int, x2: int, y2: int, x3: int, y3: int)
    ensures ManhattanDistance(x1, y1, x3, y3)
         <= ManhattanDistance(x1, y1, x2, y2) + ManhattanDistance(x2, y2, x3, y3)
  {
  }
}

/** Cells of the 19×19 wrap-around board and their four orthogonal neighbours
    (the `Point` class of board_type.js). */
module Points {

  /** Side length of the board; the neighbour computation hard-codes it. */
  const Size: int := 19

  datatype Point = Point(x: int, y: int)

  predicate InRange(p: Point) {
    0 <= p.x < Size && 0 <= p.y < Size
  }

  /** JavaScript's `a % 19`: the remainder takes the sign of the dividend
      (Dafny's own `%` is Euclidean and never negative). */
  function JsRem(a: int): (r: int)
    ensures (a - r) % Size == 0
    ensures a >= 0 ==> 0 <= r < Size
    ensures a < 0 ==> -Size < r <= 0
  {
    if a >= 0 then a % Size else -((-a) % Size)
  }

  /** The four neighbours in the order the source lists them: left, down, right, up.
      Stepping off one edge re-enters at the opposite edge. */
  function Neighbors(p: Point): (nb: seq<Point>)
    ensures |nb| == 4
  {
    [ Point(if p.x > 0 then p.x - 1 else Size - 1, p.y),
      Point(p.x, JsRem(p.y + 1)),
      Point(JsRem(p.x + 1), p.y),
      Point(p.x, if p.y > 0 then p.y - 1 else Size - 1) ]
  }

  /** `b` is one step after `a` counting modulo the board size. */
  predicate StepAfter(a: int, b: int) {
    (b - a) % Size == 1
  }

  /** Reference definition of torus adjacency: `q` is a cell of the board one step
      away from `p` along exactly one axis, counting around the edges. */
  predicate Adjacent(p: Point, q: Point) {
    && InRange(q)
    && ((p.x == q.x && (StepAfter(p.y, q.y) || StepAfter(q.y, p.y)))
        || (p.y == q.y && (StepAfter(p.x, q.x) || StepAfter(q.x, p.x))))
  }

  /** Every cell one step away from some cell of `cells`. */
  function Around(cells: set<Point>): (r: set<Point>)
    ensures forall c, q | c in cells && q in Neighbors(c) :: q in r
    ensures forall q | q in r :: exists c :: c in cells && q in Neighbors(c)
  {
    set c, q | c in cells && q in Neighbors(c) :: q
  }

  /** On the board, the listed neighbours are exactly the torus-adjacent cells. */
  lemma NeighborsAreAdjacent(p: Point, q: Point)
    requires InRange(p)
    ensures q in Neighbors(p) <==> Adjacent(p, q)
  {
    var nb := Neighbors(p);
    if q in nb {
      if q == nb[0] {
        assert StepAfter(q.x, p.x);
      } else if q == nb[1] {
        assert StepAfter(p.y, q.y);
      } else if q == nb[2] {
        assert StepAfter(p.x, q.x);
      } else {
        assert StepAfter(q.y, p.y);
      }
    }
    if Adjacent(p, q) {
      if p.x == q.x && StepAfter(p.y, q.y) {
        assert q == nb[1];
      } else if p.x == q.x && StepAfter(q.y, p.y) {
        assert q == nb[3];
      } else if StepAfter(p.x, q.x) {
        assert q == nb[2];
      } else {
        assert q == nb[0];
      }
    }
  }

  /** Every cell of the board has four distinct neighbours on the board, none of them itself. */
  lemma NeighborsShape(p: Point)
    requires InRange(p)
    ensures forall q | q in Neighbors(p) :: InRange(q) && q != p
    ensures forall i, j | 0 <= i < j < 4 :: Neighbors(p)[i] != Neighbors(p)[j]
  {
  }

  /** Adjacency on the board is symmetric. */
  lemma NeighborSymmetric(p: Point, q: Point)
    requires InRange(p) && InRange(q)
    ensures q in Neighbors(p) <==> p in Neighbors(q)
  {
    NeighborsAreAdjacent(p, q);
    NeighborsAreAdjacent(q, p);
  }

  /** The corners wrap: (0,0) touches (18,0) and (0,18), and (18,18) touches (0,18) and (18,0). */
  lemma CornersWrap()
    ensures Point(Size - 1, 0) in Neighbors(Point(0, 0)) && Point(0, Size - 1) in Neighbors(Point(0, 0))
    ensures Point(0, Size - 1) in Neighbors(Point(Size - 1, Size - 1))
    ensures Point(Size - 1, 0) in Neighbors(Point(Size - 1, Size - 1))
  {
    assert Neighbors(Point(0, 0))[0] == Point(Size - 1, 0);
    assert Neighbors(Point(0, 0))[3] == Point(0, Size - 1);
    assert Neighbors(Point(Size - 1, Size - 1))[1] == Point(Size - 1, 0);
    assert Neighbors(Point(Size - 1, Size - 1))[2] == Point(0, Size - 1);
  }
}

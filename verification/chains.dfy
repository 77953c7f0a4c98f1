/** A chain of same-coloured stones with its liberties (`GoString` in board_type.js). */
module Chains {
  import opened Points
  import opened Players

  datatype Chain = Chain(color: Player, stones: set<Point>, liberties: set<Point>)

  /** `remove_liberty`: `p` stops being a liberty; nothing else changes. */
  function RemoveLiberty(c: Chain, p: Point): (r: Chain)
    ensures r.color == c.color && r.stones == c.stones
    ensures p !in r.liberties
    ensures forall q | q != p :: q in r.liberties <==> q in c.liberties
  {
    c.(liberties := c.liberties - {p})
  }

  /** `add_liberty`: `p` becomes a liberty; nothing else changes. */
  function AddLiberty(c: Chain, p: Point): (r: Chain)
    ensures r.color == c.color && r.stones == c.stones
    ensures p in r.liberties
    ensures forall q | q != p :: q in r.liberties <==> q in c.liberties
  {
    c.(liberties := c.liberties + {p})
  }

  /** Removing a liberty and adding it back restores the chain; both are idempotent. */
  lemma LibertyRoundTrip(c: Chain, p: Point)
    ensures p in c.liberties ==> AddLiberty(RemoveLiberty(c, p), p) == c
    ensures p !in c.liberties ==> RemoveLiberty(AddLiberty(c, p), p) == c
    ensures AddLiberty(AddLiberty(c, p), p) == AddLiberty(c, p)
    ensures RemoveLiberty(RemoveLiberty(c, p), p) == RemoveLiberty(c, p)
  {
  }

  /** `merge_with`: a new chain holding the stones of both; a liberty of either survives
      unless it is one of the combined stones. Callers must pass chains of one colour. */
  function MergeWith(a: Chain, b: Chain): (r: Chain)
    requires a.color == b.color
    ensures r.color == a.color
    ensures forall q :: q in r.stones <==> q in a.stones || q in b.stones
    ensures forall q :: q in r.liberties <==> (q in a.liberties || q in b.liberties) && q !in r.stones
  {
    var stones := a.stones + b.stones;
    Chain(a.color, stones, (a.liberties + b.liberties) - stones)
  }

  /** The merged chain never lists one of its own stones as a liberty. */
  lemma MergeLibertiesAreNotStones(a: Chain, b: Chain)
    requires a.color == b.color
    ensures MergeWith(a, b).liberties !! MergeWith(a, b).stones
  {
  }

  /** Merging is commutative and associative, so the order in which a placement merges
      its neighbouring chains does not matter. */
  lemma MergeOrderIrrelevant(a: Chain, b: Chain, c: Chain)
    requires a.color == b.color == c.color
    ensures MergeWith(a, b) == MergeWith(b, a)
    ensures MergeWith(MergeWith(a, b), c) == MergeWith(a, MergeWith(b, c))
  {
    var l := MergeWith(MergeWith(a, b), c);
    var r := MergeWith(a, MergeWith(b, c));
    assert l.stones == r.stones;
    assert l.liberties == r.liberties;
  }
}

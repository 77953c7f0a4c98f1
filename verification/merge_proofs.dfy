/** The merge pass of `place_stone`, on abstract chains: merging a chain with exact liberties
    into neighbouring chains whose liberties are exact up to the point `p` of the merged chain
    gives a chain with exact liberties. */
module MergeProofs {
  import opened Points
  import opened Chains
  import opened Boards
  import opened Placement

  /** Every listed chain's liberties are its empty neighbours plus `p`. */
  predicate ExactPlusPoint(chains: map<ChainId, Chain>, ids: seq<ChainId>, occupied: set<Point>, p: Point) {
    forall id | id in ids && id in chains ::
      && chains[id].liberties == EmptyAround(occupied, chains[id].stones) + {p}
      && chains[id].stones <= occupied
  }

  /** The merged chain's liberties are exactly the empty cells next to its stones. */
  lemma MergeExact(acc: Chain, chains: map<ChainId, Chain>, ids: seq<ChainId>, occupied: set<Point>, p: Point)
    requires forall id | id in ids :: id in chains && chains[id].color == acc.color
    requires acc.liberties == EmptyAround(occupied, acc.stones) && acc.stones <= occupied && p in acc.stones
    requires ExactPlusPoint(chains, ids, occupied, p)
    ensures var m := MergeAll(acc, chains, ids);
      m.liberties == EmptyAround(occupied, m.stones) && m.stones <= occupied
  {
    var m := MergeAll(acc, chains, ids);
    if ids != [] {
      forall q
        ensures q in m.liberties <==> q in EmptyAround(occupied, m.stones)
      {
        if q in EmptyAround(occupied, m.stones) {
          var t :| t in m.stones && q in Neighbors(t);
          if t !in acc.stones {
            var id :| id in ids && id in chains && t in chains[id].stones;
            assert q in chains[id].liberties;
          }
        }
        if q in LibertiesOf(chains, ids) && q !in m.stones {
          var id :| id in ids && id in chains && q in chains[id].liberties;
          assert q in EmptyAround(occupied, chains[id].stones) || q == p;
        }
      }
    }
  }
}

/** What `place_stone` guarantees on a well-formed board: the standard Go rule for which
    moves are accepted, the board unchanged on refusal, and on success the expected captures
    and a well-formed result. */
module PlacementProofs {
  import opened Points
  import opened Players
  import opened Chains
  import opened Boards
  import opened Placement
  import opened CaptureProofs
  import opened MergeProofs

  // Reference definitions, stated on the board before the move.

  /** Chains of `player`'s colour next to `p`. */
  ghost function SameIds(b: Board, player: Player, p: Point): set<ChainId>
    requires Closed(b)
  {
    set q | q in Neighbors(p) && q in b.grid && ColorAt(b, q) == player :: b.grid[q]
  }

  /** Chains of the other colour next to `p`. */
  ghost function OppIds(b: Board, player: Player, p: Point): set<ChainId>
    requires Closed(b)
  {
    set q | q in Neighbors(p) && q in b.grid && ColorAt(b, q) != player :: b.grid[q]
  }

  /** Chains of the other colour next to `p` whose only liberty is `p`. */
  ghost function CapturedIds(b: Board, player: Player, p: Point): set<ChainId>
    requires Closed(b)
  {
    set id | id in OppIds(b, player, p) && id in b.chains && b.chains[id].liberties == {p}
  }

  /** The stones a move at `p` captures. */
  ghost function Captured(b: Board, player: Player, p: Point): set<Point>
    requires Closed(b)
  {
    StonesOfIds(b, CapturedIds(b, player, p))
  }

  /** The legality rule of Go with capture before suicide: the cell is empty, and some
      neighbour is empty, or is the last liberty of an enemy chain (which gets captured), or
      belongs to a friendly chain that keeps another liberty. */
  predicate IsLegal(b: Board, player: Player, p: Point)
    requires Closed(b)
  {
    && p !in b.grid
    && exists q | q in Neighbors(p) ::
         || q !in b.grid
         || (ColorAt(b, q) != player && ChainAt(b, q).liberties == {p})
         || (ColorAt(b, q) == player && ChainAt(b, q).liberties != {p})
  }

  /** A move at an empty cell of a well-formed board. */
  predicate OpenCell(b: Board, p: Point) {
    WellFormed(b) && InRange(p) && p !in b.grid
  }

  // Facts about a well-formed board.

  lemma CellsOfChain(b: Board, c: ChainId)
    requires WellFormed(b) && c in b.chains
    ensures forall k | k in b.grid :: b.grid[k] == c <==> k in b.chains[c].stones
    ensures b.chains[c].stones <= b.grid.Keys
  {
  }

  lemma ScanSets(b: Board, player: Player, p: Point)
    requires Closed(b)
    ensures forall q :: q in Scan(b, player, p).liberties <==> q in Neighbors(p) && q !in b.grid
    ensures forall id :: id in Scan(b, player, p).same <==> id in SameIds(b, player, p)
    ensures forall id :: id in Scan(b, player, p).opposite <==> id in OppIds(b, player, p)
  {
    var h := Scan(b, player, p);
    forall id ensures id in h.same <==> id in SameIds(b, player, p) {
      if id in h.same {
        var q :| q in Neighbors(p) && q in b.grid && b.grid[q] == id && ColorAt(b, q) == player;
      }
    }
    forall id ensures id in h.opposite <==> id in OppIds(b, player, p) {
      if id in h.opposite {
        var q :| q in Neighbors(p) && q in b.grid && b.grid[q] == id && ColorAt(b, q) != player;
      }
    }
  }

  /** A chain next to `p` is in the arena, has the colour its side says, and counts `p`
      as a liberty. */
  lemma NeighborChain(b: Board, player: Player, p: Point, c: ChainId)
    requires OpenCell(b, p)
    requires c in SameIds(b, player, p) || c in OppIds(b, player, p)
    ensures c in b.chains
    ensures c in SameIds(b, player, p) <==> b.chains[c].color == player
    ensures c in OppIds(b, player, p) <==> b.chains[c].color != player
    ensures p in Around(b.chains[c].stones) && p in b.chains[c].liberties
  {
    var q :| q in Neighbors(p) && q in b.grid && b.grid[q] == c;
    NeighborSymmetric(p, q);
    assert q in b.chains[c].stones;
  }

  /** A chain that does not touch `p` has no stone next to `p`. */
  lemma FarChain(b: Board, player: Player, p: Point, c: ChainId)
    requires OpenCell(b, p) && c in b.chains
    requires c !in SameIds(b, player, p) && c !in OppIds(b, player, p)
    ensures p !in Around(b.chains[c].stones)
  {
    forall s | s in b.chains[c].stones && p in Neighbors(s)
      ensures false
    {
      NeighborSymmetric(p, s);
    }
  }

  /** Two different chains of one colour never touch. */
  lemma ChainsApart(b: Board, a: ChainId, c: ChainId)
    requires Closed(b) && StonesPointToChain(b) && SameColorConnected(b)
    requires a in b.chains && c in b.chains && a != c && b.chains[a].color == b.chains[c].color
    ensures b.chains[c].stones !! Around(b.chains[a].stones)
  {
    forall s | s in b.chains[c].stones
      ensures s !in Around(b.chains[a].stones)
    {
      forall t | t in b.chains[a].stones
        ensures s !in Neighbors(t)
      {
        NotTouching(b, t, s);
      }
    }
  }

  /** Stones of one colour in different chains are not neighbours. */
  lemma NotTouching(b: Board, t: Point, s: Point)
    requires Closed(b) && SameColorConnected(b)
    requires t in b.grid && s in b.grid && b.grid[t] != b.grid[s] && ColorAt(b, t) == ColorAt(b, s)
    ensures s !in Neighbors(t)
  {
  }

  /** Two different enemy chains next to `p` never touch. */
  lemma EnemiesApart(b: Board, player: Player, p: Point, a: ChainId, c: ChainId)
    requires OpenCell(b, p)
    requires a in OppIds(b, player, p) && c in OppIds(b, player, p) && a != c
    ensures b.chains[c].stones !! Around(b.chains[a].stones)
  {
    WellFormedParts(b);
    OppColor(b, player, p, a);
    OppColor(b, player, p, c);
    ChainsApart(b, a, c);
  }

  lemma OppColor(b: Board, player: Player, p: Point, a: ChainId)
    requires Closed(b) && a in OppIds(b, player, p)
    ensures a in b.chains && b.chains[a].color == Other(player)
  {
    var q :| q in Neighbors(p) && q in b.grid && ColorAt(b, q) != player && b.grid[q] == a;
  }

  lemma SameColor(b: Board, player: Player, p: Point, a: ChainId)
    requires Closed(b) && a in SameIds(b, player, p)
    ensures a in b.chains && b.chains[a].color == player
  {
    var q :| q in Neighbors(p) && q in b.grid && ColorAt(b, q) == player && b.grid[q] == a;
  }

  // The board after the stone is put down and before the capture pass.

  /** The new chain holds `p` with the empty neighbours as liberties; the other colour's
      chains next to `p` lose it as a liberty; every other chain is untouched. */
  lemma TentativeChains(b: Board, player: Player, p: Point)
    requires Closed(b)
    ensures var b2 := Tentative(b, player, p);
      && b2.chains[Fresh(b)] == Chain(player, {p}, set q | q in Scan(b, player, p).liberties)
      && forall c | c in b.chains ::
           b2.chains[c] == if c in Scan(b, player, p).opposite then RemoveLiberty(b.chains[c], p) else b.chains[c]
  {
    var h := Scan(b, player, p);
    assert Fresh(b) !in h.opposite;
  }

  /** Putting the stone down keeps the cells and the chains' stones in step. */
  lemma TentativeShape(b: Board, player: Player, p: Point)
    requires OnBoard(b) && Closed(b) && CellsInOwnChain(b) && StonesPointToChain(b)
    requires InRange(p) && p !in b.grid
    ensures var b2 := Tentative(b, player, p);
      OnBoard(b2) && Closed(b2) && CellsInOwnChain(b2) && StonesPointToChain(b2)
  {
    var b2 := Tentative(b, player, p);
    var f := Fresh(b);
    TentativeChains(b, player, p);
    forall k | k in b2.grid
      ensures k in b2.chains[b2.grid[k]].stones
    {
      if k != p {
        assert b2.grid[k] == b.grid[k] && b.grid[k] in b.chains;
      }
    }
    forall id, s | id in b2.chains && s in b2.chains[id].stones
      ensures s in b2.grid && b2.grid[s] == id
    {
      if id != f {
        assert s in b.chains[id].stones;
      }
    }
  }

  /** The new chain's liberties are the empty neighbours of `p`. */
  lemma FreshLiberties(b: Board, player: Player, p: Point)
    requires Closed(b) && InRange(p) && p !in b.grid
    ensures var b2 := Tentative(b, player, p);
      b2.chains[Fresh(b)].liberties == EmptyAround(b2.grid.Keys, {p})
  {
    var b2 := Tentative(b, player, p);
    TentativeChains(b, player, p);
    ScanSets(b, player, p);
    NeighborsShape(p);
    forall q ensures q in b2.chains[Fresh(b)].liberties <==> q in EmptyAround(b2.grid.Keys, {p}) {
      assert q in Around({p}) <==> q in Neighbors(p);
    }
  }

  /** The liberties of an old chain after the stone is put down, in terms of the board
      before: they lose `p` exactly when the chain is of the other colour. */
  lemma OldChainAfterPlacing(b: Board, player: Player, p: Point, c: ChainId)
    requires Closed(b) && p !in b.grid && c in b.chains
    requires b.chains[c].liberties == EmptyAround(b.grid.Keys, b.chains[c].stones)
    ensures var b2 := Tentative(b, player, p);
      var ea := EmptyAround(b2.grid.Keys, b.chains[c].stones);
      && (c in Scan(b, player, p).opposite ==> b2.chains[c].liberties == ea)
      && (c !in Scan(b, player, p).opposite && p in b.chains[c].liberties ==>
            b2.chains[c].liberties == ea + {p})
      && (c !in Scan(b, player, p).opposite && p !in b.chains[c].liberties ==>
            b2.chains[c].liberties == ea)
  {
    TentativeChains(b, player, p);
    EmptyAroundOccupy(b.grid.Keys, b.chains[c].stones, p);
    assert Tentative(b, player, p).grid.Keys == b.grid.Keys + {p};
  }

  /** Where a chain of a well-formed board stands relative to an empty cell `p`. */
  lemma ChainSide(b: Board, player: Player, p: Point, c: ChainId)
    requires OpenCell(b, p) && c in b.chains
    ensures c in Scan(b, player, p).opposite <==> c in OppIds(b, player, p)
    ensures c in OppIds(b, player, p) ==> c !in SameIds(b, player, p)
    ensures c in SameIds(b, player, p) ==> p in b.chains[c].liberties
    ensures c !in OppIds(b, player, p) && c !in SameIds(b, player, p) ==> p !in b.chains[c].liberties
    ensures b.chains[c].liberties == EmptyAround(b.grid.Keys, b.chains[c].stones)
  {
    ScanSets(b, player, p);
    if c in OppIds(b, player, p) {
      NeighborChain(b, player, p, c);
    } else if c in SameIds(b, player, p) {
      NeighborChain(b, player, p, c);
    } else {
      FarChain(b, player, p, c);
    }
  }

  /** A chain that was on the board keeps its exact liberties, counting `p` still for the
      chains of the mover's colour. */
  lemma OldLiberties(b: Board, player: Player, p: Point, c: ChainId)
    requires OpenCell(b, p) && c in b.chains
    ensures var b2 := Tentative(b, player, p);
      LibertiesFit(b2.chains[c].liberties, b2.grid.Keys, b.chains[c].stones, c in SameIds(b, player, p), p)
  {
    ChainSide(b, player, p, c);
    OldChainAfterPlacing(b, player, p, c);
  }

  /** Every chain after the stone is put down has exact liberties, counting `p` still for
      the chains of the mover's colour. */
  lemma TentativeLiberties(b: Board, player: Player, p: Point)
    requires OpenCell(b, p)
    ensures LibertiesUpTo(Tentative(b, player, p), SameIds(b, player, p), p)
  {
    var b2 := Tentative(b, player, p);
    forall c | c in b2.chains
      ensures LibertiesFit(b2.chains[c].liberties, b2.grid.Keys, b2.chains[c].stones, c in SameIds(b, player, p), p)
    {
      TentativeChains(b, player, p);
      if c == Fresh(b) {
        FreshLiberties(b, player, p);
        assert c !in SameIds(b, player, p);
      } else {
        OldLiberties(b, player, p, c);
      }
    }
  }

  /** The other colour's chains next to `p` are listed once each, none is of the mover's
      colour, and no two of them touch. */
  lemma TentativeOpponents(b: Board, player: Player, p: Point)
    requires OpenCell(b, p)
    ensures var b2 := Tentative(b, player, p);
      var opp := Scan(b, player, p).opposite;
      && NoDuplicates(opp)
      && (forall a | a in opp :: a in b2.chains && a !in SameIds(b, player, p))
      && Apart(b2, opp)
  {
    var b2 := Tentative(b, player, p);
    var opp := Scan(b, player, p).opposite;
    TentativeChains(b, player, p);
    forall a | a in opp
      ensures a in b.chains && a in OppIds(b, player, p) && a !in SameIds(b, player, p)
    {
      ChainSide(b, player, p, a);
      OppColor(b, player, p, a);
    }
    forall x, y | x in opp && y in opp && x != y && x in b2.chains && y in b2.chains
      ensures b2.chains[y].stones !! Around(b2.chains[x].stones)
    {
      EnemiesApart(b, player, p, x, y);
    }
  }

  /** The board is ready for the capture pass once the stone is down. */
  lemma TentativeReady(b: Board, player: Player, p: Point)
    requires OpenCell(b, p)
    ensures ReadyToCapture(Tentative(b, player, p), Scan(b, player, p).opposite, SameIds(b, player, p), p)
  {
    WellFormedParts(b);
    TentativeShape(b, player, p);
    TentativeLiberties(b, player, p);
    TentativeOpponents(b, player, p);
  }

  /** The chains the capture pass removes are the other colour's chains whose only liberty
      was `p`. */
  lemma DeadAreCaptured(b: Board, player: Player, p: Point)
    requires OpenCell(b, p)
    ensures Dead(Tentative(b, player, p), Scan(b, player, p).opposite) == CapturedIds(b, player, p)
    ensures StonesOfIds(Tentative(b, player, p), CapturedIds(b, player, p)) == Captured(b, player, p)
  {
    var b2 := Tentative(b, player, p);
    var opp := Scan(b, player, p).opposite;
    TentativeChains(b, player, p);
    ScanSets(b, player, p);
    forall a
      ensures a in Dead(b2, opp) <==> a in CapturedIds(b, player, p)
    {
      if a in OppIds(b, player, p) {
        NeighborChain(b, player, p, a);
        assert b2.chains[a].liberties == b.chains[a].liberties - {p};
      }
    }
    forall id | id in CapturedIds(b, player, p)
      ensures id in b.chains && b2.chains[id].stones == b.chains[id].stones
    {
      OppColor(b, player, p, id);
    }
  }

  // The board after the capture pass.

  /** After the capture pass, the captured chains have left the board and every other chain
      has exact liberties, counting `p` still for the chains of the mover's colour. */
  lemma SettledState(b: Board, player: Player, p: Point)
    requires OpenCell(b, p)
    ensures CaptureState(Tentative(b, player, p), Settled(b, player, p), CapturedIds(b, player, p),
                         SameIds(b, player, p), p)
  {
    TentativeReady(b, player, p);
    CaptureInvariant(Tentative(b, player, p), Scan(b, player, p).opposite, SameIds(b, player, p), p);
    DeadAreCaptured(b, player, p);
  }

  /** The cells after the capture pass: those of the board before, plus `p`, minus the
      captured stones. When nothing is captured the pass changes nothing. */
  lemma SettledGrid(b: Board, player: Player, p: Point)
    requires OpenCell(b, p)
    ensures Settled(b, player, p).grid == b.grid[p := Fresh(b)] - Captured(b, player, p)
    ensures CapturedIds(b, player, p) == {} ==> Settled(b, player, p) == Tentative(b, player, p)
  {
    SettledState(b, player, p);
    DeadAreCaptured(b, player, p);
    if CapturedIds(b, player, p) == {} {
      TentativeReady(b, player, p);
      NoDeadNoChange(Tentative(b, player, p), Settled(b, player, p), SameIds(b, player, p), p);
    }
  }

  /** The new chain's id is neither among the mover's chains next to `p` nor captured, and
      `p` is not a captured stone. */
  lemma FreshOutside(b: Board, player: Player, p: Point)
    requires Closed(b) && StonesPointToChain(b) && p !in b.grid
    ensures Fresh(b) !in CapturedIds(b, player, p) && Fresh(b) !in SameIds(b, player, p)
    ensures p !in Captured(b, player, p)
  {
  }

  /** The stones of a chain that is not among `ids` are not among their stones. */
  lemma OtherStones(b: Board, id: ChainId, ids: set<ChainId>)
    requires StonesPointToChain(b) && id in b.chains && id !in ids
    ensures b.chains[id].stones !! StonesOfIds(b, ids)
  {
    forall s | s in b.chains[id].stones
      ensures s !in StonesOfIds(b, ids)
    {
      assert b.grid[s] == id;
    }
  }

  /** A chain of the mover's colour next to `p` is not captured. */
  lemma FriendSurvives(b: Board, player: Player, p: Point, id: ChainId)
    requires OpenCell(b, p) && id in SameIds(b, player, p)
    ensures id in b.chains && id !in CapturedIds(b, player, p) && b.chains[id].color == player
    ensures b.chains[id].stones <= b.grid.Keys - Captured(b, player, p)
  {
    SameColor(b, player, p, id);
    ChainSide(b, player, p, id);
    FriendStones(b, player, p, id);
  }

  /** The stones of a chain that is not captured stay on the board. */
  lemma FriendStones(b: Board, player: Player, p: Point, id: ChainId)
    requires Closed(b) && StonesPointToChain(b) && id in b.chains && id !in CapturedIds(b, player, p)
    ensures b.chains[id].stones <= b.grid.Keys - Captured(b, player, p)
  {
    OtherStones(b, id, CapturedIds(b, player, p));
  }

  // The merge pass.

  /** After the capture pass, the new chain still holds only `p`, with the empty cells next
      to it as liberties. */
  lemma FreshSettled(b: Board, player: Player, p: Point)
    requires OpenCell(b, p)
    ensures var s := Settled(b, player, p);
      && p in s.grid
      && s.chains[Fresh(b)] == Chain(player, {p}, EmptyAround(s.grid.Keys, {p}))
  {
    WellFormedParts(b);
    SettledState(b, player, p);
    SettledGrid(b, player, p);
    TentativeChains(b, player, p);
    FreshOutside(b, player, p);
  }

  /** After the capture pass, a chain of the mover's colour next to `p` is unchanged in
      colour and stones, still on the board, and its liberties are exact plus `p`. */
  lemma FriendSettled(b: Board, player: Player, p: Point, id: ChainId)
    requires OpenCell(b, p) && id in SameIds(b, player, p)
    ensures var s := Settled(b, player, p);
      && id in s.chains && s.chains[id].color == player && s.chains[id].stones == b.chains[id].stones
      && s.chains[id].liberties == EmptyAround(s.grid.Keys, s.chains[id].stones) + {p}
      && s.chains[id].stones <= s.grid.Keys
  {
    SettledState(b, player, p);
    SettledGrid(b, player, p);
    TentativeChains(b, player, p);
    FriendSurvives(b, player, p, id);
  }

  /** After the capture pass, the mover's chains next to `p` are unchanged in colour and
      stones, and their liberties are exact plus `p`. */
  lemma FriendsSettled(b: Board, player: Player, p: Point)
    requires OpenCell(b, p)
    ensures var s := Settled(b, player, p);
      var same := Scan(b, player, p).same;
      && (forall id | id in same :: id in s.chains && s.chains[id].color == player
                                    && s.chains[id].stones == b.chains[id].stones)
      && ExactPlusPoint(s.chains, same, s.grid.Keys, p)
  {
    ScanSets(b, player, p);
    forall id | id in Scan(b, player, p).same
      ensures var s := Settled(b, player, p);
        && id in s.chains && s.chains[id].color == player && s.chains[id].stones == b.chains[id].stones
        && s.chains[id].liberties == EmptyAround(s.grid.Keys, s.chains[id].stones) + {p}
        && s.chains[id].stones <= s.grid.Keys
    {
      FriendSettled(b, player, p, id);
    }
  }

  /** The chain the new stone ends up in: `p` with the stones of the mover's chains next to
      it, and as liberties exactly the empty cells next to those stones. */
  lemma MergedChain(b: Board, player: Player, p: Point)
    requires OpenCell(b, p)
    ensures var m := Merged(b, player, p);
      && m.color == player
      && m.stones == {p} + StonesOfIds(b, SameIds(b, player, p))
      && m.liberties == EmptyAround(Settled(b, player, p).grid.Keys, m.stones)
      && m.stones <= Settled(b, player, p).grid.Keys
  {
    var s := Settled(b, player, p);
    var h := Scan(b, player, p);
    FreshSettled(b, player, p);
    FriendsSettled(b, player, p);
    ScanSets(b, player, p);
    MergeExact(s.chains[Fresh(b)], s.chains, h.same, s.grid.Keys, p);
    assert StonesOf(s.chains, h.same) == StonesOfIds(b, SameIds(b, player, p));
  }
}

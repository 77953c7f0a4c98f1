/** The promises of `place_stone` on a well-formed board: it accepts exactly the legal moves
    of Go (captures first, then no suicide), a refused move leaves the board as it was, and
    an accepted move leaves a well-formed board showing the stone and without the captured
    stones. */
module PlacementTheorems {
  import opened Points
  import opened Players
  import opened Chains
  import opened Boards
  import opened Placement
  import opened CaptureProofs
  import opened PlacementProofs
  import opened Outcomes

  /** The stones and liberties of the chain `p` ends up in, on the board after captures. */
  lemma MergedShape(b: Board, player: Player, p: Point)
    requires OpenCell(b, p)
    ensures var m := Merged(b, player, p);
      var k := Settled(b, player, p).grid.Keys;
      && k == (b.grid.Keys + {p}) - Captured(b, player, p)
      && m.stones == {p} + StonesOfIds(b, SameIds(b, player, p))
      && m.liberties == EmptyAround(k, m.stones)
  {
    MergedChain(b, player, p);
    SettledGrid(b, player, p);
  }

  /** An empty neighbour of `p` is a liberty of the merged chain. */
  lemma EmptyNeighborIsLiberty(b: Board, player: Player, p: Point, q: Point)
    requires OpenCell(b, p) && q in Neighbors(p) && q !in b.grid
    ensures q in Merged(b, player, p).liberties
  {
    MergedShape(b, player, p);
    NeighborsShape(p);
    FreshOutside(b, player, p);
  }

  /** A captured stone next to `p` is a liberty of the merged chain. */
  lemma CapturedNeighborIsLiberty(b: Board, player: Player, p: Point, q: Point)
    requires OpenCell(b, p) && q in Neighbors(p) && q in Captured(b, player, p)
    ensures q in Merged(b, player, p).liberties
  {
    MergedShape(b, player, p);
    NeighborsShape(p);
  }

  /** A liberty other than `p` of a friendly chain next to `p` is one of the merged chain. */
  lemma FriendLibertyIsLiberty(b: Board, player: Player, p: Point, c: ChainId, x: Point)
    requires OpenCell(b, p) && c in SameIds(b, player, p)
    requires x in b.chains[c].liberties && x != p
    ensures x in Merged(b, player, p).liberties
  {
    MergedShape(b, player, p);
    ChainSide(b, player, p, c);
    FriendSurvives(b, player, p, c);
  }

  /** The chain of a captured stone is an enemy chain next to `p`. */
  lemma CapturedStoneNearby(b: Board, player: Player, p: Point, x: Point)
    requires OpenCell(b, p) && x in Captured(b, player, p)
    ensures exists q | q in Neighbors(p) ::
      q in b.grid && ColorAt(b, q) != player && ChainAt(b, q).liberties == {p}
  {
    var d :| d in CapturedIds(b, player, p) && d in b.chains && x in b.chains[d].stones;
    var q :| q in Neighbors(p) && q in b.grid && ColorAt(b, q) != player && b.grid[q] == d;
  }

  /** A legal move leaves the new chain a liberty. */
  lemma LegalGivesLiberty(b: Board, player: Player, p: Point)
    requires OpenCell(b, p) && IsLegal(b, player, p)
    ensures Merged(b, player, p).liberties != {}
  {
    WellFormedParts(b);
    var q :| q in Neighbors(p) &&
      (|| q !in b.grid
       || (ColorAt(b, q) != player && ChainAt(b, q).liberties == {p})
       || (ColorAt(b, q) == player && ChainAt(b, q).liberties != {p}));
    if q !in b.grid {
      EmptyNeighborIsLiberty(b, player, p, q);
    } else if ColorAt(b, q) != player {
      var d := b.grid[q];
      assert d in CapturedIds(b, player, p);
      assert q in Captured(b, player, p);
      CapturedNeighborIsLiberty(b, player, p, q);
    } else {
      var c := b.grid[q];
      assert c in SameIds(b, player, p);
      ChainSide(b, player, p, c);
      var x :| x in b.chains[c].liberties && x != p;
      FriendLibertyIsLiberty(b, player, p, c, x);
    }
  }

  /** A liberty of a friendly chain next to `p`, other than `p`, makes the move legal. */
  lemma FriendLibertyMakesLegal(b: Board, player: Player, p: Point, c: ChainId, x: Point)
    requires OpenCell(b, p) && c in SameIds(b, player, p)
    requires x in Around(b.chains[c].stones) && x !in b.grid && x != p
    ensures IsLegal(b, player, p)
  {
    ChainSide(b, player, p, c);
    assert x in b.chains[c].liberties;
    var q :| q in Neighbors(p) && q in b.grid && ColorAt(b, q) == player && b.grid[q] == c;
    assert ChainAt(b, q).liberties != {p};
  }

  /** Where a liberty of the new chain comes from: a captured stone, or an empty cell next to
      `p` or next to a friendly chain beside `p`. */
  lemma LibertyOrigin(b: Board, player: Player, p: Point, x: Point)
    requires OpenCell(b, p) && x in Merged(b, player, p).liberties
    ensures || x in Captured(b, player, p)
            || (x !in b.grid && x in Neighbors(p))
            || (x !in b.grid && x != p &&
                exists c | c in SameIds(b, player, p) && c in b.chains :: x in Around(b.chains[c].stones))
  {
    var m := Merged(b, player, p);
    MergedShape(b, player, p);
    var t :| t in m.stones && x in Neighbors(t);
    if t != p {
      var c :| c in SameIds(b, player, p) && c in b.chains && t in b.chains[c].stones;
      assert x in Around(b.chains[c].stones);
    }
  }

  /** A liberty left to the new chain makes the move legal. */
  lemma LibertyGivesLegal(b: Board, player: Player, p: Point)
    requires OpenCell(b, p) && Merged(b, player, p).liberties != {}
    ensures IsLegal(b, player, p)
  {
    var x :| x in Merged(b, player, p).liberties;
    LibertyOrigin(b, player, p, x);
    if x in Captured(b, player, p) {
      CapturedStoneNearby(b, player, p, x);
    } else if x !in b.grid && x in Neighbors(p) {
    } else {
      var c :| c in SameIds(b, player, p) && c in b.chains && x in Around(b.chains[c].stones);
      FriendLibertyMakesLegal(b, player, p, c, x);
    }
  }

  /** `place_stone` accepts a move exactly when it is legal: the cell is empty and, after
      the enemy chains left without liberties are captured, the new chain has a liberty. */
  lemma PlaceStoneAcceptsLegal(b: Board, player: Player, p: Point)
    requires WellFormed(b) && InRange(p)
    ensures PlaceStone(b, player, p).0 <==> IsLegal(b, player, p)
  {
    if p !in b.grid {
      if Merged(b, player, p).liberties != {} {
        LibertyGivesLegal(b, player, p);
      } else if IsLegal(b, player, p) {
        LegalGivesLiberty(b, player, p);
      }
    }
  }

  // Refusal.

  /** A capture always leaves the new chain a liberty: the captured stone next to `p`. */
  lemma CaptureGivesLiberty(b: Board, player: Player, p: Point, d: ChainId)
    requires OpenCell(b, p) && d in CapturedIds(b, player, p)
    ensures Merged(b, player, p).liberties != {}
  {
    WellFormedParts(b);
    var q :| q in Neighbors(p) && q in b.grid && ColorAt(b, q) != player && b.grid[q] == d;
    assert q in b.chains[d].stones;
    assert q in Captured(b, player, p);
    CapturedNeighborIsLiberty(b, player, p, q);
  }

  /** Taking a stone just put at `p` off again, and giving `p` back to the chains `opp`,
      restores the board `b` the stone was put on. */
  lemma RollbackUndoes(b: Board, s: Board, opp: seq<ChainId>, p: Point, f: ChainId)
    requires Closed(b) && NoStrayChains(b) && p !in b.grid && f !in b.chains
    requires s.grid == b.grid[p := f] && s.chains.Keys == b.chains.Keys + {f}
    requires forall c | c in b.chains ::
      s.chains[c] == if c in opp then RemoveLiberty(b.chains[c], p) else b.chains[c]
    requires forall c | c in opp && c in b.chains :: p in b.chains[c].liberties
    ensures Rollback(s, opp, p) == b
  {
    var r := Rollback(s, opp, p);
    assert r.grid == b.grid;
    forall c | c in b.chains
      ensures c in r.chains && r.chains[c] == b.chains[c]
    {
    }
    assert r.chains == b.chains;
  }

  /** Undoing the tentative stone gives back the board before the move. */
  lemma RollbackRestores(b: Board, player: Player, p: Point)
    requires OpenCell(b, p)
    ensures Rollback(Tentative(b, player, p), Scan(b, player, p).opposite, p) == b
  {
    WellFormedParts(b);
    ScanSets(b, player, p);
    forall c | c in Scan(b, player, p).opposite && c in b.chains
      ensures p in b.chains[c].liberties
    {
      NeighborChain(b, player, p, c);
    }
    TentativeChains(b, player, p);
    RollbackUndoes(b, Tentative(b, player, p), Scan(b, player, p).opposite, p, Fresh(b));
  }

  /** A refused move leaves the board exactly as it was, and captured nothing. */
  lemma PlaceStoneRefusal(b: Board, player: Player, p: Point)
    requires WellFormed(b) && InRange(p)
    ensures !PlaceStone(b, player, p).0 ==> PlaceStone(b, player, p).1 == b
    ensures !PlaceStone(b, player, p).0 && p !in b.grid ==> CapturedIds(b, player, p) == {}
  {
    if p !in b.grid && Merged(b, player, p).liberties == {} {
      if d :| d in CapturedIds(b, player, p) {
        CaptureGivesLiberty(b, player, p, d);
      }
      SettledGrid(b, player, p);
      RollbackRestores(b, player, p);
    }
  }

  // Success.

  /** Registering the merged chain `m` under `f` on its stones. */
  lemma CommitShape(s: Board, f: ChainId, m: Chain, p: Point)
    requires Closed(s) && p in m.stones && m.stones <= s.grid.Keys
    ensures var r := Commit(s, f, m, p);
      && r.grid.Keys == s.grid.Keys
      && (forall k | k in r.grid :: r.grid[k] == if k in m.stones then f else s.grid[k])
      && f in r.chains && r.chains[f] == m
      && (forall c | c in r.chains && c != f :: c in s.chains && r.chains[c] == s.chains[c])
      && (forall c | c in r.chains && c != f :: exists k | k in s.grid && k !in m.stones :: s.grid[k] == c)
      && NoStrayChains(r)
  {
    var r := Commit(s, f, m, p);
    forall c | c in r.chains && c != f
      ensures exists k | k in s.grid && k !in m.stones :: s.grid[k] == c
    {
      var k :| k in r.grid && r.grid[k] == c;
    }
  }

  /** The chains after the capture pass, in terms of the board before the move. */
  lemma SettledChains(b: Board, player: Player, p: Point)
    requires OpenCell(b, p)
    ensures var s := Settled(b, player, p);
      forall c | c in b.chains ::
        c in s.chains && s.chains[c].color == b.chains[c].color && s.chains[c].stones == b.chains[c].stones
  {
    SettledState(b, player, p);
    TentativeChains(b, player, p);
  }

  /** After the capture pass, a surviving chain not of the mover's colour next to `p` has
      exact liberties. */
  lemma SettledLiberties(b: Board, player: Player, p: Point, c: ChainId)
    requires OpenCell(b, p) && c in b.chains && c !in CapturedIds(b, player, p) && c !in SameIds(b, player, p)
    ensures var s := Settled(b, player, p);
      c in s.chains && s.chains[c].liberties == EmptyAround(s.grid.Keys, b.chains[c].stones)
  {
    SettledState(b, player, p);
    TentativeChains(b, player, p);
  }

  /** A cell of a friendly chain next to `p` joins the new chain; so does `p`. */
  lemma FriendCellsMerge(b: Board, player: Player, p: Point)
    requires OpenCell(b, p)
    ensures p in Merged(b, player, p).stones
    ensures forall k | k in b.grid && b.grid[k] in SameIds(b, player, p) :: k in Merged(b, player, p).stones
  {
    WellFormedParts(b);
    MergedChain(b, player, p);
  }

  /** The cells holding one of the chains `ids` are exactly those chains' stones. */
  lemma CellsOfIds(b: Board, ids: set<ChainId>)
    requires Closed(b) && CellsInOwnChain(b) && StonesPointToChain(b)
    ensures forall k | k in b.grid && b.grid[k] in ids :: k in StonesOfIds(b, ids)
    ensures StonesOfIds(b, ids) <= b.grid.Keys
  {
    forall k | k in b.grid && b.grid[k] in ids
      ensures k in StonesOfIds(b, ids)
    {
      assert k in b.chains[b.grid[k]].stones;
    }
  }

  /** An accepted move commits the merged chain on the board after captures. */
  lemma AcceptedIsCommit(b: Board, player: Player, p: Point)
    requires Closed(b) && p !in b.grid && PlaceStone(b, player, p).0
    ensures Merged(b, player, p).liberties != {}
    ensures PlaceStone(b, player, p).1 == Commit(Settled(b, player, p), Fresh(b), Merged(b, player, p), p)
  {
  }

  /** The cells after an accepted move: those before, plus `p`, minus the captured stones;
      the new chain's stones hold its id, every other cell keeps its chain. */
  lemma AcceptedCells(b: Board, player: Player, p: Point)
    requires OpenCell(b, p) && PlaceStone(b, player, p).0
    ensures var r := PlaceStone(b, player, p).1;
      var m := Merged(b, player, p);
      && r.grid.Keys == (b.grid.Keys + {p}) - Captured(b, player, p)
      && forall k | k in r.grid :: r.grid[k] == if k in m.stones then Fresh(b) else b.grid[k]
  {
    AcceptedIsCommit(b, player, p);
    SettledGrid(b, player, p);
    MergedChain(b, player, p);
    CommitCells(b, Settled(b, player, p), Fresh(b), Merged(b, player, p), p, Captured(b, player, p));
  }

  /** The cells after committing `m` on a board that is `b` with `p` added and `cap` removed. */
  lemma CommitCells(b: Board, s: Board, f: ChainId, m: Chain, p: Point, cap: set<Point>)
    requires Closed(s) && p in m.stones && m.stones <= s.grid.Keys
    requires s.grid == b.grid[p := f] - cap
    ensures var r := Commit(s, f, m, p);
      && r.grid.Keys == (b.grid.Keys + {p}) - cap
      && forall k | k in r.grid :: r.grid[k] == if k in m.stones then f else b.grid[k]
  {
    CommitShape(s, f, m, p);
  }

  /** The chains after an accepted move: the merged chain under the new id, and every other
      chain one from before, neither captured nor of the mover's colour next to `p`, with
      its colour and stones. */
  lemma AcceptedChains(b: Board, player: Player, p: Point)
    requires OpenCell(b, p) && PlaceStone(b, player, p).0
    ensures var r := PlaceStone(b, player, p).1;
      && Fresh(b) in r.chains && r.chains[Fresh(b)] == Merged(b, player, p)
      && forall c | c in r.chains && c != Fresh(b) ::
           && c in b.chains && c !in CapturedIds(b, player, p) && c !in SameIds(b, player, p)
           && r.chains[c].color == b.chains[c].color && r.chains[c].stones == b.chains[c].stones
  {
    var r := PlaceStone(b, player, p).1;
    var s := Settled(b, player, p);
    var m := Merged(b, player, p);
    AcceptedCells(b, player, p);
    SettledGrid(b, player, p);
    MergedChain(b, player, p);
    CommitShape(s, Fresh(b), m, p);
    SettledChains(b, player, p);
    FriendCellsMerge(b, player, p);
    WellFormedParts(b);
    CellsOfIds(b, CapturedIds(b, player, p));
  }

  /** After an accepted move, a chain other than the new one has exact liberties. */
  lemma AcceptedLiberties(b: Board, player: Player, p: Point, c: ChainId)
    requires OpenCell(b, p) && PlaceStone(b, player, p).0
    requires c in PlaceStone(b, player, p).1.chains && c != Fresh(b)
    ensures var r := PlaceStone(b, player, p).1;
      r.chains[c].liberties == EmptyAround(r.grid.Keys, b.chains[c].stones)
  {
    var s := Settled(b, player, p);
    AcceptedChains(b, player, p);
    AcceptedIsCommit(b, player, p);
    MergedChain(b, player, p);
    CommitShape(s, Fresh(b), Merged(b, player, p), p);
    SettledLiberties(b, player, p, c);
  }

  /** After an accepted move, every chain other than the new one is one from before, not
      merged, with exact liberties and none of its stones captured. */
  lemma AcceptedOld(b: Board, player: Player, p: Point)
    requires OpenCell(b, p) && PlaceStone(b, player, p).0
    ensures OldChains(b, PlaceStone(b, player, p).1, Fresh(b), Captured(b, player, p), SameIds(b, player, p))
  {
    var r := PlaceStone(b, player, p).1;
    AcceptedChains(b, player, p);
    WellFormedParts(b);
    forall c | c in r.chains && c != Fresh(b)
      ensures r.chains[c].liberties == EmptyAround(r.grid.Keys, b.chains[c].stones)
      ensures b.chains[c].stones !! Captured(b, player, p)
    {
      AcceptedLiberties(b, player, p, c);
      OtherStones(b, c, CapturedIds(b, player, p));
    }
  }

  /** A stone belongs to the listed chains exactly when its cell points to one of them. */
  lemma CellInIds(b: Board, ids: set<ChainId>, k: Point)
    requires Closed(b) && CellsInOwnChain(b) && StonesPointToChain(b) && k in b.grid
    ensures k in StonesOfIds(b, ids) <==> b.grid[k] in ids
  {
    CellsOfIds(b, ids);
    if k in StonesOfIds(b, ids) {
      var c :| c in ids && c in b.chains && k in b.chains[c].stones;
    }
  }

  /** A set made of `p` and the stones of the chains `ids` holds a cell other than `p`
      exactly when the cell points to one of those chains. */
  lemma PointAndChains(b: Board, ids: set<ChainId>, p: Point, stones: set<Point>)
    requires Closed(b) && CellsInOwnChain(b) && StonesPointToChain(b) && p !in b.grid
    requires stones == {p} + StonesOfIds(b, ids)
    ensures forall k | k in b.grid :: k in stones <==> b.grid[k] in ids
  {
    forall k | k in b.grid
      ensures k in stones <==> b.grid[k] in ids
    {
      CellInIds(b, ids, k);
    }
  }

  /** A stone from before is in the new chain exactly when its chain was merged. */
  lemma JoinedCells(b: Board, player: Player, p: Point)
    requires OpenCell(b, p)
    ensures forall k | k in b.grid ::
      k in Merged(b, player, p).stones <==> b.grid[k] in SameIds(b, player, p)
  {
    WellFormedParts(b);
    MergedChain(b, player, p);
    PointAndChains(b, SameIds(b, player, p), p, Merged(b, player, p).stones);
  }

  /** The new chain holds `p` and exactly the cells of the mover's chains next to `p`. */
  lemma AcceptedJoined(b: Board, player: Player, p: Point)
    requires OpenCell(b, p)
    ensures Joined(b, player, p, Merged(b, player, p), SameIds(b, player, p))
  {
    JoinedCells(b, player, p);
    forall c | c in SameIds(b, player, p)
      ensures c in b.chains && b.chains[c].color == player
    {
      SameColor(b, player, p, c);
    }
  }

  /** An accepted move leaves the board the stone, its merges and its captures describe. */
  lemma AcceptedOutcome(b: Board, player: Player, p: Point)
    requires OpenCell(b, p) && PlaceStone(b, player, p).0
    ensures Outcome(b, PlaceStone(b, player, p).1, player, p, Fresh(b), Merged(b, player, p),
                    Captured(b, player, p), SameIds(b, player, p))
  {
    var s := Settled(b, player, p);
    WellFormedParts(b);
    CellsOfIds(b, CapturedIds(b, player, p));
    AcceptedIsCommit(b, player, p);
    AcceptedCells(b, player, p);
    AcceptedChains(b, player, p);
    MergedChain(b, player, p);
    CommitShape(s, Fresh(b), Merged(b, player, p), p);
    AcceptedJoined(b, player, p);
    AcceptedOld(b, player, p);
  }

  /** An accepted move leaves a well-formed board showing the mover's colour at `p`, the
      captured stones gone and every other cell as before. */
  lemma PlaceStoneSuccess(b: Board, player: Player, p: Point)
    requires WellFormed(b) && InRange(p) && PlaceStone(b, player, p).0
    ensures var r := PlaceStone(b, player, p).1;
      && WellFormed(r)
      && Colors(r) == (Colors(b) - Captured(b, player, p))[p := player]
      && |r.grid| == |b.grid| + 1 - |Captured(b, player, p)|
  {
    var r := PlaceStone(b, player, p).1;
    var m := Merged(b, player, p);
    var cap := Captured(b, player, p);
    var same := SameIds(b, player, p);
    AcceptedOutcome(b, player, p);
    OutcomeWellFormed(b, r, player, p, Fresh(b), m, cap, same);
    OutcomeColors(b, r, player, p, Fresh(b), m, cap, same);
    OutcomeSize(b, r, p, Fresh(b), m, cap);
  }

  // No chain is left without a liberty.

  /** A chain that is neither captured nor of the mover's colour next to `p` did not have
      `p` as its only liberty. */
  lemma NotOnlyP(b: Board, player: Player, p: Point, c: ChainId)
    requires OpenCell(b, p) && c in b.chains
    requires c !in SameIds(b, player, p) && c !in CapturedIds(b, player, p)
    ensures b.chains[c].liberties != {p}
  {
    ChainSide(b, player, p, c);
  }

  /** Filling `p` and emptying some cells keeps every liberty other than `p`. */
  lemma OtherLibertiesStay(before: set<Point>, after: set<Point>, stones: set<Point>, p: Point, gone: set<Point>)
    requires after == (before + {p}) - gone
    ensures EmptyAround(before, stones) - {p} <= EmptyAround(after, stones)
  {
  }

  /** A set with a member that is not just `{p}` has a member other than `p`. */
  lemma OtherThan<T>(s: set<T>, p: T)
    requires s != {} && s != {p}
    ensures s - {p} != {}
  {
    var x :| x in s;
    if x == p {
      assert exists z :: z in s && z != p;
    }
  }

  /** After an accepted move, an old chain still on the board keeps a liberty: one other
      than `p`, which stays empty. */
  lemma SurvivorKeepsLiberty(b: Board, player: Player, p: Point, c: ChainId)
    requires OpenCell(b, p) && AllHaveLiberties(b) && PlaceStone(b, player, p).0
    requires c in PlaceStone(b, player, p).1.chains && c != Fresh(b)
    ensures PlaceStone(b, player, p).1.chains[c].liberties != {}
  {
    var r := PlaceStone(b, player, p).1;
    AcceptedChains(b, player, p);
    AcceptedCells(b, player, p);
    AcceptedLiberties(b, player, p, c);
    ChainSide(b, player, p, c);
    NotOnlyP(b, player, p, c);
    var stones := b.chains[c].stones;
    OtherThan(b.chains[c].liberties, p);
    OtherLibertiesStay(b.grid.Keys, r.grid.Keys, stones, p, Captured(b, player, p));
  }

  /** `place_stone` never leaves a chain without a liberty: an accepted move captures the
      enemy chains it takes the last liberty of and is refused when its own chain would have
      none, and a refused move leaves the board as it was. */
  lemma PlaceStoneKeepsLiberties(b: Board, player: Player, p: Point)
    requires WellFormed(b) && InRange(p) && AllHaveLiberties(b)
    ensures AllHaveLiberties(PlaceStone(b, player, p).1)
  {
    var r := PlaceStone(b, player, p).1;
    if PlaceStone(b, player, p).0 {
      AcceptedIsCommit(b, player, p);
      AcceptedChains(b, player, p);
      forall c | c in r.chains
        ensures r.chains[c].liberties != {}
      {
        if c != Fresh(b) {
          SurvivorKeepsLiberty(b, player, p, c);
        }
      }
    } else {
      PlaceStoneRefusal(b, player, p);
    }
  }
}

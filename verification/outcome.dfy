/** The board an accepted move leaves, described against the board before: the new chain `m`
    under the fresh id `f` covers `p` and the cells of the mover's chains `same` next to `p`;
    the cells `cap` are gone; every other cell and chain is as it was. Such a board is
    well-formed. */
module Outcomes {
  import opened Points
  import opened Players
  import opened Chains
  import opened Boards

  /** The board before the move is in shape, and `p` is an empty cell of it. */
  predicate Before(b: Board, p: Point, f: ChainId, cap: set<Point>) {
    && OnBoard(b) && Closed(b) && CellsInOwnChain(b) && StonesPointToChain(b) && SameColorConnected(b)
    && InRange(p) && p !in b.grid && f !in b.chains && cap <= b.grid.Keys
  }

  /** The cells after the move: `p` added, `cap` removed, the stones of `m` under `f`, every
      other cell as before. */
  predicate NewCells(b: Board, r: Board, p: Point, f: ChainId, m: Chain, cap: set<Point>) {
    && r.grid.Keys == (b.grid.Keys + {p}) - cap
    && p in m.stones && m.stones <= r.grid.Keys
    && (forall k | k in r.grid && k in m.stones :: r.grid[k] == f)
    && (forall k | k in r.grid && k !in m.stones :: k in b.grid && r.grid[k] == b.grid[k])
  }

  /** The new chain is registered under `f`, has the mover's colour and exact liberties. */
  predicate NewChain(r: Board, player: Player, f: ChainId, m: Chain) {
    && f in r.chains && r.chains[f] == m
    && m.color == player
    && m.liberties == EmptyAround(r.grid.Keys, m.stones)
  }

  /** The new chain holds, besides `p`, exactly the cells of the chains `same`: the mover's
      chains, among them every one next to `p`. */
  predicate Joined(b: Board, player: Player, p: Point, m: Chain, same: set<ChainId>)
    requires Closed(b)
  {
    && (forall k | k in b.grid :: k in m.stones <==> b.grid[k] in same)
    && (forall c | c in same :: c in b.chains && b.chains[c].color == player)
    && (forall q | q in Neighbors(p) && q in b.grid && ColorAt(b, q) == player :: b.grid[q] in same)
  }

  /** Every other chain is one from before, not merged, unchanged but for its liberties,
      which are exact, and none of its stones was removed. */
  predicate OldChains(b: Board, r: Board, f: ChainId, cap: set<Point>, same: set<ChainId>) {
    forall c | c in r.chains && c != f ::
      && c in b.chains && c !in same
      && r.chains[c].color == b.chains[c].color && r.chains[c].stones == b.chains[c].stones
      && r.chains[c].liberties == EmptyAround(r.grid.Keys, b.chains[c].stones)
      && b.chains[c].stones !! cap
  }

  /** `r` is `b` after the stone at `p` merged the chains `same` into `m` and captured the
      stones `cap`. */
  predicate Outcome(b: Board, r: Board, player: Player, p: Point, f: ChainId, m: Chain,
                    cap: set<Point>, same: set<ChainId>)
  {
    && Before(b, p, f, cap) && Closed(r) && NoStrayChains(r)
    && NewCells(b, r, p, f, m, cap) && NewChain(r, player, f, m) && Joined(b, player, p, m, same)
    && OldChains(b, r, f, cap, same)
  }

  lemma OutcomeOnBoard(b: Board, r: Board, p: Point, f: ChainId, m: Chain, cap: set<Point>)
    requires Before(b, p, f, cap) && NewCells(b, r, p, f, m, cap)
    ensures OnBoard(r)
  {
  }

  lemma OutcomeCells(b: Board, r: Board, player: Player, p: Point, f: ChainId, m: Chain,
                     cap: set<Point>, same: set<ChainId>)
    requires Before(b, p, f, cap) && Closed(r) && NewCells(b, r, p, f, m, cap) && NewChain(r, player, f, m)
    requires OldChains(b, r, f, cap, same)
    ensures CellsInOwnChain(r)
  {
    forall k | k in r.grid
      ensures k in ChainAt(r, k).stones
    {
      if k !in m.stones {
        assert b.grid[k] in b.chains && k in b.chains[b.grid[k]].stones;
      }
    }
  }

  /** A stone of a chain that survives from before keeps pointing to it. */
  lemma OutcomeOldStone(b: Board, r: Board, player: Player, p: Point, f: ChainId, m: Chain,
                        cap: set<Point>, same: set<ChainId>, id: ChainId, s: Point)
    requires Before(b, p, f, cap) && NewCells(b, r, p, f, m, cap) && Joined(b, player, p, m, same)
    requires OldChains(b, r, f, cap, same)
    requires id in r.chains && id != f && s in b.chains[id].stones
    ensures s in r.grid && r.grid[s] == id
  {
    assert s in b.grid && b.grid[s] == id;
    assert s !in cap && s != p;
    assert s !in m.stones;
  }

  lemma OutcomeStones(b: Board, r: Board, player: Player, p: Point, f: ChainId, m: Chain,
                      cap: set<Point>, same: set<ChainId>)
    requires Before(b, p, f, cap) && NewCells(b, r, p, f, m, cap) && NewChain(r, player, f, m)
    requires Joined(b, player, p, m, same) && OldChains(b, r, f, cap, same)
    ensures StonesPointToChain(r)
  {
    forall id, s | id in r.chains && s in r.chains[id].stones
      ensures s in r.grid && r.grid[s] == id
    {
      if id != f {
        OutcomeOldStone(b, r, player, p, f, m, cap, same, id, s);
      }
    }
  }

  lemma OutcomeLiberties(b: Board, r: Board, player: Player, f: ChainId, m: Chain,
                         cap: set<Point>, same: set<ChainId>)
    requires NewChain(r, player, f, m) && OldChains(b, r, f, cap, same)
    ensures LibertiesExact(r)
  {
  }

  /** The colour of a cell after the move: the mover's on the new chain, as before elsewhere. */
  lemma OutcomeColor(b: Board, r: Board, player: Player, p: Point, f: ChainId, m: Chain,
                     cap: set<Point>, same: set<ChainId>, k: Point)
    requires Before(b, p, f, cap) && Closed(r) && NewCells(b, r, p, f, m, cap) && NewChain(r, player, f, m)
    requires Joined(b, player, p, m, same) && OldChains(b, r, f, cap, same)
    requires k in r.grid
    ensures k in m.stones ==> ColorAt(r, k) == player
    ensures k in m.stones && k != p ==> k in b.grid && ColorAt(b, k) == player
    ensures k !in m.stones ==> k != p && k in b.grid && ColorAt(r, k) == ColorAt(b, k)
  {
    if k in m.stones && k != p {
      assert b.grid[k] in same;
    }
  }

  /** A neighbour of a new-chain cell with the same colour is in the new chain too. */
  lemma OutcomeSameSide(b: Board, r: Board, player: Player, p: Point, f: ChainId, m: Chain,
                        cap: set<Point>, same: set<ChainId>, k: Point, q: Point)
    requires Before(b, p, f, cap) && Closed(r) && NewCells(b, r, p, f, m, cap) && NewChain(r, player, f, m)
    requires Joined(b, player, p, m, same) && OldChains(b, r, f, cap, same)
    requires k in r.grid && q in r.grid && q in Neighbors(k) && ColorAt(r, k) == ColorAt(r, q)
    requires k in m.stones
    ensures q in m.stones
  {
    OutcomeColor(b, r, player, p, f, m, cap, same, k);
    OutcomeColor(b, r, player, p, f, m, cap, same, q);
    if q != p {
      assert ColorAt(b, q) == player;
      if k != p {
        assert b.grid[k] == b.grid[q];
      }
      assert b.grid[q] in same;
    }
  }

  lemma OutcomeConnected(b: Board, r: Board, player: Player, p: Point, f: ChainId, m: Chain,
                         cap: set<Point>, same: set<ChainId>)
    requires Before(b, p, f, cap) && Closed(r) && NewCells(b, r, p, f, m, cap) && NewChain(r, player, f, m)
    requires Joined(b, player, p, m, same) && OldChains(b, r, f, cap, same)
    ensures SameColorConnected(r)
  {
    forall k, q | k in r.grid && q in Neighbors(k) && q in r.grid && ColorAt(r, k) == ColorAt(r, q)
      ensures r.grid[k] == r.grid[q]
    {
      OutcomeOnBoard(b, r, p, f, m, cap);
      NeighborSymmetric(k, q);
      if k in m.stones {
        OutcomeSameSide(b, r, player, p, f, m, cap, same, k, q);
      } else if q in m.stones {
        OutcomeSameSide(b, r, player, p, f, m, cap, same, q, k);
      } else {
        OutcomeColor(b, r, player, p, f, m, cap, same, k);
        OutcomeColor(b, r, player, p, f, m, cap, same, q);
      }
    }
  }

  /** The board an accepted move leaves is well-formed. */
  lemma OutcomeWellFormed(b: Board, r: Board, player: Player, p: Point, f: ChainId, m: Chain,
                          cap: set<Point>, same: set<ChainId>)
    requires Outcome(b, r, player, p, f, m, cap, same)
    ensures WellFormed(r)
  {
    OutcomeOnBoard(b, r, p, f, m, cap);
    OutcomeCells(b, r, player, p, f, m, cap, same);
    OutcomeStones(b, r, player, p, f, m, cap, same);
    OutcomeLiberties(b, r, player, f, m, cap, same);
    OutcomeConnected(b, r, player, p, f, m, cap, same);
  }

  /** Removing `cap` from `keys` and adding a new `p` changes the count by one less `|cap|`. */
  lemma CountAfter(keys: set<Point>, cap: set<Point>, p: Point)
    requires cap <= keys && p !in keys
    ensures |(keys + {p}) - cap| == |keys| + 1 - |cap|
  {
    assert (keys + {p}) - cap == (keys - cap) + {p};
    assert keys == (keys - cap) + cap;
  }

  /** One stone more, less the captured ones. */
  lemma OutcomeSize(b: Board, r: Board, p: Point, f: ChainId, m: Chain, cap: set<Point>)
    requires Before(b, p, f, cap) && NewCells(b, r, p, f, m, cap)
    ensures |r.grid| == |b.grid| + 1 - |cap|
  {
    CountAfter(b.grid.Keys, cap, p);
    assert |r.grid| == |r.grid.Keys|;
    assert |b.grid| == |b.grid.Keys|;
  }

  /** What a player sees after the move: the captured stones gone, the mover's colour at
      `p`, every other cell as before. */
  lemma OutcomeColors(b: Board, r: Board, player: Player, p: Point, f: ChainId, m: Chain,
                      cap: set<Point>, same: set<ChainId>)
    requires Before(b, p, f, cap) && Closed(r) && NewCells(b, r, p, f, m, cap) && NewChain(r, player, f, m)
    requires Joined(b, player, p, m, same) && OldChains(b, r, f, cap, same)
    ensures Colors(r) == (Colors(b) - cap)[p := player]
  {
    var want := (Colors(b) - cap)[p := player];
    assert want.Keys == Colors(r).Keys;
    forall k | k in r.grid
      ensures Colors(r)[k] == want[k]
    {
      OutcomeColor(b, r, player, p, f, m, cap, same, k);
    }
  }
}

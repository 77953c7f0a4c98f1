/** `GoString.deep_copy` and `Board.deep_copy` of board_type.js. */
module Copying {
  import opened Points
  import opened Chains
  import opened Boards

  /** `GoString.deep_copy`: a chain with the same colour, stones and liberties, so on values
      the copy is the identity. The source builds new sets so that later changes to the copy
      do not reach the original; that matters only for aliasing, which this model leaves out,
      since its values are never shared. */
  function CopyChain(c: Chain): (r: Chain)
    ensures r.color == c.color && r.stones == c.stones && r.liberties == c.liberties
  {
    Chain(c.color, c.stones, c.liberties)
  }

  /** The cells whose chain is one of `done`. */
  ghost function CellsOf(b: Board, done: set<ChainId>): set<Point> {
    set k | k in b.grid && b.grid[k] in done
  }

  /** The copy loop's step: chain `id` is added and every one of its stones points to it. */
  function AddCopy(r: Board, c: Chain, id: ChainId): Board {
    Board(map k | k in r.grid.Keys + c.stones :: if k in c.stones then id else r.grid[k],
          r.chains[id := c])
  }

  /** The step adds chain `id` and only that, and keeps every cell's chain present. */
  lemma AddCopyClosed(r: Board, c: Chain, id: ChainId)
    requires Closed(r)
    ensures Closed(AddCopy(r, c, id))
    ensures AddCopy(r, c, id).chains.Keys == r.chains.Keys + {id}
  {
  }

  /** Once every listed cell is copied, every occupied cell is. */
  lemma CopyCovers(b: Board, r: Board, order: seq<Point>)
    requires Closed(r) && r.grid.Keys <= b.grid.Keys
    requires forall j | 0 <= j < |order| :: order[j] in r.grid
    requires forall k | k in b.grid :: k in order
    ensures r.grid.Keys == b.grid.Keys
  {
    forall k | k in b.grid
      ensures k in r.grid
    {
      var j :| 0 <= j < |order| && order[j] == k;
    }
  }

  /** A chain named after the position of a cell in `order` that points to it is not stray. */
  lemma CopyNoStray(r: Board, order: seq<Point>)
    requires forall c | c in r.chains :: 0 <= c < |order| && order[c] in r.grid && r.grid[order[c]] == c
    ensures NoStrayChains(r)
  {
    forall c | c in r.chains
      ensures c in r.grid.Values
    {
      assert r.grid[order[c]] == c;
    }
  }

  /** Every cell of `r` is a cell of `b` with an equal chain behind it, and two cells share
      a chain in `r` exactly when they share one in `b`. */
  ghost predicate Agrees(r: Board, b: Board)
    requires Closed(r) && Closed(b)
  {
    && r.grid.Keys <= b.grid.Keys
    && (forall k | k in r.grid :: ChainAt(r, k) == ChainAt(b, k))
    && (forall k, q | k in r.grid && q in r.grid :: r.grid[k] == r.grid[q] <==> b.grid[k] == b.grid[q])
  }

  /** `r` copies the chains `done` of `b`: it holds exactly their cells. */
  ghost predicate Copied(b: Board, r: Board, done: set<ChainId>)
    requires Closed(b) && Closed(r)
  {
    r.grid.Keys == CellsOf(b, done) && Agrees(r, b)
  }

  /** The cells of a chain of `b` are exactly the cells that point to it. */
  predicate Tracked(b: Board)
    requires Closed(b)
  {
    CellsInOwnChain(b) && StonesPointToChain(b)
  }

  /** Copying one more chain extends the copy by exactly its cells, `k` among them, and
      leaves the cells already copied as they were. */
  lemma CopyStep(b: Board, r: Board, done: set<ChainId>, k: Point, id: ChainId)
    requires Closed(b) && Tracked(b) && Closed(r) && Copied(b, r, done)
    requires k in b.grid && k !in r.grid && id !in r.chains
    ensures var r' := AddCopy(r, CopyChain(ChainAt(b, k)), id);
      && Closed(r') && Copied(b, r', done + {b.grid[k]})
      && k in r'.grid && r'.grid[k] == id
      && (forall q | q in r.grid :: q in r'.grid && r'.grid[q] == r.grid[q])
  {
    var c := ChainAt(b, k);
    var r' := AddCopy(r, CopyChain(c), id);
    assert r'.grid.Keys == r.grid.Keys + c.stones;
    forall q | q in r.grid
      ensures q !in c.stones && r'.grid[q] == r.grid[q] && r.grid[q] != id
    {
      assert b.grid[q] in done;
    }
    forall q | q in b.grid
      ensures q in c.stones <==> b.grid[q] == b.grid[k]
    {
    }
    assert r'.grid.Keys == CellsOf(b, done + {b.grid[k]});
  }

  /** A complete copy keeps every chain's stones pointing at it. */
  lemma CopyTracked(b: Board, r: Board, done: set<ChainId>)
    requires Closed(b) && Tracked(b) && Closed(r) && NoStrayChains(r) && Copied(b, r, done)
    requires r.grid.Keys == b.grid.Keys
    ensures CellsInOwnChain(r) && StonesPointToChain(r)
  {
    forall c, s | c in r.chains && s in r.chains[c].stones
      ensures s in r.grid && r.grid[s] == c
    {
      var k :| k in r.grid && r.grid[k] == c;
      assert ChainAt(r, k) == ChainAt(b, k);
      assert s in b.chains[b.grid[k]].stones;
      assert s in b.grid && b.grid[s] == b.grid[k];
    }
    forall k | k in r.grid
      ensures k in ChainAt(r, k).stones
    {
      assert ChainAt(r, k) == ChainAt(b, k);
    }
  }

  /** A complete copy has exact liberties when the original has. */
  lemma CopyLiberties(b: Board, r: Board, done: set<ChainId>)
    requires Closed(b) && LibertiesExact(b) && Closed(r) && NoStrayChains(r) && Copied(b, r, done)
    requires r.grid.Keys == b.grid.Keys
    ensures LibertiesExact(r)
  {
    forall c | c in r.chains
      ensures r.chains[c].liberties == EmptyAround(r.grid.Keys, r.chains[c].stones)
    {
      var k :| k in r.grid && r.grid[k] == c;
      assert r.chains[c] == b.chains[b.grid[k]];
    }
  }

  /** A complete copy keeps same-coloured neighbours in one chain. */
  lemma CopyConnected(b: Board, r: Board, done: set<ChainId>)
    requires Closed(b) && SameColorConnected(b) && Closed(r) && Copied(b, r, done)
    requires r.grid.Keys == b.grid.Keys
    ensures SameColorConnected(r)
  {
  }

  /** A complete copy compares equal to the original. */
  lemma CopyEqual(b: Board, r: Board, done: set<ChainId>)
    requires Closed(b) && Closed(r) && Copied(b, r, done)
    requires r.grid.Keys == b.grid.Keys
    ensures IsEqualWith(r, b)
  {
    assert |r.grid| == |r.grid.Keys| && |b.grid| == |b.grid.Keys|;
  }

  /** A copy of every chain of a well-formed board is well formed and compares equal to it. */
  lemma CopyComplete(b: Board, r: Board, done: set<ChainId>)
    requires WellFormed(b) && Closed(r) && NoStrayChains(r) && Copied(b, r, done)
    requires r.grid.Keys == b.grid.Keys
    ensures WellFormed(r) && IsEqualWith(r, b)
  {
    WellFormedParts(b);
    CopyTracked(b, r, done);
    CopyLiberties(b, r, done);
    CopyConnected(b, r, done);
    CopyEqual(b, r, done);
  }

  /** What the copy loop keeps after visiting `order[..i]`: the copy is closed, and when
      `tracked` (the original's chains and cells agree) the copy holds exactly the chains of
      the visited cells, chain `c` being the one first met at `order[c]`. */
  ghost predicate CopyInv(b: Board, order: seq<Point>, i: nat, r: Board, done: set<ChainId>, tracked: bool)
    requires Closed(b)
  {
    && i <= |order|
    && Closed(r)
    && (tracked ==>
          && Tracked(b)
          && Copied(b, r, done)
          && (forall c | c in r.chains :: 0 <= c < i && order[c] in r.grid && r.grid[order[c]] == c)
          && (forall j | 0 <= j < i :: order[j] in r.grid))
  }

  /** Visiting a cell whose chain is not yet copied copies it under the next identity. */
  lemma CopyAdvance(b: Board, order: seq<Point>, i: nat, r: Board, done: set<ChainId>, tracked: bool)
    requires Closed(b) && CopyInv(b, order, i, r, done, tracked) && i < |order|
    requires order[i] in b.grid && order[i] !in r.grid
    ensures CopyInv(b, order, i + 1, AddCopy(r, CopyChain(b.chains[b.grid[order[i]]]), i),
                    done + {b.grid[order[i]]}, tracked)
  {
    var k := order[i];
    var c := CopyChain(b.chains[b.grid[k]]);
    AddCopyClosed(r, c, i);
    if tracked {
      CopyStep(b, r, done, k, i);
    }
  }

  /** Visiting a cell whose chain is already copied changes nothing. */
  lemma CopySkip(b: Board, order: seq<Point>, i: nat, r: Board, done: set<ChainId>, tracked: bool)
    requires Closed(b) && CopyInv(b, order, i, r, done, tracked) && i < |order| && order[i] in r.grid
    ensures CopyInv(b, order, i + 1, r, done, tracked)
  {
  }

  /** After the last cell, a copy of a well-formed board has its cells, its chains and its
      sharing. */
  lemma CopyFinished(b: Board, order: seq<Point>, r: Board, done: set<ChainId>)
    requires WellFormed(b) && CopyInv(b, order, |order|, r, done, true)
    requires forall k | k in b.grid :: k in order
    ensures r.grid.Keys == b.grid.Keys && Agrees(r, b)
    ensures WellFormed(r) && IsEqualWith(r, b)
  {
    CopyNoStray(r, order);
    CopyCovers(b, r, order);
    CopyComplete(b, r, done);
  }

  /** `Board.deep_copy`, visiting the occupied cells in `order` (the iteration order of the
      source's map); the chain copied at step `i` gets identity `i`. A cell whose chain was
      already copied is skipped. */
  method DeepCopy(b: Board, order: seq<Point>) returns (r: Board)
    requires Closed(b)
    requires forall j | 0 <= j < |order| :: order[j] in b.grid
    requires forall k | k in b.grid :: k in order
    ensures Closed(r)
    ensures WellFormed(b) ==> r.grid.Keys == b.grid.Keys && Agrees(r, b)
    ensures WellFormed(b) ==> WellFormed(r) && IsEqualWith(r, b)
  {
    r := Board(map[], map[]);
    ghost var done: set<ChainId> := {};
    ghost var tracked := CellsInOwnChain(b) && StonesPointToChain(b);
    var i := 0;
    while i < |order|
      invariant CopyInv(b, order, i, r, done, tracked)
    {
      if order[i] !in r.grid {
        CopyAdvance(b, order, i, r, done, tracked);
        r, done := AddCopy(r, CopyChain(b.chains[b.grid[order[i]]]), i), done + {b.grid[order[i]]};
      } else {
        CopySkip(b, order, i, r, done, tracked);
      }
      i := i + 1;
    }
    if WellFormed(b) {
      CopyFinished(b, order, r, done);
    }
  }
}

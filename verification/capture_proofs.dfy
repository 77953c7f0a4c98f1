/** The capture pass of `place_stone`, on an abstract board: when every chain's liberties are
    exact (up to one point for some chains) and the listed chains do not touch each other, the
    pass removes exactly the listed chains without liberties and keeps the liberties of the
    others exact. */
module CaptureProofs {
  import opened Points
  import opened Chains
  import opened Boards
  import opened Placement

  /** Union of the stones of the chains `ids`. */
  ghost function StonesOfIds(b: Board, ids: set<ChainId>): set<Point> {
    set id, s | id in ids && id in b.chains && s in b.chains[id].stones :: s
  }

  // Liberty algebra.

  lemma EmptyAroundOccupy(occupied: set<Point>, stones: set<Point>, x: Point)
    ensures EmptyAround(occupied + {x}, stones) == EmptyAround(occupied, stones) - {x}
  {
  }

  lemma EmptyAroundVacate(occupied: set<Point>, stones: set<Point>, gone: set<Point>)
    ensures EmptyAround(occupied - gone, stones) == EmptyAround(occupied, stones) + (gone * Around(stones))
  {
  }

  /** When the cells of `grid` holding chain `c` are exactly `cs`, the cells of `sa` that
      border chain `c` are the cells of `sa` next to `cs`. */
  lemma BorderingIsAdjacency(grid: map<Point, ChainId>, sa: set<Point>, cs: set<Point>, c: ChainId)
    requires forall k | k in grid :: grid[k] == c <==> k in cs
    requires cs <= grid.Keys
    requires forall s | s in sa :: InRange(s)
    requires forall s | s in cs :: InRange(s)
    ensures Bordering(grid, sa, c) == sa * Around(cs)
  {
    forall s | s in sa
      ensures s in Bordering(grid, sa, c) <==> s in Around(cs)
    {
      if s in Bordering(grid, sa, c) {
        var nb :| nb in Neighbors(s) && nb in grid && grid[nb] == c;
        NeighborSymmetric(s, nb);
      }
      if s in Around(cs) {
        var t :| t in cs && s in Neighbors(t);
        NeighborSymmetric(s, t);
      }
    }
  }

  // The capture pass on an abstract board.

  /** `liberties` are the empty cells next to `stones`, plus `p` when `extra` holds. */
  predicate LibertiesFit(liberties: set<Point>, occupied: set<Point>, stones: set<Point>, extra: bool, p: Point) {
    if extra then liberties == EmptyAround(occupied, stones) + {p}
    else liberties == EmptyAround(occupied, stones)
  }

  /** Each chain's liberties are its empty neighbours, plus `p` for the chains in `bonus`. */
  predicate LibertiesUpTo(b: Board, bonus: set<ChainId>, p: Point) {
    forall c | c in b.chains ::
      LibertiesFit(b.chains[c].liberties, b.grid.Keys, b.chains[c].stones, c in bonus, p)
  }

  /** No two listed chains touch. */
  predicate Apart(b: Board, ids: seq<ChainId>) {
    forall x, y | x in ids && y in ids && x != y && x in b.chains && y in b.chains ::
      b.chains[y].stones !! Around(b.chains[x].stones)
  }

  /** What the capture pass needs of the board it starts from. */
  predicate ReadyToCapture(b: Board, opp: seq<ChainId>, bonus: set<ChainId>, p: Point) {
    && OnBoard(b) && Closed(b) && CellsInOwnChain(b) && StonesPointToChain(b)
    && LibertiesUpTo(b, bonus, p)
    && NoDuplicates(opp)
    && (forall a | a in opp :: a in b.chains && a !in bonus)
    && Apart(b, opp)
  }

  /** The listed chains with no liberty left. */
  ghost function Dead(b: Board, ids: seq<ChainId>): set<ChainId> {
    set a | a in ids && a in b.chains && b.chains[a].liberties == {}
  }

  /** The cells holding a chain that is not among `gone` are that chain's stones, also after the
      stones of the chains `gone` have been taken off. */
  lemma TracksAfterRemoval(b: Board, gone: set<ChainId>, c: ChainId)
    requires Closed(b) && CellsInOwnChain(b) && StonesPointToChain(b)
    requires c in b.chains && c !in gone
    ensures var g := b.grid - StonesOfIds(b, gone);
      && (forall k | k in g :: g[k] == c <==> k in b.chains[c].stones)
      && b.chains[c].stones <= g.Keys
  {
    forall k | k in StonesOfIds(b, gone)
      ensures k in b.grid && b.grid[k] in gone
    {
      var id :| id in gone && id in b.chains && k in b.chains[id].stones;
    }
  }

  /** The board `r` is `b` with the chains `dead` taken off, and every chain still on it has
      exact liberties (plus `p` for the chains in `bonus`). */
  ghost predicate CaptureState(b: Board, r: Board, dead: set<ChainId>, bonus: set<ChainId>, p: Point) {
    && r.grid == b.grid - StonesOfIds(b, dead)
    && r.chains.Keys == b.chains.Keys
    && (forall c | c in r.chains ::
          r.chains[c].color == b.chains[c].color && r.chains[c].stones == b.chains[c].stones)
    && (forall c | c in b.chains && c !in dead ::
          LibertiesFit(r.chains[c].liberties, r.grid.Keys, b.chains[c].stones, c in bonus, p))
  }

  /** Taking chains that do not touch `a` off the board leaves `a`'s liberties as they were. */
  lemma UntouchedLiberties(b: Board, r: Board, dead: set<ChainId>, bonus: set<ChainId>, p: Point, a: ChainId)
    requires LibertiesUpTo(b, bonus, p) && CaptureState(b, r, dead, bonus, p)
    requires a in b.chains && a !in dead && a !in bonus
    requires forall d | d in dead && d in b.chains :: b.chains[d].stones !! Around(b.chains[a].stones)
    ensures r.chains[a].liberties == b.chains[a].liberties
  {
    var sa := b.chains[a].stones;
    var x0 := StonesOfIds(b, dead);
    forall s | s in x0
      ensures s !in Around(sa)
    {
      var id :| id in dead && id in b.chains && s in b.chains[id].stones;
    }
    EmptyAroundVacate(b.grid.Keys, sa, x0);
  }

  /** A chain that stays on the board gains, as liberties, the removed stones next to it. */
  lemma SurvivorAfterRemoval(b: Board, r: Board, dead: set<ChainId>, bonus: set<ChainId>, p: Point, a: ChainId, c: ChainId)
    requires OnBoard(b) && Closed(b) && CellsInOwnChain(b) && StonesPointToChain(b)
    requires CaptureState(b, r, dead, bonus, p)
    requires a in b.chains && a !in dead && c in b.chains && c !in dead && c != a
    ensures LibertiesFit(RemoveString(r, a).chains[c].liberties, RemoveString(r, a).grid.Keys,
                         b.chains[c].stones, c in bonus, p)
  {
    var r1 := RemoveString(r, a);
    var sa := b.chains[a].stones;
    var cs := b.chains[c].stones;
    TracksAfterRemoval(b, dead, c);
    BorderingIsAdjacency(r.grid, sa, cs, c);
    EmptyAroundVacate(r.grid.Keys, cs, sa);
    assert r1.grid.Keys == r.grid.Keys - sa;
    assert r1.chains[c].liberties == r.chains[c].liberties + Bordering(r.grid, sa, c);
  }

  /** Removing one more chain keeps the capture state. */
  lemma RemoveKeepsState(b: Board, r: Board, dead: set<ChainId>, bonus: set<ChainId>, p: Point, a: ChainId)
    requires OnBoard(b) && Closed(b) && CellsInOwnChain(b) && StonesPointToChain(b)
    requires CaptureState(b, r, dead, bonus, p)
    requires a in b.chains && a !in dead
    ensures CaptureState(b, RemoveString(r, a), dead + {a}, bonus, p)
  {
    var r1 := RemoveString(r, a);
    assert StonesOfIds(b, dead + {a}) == StonesOfIds(b, dead) + b.chains[a].stones;
    forall c | c in b.chains && c !in dead + {a}
      ensures LibertiesFit(r1.chains[c].liberties, r1.grid.Keys, b.chains[c].stones, c in bonus, p)
    {
      SurvivorAfterRemoval(b, r, dead, bonus, p, a, c);
    }
  }

  /** One more listed chain joins the dead ones exactly when it has no liberty. */
  lemma DeadStep(b: Board, s: seq<ChainId>)
    requires s != [] && s[|s| - 1] in b.chains
    ensures b.chains[s[|s| - 1]].liberties == {} ==> Dead(b, s) == Dead(b, s[..|s| - 1]) + {s[|s| - 1]}
    ensures b.chains[s[|s| - 1]].liberties != {} ==> Dead(b, s) == Dead(b, s[..|s| - 1])
  {
    assert s == s[..|s| - 1] + [s[|s| - 1]];
  }

  /** Dropping the last listed chain keeps the board ready; that chain is not among the others
      and touches none of them. */
  lemma ReadyPrefix(b: Board, s: seq<ChainId>, bonus: set<ChainId>, p: Point)
    requires ReadyToCapture(b, s, bonus, p) && s != []
    ensures ReadyToCapture(b, s[..|s| - 1], bonus, p)
    ensures s[|s| - 1] in b.chains && s[|s| - 1] !in bonus && s[|s| - 1] !in Dead(b, s[..|s| - 1])
    ensures forall d | d in Dead(b, s[..|s| - 1]) && d in b.chains ::
      b.chains[d].stones !! Around(b.chains[s[|s| - 1]].stones)
  {
    var pre := s[..|s| - 1];
    var a := s[|s| - 1];
    assert a !in pre;
    forall d | d in Dead(b, pre) && d in b.chains
      ensures b.chains[d].stones !! Around(b.chains[a].stones)
    {
      assert d in s && d != a;
    }
  }

  /** Before the pass, the board is in the capture state with nothing removed. */
  lemma NothingCaptured(b: Board, bonus: set<ChainId>, p: Point)
    requires LibertiesUpTo(b, bonus, p)
    ensures Dead(b, []) == {}
    ensures CaptureState(b, b, {}, bonus, p)
  {
    assert StonesOfIds(b, {}) == {};
    assert b.grid - {} == b.grid;
  }

  /** One step of the capture pass keeps the capture state. */
  lemma CaptureAdvance(b: Board, s: seq<ChainId>, bonus: set<ChainId>, p: Point)
    requires OnBoard(b) && Closed(b) && CellsInOwnChain(b) && StonesPointToChain(b)
    requires LibertiesUpTo(b, bonus, p)
    requires s != [] && forall id | id in s :: id in b.chains
    requires var a := s[|s| - 1];
      && a !in bonus && a !in Dead(b, s[..|s| - 1])
      && forall d | d in Dead(b, s[..|s| - 1]) && d in b.chains ::
           b.chains[d].stones !! Around(b.chains[a].stones)
    requires CaptureState(b, Capture(b, s[..|s| - 1]), Dead(b, s[..|s| - 1]), bonus, p)
    ensures CaptureState(b, Capture(b, s), Dead(b, s), bonus, p)
  {
    var pre := s[..|s| - 1];
    var a := s[|s| - 1];
    var r0 := Capture(b, pre);
    var dead0 := Dead(b, pre);
    UntouchedLiberties(b, r0, dead0, bonus, p, a);
    DeadStep(b, s);
    if b.chains[a].liberties == {} {
      assert Capture(b, s) == RemoveString(r0, a);
      RemoveKeepsState(b, r0, dead0, bonus, p, a);
    } else {
      assert r0.chains[a].liberties != {};
      assert Capture(b, s) == r0;
    }
  }

  /** The capture pass, chain by chain: the listed chains that had no liberty have left the
      board, and every other chain's liberties are its empty neighbours (plus `p` for the
      chains in `bonus`). */
  lemma {:induction false} CaptureInvariant(b: Board, s: seq<ChainId>, bonus: set<ChainId>, p: Point)
    requires ReadyToCapture(b, s, bonus, p)
    ensures CaptureState(b, Capture(b, s), Dead(b, s), bonus, p)
    decreases |s|
  {
    if s == [] {
      NothingCaptured(b, bonus, p);
    } else {
      ReadyPrefix(b, s, bonus, p);
      CaptureInvariant(b, s[..|s| - 1], bonus, p);
      CaptureAdvance(b, s, bonus, p);
    }
  }

  /** When no chain was removed the capture pass changed nothing. */
  lemma NoDeadNoChange(b: Board, r: Board, bonus: set<ChainId>, p: Point)
    requires LibertiesUpTo(b, bonus, p) && CaptureState(b, r, {}, bonus, p)
    ensures r == b
  {
    assert StonesOfIds(b, {}) == {};
    assert r.grid == b.grid;
    forall c | c in b.chains
      ensures r.chains[c] == b.chains[c]
    {
    }
    assert r.chains == b.chains;
  }
}

/** The board of board_type.js: each occupied cell maps to the chain that holds it.
    Chains are kept in an arena so that several cells can share one chain, as the source
    shares one `GoString` object between the cells of a chain. */
module Boards {
  import opened Points
  import opened Players
  import opened Chains

  /** Identity of a chain object. */
  type ChainId = nat

  /** `grid` maps each occupied cell to the identity of its chain, and `chains` holds the
      chain behind each identity. */
  datatype Board = Board(grid: map<Point, ChainId>, chains: map<ChainId, Chain>)

  /** The board a new game starts from. */
  function EmptyBoard(): (b: Board)
    ensures b.grid == map[]
  {
    Board(map[], map[])
  }

  /** Every cell's chain exists. This always holds in the source, where the map holds the
      chain objects themselves. */
  predicate Closed(b: Board) {
    forall k | k in b.grid :: b.grid[k] in b.chains
  }

  function ChainAt(b: Board, k: Point): Chain
    requires Closed(b) && k in b.grid
  {
    b.chains[b.grid[k]]
  }

  function ColorAt(b: Board, k: Point): Player
    requires Closed(b) && k in b.grid
  {
    ChainAt(b, k).color
  }

  /** What a player sees: the colour on each occupied cell. */
  function Colors(b: Board): (m: map<Point, Player>)
    requires Closed(b)
    ensures m.Keys == b.grid.Keys
  {
    map k | k in b.grid :: ColorAt(b, k)
  }

  /** The empty cells next to `stones`, given the set of occupied cells. */
  function EmptyAround(occupied: set<Point>, stones: set<Point>): set<Point> {
    set q | q in Around(stones) && q !in occupied
  }

  // The parts of the board invariant.

  predicate OnBoard(b: Board) {
    forall k | k in b.grid :: InRange(k)
  }

  /** Every chain in the arena is the chain of some cell. */
  predicate NoStrayChains(b: Board) {
    forall id | id in b.chains :: id in b.grid.Values
  }

  /** Every cell belongs to its own chain's stones. */
  predicate CellsInOwnChain(b: Board)
    requires Closed(b)
  {
    forall k | k in b.grid :: k in ChainAt(b, k).stones
  }

  /** All stones of a chain map to that chain. */
  predicate StonesPointToChain(b: Board) {
    forall id, s | id in b.chains && s in b.chains[id].stones :: s in b.grid && b.grid[s] == id
  }

  /** A chain's liberties are exactly the empty neighbours of its stones. */
  predicate LibertiesExact(b: Board) {
    forall id | id in b.chains :: b.chains[id].liberties == EmptyAround(b.grid.Keys, b.chains[id].stones)
  }

  /** Orthogonally adjacent stones of one colour share a chain. */
  predicate SameColorConnected(b: Board)
    requires Closed(b)
  {
    forall k, q | k in b.grid && q in Neighbors(k) && q in b.grid && ColorAt(b, k) == ColorAt(b, q) ::
      b.grid[k] == b.grid[q]
  }

  predicate WellFormed(b: Board) {
    && OnBoard(b)
    && Closed(b)
    && NoStrayChains(b)
    && CellsInOwnChain(b)
    && StonesPointToChain(b)
    && LibertiesExact(b)
    && SameColorConnected(b)
  }

  /** The parts of the invariant, as separate facts. */
  lemma WellFormedParts(b: Board)
    requires WellFormed(b)
    ensures OnBoard(b) && Closed(b) && NoStrayChains(b) && CellsInOwnChain(b)
    ensures StonesPointToChain(b) && LibertiesExact(b) && SameColorConnected(b)
  {
  }

  /** Every chain on the board has a liberty. The rules of Go never leave a chain without
      one: it is captured, or the move that would leave it so is refused. */
  predicate AllHaveLiberties(b: Board) {
    forall c | c in b.chains :: b.chains[c].liberties != {}
  }

  /** The empty board is well formed, and vacuously no chain on it lacks a liberty. */
  lemma EmptyBoardWellFormed()
    ensures WellFormed(EmptyBoard()) && AllHaveLiberties(EmptyBoard())
  {
  }

  /** `isEqualWith`: the same number of occupied cells, and every cell occupied here is
      occupied there by a stone of the same colour. */
  predicate IsEqualWith(a: Board, other: Board)
    requires Closed(a) && Closed(other)
  {
    && |a.grid| == |other.grid|
    && forall k | k in a.grid :: k in other.grid && ColorAt(other, k) == ColorAt(a, k)
  }

  lemma {:induction false} SubsetSize<T>(a: set<T>, b: set<T>)
    requires a <= b
    ensures |a| <= |b|
    ensures |a| == |b| ==> a == b
    decreases a
  {
    if a != {} {
      var x :| x in a;
      SubsetSize(a - {x}, b - {x});
    } else if b != {} {
      var y :| y in b;
    }
  }

  /** Two boards compare equal exactly when they show the same colours on the same cells;
      which cells share a chain, and the liberty sets, play no part. */
  lemma IsEqualWithMeansSameColors(a: Board, b: Board)
    requires Closed(a) && Closed(b)
    ensures IsEqualWith(a, b) <==> Colors(a) == Colors(b)
  {
    assert |a.grid| == |a.grid.Keys| && |b.grid| == |b.grid.Keys|;
    if IsEqualWith(a, b) {
      SubsetSize(a.grid.Keys, b.grid.Keys);
    }
    if Colors(a) == Colors(b) {
      assert a.grid.Keys == b.grid.Keys;
      forall k | k in a.grid
        ensures k in b.grid && ColorAt(b, k) == ColorAt(a, k)
      {
        assert Colors(a)[k] == Colors(b)[k];
      }
    }
  }

  /** Board comparison is an equivalence relation. */
  lemma IsEqualWithEquivalence(a: Board, b: Board, c: Board)
    requires Closed(a) && Closed(b) && Closed(c)
    ensures IsEqualWith(a, a)
    ensures IsEqualWith(a, b) ==> IsEqualWith(b, a)
    ensures IsEqualWith(a, b) && IsEqualWith(b, c) ==> IsEqualWith(a, c)
  {
    IsEqualWithMeansSameColors(a, a);
    IsEqualWithMeansSameColors(a, b);
    IsEqualWithMeansSameColors(b, a);
    IsEqualWithMeansSameColors(b, c);
    IsEqualWithMeansSameColors(a, c);
  }
}

/** `Board.place_stone` and `Board._remove_string` of board_type.js, step by step. */
module Placement {
  import opened Points
  import opened Players
  import opened Chains
  import opened Boards

  predicate NoDuplicates<T(==)>(s: seq<T>) {
    forall i, j | 0 <= i < j < |s| :: s[i] != s[j]
  }

  /** What the neighbour scan collects: the empty neighbours, and, without repetition and in
      order of first sight, the chains of the player's colour and of the other colour. */
  datatype Neighborhood = Neighborhood(liberties: seq<Point>, same: seq<ChainId>, opposite: seq<ChainId>)

  /** The neighbour scan of `place_stone` over the cells `nbs`. */
  function Classify(b: Board, player: Player, nbs: seq<Point>): (h: Neighborhood)
    requires Closed(b)
    ensures forall q :: q in h.liberties <==> q in nbs && q !in b.grid
    ensures forall id :: id in h.same <==>
      exists q :: q in nbs && q in b.grid && b.grid[q] == id && ColorAt(b, q) == player
    ensures forall id :: id in h.opposite <==>
      exists q :: q in nbs && q in b.grid && b.grid[q] == id && ColorAt(b, q) != player
    ensures NoDuplicates(h.same) && NoDuplicates(h.opposite)
  {
    if nbs == [] then Neighborhood([], [], [])
    else
      var h := Classify(b, player, nbs[..|nbs| - 1]);
      var q := nbs[|nbs| - 1];
      assert forall r :: r in nbs <==> r in nbs[..|nbs| - 1] || r == q;
      if q !in b.grid then h.(liberties := h.liberties + [q])
      else if ColorAt(b, q) == player then
        if b.grid[q] in h.same then h else h.(same := h.same + [b.grid[q]])
      else
        if b.grid[q] in h.opposite then h else h.(opposite := h.opposite + [b.grid[q]])
  }

  /** The least identity at or above `n` that `ids` does not use. */
  function FreshFrom(ids: set<ChainId>, n: nat): (r: ChainId)
    ensures r !in ids && n <= r
    ensures forall k | n <= k < r :: k in ids
    decreases set k | k in ids && k >= n
  {
    if n !in ids then n
    else
      var above, atOrAbove := set k | k in ids && k >= n + 1, set k | k in ids && k >= n;
      assert n in atOrAbove && n !in above;
      assert above < atOrAbove;
      FreshFrom(ids, n + 1)
  }

  /** Identity for a newly created chain object: one no chain of the board uses. */
  function Fresh(b: Board): (f: ChainId)
    ensures f !in b.chains
  {
    FreshFrom(b.chains.Keys, 0)
  }

  /** The cells of `stones` next to a cell that `grid` assigns to chain `id`. */
  function Bordering(grid: map<Point, ChainId>, stones: set<Point>, id: ChainId): set<Point> {
    set s | s in stones && exists nb :: nb in Neighbors(s) && nb in grid && grid[nb] == id
  }

  /** `_remove_string`: the stones of chain `id` leave the board, and each becomes a
      liberty of every other chain that borders it. */
  function RemoveString(b: Board, id: ChainId): (r: Board)
    requires id in b.chains
    ensures r.grid.Keys == b.grid.Keys - b.chains[id].stones
    ensures forall k | k in r.grid :: r.grid[k] == b.grid[k]
    ensures r.chains.Keys == b.chains.Keys && r.chains[id] == b.chains[id]
    ensures forall c | c in r.chains ::
      r.chains[c].color == b.chains[c].color && r.chains[c].stones == b.chains[c].stones
      && b.chains[c].liberties <= r.chains[c].liberties
  {
    var stones := b.chains[id].stones;
    Board(b.grid - stones,
          map c | c in b.chains ::
            if c == id then b.chains[c]
            else b.chains[c].(liberties := b.chains[c].liberties + Bordering(b.grid, stones, c)))
  }

  /** The capture pass: each listed chain, in order, is removed if it has no liberty left
      at that moment. Cells only ever leave the board, and no chain changes colour or stones. */
  function Capture(b: Board, opp: seq<ChainId>): (r: Board)
    requires forall id | id in opp :: id in b.chains
    ensures r.grid.Keys <= b.grid.Keys
    ensures forall k | k in r.grid :: r.grid[k] == b.grid[k]
    ensures r.chains.Keys == b.chains.Keys
    ensures forall c | c in r.chains ::
      r.chains[c].color == b.chains[c].color && r.chains[c].stones == b.chains[c].stones
  {
    if opp == [] then b
    else
      var r := Capture(b, opp[..|opp| - 1]);
      var id := opp[|opp| - 1];
      if |r.chains[id].liberties| == 0 then RemoveString(r, id) else r
  }

  /** Union of the stones of the listed chains. */
  function StonesOf(chains: map<ChainId, Chain>, ids: seq<ChainId>): set<Point> {
    set id, s | id in ids && id in chains && s in chains[id].stones :: s
  }

  /** Union of the liberties of the listed chains. */
  function LibertiesOf(chains: map<ChainId, Chain>, ids: seq<ChainId>): set<Point> {
    set id, q | id in ids && id in chains && q in chains[id].liberties :: q
  }

  /** The merge pass: `acc` merged, in order, with each listed chain. The result holds all
      their stones and every liberty of any of them that is not one of those stones. */
  function MergeAll(acc: Chain, chains: map<ChainId, Chain>, ids: seq<ChainId>): (r: Chain)
    requires forall id | id in ids :: id in chains && chains[id].color == acc.color
    ensures r.color == acc.color
    ensures r.stones == acc.stones + StonesOf(chains, ids)
    ensures ids == [] ==> r == acc
    ensures ids != [] ==> r.liberties == (acc.liberties + LibertiesOf(chains, ids)) - r.stones
  {
    if ids == [] then acc
    else
      var pre := ids[..|ids| - 1];
      var last := ids[|ids| - 1];
      assert forall id :: id in ids <==> id in pre || id == last;
      MergeWith(MergeAll(acc, chains, pre), chains[last])
  }

  /** Drop the chains no cell refers to any more (unreachable objects in the source). */
  function Collect(b: Board): (r: Board)
    ensures r.grid == b.grid
    ensures forall id :: id in r.chains <==> id in b.chains && id in b.grid.Values
    ensures forall id | id in r.chains :: r.chains[id] == b.chains[id]
  {
    Board(b.grid, map id | id in b.chains && id in b.grid.Values :: b.chains[id])
  }

  function Scan(b: Board, player: Player, p: Point): Neighborhood
    requires Closed(b)
  {
    Classify(b, player, Neighbors(p))
  }

  /** Steps before the capture pass: the new one-stone chain is registered at `p` with the
      empty neighbours as liberties, and `p` stops being a liberty of the other colour's chains. */
  function Tentative(b: Board, player: Player, p: Point): (r: Board)
    requires Closed(b)
    ensures r.grid == b.grid[p := Fresh(b)]
    ensures r.chains.Keys == b.chains.Keys + {Fresh(b)}
  {
    var h := Scan(b, player, p);
    var chains := b.chains[Fresh(b) := Chain(player, {p}, set q | q in h.liberties)];
    Board(b.grid[p := Fresh(b)],
          map c | c in chains :: if c in h.opposite then RemoveLiberty(chains[c], p) else chains[c])
  }

  /** The board after the capture pass. */
  function Settled(b: Board, player: Player, p: Point): (s: Board)
    requires Closed(b)
    ensures Closed(s)
    ensures s.chains.Keys == b.chains.Keys + {Fresh(b)}
    ensures s.chains[Fresh(b)].color == player && s.chains[Fresh(b)].stones == {p}
    ensures forall c | c in b.chains :: s.chains[c].color == b.chains[c].color
  {
    Capture(Tentative(b, player, p), Scan(b, player, p).opposite)
  }

  /** The new chain after the merge pass. */
  function Merged(b: Board, player: Player, p: Point): (m: Chain)
    requires Closed(b)
    ensures m.color == player && p in m.stones
  {
    var s := Settled(b, player, p);
    var h := Scan(b, player, p);
    MergeAll(s.chains[Fresh(b)], s.chains, h.same)
  }

  /** The suicide branch: `p` is given back as a liberty to the other colour's chains
      and the tentative stone is taken off. */
  function Rollback(s: Board, opp: seq<ChainId>, p: Point): (r: Board)
    requires Closed(s)
    ensures Closed(r) && p !in r.grid
  {
    Collect(Board(s.grid - {p},
                  map c | c in s.chains :: if c in opp then AddLiberty(s.chains[c], p) else s.chains[c]))
  }

  /** The success branch: every stone of the merged chain is (re-)registered under it. */
  function Commit(s: Board, f: ChainId, m: Chain, p: Point): (r: Board)
    requires Closed(s) && p in m.stones
    ensures Closed(r) && p in r.grid && ChainAt(r, p) == m
  {
    Collect(Board(s.grid + map q | q in m.stones :: f, s.chains[f := m]))
  }

  /** `place_stone`: whether the move is accepted, and the board afterwards.
      An occupied cell is refused outright. Otherwise captures happen before the suicide
      check; a suicidal move gives `p` back to the other colour's chains and takes the stone
      off again, but captures are not undone. */
  function PlaceStone(b: Board, player: Player, p: Point): (r: (bool, Board))
    requires Closed(b)
    ensures Closed(r.1)
    ensures p in b.grid ==> r == (false, b)
    ensures r.0 ==> p in r.1.grid && ColorAt(r.1, p) == player
    ensures !r.0 && p !in b.grid ==> p !in r.1.grid
  {
    if p in b.grid then (false, b)
    else
      var m := Merged(b, player, p);
      if |m.liberties| == 0 then (false, Rollback(Settled(b, player, p), Scan(b, player, p).opposite, p))
      else (true, Commit(Settled(b, player, p), Fresh(b), m, p))
  }
}

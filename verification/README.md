# Go on a 19×19 torus: the rules engine of board_type.js

This project models the rules engine of a browser Go game played on a 19×19 board
whose edges wrap around: the left edge touches the right one and the top edge
touches the bottom one. It also proves properties of that model.

The source keeps a `Board` as a map from a point's `"x,y"` key to a `GoString`. A
`GoString` is a chain of stones with its colour, its stone set and its liberty set.
The cells of one chain share a single `GoString` object.

`place_stone` plays a move in these steps:

- register a one-stone chain at the point;
- take the point away from the enemy chains next to it, and remove those left
  without liberties (`_remove_string` gives the vacated cells back as liberties);
- merge the new stone with the friendly chains next to it;
- if the merged chain has no liberty, refuse the move: give the point back and take
  the stone off again;
- otherwise register every stone of the merged chain under it.

`isEqualWith` compares the colours on two boards. `deep_copy` clones a board.

The model follows the source's structure, one module per concern:

- `Points`, `Keys`, `Players` — the `Point` class with its wrap-around neighbours,
  the string keys and their parser, and the two colours.
- `Chains` — `GoString`.
- `Boards` — the board, the invariant it keeps, and `isEqualWith`.
- `Placement` — `place_stone` and `_remove_string`, step by step.
- `Copying` — both `deep_copy` methods.

A board is an arena: `grid` maps each occupied cell to a chain identity, and
`chains` maps identities to `Chain` values. Several cells naming one identity stand
for several map entries holding one shared object. The source's identity test
`!==` becomes a comparison of identities.

`WellFormed` is the board invariant:

- every cell is on the board and lies in its own chain's stones;
- every stone of a chain maps to that chain;
- a chain's liberties are exactly the empty cells next to its stones;
- orthogonally adjacent stones of one colour share a chain;
- no chain is left without a cell.

The proofs of the placement rules are spread over the other modules:

- `CaptureProofs` — the capture pass.
- `MergeProofs` — the merge pass.
- `PlacementProofs` — what each step does to a well-formed board.
- `Outcomes` — the board an accepted move must leave.
- `PlacementTheorems` — what `place_stone` promises.

Together they show that `place_stone` on a well-formed board does the following:

- It accepts exactly the moves that are legal in Go, with captures resolved before
  the suicide check.
- A refused move leaves the board exactly as it was. This holds even though the
  source never undoes captures: a move that captures always has a liberty, namely
  the captured stone beside it.
- An accepted move leaves a well-formed board. That board shows the mover's colour
  at the point and has the captured stones removed. Every other cell keeps its
  colour, and the stone count grows by one minus the number captured.

## Model

| member | source | states |
|---|---|---|
| Points.JsRem | board_type.js:28-29 | the `%` of the source: the result differs from the argument by a multiple of 19, and lies in `[0, 19)` for a non-negative argument and in `(-19, 0]` for a negative one |
| Points.Neighbors | board_type.js:25-32 | every point has exactly four listed neighbours |
| Points.NeighborsAreAdjacent | board_type.js:25-32 | for a cell on the board, the four neighbours are exactly the cells one step away along one axis, counting around the edges (an independent definition of torus adjacency) |
| Points.NeighborsShape | board_type.js:25-32 | the four neighbours of a cell on the board are on the board, pairwise distinct, and never the cell itself |
| Points.NeighborSymmetric | board_type.js:25-32 | on the board, `q` is a neighbour of `p` exactly when `p` is a neighbour of `q` |
| Points.CornersWrap | board_type.js:21-30 | the edges wrap: (0,0) touches (18,0) and (0,18), and (18,18) touches (0,18) and (18,0) |
| Keys.KeyRoundTrip | board_type.js:7-18 | parsing the key of any point with integer coordinates gives back that point |
| Keys.KeyInjective | board_type.js:7-18 | distinct points have distinct keys, so the string-keyed map is a point-keyed map |
| Players.Other | board_type.js:35-41 | the other colour differs from the given one and its number is the negation (1 and -1) |
| Chains.RemoveLiberty | board_type.js:86-88 | afterwards `p` is not a liberty, every other liberty is kept, and colour and stones are unchanged |
| Chains.AddLiberty | board_type.js:90-92 | afterwards `p` is a liberty, every other liberty is kept, and colour and stones are unchanged |
| Chains.LibertyRoundTrip | board_type.js:86-92 | removing a liberty and adding it back (and the reverse on a non-liberty) restores the chain; each operation is idempotent |
| Chains.MergeWith | board_type.js:94-99 | the merged chain keeps the colour; its stones are the stones of either chain; its liberties are the liberties of either that are not combined stones (union then difference, as in board_type.js:59-71) |
| Chains.MergeLibertiesAreNotStones | board_type.js:94-99 | a merged chain never lists one of its own stones as a liberty |
| Chains.MergeOrderIrrelevant | board_type.js:181-183 | merging is commutative and associative, so the order of the merge loop does not matter |
| Copying.CopyChain | board_type.js:101-105 | a copied chain has the colour, stones and liberties of the original |
| Boards.EmptyBoard | board_type.js:109-112 | a new board has no occupied cell |
| Boards.EmptyBoardWellFormed | board_type.js:109-112 | the empty board satisfies the board invariant |
| Boards.IsEqualWithMeansSameColors | board_type.js:198-208 | `isEqualWith(a, b)` holds exactly when both boards show the same colour on the same cells, whatever their chains and liberty sets |
| Boards.IsEqualWithEquivalence | board_type.js:198-208 | board comparison is reflexive, symmetric and transitive |
| Placement.Classify | board_type.js:154-168 | the scan lists exactly the empty neighbours, and, each once, exactly the chains of the mover's colour and of the other colour that occupy a neighbour |
| Placement.Fresh | board_type.js:169 | the identity of a newly made chain is used by no chain already on the board |
| Placement.RemoveString | board_type.js:114-125 | the chain's stones leave the grid and nothing else does; no chain changes colour or stones, and no liberty is lost |
| Placement.Capture | board_type.js:175-179 | the capture pass only removes cells, leaves the remaining cells on their chains, and changes no chain's colour or stones |
| Placement.MergeAll | board_type.js:181-183 | the merged chain has the mover's colour and the stones of the new stone and every merged chain; its liberties are theirs minus those stones |
| Placement.Tentative | board_type.js:169-170 | `p` now points to a chain under an identity no old chain uses, every other cell keeps its chain, and the arena gains exactly that identity |
| PlacementProofs.TentativeChains | board_type.js:169-174 | the new chain has the mover's colour, the single stone `p` and the empty neighbours of `p` as liberties; each enemy chain next to `p` loses `p` as a liberty; every other chain is unchanged |
| Placement.Settled | board_type.js:172-179 | after the capture pass the new chain is still the mover's single stone at `p`, and no chain changes colour |
| Placement.Merged | board_type.js:181-183 | the merged chain has the mover's colour and contains `p` |
| Placement.Rollback | board_type.js:184-189 | after the suicide branch `p` is empty again |
| Placement.Commit | board_type.js:191-193 | after the success branch `p` holds the merged chain |
| Placement.PlaceStone | board_type.js:144-196 | an occupied cell is refused with the board unchanged; an accepted move leaves the mover's colour at `p`; a refused move at an empty cell leaves `p` empty |
| CaptureProofs.RemoveKeepsState | board_type.js:114-125 | removing a dead chain takes exactly its stones off, and every surviving chain's liberties remain its empty neighbours (plus `p` for the new stone's friends) |
| CaptureProofs.CaptureInvariant | board_type.js:172-179 | over the whole capture pass, exactly the listed chains that were out of liberties have left the board, and every other chain's liberties are its empty neighbours |
| CaptureProofs.NoDeadNoChange | board_type.js:175-179 | a capture pass that removes no chain changes nothing |
| MergeProofs.MergeExact | board_type.js:181-183 | when each merged chain's liberties are its empty neighbours plus `p`, the merged chain's liberties are exactly the empty cells next to its stones |
| PlacementProofs.DeadAreCaptured | board_type.js:175-178 | the chains the capture pass removes are exactly the enemy chains next to `p` whose only liberty was `p` |
| PlacementProofs.SettledState | board_type.js:169-179 | after placement and captures, exactly those chains are gone and every other chain has exact liberties, still counting `p` for the mover's chains |
| PlacementProofs.SettledGrid | board_type.js:169-179 | the cells after captures are the old cells plus `p` minus the captured stones; with no capture, the pass changes nothing |
| PlacementProofs.MergedChain | board_type.js:181-183 | the new chain holds `p` and the stones of the mover's chains next to it; its liberties are exactly the empty cells next to those stones |
| PlacementTheorems.LegalGivesLiberty | board_type.js:184 | a legal move never reaches the suicide branch: the merged chain has a liberty |
| PlacementTheorems.LibertyGivesLegal | board_type.js:184 | a merged chain with a liberty means the move was legal |
| PlacementTheorems.PlaceStoneAcceptsLegal | board_type.js:144-196 | `place_stone` accepts a move exactly when it is legal: the cell is empty, and some neighbour is empty, or is the last liberty of an enemy chain, or belongs to a friendly chain with another liberty |
| PlacementTheorems.CaptureGivesLiberty | board_type.js:119-120 | a move that captures always keeps a liberty, namely a captured stone next to `p` |
| PlacementTheorems.RollbackRestores | board_type.js:184-189 | giving `p` back to the enemy chains and deleting the stone restores the board before the move |
| PlacementTheorems.PlaceStoneRefusal | board_type.js:184-189 | a refused move leaves the board exactly as it was, and a refused move at an empty cell captured nothing |
| PlacementTheorems.AcceptedCells | board_type.js:191-193 | after an accepted move the occupied cells are the old ones plus `p` minus the captured stones; the new chain's stones map to it, and every other cell keeps its chain |
| PlacementTheorems.AcceptedChains | board_type.js:191-193 | after an accepted move the new chain is the merged one, and every other chain is an old, uncaptured, unmerged chain with its colour and stones |
| PlacementTheorems.AcceptedOutcome | board_type.js:144-196 | an accepted move leaves the board the placement, the merges and the captures describe |
| PlacementTheorems.PlaceStoneKeepsLiberties | board_type.js:175-193 | on a well-formed board where every chain has a liberty, every chain still has one after `place_stone`, whether it accepts the move or refuses it: enemy chains left without a liberty are removed, surviving ones keep a liberty other than `p`, and the merged chain has one or the move is undone |
| PlacementTheorems.PlaceStoneSuccess | board_type.js:144-196 | an accepted move leaves a well-formed board; its colours are the old ones with the captured stones removed and the mover's colour at `p`; its size is the old size plus one minus the number captured |
| Outcomes.OutcomeWellFormed | board_type.js:191-195 | a board with the new chain, the merges and the captures in place satisfies the board invariant |
| Outcomes.OutcomeColors | board_type.js:191-195 | such a board shows the old colours with the captured cells removed and the mover's colour at `p` |
| Outcomes.OutcomeSize | board_type.js:191-195 | such a board has the old number of stones plus one minus the number captured |
| Copying.CopyStep | board_type.js:130-134 | copying one more chain adds exactly its cells, all pointing to the copy, and leaves the cells copied before as they were |
| Copying.CopyComplete | board_type.js:127-137 | a copy holding every cell of a well-formed board, with equal chains and the same sharing, is well formed and compares equal to the original |
| Copying.DeepCopy | board_type.js:127-137 | the copy of a well-formed board has the same cells, an equal chain behind each cell, the same cells sharing a chain, is well formed, and `isEqualWith` the original |

## Left out

- script.js (drawing, images, mouse handlers, the history of boards) is not part of
  this model. That includes the ko check at script.js:52-60, which only calls
  `isEqualWith` and `deep_copy` on boards from the history.
- Object identity and aliasing are not modelled. Chains live in an arena keyed by
  identity. `PlaceStone` drops the chains no cell refers to any more (`Collect`),
  which is what garbage collection does to unreachable `GoString` objects. A copy
  shares nothing with its original, because values never share.
- `Map` and `Set` iteration order is not modelled except where it could matter:
  - `Copying.DeepCopy` takes the map's iteration order as the parameter `order`;
  - the capture and merge loops follow the neighbour order of the scan;
  - `Placement.RemoveString` reads the grid as it was on entry, where the source
    deletes cells one by one as it goes. The two read the same on any board where a
    chain's stones map to that chain, since only the removed chain's own cells are
    deleted.
- Keys.KeyRoundTrip: `Point.fromString` is modelled only on optionally signed decimal
  integers, with anything else standing for `NaN`. The other coercions of unary `+`
  are not modelled (the empty string, whitespace, hexadecimal, exponents). Keys are
  only ever made by `toString`.
- Keys.KeyRoundTrip: coordinates are unbounded integers printed as plain decimals. A
  template literal prints magnitudes of 10^21 or more in exponent notation, and
  JavaScript numbers past 2^53 are not exact, so the round trip is not claimed for
  such coordinates. Points on the board have coordinates 0 to 18.
- `intersection` (board_type.js:49-51) is never called. `union` and `minus` are
  Dafny's `+` and `-` on sets.
- Chains.MergeWith: the `console.assert` that both chains have one colour only logs
  in the source; here it is a precondition.
- PlacementTheorems.PlaceStoneAcceptsLegal: stated for well-formed boards and points
  on the board only. Out-of-range points and hand-built inconsistent boards never
  occur in the game; `PlaceStone` itself demands only that every cell's chain exists.
- PlacementTheorems.PlaceStoneRefusal: stated for well-formed boards and points on
  the board only, for the same reason. The refusal of an occupied cell holds on every
  board (`Placement.PlaceStone`).
- PlacementTheorems.PlaceStoneSuccess: stated for well-formed boards and points on
  the board only, for the same reason.
- Copying.DeepCopy: guarantees only that every cell's chain exists when the board is
  not well formed. On a well-formed board it guarantees everything listed above.
- The source's numeric colours (1 and -1) appear only in `Players.Value`. Elsewhere a
  colour is a two-valued datatype.

# PageRank engine, modelled in Dafny

This project models the rank-propagation engine in `PageRank.go`.

A `PageRankCalculator` holds two settings: a damping factor (default 0.85) and
a number of iterations (default 50). Its guarded setters keep those settings
valid.

`Calculate` takes two maps:
- a backlink map: each target page mapped to the ordered list of pages that
  link to it;
- an outlink-count map.

It builds the node universe from the keys of both maps and starts every node
at 1/N. It then runs a fixed number of synchronous rounds. In each round:
- every node gets the teleport share (1-d)/N;
- a node with a backlink entry also gets d times the sum of its sources'
  shares;
- a source's share is its previous rank divided by its outlink count. A
  missing or zero count is corrected to 1. A source with no previous rank
  contributes nothing.

Finally `sortResults` lists the final (url, rank) entries, highest rank first.

Files:
- `pagerank.dfy` (module `PageRank`) holds three things:
  - the specification functions: `Universe`, `Degree`, `Share`,
    `LinkContribution`, `NodeRank`, `InitialRanks`, `Round` and
    `RanksAfterOver`/`RanksAfter`;
  - the `PageRankCalculator` class, whose fields the setters update in place;
  - the imperative methods that mirror the Go loops. The universe, start
    vector, round and accumulation loops are proved equal to their
    specification functions; the result collection and the sort are proved
    against relational contracts (same multiset of entries, non-increasing
    by rank).
- `pagerank_properties.dfy` (module `PageRankProperties`) holds lemmas about
  the specification. They cover:
  - that the order of backlinks does not matter, and that repeats count once
    per occurrence;
  - locality of a node's update: it reads the previous vector only at its
    own backlink sources (order independence of a round comes instead from
    reading the frozen previous vector, which `Round` and `NextRanks` state);
  - non-negativity of ranks;
  - dangling and unlisted sources;
  - the shape of the result list.

Modelling choices:
- Go's `float64` is modelled as Dafny `real`, so the arithmetic is exact.
- Go maps are Dafny maps. Each `for … range` over a map picks an arbitrary
  remaining key with `:|`, so every proved property holds for every
  enumeration order.
- `sort.Slice` is modelled by an in-place insertion sort on an array. It
  uses the same comparator, and only what `sort.Slice` promises is claimed:
  the result is non-increasing by rank and is a permutation of its input.

Two points where the code departs from the common textbook formulation of
PageRank, and the model follows the code:
- The universe is the keys of the two maps only (PageRank.go:40-46); a page
  named only inside a backlink list is not a node. It gets no rank, and the
  `exists` guard at PageRank.go:69 makes it contribute 0.
  `UnlistedSourceExample` proves the consequence for the two-page graph A→B
  where A is in neither map: B ends at `1 - d`, not at `(1-d)/2 + d/2`.
- The outlink count is corrected to 1 only when it is missing or exactly 0
  (PageRank.go:66), not for every non-positive value. In the model, as in
  the code, a negative count is used as the divisor unchanged (`Degree`).

## Model

| member | source | states |
|---|---|---|
| PageRank.PageRankCalculator.constructor | PageRank.go:18-23 | a new calculator has damping 0.85 and 50 iterations, so the configuration invariant (0 < damping < 1, iterations ≥ 1) holds from the start |
| PageRank.PageRankCalculator.SetDamping | PageRank.go:25-30 | damping becomes `d` exactly when 0 < d < 1 and is otherwise unchanged; iterations is untouched; the receiver itself is returned; the configuration invariant is preserved |
| PageRank.PageRankCalculator.SetIterations | PageRank.go:32-37 | iterations becomes `n` exactly when n > 0 and is otherwise unchanged; damping is untouched; the receiver itself is returned; the configuration invariant is preserved |
| PageRank.Universe | PageRank.go:40-46 | the node set of one computation is the keys of the backlink map together with the keys of the outlink-count map; pages named only inside backlink lists are not in it |
| PageRank.Share | PageRank.go:65-71 | one occurrence of a source passes on its previous rank divided by its corrected outlink count (`Degree`), and nothing when the source has no entry in the previous vector |
| PageRank.LinkContribution | PageRank.go:63-72 | the contribution of a backlink list is the sum, from left to right and one term per occurrence, of the shares of its sources, 0 for the empty list |
| PageRank.NodeRank | PageRank.go:61-73 | a node's new rank over N nodes is (1-d)/N, plus d times the contribution of its backlink list when it has a backlink entry, read from the previous vector only |
| PageRank.RanksAfter | PageRank.go:53-77 | the vector of one computation after a number of rounds: the uniform start over the universe followed by that many synchronous rounds; its keys are exactly the universe |
| PageRank.PageRankCalculator.Calculate | PageRank.go:39-80 | an empty universe gives the empty list; otherwise the result lists exactly the entries of the rank vector after `iterations` rounds from the uniform start, each once, ordered non-increasing by rank; no field is modified |
| PageRank.CollectUrls | PageRank.go:40-46 | enumerating the keys of both maps yields exactly their union |
| PageRank.UniformRanks | PageRank.go:53-56 | the starting vector maps every universe node, and nothing else, to 1/N |
| PageRank.InitialRanks | PageRank.go:53-56 | the starting vector's keys are the universe, and every value is 1 divided by the vector's own size |
| PageRank.PageRankCalculator.RunRounds | PageRank.go:58-77 | the loop runs exactly `iterations` rounds, none when that is not positive, each replacing the whole vector; the result is the vector after that many rounds |
| PageRank.RanksAfterOver | PageRank.go:58-77 | after any number of rounds, the vector's keys are exactly the universe |
| PageRank.Round | PageRank.go:59-76 | one round produces a vector whose keys are exactly the universe |
| PageRank.PageRankCalculator.NextRanks | PageRank.go:59-75 | one round's loop over the universe, in any visiting order, builds exactly the synchronous round: every node gets the formula applied to the previous vector only |
| PageRank.PageRankCalculator.UpdateNode | PageRank.go:61-73 | writing the teleport share and then adding the damped link contribution leaves that node's slot at the per-node formula (teleport only without a backlink entry) and changes no other slot |
| PageRank.SumLinkContributions | PageRank.go:63-72 | the accumulation loop adds, per occurrence, rank/deg for each ranked source, with a missing or zero count corrected to 1 |
| PageRank.Degree | PageRank.go:65-68 | the divisor is never 0; it is 1 or the listed count; any listed non-zero count, negative ones included, is used as it is |
| PageRank.PageRankCalculator.SortResults | PageRank.go:82-94 | the result is a permutation of the (url, rank) entries of the vector and is non-increasing by rank |
| PageRank.CollectEntries | PageRank.go:83-89 | appending one record per enumerated key gives each entry of the vector exactly once |
| PageRank.SortByRankDesc | PageRank.go:90-92 | the array ends sorted non-increasing by rank and holds the same multiset of records |
| PageRankProperties.LinkContributionAppend | PageRank.go:64-71 | the contribution of a concatenated backlink list is the sum of the contributions of its parts |
| PageRankProperties.LinkContributionRemove | PageRank.go:64-71 | removing one occurrence from a backlink list removes exactly that source's share |
| PageRankProperties.LinkContributionPermutation | PageRank.go:64-71 | two backlink lists with the same multiset of sources give the same contribution: only the count of each source matters, not the order |
| PageRankProperties.RepeatedSourceCountsTwice | PageRank.go:64-71 | a source listed twice contributes its share twice |
| PageRankProperties.LinkContributionOfUnranked | PageRank.go:69-71 | sources with no entry in the previous vector contribute 0 |
| PageRankProperties.LinkContributionLocal | PageRank.go:64-71 | the contribution depends on the previous vector only at the listed sources |
| PageRankProperties.NodeRankLocal | PageRank.go:61-73 | a node's new rank depends on the previous vector only at its own backlink sources |
| PageRankProperties.LinkContributionNonNegative | PageRank.go:64-71 | with non-negative counts and ranks, a contribution is non-negative |
| PageRankProperties.NodeRankNonNegative | PageRank.go:61-73 | with damping in [0, 1], non-negative counts and a non-negative previous vector, every new rank is non-negative |
| PageRankProperties.RanksAfterOverNonNegative | PageRank.go:53-77 | under the same conditions, every rank stays non-negative after any number of rounds over any node set |
| PageRankProperties.RanksNonNegative | PageRank.go:53-77 | under the same conditions, every rank of a computation is non-negative after any number of rounds |
| PageRankProperties.CalculatorRanksNonNegative | PageRank.go:13-37 | for any calculator satisfying the configuration invariant that the constructor and setters maintain, and non-negative outlink counts, every rank of the computation it configures is non-negative |
| PageRankProperties.NodeWithoutBacklinks | PageRank.go:61-62 | a node with no backlink entry has exactly (1-d)/N after any positive number of rounds |
| PageRankProperties.SourcesOutsideUniverse | PageRank.go:62-73 | a node whose backlink sources all lie outside the universe has exactly (1-d)/N after any positive number of rounds |
| PageRankProperties.DanglingSourceExample | PageRank.go:65-70 | for B with backlinks [A] and A's count 0, one round gives A = (1-d)/2 and B = (1-d)/2 + d·(1/2)/1 |
| PageRankProperties.UnlistedSourceExample | PageRank.go:40-46 | for B with backlinks [A] and A in neither map, the universe is {B} alone and B = 1-d after every positive number of rounds |
| PageRankProperties.EntryListFacts | PageRank.go:82-89 | a list of a vector's entries has one record per node, each carrying that node's rank, no url twice, and every node present |
| PageRankProperties.CalculateResultShape | PageRank.go:39-80 | a result of `Calculate` has exactly N records, and a url occurs in it exactly when it is in the universe |

## Left out

- `PrintResults` and `main` (PageRank.go:96-139): console output and the example driver.
- IEEE-754 `float64` rounding: ranks are exact reals. The model therefore claims no concrete numeric scores for the example graph. It also claims no convergence or sum-to-one property; the code never checks either.
- The relative order of entries with equal rank: `sort.Slice` is not stable. Only sortedness and permutation are stated.
- PageRank.PageRankCalculator.SortResults: Go sorts with its own pattern-defeating quicksort. The model sorts with an insertion sort, which meets the same contract; the algorithm itself is not modelled.
- Go map enumeration order is left open. Every enumeration is an arbitrary choice, and the results are proved for all of them.
- Parallel evaluation of a round and early exit on convergence: neither exists in the code.
- Heap aliasing of the input maps: Go maps are references, but `Calculate` never writes to them, so they are modelled as values.

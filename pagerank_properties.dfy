/**
 Properties of the PageRank model: how link contributions add up, what
 each round depends on, what the rank vectors look like, and what the
 sorted result list holds.
 */
module PageRankProperties {
  import opened PageRank

  // ---------------------------------------------------------------------------
  // Link contributions
  // ---------------------------------------------------------------------------

  /** Contributions of consecutive parts of a backlink list add up. */
  lemma {:induction false} LinkContributionAppend(s: seq<Url>, t: seq<Url>, outlinksCount: OutlinkCounts, rank: Ranks)
    ensures LinkContribution(s + t, outlinksCount, rank)
         == LinkContribution(s, outlinksCount, rank) + LinkContribution(t, outlinksCount, rank)
    decreases |t|
  {
    if t == [] {
      assert s + t == s;
    } else {
      var t' := t[..|t| - 1];
      LinkContributionAppend(s, t', outlinksCount, rank);
      assert (s + t)[..|s + t| - 1] == s + t';
      assert (s + t)[|s + t| - 1] == t[|t| - 1];
    }
  }

  /** Taking one occurrence out of a backlink list removes exactly that
      source's share. */
  lemma LinkContributionRemove(t: seq<Url>, k: nat, outlinksCount: OutlinkCounts, rank: Ranks)
    requires k < |t|
    ensures LinkContribution(t, outlinksCount, rank)
         == LinkContribution(t[..k] + t[k + 1..], outlinksCount, rank) + Share(outlinksCount, rank, t[k])
  {
    assert t == t[..k] + [t[k]] + t[k + 1..];
    LinkContributionAppend(t[..k], [t[k]], outlinksCount, rank);
    LinkContributionAppend(t[..k] + [t[k]], t[k + 1..], outlinksCount, rank);
    LinkContributionAppend(t[..k], t[k + 1..], outlinksCount, rank);
    assert [t[k]][..0] == [];
  }

  /** Where the last element of s sits in a permutation t of s, and that the
      rest of both lists are still permutations of each other. */
  lemma OccurrenceAfterRemoval(s: seq<Url>, t: seq<Url>) returns (k: nat)
    requires s != [] && multiset(s) == multiset(t)
    ensures k < |t| && t[k] == s[|s| - 1]
    ensures multiset(s[..|s| - 1]) == multiset(t[..k] + t[k + 1..])
  {
    var x := s[|s| - 1];
    assert s == s[..|s| - 1] + [x];
    assert x in multiset(t);
    k :| 0 <= k < |t| && t[k] == x;
    assert t == t[..k] + [x] + t[k + 1..];
    assert multiset(t) == multiset(t[..k] + t[k + 1..]) + multiset{x};
    assert multiset(s) == multiset(s[..|s| - 1]) + multiset{x};
    assert multiset(t[..k] + t[k + 1..]) == multiset(t) - multiset{x};
    assert multiset(s[..|s| - 1]) == multiset(s) - multiset{x};
  }

  /** The order of a backlink list does not matter: only how many times each
      source occurs in it. */
  lemma {:induction false} LinkContributionPermutation(s: seq<Url>, t: seq<Url>, outlinksCount: OutlinkCounts, rank: Ranks)
    requires multiset(s) == multiset(t)
    ensures LinkContribution(s, outlinksCount, rank) == LinkContribution(t, outlinksCount, rank)
    decreases |s|
  {
    if s == [] {
      assert |t| == |multiset(t)| == 0;
    } else {
      var x := s[|s| - 1];
      var s' := s[..|s| - 1];
      assert LinkContribution(s, outlinksCount, rank)
          == LinkContribution(s', outlinksCount, rank) + Share(outlinksCount, rank, x);
      var k := OccurrenceAfterRemoval(s, t);
      LinkContributionPermutation(s', t[..k] + t[k + 1..], outlinksCount, rank);
      LinkContributionRemove(t, k, outlinksCount, rank);
    }
  }

  /** A source listed twice passes on its share twice. */
  lemma RepeatedSourceCountsTwice(s: seq<Url>, x: Url, outlinksCount: OutlinkCounts, rank: Ranks)
    ensures LinkContribution(s + [x, x], outlinksCount, rank)
         == LinkContribution(s, outlinksCount, rank) + 2.0 * Share(outlinksCount, rank, x)
  {
    LinkContributionAppend(s, [x, x], outlinksCount, rank);
    assert [x, x][..1] == [x];
    assert [x][..0] == [];
    assert LinkContribution([x], outlinksCount, rank) == Share(outlinksCount, rank, x);
  }

  /** Sources that have no entry in the rank vector contribute nothing. */
  lemma {:induction false} LinkContributionOfUnranked(s: seq<Url>, outlinksCount: OutlinkCounts, rank: Ranks)
    requires forall i :: 0 <= i < |s| ==> s[i] !in rank
    ensures LinkContribution(s, outlinksCount, rank) == 0.0
    decreases |s|
  {
    if s != [] {
      LinkContributionOfUnranked(s[..|s| - 1], outlinksCount, rank);
    }
  }

  /** Two vectors that agree on every listed source give the same contribution. */
  ghost predicate AgreeOn(sources: seq<Url>, r1: Ranks, r2: Ranks)
  {
    forall i :: 0 <= i < |sources| ==>
      (sources[i] in r1 <==> sources[i] in r2) && (sources[i] in r1 ==> r1[sources[i]] == r2[sources[i]])
  }

  lemma {:induction false} LinkContributionLocal(s: seq<Url>, outlinksCount: OutlinkCounts, r1: Ranks, r2: Ranks)
    requires AgreeOn(s, r1, r2)
    ensures LinkContribution(s, outlinksCount, r1) == LinkContribution(s, outlinksCount, r2)
    decreases |s|
  {
    if s != [] {
      var s' := s[..|s| - 1];
      assert AgreeOn(s', r1, r2) by {
        forall i | 0 <= i < |s'| ensures s'[i] == s[i] { }
      }
      LinkContributionLocal(s', outlinksCount, r1, r2);
      assert s[|s| - 1] in r1 <==> s[|s| - 1] in r2;
    }
  }

  /** A node's new rank reads the previous vector only at the sources of its
      own backlinks. (That a round's result does not depend on the order in
      which nodes are visited comes from reading the frozen previous vector,
      as `Round` and `NextRanks` state, not from this lemma.) */
  lemma NodeRankLocal(u: Url, backlinks: Backlinks, outlinksCount: OutlinkCounts, damping: real, n: nat, r1: Ranks, r2: Ranks)
    requires n > 0
    requires u in backlinks ==> AgreeOn(backlinks[u], r1, r2)
    ensures NodeRank(u, backlinks, outlinksCount, damping, n, r1) == NodeRank(u, backlinks, outlinksCount, damping, n, r2)
  {
    if u in backlinks {
      LinkContributionLocal(backlinks[u], outlinksCount, r1, r2);
    }
  }

  // ---------------------------------------------------------------------------
  // Rank vectors
  // ---------------------------------------------------------------------------

  ghost predicate AllNonNegative(rank: Ranks)
  {
    forall u :: u in rank ==> rank[u] >= 0.0
  }

  ghost predicate CountsNonNegative(outlinksCount: OutlinkCounts)
  {
    forall u :: u in outlinksCount ==> outlinksCount[u] >= 0
  }

  lemma {:induction false} LinkContributionNonNegative(s: seq<Url>, outlinksCount: OutlinkCounts, rank: Ranks)
    requires CountsNonNegative(outlinksCount) && AllNonNegative(rank)
    ensures LinkContribution(s, outlinksCount, rank) >= 0.0
    decreases |s|
  {
    if s != [] {
      LinkContributionNonNegative(s[..|s| - 1], outlinksCount, rank);
      var x := s[|s| - 1];
      if x in rank {
        var deg := Degree(outlinksCount, x) as real;
        assert deg >= 1.0;
        assert rank[x] / deg >= 0.0;
      }
    }
  }

  /** One node's new rank is non-negative when the previous vector is. */
  lemma NodeRankNonNegative(u: Url, backlinks: Backlinks, outlinksCount: OutlinkCounts, damping: real, n: nat, previous: Ranks)
    requires n > 0 && 0.0 <= damping <= 1.0
    requires CountsNonNegative(outlinksCount) && AllNonNegative(previous)
    ensures NodeRank(u, backlinks, outlinksCount, damping, n, previous) >= 0.0
  {
    var teleport := (1.0 - damping) / (n as real);
    assert teleport >= 0.0;
    if u in backlinks {
      var lc := LinkContribution(backlinks[u], outlinksCount, previous);
      LinkContributionNonNegative(backlinks[u], outlinksCount, previous);
      assert damping * lc >= 0.0;
    }
  }

  lemma {:induction false} RanksAfterOverNonNegative(universe: set<Url>, backlinks: Backlinks, outlinksCount: OutlinkCounts, damping: real, rounds: int)
    requires 0.0 <= damping <= 1.0 && CountsNonNegative(outlinksCount)
    ensures AllNonNegative(RanksAfterOver(universe, backlinks, outlinksCount, damping, rounds))
    decreases rounds
  {
    if rounds > 0 && universe != {} {
      var previous := RanksAfterOver(universe, backlinks, outlinksCount, damping, rounds - 1);
      RanksAfterOverNonNegative(universe, backlinks, outlinksCount, damping, rounds - 1);
      forall u | u in universe
        ensures NodeRank(u, backlinks, outlinksCount, damping, |universe|, previous) >= 0.0
      {
        NodeRankNonNegative(u, backlinks, outlinksCount, damping, |universe|, previous);
      }
    }
  }

  /** With a damping factor in [0, 1] and no negative outlink count, every
      rank stays non-negative in every round. */
  lemma RanksNonNegative(backlinks: Backlinks, outlinksCount: OutlinkCounts, damping: real, rounds: int)
    requires 0.0 <= damping <= 1.0 && CountsNonNegative(outlinksCount)
    ensures AllNonNegative(RanksAfter(backlinks, outlinksCount, damping, rounds))
  {
    RanksAfterOverNonNegative(Universe(backlinks, outlinksCount), backlinks, outlinksCount, damping, rounds);
  }

  /** Any calculator that keeps its configuration invariant produces only
      non-negative ranks when no outlink count is negative. */
  lemma CalculatorRanksNonNegative(c: PageRankCalculator, backlinks: Backlinks, outlinksCount: OutlinkCounts)
    requires c.Valid() && CountsNonNegative(outlinksCount)
    ensures AllNonNegative(RanksAfter(backlinks, outlinksCount, c.damping, c.iterations))
  {
    RanksNonNegative(backlinks, outlinksCount, c.damping, c.iterations);
  }

  /** A node without a backlink entry gets only the teleport share, in every
      round after the first. */
  lemma NodeWithoutBacklinks(backlinks: Backlinks, outlinksCount: OutlinkCounts, damping: real, rounds: int, u: Url)
    requires rounds >= 1 && u in outlinksCount && u !in backlinks
    ensures RanksAfter(backlinks, outlinksCount, damping, rounds)[u]
         == (1.0 - damping) / (|Universe(backlinks, outlinksCount)| as real)
  {
  }

  /** A backlink source that is not a key of either map is outside the
      universe and never has a rank: a node whose sources are all such gets
      only the teleport share. */
  lemma SourcesOutsideUniverse(backlinks: Backlinks, outlinksCount: OutlinkCounts, damping: real, rounds: int, u: Url)
    requires rounds >= 1 && u in backlinks
    requires forall i :: 0 <= i < |backlinks[u]| ==> backlinks[u][i] !in Universe(backlinks, outlinksCount)
    ensures RanksAfter(backlinks, outlinksCount, damping, rounds)[u]
         == (1.0 - damping) / (|Universe(backlinks, outlinksCount)| as real)
  {
    var previous := RanksAfter(backlinks, outlinksCount, damping, rounds - 1);
    LinkContributionOfUnranked(backlinks[u], outlinksCount, previous);
  }

  /** The link A to B with A in the outlink table at count 0: A is corrected
      to one outlink and passes all of its 1/2 to B in the first round. */
  lemma DanglingSourceExample(damping: real)
    ensures var r := RanksAfter(map["B" := ["A"]], map["A" := 0], damping, 1);
      r.Keys == {"A", "B"} && r["A"] == (1.0 - damping) / 2.0 && r["B"] == (1.0 - damping) / 2.0 + damping * 0.5
  {
    var backlinks: Backlinks := map["B" := ["A"]];
    var outlinksCount: OutlinkCounts := map["A" := 0];
    var universe: set<Url> := {"A", "B"};
    assert Universe(backlinks, outlinksCount) == universe;
    var initial := TwoNodeStart(universe);
    assert LinkContribution(["A"], outlinksCount, initial) == 0.5 by {
      assert Degree(outlinksCount, "A") == 1;
      assert ["A"][..0] == [];
    }
    var r := RanksAfterOver(universe, backlinks, outlinksCount, damping, 1);
    assert r == Round(universe, backlinks, outlinksCount, damping, initial);
    assert r["A"] == NodeRank("A", backlinks, outlinksCount, damping, 2, initial);
    assert r["B"] == NodeRank("B", backlinks, outlinksCount, damping, 2, initial);
  }

  /** Both nodes of the two-node example start at 1/2. */
  lemma TwoNodeStart(universe: set<Url>) returns (initial: Ranks)
    requires universe == {"A", "B"}
    ensures |universe| == 2
    ensures initial == InitialRanks(universe) && initial["A"] == 0.5
  {
    assert |universe| == 2;
    initial := InitialRanks(universe);
  }

  /** The same link with A in neither map: A is no node at all, and B, the
      only node, keeps exactly 1 - damping in every round. */
  lemma UnlistedSourceExample(damping: real, rounds: int)
    requires rounds >= 1
    ensures var r := RanksAfter(map["B" := ["A"]], map[], damping, rounds);
      r.Keys == {"B"} && r["B"] == 1.0 - damping
  {
    var backlinks: Backlinks := map["B" := ["A"]];
    var outlinksCount: OutlinkCounts := map[];
    assert Universe(backlinks, outlinksCount) == {"B"};
    assert "A" != "B";
    SourcesOutsideUniverse(backlinks, outlinksCount, damping, rounds, "B");
  }

  // ---------------------------------------------------------------------------
  // The result list
  // ---------------------------------------------------------------------------

  lemma EntriesSize(rank: Ranks)
    ensures |Entries(rank)| == |rank|
    decreases |rank|
  {
    if rank != map[] {
      var u :| u in rank;
      var rest := rank - {u};
      assert rank == rest[u := rank[u]];
      EntriesSize(rest);
      var e := PageRankResult(u, rank[u]);
      assert Entries(rank) == Entries(rest) + {e} by {
        forall x | x in Entries(rank) ensures x in Entries(rest) + {e} {
          if x.url != u { assert x.url in rest; }
        }
      }
      assert e !in Entries(rest);
    } else {
      assert Entries(rank) == {};
    }
  }

  lemma DuplicateCount(s: seq<PageRankResult>, i: int, j: int)
    requires 0 <= i < j < |s| && s[i] == s[j]
    ensures multiset(s)[s[i]] >= 2
  {
    assert s == s[..j] + [s[j]] + s[j + 1..];
    assert s[i] in s[..j];
  }

  /** A list holding exactly the entries of a rank vector has one entry per
      node, each with that node's rank, and no node twice. */
  lemma EntryListFacts(results: seq<PageRankResult>, rank: Ranks)
    requires IsEntryListOf(results, rank)
    ensures |results| == |rank|
    ensures forall i :: 0 <= i < |results| ==> results[i].url in rank && results[i].rank == rank[results[i].url]
    ensures forall i, j :: 0 <= i < j < |results| ==> results[i].url != results[j].url
    ensures forall u :: u in rank ==> exists i :: 0 <= i < |results| && results[i] == PageRankResult(u, rank[u])
  {
    EntriesSize(rank);
    assert |results| == |multiset(results)| == |multiset(Entries(rank))| == |rank|;
    forall i | 0 <= i < |results|
      ensures results[i].url in rank && results[i].rank == rank[results[i].url]
    {
      assert results[i] in multiset(results);
    }
    forall i, j | 0 <= i < j < |results|
      ensures results[i].url != results[j].url
    {
      if results[i].url == results[j].url {
        assert results[i] in multiset(results) && results[j] in multiset(results);
        assert results[i] == results[j];
        DuplicateCount(results, i, j);
        assert false;
      }
    }
    forall u | u in rank
      ensures exists i :: 0 <= i < |results| && results[i] == PageRankResult(u, rank[u])
    {
      var e := PageRankResult(u, rank[u]);
      assert e in Entries(rank);
      assert e in multiset(results);
    }
  }

  /** What `Calculate` returns, in terms of the node universe: one entry per
      node with its rank after the configured rounds. */
  lemma CalculateResultShape(results: seq<PageRankResult>, backlinks: Backlinks, outlinksCount: OutlinkCounts, damping: real, iterations: int)
    requires IsEntryListOf(results, RanksAfter(backlinks, outlinksCount, damping, iterations))
    ensures |results| == |Universe(backlinks, outlinksCount)|
    ensures forall u :: u in Universe(backlinks, outlinksCount) <==> exists i :: 0 <= i < |results| && results[i].url == u
  {
    var rank := RanksAfter(backlinks, outlinksCount, damping, iterations);
    EntryListFacts(results, rank);
    forall u | u in Universe(backlinks, outlinksCount)
      ensures exists i :: 0 <= i < |results| && results[i].url == u
    {
      var i :| 0 <= i < |results| && results[i] == PageRankResult(u, rank[u]);
      assert results[i].url == u;
    }
  }
}

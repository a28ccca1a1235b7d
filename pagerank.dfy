/**
 PageRank power iteration over a link graph given as backlinks (target to the
 ordered list of its sources) and a table of outlink counts.

 Ranks are `real`: the source's float64 arithmetic is modelled exactly, with
 no rounding. Go map enumeration is modelled by choosing an arbitrary
 remaining key (`:|`), so every result below holds for every visiting order.
 */
module PageRank {

  type Url = string
  type Backlinks = map<Url, seq<Url>>
  type OutlinkCounts = map<Url, int>
  type Ranks = map<Url, real>

  /** One entry of the ranked result list. */
  datatype PageRankResult = PageRankResult(url: Url, rank: real)

  // ---------------------------------------------------------------------------
  // Specification of one computation
  // ---------------------------------------------------------------------------

  /** The nodes that take part: the keys of both input maps, and nothing else. */
  function Universe(backlinks: Backlinks, outlinksCount: OutlinkCounts): set<Url>
  {
    backlinks.Keys + outlinksCount.Keys
  }

  /** The divisor used for a source: its outlink count, except that a missing
      or zero count is corrected to 1. A negative count is used as it is. */
  function Degree(outlinksCount: OutlinkCounts, source: Url): (deg: int)
    ensures deg != 0
    ensures deg == 1 || (source in outlinksCount && deg == outlinksCount[source])
    ensures source in outlinksCount && outlinksCount[source] != 0 ==> deg == outlinksCount[source]
  {
    if source !in outlinksCount || outlinksCount[source] == 0 then 1 else outlinksCount[source]
  }

  /** What one occurrence of `source` in a backlink list passes on: nothing when
      the source has no rank in the previous vector. */
  function Share(outlinksCount: OutlinkCounts, rank: Ranks, source: Url): real
  {
    if source in rank then rank[source] / (Degree(outlinksCount, source) as real) else 0.0
  }

  /** The sum of the shares of a backlink list, one term per occurrence, added
      from left to right. */
  function LinkContribution(sources: seq<Url>, outlinksCount: OutlinkCounts, rank: Ranks): real
  {
    if sources == [] then 0.0
    else LinkContribution(sources[..|sources| - 1], outlinksCount, rank) + Share(outlinksCount, rank, sources[|sources| - 1])
  }

  /** The new rank of node `u` in a round over `n` nodes, read from the
      previous round's vector `rank` only. */
  function NodeRank(u: Url, backlinks: Backlinks, outlinksCount: OutlinkCounts, damping: real, n: nat, rank: Ranks): real
    requires n > 0
  {
    var teleport := (1.0 - damping) / (n as real);
    if u in backlinks then teleport + damping * LinkContribution(backlinks[u], outlinksCount, rank) else teleport
  }

  /** The rank vector every computation starts from: the same share, 1/N,
      on each of the N nodes. */
  function InitialRanks(universe: set<Url>): (r: Ranks)
    ensures r.Keys == universe
    ensures forall u :: u in r ==> r[u] == 1.0 / (|r| as real)
  {
    if |universe| == 0 then map[]
    else
      var r := map u | u in universe :: 1.0 / (|universe| as real);
      assert r.Keys == universe;
      r
  }

  /** One synchronous round over `universe`: every node's new value is
      computed from `rank`, and the result replaces it whole. */
  function Round(universe: set<Url>, backlinks: Backlinks, outlinksCount: OutlinkCounts, damping: real, rank: Ranks): (r: Ranks)
    ensures r.Keys == universe
  {
    if |universe| == 0 then map[]
    else map u | u in universe :: NodeRank(u, backlinks, outlinksCount, damping, |universe|, rank)
  }

  /** The rank vector after `rounds` rounds over a given node set; a
      non-positive count runs none. */
  function RanksAfterOver(universe: set<Url>, backlinks: Backlinks, outlinksCount: OutlinkCounts, damping: real, rounds: int): (r: Ranks)
    ensures r.Keys == universe
    decreases rounds
  {
    if rounds <= 0 then InitialRanks(universe)
    else Round(universe, backlinks, outlinksCount, damping, RanksAfterOver(universe, backlinks, outlinksCount, damping, rounds - 1))
  }

  /** The rank vector after `rounds` rounds of one computation. */
  function RanksAfter(backlinks: Backlinks, outlinksCount: OutlinkCounts, damping: real, rounds: int): (r: Ranks)
    ensures r.Keys == Universe(backlinks, outlinksCount)
  {
    RanksAfterOver(Universe(backlinks, outlinksCount), backlinks, outlinksCount, damping, rounds)
  }

  /** The entries of a rank vector, as result records. */
  ghost function Entries(rank: Ranks): set<PageRankResult>
  {
    set u | u in rank :: PageRankResult(u, rank[u])
  }

  /** Ordered by rank, highest first. */
  ghost predicate SortedByRankDesc(s: seq<PageRankResult>)
  {
    forall k, l :: 0 <= k < l < |s| ==> s[k].rank >= s[l].rank
  }

  /** `results` lists exactly the entries of `rank`, each once, in some order. */
  ghost predicate IsEntryListOf(results: seq<PageRankResult>, rank: Ranks)
  {
    multiset(results) == multiset(Entries(rank))
  }

  // ---------------------------------------------------------------------------
  // The calculator
  // ---------------------------------------------------------------------------

  class PageRankCalculator {
    var damping: real
    var iterations: int

    /** The configuration invariant the guarded setters maintain. */
    ghost predicate Valid()
      reads this
    {
      0.0 < damping < 1.0 && iterations >= 1
    }

    /** The calculator with its defaults: damping 0.85, 50 iterations. */
    constructor ()
      ensures Valid()
      ensures damping == 0.85 && iterations == 50
    {
      damping := 0.85;
      iterations := 50;
    }

    /** Takes `d` only when it lies strictly between 0 and 1; returns the receiver. */
    method SetDamping(d: real) returns (self: PageRankCalculator)
      modifies this
      ensures self == this
      ensures 0.0 < d < 1.0 ==> damping == d
      ensures !(0.0 < d < 1.0) ==> damping == old(damping)
      ensures iterations == old(iterations)
      ensures old(Valid()) ==> Valid()
    {
      if d > 0.0 && d < 1.0 {
        damping := d;
      }
      self := this;
    }

    /** Takes `n` only when it is positive; returns the receiver. */
    method SetIterations(n: int) returns (self: PageRankCalculator)
      modifies this
      ensures self == this
      ensures n > 0 ==> iterations == n
      ensures n <= 0 ==> iterations == old(iterations)
      ensures damping == old(damping)
      ensures old(Valid()) ==> Valid()
    {
      if n > 0 {
        iterations := n;
      }
      self := this;
    }

    /** Runs `iterations` synchronous rounds from the uniform vector and returns
        the final vector's entries, highest rank first. */
    method Calculate(backlinks: Backlinks, outlinksCount: OutlinkCounts) returns (results: seq<PageRankResult>)
      ensures Universe(backlinks, outlinksCount) == {} ==> results == []
      ensures IsEntryListOf(results, RanksAfter(backlinks, outlinksCount, damping, iterations))
      ensures SortedByRankDesc(results)
    {
      var allUrls := CollectUrls(backlinks, outlinksCount);

      ghost var final := RanksAfterOver(allUrls, backlinks, outlinksCount, damping, iterations);
      assert final == RanksAfter(backlinks, outlinksCount, damping, iterations);
      var totalUrls := |allUrls|;
      if totalUrls == 0 {
        results := [];
        EntriesEmpty(final);
        return;
      }

      var pageRank := UniformRanks(allUrls);

      pageRank := RunRounds(backlinks, outlinksCount, allUrls, pageRank);
      assert pageRank == final;
      results := SortResults(pageRank);
    }

    /** The fixed number of rounds: `iterations` of them, none when it is not
        positive, each replacing the whole vector. */
    method RunRounds(backlinks: Backlinks, outlinksCount: OutlinkCounts, allUrls: set<Url>, initial: Ranks)
      returns (pageRank: Ranks)
      requires allUrls != {}
      requires initial == InitialRanks(allUrls)
      ensures pageRank == RanksAfterOver(allUrls, backlinks, outlinksCount, damping, iterations)
    {
      pageRank := initial;
      var i := 0;
      while i < iterations
        invariant 0 <= i && (i <= iterations || i == 0)
        invariant pageRank == RanksAfterOver(allUrls, backlinks, outlinksCount, damping, i)
      {
        var newPageRank := NextRanks(damping, backlinks, outlinksCount, allUrls, pageRank);
        pageRank := newPageRank;
        i := i + 1;
      }

      assert iterations <= 0 ==> i == 0;
    }

    /** One round of `Calculate`: a fresh vector holding, for every node of
        `allUrls`, the teleport share plus the damped link contribution read
        from the previous vector `pageRank`. */
    static method NextRanks(damping: real, backlinks: Backlinks, outlinksCount: OutlinkCounts, allUrls: set<Url>, pageRank: Ranks)
      returns (newPageRank: Ranks)
      requires allUrls != {}
      ensures newPageRank == Round(allUrls, backlinks, outlinksCount, damping, pageRank)
    {
      var totalUrls := |allUrls|;
      var teleport := (1.0 - damping) / (totalUrls as real);
      newPageRank := map[];
      var pending := allUrls;
      while pending != {}
        invariant pending <= allUrls
        invariant newPageRank == map u | u in allUrls - pending :: NodeRank(u, backlinks, outlinksCount, damping, totalUrls, pageRank)
        decreases |pending|
      {
        var url :| url in pending;
        ghost var before := newPageRank;
        newPageRank := UpdateNode(damping, backlinks, outlinksCount, totalUrls, teleport, pageRank, newPageRank, url);
        RoundExtend(allUrls, pending, url, backlinks, outlinksCount, damping, totalUrls, pageRank, before);
        pending := pending - {url};
      }
    }

    /** The body of one round for one node `url`: its slot is first set to the
        teleport share, then, when the node has a backlink entry, raised by
        the damped link contribution. No other slot changes. */
    static method UpdateNode(damping: real, backlinks: Backlinks, outlinksCount: OutlinkCounts, totalUrls: nat,
                             teleport: real, pageRank: Ranks, newPageRank: Ranks, url: Url)
      returns (updated: Ranks)
      requires totalUrls > 0 && teleport == (1.0 - damping) / (totalUrls as real)
      ensures updated == newPageRank[url := NodeRank(url, backlinks, outlinksCount, damping, totalUrls, pageRank)]
    {
      updated := newPageRank[url := teleport];
      if url in backlinks {
        var linkContribution := SumLinkContributions(backlinks[url], outlinksCount, pageRank);
        updated := updated[url := updated[url] + damping * linkContribution];
        assert updated[url] == NodeRank(url, backlinks, outlinksCount, damping, totalUrls, pageRank);
      } else {
        assert updated[url] == NodeRank(url, backlinks, outlinksCount, damping, totalUrls, pageRank);
      }
    }

    /** The entries of `pageRank` in an arbitrary order, then sorted in place
        by rank, highest first; equal ranks may come in any order. */
    method SortResults(pageRank: Ranks) returns (results: seq<PageRankResult>)
      ensures IsEntryListOf(results, pageRank)
      ensures SortedByRankDesc(results)
    {
      var collected := CollectEntries(pageRank);
      var a := new PageRankResult[|collected|](k requires 0 <= k < |collected| => collected[k]);
      assert a[..] == collected;
      SortByRankDesc(a);
      results := a[..];
    }
  }

  /** The entries of `pageRank`, appended one by one in enumeration order. */
  method CollectEntries(pageRank: Ranks) returns (collected: seq<PageRankResult>)
    ensures multiset(collected) == multiset(Entries(pageRank))
  {
    collected := [];
    var pending := pageRank.Keys;
    while pending != {}
      invariant pending <= pageRank.Keys
      invariant multiset(collected) == multiset(Entries(pageRank - pending))
      decreases |pending|
    {
      var url :| url in pending;
      EntriesInsert(pageRank - pending, url, pageRank[url]);
      assert (pageRank - pending)[url := pageRank[url]] == pageRank - (pending - {url});
      collected := collected + [PageRankResult(url, pageRank[url])];
      pending := pending - {url};
    }
    assert pageRank - pending == pageRank;
  }

  /** The node universe, gathered by enumerating the keys of both maps. */
  method CollectUrls(backlinks: Backlinks, outlinksCount: OutlinkCounts) returns (allUrls: set<Url>)
    ensures allUrls == Universe(backlinks, outlinksCount)
  {
    allUrls := {};
    var pending := backlinks.Keys;
    while pending != {}
      invariant pending <= backlinks.Keys
      invariant allUrls + pending == backlinks.Keys
      decreases |pending|
    {
      var url :| url in pending;
      allUrls := allUrls + {url};
      pending := pending - {url};
    }
    pending := outlinksCount.Keys;
    while pending != {}
      invariant pending <= outlinksCount.Keys
      invariant allUrls + pending == backlinks.Keys + outlinksCount.Keys
      decreases |pending|
    {
      var url :| url in pending;
      allUrls := allUrls + {url};
      pending := pending - {url};
    }
  }

  /** The starting vector, filled one node at a time with 1/N. */
  method UniformRanks(allUrls: set<Url>) returns (pageRank: Ranks)
    ensures pageRank == InitialRanks(allUrls)
  {
    pageRank := map[];
    if allUrls == {} {
      return;
    }
    var totalUrls := |allUrls|;
    var pending := allUrls;
    while pending != {}
      invariant pending <= allUrls
      invariant pageRank == map u | u in allUrls - pending :: 1.0 / (totalUrls as real)
      decreases |pending|
    {
      var url :| url in pending;
      pageRank := pageRank[url := 1.0 / (totalUrls as real)];
      pending := pending - {url};
    }
  }

  /** The accumulation of `linkContribution` over one backlink list: each
      occurrence adds its source's previous rank divided by its corrected
      outlink count, and a source without a rank adds nothing. */
  method SumLinkContributions(backlinksForUrl: seq<Url>, outlinksCount: OutlinkCounts, pageRank: Ranks)
    returns (linkContribution: real)
    ensures linkContribution == LinkContribution(backlinksForUrl, outlinksCount, pageRank)
  {
    linkContribution := 0.0;
    var j := 0;
    while j < |backlinksForUrl|
      invariant 0 <= j <= |backlinksForUrl|
      invariant linkContribution == LinkContribution(backlinksForUrl[..j], outlinksCount, pageRank)
    {
      var backlink := backlinksForUrl[j];
      var hasOutlinks := backlink in outlinksCount;
      var outlinkCount := if hasOutlinks then outlinksCount[backlink] else 0;
      if !hasOutlinks || outlinkCount == 0 {
        outlinkCount := 1;
      }
      if backlink in pageRank {
        linkContribution := linkContribution + pageRank[backlink] / (outlinkCount as real);
      }
      assert backlinksForUrl[..j + 1][..j] == backlinksForUrl[..j];
      j := j + 1;
    }
    assert backlinksForUrl[..j] == backlinksForUrl;
  }

  /** The comparator `results[i].Rank > results[j].Rank`, applied by an
      in-place sort of the slice. */
  method SortByRankDesc(a: array<PageRankResult>)
    modifies a
    ensures SortedByRankDesc(a[..])
    ensures multiset(a[..]) == multiset(old(a[..]))
  {
    var i := 0;
    while i < a.Length
      invariant 0 <= i <= a.Length
      invariant forall k, l :: 0 <= k < l < i ==> a[k].rank >= a[l].rank
      invariant multiset(a[..]) == multiset(old(a[..]))
    {
      var j := i;
      while j > 0 && a[j].rank > a[j - 1].rank
        invariant 0 <= j <= i
        invariant multiset(a[..]) == multiset(old(a[..]))
        invariant forall k, l :: 0 <= k < l <= i && l != j ==> a[k].rank >= a[l].rank
        invariant 0 < j < i ==> a[j - 1].rank >= a[j + 1].rank
      {
        Swap(a, j - 1, j);
        j := j - 1;
      }
      i := i + 1;
    }
  }

  /** Exchanges two elements of `a`. */
  method Swap(a: array<PageRankResult>, i: int, j: int)
    requires 0 <= i < j < a.Length
    modifies a
    ensures a[..] == old(a[..])[i := old(a[j])][j := old(a[i])]
    ensures multiset(a[..]) == multiset(old(a[..]))
  {
    a[i], a[j] := a[j], a[i];
  }

  // ---------------------------------------------------------------------------
  // Helper facts about entry sets
  // ---------------------------------------------------------------------------

  /** Filling in one more node of a partially computed round. */
  lemma RoundExtend(allUrls: set<Url>, pending: set<Url>, url: Url, backlinks: Backlinks, outlinksCount: OutlinkCounts,
                    damping: real, n: nat, rank: Ranks, partial: Ranks)
    requires n > 0 && url in pending && pending <= allUrls
    requires partial == map u | u in allUrls - pending :: NodeRank(u, backlinks, outlinksCount, damping, n, rank)
    ensures partial[url := NodeRank(url, backlinks, outlinksCount, damping, n, rank)]
         == map u | u in allUrls - (pending - {url}) :: NodeRank(u, backlinks, outlinksCount, damping, n, rank)
  {
  }

  lemma EntriesEmpty(rank: Ranks)
    requires rank.Keys == {}
    ensures multiset(Entries(rank)) == multiset{}
  {
    assert rank == map[];
  }

  lemma EntriesInsert(rank: Ranks, u: Url, v: real)
    requires u !in rank
    ensures multiset(Entries(rank[u := v])) == multiset(Entries(rank)) + multiset{PageRankResult(u, v)}
  {
    var e := PageRankResult(u, v);
    forall x | x in Entries(rank[u := v]) ensures x in Entries(rank) + {e} {
      if x.url != u { assert x.url in rank && x == PageRankResult(x.url, rank[x.url]); }
    }
    forall x | x in Entries(rank) ensures x in Entries(rank[u := v]) {
      assert x.url in rank && x.url != u;
      assert x == PageRankResult(x.url, rank[u := v][x.url]);
    }
    assert e == PageRankResult(u, rank[u := v][u]);
    assert Entries(rank[u := v]) == Entries(rank) + {e};
    assert e !in Entries(rank);
  }
}

/**
 * The home page's featured polls: the active polls with the largest pools,
 * at most three of them.
 */
module HomePage {
  import opened Types
  import Seqs

  const FEATURED_COUNT: nat := 3

  function IsActive(p: Poll): bool
  {
    p.status == Active
  }

  function PoolKey(p: Poll): real
  {
    p.totalBetAmount
  }

  /** The active polls, largest pool first. */
  function ActiveByPool(polls: seq<Poll>): seq<Poll>
  {
    Seqs.SortDesc(Seqs.Filter(polls, IsActive), PoolKey)
  }

  /** `activePolls`: filter to active, sort by pool descending, keep the first three. */
  function Featured(polls: seq<Poll>): (r: seq<Poll>)
    ensures |r| <= FEATURED_COUNT
    ensures forall i :: 0 <= i < |r| ==> r[i].status == Active && r[i] in polls
    ensures Seqs.SortedDesc(r, PoolKey)
  {
    var ranked := ActiveByPool(polls);
    RankingFromStore(polls);
    var r := ranked[..if |ranked| < FEATURED_COUNT then |ranked| else FEATURED_COUNT];
    assert forall i :: 0 <= i < |r| ==> r[i] in ranked;
    r
  }

  /** The featured polls are a leading part of the ranking, so they keep its order. */
  lemma FeaturedIsPrefix(polls: seq<Poll>)
    ensures var ranked := ActiveByPool(polls);
            ranked == Featured(polls) + ranked[|Featured(polls)|..]
    ensures Seqs.SortedDesc(Featured(polls), PoolKey)
    ensures var n := |Seqs.Filter(polls, IsActive)|;
            |Featured(polls)| == if n < 3 then n else 3
  {
  }

  /** The ranking is a permutation of the active polls, which are drawn from the store. */
  lemma RankingFromStore(polls: seq<Poll>)
    ensures multiset(ActiveByPool(polls)) <= multiset(polls)
    ensures forall p :: p in ActiveByPool(polls) ==> p.status == Active && p in polls
  {
    var active := Seqs.Filter(polls, IsActive);
    forall p ensures multiset(active)[p] <= multiset(polls)[p] {
      Seqs.FilterMultiset(polls, IsActive, p);
    }
    forall p | p in ActiveByPool(polls) ensures p.status == Active && p in polls {
      assert p in multiset(active);
      Seqs.FilterMember(polls, IsActive, p);
    }
  }

  /**
   * The featured list holds only active polls of the store (no poll more
   * often than there), largest pool first, and as many as there are active
   * polls up to three.
   */
  lemma FeaturedShape(polls: seq<Poll>)
    ensures var r := Featured(polls);
            forall i :: 0 <= i < |r| ==> r[i].status == Active && r[i] in polls
    ensures multiset(Featured(polls)) <= multiset(polls)
    ensures Seqs.SortedDesc(Featured(polls), PoolKey)
    ensures var n := |Seqs.Filter(polls, IsActive)|;
            |Featured(polls)| == if n < 3 then n else 3
  {
    var ranked := ActiveByPool(polls);
    var r := Featured(polls);
    FeaturedIsPrefix(polls);
    RankingFromStore(polls);
    assert multiset(r) <= multiset(ranked) by {
      assert multiset(ranked) == multiset(r) + multiset(ranked[|r|..]);
    }
    forall i | 0 <= i < |r| ensures r[i].status == Active && r[i] in polls {
      assert r[i] in ranked;
    }
  }

  /** No active poll left out of the featured list has a larger pool than one that is in it. */
  lemma FeaturedAreLargest(polls: seq<Poll>, p: Poll)
    requires p in polls && p.status == Active && p !in Featured(polls)
    ensures forall i :: 0 <= i < |Featured(polls)| ==> p.totalBetAmount <= Featured(polls)[i].totalBetAmount
  {
    var ranked := ActiveByPool(polls);
    var r := Featured(polls);
    Seqs.FilterMember(polls, IsActive, p);
    Seqs.FilterMultiset(polls, IsActive, p);
    assert p in multiset(ranked);
    var j :| 0 <= j < |ranked| && ranked[j] == p;
    assert j >= |r|;
  }
}

/**
 * The polls listing: a case-insensitive search over title and description,
 * optional category and status filters, newest first; the category list
 * offered to the user; and clearing the filters.
 */
module PollsPage {
  import opened Types
  import Seqs

  /** `toLowerCase` on the ASCII letters; every other character is kept. */
  function ToLower(s: string): (r: string)
    ensures |r| == |s|
    ensures forall i :: 0 <= i < |s| ==> r[i] == if 'A' <= s[i] <= 'Z' then (s[i] as int + 32) as char else s[i]
  {
    seq(|s|, i requires 0 <= i < |s| => if 'A' <= s[i] <= 'Z' then (s[i] as int + 32) as char else s[i])
  }


  /** `sub` occurs in `s` starting at position `i`. */
  predicate OccursAt(s: string, sub: string, i: int)
  {
    0 <= i <= |s| - |sub| && s[i..i + |sub|] == sub
  }

  /** `s.includes(sub)`: `sub` occurs in `s` at some position. */
  function Includes(s: string, sub: string): (r: bool)
    ensures r <==> exists i :: OccursAt(s, sub, i)
    decreases |s|
  {
    if |sub| > |s| then false
    else if s[..|sub|] == sub then
      assert OccursAt(s, sub, 0);
      true
    else
      var r := Includes(s[1..], sub);
      assert forall i :: OccursAt(s, sub, i) <==> i >= 1 && OccursAt(s[1..], sub, i - 1) by {
        forall i ensures OccursAt(s, sub, i) <==> i >= 1 && OccursAt(s[1..], sub, i - 1) {
          if 1 <= i <= |s| - |sub| {
            var a, b := s[i..i + |sub|], s[1..][i - 1..i - 1 + |sub|];
            assert |a| == |b| && forall k :: 0 <= k < |a| ==> a[k] == s[i + k] == b[k];
          }
        }
      }
      assert r ==> OccursAt(s, sub, (var j :| OccursAt(s[1..], sub, j); j) + 1);
      r
  }

  /** Lowering keeps a match: where `sub` occurs in `s`, the lowered `sub` occurs in the lowered `s`, at the same place. */
  lemma LoweredOccurrence(s: string, sub: string, i: int)
    requires OccursAt(s, sub, i)
    ensures OccursAt(ToLower(s), ToLower(sub), i)
    ensures Includes(ToLower(s), ToLower(sub))
  {
    var ls, lsub := ToLower(s), ToLower(sub);
    assert ls[i..i + |sub|] == lsub by {
      forall k | 0 <= k < |sub| ensures ls[i..i + |sub|][k] == lsub[k] {
        assert s[i + k] == s[i..i + |sub|][k] == sub[k];
      }
    }
    assert OccursAt(ls, lsub, i);
  }

  /** The search hits a poll whose lowered title or lowered description contains the lowered term. */
  predicate SearchHit(p: Poll, loweredTerm: string)
  {
    Includes(ToLower(p.title), loweredTerm) || Includes(ToLower(p.description), loweredTerm)
  }

  function MatchesSearch(loweredTerm: string): Poll -> bool
  {
    (p: Poll) => SearchHit(p, loweredTerm)
  }

  function InCategory(category: string): Poll -> bool
  {
    (p: Poll) => p.category == category
  }

  function HasStatus(status: string): Poll -> bool
  {
    (p: Poll) => StatusName(p.status) == status
  }

  /** The sort key: creation time. */
  function CreatedAtKey(p: Poll): real
  {
    p.createdAt as real
  }

  /** A poll passes every filter that is set; an empty filter lets everything through. */
  predicate Shown(p: Poll, searchTerm: string, category: string, status: string)
  {
    (searchTerm == "" || SearchHit(p, ToLower(searchTerm)))
    && (category == "" || p.category == category)
    && (status == "" || StatusName(p.status) == status)
  }

  /** The filtering effect: search, then category, then status, then newest first. */
  function FilterPolls(polls: seq<Poll>, searchTerm: string, category: string, status: string): (r: seq<Poll>)
    ensures |r| <= |polls|
    ensures Seqs.SortedDesc(r, CreatedAtKey)
  {
    var bySearch := if searchTerm != "" then Seqs.Filter(polls, MatchesSearch(ToLower(searchTerm))) else polls;
    var byCategory := if category != "" then Seqs.Filter(bySearch, InCategory(category)) else bySearch;
    var byStatus := if status != "" then Seqs.Filter(byCategory, HasStatus(status)) else byCategory;
    Seqs.SortDesc(byStatus, CreatedAtKey)
  }

  /**
   * The listing holds exactly the polls that pass the set filters, each as
   * often as in the store, and is ordered newest first.
   */
  lemma FilterPollsExact(polls: seq<Poll>, searchTerm: string, category: string, status: string)
    ensures var r := FilterPolls(polls, searchTerm, category, status);
            forall p :: multiset(r)[p] == if Shown(p, searchTerm, category, status) then multiset(polls)[p] else 0
    ensures Seqs.SortedDesc(FilterPolls(polls, searchTerm, category, status), CreatedAtKey)
    ensures forall p :: p in FilterPolls(polls, searchTerm, category, status) <==>
                        p in polls && Shown(p, searchTerm, category, status)
  {
    var bySearch := if searchTerm != "" then Seqs.Filter(polls, MatchesSearch(ToLower(searchTerm))) else polls;
    var byCategory := if category != "" then Seqs.Filter(bySearch, InCategory(category)) else bySearch;
    var byStatus := if status != "" then Seqs.Filter(byCategory, HasStatus(status)) else byCategory;
    var r := FilterPolls(polls, searchTerm, category, status);
    forall p ensures multiset(r)[p] == if Shown(p, searchTerm, category, status) then multiset(polls)[p] else 0 {
      if searchTerm != "" {
        Seqs.FilterMultiset(polls, MatchesSearch(ToLower(searchTerm)), p);
      }
      if category != "" {
        Seqs.FilterMultiset(bySearch, InCategory(category), p);
      }
      if status != "" {
        Seqs.FilterMultiset(byCategory, HasStatus(status), p);
      }
    }
    forall p ensures p in r <==> p in polls && Shown(p, searchTerm, category, status) {
      assert p in r <==> multiset(r)[p] > 0;
      assert p in polls <==> multiset(polls)[p] > 0;
    }
  }

  /** With every filter cleared the listing is the whole store, reordered. */
  lemma ClearedListsEverything(polls: seq<Poll>)
    ensures multiset(FilterPolls(polls, "", "", "")) == multiset(polls)
  {
  }

  /** `Array.from(new Set(polls.map(poll => poll.category)))`: each category in use, once. */
  function Categories(polls: seq<Poll>): (r: seq<string>)
    ensures forall c :: c in r <==> exists i :: 0 <= i < |polls| && polls[i].category == c
    ensures Seqs.Distinct(r)
  {
    var all := seq(|polls|, i requires 0 <= i < |polls| => polls[i].category);
    var r := Seqs.Dedup(all);
    assert forall c :: c in r <==> c in all;
    assert forall c :: c in all <==> exists i :: 0 <= i < |polls| && polls[i].category == c by {
      forall c ensures c in all <==> exists i :: 0 <= i < |polls| && polls[i].category == c {
        if c in all {
          var k :| 0 <= k < |all| && all[k] == c;
          assert polls[k].category == c;
        }
        if exists i :: 0 <= i < |polls| && polls[i].category == c {
          var k :| 0 <= k < |polls| && polls[k].category == c;
          assert all[k] == c;
        }
      }
    }
    r
  }

  class PollsPageState {
    var searchTerm: string
    var selectedCategory: string
    var selectedStatus: string
    var filteredPolls: seq<Poll>

    constructor (polls: seq<Poll>)
      ensures searchTerm == "" && selectedCategory == "" && selectedStatus == "" && filteredPolls == polls
    {
      searchTerm := "";
      selectedCategory := "";
      selectedStatus := "";
      filteredPolls := polls;
    }

    /** The effect that runs when the polls or a filter change. */
    method ApplyFilters(polls: seq<Poll>)
      modifies this
      ensures filteredPolls == FilterPolls(polls, searchTerm, selectedCategory, selectedStatus)
      ensures searchTerm == old(searchTerm) && selectedCategory == old(selectedCategory)
      ensures selectedStatus == old(selectedStatus)
    {
      filteredPolls := FilterPolls(polls, searchTerm, selectedCategory, selectedStatus);
    }

    /** `clearFilters`: all three filters back to empty; the listing follows on the next effect. */
    method ClearFilters()
      modifies this
      ensures searchTerm == "" && selectedCategory == "" && selectedStatus == ""
      ensures filteredPolls == old(filteredPolls)
    {
      searchTerm := "";
      selectedCategory := "";
      selectedStatus := "";
    }
  }
}

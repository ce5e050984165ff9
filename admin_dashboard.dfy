/** The admin dashboard's overview figures: poll counts by status and the betting totals. */
module AdminDashboard {
  import opened Types
  import opened PollContext
  import Seqs

  function StatusIs(s: PollStatus): Poll -> bool
  {
    (p: Poll) => p.status == s
  }

  /** `activePolls` / `completedPolls`: the number of polls with the status; none exactly when no poll has it. */
  function CountWithStatus(polls: seq<Poll>, s: PollStatus): (r: nat)
    ensures r <= |polls|
    ensures r == 0 <==> forall i :: 0 <= i < |polls| ==> polls[i].status != s
  {
    NoneWithStatus(polls, s);
    |Seqs.Filter(polls, StatusIs(s))|
  }

  /** The filter on a status comes out empty exactly when no poll has the status. */
  lemma NoneWithStatus(polls: seq<Poll>, s: PollStatus)
    ensures Seqs.Filter(polls, StatusIs(s)) == [] <==> forall i :: 0 <= i < |polls| ==> polls[i].status != s
  {
    var matching := Seqs.Filter(polls, StatusIs(s));
    if exists i :: 0 <= i < |polls| && polls[i].status == s {
      var i :| 0 <= i < |polls| && polls[i].status == s;
      Seqs.FilterMember(polls, StatusIs(s), polls[i]);
    }
    if matching != [] {
      assert StatusIs(s)(matching[0]) && matching[0] in polls;
    }
  }

  /** No option of any poll has a negative bettor count. */
  ghost predicate BettorCountsNonNegative(polls: seq<Poll>)
  {
    forall i, j :: 0 <= i < |polls| && 0 <= j < |polls[i].options| ==> polls[i].options[j].bettorCount >= 0
  }

  /** `totalBets`: every option's bettor count, over every poll; never negative while no count is. */
  function TotalBets(polls: seq<Poll>): (r: int)
    ensures BettorCountsNonNegative(polls) ==> r >= 0
  {
    if polls == [] then 0
    else
      assert BettorCountsNonNegative(polls) ==> BettorCountsNonNegative(polls[1..]) by {
        assert forall i :: 0 <= i < |polls[1..]| ==> polls[1..][i] == polls[i + 1];
      }
      SumBettors(polls[0].options) + TotalBets(polls[1..])
  }

  /** Every option's stake, over every poll. */
  function AllStakes(polls: seq<Poll>): real
  {
    if polls == [] then 0.0 else SumStakes(polls[0].options) + AllStakes(polls[1..])
  }

  /**
   * `totalBetAmount`: the sum of the polls' cached totals. When every poll's
   * total matches its stakes this is the sum of all option stakes, and it is
   * never negative while no poll's total is.
   */
  function TotalBetAmount(polls: seq<Poll>): (r: real)
    ensures (forall i :: 0 <= i < |polls| ==> TotalMatchesStakes(polls[i])) ==> r == AllStakes(polls)
    ensures (forall i :: 0 <= i < |polls| ==> polls[i].totalBetAmount >= 0.0) ==> r >= 0.0
  {
    if polls == [] then 0.0
    else
      assert forall i :: 0 <= i < |polls[1..]| ==> polls[1..][i] == polls[i + 1];
      polls[0].totalBetAmount + TotalBetAmount(polls[1..])
  }

  /** Every poll is active, completed or canceled, so the three counts add up to the number of polls. */
  lemma {:induction false} StatusCountsPartition(polls: seq<Poll>)
    ensures CountWithStatus(polls, Active) + CountWithStatus(polls, Completed) + CountWithStatus(polls, Canceled) == |polls|
    ensures CountWithStatus(polls, Active) + CountWithStatus(polls, Completed) <= |polls|
  {
    if polls != [] {
      StatusCountsPartition(polls[1..]);
      CountStep(polls, Active);
      CountStep(polls, Completed);
      CountStep(polls, Canceled);
    }
  }

  /** Counting a status over a non-empty list: the head counts once if it has the status, then the rest. */
  lemma CountStep(polls: seq<Poll>, s: PollStatus)
    requires polls != []
    ensures CountWithStatus(polls, s) == (if polls[0].status == s then 1 else 0) + CountWithStatus(polls[1..], s)
  {
  }

  /** The number of polls carrying the id. */
  function CountPollId(polls: seq<Poll>, pollId: string): nat
  {
    if polls == [] then 0 else (if polls[0].id == pollId then 1 else 0) + CountPollId(polls[1..], pollId)
  }

  /** The number of options with the option id over the polls with the poll id. */
  function CountTargets(polls: seq<Poll>, pollId: string, optionId: string): nat
  {
    if polls == [] then 0
    else (if polls[0].id == pollId then CountOptionId(polls[0].options, optionId) else 0)
         + CountTargets(polls[1..], pollId, optionId)
  }

  /** A placed bet raises the dashboard's bet count by one per option it bumps (by one with unique ids). */
  lemma {:induction false} PlaceBetRaisesBets(polls: seq<Poll>, pollId: string, optionId: string, amount: real, now: int)
    ensures TotalBets(ApplyBetToPolls(polls, pollId, optionId, amount, now))
            == TotalBets(polls) + CountTargets(polls, pollId, optionId)
  {
    if polls != [] {
      PlaceBetRaisesBets(polls[1..], pollId, optionId, amount, now);
      assert ApplyBetToPolls(polls, pollId, optionId, amount, now)[1..]
             == ApplyBetToPolls(polls[1..], pollId, optionId, amount, now);
      BumpOptionsBettors(polls[0].options, optionId, amount);
    }
  }

  /** The amount a bet adds to the polls' totals: once per poll carrying the id. */
  function AmountAdded(polls: seq<Poll>, pollId: string, amount: real): real
  {
    if polls == [] then 0.0 else (if polls[0].id == pollId then amount else 0.0) + AmountAdded(polls[1..], pollId, amount)
  }

  /** A placed bet raises the dashboard's total by the amount once per poll carrying the id. */
  lemma {:induction false} PlaceBetRaisesAmount(polls: seq<Poll>, pollId: string, optionId: string, amount: real, now: int)
    ensures TotalBetAmount(ApplyBetToPolls(polls, pollId, optionId, amount, now))
            == TotalBetAmount(polls) + AmountAdded(polls, pollId, amount)
  {
    if polls != [] {
      PlaceBetRaisesAmount(polls[1..], pollId, optionId, amount, now);
      assert ApplyBetToPolls(polls, pollId, optionId, amount, now)[1..]
             == ApplyBetToPolls(polls[1..], pollId, optionId, amount, now);
    }
  }

  /** The amount added is the bet's amount times the number of polls carrying the id (the amount itself when the id is unique). */
  lemma {:induction false} AmountAddedPerPoll(polls: seq<Poll>, pollId: string, amount: real)
    ensures AmountAdded(polls, pollId, amount) == (CountPollId(polls, pollId) as real) * amount
  {
    if polls != [] {
      AmountAddedPerPoll(polls[1..], pollId, amount);
      var c := CountPollId(polls[1..], pollId) as real;
      if polls[0].id == pollId {
        assert (c + 1.0) * amount == c * amount + amount;
      }
    }
  }
}

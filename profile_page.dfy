/**
 * The profile page's figures: the current user's bets joined with their
 * poll and option, the bet statistics, and the polls the user created.
 */
module ProfilePage {
  import opened Types
  import Seqs

  /** A bet of the user with the poll title, option text and poll status it is shown with. */
  datatype BetView = BetView(bet: Bet, pollTitle: string, optionText: string, pollStatus: string)

  function ByUser(userId: string): Bet -> bool
  {
    (b: Bet) => b.userId == userId
  }

  /** One bet joined with its poll and option; a missing (or empty) title or text falls back to a placeholder. */
  function ViewOf(b: Bet, polls: seq<Poll>): (v: BetView)
    ensures v.bet == b
    ensures FindPoll(polls, b.pollId).None? ==>
              v.pollTitle == "Unknown Poll" && v.optionText == "Unknown Option" && v.pollStatus == "unknown"
    ensures FindPoll(polls, b.pollId).Some? ==>
              v.pollStatus == StatusName(FindPoll(polls, b.pollId).value.status)
    ensures FindPoll(polls, b.pollId).Some? ==>
              v.pollTitle == if FindPoll(polls, b.pollId).value.title != "" then FindPoll(polls, b.pollId).value.title
                             else "Unknown Poll"
    ensures FindPoll(polls, b.pollId).Some? ==>
              var o := FindOption(FindPoll(polls, b.pollId).value.options, b.optionId);
              v.optionText == if o.Some? && o.value.text != "" then o.value.text else "Unknown Option"
  {
    var poll := FindPoll(polls, b.pollId);
    var option := if poll.Some? then FindOption(poll.value.options, b.optionId) else None;
    BetView(
      b,
      if poll.Some? && poll.value.title != "" then poll.value.title else "Unknown Poll",
      if option.Some? && option.value.text != "" then option.value.text else "Unknown Option",
      if poll.Some? then StatusName(poll.value.status) else "unknown")
  }

  /** `myBets`: the user's bets, in the order they were placed, each joined with its poll and option. */
  function MyBets(userBets: seq<Bet>, polls: seq<Poll>, userId: string): (r: seq<BetView>)
    ensures |r| == |Seqs.Filter(userBets, ByUser(userId))|
    ensures forall i :: 0 <= i < |r| ==> r[i] == ViewOf(Seqs.Filter(userBets, ByUser(userId))[i], polls)
  {
    var mine := Seqs.Filter(userBets, ByUser(userId));
    seq(|mine|, i requires 0 <= i < |mine| => ViewOf(mine[i], polls))
  }

  /** The bets behind `myBets` are exactly the user's bets, each as often as it was placed. */
  lemma MyBetsAreTheUsers(userBets: seq<Bet>, polls: seq<Poll>, userId: string, b: Bet)
    ensures multiset(Seqs.Filter(userBets, ByUser(userId)))[b] == if b.userId == userId then multiset(userBets)[b] else 0
    ensures forall i :: 0 <= i < |MyBets(userBets, polls, userId)| ==> MyBets(userBets, polls, userId)[i].bet.userId == userId
  {
    Seqs.FilterMultiset(userBets, ByUser(userId), b);
  }

  function HasStatus(s: BetStatus): BetView -> bool
  {
    (v: BetView) => v.bet.status == s
  }

  function NotActive(): BetView -> bool
  {
    (v: BetView) => v.bet.status != Open
  }

  function CountStatus(views: seq<BetView>, s: BetStatus): nat
  {
    |Seqs.Filter(views, HasStatus(s))|
  }

  /** `winRate`: won bets as a percentage of all bets, 0 without bets; always within [0, 100]. */
  function WinRate(views: seq<BetView>): (r: real)
    ensures |views| == 0 ==> r == 0.0
    ensures 0.0 <= r <= 100.0
    ensures |views| > 0 ==> r * (|views| as real) == 100.0 * (CountStatus(views, Won) as real)
  {
    var total := |views|;
    var won := CountStatus(views, Won);
    if total > 0 then (won as real / total as real) * 100.0 else 0.0
  }

  /** A missing payout counts as nothing (`bet.payout || 0`). */
  function PayoutOrZero(v: BetView): real
  {
    if v.bet.payout.Some? then v.bet.payout.value else 0.0
  }

  function SumPayouts(views: seq<BetView>): real
  {
    if views == [] then 0.0 else PayoutOrZero(views[0]) + SumPayouts(views[1..])
  }

  function SumAmounts(views: seq<BetView>): real
  {
    if views == [] then 0.0 else views[0].bet.amount + SumAmounts(views[1..])
  }

  /** `totalWinnings`: the payouts of the won bets, which is the winnings added up bet by bet. */
  function TotalWinnings(views: seq<BetView>): (r: real)
    ensures r == WinningsOf(views)
  {
    WonPayoutsByBet(views);
    SumPayouts(Seqs.Filter(views, HasStatus(Won)))
  }

  /** `totalLosses`: the stakes of the lost bets, which is the losses added up bet by bet. */
  function TotalLosses(views: seq<BetView>): (r: real)
    ensures r == LossesOf(views)
  {
    LostAmountsByBet(views);
    SumAmounts(Seqs.Filter(views, HasStatus(Lost)))
  }

  /**
   * The winnings bet by bet: a won bet adds its payout (or nothing), any
   * other bet adds nothing; with no negative payout they lie between 0 and
   * all payouts together.
   */
  function WinningsOf(views: seq<BetView>): (r: real)
    ensures (forall i :: 0 <= i < |views| ==> PayoutOrZero(views[i]) >= 0.0) ==> 0.0 <= r <= SumPayouts(views)
  {
    if views == [] then 0.0
    else
      assert forall i :: 0 <= i < |views[1..]| ==> views[1..][i] == views[i + 1];
      (if views[0].bet.status == Won then PayoutOrZero(views[0]) else 0.0) + WinningsOf(views[1..])
  }

  /**
   * The losses bet by bet: a lost bet adds its stake, any other bet adds
   * nothing; with no negative stake they lie between 0 and all stakes together.
   */
  function LossesOf(views: seq<BetView>): (r: real)
    ensures (forall i :: 0 <= i < |views| ==> views[i].bet.amount >= 0.0) ==> 0.0 <= r <= SumAmounts(views)
  {
    if views == [] then 0.0
    else
      assert forall i :: 0 <= i < |views[1..]| ==> views[1..][i] == views[i + 1];
      (if views[0].bet.status == Lost then views[0].bet.amount else 0.0) + LossesOf(views[1..])
  }

  /** Summing the payouts over the filtered won bets equals adding up the winnings bet by bet. */
  lemma {:induction false} WonPayoutsByBet(views: seq<BetView>)
    ensures SumPayouts(Seqs.Filter(views, HasStatus(Won))) == WinningsOf(views)
  {
    if views != [] {
      WonPayoutsByBet(views[1..]);
      if HasStatus(Won)(views[0]) {
        var rest := Seqs.Filter(views[1..], HasStatus(Won));
        assert Seqs.Filter(views, HasStatus(Won)) == [views[0]] + rest;
        assert ([views[0]] + rest)[1..] == rest;
      }
    }
  }

  /** Summing the stakes over the filtered lost bets equals adding up the losses bet by bet. */
  lemma {:induction false} LostAmountsByBet(views: seq<BetView>)
    ensures SumAmounts(Seqs.Filter(views, HasStatus(Lost))) == LossesOf(views)
  {
    if views != [] {
      LostAmountsByBet(views[1..]);
      if HasStatus(Lost)(views[0]) {
        var rest := Seqs.Filter(views[1..], HasStatus(Lost));
        assert Seqs.Filter(views, HasStatus(Lost)) == [views[0]] + rest;
        assert ([views[0]] + rest)[1..] == rest;
      }
    }
  }

  /** Every bet is active, won or lost, so the three counts add up to the number of bets. */
  lemma {:induction false} StatusCountsPartition(views: seq<BetView>)
    ensures CountStatus(views, Open) + CountStatus(views, Won) + CountStatus(views, Lost) == |views|
  {
    if views != [] {
      StatusCountsPartition(views[1..]);
      assert forall s :: Seqs.Filter(views, HasStatus(s))
                           == (if HasStatus(s)(views[0]) then [views[0]] else []) + Seqs.Filter(views[1..], HasStatus(s));
    }
  }

  /** The "active bets" and "history" tabs split `myBets`: together they hold each bet exactly once. */
  lemma TabsPartition(views: seq<BetView>)
    ensures multiset(Seqs.Filter(views, HasStatus(Open))) + multiset(Seqs.Filter(views, NotActive())) == multiset(views)
    ensures |Seqs.Filter(views, HasStatus(Open))| + |Seqs.Filter(views, NotActive())| == |views|
  {
    Seqs.FilterSplit(views, HasStatus(Open), NotActive());
  }

  function ByCreator(userId: string): Poll -> bool
  {
    (p: Poll) => p.createdBy == userId
  }

  /** `createdPolls`: exactly the polls the user created, in store order. */
  function CreatedPolls(polls: seq<Poll>, userId: string): (r: seq<Poll>)
    ensures forall p :: multiset(r)[p] == if p.createdBy == userId then multiset(polls)[p] else 0
  {
    var r := Seqs.Filter(polls, ByCreator(userId));
    forall p ensures multiset(r)[p] == if p.createdBy == userId then multiset(polls)[p] else 0 {
      Seqs.FilterMultiset(polls, ByCreator(userId), p);
    }
    r
  }
}

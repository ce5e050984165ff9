/**
 * The poll detail page's figures: each option's share of the pool, the
 * winner flag, the number of bettors, and when the bet form is offered.
 */
module PollDetailPage {
  import opened Types
  import opened PollContext

  /** JavaScript's `Math.round`: to the nearest integer, halves upward. */
  function Round(x: real): (r: int)
    ensures (r as real) - 0.5 <= x < (r as real) + 0.5
  {
    (x + 0.5).Floor
  }

  /** An option's percentage of the pool: 0 for an empty (or negative) pool, otherwise its share rounded. */
  function Percentage(option: PollOption, total: real): (r: int)
    ensures total <= 0.0 ==> r == 0
    ensures total > 0.0 ==> (r as real) - 0.5 <= (option.betAmount / total) * 100.0 < (r as real) + 0.5
  {
    if total > 0.0 then Round((option.betAmount / total) * 100.0) else 0
  }

  /** A stake between nothing and the whole pool shows as a percentage between 0 and 100. */
  lemma PercentageBounds(option: PollOption, total: real)
    requires total > 0.0 && 0.0 <= option.betAmount <= total
    ensures 0 <= Percentage(option, total) <= 100
  {
    var share := option.betAmount / total;
    assert 0.0 <= share <= 1.0 by {
      assert share * total == option.betAmount;
    }
    assert 0.0 <= share * 100.0 <= 100.0;
  }

  /**
   * `isWinner`: the poll is completed and its recorded correct option is
   * this one; a winner is only ever flagged on a poll that takes no bets.
   */
  function IsWinner(p: Poll, o: PollOption): (r: bool)
    ensures r ==> StatusName(p.status) == "completed" && !ShowBetForm(p)
  {
    p.status == Completed && p.correctOptionId == Some(o.id)
  }

  /** With distinct option ids, at most one option is flagged winner. */
  lemma AtMostOneWinner(p: Poll)
    requires forall a, b :: 0 <= a < b < |p.options| ==> p.options[a].id != p.options[b].id
    ensures forall i, j ::
              0 <= i < |p.options| && 0 <= j < |p.options| && IsWinner(p, p.options[i]) && IsWinner(p, p.options[j])
              ==> i == j
  {
  }

  /** Once the poll is concluded, the flag marks exactly the options with the chosen id. */
  lemma ConcludedFlagsWinner(p: Poll, correctOptionId: string, now: int, o: PollOption)
    ensures IsWinner(Conclude(p, p.id, correctOptionId, now), o) <==> o.id == correctOptionId
  {
  }

  /** The bet form is shown exactly on an active poll: not on a completed or a canceled one. */
  function ShowBetForm(p: Poll): (r: bool)
    ensures r <==> StatusName(p.status) == "active"
    ensures r <==> p.status != Completed && p.status != Canceled
  {
    p.status == Active
  }

  /** Placing a bet leaves the form on offer; concluding the poll withdraws it. */
  lemma BetFormAfterActions(p: Poll, optionId: string, amount: real, correctOptionId: string, now: int)
    ensures ShowBetForm(ApplyBet(p, p.id, optionId, amount, now)) == ShowBetForm(p)
    ensures !ShowBetForm(Conclude(p, p.id, correctOptionId, now))
  {
  }

  /** `totalBettors` after a bet on the poll: one more per option carrying the id, so one more when the id is unique. */
  lemma TotalBettorsAfterBet(p: Poll, optionId: string, amount: real, now: int)
    ensures SumBettors(ApplyBet(p, p.id, optionId, amount, now).options)
            == SumBettors(p.options) + CountOptionId(p.options, optionId)
  {
    BumpOptionsBettors(p.options, optionId, amount);
  }
}

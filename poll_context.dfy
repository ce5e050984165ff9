/**
 * The betting and settlement engine: an in-memory store of polls and bets
 * with three mutators (create a poll for a fee, place a bet, conclude a poll
 * and settle its bets pari-mutuel) and two lookups.
 *
 * The acting user is a parameter (the store reads it from the session).
 * The balance the store computes after a charge is only written to the
 * persisted session copy, never to the live user record; the mutators
 * return it as `storedBalance`.
 */
module PollContext {
  import opened Types
  import Seqs

  /** What a caller hands to `createPoll`: a poll without id, timestamps and total. */
  datatype PollDraft = PollDraft(
    title: string,
    description: string,
    options: seq<PollOption>,
    createdBy: string,
    startDate: int,
    endDate: int,
    status: PollStatus,
    correctOptionId: Option<string>,
    category: string)

  datatype StoreError = NotLoggedIn | InsufficientBalance | NonPositiveAmount

  /** The outcome of a charging mutator: the balance written back, or the error thrown. */
  datatype Outcome = Accepted(storedBalance: real) | Rejected(error: StoreError)

  // ---------------------------------------------------------------- createPoll

  /** The guards of `createPoll`, in the order it tests them. */
  function CreatePollCheck(user: Option<User>): (r: Option<StoreError>)
    ensures r == Some(NotLoggedIn) <==> user.None?
    ensures r == Some(InsufficientBalance) <==> user.Some? && user.value.balance < POLL_CREATION_COST
    ensures r.None? <==> user.Some? && user.value.balance >= POLL_CREATION_COST
  {
    if user.None? then Some(NotLoggedIn)
    else if user.value.balance < POLL_CREATION_COST then Some(InsufficientBalance)
    else None
  }

  /** The poll `createPoll` appends: the draft with a fresh id, a zero total and both timestamps at `now`. */
  function NewPoll(d: PollDraft, id: string, now: int): (p: Poll)
    ensures p.id == id && p.totalBetAmount == 0.0 && p.createdAt == now && p.updatedAt == now
    ensures p.title == d.title && p.description == d.description && p.options == d.options
    ensures p.createdBy == d.createdBy && p.startDate == d.startDate && p.endDate == d.endDate
    ensures p.status == d.status && p.correctOptionId == d.correctOptionId && p.category == d.category
  {
    Poll(id, d.title, d.description, d.options, d.createdBy, d.startDate, d.endDate, d.status,
         d.correctOptionId, 0.0, d.category, now, now)
  }

  /** A new poll keeps the total invariant exactly when its options start with no stake. */
  lemma NewPollTotal(d: PollDraft, id: string, now: int)
    ensures TotalMatchesStakes(NewPoll(d, id, now)) <==> SumStakes(d.options) == 0.0
  {
  }

  // ---------------------------------------------------------------- placeBet

  /** The guards of `placeBet`, in the order it tests them. */
  function PlaceBetCheck(user: Option<User>, amount: real): (r: Option<StoreError>)
    ensures r == Some(NotLoggedIn) <==> user.None?
    ensures r == Some(NonPositiveAmount) <==> user.Some? && amount <= 0.0
    ensures r == Some(InsufficientBalance) <==> user.Some? && amount > 0.0 && user.value.balance < amount
    ensures r.None? <==> user.Some? && 0.0 < amount <= user.value.balance
  {
    if user.None? then Some(NotLoggedIn)
    else if amount <= 0.0 then Some(NonPositiveAmount)
    else if user.value.balance < amount then Some(InsufficientBalance)
    else None
  }

  function BumpOption(o: PollOption, optionId: string, amount: real): PollOption
  {
    if o.id == optionId then o.(betAmount := o.betAmount + amount, bettorCount := o.bettorCount + 1)
    else o
  }

  /** `poll.options.map(...)` in `placeBet`: every option with the id gains the stake and one bettor. */
  function BumpOptions(opts: seq<PollOption>, optionId: string, amount: real): seq<PollOption>
  {
    seq(|opts|, i requires 0 <= i < |opts| => BumpOption(opts[i], optionId, amount))
  }

  /** The stake added to a list of options is the amount once per option carrying the id. */
  lemma {:induction false} BumpOptionsStakes(opts: seq<PollOption>, optionId: string, amount: real)
    ensures SumStakes(BumpOptions(opts, optionId, amount))
            == SumStakes(opts) + (CountOptionId(opts, optionId) as real) * amount
  {
    if opts != [] {
      assert BumpOptions(opts, optionId, amount)[1..] == BumpOptions(opts[1..], optionId, amount);
      BumpOptionsStakes(opts[1..], optionId, amount);
    }
  }

  /** The bettors added to a list of options are one per option carrying the id. */
  lemma {:induction false} BumpOptionsBettors(opts: seq<PollOption>, optionId: string, amount: real)
    ensures SumBettors(BumpOptions(opts, optionId, amount)) == SumBettors(opts) + CountOptionId(opts, optionId)
  {
    if opts != [] {
      assert BumpOptions(opts, optionId, amount)[1..] == BumpOptions(opts[1..], optionId, amount);
      BumpOptionsBettors(opts[1..], optionId, amount);
    }
  }

  /** `polls.map(...)` in `placeBet`, applied to one poll. */
  function ApplyBet(p: Poll, pollId: string, optionId: string, amount: real, now: int): Poll
  {
    if p.id == pollId then
      p.(options := BumpOptions(p.options, optionId, amount),
         totalBetAmount := p.totalBetAmount + amount,
         updatedAt := now)
    else p
  }

  /**
   * A bet keeps "total = sum of stakes" on a poll exactly when the option id
   * it names occurs once in that poll (or the amount is zero). With the id
   * missing the total still grows while no option does.
   */
  lemma ApplyBetKeepsTotal(p: Poll, pollId: string, optionId: string, amount: real, now: int)
    requires TotalMatchesStakes(p)
    ensures TotalMatchesStakes(ApplyBet(p, pollId, optionId, amount, now))
            <==> p.id != pollId || amount == 0.0 || CountOptionId(p.options, optionId) == 1
  {
    if p.id == pollId {
      BumpOptionsStakes(p.options, optionId, amount);
      var c := CountOptionId(p.options, optionId) as real;
      assert (c * amount == amount) <==> (amount == 0.0 || c == 1.0);
    }
  }

  /**
   * `polls.map(...)` in `placeBet`: the polls with the id gain the stake on
   * their options and in their total and are stamped `now`; every other poll
   * is left as it was.
   */
  function ApplyBetToPolls(ps: seq<Poll>, pollId: string, optionId: string, amount: real, now: int): (r: seq<Poll>)
    ensures |r| == |ps|
    ensures forall i :: 0 <= i < |ps| && ps[i].id != pollId ==> r[i] == ps[i]
    ensures forall i :: 0 <= i < |ps| && ps[i].id == pollId ==>
              r[i].totalBetAmount == ps[i].totalBetAmount + amount
              && SumStakes(r[i].options) == SumStakes(ps[i].options) + (CountOptionId(ps[i].options, optionId) as real) * amount
              && r[i].(options := ps[i].options, totalBetAmount := ps[i].totalBetAmount, updatedAt := ps[i].updatedAt) == ps[i]
              && r[i].updatedAt == now
  {
    forall i | 0 <= i < |ps| && ps[i].id == pollId
      ensures SumStakes(BumpOptions(ps[i].options, optionId, amount))
              == SumStakes(ps[i].options) + (CountOptionId(ps[i].options, optionId) as real) * amount
    {
      BumpOptionsStakes(ps[i].options, optionId, amount);
    }
    seq(|ps|, i requires 0 <= i < |ps| => ApplyBet(ps[i], pollId, optionId, amount, now))
  }

  /** The bet `placeBet` appends. */
  function NewBet(id: string, userId: string, pollId: string, optionId: string, amount: real, now: int): (b: Bet)
    ensures b.status == Open && b.payout.None? && b.amount == amount
    ensures b.userId == userId && b.pollId == pollId && b.optionId == optionId
  {
    Bet(id, userId, pollId, optionId, amount, now, Open, None)
  }

  // ---------------------------------------------------------------- concludePoll

  /** `options.find(o => o.id === correctOptionId)?.betAmount || 0`: the stake on the winning option. */
  function WinningStake(p: Poll, correctOptionId: string): (w: real)
    ensures FindOption(p.options, correctOptionId).None? ==> w == 0.0
    ensures forall i :: 0 <= i < |p.options| && p.options[i].id == correctOptionId
                        && (forall j :: 0 <= j < i ==> p.options[j].id != correctOptionId)
                        ==> w == p.options[i].betAmount
  {
    match FindOption(p.options, correctOptionId)
    case None => 0.0
    case Some(o) => o.betAmount
  }

  /**
   * The pari-mutuel payout of a winning bet of `amount` when the winning
   * option holds `w` of a pool `t`: the stake back plus the bet's share of
   * the losing stakes. The source divides by `w` unguarded.
   */
  function WinPayout(amount: real, w: real, t: real): (r: real)
    requires w != 0.0
    ensures r == amount * t / w
    ensures w > 0.0 && t >= w && amount >= 0.0 ==> r >= amount
  {
    calc {
      amount + (amount / w) * (t - w);
      amount + amount * t / w - (amount / w) * w;
      amount * t / w;
    }
    ShareOfLosingStakes(amount, w, t);
    amount + (amount / w) * (t - w)
  }

  /** A non-negative stake's share of the losing stakes is non-negative when `0 < w <= t`. */
  lemma ShareOfLosingStakes(amount: real, w: real, t: real)
    requires w != 0.0
    ensures w > 0.0 && t >= w && amount >= 0.0 ==> (amount / w) * (t - w) >= 0.0
  {
    if w > 0.0 && t >= w && amount >= 0.0 {
      assert amount / w >= 0.0;
    }
  }

  /** The division in the settlement is defined: `w` is non-zero whenever some bet on the poll picked the winner. */
  ghost predicate SettlementDefined(bets: seq<Bet>, pollId: string, correctOptionId: string, w: real)
  {
    w != 0.0 || forall i :: 0 <= i < |bets| ==> !(bets[i].pollId == pollId && bets[i].optionId == correctOptionId)
  }

  /** `userBets.map(...)` in `concludePoll`, applied to one bet. */
  function SettleBet(b: Bet, pollId: string, correctOptionId: string, w: real, t: real): Bet
    requires b.pollId == pollId && b.optionId == correctOptionId ==> w != 0.0
  {
    if b.pollId == pollId then
      if b.optionId == correctOptionId then b.(status := Won, payout := Some(WinPayout(b.amount, w, t)))
      else b.(status := Lost, payout := Some(0.0))
    else b
  }

  /**
   * `userBets.map(...)` in `concludePoll`: every bet of the poll is settled
   * (won or lost, with a payout), the bets of other polls are left alone,
   * and no bet changes anything but its status and payout.
   */
  function SettleBets(bets: seq<Bet>, pollId: string, correctOptionId: string, w: real, t: real): (r: seq<Bet>)
    requires SettlementDefined(bets, pollId, correctOptionId, w)
    ensures |r| == |bets|
    ensures forall i :: 0 <= i < |bets| ==> r[i].(status := bets[i].status, payout := bets[i].payout) == bets[i]
    ensures forall i :: 0 <= i < |bets| && bets[i].pollId != pollId ==> r[i] == bets[i]
    ensures forall i :: 0 <= i < |bets| && bets[i].pollId == pollId ==>
              r[i].status != Open && r[i].payout.Some? && (r[i].status == Won <==> bets[i].optionId == correctOptionId)
  {
    seq(|bets|, i requires 0 <= i < |bets| => SettleBet(bets[i], pollId, correctOptionId, w, t))
  }

  /** The stake one bet places on one option of one poll. */
  function StakeOf(b: Bet, pollId: string, optionId: string): real
  {
    if b.pollId == pollId && b.optionId == optionId then b.amount else 0.0
  }

  /** Sum of the amounts staked by the bets on one option of one poll. */
  function StakeOn(bets: seq<Bet>, pollId: string, optionId: string): real
  {
    if bets == [] then 0.0 else StakeOf(bets[0], pollId, optionId) + StakeOn(bets[1..], pollId, optionId)
  }

  /** What one bet adds to the won payouts of a poll (a missing payout counts 0). */
  function WonPayoutOf(b: Bet, pollId: string): real
  {
    if b.pollId == pollId && b.status == Won then (match b.payout case Some(v) => v case None => 0.0) else 0.0
  }

  /** Sum of the payouts of the bets of one poll that are marked won. */
  function WonPayouts(bets: seq<Bet>, pollId: string): real
  {
    if bets == [] then 0.0 else WonPayoutOf(bets[0], pollId) + WonPayouts(bets[1..], pollId)
  }

  /** A stake's share of the pool: `stake * t / w`. */
  function Scaled(stake: real, t: real, w: real): real
    requires w != 0.0
  {
    stake * t / w
  }

  /** A settled bet pays out its stake on the winning option scaled by `t / w`. */
  lemma SettledBetPays(b: Bet, pollId: string, correctOptionId: string, w: real, t: real)
    requires w != 0.0
    ensures WonPayoutOf(SettleBet(b, pollId, correctOptionId, w, t), pollId) == Scaled(StakeOf(b, pollId, correctOptionId), t, w)
  {
  }

  /** After settlement the won payouts of the poll add up to its winning stake scaled by `t / w`. */
  lemma {:induction false} SettledPayoutsScale(bets: seq<Bet>, pollId: string, correctOptionId: string, w: real, t: real)
    requires w != 0.0
    ensures WonPayouts(SettleBets(bets, pollId, correctOptionId, w, t), pollId)
            == Scaled(StakeOn(bets, pollId, correctOptionId), t, w)
  {
    if bets != [] {
      var settled := SettleBets(bets, pollId, correctOptionId, w, t);
      var x, y := WonPayoutOf(settled[0], pollId), WonPayouts(settled[1..], pollId);
      var a, b := StakeOf(bets[0], pollId, correctOptionId), StakeOn(bets[1..], pollId, correctOptionId);
      assert WonPayouts(settled, pollId) == x + y;
      assert StakeOn(bets, pollId, correctOptionId) == a + b;
      assert y == Scaled(b, t, w) by {
        SettleBetsSplit(bets, pollId, correctOptionId, w, t);
        SettledPayoutsScale(bets[1..], pollId, correctOptionId, w, t);
      }
      assert x == Scaled(a, t, w) by {
        SettleBetsSplit(bets, pollId, correctOptionId, w, t);
        SettledBetPays(bets[0], pollId, correctOptionId, w, t);
      }
      DivDistributes(x, y, a, b, t, w);
    }
  }

  lemma SettleBetsSplit(bets: seq<Bet>, pollId: string, correctOptionId: string, w: real, t: real)
    requires w != 0.0 && bets != []
    ensures SettleBets(bets, pollId, correctOptionId, w, t)[1..] == SettleBets(bets[1..], pollId, correctOptionId, w, t)
    ensures SettleBets(bets, pollId, correctOptionId, w, t)[0] == SettleBet(bets[0], pollId, correctOptionId, w, t)
  {
  }

  lemma DivDistributes(x: real, y: real, a: real, b: real, t: real, w: real)
    requires w != 0.0 && x == Scaled(a, t, w) && y == Scaled(b, t, w)
    ensures x + y == Scaled(a + b, t, w)
  {
  }

  /**
   * Conservation: when the winning option's recorded stake is exactly what
   * the bets on it add up to, settlement pays the winners the whole pool.
   */
  lemma WinnersShareThePool(bets: seq<Bet>, pollId: string, correctOptionId: string, w: real, t: real)
    requires w != 0.0 && StakeOn(bets, pollId, correctOptionId) == w
    ensures WonPayouts(SettleBets(bets, pollId, correctOptionId, w, t), pollId) == t
  {
    SettledPayoutsScale(bets, pollId, correctOptionId, w, t);
    assert Scaled(w, t, w) == t by {
      assert w * t == t * w;
      assert (t * w) / w == t;
    }
  }

  /** `polls.map(...)` in `concludePoll`, applied to one poll. */
  function Conclude(p: Poll, pollId: string, correctOptionId: string, now: int): Poll
  {
    if p.id == pollId then p.(status := Completed, correctOptionId := Some(correctOptionId), updatedAt := now)
    else p
  }

  /**
   * `polls.map(...)` in `concludePoll`: the polls with the id become completed
   * with the chosen option recorded; no poll changes its id, options or total.
   */
  function ConcludeAll(ps: seq<Poll>, pollId: string, correctOptionId: string, now: int): (r: seq<Poll>)
    ensures |r| == |ps|
    ensures forall i :: 0 <= i < |ps| ==>
              r[i].id == ps[i].id && r[i].options == ps[i].options && r[i].totalBetAmount == ps[i].totalBetAmount
    ensures forall i :: 0 <= i < |ps| && ps[i].id != pollId ==> r[i] == ps[i]
    ensures forall i :: 0 <= i < |ps| && ps[i].id == pollId ==>
              r[i].status == Completed && r[i].correctOptionId == Some(correctOptionId)
              && r[i].(status := ps[i].status, correctOptionId := ps[i].correctOptionId, updatedAt := ps[i].updatedAt) == ps[i]
  {
    seq(|ps|, i requires 0 <= i < |ps| => Conclude(ps[i], pollId, correctOptionId, now))
  }

  // ---------------------------------------------------------------- the store

  class PollStore {
    var polls: seq<Poll>
    var userBets: seq<Bet>

    /** Every poll's total equals the sum of its option stakes. */
    ghost predicate TotalsConsistent()
      reads this
    {
      forall i :: 0 <= i < |polls| ==> TotalMatchesStakes(polls[i])
    }

    constructor (initialPolls: seq<Poll>, initialBets: seq<Bet>)
      ensures polls == initialPolls && userBets == initialBets
    {
      polls := initialPolls;
      userBets := initialBets;
    }

    /** `getPoll`: the first poll with the id, if any. */
    function GetPoll(id: string): (r: Option<Poll>)
      reads this
      ensures r.Some? ==> r.value in polls && r.value.id == id
      ensures r.None? <==> forall i :: 0 <= i < |polls| ==> polls[i].id != id
    {
      FindPoll(polls, id)
    }

    /** `getUserBets`: the bets of one user, each as often as it was placed. */
    function GetUserBets(userId: string): (r: seq<Bet>)
      reads this
      ensures forall b :: multiset(r)[b] == if b.userId == userId then multiset(userBets)[b] else 0
    {
      var r := Seqs.Filter(userBets, (b: Bet) => b.userId == userId);
      forall b ensures multiset(r)[b] == if b.userId == userId then multiset(userBets)[b] else 0 {
        Seqs.FilterMultiset(userBets, (b: Bet) => b.userId == userId, b);
      }
      r
    }

    method CreatePoll(user: Option<User>, draft: PollDraft, freshId: string, now: int) returns (r: Outcome)
      modifies this
      ensures CreatePollCheck(user).Some? ==> r == Rejected(CreatePollCheck(user).value) && polls == old(polls)
      ensures CreatePollCheck(user).None? ==>
                r == Accepted(user.value.balance - POLL_CREATION_COST)
                && polls == old(polls) + [NewPoll(draft, freshId, now)]
      ensures userBets == old(userBets)
      ensures old(TotalsConsistent()) && SumStakes(draft.options) == 0.0 ==> TotalsConsistent()
    {
      var check := CreatePollCheck(user);
      if check.Some? {
        return Rejected(check.value);
      }
      polls := polls + [NewPoll(draft, freshId, now)];
      r := Accepted(user.value.balance - POLL_CREATION_COST);
    }

    method PlaceBet(user: Option<User>, pollId: string, optionId: string, amount: real, betId: string, now: int)
      returns (r: Outcome)
      modifies this
      ensures PlaceBetCheck(user, amount).Some? ==>
                r == Rejected(PlaceBetCheck(user, amount).value)
                && polls == old(polls) && userBets == old(userBets)
      ensures PlaceBetCheck(user, amount).None? ==>
                r == Accepted(user.value.balance - amount)
                && userBets == old(userBets) + [NewBet(betId, user.value.id, pollId, optionId, amount, now)]
      ensures PlaceBetCheck(user, amount).None? ==>
                |polls| == |old(polls)|
                && (forall i :: 0 <= i < |polls| && old(polls)[i].id != pollId ==> polls[i] == old(polls)[i])
                && (forall i :: 0 <= i < |polls| && old(polls)[i].id == pollId ==>
                      polls[i].totalBetAmount == old(polls)[i].totalBetAmount + amount
                      && polls[i].options == BumpOptions(old(polls)[i].options, optionId, amount)
                      && polls[i] == old(polls)[i].(options := polls[i].options,
                                                    totalBetAmount := polls[i].totalBetAmount,
                                                    updatedAt := now))
      ensures old(TotalsConsistent())
              && (forall i :: 0 <= i < |old(polls)| && old(polls)[i].id == pollId ==> CountOptionId(old(polls)[i].options, optionId) == 1)
              ==> TotalsConsistent()
    {
      var check := PlaceBetCheck(user, amount);
      if check.Some? {
        return Rejected(check.value);
      }
      ghost var before := polls;
      polls := ApplyBetToPolls(polls, pollId, optionId, amount, now);
      userBets := userBets + [NewBet(betId, user.value.id, pollId, optionId, amount, now)];
      r := Accepted(user.value.balance - amount);
      if (forall i :: 0 <= i < |before| ==> TotalMatchesStakes(before[i]))
         && (forall i :: 0 <= i < |before| && before[i].id == pollId ==> CountOptionId(before[i].options, optionId) == 1) {
        forall i | 0 <= i < |polls| ensures TotalMatchesStakes(polls[i]) {
          ApplyBetKeepsTotal(before[i], pollId, optionId, amount, now);
        }
      }
    }

    method ConcludePoll(pollId: string, correctOptionId: string, now: int)
      requires FindPoll(polls, pollId).Some? ==>
                 SettlementDefined(userBets, pollId, correctOptionId, WinningStake(FindPoll(polls, pollId).value, correctOptionId))
      modifies this
      ensures |polls| == |old(polls)|
      ensures forall i :: 0 <= i < |polls| ==> polls[i] == Conclude(old(polls)[i], pollId, correctOptionId, now)
      ensures FindPoll(old(polls), pollId).None? ==> userBets == old(userBets)
      ensures FindPoll(old(polls), pollId).Some? ==>
                var target := FindPoll(old(polls), pollId).value;
                userBets == SettleBets(old(userBets), pollId, correctOptionId,
                                       WinningStake(target, correctOptionId), target.totalBetAmount)
      ensures old(TotalsConsistent()) ==> TotalsConsistent()
    {
      // The settlement reads the polls as they were before this call.
      var target := FindPoll(polls, pollId);
      polls := ConcludeAll(polls, pollId, correctOptionId, now);
      if target.None? {
        return;
      }
      var t := target.value.totalBetAmount;
      var w := WinningStake(target.value, correctOptionId);
      userBets := SettleBets(userBets, pollId, correctOptionId, w, t);
    }
  }

  // ---------------------------------------------------------------- settlement, bet by bet

  /** Settlement leaves the bets of other polls alone. */
  lemma SettleOtherPolls(bets: seq<Bet>, pollId: string, correctOptionId: string, w: real, t: real, i: int)
    requires SettlementDefined(bets, pollId, correctOptionId, w)
    requires 0 <= i < |bets| && bets[i].pollId != pollId
    ensures SettleBets(bets, pollId, correctOptionId, w, t)[i] == bets[i]
  {
  }

  /** Settlement marks a bet on a losing option lost with nothing paid, and changes nothing else of it. */
  lemma SettleLosers(bets: seq<Bet>, pollId: string, correctOptionId: string, w: real, t: real, i: int)
    requires SettlementDefined(bets, pollId, correctOptionId, w)
    requires 0 <= i < |bets| && bets[i].pollId == pollId && bets[i].optionId != correctOptionId
    ensures SettleBets(bets, pollId, correctOptionId, w, t)[i] == bets[i].(status := Lost, payout := Some(0.0))
  {
  }

  /**
   * Settlement marks a bet on the winning option won and pays it at least
   * its stake, provided the winning stake is positive and at most the pool.
   */
  lemma SettleWinners(bets: seq<Bet>, pollId: string, correctOptionId: string, w: real, t: real, i: int)
    requires SettlementDefined(bets, pollId, correctOptionId, w)
    requires 0 <= i < |bets| && bets[i].pollId == pollId && bets[i].optionId == correctOptionId
    ensures w != 0.0
    ensures SettleBets(bets, pollId, correctOptionId, w, t)[i]
            == bets[i].(status := Won, payout := Some(bets[i].amount * t / w))
    ensures w > 0.0 && t >= w && bets[i].amount >= 0.0 ==>
              SettleBets(bets, pollId, correctOptionId, w, t)[i].payout.value >= bets[i].amount
  {
    assert w != 0.0 by {
      assert bets[i].pollId == pollId && bets[i].optionId == correctOptionId;
    }
    assert SettleBets(bets, pollId, correctOptionId, w, t)[i]
           == bets[i].(status := Won, payout := Some(WinPayout(bets[i].amount, w, t)));
    assert WinPayout(bets[i].amount, w, t) == bets[i].amount * t / w;
  }
}

/**
 * The bet form shown on an active poll: its fail-fast submit checks, the
 * submit that hands the bet to the store and clears the form, the button's
 * disabled rule, and the "potential return" preview.
 */
module BetForm {
  import opened Types
  import opened PollContext

  datatype BetFormError = MustLogIn | NoOptionSelected | AmountNotPositive | InsufficientMemex | StoreRejected(StoreError)

  const DEFAULT_BET_AMOUNT: real := 10.0

  /**
   * The submit checks in the order the form runs them: a user, a selected
   * option, a positive amount, an amount within the balance. When they all
   * pass, the store's own guards pass too, so its error path is never taken.
   */
  function ValidateBet(user: Option<User>, selectedOption: string, betAmount: real): (r: Option<BetFormError>)
    ensures r == Some(MustLogIn) <==> user.None?
    ensures r == Some(NoOptionSelected) <==> user.Some? && selectedOption == ""
    ensures r == Some(AmountNotPositive) <==> user.Some? && selectedOption != "" && betAmount <= 0.0
    ensures r == Some(InsufficientMemex) <==>
              user.Some? && selectedOption != "" && betAmount > 0.0 && betAmount > user.value.balance
    ensures r.None? ==> PlaceBetCheck(user, betAmount).None?
  {
    if user.None? then Some(MustLogIn)
    else if selectedOption == "" then Some(NoOptionSelected)
    else if betAmount <= 0.0 then Some(AmountNotPositive)
    else if betAmount > user.value.balance then Some(InsufficientMemex)
    else None
  }

  /** Every option stake of the poll is non-negative. */
  predicate StakesNonNegative(poll: Poll)
  {
    forall i :: 0 <= i < |poll.options| ==> poll.options[i].betAmount >= 0.0
  }

  /**
   * `calculatePotentialReturn`: 0 without a selection, for a non-positive
   * amount or for an id that is not an option of the poll; otherwise the
   * pool after the bet over the option's stake after the bet, times the amount.
   */
  function PotentialReturn(poll: Poll, selectedOption: string, betAmount: real): (r: real)
    requires StakesNonNegative(poll)
    ensures selectedOption == "" || betAmount <= 0.0 || FindOption(poll.options, selectedOption).None? ==> r == 0.0
  {
    if selectedOption == "" || betAmount <= 0.0 then 0.0
    else match FindOption(poll.options, selectedOption)
      case None => 0.0
      case Some(option) =>
        var totalBet := poll.totalBetAmount + betAmount;
        var optionTotal := option.betAmount + betAmount;
        (totalBet / optionTotal) * betAmount
  }

  /**
   * The preview is exactly the payout the bet would earn if the poll were
   * concluded for that option right after it is placed, and so it is at least
   * the amount whenever the pool is at least the option's stake.
   */
  lemma PotentialReturnIsPayout(poll: Poll, selectedOption: string, betAmount: real)
    requires StakesNonNegative(poll)
    requires selectedOption != "" && betAmount > 0.0 && FindOption(poll.options, selectedOption).Some?
    ensures var w := FindOption(poll.options, selectedOption).value.betAmount;
            PotentialReturn(poll, selectedOption, betAmount)
              == WinPayout(betAmount, w + betAmount, poll.totalBetAmount + betAmount)
    ensures poll.totalBetAmount >= FindOption(poll.options, selectedOption).value.betAmount ==>
              PotentialReturn(poll, selectedOption, betAmount) >= betAmount
  {
    var w := FindOption(poll.options, selectedOption).value.betAmount;
    var t := poll.totalBetAmount;
    assert w >= 0.0;
    assert PotentialReturn(poll, selectedOption, betAmount) == ((t + betAmount) / (w + betAmount)) * betAmount;
    RatioTimesStake(betAmount, w + betAmount, t + betAmount);
  }

  /** Pool over stake, times the amount, is the settlement payout formula. */
  lemma RatioTimesStake(amount: real, w: real, t: real)
    requires w != 0.0
    ensures (t / w) * amount == WinPayout(amount, w, t)
  {
    assert (t / w) * amount == amount * t / w;
  }

  class BetFormState {
    const poll: Poll
    var selectedOption: string
    var betAmount: real
    var isSubmitting: bool
    var error: Option<BetFormError>
    var success: Option<string>

    constructor (poll: Poll)
      ensures this.poll == poll
      ensures selectedOption == "" && betAmount == DEFAULT_BET_AMOUNT && !isSubmitting
      ensures error.None? && success.None?
    {
      this.poll := poll;
      selectedOption := "";
      betAmount := DEFAULT_BET_AMOUNT;
      isSubmitting := false;
      error := None;
      success := None;
    }

    /** Clicking an option selects it. */
    method SelectOption(id: string)
      modifies this
      ensures selectedOption == id
      ensures betAmount == old(betAmount) && isSubmitting == old(isSubmitting)
      ensures error == old(error) && success == old(success)
    {
      selectedOption := id;
    }

    /**
     * The submit button is disabled without an option, with a non-positive
     * amount, while submitting, or with no user. Outside a submission it is
     * disabled exactly when one of the first three submit checks would fail,
     * so an enabled button can only be refused for the balance check.
     */
    function SubmitDisabled(user: Option<User>): (r: bool)
      reads this
      ensures !r ==> ValidateBet(user, selectedOption, betAmount).None?
                     || ValidateBet(user, selectedOption, betAmount) == Some(InsufficientMemex)
      ensures r && !isSubmitting ==> ValidateBet(user, selectedOption, betAmount).Some?
                                     && ValidateBet(user, selectedOption, betAmount) != Some(InsufficientMemex)
    {
      selectedOption == "" || betAmount <= 0.0 || isSubmitting || user.None?
    }

    /**
     * `handleSubmit`: on the first failing check, record its error and change
     * nothing else; otherwise place the bet on the store, report success and
     * clear the form (no option, amount back to 10).
     */
    method HandleSubmit(user: Option<User>, store: PollStore, betId: string, now: int)
      modifies this, store
      ensures ValidateBet(user, old(selectedOption), old(betAmount)).Some? ==>
                error == ValidateBet(user, old(selectedOption), old(betAmount))
                && store.polls == old(store.polls) && store.userBets == old(store.userBets)
                && selectedOption == old(selectedOption) && betAmount == old(betAmount)
                && isSubmitting == old(isSubmitting) && success == old(success)
      ensures ValidateBet(user, old(selectedOption), old(betAmount)).None? ==>
                store.userBets == old(store.userBets)
                                  + [NewBet(betId, user.value.id, poll.id, old(selectedOption), old(betAmount), now)]
                && store.polls == ApplyBetToPolls(old(store.polls), poll.id, old(selectedOption), old(betAmount), now)
                && error.None? && success.Some?
                && selectedOption == "" && betAmount == DEFAULT_BET_AMOUNT && !isSubmitting
    {
      var invalid := ValidateBet(user, selectedOption, betAmount);
      if invalid.Some? {
        error := invalid;
        return;
      }
      isSubmitting := true;
      error := None;
      var outcome := store.PlaceBet(user, poll.id, selectedOption, betAmount, betId, now);
      // The form's checks imply the store's, so the store's error path is never taken here.
      assert outcome.Accepted?;
      assert store.polls == ApplyBetToPolls(old(store.polls), poll.id, selectedOption, betAmount, now);
      success := Some("Your bet has been placed successfully!");
      selectedOption := "";
      betAmount := DEFAULT_BET_AMOUNT;
      isSubmitting := false;
    }
  }
}

/**
 * The admin poll table: the per-row actions, the delete dialog (which
 * deletes nothing) and the conclude dialog that hands the chosen option to
 * the store.
 */
module PollManagement {
  import opened Types
  import opened PollContext

  /** The Conclude and Delete actions are offered on a row exactly when its poll is active. */
  function ActionsVisible(p: Poll): (r: bool)
    ensures r <==> StatusName(p.status) == "active"
    ensures r <==> p.status != Completed && p.status != Canceled
  {
    p.status == Active
  }

  /** Concluding a poll removes its actions; a bet on it leaves them. */
  lemma ActionsAfterConclusion(p: Poll, correctOptionId: string, optionId: string, amount: real, now: int)
    ensures !ActionsVisible(Conclude(p, p.id, correctOptionId, now))
    ensures ActionsVisible(ApplyBet(p, p.id, optionId, amount, now)) == ActionsVisible(p)
  {
  }

  class PollManagementState {
    var selectedPoll: Option<Poll>
    var isDeleteModalOpen: bool
    var isConcludeModalOpen: bool
    var selectedOptionId: string

    /** The selected option, if any, is an option of the selected poll. */
    ghost predicate SelectionFits()
      reads this
    {
      selectedOptionId == ""
      || (selectedPoll.Some?
          && exists i :: 0 <= i < |selectedPoll.value.options| && selectedPoll.value.options[i].id == selectedOptionId)
    }

    constructor ()
      ensures selectedPoll.None? && !isDeleteModalOpen && !isConcludeModalOpen && selectedOptionId == ""
      ensures SelectionFits()
    {
      selectedPoll := None;
      isDeleteModalOpen := false;
      isConcludeModalOpen := false;
      selectedOptionId := "";
    }

    /** `handleDelete`: selects the row's poll and opens the delete dialog. */
    method HandleDelete(poll: Poll)
      modifies this
      ensures selectedPoll == Some(poll) && isDeleteModalOpen
      ensures isConcludeModalOpen == old(isConcludeModalOpen) && selectedOptionId == old(selectedOptionId)
    {
      selectedPoll := Some(poll);
      isDeleteModalOpen := true;
    }

    /** `handleConclude` as written: selects the row's poll and opens the dialog, keeping any earlier option choice. */
    method HandleConclude(poll: Poll)
      modifies this
      ensures selectedPoll == Some(poll) && isConcludeModalOpen
      ensures isDeleteModalOpen == old(isDeleteModalOpen) && selectedOptionId == old(selectedOptionId)
    {
      selectedPoll := Some(poll);
      isConcludeModalOpen := true;
    }

    /** `handleConclude` with the option choice cleared, so a choice made for another poll cannot carry over. */
    method HandleConcludeClearingSelection(poll: Poll)
      modifies this
      ensures selectedPoll == Some(poll) && isConcludeModalOpen && selectedOptionId == ""
      ensures isDeleteModalOpen == old(isDeleteModalOpen)
      ensures SelectionFits()
    {
      selectedPoll := Some(poll);
      isConcludeModalOpen := true;
      selectedOptionId := "";
    }

    /** Clicking the `i`-th option listed in the dialog selects it. */
    method SelectOption(i: int)
      requires selectedPoll.Some? && 0 <= i < |selectedPoll.value.options|
      modifies this
      ensures selectedPoll == old(selectedPoll) && isDeleteModalOpen == old(isDeleteModalOpen)
      ensures selectedOptionId == selectedPoll.value.options[i].id
      ensures isConcludeModalOpen == old(isConcludeModalOpen)
      ensures SelectionFits()
    {
      selectedOptionId := selectedPoll.value.options[i].id;
    }

    /** Cancelling (or closing) the conclude dialog only hides it. */
    method CloseConcludeModal()
      modifies this
      ensures !isConcludeModalOpen
      ensures selectedPoll == old(selectedPoll) && isDeleteModalOpen == old(isDeleteModalOpen)
      ensures selectedOptionId == old(selectedOptionId)
      ensures old(SelectionFits()) ==> SelectionFits()
    {
      isConcludeModalOpen := false;
    }

    /** `confirmDelete`: closes the dialog; no poll is deleted. */
    method ConfirmDelete()
      modifies this
      ensures !isDeleteModalOpen
      ensures selectedPoll == old(selectedPoll) && isConcludeModalOpen == old(isConcludeModalOpen)
      ensures selectedOptionId == old(selectedOptionId)
    {
      isDeleteModalOpen := false;
    }

    /**
     * `confirmConclude`: with a poll and an option selected, concludes that
     * poll for that option and closes the dialog; otherwise does nothing.
     * When the selection fits, the recorded correct option is one of the
     * selected poll's options.
     */
    method ConfirmConclude(store: PollStore, now: int)
      requires selectedPoll.Some? && selectedOptionId != "" && FindPoll(store.polls, selectedPoll.value.id).Some? ==>
                 SettlementDefined(store.userBets, selectedPoll.value.id, selectedOptionId,
                                   WinningStake(FindPoll(store.polls, selectedPoll.value.id).value, selectedOptionId))
      modifies this, store
      ensures selectedPoll == old(selectedPoll) && selectedOptionId == old(selectedOptionId)
      ensures isDeleteModalOpen == old(isDeleteModalOpen)
      ensures !(selectedPoll.Some? && selectedOptionId != "") ==>
                store.polls == old(store.polls) && store.userBets == old(store.userBets)
                && isConcludeModalOpen == old(isConcludeModalOpen)
      ensures selectedPoll.Some? && selectedOptionId != "" ==>
                !isConcludeModalOpen
                && |store.polls| == |old(store.polls)|
                && (forall i :: 0 <= i < |store.polls| ==>
                      store.polls[i] == Conclude(old(store.polls)[i], selectedPoll.value.id, selectedOptionId, now))
                && (FindPoll(old(store.polls), selectedPoll.value.id).None? ==> store.userBets == old(store.userBets))
                && (FindPoll(old(store.polls), selectedPoll.value.id).Some? ==>
                      var target := FindPoll(old(store.polls), selectedPoll.value.id).value;
                      store.userBets == SettleBets(old(store.userBets), selectedPoll.value.id, selectedOptionId,
                                                   WinningStake(target, selectedOptionId), target.totalBetAmount))
      ensures SelectionFits() && selectedOptionId != "" ==>
                exists i :: 0 <= i < |selectedPoll.value.options| && selectedPoll.value.options[i].id == selectedOptionId
    {
      if selectedPoll.Some? && selectedOptionId != "" {
        store.ConcludePoll(selectedPoll.value.id, selectedOptionId, now);
        isConcludeModalOpen := false;
      }
    }
  }

  /**
   * The dialog as written: choose the first option of poll A, cancel, open
   * the dialog on poll B and confirm. Poll B is concluded for A's option,
   * which B does not have, and the bet on B is settled as lost with nothing
   * paid.
   */
  method StaleSelectionConcludesForeignOption() returns (concluded: Poll, settled: Bet)
    ensures concluded.id == "B" && concluded.status == Completed && concluded.correctOptionId == Some("a1")
    ensures FindOption(concluded.options, "a1").None?
    ensures settled.pollId == "B" && settled.status == Lost && settled.payout == Some(0.0)
  {
    var a := Poll("A", "Poll A", "First poll", [PollOption("a1", "Yes", 0.0, 0), PollOption("a2", "No", 0.0, 0)],
                  "1", 0, 100, Active, None, 0.0, "Sports", 0, 0);
    var b := Poll("B", "Poll B", "Second poll", [PollOption("b1", "Yes", 10.0, 1), PollOption("b2", "No", 0.0, 0)],
                  "1", 0, 100, Active, None, 10.0, "Sports", 0, 0);
    var bet := Bet("x", "2", "B", "b1", 10.0, 0, Open, None);
    var store := new PollStore([a, b], [bet]);
    var page := new PollManagementState();
    page.HandleConclude(a);
    page.SelectOption(0);
    page.CloseConcludeModal();
    page.HandleConclude(b);
    assert FindPoll(store.polls, "B") == Some(b);
    assert WinningStake(b, "a1") == 0.0;
    page.ConfirmConclude(store, 50);
    concluded := store.polls[1];
    settled := store.userBets[0];
  }

  /**
   * With the selection cleared on opening, the same steps conclude nothing:
   * the dialog on poll B starts with no option chosen.
   */
  method ClearedSelectionConcludesNothing() returns (untouched: Poll)
    ensures untouched.id == "B" && untouched.status == Active && untouched.correctOptionId.None?
  {
    var a := Poll("A", "Poll A", "First poll", [PollOption("a1", "Yes", 0.0, 0), PollOption("a2", "No", 0.0, 0)],
                  "1", 0, 100, Active, None, 0.0, "Sports", 0, 0);
    var b := Poll("B", "Poll B", "Second poll", [PollOption("b1", "Yes", 10.0, 1), PollOption("b2", "No", 0.0, 0)],
                  "1", 0, 100, Active, None, 10.0, "Sports", 0, 0);
    var store := new PollStore([a, b], [Bet("x", "2", "B", "b1", 10.0, 0, Open, None)]);
    var page := new PollManagementState();
    page.HandleConcludeClearingSelection(a);
    page.SelectOption(0);
    page.CloseConcludeModal();
    page.HandleConcludeClearingSelection(b);
    page.ConfirmConclude(store, 50);
    untouched := store.polls[1];
  }
}

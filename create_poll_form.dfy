/**
 * The member's poll-creation form: it checks the session and the creation
 * fee itself before the content checks, so by the time it calls the store
 * the store's own guards already hold.
 */
module CreatePollForm {
  import opened Types
  import opened PollContext
  import opened PollFormState

  /**
   * The member form's submit checks: logged in, then the creation fee
   * covered, then the content checks. Passing them all means the store
   * will accept the poll.
   */
  function ValidateSubmit(user: Option<User>, title: string, description: string, endDate: string,
                          endMs: int, now: int, opts: seq<DraftOption>): (r: Option<FormError>)
    ensures r == Some(MustLogIn) <==> user.None?
    ensures r == Some(NeedsCreationFee) <==> user.Some? && user.value.balance < POLL_CREATION_COST
    ensures user.Some? && user.value.balance >= POLL_CREATION_COST ==>
              r == ValidateContent(title, description, endDate, endMs, now, opts)
    ensures r.None? ==> CreatePollCheck(user).None?
  {
    if user.None? then Some(MustLogIn)
    else if user.value.balance < POLL_CREATION_COST then Some(NeedsCreationFee)
    else ValidateContent(title, description, endDate, endMs, now, opts)
  }

  /**
   * `handleSubmit` of the member form. On a failed check only the error
   * changes. Otherwise the store appends the drafted poll (created by the
   * user, starting `now`, options unstaked) and the form is reset.
   */
  method HandleSubmit(form: PollForm, user: Option<User>, store: PollStore, endMs: int, freshId: string, now: int)
    modifies form, store
    ensures var v := ValidateSubmit(user, old(form.title), old(form.description), old(form.endDate), endMs, now,
                                    old(form.options));
            v.Some? ==>
              form.error == v && store.polls == old(store.polls) && store.userBets == old(store.userBets)
              && form.title == old(form.title) && form.description == old(form.description)
              && form.category == old(form.category) && form.endDate == old(form.endDate)
              && form.options == old(form.options) && form.isSubmitting == old(form.isSubmitting)
    ensures var v := ValidateSubmit(user, old(form.title), old(form.description), old(form.endDate), endMs, now,
                                    old(form.options));
            v.None? ==>
              store.polls == old(store.polls)
                             + [NewPoll(DraftFor(old(form.title), old(form.description), old(form.options),
                                                 user.value.id, endMs, now, old(form.category)), freshId, now)]
              && store.userBets == old(store.userBets)
              && form.title == "" && form.description == "" && form.category == DEFAULT_CATEGORY
              && form.endDate == "" && form.options == INITIAL_OPTIONS
              && form.error.None? && !form.isSubmitting
    ensures old(store.TotalsConsistent()) ==> store.TotalsConsistent()
    ensures old(form.Valid()) ==> form.Valid()
  {
    var invalid := ValidateSubmit(user, form.title, form.description, form.endDate, endMs, now, form.options);
    if invalid.Some? {
      form.error := invalid;
      return;
    }
    form.isSubmitting := true;
    form.error := None;
    var draft := DraftFor(form.title, form.description, form.options, user.value.id, endMs, now, form.category);
    var outcome := store.CreatePoll(user, draft, freshId, now);
    // The form has already run the store's guards, so the store does not throw here.
    assert outcome.Accepted?;
    form.Reset();
    form.isSubmitting := false;
  }
}

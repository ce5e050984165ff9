/**
 * The administrator's poll-creation form: the same fields and content
 * checks as the member form, but no session or fee check of its own; the
 * store's guards decide, and their error is shown instead of a reset.
 */
module AdminCreatePollForm {
  import opened Types
  import opened PollContext
  import opened PollFormState

  /** `user?.id || ''`: the creator recorded on the draft. */
  function CreatorId(user: Option<User>): string
  {
    if user.Some? then user.value.id else ""
  }

  /**
   * `handleSubmit` of the admin form. A failed content check only sets the
   * error. Past them, the store's guards decide: a refusal is shown as the
   * error and the form keeps its fields; an acceptance appends the poll,
   * which then always names the logged-in user as creator (the empty
   * fallback never reaches the store), and resets the form.
   */
  method HandleSubmit(form: PollForm, user: Option<User>, store: PollStore, endMs: int, freshId: string, now: int)
    modifies form, store
    ensures var v := ValidateContent(old(form.title), old(form.description), old(form.endDate), endMs, now,
                                     old(form.options));
            v.Some? ==>
              form.error == v && store.polls == old(store.polls) && store.userBets == old(store.userBets)
              && form.title == old(form.title) && form.description == old(form.description)
              && form.category == old(form.category) && form.endDate == old(form.endDate)
              && form.options == old(form.options) && form.isSubmitting == old(form.isSubmitting)
    ensures var v := ValidateContent(old(form.title), old(form.description), old(form.endDate), endMs, now,
                                     old(form.options));
            v.None? && CreatePollCheck(user).Some? ==>
              form.error == Some(StoreRejected(CreatePollCheck(user).value))
              && store.polls == old(store.polls) && store.userBets == old(store.userBets)
              && form.title == old(form.title) && form.description == old(form.description)
              && form.category == old(form.category) && form.endDate == old(form.endDate)
              && form.options == old(form.options) && !form.isSubmitting
    ensures var v := ValidateContent(old(form.title), old(form.description), old(form.endDate), endMs, now,
                                     old(form.options));
            v.None? && CreatePollCheck(user).None? ==>
              store.polls == old(store.polls)
                             + [NewPoll(DraftFor(old(form.title), old(form.description), old(form.options),
                                                 user.value.id, endMs, now, old(form.category)), freshId, now)]
              && store.userBets == old(store.userBets)
              && form.title == "" && form.description == "" && form.category == DEFAULT_CATEGORY
              && form.endDate == "" && form.options == INITIAL_OPTIONS
              && form.error.None? && !form.isSubmitting
    ensures old(store.TotalsConsistent()) ==> store.TotalsConsistent()
    ensures old(form.Valid()) ==> form.Valid()
  {
    var invalid := ValidateContent(form.title, form.description, form.endDate, endMs, now, form.options);
    if invalid.Some? {
      form.error := invalid;
      return;
    }
    form.isSubmitting := true;
    form.error := None;
    var draft := DraftFor(form.title, form.description, form.options, CreatorId(user), endMs, now, form.category);
    var outcome := store.CreatePoll(user, draft, freshId, now);
    if outcome.Rejected? {
      form.error := Some(StoreRejected(outcome.error));
    } else {
      form.Reset();
    }
    form.isSubmitting := false;
  }
}

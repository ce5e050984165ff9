/**
 * The state both poll-creation forms keep (the member form and the admin
 * form are the same component apart from their submit): the text fields,
 * the editable list of options, and the checks on the poll's content that
 * both run before handing a draft to the store.
 */
module PollFormState {
  import opened Types
  import opened PollContext
  import Seqs

  /** An option as the form edits it: an id and its text, no stake yet. */
  datatype DraftOption = DraftOption(id: string, text: string)

  datatype FormError =
    | MustLogIn
    | NeedsCreationFee
    | TitleRequired
    | DescriptionRequired
    | EndDateRequired
    | EndDateNotFuture
    | OptionTextRequired
    | OptionsNotUnique
    | TooFewOptions
    | StoreRejected(StoreError)

  const DEFAULT_CATEGORY: string := "Cryptocurrency"

  /** The two empty options a fresh or reset form starts with. */
  const INITIAL_OPTIONS: seq<DraftOption> := [DraftOption("1", ""), DraftOption("2", "")]

  // ---------------------------------------------------------------- option ids

  function CountId(opts: seq<DraftOption>, id: string): nat
  {
    if opts == [] then 0 else (if opts[0].id == id then 1 else 0) + CountId(opts[1..], id)
  }

  /** No id occurs twice among the options. */
  ghost predicate UniqueIds(opts: seq<DraftOption>)
  {
    forall id :: CountId(opts, id) <= 1
  }

  /** The filter predicate of `removeOption`. */
  function NotId(id: string): DraftOption -> bool
  {
    (o: DraftOption) => o.id != id
  }

  /** `options.filter(option => option.id !== idToRemove)`. */
  function WithoutOption(opts: seq<DraftOption>, id: string): seq<DraftOption>
  {
    Seqs.Filter(opts, NotId(id))
  }

  /**
   * Removing an id drops exactly its occurrences: no option with it is left,
   * every other id keeps its count, and the list shrinks by that many.
   */
  lemma {:induction false} WithoutOptionCounts(opts: seq<DraftOption>, removed: string, id: string)
    ensures CountId(WithoutOption(opts, removed), id) == if id == removed then 0 else CountId(opts, id)
    ensures |WithoutOption(opts, removed)| == |opts| - CountId(opts, removed)
  {
    if opts != [] {
      WithoutOptionCounts(opts[1..], removed, id);
      var rest := WithoutOption(opts[1..], removed);
      if NotId(removed)(opts[0]) {
        assert WithoutOption(opts, removed) == [opts[0]] + rest;
        assert ([opts[0]] + rest)[1..] == rest;
      } else {
        assert WithoutOption(opts, removed) == rest;
      }
    }
  }

  /** Appending one option adds one to the count of its id only. */
  lemma {:induction false} AppendCount(opts: seq<DraftOption>, o: DraftOption, id: string)
    ensures CountId(opts + [o], id) == CountId(opts, id) + (if o.id == id then 1 else 0)
  {
    if opts != [] {
      AppendCount(opts[1..], o, id);
      assert (opts + [o])[1..] == opts[1..] + [o];
    }
  }

  /** A removal from more than two options with unique ids leaves at least two, still unique. */
  lemma RemoveKeepsTwo(opts: seq<DraftOption>, removed: string)
    requires |opts| > 2 && UniqueIds(opts)
    ensures |WithoutOption(opts, removed)| >= 2
    ensures UniqueIds(WithoutOption(opts, removed))
  {
    WithoutOptionCounts(opts, removed, removed);
    forall id ensures CountId(WithoutOption(opts, removed), id) <= 1 {
      WithoutOptionCounts(opts, removed, id);
    }
  }

  /** `updateOptionText`: every option with the id takes the new text; ids and order stay. */
  function WithOptionText(opts: seq<DraftOption>, id: string, text: string): (r: seq<DraftOption>)
    ensures |r| == |opts|
    ensures forall i :: 0 <= i < |r| ==> r[i].id == opts[i].id
    ensures forall i :: 0 <= i < |r| ==> r[i].text == if opts[i].id == id then text else opts[i].text
  {
    seq(|opts|, i requires 0 <= i < |opts| => if opts[i].id == id then opts[i].(text := text) else opts[i])
  }

  /** Editing texts does not touch ids, so it keeps their counts. */
  lemma {:induction false} WithOptionTextCounts(opts: seq<DraftOption>, id: string, text: string, x: string)
    ensures CountId(WithOptionText(opts, id, text), x) == CountId(opts, x)
  {
    if opts != [] {
      WithOptionTextCounts(opts[1..], id, text, x);
      assert WithOptionText(opts, id, text)[1..] == WithOptionText(opts[1..], id, text);
    }
  }

  // ---------------------------------------------------------------- content checks

  function OptionTexts(opts: seq<DraftOption>): (r: seq<string>)
    ensures |r| == |opts| && forall i :: 0 <= i < |r| ==> r[i] == opts[i].text
  {
    seq(|opts|, i requires 0 <= i < |opts| => opts[i].text)
  }

  /** Some option has an empty text (`options.some(option => !option.text)`). */
  predicate SomeTextEmpty(opts: seq<DraftOption>)
  {
    exists i :: 0 <= i < |opts| && opts[i].text == ""
  }

  /** No two options share a text. */
  ghost predicate TextsDistinct(opts: seq<DraftOption>)
  {
    forall i, j :: 0 <= i < j < |opts| ==> opts[i].text != opts[j].text
  }

  /** `new Set(optionTexts).size !== optionTexts.length`. */
  function TextsRepeat(opts: seq<DraftOption>): (r: bool)
    ensures r <==> !TextsDistinct(opts)
  {
    var texts := OptionTexts(opts);
    Seqs.SetSizeDistinct(texts);
    assert Seqs.Distinct(texts) <==> TextsDistinct(opts);
    |Seqs.Elements(texts)| != |texts|
  }

  /**
   * The checks both forms run on the poll's content, in order: a title, a
   * description, an end date, an end date after `now` (`endMs` is the
   * entered date read as an instant), a text for every option, and no
   * repeated text. The first failure is reported; none means the draft is
   * complete.
   */
  function ValidateContent(title: string, description: string, endDate: string, endMs: int, now: int,
                           opts: seq<DraftOption>): (r: Option<FormError>)
    ensures r == Some(TitleRequired) <==> title == ""
    ensures r == Some(DescriptionRequired) <==> title != "" && description == ""
    ensures r == Some(EndDateRequired) <==> title != "" && description != "" && endDate == ""
    ensures r == Some(EndDateNotFuture) <==> title != "" && description != "" && endDate != "" && endMs <= now
    ensures r == Some(OptionTextRequired) <==>
              title != "" && description != "" && endDate != "" && endMs > now && SomeTextEmpty(opts)
    ensures r == Some(OptionsNotUnique) <==>
              title != "" && description != "" && endDate != "" && endMs > now && !SomeTextEmpty(opts)
              && !TextsDistinct(opts)
    ensures r.None? <==>
              title != "" && description != "" && endDate != "" && endMs > now
              && (forall i :: 0 <= i < |opts| ==> opts[i].text != "") && TextsDistinct(opts)
  {
    if title == "" then Some(TitleRequired)
    else if description == "" then Some(DescriptionRequired)
    else if endDate == "" then Some(EndDateRequired)
    else if endMs <= now then Some(EndDateNotFuture)
    else if SomeTextEmpty(opts) then Some(OptionTextRequired)
    else if TextsRepeat(opts) then Some(OptionsNotUnique)
    else None
  }

  /** `formattedOptions`: each option with a zero stake and no bettors. */
  function FormatOptions(opts: seq<DraftOption>): (r: seq<PollOption>)
    ensures |r| == |opts|
    ensures forall i :: 0 <= i < |r| ==> r[i].id == opts[i].id && r[i].text == opts[i].text
    ensures forall i :: 0 <= i < |r| ==> r[i].betAmount == 0.0 && r[i].bettorCount == 0
  {
    seq(|opts|, i requires 0 <= i < |opts| => PollOption(opts[i].id, opts[i].text, 0.0, 0))
  }

  /** Options that all carry no stake and no bettors add up to nothing. */
  lemma {:induction false} UnstakedSumsToZero(opts: seq<PollOption>)
    requires forall i :: 0 <= i < |opts| ==> opts[i].betAmount == 0.0 && opts[i].bettorCount == 0
    ensures SumStakes(opts) == 0.0 && SumBettors(opts) == 0
  {
    if opts != [] {
      UnstakedSumsToZero(opts[1..]);
    }
  }

  /** The draft a form submits: an active poll starting `now`, with the formatted options. */
  function DraftFor(title: string, description: string, opts: seq<DraftOption>, createdBy: string,
                    endMs: int, now: int, category: string): (d: PollDraft)
    ensures d.status == Active && d.startDate == now && d.endDate == endMs && d.correctOptionId.None?
    ensures d.options == FormatOptions(opts)
    ensures SumStakes(d.options) == 0.0 && SumBettors(d.options) == 0
  {
    UnstakedSumsToZero(FormatOptions(opts));
    PollDraft(title, description, FormatOptions(opts), createdBy, now, endMs, Active, None, category)
  }

  // ---------------------------------------------------------------- the form

  class PollForm {
    var title: string
    var description: string
    var category: string
    var endDate: string
    var options: seq<DraftOption>
    var isSubmitting: bool
    var error: Option<FormError>

    /** The form always offers at least two options, with distinct ids. */
    ghost predicate Valid()
      reads this
    {
      |options| >= 2 && UniqueIds(options)
    }

    constructor ()
      ensures title == "" && description == "" && category == DEFAULT_CATEGORY && endDate == ""
      ensures options == INITIAL_OPTIONS && !isSubmitting && error.None?
      ensures Valid()
    {
      title := "";
      description := "";
      category := DEFAULT_CATEGORY;
      endDate := "";
      options := INITIAL_OPTIONS;
      isSubmitting := false;
      error := None;
      InitialOptionsUnique();
    }

    /** `addOption`: appends an empty option under a fresh id. */
    method AddOption(freshId: string)
      modifies this
      ensures options == old(options) + [DraftOption(freshId, "")]
      ensures title == old(title) && description == old(description) && category == old(category)
      ensures endDate == old(endDate) && isSubmitting == old(isSubmitting) && error == old(error)
      ensures old(Valid()) && CountId(old(options), freshId) == 0 ==> Valid()
    {
      ghost var before := options;
      options := options + [DraftOption(freshId, "")];
      forall id ensures CountId(options, id) == CountId(before, id) + (if freshId == id then 1 else 0) {
        AppendCount(before, DraftOption(freshId, ""), id);
      }
    }

    /**
     * `removeOption`: with two options or fewer, refuses with an error and
     * keeps them; otherwise drops every option with the id.
     */
    method RemoveOption(id: string)
      modifies this
      ensures |old(options)| <= 2 ==> options == old(options) && error == Some(TooFewOptions)
      ensures |old(options)| > 2 ==> options == WithoutOption(old(options), id) && error == old(error)
      ensures title == old(title) && description == old(description) && category == old(category)
      ensures endDate == old(endDate) && isSubmitting == old(isSubmitting)
      ensures old(Valid()) ==> Valid()
    {
      if |options| <= 2 {
        error := Some(TooFewOptions);
        return;
      }
      if UniqueIds(options) {
        RemoveKeepsTwo(options, id);
      }
      options := WithoutOption(options, id);
    }

    /** `updateOptionText`: sets the text of the option with the id. */
    method UpdateOptionText(id: string, text: string)
      modifies this
      ensures options == WithOptionText(old(options), id, text)
      ensures title == old(title) && description == old(description) && category == old(category)
      ensures endDate == old(endDate) && isSubmitting == old(isSubmitting) && error == old(error)
      ensures old(Valid()) ==> Valid()
    {
      ghost var before := options;
      options := WithOptionText(options, id, text);
      forall x ensures CountId(options, x) == CountId(before, x) {
        WithOptionTextCounts(before, id, text, x);
      }
    }

    /** The reset after a successful submit: empty fields, the default category and the two empty options. */
    method Reset()
      modifies this
      ensures title == "" && description == "" && category == DEFAULT_CATEGORY && endDate == ""
      ensures options == INITIAL_OPTIONS
      ensures isSubmitting == old(isSubmitting) && error == old(error)
      ensures Valid()
    {
      title := "";
      description := "";
      category := DEFAULT_CATEGORY;
      endDate := "";
      options := INITIAL_OPTIONS;
      InitialOptionsUnique();
    }
  }

  lemma InitialOptionsUnique()
    ensures UniqueIds(INITIAL_OPTIONS)
  {
    forall id ensures CountId(INITIAL_OPTIONS, id) <= 1 {
      var rest := INITIAL_OPTIONS[1..];
      assert rest == [DraftOption("2", "")] && rest[1..] == [];
      assert CountId(rest, id) == (if id == "2" then 1 else 0);
      assert "1" != "2";
    }
  }
}

# MEMEX prediction polls — a Dafny model

The application is a React front end for betting MEMEX tokens on the outcome of polls. At its centre sits an in-memory store of polls and bets (`PollContext`):

- `createPoll` charges a 5,000,000 MEMEX fee and appends a poll.
- `placeBet` checks the bet, appends it, and adds the stake to the chosen option and to the poll's total.
- `concludePoll` marks a poll completed and settles every bet on it pari-mutuel. A winner gets `amount + amount/W·(T−W)`, where W is the stake on the winning option and T the pool. A loser gets 0.

The pieces around the store are also modelled:

- the date helpers: the "time ago" label, the countdown and the past/future tests;
- the bet form and the two poll-creation forms, each with a fail-fast validation chain and option-list editors;
- the session context: login against the demonstration accounts, registration, the wallet-address format, logout;
- the token context's memoised deposit-address table and its transaction log;
- the pages' filter, sort and aggregate pipelines: the poll search, the featured polls, the profile statistics, the dashboard totals, the option percentages and winner flag, and description truncation;
- the admin poll-management dialog.

Representation choices:

- Amounts are exact `real`s.
- Instants are `int` milliseconds.
- The clock (`now`) and the random ids are parameters.
- A date string parsed by `new Date(...)` is passed in as its millisecond value `endMs`.
- The acting user is passed to the store's mutators, which read it from the session in the application. They return the balance they compute as `Accepted(storedBalance)`. In the application that balance is only written to the browser's storage, never to the live user record, and the model keeps it that way.

Modules, one per source file:

- `Types`: the records from `src/types/index.ts`.
- `Seqs`: the shared `filter` / descending `sort` / `Set` helpers.
- `PollContext`: the store, as class `PollStore`.
- `Date`.
- `BetForm`.
- `PollFormState`: the option-list editor and content checks shared by both creation forms, as class `PollForm`.
- `CreatePollForm` and `AdminCreatePollForm`.
- `AuthContext`.
- `TokenContext`.
- `PollsPage`, `ProfilePage`, `HomePage`, `AdminDashboard`, `PollDetailPage`, `PollCard`, `PollManagement`.
- `StatusBadge`: the status-to-colour `switch`, which is written out identically in `PollDetailPage`, `PollCard` and `PollManagement` and so is modelled once.

In the same way, `totalBettors`, which both the detail page and the card compute, is `Types.SumBettors`.

The `Date` module computes the countdown's divisions on exact reals, with JavaScript's truncating `%`, and proves that for positive totals they equal integer division.

Deposit addresses are `"xM"` plus the user id padded with `'0'` to 32 characters. They are distinct for ids of equal length. An id and the same id with a trailing `'0'` share one address (`TokenContext.TrailingZeroSharesAddress`).

## Model

| member | source | states |
|---|---|---|
| Types.FindOption | src/context/PollContext.tsx:157 | `options.find` by id: none exactly when no option has the id, otherwise an option of the list with that id |
| Types.FindPoll | src/context/PollContext.tsx:153 | `polls.find` by id: none exactly when no poll has the id, otherwise a poll of the list with that id |
| Seqs.SortDesc | src/pages/PollsPage.tsx:46-48 | the copy-then-sort is ordered by the key, largest first, and is a permutation of its input |
| Seqs.Dedup | src/pages/PollsPage.tsx:24 | `Array.from(new Set(xs))` holds every element of `xs`, nothing else, each once |
| Seqs.SetSizeDistinct | src/components/polls/CreatePollForm.tsx:93-94 | `new Set(xs).size` is at most `xs.length` and equals it exactly when no element repeats |
| Seqs.FilterSplit | src/pages/ProfilePage.tsx:291-339 | filtering by a predicate and by its negation splits a list into two parts that together are a permutation of it |
| PollContext.CreatePollCheck | src/context/PollContext.tsx:63-67 | `createPoll` fails "not logged in" exactly without a user, "insufficient balance" exactly when the balance is below 5,000,000, and passes otherwise |
| PollContext.NewPoll | src/context/PollContext.tsx:69-75 | the appended poll is the caller's draft with the fresh id, a zero total and both timestamps at `now` |
| PollContext.NewPollTotal | src/context/PollContext.tsx:69-75 | a created poll has total = sum of option stakes exactly when its options start unstaked |
| PollContext.PlaceBetCheck | src/context/PollContext.tsx:88-93 | `placeBet` checks, in order: a user, a positive amount, an amount within the balance; each error exactly in its case, success exactly when 0 < amount ≤ balance |
| PollContext.BumpOptionsStakes | src/context/PollContext.tsx:108-117 | the options' stakes grow by the amount once per option carrying the id |
| PollContext.BumpOptionsBettors | src/context/PollContext.tsx:108-117 | the options' bettor counts grow by one per option carrying the id |
| PollContext.ApplyBetKeepsTotal | src/context/PollContext.tsx:105-128 | a bet keeps "total = sum of option stakes" on a poll exactly when the poll is not targeted, the amount is 0, or the option id occurs once in the poll |
| PollContext.ApplyBetToPolls | src/context/PollContext.tsx:104-127 | same number of polls; a poll without the id is unchanged; a poll with it gains the amount in its total and, on its options, the amount once per option carrying the option id, is stamped `now`, and keeps every other field |
| PollContext.NewBet | src/context/PollContext.tsx:95-103 | the appended bet is active, has no payout, and carries the given user, poll, option and amount |
| PollContext.WinningStake | src/context/PollContext.tsx:157 | W is the stake of the first option with the winning id, and 0 when there is none |
| PollContext.WinPayout | src/context/PollContext.tsx:163 | the payout `amount + amount/W·(T−W)` equals `amount·T/W`, and is at least the amount when 0 < W ≤ T and the amount is non-negative |
| PollContext.SettleBets | src/context/PollContext.tsx:159-171 | same number of bets; a bet of another poll is unchanged; every bet of the poll leaves "active", gets a payout, and is won exactly when it picked the winning id; no bet changes anything but its status and payout |
| PollContext.SettledBetPays | src/context/PollContext.tsx:159-171 | each settled bet's won payout is its stake on the winning option scaled by T/W |
| PollContext.SettledPayoutsScale | src/context/PollContext.tsx:159-171 | after settlement the won payouts of the poll sum to the bets' total stake on the winning option scaled by T/W |
| PollContext.WinnersShareThePool | src/context/PollContext.tsx:156-171 | conservation: when W equals the stake the bets place on the winning option, the winners' payouts sum to exactly T |
| PollContext.ConcludeAll | src/context/PollContext.tsx:139-151 | same number of polls; no poll changes its id, options or total; a poll without the id is unchanged; a poll with it becomes completed with the winning id recorded and keeps every other field but `updatedAt` |
| PollContext.SettleOtherPolls | src/context/PollContext.tsx:159-171 | settlement leaves every bet on another poll unchanged |
| PollContext.SettleLosers | src/context/PollContext.tsx:165-167 | a bet on a losing option becomes lost with payout 0, otherwise unchanged |
| PollContext.SettleWinners | src/context/PollContext.tsx:162-164 | a bet on the winning option becomes won with payout `amount·T/W`, at least the amount when 0 < W ≤ T |
| PollContext.PollStore.constructor | src/context/PollContext.tsx:58-59 | the store starts from the given polls and bets |
| PollContext.PollStore.GetPoll | src/context/PollContext.tsx:174-176 | returns a stored poll with the id, and nothing exactly when no poll has it |
| PollContext.PollStore.GetUserBets | src/context/PollContext.tsx:178-180 | returns every bet of the user as often as it is stored, and no other bet |
| PollContext.PollStore.CreatePoll | src/context/PollContext.tsx:62-85 | on a failed check returns the error and changes nothing; otherwise appends exactly the new poll, keeps the bets and returns the balance minus the fee; keeps totals consistent for an unstaked draft |
| PollContext.PollStore.PlaceBet | src/context/PollContext.tsx:87-136 | on a failed check returns the error and changes nothing; otherwise appends the new bet, returns balance − amount, leaves other polls unchanged, and on the targeted poll adds the amount to the total and to the matching options and sets `updatedAt`; keeps totals consistent when the option id occurs once |
| PollContext.PollStore.ConcludePoll | src/context/PollContext.tsx:138-172 | every poll with the id becomes completed with the winning id and no other poll changes; with the poll missing the bets are unchanged, otherwise they are settled with W and T read from the poll before the call; keeps totals consistent |
| Date.DistanceBucket | src/utils/date.ts:7-34 | "just now" exactly under 60 elapsed seconds; any other label shows a number of at least 1 |
| Date.DistanceBuckets | src/utils/date.ts:7-34 | the label is "just now" under 60 s, then minutes under an hour, hours under a day, days under 30 days, 30-day months under 12, else years; the number is ≥ 1 and is the elapsed seconds divided down to that unit |
| Date.UnitWord | src/utils/date.ts:15 | the unit word is singular exactly when the number is 1, plural otherwise |
| Date.NatToString | src/utils/date.ts:15-34 | the number in "N unit(s) ago" is written as decimal digits that denote exactly N, with no leading zero |
| Date.FormatDistanceToNow | src/utils/date.ts:5-11 | the text is "just now" exactly when fewer than 60 whole seconds have elapsed |
| Date.SecondsField | src/utils/date.ts:99 | `Math.floor((total / 1000) % 60)` is the whole seconds left mod 60 |
| Date.MinutesField | src/utils/date.ts:100 | `Math.floor((total / 1000 / 60) % 60)` is the whole minutes left mod 60 |
| Date.HoursField | src/utils/date.ts:101 | `Math.floor((total / 3600000) % 24)` is the whole hours left mod 24 |
| Date.DaysField | src/utils/date.ts:102 | `Math.floor(total / 86400000)` is the whole days left |
| Date.SecondsDecompose | src/utils/date.ts:99-102 | days, hours, minutes and seconds are in range and add back up to the whole seconds |
| Date.GetTimeRemaining | src/utils/date.ts:79-111 | all zeros at or past the deadline; before it the total is the milliseconds left, and the divisions, computed on exact reals with JavaScript's truncating `%`, give the whole days left and the whole hours mod 24, minutes mod 60 and seconds mod 60 |
| Date.TimeRemainingParts | src/utils/date.ts:79-111 | at or past the deadline every field, including the total, is 0; before it seconds and minutes lie in [0,59], hours in [0,23], days ≥ 0, and days·86400 + hours·3600 + minutes·60 + seconds = total div 1000 |
| Date.IsPast | src/utils/date.ts:64-66 | a past date is never also in the future |
| Date.IsFuture | src/utils/date.ts:71-73 | a date is in the future exactly when its countdown still has time left; otherwise the countdown is all zeros |
| Date.PastFutureExclusive | src/utils/date.ts:64-73 | never both past and future; neither exactly when the date is now |
| BetForm.ValidateBet | src/components/polls/BetForm.tsx:26-44 | the first failing check in the order user, option selected, amount > 0, amount ≤ balance, each error exactly in its case; passing implies the store's own checks pass |
| BetForm.PotentialReturn | src/components/polls/BetForm.tsx:68-72 | 0 without a selection, for a non-positive amount, or for an id that is not an option of the poll |
| BetForm.PotentialReturnIsPayout | src/components/polls/BetForm.tsx:74-77 | `(T+a)/(W+a)·a` is exactly the settlement payout the bet would earn if its option won right after it, and is ≥ a when T ≥ W |
| BetForm.BetFormState.constructor | src/components/polls/BetForm.tsx:17-21 | the form starts with no option, amount 10, not submitting, no error or success |
| BetForm.BetFormState.SelectOption | src/components/polls/BetForm.tsx:107 | clicking an option selects it and changes nothing else |
| BetForm.BetFormState.SubmitDisabled | src/components/polls/BetForm.tsx:167 | while the button is enabled only the balance check can refuse the bet; outside a submission a disabled button means one of the first three checks fails |
| BetForm.BetFormState.HandleSubmit | src/components/polls/BetForm.tsx:23-66 | a failed check sets exactly its error and touches neither form nor store; otherwise the store gains the bet on this poll, success is reported and the form clears to no option and amount 10 |
| PollFormState.WithoutOptionCounts | src/components/polls/CreatePollForm.tsx:43 | removal drops every option with the id and keeps every other id as often as before |
| PollFormState.AppendCount | src/components/polls/CreatePollForm.tsx:30-35 | appending an option raises the count of its id by one and no other |
| PollFormState.RemoveKeepsTwo | src/components/polls/CreatePollForm.tsx:37-44 | a removal from more than two options with distinct ids leaves at least two, still distinct |
| PollFormState.WithOptionText | src/components/polls/CreatePollForm.tsx:46-52 | `updateOptionText` keeps length, order and ids; the options with the id get the new text, the others keep theirs |
| PollFormState.WithOptionTextCounts | src/components/polls/CreatePollForm.tsx:46-52 | editing a text never changes how often any id occurs |
| PollFormState.OptionTexts | src/components/polls/CreatePollForm.tsx:93 | the texts of the options, position by position |
| PollFormState.TextsRepeat | src/components/polls/CreatePollForm.tsx:93-94 | the `Set`-size test fires exactly when two options share a text |
| PollFormState.ValidateContent | src/components/polls/CreatePollForm.tsx:67-97 | the first failing content check in the order title, description, end date present, end date after now, every text non-empty, texts distinct, each error exactly in its case |
| PollFormState.FormatOptions | src/components/polls/CreatePollForm.tsx:103-107 | each submitted option keeps its id and text and has zero stake and zero bettors |
| PollFormState.DraftFor | src/components/polls/CreatePollForm.tsx:109-118 | the submitted draft is active, starts now, has no winner, ends at the parsed end date, and its options sum to zero stake and zero bettors |
| PollFormState.PollForm.constructor | src/components/polls/CreatePollForm.tsx:18-28 | empty fields, the default category, the two empty options "1" and "2", no error; at least two options with distinct ids |
| PollFormState.PollForm.AddOption | src/components/polls/CreatePollForm.tsx:30-35 | appends one empty option under the fresh id and changes nothing else; with a fresh id the form keeps ≥ 2 options with distinct ids |
| PollFormState.PollForm.RemoveOption | src/components/polls/CreatePollForm.tsx:37-44 | with at most two options, leaves them and sets the too-few error; otherwise removes exactly the options with the id; keeps ≥ 2 options with distinct ids (the admin form's copy at src/components/admin/CreatePollForm.tsx:35-42 is the same) |
| PollFormState.PollForm.UpdateOptionText | src/components/polls/CreatePollForm.tsx:46-52 | only the matching options' texts change; ids, order and length stay |
| PollFormState.PollForm.Reset | src/components/polls/CreatePollForm.tsx:120-127 | after a successful submit the fields are empty, the category is the default and the options are the two empty ones |
| PollFormState.InitialOptionsUnique | src/components/polls/CreatePollForm.tsx:22-25 | the two initial options have distinct ids |
| CreatePollForm.ValidateSubmit | src/components/polls/CreatePollForm.tsx:57-97 | login first, then the fee, then the content checks; passing implies the store accepts the poll |
| CreatePollForm.HandleSubmit | src/components/polls/CreatePollForm.tsx:54-137 | a failed check sets exactly its error and changes nothing else; otherwise the store gains the poll drafted from the form (created by the user) and the form resets; store totals and form validity are kept |
| AdminCreatePollForm.HandleSubmit | src/components/admin/CreatePollForm.tsx:52-132 | only the content checks run; the store's refusal (no user, or fee not covered) becomes the form error with the fields kept; on acceptance the poll names the user as creator and the form resets |
| AuthContext.MockUsers | src/context/AuthContext.tsx:21-44 | two accounts, an admin and a member, with distinct ids and emails, the default wallet, a positive balance and the load time as creation time |
| AuthContext.FindAccount | src/context/AuthContext.tsx:66 | the account found has both the email and the password; none exactly when no account has both |
| AuthContext.EmailTaken | src/context/AuthContext.tsx:91-92 | an email is taken exactly when some password would log in with it |
| AuthContext.MatchesAlphanumerics | src/context/AuthContext.tsx:120 | `[A-Za-z0-9]{n}$` matches exactly the strings of n ASCII letters or digits |
| AuthContext.ValidWallet | src/context/AuthContext.tsx:120 | the quantified format (34 characters, an `x`, then ASCII letters/digits) accepts exactly what `^x[A-Za-z0-9]{33}$` matches left to right |
| AuthContext.MockCredentials | src/context/AuthContext.tsx:21-44 | exactly the pairs admin@example.com/admin123 (admin) and user@example.com/user123 (member) open a session |
| AuthContext.DefaultWalletValid | src/context/AuthContext.tsx:98 | the wallet every new user gets satisfies `^x[A-Za-z0-9]{33}$` |
| AuthContext.AuthState.constructor | src/context/AuthContext.tsx:50-57 | at start-up the stored session, if any, is restored and loading ends |
| AuthContext.AuthState.IsAuthenticated | src/context/AuthContext.tsx:133 | authenticated exactly when a user is in session |
| AuthContext.AuthState.Login | src/context/AuthContext.tsx:59-78 | with no matching account, fails and leaves the session; otherwise the account's record without password becomes the session and its stored copy |
| AuthContext.AuthState.Logout | src/context/AuthContext.tsx:80-83 | the session and its stored copy are cleared |
| AuthContext.AuthState.Register | src/context/AuthContext.tsx:85-114 | an email used by a demonstration account fails and leaves the session; otherwise a member with balance 100 and the default (well-formed) wallet becomes the session |
| AuthContext.AuthState.UpdateWalletAddress | src/context/AuthContext.tsx:116-127 | fails without a session, fails on an address not of the form x + 33 ASCII letters/digits, and otherwise changes only the wallet address |
| TokenContext.PadEnd | src/context/TokenContext.tsx:45 | `padEnd(n, c)` keeps the string as a prefix and fills with `c` up to length n |
| TokenContext.DepositAddressFor | src/context/TokenContext.tsx:45 | the address is "xM", the id, then '0's up to 34 characters |
| TokenContext.DepositAddressIsWallet | src/context/TokenContext.tsx:45 | an id of at most 32 ASCII letters/digits yields a 34-character address of the wallet format |
| TokenContext.SameLengthIdsDistinctAddresses | src/context/TokenContext.tsx:45 | ids of equal length never share an address |
| TokenContext.TrailingZeroSharesAddress | src/context/TokenContext.tsx:45 | an id shorter than 32 characters and the same id with a trailing '0' get the same address |
| TokenContext.TokenStore.constructor | src/context/TokenContext.tsx:23-26 | no remembered addresses, no transactions |
| TokenContext.TokenStore.GenerateDepositAddress | src/context/TokenContext.tsx:36-49 | a remembered non-empty address is returned and the table is unchanged; otherwise the derived address is stored for this id only and returned; every remembered address stays the derived one |
| TokenContext.TokenStore.AddTransaction | src/context/TokenContext.tsx:67-79 | appends exactly one transaction with the given fields, the fresh id and `now`; the address table is unchanged |
| PollsPage.ToLower | src/pages/PollsPage.tsx:31 | ASCII lower-casing: same length, 'A'–'Z' shifted, every other character kept |
| PollsPage.LoweredOccurrence | src/pages/PollsPage.tsx:31-34 | a term found as written is also found by the lower-cased search, at the same place |
| PollsPage.Includes | src/pages/PollsPage.tsx:33-34 | `includes` holds exactly when the term occurs at some position |
| PollsPage.FilterPolls | src/pages/PollsPage.tsx:27-51 | the listing is never longer than the store and is ordered newest first |
| PollsPage.FilterPollsExact | src/pages/PollsPage.tsx:27-51 | the result holds each poll passing the search, category and status filters (an empty one passes all) as often as the list does, no other poll, sorted newest first |
| PollsPage.ClearedListsEverything | src/pages/PollsPage.tsx:27-57 | with all filters cleared, the list shown is a permutation of all polls |
| PollsPage.Categories | src/pages/PollsPage.tsx:24 | every poll's category, each exactly once, and nothing else |
| PollsPage.PollsPageState.constructor | src/pages/PollsPage.tsx:16-19 | empty filters and all polls shown |
| PollsPage.PollsPageState.ApplyFilters | src/pages/PollsPage.tsx:27-51 | the shown list becomes the filtered, sorted polls; the filters are kept |
| PollsPage.PollsPageState.ClearFilters | src/pages/PollsPage.tsx:53-57 | term, category and status become empty |
| ProfilePage.ViewOf | src/pages/ProfilePage.tsx:25-33 | a bet's row keeps the bet; with its poll found it shows the poll's status, the poll's title or "Unknown Poll" when that is empty, and the text of the bet's option or "Unknown Option" when the option is missing or its text empty; with the poll missing it shows "Unknown Poll", "unknown" and "Unknown Option" |
| ProfilePage.MyBets | src/pages/ProfilePage.tsx:23-34 | one row per bet of the user, in order |
| ProfilePage.MyBetsAreTheUsers | src/pages/ProfilePage.tsx:23-24 | the rows are exactly the user's bets, each as often as stored |
| ProfilePage.WinRate | src/pages/ProfilePage.tsx:37-40 | 0 with no bets, otherwise `100·won/total`, always in [0,100] |
| ProfilePage.TotalWinnings | src/pages/ProfilePage.tsx:43-45 | the sum of payouts over the filtered won bets equals adding each bet's winnings in turn, a missing payout counting 0 |
| ProfilePage.WinningsOf | src/pages/ProfilePage.tsx:43-45 | with no negative payout the winnings lie between 0 and all payouts together |
| ProfilePage.TotalLosses | src/pages/ProfilePage.tsx:47-49 | the sum of stakes over the filtered lost bets equals adding each bet's loss in turn |
| ProfilePage.LossesOf | src/pages/ProfilePage.tsx:47-49 | with no negative stake the losses lie between 0 and all stakes together |
| ProfilePage.StatusCountsPartition | src/pages/ProfilePage.tsx:37-39 | active, won and lost bets add up to the total |
| ProfilePage.TabsPartition | src/pages/ProfilePage.tsx:291-339 | the active tab and the history tab together hold every row exactly once |
| ProfilePage.CreatedPolls | src/pages/ProfilePage.tsx:52 | exactly the polls created by the user, each as often as stored |
| HomePage.Featured | src/pages/HomePage.tsx:16-19 | at most three polls, each active and from the store, largest pool first |
| HomePage.FeaturedIsPrefix | src/pages/HomePage.tsx:19 | the featured list is the top of the ranking: its first min(3, #active) entries |
| HomePage.RankingFromStore | src/pages/HomePage.tsx:16-18 | the ranking holds only active polls from the store, no more often than stored |
| HomePage.FeaturedShape | src/pages/HomePage.tsx:16-19 | featured polls are active store polls, sorted by pool largest first, min(3, #active) of them |
| HomePage.FeaturedAreLargest | src/pages/HomePage.tsx:16-19 | no active poll left out has a larger pool than a featured one |
| AdminDashboard.CountWithStatus | src/pages/AdminDashboardPage.tsx:14-15 | the count of polls with a status is at most the number of polls, and 0 exactly when no poll has the status |
| AdminDashboard.StatusCountsPartition | src/pages/AdminDashboardPage.tsx:14-15 | active, completed and canceled counts add up to the number of polls, so active + completed ≤ it |
| AdminDashboard.TotalBets | src/pages/AdminDashboardPage.tsx:16-17 | the bettor count over all polls is non-negative while no option's count is negative |
| Types.SumBettors | src/components/polls/PollCard.tsx:18 | `totalBettors` (also src/pages/PollDetailPage.tsx:104): non-negative bettor counts add up to a non-negative number |
| AdminDashboard.TotalBetAmount | src/pages/AdminDashboardPage.tsx:18 | with every poll's total equal to its option stakes, the dashboard amount is the sum of all option stakes; it is non-negative while every total is |
| AdminDashboard.PlaceBetRaisesBets | src/pages/AdminDashboardPage.tsx:16-17 | a bet raises the dashboard's bettor count by the number of (poll, option) pairs it targets |
| AdminDashboard.PlaceBetRaisesAmount | src/pages/AdminDashboardPage.tsx:18 | a bet raises the dashboard amount by the amount once per poll carrying the id |
| AdminDashboard.AmountAddedPerPoll | src/pages/AdminDashboardPage.tsx:18 | that rise is the amount times the number of polls carrying the id |
| StatusBadge.StatusColor | src/pages/PollDetailPage.tsx:59-70 | "default" exactly for a status other than active, completed, canceled (the same `switch` as src/components/polls/PollCard.tsx:23-34 and src/components/admin/PollManagement.tsx:40-51) |
| StatusBadge.StatusColorsDistinct | src/pages/PollDetailPage.tsx:59-70 | active is "success", completed "secondary", canceled "danger": each poll status its own colour, never "default" |
| PollDetailPage.Round | src/pages/PollDetailPage.tsx:194 | `Math.round` gives the integer within half of x, halves rounding up |
| PollDetailPage.Percentage | src/pages/PollDetailPage.tsx:193-195 | 0 when the pool is not positive, otherwise the rounded share of the pool in percent |
| PollDetailPage.PercentageBounds | src/pages/PollDetailPage.tsx:193-195 | with 0 ≤ stake ≤ pool the percentage lies in [0,100] |
| PollDetailPage.IsWinner | src/pages/PollDetailPage.tsx:198 | an option is flagged winner only on a completed poll, which never shows the bet form |
| PollDetailPage.AtMostOneWinner | src/pages/PollDetailPage.tsx:198 | with distinct option ids at most one option is flagged winner |
| PollDetailPage.ConcludedFlagsWinner | src/pages/PollDetailPage.tsx:198 | after conclusion an option is flagged exactly when it carries the winning id |
| PollDetailPage.ShowBetForm | src/pages/PollDetailPage.tsx:260 | the form is shown exactly when the status string is "active", i.e. the poll is neither completed nor canceled |
| PollDetailPage.BetFormAfterActions | src/pages/PollDetailPage.tsx:260 | the bet form stays as it was after a bet and disappears once the poll is concluded |
| PollDetailPage.TotalBettorsAfterBet | src/pages/PollDetailPage.tsx:104 | after a bet the total bettors grow by the number of options with the id |
| PollCard.ShortDescription | src/components/polls/PollCard.tsx:53-55 | up to 100 characters shown whole; longer ones as the first 100 characters + "..."; never more than 103 |
| PollCard.ShortDescriptionIdempotent | src/components/polls/PollCard.tsx:53-55 | shortening an already shortened description changes nothing |
| PollManagement.ActionsVisible | src/components/admin/PollManagement.tsx:113 | the actions show exactly when the status string is "active", i.e. the poll is neither completed nor canceled |
| PollManagement.ActionsAfterConclusion | src/components/admin/PollManagement.tsx:113 | the Conclude and Delete actions vanish once the poll is concluded and are unaffected by a bet |
| PollManagement.PollManagementState.constructor | src/components/admin/PollManagement.tsx:11-14 | nothing selected, both dialogs closed |
| PollManagement.PollManagementState.HandleDelete | src/components/admin/PollManagement.tsx:16-19 | selects the poll and opens the delete dialog |
| PollManagement.PollManagementState.HandleConclude | src/components/admin/PollManagement.tsx:21-24 | selects the poll and opens the conclude dialog, keeping the previously chosen option id |
| PollManagement.PollManagementState.HandleConcludeClearingSelection | src/components/admin/PollManagement.tsx:21-24 | the corrected handler: also clears the chosen option, so the selection fits the poll |
| PollManagement.PollManagementState.SelectOption | src/components/admin/PollManagement.tsx:193 | choosing an option of the selected poll makes the selection fit |
| PollManagement.PollManagementState.CloseConcludeModal | src/components/admin/PollManagement.tsx:177 | closes the conclude dialog and keeps the selection |
| PollManagement.PollManagementState.ConfirmDelete | src/components/admin/PollManagement.tsx:26-30 | only closes the delete dialog; no poll changes |
| PollManagement.PollManagementState.ConfirmConclude | src/components/admin/PollManagement.tsx:32-37 | with a poll and an option chosen, concludes and settles exactly as `concludePoll` and closes the dialog; otherwise nothing changes; a fitting selection names an option of the poll |
| PollManagement.StaleSelectionConcludesForeignOption | src/components/admin/PollManagement.tsx:21-37 | as written: a choice left from poll A concludes poll B with an id B does not have, and B's bet is lost with payout 0 |
| PollManagement.ClearedSelectionConcludesNothing | src/components/admin/PollManagement.tsx:21-37 | with the corrected handler the same clicks leave poll B active with no winner |

## Left out

- Rendering, styling, routing and the UI components (cards, badges, modals, tabs, header, footer, login page, token widgets): no logic.
- Browser storage: the store's writes of the charged balance are modelled as the returned `storedBalance`. The session's writes are modelled as the `saved` field of `AuthContext.AuthState`. The live user's balance is never reduced, as in the application.
- The simulated delays in `login`, `register` and `verifyDeposit`, and the detail page's countdown timer. `onSuccess` callbacks, `console.log` in `confirmDelete`, and the `showFilters` / create-dialog flags of the polls page are left out too. None of these carries logic.
- `formatDate`, `formatDateTime`, and every `toLocaleString` / `toLocaleDateString` display. These are locale library calls.
- Parsing a date string: the parsed instant is a parameter, so an unparseable string (an Invalid Date, which compares false) is not modelled.
- Random ids and `new Date()`: these are parameters.
- IEEE doubles: amounts, payouts, returns, rates, percentages and the countdown's divisions are exact reals. Overflow, rounding, `NaN` and `Infinity` are not modelled.
- `Seqs.SortDesc`: the result is stated to be sorted and a permutation. That it keeps the input order of equal keys, as JavaScript's stable sort does, is not stated.
- `PollContext.PollStore.ConcludePoll`: requires W ≠ 0 whenever some bet on the poll picked the winning id, because the source's division by W there yields `Infinity`/`NaN`.
- `PollManagement.PollManagementState.ConfirmConclude`: carries the same W ≠ 0 requirement, for the same reason.
- `BetForm.PotentialReturn`: requires non-negative option stakes, so the divisor `W + a` with `a > 0` is never 0. A negative stake equal to minus the amount would make the source divide by zero.
- `PollsPage.ToLower`: ASCII letters only. Unicode case mapping is not modelled.
- `PollsPage.FilterPollsExact`: the `createdAt` key is the millisecond instant.
- The token context's market metrics (price, holders, supply, burned tokens, market cap): fixed display numbers that nothing computes with.
- `verifyDeposit`: a stub that accepts every transaction hash after a delay; it decides nothing.
- `PollCard.ShortDescription`, `TokenContext.PadEnd`, `TokenContext.DepositAddressFor`, `AuthContext.ValidWallet`: lengths are counted in Unicode scalar values, where JavaScript's `length`, `substring`, `padEnd` and the `{33}` quantifier count UTF-16 code units. The two agree on text without characters outside the Basic Multilingual Plane; beyond it the source can cut a description inside a surrogate pair, and the model does not show that.
- `Seqs.Dedup`: states which elements the result holds, each once, but not that they come in order of first occurrence.
- `PollContext.PollStore.GetUserBets`: states which bets the result holds and how often, not that they keep the order in which they were placed.
- `PollsPage.FilterPolls`: its own contract gives length and order; the exact contents are stated by `PollsPage.FilterPollsExact`.
- `ProfilePage`'s `handleWalletUpdate`: a UI wrapper around `AuthContext.AuthState.UpdateWalletAddress`, which is modelled.
- The async `placeBet` returning a promise is modelled as a synchronous call. Nothing interleaves with it.

## Findings

| source | as written | input that shows it | evidently intended | confidence | as-written member | corrected member |
|---|---|---|---|---|---|---|
| src/components/admin/PollManagement.tsx:21-24 | `handleConclude` selects a poll and opens the dialog but keeps `selectedOptionId` from an earlier dialog, so Conclude is enabled at once and `confirmConclude` sends that stale id | choose option "a1" of poll A, cancel, open Conclude on poll B (options "b1", "b2"), press Conclude: B is completed with winner "a1" and every bet on B is lost with payout 0 | opening the dialog clears the chosen option, so only an option of the selected poll can be confirmed | not executed; high | PollManagement.StaleSelectionConcludesForeignOption | PollManagement.PollManagementState.HandleConcludeClearingSelection |

/**
 * Records shared by the betting application: users, polls with their
 * embedded options, bets and token transactions. Amounts and balances are
 * exact `real`s (the application uses floating-point numbers); dates are
 * milliseconds since the epoch.
 */
module Types {

  datatype Option<T> = None | Some(value: T)

  datatype Role = Admin | Member

  datatype User = User(
    id: string,
    username: string,
    email: string,
    role: Role,
    balance: real,
    walletAddress: string,
    avatar: Option<string>,
    createdAt: int)

  datatype PollStatus = Active | Completed | Canceled

  /** One outcome of a poll with its accumulated stake and the number of bets placed on it. */
  datatype PollOption = PollOption(id: string, text: string, betAmount: real, bettorCount: int)

  datatype Poll = Poll(
    id: string,
    title: string,
    description: string,
    options: seq<PollOption>,
    createdBy: string,
    startDate: int,
    endDate: int,
    status: PollStatus,
    correctOptionId: Option<string>,
    totalBetAmount: real,
    category: string,
    createdAt: int,
    updatedAt: int)

  datatype BetStatus = Open | Won | Lost

  datatype Bet = Bet(
    id: string,
    userId: string,
    pollId: string,
    optionId: string,
    amount: real,
    createdAt: int,
    status: BetStatus,
    payout: Option<real>)

  datatype TxType = DepositTx | WithdrawalTx | BetTx | WinTx

  datatype TxStatus = TxPending | TxCompleted | TxFailed

  datatype Transaction = Transaction(
    id: string,
    userId: string,
    txType: TxType,
    amount: real,
    status: TxStatus,
    txHash: Option<string>,
    createdAt: int)

  /** The fee, in MEMEX, charged for creating a poll. */
  const POLL_CREATION_COST: real := 5000000.0

  /** The status string the application stores and displays for a poll. */
  function StatusName(s: PollStatus): string
  {
    match s
    case Active => "active"
    case Completed => "completed"
    case Canceled => "canceled"
  }

  /** Sum of the stakes of a list of options (`options.reduce(acc + betAmount)`). */
  function SumStakes(opts: seq<PollOption>): real
  {
    if opts == [] then 0.0 else opts[0].betAmount + SumStakes(opts[1..])
  }

  /** Sum of the bettor counts of a list of options (`options.reduce(acc + bettorCount)`). */
  function SumBettors(opts: seq<PollOption>): (r: int)
    ensures (forall j :: 0 <= j < |opts| ==> opts[j].bettorCount >= 0) ==> r >= 0
  {
    if opts == [] then 0
    else
      assert forall j :: 0 <= j < |opts[1..]| ==> opts[1..][j] == opts[j + 1];
      opts[0].bettorCount + SumBettors(opts[1..])
  }

  /** The invariant the store is meant to keep: a poll's cached total is the sum of its option stakes. */
  predicate TotalMatchesStakes(p: Poll)
  {
    p.totalBetAmount == SumStakes(p.options)
  }

  /** Number of options carrying the given id. */
  function CountOptionId(opts: seq<PollOption>, id: string): nat
  {
    if opts == [] then 0 else (if opts[0].id == id then 1 else 0) + CountOptionId(opts[1..], id)
  }

  /** `options.find(o => o.id === id)`: the first option with that id. */
  function FindOption(opts: seq<PollOption>, id: string): (r: Option<PollOption>)
    ensures r.None? <==> forall i :: 0 <= i < |opts| ==> opts[i].id != id
    ensures r.Some? ==> exists k :: 0 <= k < |opts| && opts[k] == r.value && r.value.id == id
                          && forall j :: 0 <= j < k ==> opts[j].id != id
  {
    if opts == [] then None
    else if opts[0].id == id then Some(opts[0])
    else
      FindOption(opts[1..], id)
  }

  /** `polls.find(p => p.id === id)`: the first poll with that id. */
  function FindPoll(polls: seq<Poll>, id: string): (r: Option<Poll>)
    ensures r.None? <==> forall i :: 0 <= i < |polls| ==> polls[i].id != id
    ensures r.Some? ==> exists k :: 0 <= k < |polls| && polls[k] == r.value && r.value.id == id
                          && forall j :: 0 <= j < k ==> polls[j].id != id
  {
    if polls == [] then None
    else if polls[0].id == id then Some(polls[0])
    else
      FindPoll(polls[1..], id)
  }
}

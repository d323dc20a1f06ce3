/** The accounting tables and what each SQL statement or transaction of the payout engine does to them. */
module Database {
  import opened Options
  import opened Sums
  import opened Fees
  import opened Addresses
  import opened Apportionment

  // ----- rows -----

  datatype ShareRow = ShareRow(pool: string, worker: string, diff: real, isBlock: bool, key: string, hash: Option<string>)

  datatype Status = Found | Immature | Mature | Orphan | Settled

  datatype StateRow = StateRow(pool: string, status: Status)

  datatype SettlementRow = SettlementRow(
    pool: string, key: string, reward: int, minerReward: int,
    roundStart: int, roundEnd: int, sharesCount: nat, totalWeight: real)

  datatype Account = Account(pool: string, worker: string)

  datatype BatchStatus = Pending | Sent | Failed

  /** A payout_batches row together with its payout_batch_items, by worker. */
  datatype BatchRow = BatchRow(pool: string, status: BatchStatus, total: int, items: map<string, int>)

  /** shares, block_states and block_settlements are keyed by share id, batches by batch id. */
  datatype Tables = Tables(
    shares: map<int, ShareRow>,
    states: map<int, StateRow>,
    settlements: map<int, SettlementRow>,
    balances: map<Account, int>,
    batches: map<int, BatchRow>)

  datatype Scheme = Lprop | Solo | OtherScheme

  datatype Config = Config(
    scheme: Scheme, reward: int, developerPercent: real, poolPercent: real, minPayout: int, maturity: int)

  // ----- shares -----

  /** The constraints on shares: positive difficulty, and per pool no submission key and no block hash twice.
      Ids come from a sequence and grow; gaps are allowed. */
  ghost predicate CanInsertShare(shares: map<int, ShareRow>, id: int, row: ShareRow) {
    && id >= 1 && row.diff > 0.0
    && (forall i :: i in shares ==> i < id)
    && (forall i :: i in shares && shares[i].pool == row.pool ==>
          shares[i].key != row.key && (row.hash.Some? ==> shares[i].hash != row.hash))
  }

  // ----- block states -----

  function NewBlocks(t: Tables, pool: string): set<int> {
    set id | id in t.shares && t.shares[id].pool == pool && t.shares[id].isBlock
      && t.shares[id].hash.Some? && t.shares[id].hash.value != "" && id !in t.states
  }

  /** The INSERT ... SELECT of syncBlockStates. */
  function RecordFound(t: Tables, pool: string): Tables {
    t.(states := t.states + map id | id in NewBlocks(t, pool) :: StateRow(pool, Found))
  }

  function OpenBlocks(t: Tables, pool: string): set<int> {
    set id | id in t.states && t.states[id].pool == pool && t.states[id].status in {Found, Immature, Mature}
  }

  /** What LookupBlockConfirmations returns. */
  datatype Lookup = LookupError | Missing | Confirmations(n: int)

  function NextStatus(l: Lookup, maturity: int): Option<Status> {
    match l
    case LookupError => None
    case Missing => Some(Orphan)
    case Confirmations(n) =>
      Some(if n < 0 then Orphan else if n >= maturity then Mature else if n > 0 then Immature else Found)
  }

  function SetStatus(t: Tables, pool: string, id: int, s: Status): Tables {
    if id in t.states && t.states[id].pool == pool
    then t.(states := t.states[id := t.states[id].(status := s)])
    else t
  }

  /** The UPDATE of syncBlockStates, which does not look at the current status. */
  function ApplyLookup(t: Tables, pool: string, id: int, l: Lookup, maturity: int): Tables {
    match NextStatus(l, maturity)
    case None => t
    case Some(s) => SetStatus(t, pool, id, s)
  }

  // ----- settlement -----

  /** The WHERE clause of settleNextBlock. */
  predicate Unsettled(t: Tables, pool: string, id: int) {
    && id in t.shares && t.shares[id].pool == pool && t.shares[id].isBlock
    && id in t.states && t.states[id].pool == pool && t.states[id].status == Mature
    && !(id in t.settlements && t.settlements[id].pool == pool)
  }

  predicate IsBlockOf(shares: map<int, ShareRow>, pool: string, id: int) {
    id in shares && shares[id].pool == pool && shares[id].isBlock
  }

  /** COALESCE(MAX(id), 0) over the pool's block shares before `id`. */
  function PreviousBlock(shares: map<int, ShareRow>, pool: string, id: int): (prev: int)
    ensures 0 <= prev && (prev < id || prev == 0)
    ensures prev > 0 ==> IsBlockOf(shares, pool, prev)
    ensures forall b :: prev < b < id && b >= 1 ==> !IsBlockOf(shares, pool, b)
    decreases id
  {
    if id <= 1 then 0
    else if IsBlockOf(shares, pool, id - 1) then id - 1
    else PreviousBlock(shares, pool, id - 1)
  }

  /** The pool's shares with lo < id <= hi, in id order. */
  function RoundRows(shares: map<int, ShareRow>, pool: string, lo: int, hi: int): seq<ShareRow>
    decreases hi - lo
  {
    if hi <= lo then []
    else RoundRows(shares, pool, lo, hi - 1) + RowAt(shares, pool, hi)
  }

  function RowAt(shares: map<int, ShareRow>, pool: string, id: int): seq<ShareRow> {
    if id in shares && shares[id].pool == pool then [shares[id]] else []
  }

  predicate Counts(row: ShareRow) {
    PayoutAddress(row.worker) != "" && row.diff > 0.0
  }

  function AddWeight(weights: map<string, real>, row: ShareRow): map<string, real> {
    if !Counts(row) then weights
    else
      var a := PayoutAddress(row.worker);
      weights[a := (if a in weights then weights[a] else 0.0) + row.diff]
  }

  function WeightsOf(rows: seq<ShareRow>): map<string, real> {
    if rows == [] then map[] else AddWeight(WeightsOf(rows[..|rows| - 1]), rows[|rows| - 1])
  }

  function CountedOf(rows: seq<ShareRow>): nat {
    if rows == [] then 0 else CountedOf(rows[..|rows| - 1]) + if Counts(rows[|rows| - 1]) then 1 else 0
  }

  /** Everything settleNextBlock decides about one block before it writes. */
  datatype Plan = Plan(
    minerReward: int, alloc: map<string, int>, roundStart: int, roundEnd: int, sharesCount: nat, totalWeight: real)

  datatype PlanError = BadReward | InvalidWinner | NoValidShares | UnsupportedScheme | DuplicateSettlement

  datatype Planning = Planned(plan: Plan) | Refused(error: PlanError)

  ghost function PlanSettlement(shares: map<int, ShareRow>, cfg: Config, pool: string, id: int): Planning
    requires id in shares
  {
    var split := SplitReward(cfg.reward, cfg.developerPercent, cfg.poolPercent);
    if !split.Split? then Refused(BadReward)
    else
      match cfg.scheme
      case Solo => PlanSolo(shares[id], split.miners, id)
      case Lprop => PlanLprop(shares, split.miners, pool, id)
      case OtherScheme => Refused(UnsupportedScheme)
  }

  function PlanSolo(row: ShareRow, miners: int, id: int): Planning {
    var winner := PayoutAddress(row.worker);
    if winner == "" then Refused(InvalidWinner)
    else Planned(Plan(miners, map[winner := miners], id, id, 1, if row.diff > 0.0 then row.diff else 0.0))
  }

  ghost function PlanLprop(shares: map<int, ShareRow>, miners: int, pool: string, id: int): Planning {
    var prev := PreviousBlock(shares, pool, id);
    var rows := RoundRows(shares, pool, prev, id);
    var weights := WeightsOf(rows);
    if weights == map[] then Refused(NoValidShares)
    else Planned(Plan(miners, Allocation(miners, weights), prev + 1, id, CountedOf(rows), TotalWeight(weights)))
  }

  function Paid(alloc: map<string, int>): set<string> {
    set w | w in alloc && alloc[w] > 0
  }

  function Accounts(pool: string, workers: set<string>): set<Account> {
    set w | w in workers :: Account(pool, w)
  }

  /** The upserts `amount_sat = balances.amount_sat + EXCLUDED.amount_sat`, for the positive amounts. */
  function Credit(balances: map<Account, int>, pool: string, alloc: map<string, int>): map<Account, int> {
    map a | a in balances.Keys + Accounts(pool, Paid(alloc)) ::
      (if a in balances then balances[a] else 0)
      + if a.pool == pool && a.worker in Paid(alloc) then alloc[a.worker] else 0
  }

  function SettlementOf(row: ShareRow, reward: int, pool: string, plan: Plan): SettlementRow {
    SettlementRow(pool, row.key, reward, plan.minerReward, plan.roundStart, plan.roundEnd, plan.sharesCount, plan.totalWeight)
  }

  /** The committed settlement: balances, the settlement row and the block's status change together. */
  function Settle(t: Tables, pool: string, id: int, reward: int, plan: Plan): Tables
    requires id in t.shares
  {
    SetStatus(
      t.(balances := Credit(t.balances, pool, plan.alloc),
         settlements := t.settlements[id := SettlementOf(t.shares[id], reward, pool, plan)]),
      pool, id, Settled)
  }

  // ----- payout batches -----

  /** The balances a batch takes: at least the minimum payout, positive, and not locked by another transaction. */
  function Payable(t: Tables, pool: string, minPayout: int, locked: set<string>): map<string, int> {
    map a | a in t.balances && a.pool == pool && t.balances[a] >= minPayout && t.balances[a] > 0 && a.worker !in locked
      :: a.worker := t.balances[a]
  }

  ghost function OpenBatch(t: Tables, pool: string, batch: int, items: map<string, int>): Tables {
    t.(balances := Debit(t.balances, pool, items),
       batches := t.batches[batch := BatchRow(pool, Pending, Amounts(items), items)])
  }

  function Debit(balances: map<Account, int>, pool: string, items: map<string, int>): map<Account, int> {
    map a | a in balances ::
      balances[a] - if a.pool == pool && a.worker in items then items[a.worker] else 0
  }

  function Refill(balances: map<Account, int>, pool: string, items: map<string, int>): map<Account, int> {
    map a | a in balances ::
      balances[a] + if a.pool == pool && a.worker in items then items[a.worker] else 0
  }

  predicate HasBatch(t: Tables, pool: string, batch: int) {
    batch in t.batches && t.batches[batch].pool == pool
  }

  function MarkSent(t: Tables, pool: string, batch: int): Tables {
    if HasBatch(t, pool, batch) then t.(batches := t.batches[batch := t.batches[batch].(status := Sent)]) else t
  }

  /** markBatchFailedAndRefund: the items go back to the balances and the batch is marked failed. */
  function Refund(t: Tables, pool: string, batch: int): Tables {
    if HasBatch(t, pool, batch) then
      t.(balances := Refill(t.balances, pool, t.batches[batch].items),
         batches := t.batches[batch := t.batches[batch].(status := Failed)])
    else t
  }

  // ----- sums per account and per pool -----

  function BalanceAt(balances: map<Account, int>, a: Account): int {
    if a in balances then balances[a] else 0
  }

  /** What one account has among the items. */
  function ItemFor(pool: string, items: map<string, int>, a: Account): int {
    if a.pool == pool && a.worker in items then items[a.worker] else 0
  }

  ghost function ItemAt(batches: map<int, BatchRow>, a: Account, statuses: set<BatchStatus>): int -> int {
    b => if b in batches && batches[b].status in statuses then ItemFor(batches[b].pool, batches[b].items, a) else 0
  }

  ghost function RewardOf(settlements: map<int, SettlementRow>, pool: string): int -> int {
    id => if id in settlements && settlements[id].pool == pool then settlements[id].minerReward else 0
  }

  /** The sum of miner_reward_sat over the pool's settlements. */
  ghost function Credited(t: Tables, pool: string): int {
    Sum(t.settlements.Keys, RewardOf(t.settlements, pool))
  }

  ghost function BalanceOf(balances: map<Account, int>, pool: string): Account -> int {
    a => if a in balances && a.pool == pool then balances[a] else 0
  }

  ghost function Held(t: Tables, pool: string): int {
    Sum(t.balances.Keys, BalanceOf(t.balances, pool))
  }

  ghost function ItemsOf(batches: map<int, BatchRow>, pool: string, statuses: set<BatchStatus>): int -> int {
    b => if b in batches && batches[b].pool == pool && batches[b].status in statuses then Amounts(batches[b].items) else 0
  }

  ghost function InBatches(t: Tables, pool: string, statuses: set<BatchStatus>): int {
    Sum(t.batches.Keys, ItemsOf(t.batches, pool, statuses))
  }
}

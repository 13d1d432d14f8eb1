/** RecordDeposit, RecordWithdrawal, ExecuteTransfer, UnlockBalance and GetBalance as small
    programs over shared tables. Every database or cache statement is one atomic step, and
    any number of calls interleave. What the environment decides (failures, the provider's
    answer) is the `Outcome` a step is given. */
module WalletProtocol {
  import opened Common
  import opened WalletRows

  type Reference = string

  /** A row of wallet_transactions; `amount` carries the sign of the direction. */
  datatype Row = Row(ref: Reference, biz: BusinessId, amount: int)

  datatype Account = WalletAccount | ExternalAccount | RevenueAccount
  datatype Side = Debit | Credit

  /** A ledger line; `txn` groups the two lines of one posting. */
  datatype Entry = Entry(biz: BusinessId, txn: nat, account: Account, side: Side, amount: nat)

  datatype Store = Store(
    rows: map<BusinessId, Wallet>,
    table: seq<Row>,
    transfers: set<Reference>,
    ledger: seq<Entry>,
    cache: map<BusinessId, int>)

  datatype Op = Deposit | Withdrawal | Transfer | Release | ReadBalance

  /** Where a call stands: the statement it sends next. */
  datatype Pc =
    | Check | Reserve | Create | Provider          // ExecuteTransfer, before the withdrawal
    | Lookup | Read | Apply | Insert | Retry | Rollback | Post | PostFee | Invalidate
    | Free                                         // UnlockBalance, deferred or on its own
    | Probe | Load | Fill(value: int)              // GetBalance
    | Done(verdict: Verdict)

  /** What the wallet-service call reported. A transfer that never reached its withdrawal,
      or whose withdrawal failed, counts as `Failed`. */
  datatype Verdict = Succeeded | Failed

  /** A call in progress. The last five fields are history: the net change it has made to the
      balance, whether and what it wrote to the transaction table, what it posted on the wallet
      account of the ledger, and how much of `locked` is its own. */
  datatype Call = Call(
    op: Op, biz: BusinessId, ref: Reference, amount: nat, fee: nat, pc: Pc,
    applied: int, inserted: bool, wrote: int, posted: int, held: nat)

  datatype Outcome = Good | Bad | TornUpdate | Settled(fee: nat)

  function FaultOf(o: Outcome): Fault
  {
    match o
    case Good => Clean
    case TornUpdate => Torn
    case _ => Refused
  }

  predicate Debits(op: Op) { op.Withdrawal? || op.Transfer? }

  /** The signed amount a call moves on the balance. */
  function Delta(c: Call): int
  {
    if c.op.Deposit? then c.amount else -(c.amount + c.fee)
  }

  /** The UPDATE a call sends from its present position. */
  function StatementOf(c: Call): Statement
  {
    match c.pc
    case Apply => if Debits(c.op) then DecrementBoth(c.amount + c.fee, c.amount) else Increment(c.amount)
    case Rollback => Increment(-Delta(c))
    case Reserve => Lock(c.amount)
    case _ => Unlock(c.amount)
  }

  predicate SendsUpdate(pc: Pc) { pc.Apply? || pc.Rollback? || pc.Reserve? || pc.Free? }

  predicate Changes(s: Store, c: Call, o: Outcome)
  {
    SendsUpdate(c.pc) && Applies(s.rows, c.biz, StatementOf(c), FaultOf(o))
  }

  predicate HasRef(table: seq<Row>, r: Reference) { exists row | row in table :: row.ref == r }

  function Posting(biz: BusinessId, txn: nat, debit: Account, credit: Account, amount: nat): seq<Entry>
  {
    [Entry(biz, txn, debit, Side.Debit, amount), Entry(biz, txn, credit, Side.Credit, amount)]
  }

  /** A wallet-service error: a transfer runs its deferred unlock, anything else returns. */
  function Fail(c: Call): Call
  {
    c.(pc := if c.op.Transfer? then Free else Done(Failed))
  }

  function StepApply(s: Store, c: Call, o: Outcome): (Store, Call)
    requires c.pc.Apply?
  {
    if !Changes(s, c, o) then (s, Fail(c))
    else
      var s' := s.(rows := Execute(s.rows, c.biz, StatementOf(c), FaultOf(o)).0);
      var c' := c.(applied := Delta(c), held := 0);
      (s', if o.TornUpdate? then Fail(c') else c'.(pc := Insert))
  }

  function StepInsert(s: Store, c: Call, o: Outcome): (Store, Call)
    requires c.pc.Insert? || c.pc.Retry?
  {
    if o.Good? && !HasRef(s.table, c.ref) then
      (s.(table := s.table + [Row(c.ref, c.biz, Delta(c))]), c.(inserted := true, wrote := Delta(c), pc := Post))
    else if c.op.Deposit? && c.pc.Insert? then (s, c.(pc := Retry))
    else (s, c.(pc := Rollback))
  }

  function StepRollback(s: Store, c: Call, o: Outcome): (Store, Call)
    requires c.pc.Rollback?
  {
    if !Changes(s, c, o) then (s, Fail(c))
    else (s.(rows := Execute(s.rows, c.biz, StatementOf(c), FaultOf(o)).0), Fail(c.(applied := 0)))
  }

  function StepPost(s: Store, c: Call, o: Outcome): (Store, Call)
    requires c.pc.Post?
  {
    var next := if Debits(c.op) && c.fee > 0 then PostFee else Invalidate;
    if !o.Good? then (s, c.(pc := next))
    else if Debits(c.op) then
      (s.(ledger := s.ledger + Posting(c.biz, |s.ledger|, WalletAccount, ExternalAccount, c.amount)),
       c.(posted := 0 - c.amount, pc := next))
    else
      (s.(ledger := s.ledger + Posting(c.biz, |s.ledger|, ExternalAccount, WalletAccount, c.amount)),
       c.(posted := c.amount, pc := next))
  }

  function StepPostFee(s: Store, c: Call, o: Outcome): (Store, Call)
    requires c.pc.PostFee?
  {
    if !o.Good? then (s, c.(pc := Invalidate))
    else
      (s.(ledger := s.ledger + Posting(c.biz, |s.ledger|, WalletAccount, RevenueAccount, c.fee)),
       c.(posted := c.posted - c.fee, pc := Invalidate))
  }

  function StepReserve(s: Store, c: Call, o: Outcome): (Store, Call)
    requires c.pc.Reserve?
  {
    if !Changes(s, c, o) then (s, c.(pc := Done(Failed)))
    else
      (s.(rows := Execute(s.rows, c.biz, StatementOf(c), FaultOf(o)).0),
       c.(held := c.amount, pc := if o.TornUpdate? then Done(Failed) else Create))
  }

  function StepFree(s: Store, c: Call, o: Outcome): (Store, Call)
    requires c.pc.Free?
  {
    var s' := if Changes(s, c, o) then s.(rows := Execute(s.rows, c.biz, StatementOf(c), FaultOf(o)).0) else s;
    (s', c.(held := if Changes(s, c, o) then 0 else c.held, pc := Done(Failed)))
  }

  /** One statement of one call. */
  function StepCall(s: Store, c: Call, o: Outcome): (Store, Call)
    requires !c.pc.Done?
  {
    match c.pc
    case Check =>
      var enough := o.Good? && c.biz in s.rows && s.rows[c.biz].balance - s.rows[c.biz].locked >= c.amount;
      (s, c.(pc := if enough then Reserve else Done(Failed)))
    case Reserve => StepReserve(s, c, o)
    case Create =>
      if o.Good? && c.ref !in s.transfers
      then (s.(transfers := s.transfers + {c.ref}), c.(pc := Provider))
      else (s, c.(pc := Free))
    case Provider =>
      (s, if o.Settled? then c.(fee := o.fee, pc := Lookup) else c.(pc := Free))
    case Lookup =>
      (s, c.(pc := if o.Good? && HasRef(s.table, c.ref) then Done(Succeeded) else Read))
    case Read =>
      var missing := !o.Good? || c.biz !in s.rows;
      (s, if missing || (Debits(c.op) && s.rows[c.biz].balance < c.amount + c.fee)
          then Fail(c) else c.(pc := Apply))
    case Apply => StepApply(s, c, o)
    case Insert => StepInsert(s, c, o)
    case Retry => StepInsert(s, c, o)
    case Rollback => StepRollback(s, c, o)
    case Post => StepPost(s, c, o)
    case PostFee => StepPostFee(s, c, o)
    case Invalidate =>
      (if o.Good? then s.(cache := s.cache - {c.biz}) else s, c.(pc := Done(Succeeded)))
    case Free => StepFree(s, c, o)
    case Probe =>
      (s, c.(pc := if o.Good? && c.biz in s.cache then Done(Succeeded) else Load))
    case Load =>
      (s, c.(pc := if o.Good? && c.biz in s.rows then Fill(s.rows[c.biz].balance) else Done(Failed)))
    case Fill(v) =>
      (if o.Good? then s.(cache := s.cache[c.biz := v]) else s, c.(pc := Done(Succeeded)))
  }

  function Start(op: Op): Pc
  {
    match op
    case Deposit => Lookup
    case Withdrawal => Lookup
    case Transfer => Check
    case Release => Free
    case ReadBalance => Probe
  }

  function NewCall(op: Op, biz: BusinessId, ref: Reference, amount: nat, fee: nat): Call
  {
    Call(op, biz, ref, amount, if op.Withdrawal? then fee else 0, Start(op), 0, false, 0, 0, 0)
  }

  /** The whole system: shared tables and every call started so far. */
  datatype System = System(store: Store, calls: seq<Call>)

  /** A call arrives, one call takes its next step, or a cache entry expires. */
  datatype Label =
    | Arrive(op: Op, biz: BusinessId, ref: Reference, amount: nat, fee: nat)
    | Act(index: nat, outcome: Outcome)
    | Expire(biz: BusinessId)

  predicate Enabled(y: System, l: Label)
  {
    l.Act? ==> l.index < |y.calls| && !y.calls[l.index].pc.Done?
  }

  function Next(y: System, l: Label): System
    requires Enabled(y, l)
  {
    match l
    case Arrive(op, biz, ref, amount, fee) => y.(calls := y.calls + [NewCall(op, biz, ref, amount, fee)])
    case Act(i, o) =>
      var (s, c) := StepCall(y.store, y.calls[i], o);
      System(s, y.calls[i := c])
    case Expire(b) => y.(store := y.store.(cache := y.store.cache - {b}))
  }

  /** A schedule is a list of labels, each enabled where it is taken. */
  predicate Legal(y: System, schedule: seq<Label>)
    decreases |schedule|
  {
    schedule == [] || (Enabled(y, schedule[0]) && Legal(Next(y, schedule[0]), schedule[1..]))
  }

  function Run(y: System, schedule: seq<Label>): System
    requires Legal(y, schedule)
    decreases |schedule|
  {
    if schedule == [] then y else Run(Next(y, schedule[0]), schedule[1..])
  }

  predicate Quiescent(y: System) { forall c | c in y.calls :: c.pc.Done? }
}

/** The wallet and transfer services as sequential code over their stores, and what one call,
    run alone, is in the interleaving model. */
module WalletServices {
  import opened Common
  import opened WalletRows
  import opened WalletProtocol
  import opened WalletConservation
  import opened WalletLedger

  /** What the environment answers at each position of a call. */
  type Environment = Pc -> Outcome

  function Rank(pc: Pc): nat
  {
    match pc
    case Done(_) => 0
    case Free => 1
    case Invalidate => 1
    case Fill(_) => 1
    case Rollback => 2
    case PostFee => 2
    case Load => 2
    case Post => 3
    case Probe => 3
    case Retry => 4
    case Insert => 5
    case Apply => 6
    case Read => 7
    case Lookup => 8
    case Provider => 9
    case Create => 10
    case Reserve => 11
    case Check => 12
  }

  lemma StepLowersRank(s: Store, c: Call, o: Outcome)
    requires !c.pc.Done?
    ensures Rank(StepCall(s, c, o).1.pc) < Rank(c.pc)
  {
    if SendsUpdate(c.pc) {
      UpdateLowersRank(s, c, o);
    }
  }

  lemma UpdateLowersRank(s: Store, c: Call, o: Outcome)
    requires SendsUpdate(c.pc)
    ensures Rank(StepCall(s, c, o).1.pc) < Rank(c.pc)
  {
  }

  /** A call run to its end with nothing interleaved. */
  function Solo(s: Store, c: Call, env: Environment): (Store, Call)
    decreases Rank(c.pc)
  {
    if c.pc.Done? then (s, c)
    else
      StepLowersRank(s, c, env(c.pc));
      var (s', c') := StepCall(s, c, env(c.pc));
      Solo(s', c', env)
  }

  /** The schedule that runs call `i` alone to its end. */
  function SoloSchedule(s: Store, c: Call, env: Environment, i: nat): seq<Label>
    decreases Rank(c.pc)
  {
    if c.pc.Done? then []
    else
      StepLowersRank(s, c, env(c.pc));
      var (s', c') := StepCall(s, c, env(c.pc));
      [Act(i, env(c.pc))] + SoloSchedule(s', c', env, i)
  }

  /** A solo run is one of the interleavings, so every theorem about schedules covers it. */
  lemma {:induction false} SoloIsASchedule(y: System, i: nat, env: Environment)
    requires i < |y.calls|
    ensures var p := SoloSchedule(y.store, y.calls[i], env, i);
            var (s, c) := Solo(y.store, y.calls[i], env);
            Legal(y, p) && Run(y, p) == System(s, y.calls[i := c])
    decreases Rank(y.calls[i].pc)
  {
    var c := y.calls[i];
    if c.pc.Done? {
      assert y.calls[i := c] == y.calls;
    } else {
      StepLowersRank(y.store, c, env(c.pc));
      var z := Next(y, Act(i, env(c.pc)));
      SoloIsASchedule(z, i, env);
      var p := SoloSchedule(z.store, z.calls[i], env, i);
      assert ([Act(i, env(c.pc))] + p)[1..] == p;
      assert z.calls[i := Solo(z.store, z.calls[i], env).1] == y.calls[i := Solo(z.store, z.calls[i], env).1];
    }
  }

  /** What a stored transfer tells a retry. */
  datatype StoredTransfer = StoredTransfer(biz: BusinessId, ref: Reference, amount: nat, status: string)

  class WalletService {
    const repo: WalletRepository
    const ledgerSvc: LedgerService
    var table: seq<Row>
    var transfers: set<Reference>
    var cache: map<BusinessId, int>

    function Snapshot(): Store
      reads this, repo, ledgerSvc
    {
      Store(repo.rows, table, transfers, ledgerSvc.entries, cache)
    }

    ghost predicate Valid()
      reads ledgerSvc
    {
      Paired(ledgerSvc.entries)
    }

    constructor (repo: WalletRepository, ledgerSvc: LedgerService)
      ensures this.repo == repo && this.ledgerSvc == ledgerSvc
      ensures table == [] && transfers == {} && cache == map[]
    {
      this.repo, this.ledgerSvc := repo, ledgerSvc;
      table, transfers, cache := [], {}, map[];
    }

    /** Whether the reference is known; a failed lookup answers no. */
    method FindByReference(ref: Reference, o: Outcome) returns (found: bool)
      ensures found <==> o.Good? && HasRef(table, ref)
    {
      found := o.Good? && exists row | row in table :: row.ref == ref;
    }

    /** The insert into the uniquely indexed transaction table. */
    method CreateTransaction(row: Row, o: Outcome) returns (failed: bool)
      modifies this`table
      ensures failed <==> !o.Good? || HasRef(old(table), row.ref)
      ensures table == if failed then old(table) else old(table) + [row]
    {
      var taken := FindByReference(row.ref, Good);
      if !o.Good? || taken {
        return true;
      }
      table := table + [row];
      return false;
    }

    method RecordDeposit(b: BusinessId, ref: Reference, amount: nat, env: Environment)
      returns (v: Verdict, ghost c: Call)
      requires Valid()
      modifies this, repo, ledgerSvc
      ensures Valid() && c.pc == Done(v)
      ensures (Snapshot(), c) == Solo(old(Snapshot()), NewCall(Deposit, b, ref, amount, 0), env)
    {
      c := NewCall(Deposit, b, ref, amount, 0);
      var found := FindByReference(ref, env(Lookup));
      if found {
        return Succeeded, c.(pc := Done(Succeeded));
      }
      c := c.(pc := Read);
      assert Solo(Snapshot(), c, env) == Solo(old(Snapshot()), NewCall(Deposit, b, ref, amount, 0), env);
      var wallet := repo.FindByBusinessID(b, FaultOf(env(Read)));
      if wallet.None? {
        c := c.(pc := Done(Failed));
        assert Solo(Snapshot(), c, env) == Solo(old(Snapshot()), NewCall(Deposit, b, ref, amount, 0), env);
        return Failed, c;
      }
      c := c.(pc := Apply);
      assert Solo(Snapshot(), c, env) == Solo(old(Snapshot()), NewCall(Deposit, b, ref, amount, 0), env);
      ghost var before := Snapshot();
      var updated := repo.IncrementBalance(b, amount, FaultOf(env(Apply)));
      assert Snapshot() == StepCall(before, c, env(Apply)).0;
      c := StepCall(before, c, env(Apply)).1;
      assert Solo(Snapshot(), c, env) == Solo(old(Snapshot()), NewCall(Deposit, b, ref, amount, 0), env);
      if updated.None? {
        return Failed, c;
      }
      v, c := InsertDeposit(c, b, ref, amount, env);
    }

    /** The rest of RecordDeposit: record, retry once, roll back; then post and invalidate. */
    method InsertDeposit(ghost c0: Call, b: BusinessId, ref: Reference, amount: nat, env: Environment)
      returns (v: Verdict, ghost c: Call)
      requires Valid() && c0.pc.Insert? && c0.op.Deposit? && c0.biz == b && c0.ref == ref && c0.amount == amount
      requires c0.posted == 0
      modifies this, repo, ledgerSvc
      ensures Valid() && c.pc == Done(v)
      ensures (Snapshot(), c) == Solo(old(Snapshot()), c0, env)
    {
      c := c0;
      var failed := CreateTransaction(Row(ref, b, amount), env(Insert));
      if failed {
        c := c.(pc := Retry);
        assert Solo(Snapshot(), c, env) == Solo(old(Snapshot()), c0, env);
        failed := CreateTransaction(Row(ref, b, amount), env(Retry));
        if failed {
          c := c.(pc := Rollback);
          assert Solo(Snapshot(), c, env) == Solo(old(Snapshot()), c0, env);
          c := RollBack(c, b, 0 - amount, env);
          return Failed, c;
        }
      }
      c := c.(inserted := true, wrote := amount, pc := Post);
      assert Solo(Snapshot(), c, env) == Solo(old(Snapshot()), c0, env);
      c := PostDeposit(c, b, amount, env);
      v := Succeeded;
    }

    method PostDeposit(ghost c0: Call, b: BusinessId, amount: nat, env: Environment)
      returns (ghost c: Call)
      requires Valid() && c0.pc.Post? && c0.op.Deposit? && c0.biz == b && c0.amount == amount && c0.posted == 0
      modifies this, ledgerSvc
      ensures Valid() && c.pc == Done(Succeeded)
      ensures Solo(Snapshot(), c, env) == Solo(old(Snapshot()), c0, env)
    {
      c := c0;
      var unposted := ledgerSvc.RecordDeposit(b, amount, FaultOf(env(Post)));
      c := c.(posted := if unposted then 0 else amount, pc := Invalidate);
      assert Solo(Snapshot(), c, env) == Solo(old(Snapshot()), c0, env);
      c := Conclude(c, b, env);
    }

    /** Every recorded call ends by invalidating the cached balance. */
    method Conclude(ghost c0: Call, b: BusinessId, env: Environment) returns (ghost c: Call)
      requires c0.pc.Invalidate? && c0.biz == b
      modifies this`cache
      ensures c == c0.(pc := Done(Succeeded))
      ensures Solo(Snapshot(), c, env) == Solo(old(Snapshot()), c0, env)
    {
      InvalidateBalanceCache(b, env(Invalidate));
      c := c0.(pc := Done(Succeeded));
    }

    /** The compensating update of a call whose transaction could not be recorded. */
    method RollBack(ghost c0: Call, b: BusinessId, amount: int, env: Environment) returns (ghost c: Call)
      requires c0.pc.Rollback? && c0.biz == b && amount == -Delta(c0)
      modifies repo
      ensures Solo(Snapshot(), c, env) == Solo(old(Snapshot()), c0, env)
      ensures c.pc == Fail(c0).pc && c.biz == b && c.amount == c0.amount && c.op == c0.op
    {
      ghost var before := Snapshot();
      var w := repo.IncrementBalance(b, amount, FaultOf(env(Rollback)));
      assert Snapshot() == StepRollback(before, c0, env(Rollback)).0;
      c := StepRollback(before, c0, env(Rollback)).1;
    }

    method InvalidateBalanceCache(b: BusinessId, o: Outcome)
      modifies this`cache
      ensures cache == if o.Good? then old(cache) - {b} else old(cache)
    {
      if o.Good? {
        cache := cache - {b};
      }
    }

    /** RecordWithdrawal, on its own or as the tail of a transfer: `c0` is the call so far. */
    method RecordWithdrawal(ghost c0: Call, b: BusinessId, ref: Reference, amount: nat, fee: nat, env: Environment)
      returns (v: Verdict, ghost c: Call)
      requires Valid() && c0.pc.Lookup? && Debits(c0.op) && c0.posted == 0
      requires c0.biz == b && c0.ref == ref && c0.amount == amount && c0.fee == fee
      modifies this, repo, ledgerSvc
      ensures Valid()
      ensures Solo(Snapshot(), c, env) == Solo(old(Snapshot()), c0, env)
      ensures c.pc == if v.Succeeded? then Done(Succeeded) else Fail(c0).pc
      ensures c.biz == b && c.amount == amount && c.op == c0.op
    {
      c := c0;
      var found := FindByReference(ref, env(Lookup));
      if found {
        return Succeeded, c.(pc := Done(Succeeded));
      }
      c := c.(pc := Read);
      var totalDebit := amount + fee;
      assert Solo(Snapshot(), c, env) == Solo(old(Snapshot()), c0, env);
      var wallet := repo.FindByBusinessID(b, FaultOf(env(Read)));
      if wallet.None? || wallet.value.balance < totalDebit {
        return Failed, Fail(c);
      }
      c := c.(pc := Apply);
      assert Solo(Snapshot(), c, env) == Solo(old(Snapshot()), c0, env);
      var failed;
      failed, c := Debit(c, b, amount, fee, env);
      if failed {
        return Failed, c;
      }
      v, c := InsertWithdrawal(c, b, ref, amount, fee, env);
    }

    /** The withdrawal's own statement on the wallet row. */
    method Debit(ghost c0: Call, b: BusinessId, amount: nat, fee: nat, env: Environment)
      returns (failed: bool, ghost c: Call)
      requires c0.pc.Apply? && Debits(c0.op) && c0.biz == b && c0.amount == amount && c0.fee == fee
      modifies repo
      ensures Solo(Snapshot(), c, env) == Solo(old(Snapshot()), c0, env)
      ensures c.pc == if failed then Fail(c0).pc else Insert
      ensures c.op == c0.op && c.biz == b && c.ref == c0.ref && c.amount == amount && c.fee == fee && c.posted == c0.posted
    {
      ghost var before := Snapshot();
      var updated := repo.DecrementBalanceAndLocked(b, amount + fee, amount, FaultOf(env(Apply)));
      assert Snapshot() == StepApply(before, c0, env(Apply)).0;
      c := StepApply(before, c0, env(Apply)).1;
      failed := updated.None?;
    }

    /** The rest of RecordWithdrawal: record or roll back; then post amount and fee, and invalidate. */
    method InsertWithdrawal(ghost c0: Call, b: BusinessId, ref: Reference, amount: nat, fee: nat, env: Environment)
      returns (v: Verdict, ghost c: Call)
      requires Valid() && c0.pc.Insert? && Debits(c0.op) && c0.posted == 0
      requires c0.biz == b && c0.ref == ref && c0.amount == amount && c0.fee == fee
      modifies this, repo, ledgerSvc
      ensures Valid()
      ensures Solo(Snapshot(), c, env) == Solo(old(Snapshot()), c0, env)
      ensures c.pc == if v.Succeeded? then Done(Succeeded) else Fail(c0).pc
      ensures c.biz == b && c.amount == amount && c.op == c0.op
    {
      c := c0;
      var totalDebit := amount + fee;
      var failed := CreateTransaction(Row(ref, b, -totalDebit), env(Insert));
      if failed {
        c := c.(pc := Rollback);
        assert Solo(Snapshot(), c, env) == Solo(old(Snapshot()), c0, env);
        c := RollBack(c, b, totalDebit, env);
        return Failed, c;
      }
      c := c.(inserted := true, wrote := -totalDebit, pc := Post);
      assert Solo(Snapshot(), c, env) == Solo(old(Snapshot()), c0, env);
      c := PostWithdrawal(c, b, amount, fee, env);
      v := Succeeded;
    }

    method PostWithdrawal(ghost c0: Call, b: BusinessId, amount: nat, fee: nat, env: Environment)
      returns (ghost c: Call)
      requires Valid() && c0.pc.Post? && Debits(c0.op) && c0.posted == 0
      requires c0.biz == b && c0.amount == amount && c0.fee == fee
      modifies this, repo, ledgerSvc
      ensures Valid()
      ensures Solo(Snapshot(), c, env) == Solo(old(Snapshot()), c0, env)
      ensures c.pc == Done(Succeeded) && c.biz == b && c.amount == amount && c.op == c0.op
    {
      c := c0;
      var unposted := ledgerSvc.RecordWithdrawal(b, amount, FaultOf(env(Post)));
      c := c.(posted := if unposted then 0 else 0 - amount, pc := if fee > 0 then Pc.PostFee else Invalidate);
      assert Solo(Snapshot(), c, env) == Solo(old(Snapshot()), c0, env);
      if fee > 0 {
        c := PostFee(c, b, fee, env);
      }
      c := Conclude(c, b, env);
    }

    method PostFee(ghost c0: Call, b: BusinessId, fee: nat, env: Environment) returns (ghost c: Call)
      requires Valid() && c0.pc.PostFee? && c0.biz == b && c0.fee == fee
      modifies ledgerSvc
      ensures Valid() && c == c0.(posted := c.posted, pc := Invalidate)
      ensures Solo(Snapshot(), c, env) == Solo(old(Snapshot()), c0, env)
    {
      var unposted := ledgerSvc.RecordFee(b, fee, FaultOf(env(Pc.PostFee)));
      c := c0.(posted := if unposted then c0.posted else c0.posted - fee, pc := Invalidate);
    }

    method CheckBalance(b: BusinessId, amount: nat, o: Outcome) returns (failed: bool)
      ensures failed <==> !(o.Good? && b in repo.rows && repo.rows[b].balance - repo.rows[b].locked >= amount)
    {
      var wallet := repo.FindByBusinessID(b, FaultOf(o));
      failed := wallet.None? || wallet.value.balance - wallet.value.locked < amount;
    }

    /** The insert into the uniquely indexed transfers table. */
    method CreateTransfer(ref: Reference, o: Outcome) returns (failed: bool)
      modifies this`transfers
      ensures failed <==> !o.Good? || ref in old(transfers)
      ensures transfers == if failed then old(transfers) else old(transfers) + {ref}
    {
      if !o.Good? || ref in transfers {
        return true;
      }
      transfers := transfers + {ref};
      return false;
    }

    /** ExecuteTransfer: check, lock, record the transfer, ask the provider, record the withdrawal.
        The lock is given back on every way out on which no withdrawal was recorded. */
    method ExecuteTransfer(b: BusinessId, ref: Reference, amount: nat, env: Environment)
      returns (ghost c: Call)
      requires Valid()
      modifies this, repo, ledgerSvc
      ensures Valid() && c.pc.Done?
      ensures (Snapshot(), c) == Solo(old(Snapshot()), NewCall(Transfer, b, ref, amount, 0), env)
    {
      c := NewCall(Transfer, b, ref, amount, 0);
      var refused := CheckBalance(b, amount, env(Check));
      if refused {
        return c.(pc := Done(Failed));
      }
      c := c.(pc := Reserve);
      assert Solo(Snapshot(), c, env) == Solo(old(Snapshot()), NewCall(Transfer, b, ref, amount, 0), env);
      var balanceLocked;
      balanceLocked, c := LockBalance(c, b, amount, env);
      if !balanceLocked {
        return c;
      }
      var withdrawalRecorded := false;
      withdrawalRecorded, c := TransferLocked(c, b, ref, amount, env);
      if !withdrawalRecorded {
        c := UnlockBalance(c, b, amount, env);
      }
    }

    method LockBalance(ghost c0: Call, b: BusinessId, amount: nat, env: Environment) returns (ok: bool, ghost c: Call)
      requires c0.pc.Reserve? && c0.biz == b && c0.amount == amount
      modifies repo
      ensures Solo(Snapshot(), c, env) == Solo(old(Snapshot()), c0, env)
      ensures c == c0.(held := c.held, pc := if ok then Create else Done(Failed))
    {
      ghost var before := Snapshot();
      var locked := repo.IncrementLocked(b, amount, FaultOf(env(Reserve)));
      assert Snapshot() == StepReserve(before, c0, env(Reserve)).0;
      c := StepReserve(before, c0, env(Reserve)).1;
      ok := locked.Some?;
    }

    method UnlockBalance(ghost c0: Call, b: BusinessId, amount: nat, env: Environment) returns (ghost c: Call)
      requires c0.pc.Free? && c0.biz == b && c0.amount == amount
      modifies repo
      ensures Solo(Snapshot(), c, env) == Solo(old(Snapshot()), c0, env)
      ensures c.pc == Done(Failed)
    {
      ghost var before := Snapshot();
      var w := repo.DecrementLocked(b, amount, FaultOf(env(Free)));
      assert Snapshot() == StepFree(before, c0, env(Free)).0;
      c := StepFree(before, c0, env(Free)).1;
    }

    /** The body of ExecuteTransfer between the lock and the deferred unlock. */
    method TransferLocked(ghost c0: Call, b: BusinessId, ref: Reference, amount: nat, env: Environment)
      returns (withdrawalRecorded: bool, ghost c: Call)
      requires Valid() && c0.pc.Create? && c0.op.Transfer? && c0.posted == 0
      requires c0.biz == b && c0.ref == ref && c0.amount == amount
      modifies this, repo, ledgerSvc
      ensures Valid()
      ensures Solo(Snapshot(), c, env) == Solo(old(Snapshot()), c0, env)
      ensures c.pc == if withdrawalRecorded then Done(Succeeded) else Free
      ensures c.biz == b && c.amount == amount && c.op.Transfer?
    {
      c := c0;
      var failed := CreateTransfer(ref, env(Create));
      if failed {
        return false, c.(pc := Free);
      }
      c := c.(pc := Provider);
      assert Solo(Snapshot(), c, env) == Solo(old(Snapshot()), c0, env);
      var answer := env(Provider);
      if !answer.Settled? {
        return false, c.(pc := Free);
      }
      c := c.(fee := answer.fee, pc := Lookup);
      assert Solo(Snapshot(), c, env) == Solo(old(Snapshot()), c0, env);
      var v;
      v, c := RecordWithdrawal(c, b, ref, amount, answer.fee, env);
      withdrawalRecorded := v.Succeeded?;
    }

    /** RetryTransfer: only the owner's failed transfers, re-executed under a derived reference. */
    method RetryTransfer(record: Option<StoredTransfer>, b: BusinessId, env: Environment)
      returns (refused: bool, ghost c: Call)
      requires Valid()
      modifies this, repo, ledgerSvc
      ensures Valid()
      ensures refused <==> record.None? || record.value.biz != b || record.value.status != "failed"
      ensures refused ==> Snapshot() == old(Snapshot())
      ensures !refused ==>
        (Snapshot(), c) == Solo(old(Snapshot()), NewCall(Transfer, b, record.value.ref + "-retry", record.value.amount, 0), env)
    {
      c := NewCall(Transfer, b, "", 0, 0);
      if record.None? || record.value.biz != b || record.value.status != "failed" {
        return true, c;
      }
      c := ExecuteTransfer(b, record.value.ref + "-retry", record.value.amount, env);
      refused := false;
    }

    /** Cache-aside read: the cached value if there is one, else the row's, stored on the way out. */
    method GetBalance(b: BusinessId, env: Environment) returns (r: Option<int>, ghost c: Call)
      modifies this`cache
      ensures (Snapshot(), c) == Solo(old(Snapshot()), NewCall(ReadBalance, b, "", 0, 0), env)
      ensures r.None? <==> !(env(Probe).Good? && b in old(cache)) && !(env(Load).Good? && b in repo.rows)
      ensures r.Some? ==> if env(Probe).Good? && b in old(cache) then r.value == old(cache)[b]
                          else b in repo.rows && r.value == repo.rows[b].balance
      ensures r.Some? && Coherent(old(Snapshot())) ==> b in repo.rows && r.value == repo.rows[b].balance
    {
      c := NewCall(ReadBalance, b, "", 0, 0);
      if env(Probe).Good? && b in cache {
        return Some(cache[b]), c.(pc := Done(Succeeded));
      }
      c := c.(pc := Load);
      assert Solo(Snapshot(), c, env) == Solo(old(Snapshot()), NewCall(ReadBalance, b, "", 0, 0), env);
      var wallet := repo.FindByBusinessID(b, FaultOf(env(Load)));
      c := c.(pc := if wallet.None? then Done(Failed) else Fill(wallet.value.balance));
      assert Solo(Snapshot(), c, env) == Solo(old(Snapshot()), NewCall(ReadBalance, b, "", 0, 0), env);
      if wallet.None? {
        return None, c;
      }
      if env(Fill(wallet.value.balance)).Good? {
        cache := cache[b := wallet.value.balance];
      }
      c := c.(pc := Done(Succeeded));
      assert Solo(Snapshot(), c, env) == Solo(old(Snapshot()), NewCall(ReadBalance, b, "", 0, 0), env);
      return Some(wallet.value.balance), c;
    }
  }

  /** Every cached balance is the row's. */
  predicate Coherent(s: Store)
  {
    forall b | b in s.cache :: b in s.rows && s.cache[b] == s.rows[b].balance
  }
}

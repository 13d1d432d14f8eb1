/** Concrete schedules on which a promise of the wallet code fails, one per cause. */
module WalletFindings {
  import opened Common
  import opened WalletRows
  import opened WalletProtocol
  import opened WalletConservation
  import opened WalletReservation
  import opened WalletServices

  function Opening(balance: int): Store { Store(map[1 := Wallet(balance, 0)], [], {}, [], map[]) }

  /** Exactly-once fails when an UPDATE is torn: the webhook is told its deposit failed, delivers
      it again, and one reference is credited twice while being recorded once. */
  lemma RedeliveryAfterTornUpdateCreditsTwice() returns (p: seq<Label>)
    ensures Legal(System(Opening(0), []), p)
    ensures var y := Run(System(Opening(0), []), p);
            Quiescent(y) && y.store.table == [Row("d", 1, 100)] && y.store.rows == map[1 := Wallet(200, 0)]
  {
    p := TornDelivery();
    p := DeliverAgain(p);
  }

  function TornCall(): Call { NewCall(Deposit, 1, "d", 100, 0).(pc := Done(Failed), applied := 100) }

  lemma TornDelivery() returns (p: seq<Label>)
    ensures Legal(System(Opening(0), []), p)
    ensures Run(System(Opening(0), []), p) == System(Opening(100), [TornCall()])
  {
    var y0 := System(Opening(0), []);
    p := Extend(y0, [], Arrive(Deposit, 1, "d", 100, 0));
    p := Extend(y0, p, Act(0, Good));
    p := Extend(y0, p, Act(0, Good));
    p := Extend(y0, p, Act(0, TornUpdate));
  }

  lemma DeliverAgain(p0: seq<Label>) returns (p: seq<Label>)
    requires Legal(System(Opening(0), []), p0)
    requires Run(System(Opening(0), []), p0) == System(Opening(100), [TornCall()])
    ensures Legal(System(Opening(0), []), p)
    ensures var y := Run(System(Opening(0), []), p);
            Quiescent(y) && y.store.table == [Row("d", 1, 100)] && y.store.rows == map[1 := Wallet(200, 0)]
  {
    var y0 := System(Opening(0), []);
    var twice := Opening(200).(table := [Row("d", 1, 100)]);
    var d := Depositing().(inserted := true, wrote := 100);
    p := RecordAgain(p0);
    p := Extend(y0, p, Act(1, Bad));
    assert Run(y0, p) == System(twice, [TornCall(), d.(pc := Invalidate)]);
    p := Extend(y0, p, Act(1, Good));
    assert Run(y0, p) == System(twice, [TornCall(), d.(pc := Done(Succeeded))]);
  }

  lemma RecordAgain(p0: seq<Label>) returns (p: seq<Label>)
    requires Legal(System(Opening(0), []), p0)
    requires Run(System(Opening(0), []), p0) == System(Opening(100), [TornCall()])
    ensures Legal(System(Opening(0), []), p)
    ensures Run(System(Opening(0), []), p)
         == System(Opening(200).(table := [Row("d", 1, 100)]), [TornCall(), Depositing().(inserted := true, wrote := 100, pc := Post)])
  {
    p := CreditAgain(p0);
    p := Extend(System(Opening(0), []), p, Act(1, Good));
  }

  lemma CreditAgain(p0: seq<Label>) returns (p: seq<Label>)
    requires Legal(System(Opening(0), []), p0)
    requires Run(System(Opening(0), []), p0) == System(Opening(100), [TornCall()])
    ensures Legal(System(Opening(0), []), p)
    ensures Run(System(Opening(0), []), p)
         == System(Opening(200), [TornCall(), NewCall(Deposit, 1, "d", 100, 0).(pc := Insert, applied := 100)])
  {
    var y0, c := System(Opening(0), []), NewCall(Deposit, 1, "d", 100, 0);
    p := Extend(y0, p0, Arrive(Deposit, 1, "d", 100, 0));
    p := Extend(y0, p, Act(1, Good));
    assert Run(y0, p) == System(Opening(100), [TornCall(), c.(pc := Read)]);
    p := Extend(y0, p, Act(1, Good));
    p := Extend(y0, p, Act(1, Good));
  }

  /** A wallet of 100 on which one transfer of 60 has settled and its withdrawal statement has just
      taken effect, while another transfer holds 40. */
  function Settling(): System
  {
    var a := Call(Transfer, 1, "a", 60, 0, Insert, -60, false, 0, 0, 0);
    var b := Call(Transfer, 1, "b", 40, 0, Provider, 0, false, 0, 0, 40);
    System(Store(map[1 := Wallet(40, 40)], [], {"a", "b"}, [], map[]), [a, b])
  }

  /** That state is reached by ordinary steps. */
  lemma SettlingIsReachable() returns (p: seq<Label>)
    ensures Legal(System(Opening(100), []), p) && Run(System(Opening(100), []), p) == Settling()
  {
    p := BothLocked();
    var y0 := System(Opening(100), []);
    p := Extend(y0, p, Act(0, Settled(0)));
    p := Extend(y0, p, Act(0, Good));
    p := Extend(y0, p, Act(0, Good));
    p := Extend(y0, p, Act(0, Good));
  }

  lemma BothLocked() returns (p: seq<Label>)
    ensures Legal(System(Opening(100), []), p)
    ensures Run(System(Opening(100), []), p)
         == System(Store(map[1 := Wallet(100, 100)], [], {"a", "b"}, [], map[]),
                   [Call(Transfer, 1, "a", 60, 0, Provider, 0, false, 0, 0, 60),
                    Call(Transfer, 1, "b", 40, 0, Provider, 0, false, 0, 0, 40)])
  {
    var y0, a := System(Opening(100), []), Call(Transfer, 1, "a", 60, 0, Provider, 0, false, 0, 0, 60);
    p := SecondChecked();
    p := Extend(y0, p, Act(1, Good));
    assert Run(y0, p) ==
           System(Store(map[1 := Wallet(100, 100)], [], {"a"}, [], map[]),
                  [a, Call(Transfer, 1, "b", 40, 0, Create, 0, false, 0, 0, 40)]);
    p := Extend(y0, p, Act(1, Good));
  }

  lemma SecondChecked() returns (p: seq<Label>)
    ensures Legal(System(Opening(100), []), p)
    ensures Run(System(Opening(100), []), p)
         == System(Store(map[1 := Wallet(100, 60)], [], {"a"}, [], map[]),
                   [Call(Transfer, 1, "a", 60, 0, Provider, 0, false, 0, 0, 60),
                    NewCall(Transfer, 1, "b", 40, 0).(pc := Reserve)])
  {
    var y0 := System(Opening(100), []);
    p := FirstLocked();
    p := Extend(y0, p, Arrive(Transfer, 1, "b", 40, 0));
    p := Extend(y0, p, Act(1, Good));
  }

  lemma FirstChecked() returns (p: seq<Label>)
    ensures Legal(System(Opening(100), []), p)
    ensures Run(System(Opening(100), []), p) == System(Opening(100), [NewCall(Transfer, 1, "a", 60, 0).(pc := Reserve)])
  {
    var y0 := System(Opening(100), []);
    p := Extend(y0, [], Arrive(Transfer, 1, "a", 60, 0));
    p := Extend(y0, p, Act(0, Good));
  }

  lemma FirstLocked() returns (p: seq<Label>)
    ensures Legal(System(Opening(100), []), p)
    ensures Run(System(Opening(100), []), p)
         == System(Store(map[1 := Wallet(100, 60)], [], {"a"}, [], map[]),
                   [Call(Transfer, 1, "a", 60, 0, Provider, 0, false, 0, 0, 60)])
  {
    var y0 := System(Opening(100), []);
    p := FirstChecked();
    p := Extend(y0, p, Act(0, Good));
    assert Run(y0, p) ==
           System(Opening(100).(rows := map[1 := Wallet(100, 60)]), [Call(Transfer, 1, "a", 60, 0, Create, 0, false, 0, 0, 60)]);
    p := Extend(y0, p, Act(0, Good));
  }

  /** A call holds an amount of a row that has nothing locked. */
  lemma HeldWithNothingLocked(y: System, b: BusinessId, i: nat)
    requires i < |y.calls| && y.calls[i].biz == b && y.calls[i].held > 0
    requires b in y.store.rows && y.store.rows[b].locked == 0
    ensures !AllReserved(y)
  {
    SumAtLeast(y.calls, i, HeldBy(b));
    assert !Reserved(y, b);
  }

  /** The rollback of a withdrawal restores the balance but not the lock its statement released, so
      the deferred unlock releases it a second time, out of another transfer's reservation: the
      second transfer still holds 40 while nothing is locked any more. */
  lemma FailedInsertUnlocksTwice() returns (p: seq<Label>)
    ensures Legal(Settling(), p)
    ensures var y := Run(Settling(), p);
            && y.store.rows == map[1 := Wallet(100, 0)] && |y.calls| == 2 && y.calls[1].held == 40
            && !AllReserved(y)
  {
    var y0 := Settling();
    var a, b := y0.calls[0], y0.calls[1];
    p := Extend(y0, [], Act(0, Bad));
    assert Run(y0, p) == System(y0.store, [a.(pc := Rollback), b]);
    p := Extend(y0, p, Act(0, Good));
    assert Run(y0, p) == System(y0.store.(rows := map[1 := Wallet(100, 40)]), [a.(pc := Free, applied := 0), b]);
    p := Extend(y0, p, Act(0, Good));
    var y := Run(y0, p);
    assert y == System(y0.store.(rows := map[1 := Wallet(100, 0)]), [a.(pc := Done(Failed), applied := 0), b]);
    HeldWithNothingLocked(y, 1, 1);
  }

  /** The batch path unlocks what it never locked: one failed payout of a batch releases another
      transfer's reservation. */
  lemma BatchUnlockTakesAnothersLock() returns (p: seq<Label>)
    ensures Legal(Settling(), p)
    ensures var y := Run(Settling(), p);
            y.store.rows == map[1 := Wallet(40, 0)] && |y.calls| == 3 && y.calls[1].held == 40 && !AllReserved(y)
  {
    var y0 := Settling();
    p := Extend(y0, [], Arrive(Release, 1, "c", 40, 0));
    p := Extend(y0, p, Act(2, Good));
    var y := Run(y0, p);
    HeldWithNothingLocked(y, 1, 1);
  }

  /** Coherence is a property of sequential histories only: a read that loaded before a deposit and
      stores after its invalidation leaves the old balance in the cache. */
  lemma InterleavedReadCachesStaleBalance() returns (p: seq<Label>)
    ensures Legal(System(Opening(0), []), p)
    ensures var y := Run(System(Opening(0), []), p);
            Quiescent(y) && y.store.rows == map[1 := Wallet(100, 0)] && y.store.cache == map[1 := 0]
            && !Coherent(y.store)
  {
    var y0 := System(Opening(0), []);
    p := DepositRecorded();
    p := Extend(y0, p, Act(1, Good));
    assert Run(y0, p) == System(AfterDeposit(), [ReadLoaded(), Depositing().(inserted := true, wrote := 100, pc := Done(Succeeded))]);
    p := Extend(y0, p, Act(0, Good));
    assert Run(y0, p).store == AfterDeposit().(cache := map[1 := 0]);
  }

  function Depositing(): Call { NewCall(Deposit, 1, "d", 100, 0).(applied := 100) }

  function AfterDeposit(): Store { Opening(100).(table := [Row("d", 1, 100)]) }

  lemma DepositRecorded() returns (p: seq<Label>)
    ensures Legal(System(Opening(0), []), p)
    ensures Run(System(Opening(0), []), p)
         == System(AfterDeposit(), [ReadLoaded(), Depositing().(inserted := true, wrote := 100, pc := Invalidate)])
  {
    var y0 := System(Opening(0), []);
    p := ReadThenDeposit();
    p := Extend(y0, p, Act(1, Good));
    assert Run(y0, p) == System(AfterDeposit(), [ReadLoaded(), Depositing().(inserted := true, wrote := 100, pc := Post)]);
    p := Extend(y0, p, Act(1, Bad));
  }

  lemma ReadThenDeposit() returns (p: seq<Label>)
    ensures Legal(System(Opening(0), []), p)
    ensures Run(System(Opening(0), []), p) == System(Opening(100), [ReadLoaded(), Depositing().(pc := Insert)])
  {
    var y0 := System(Opening(0), []);
    p := ReadThenLookup();
    p := Extend(y0, p, Act(1, Good));
    assert Run(y0, p) == System(Opening(0), [ReadLoaded(), NewCall(Deposit, 1, "d", 100, 0).(pc := Apply)]);
    p := Extend(y0, p, Act(1, Good));
  }

  lemma ReadThenLookup() returns (p: seq<Label>)
    ensures Legal(System(Opening(0), []), p)
    ensures Run(System(Opening(0), []), p)
         == System(Opening(0), [ReadLoaded(), NewCall(Deposit, 1, "d", 100, 0).(pc := Read)])
  {
    var y0 := System(Opening(0), []);
    p := ReadLoads();
    p := Extend(y0, p, Arrive(Deposit, 1, "d", 100, 0));
    p := Extend(y0, p, Act(1, Good));
  }

  function ReadLoaded(): Call { NewCall(ReadBalance, 1, "", 0, 0).(pc := Fill(0)) }

  lemma ReadLoads() returns (p: seq<Label>)
    ensures Legal(System(Opening(0), []), p) && Run(System(Opening(0), []), p) == System(Opening(0), [ReadLoaded()])
  {
    var y0 := System(Opening(0), []);
    p := Extend(y0, [], Arrive(ReadBalance, 1, "", 0, 0));
    p := Extend(y0, p, Act(0, Good));
    p := Extend(y0, p, Act(0, Good));
  }
}

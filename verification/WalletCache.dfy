/** The balance cache against the wallet rows: over sequential histories, and over every interleaving. */
module WalletCache {
  import opened Common
  import opened WalletRows
  import opened WalletProtocol
  import opened WalletConservation
  import opened WalletServices

  /** Midway through a lone call, its own cached balance lags by what the call has applied. */
  predicate Lags(s: Store, c: Call)
  {
    && (forall b | b in s.cache :: b in s.rows
         && s.rows[b].balance == s.cache[b] + if b == c.biz then c.applied else 0)
    && (c.pc.Fill? ==> c.biz in s.rows && c.pc.value == s.rows[c.biz].balance)
  }

  /** Only Invalidate and Fill touch the cache, and only Load remembers a balance. */
  lemma CacheMoves(s: Store, c: Call, o: Outcome)
    requires !c.pc.Done?
    ensures var (s', c') := StepCall(s, c, o);
            && s'.cache == (if c.pc.Invalidate? && o.Good? then s.cache - {c.biz}
                            else if c.pc.Fill? && o.Good? then s.cache[c.biz := c.pc.value] else s.cache)
            && (c'.pc.Fill? ==> c.pc.Load? && c.biz in s.rows && c'.pc.value == s.rows[c.biz].balance && s'.rows == s.rows)
  {
  }

  lemma LagStep(s: Store, c: Call, o: Outcome)
    requires CallOk(c) && !c.pc.Done? && Lags(s, c)
    ensures var (s', c') := StepCall(s, c, o); Lags(s', c')
  {
    StepKeepsNames(s, c, o);
    StepKeepsRows(s, c, o);
    CacheMoves(s, c, o);
    var (s', c') := StepCall(s, c, o);
    forall b | b in s'.cache
      ensures b in s'.rows && s'.rows[b].balance == s'.cache[b] + if b == c'.biz then c'.applied else 0
    {
      if b in s.rows {
        StepBalances(s, c, o, b);
      }
    }
  }

  /** A recorded call ends by invalidating, and only a recorded call does. */
  lemma RecordedCallsInvalidate(s: Store, c: Call, o: Outcome)
    requires CallOk(c) && !c.pc.Done? && !c.op.ReadBalance?
    ensures var c' := StepCall(s, c, o).1;
            && (c.pc.Invalidate? ==> c'.pc.Done? && c'.inserted)
            && (!c.pc.Invalidate? && c'.pc.Done? ==> !c'.inserted)
  {
  }

  lemma CacheStep(s: Store, c: Call, o: Outcome)
    requires CallOk(c) && !c.pc.Done? && !c.op.ReadBalance?
    ensures var (s', c') := StepCall(s, c, o);
            && s'.cache == (if c.pc.Invalidate? && o.Good? then s.cache - {c.biz} else s.cache)
            && (c.pc.Invalidate? ==> c'.pc.Done? && c'.inserted)
            && (!c.pc.Invalidate? && c'.pc.Done? ==> !c'.inserted)
  {
    CacheMoves(s, c, o);
    RecordedCallsInvalidate(s, c, o);
  }

  /** Run alone, a call that changes balances leaves the cache entry of its business in place,
      unless it recorded its transaction and the invalidation went through. */
  lemma {:induction false} SoloCache(s: Store, c: Call, env: Environment)
    requires CallOk(c) && Lags(s, c) && !c.op.ReadBalance? && !c.pc.Done?
    ensures var (s', c') := Solo(s, c, env);
            && CallOk(c') && c'.pc.Done? && Lags(s', c') && c'.biz == c.biz
            && (c.biz in s'.cache <==> c.biz in s.cache && !(c'.inserted && env(Invalidate).Good?))
    decreases Rank(c.pc)
  {
    var (s', c') := StepCall(s, c, env(c.pc));
    StepLowersRank(s, c, env(c.pc));
    StepKeepsCallOk(s, c, env(c.pc));
    StepKeepsNames(s, c, env(c.pc));
    LagStep(s, c, env(c.pc));
    CacheStep(s, c, env(c.pc));
    if !c'.pc.Done? {
      SoloCache(s', c', env);
    }
  }

  /** A read alone always leaves a coherent cache coherent. */
  lemma {:induction false} SoloReadIsCoherent(s: Store, c: Call, env: Environment)
    requires CallOk(c) && Lags(s, c) && c.op.ReadBalance?
    ensures Coherent(Solo(s, c, env).0)
    decreases Rank(c.pc)
  {
    if !c.pc.Done? {
      var (s', c') := StepCall(s, c, env(c.pc));
      StepLowersRank(s, c, env(c.pc));
      StepKeepsCallOk(s, c, env(c.pc));
      StepKeepsNames(s, c, env(c.pc));
      LagStep(s, c, env(c.pc));
      SoloReadIsCoherent(s', c', env);
    }
  }

  // ---- what a lone call comes to, told from the store before it and the answers it gets ----

  /** A statement answered like this takes effect, torn or not, if its guard holds. */
  predicate TakesEffect(o: Outcome) { o.Good? || o.TornUpdate? }

  predicate Known(s: Store, ref: Reference, o: Outcome) { o.Good? && HasRef(s.table, ref) }

  /** A transfer gets past its lock, its insert and the provider. */
  predicate Settles(s: Store, b: BusinessId, ref: Reference, amount: nat, env: Environment)
  {
    && env(Check).Good? && b in s.rows && s.rows[b].balance - s.rows[b].locked >= amount
    && env(Reserve).Good? && env(Create).Good? && ref !in s.transfers && env(Provider).Settled?
  }

  function FeeOf(op: Op, fee: nat, env: Environment): nat
  {
    match op
    case Withdrawal => fee
    case Transfer => if env(Provider).Settled? then env(Provider).fee else 0
    case _ => 0
  }

  /** The call gets to its own update of the balance and that takes effect. */
  predicate Moves(s: Store, op: Op, b: BusinessId, ref: Reference, amount: nat, fee: nat, env: Environment)
  {
    && Records(op) && (op.Transfer? ==> Settles(s, b, ref, amount, env))
    && !Known(s, ref, env(Lookup)) && env(Read).Good? && b in s.rows
    && (Debits(op) ==> s.rows[b].balance >= amount + FeeOf(op, fee, env))
    && TakesEffect(env(Apply))
  }

  /** Its transaction is then recorded, by a deposit at the second attempt perhaps. */
  predicate Inserts(s: Store, op: Op, ref: Reference, env: Environment)
  {
    !HasRef(s.table, ref) && (env(Insert).Good? || (op.Deposit? && env(Retry).Good?))
  }

  /** Money stays moved and the cached balance stays: the update was torn, or what was recorded was
      not invalidated, or what was not recorded was not rolled back. */
  predicate GoesStale(s: Store, op: Op, b: BusinessId, ref: Reference, amount: nat, fee: nat, env: Environment)
  {
    && b in s.cache && amount + FeeOf(op, fee, env) != 0 && Moves(s, op, b, ref, amount, fee, env)
    && (|| env(Apply).TornUpdate?
        || (if Inserts(s, op, ref, env) then !env(Invalidate).Good? else !TakesEffect(env(Rollback))))
  }

  lemma SoloStep(s: Store, c: Call, env: Environment)
    requires !c.pc.Done?
    ensures var (s', c') := StepCall(s, c, env(c.pc)); Solo(s, c, env) == Solo(s', c', env)
  {
    StepLowersRank(s, c, env(c.pc));
  }

  /** From its recording on, or from its last unlock, a call changes nothing it has applied. */
  lemma {:induction false} SettledTail(s: Store, c: Call, env: Environment)
    requires c.pc.Post? || c.pc.PostFee? || c.pc.Invalidate? || c.pc.Free? || c.pc.Done?
    ensures var c' := Solo(s, c, env).1; c'.applied == c.applied && c'.inserted == c.inserted
    decreases Rank(c.pc)
  {
    if !c.pc.Done? {
      SoloStep(s, c, env);
      var (s', c') := StepCall(s, c, env(c.pc));
      StepLowersRank(s, c, env(c.pc));
      SettledTail(s', c', env);
    }
  }

  lemma RollbackTail(s: Store, c: Call, env: Environment)
    requires CallOk(c) && c.pc.Rollback? && c.biz in s.rows
    ensures var c' := Solo(s, c, env).1;
            !c'.inserted && c'.applied == if TakesEffect(env(Rollback)) then 0 else Delta(c)
  {
    SoloStep(s, c, env);
    var (s', c') := StepCall(s, c, env(Rollback));
    SettledTail(s', c', env);
  }

  lemma RetryTail(s: Store, c: Call, env: Environment)
    requires CallOk(c) && c.pc.Retry? && c.biz in s.rows
    ensures var c' := Solo(s, c, env).1;
            var recorded := env(Retry).Good? && !HasRef(s.table, c.ref);
            c'.inserted == recorded && c'.applied == if recorded || !TakesEffect(env(Rollback)) then Delta(c) else 0
  {
    SoloStep(s, c, env);
    StepKeepsCallOk(s, c, env(Retry));
    var (s', c') := StepCall(s, c, env(Retry));
    if c'.pc.Rollback? {
      RollbackTail(s', c', env);
    } else {
      SettledTail(s', c', env);
    }
  }

  lemma InsertTail(s: Store, c: Call, env: Environment)
    requires CallOk(c) && c.pc.Insert? && c.biz in s.rows
    ensures var c' := Solo(s, c, env).1;
            var recorded := Inserts(s, c.op, c.ref, env);
            c'.inserted == recorded && c'.applied == if recorded || !TakesEffect(env(Rollback)) then Delta(c) else 0
  {
    SoloStep(s, c, env);
    StepKeepsCallOk(s, c, env(Insert));
    var (s', c') := StepCall(s, c, env(Insert));
    if c'.pc.Rollback? {
      RollbackTail(s', c', env);
    } else if c'.pc.Retry? {
      RetryTail(s', c', env);
    } else {
      SettledTail(s', c', env);
    }
  }

  /** What a call that has come to its update ends with. */
  predicate EndsWith(s: Store, c: Call, env: Environment, moves: bool, delta: int)
  {
    var c' := Solo(s, c, env).1;
    if !moves then c'.applied == 0 && !c'.inserted
    else if env(Apply).TornUpdate? then c'.applied == delta && !c'.inserted
    else
      var recorded := Inserts(s, c.op, c.ref, env);
      c'.inserted == recorded && c'.applied == if recorded || !TakesEffect(env(Rollback)) then delta else 0
  }

  lemma ApplyTail(s: Store, c: Call, env: Environment)
    requires CallOk(c) && c.pc.Apply?
    ensures EndsWith(s, c, env,
              c.biz in s.rows && (Debits(c.op) ==> s.rows[c.biz].balance >= c.amount + c.fee) && TakesEffect(env(Apply)),
              Delta(c))
  {
    SoloStep(s, c, env);
    StepKeepsCallOk(s, c, env(Apply));
    var (s', c') := StepCall(s, c, env(Apply));
    if c'.pc.Insert? {
      InsertTail(s', c', env);
    } else {
      SettledTail(s', c', env);
    }
  }

  lemma ReadTail(s: Store, c: Call, env: Environment)
    requires CallOk(c) && c.pc.Read?
    ensures EndsWith(s, c, env,
              && env(Read).Good? && c.biz in s.rows && (Debits(c.op) ==> s.rows[c.biz].balance >= c.amount + c.fee)
              && TakesEffect(env(Apply)), Delta(c))
  {
    SoloStep(s, c, env);
    StepKeepsCallOk(s, c, env(Read));
    var (s', c') := StepCall(s, c, env(Read));
    if c'.pc.Apply? {
      ApplyTail(s', c', env);
    } else {
      SettledTail(s', c', env);
    }
  }

  lemma LookupTail(s: Store, c: Call, env: Environment)
    requires CallOk(c) && c.pc.Lookup?
    ensures EndsWith(s, c, env,
              && !Known(s, c.ref, env(Lookup)) && env(Read).Good? && c.biz in s.rows
              && (Debits(c.op) ==> s.rows[c.biz].balance >= c.amount + c.fee) && TakesEffect(env(Apply)), Delta(c))
  {
    SoloStep(s, c, env);
    StepKeepsCallOk(s, c, env(Lookup));
    var (s', c') := StepCall(s, c, env(Lookup));
    if c'.pc.Read? {
      ReadTail(s', c', env);
    } else {
      SettledTail(s', c', env);
    }
  }

  lemma ProviderTail(s: Store, c: Call, env: Environment)
    requires CallOk(c) && c.pc.Provider?
    ensures var fee := FeeOf(Transfer, 0, env);
            EndsWith(s, c, env,
              && env(Provider).Settled? && !Known(s, c.ref, env(Lookup)) && env(Read).Good? && c.biz in s.rows
              && s.rows[c.biz].balance >= c.amount + fee && TakesEffect(env(Apply)),
              -(c.amount + fee))
  {
    SoloStep(s, c, env);
    StepKeepsCallOk(s, c, env(Provider));
    var (s', c') := StepCall(s, c, env(Provider));
    if c'.pc.Lookup? {
      LookupTail(s', c', env);
    } else {
      SettledTail(s', c', env);
    }
  }

  lemma CreateTail(s: Store, c: Call, env: Environment)
    requires CallOk(c) && c.pc.Create?
    ensures var fee := FeeOf(Transfer, 0, env);
            EndsWith(s, c, env,
              && env(Create).Good? && c.ref !in s.transfers && env(Provider).Settled?
              && !Known(s, c.ref, env(Lookup)) && env(Read).Good? && c.biz in s.rows
              && s.rows[c.biz].balance >= c.amount + fee && TakesEffect(env(Apply)),
              -(c.amount + fee))
  {
    SoloStep(s, c, env);
    StepKeepsCallOk(s, c, env(Create));
    var (s', c') := StepCall(s, c, env(Create));
    if c'.pc.Provider? {
      ProviderTail(s', c', env);
    } else {
      SettledTail(s', c', env);
    }
  }

  lemma ReserveTail(s: Store, c: Call, env: Environment)
    requires CallOk(c) && c.pc.Reserve? && c.biz in s.rows && s.rows[c.biz].balance - s.rows[c.biz].locked >= c.amount
    ensures var fee := FeeOf(Transfer, 0, env);
            EndsWith(s, c, env,
              && env(Reserve).Good? && env(Create).Good? && c.ref !in s.transfers && env(Provider).Settled?
              && !Known(s, c.ref, env(Lookup)) && env(Read).Good?
              && s.rows[c.biz].balance >= c.amount + fee && TakesEffect(env(Apply)),
              -(c.amount + fee))
  {
    SoloStep(s, c, env);
    StepKeepsCallOk(s, c, env(Reserve));
    var (s', c') := StepCall(s, c, env(Reserve));
    if c'.pc.Create? {
      CreateTail(s', c', env);
    } else {
      SettledTail(s', c', env);
    }
  }

  lemma CheckTail(s: Store, b: BusinessId, ref: Reference, amount: nat, fee: nat, env: Environment)
    ensures var c := NewCall(Transfer, b, ref, amount, fee);
            EndsWith(s, c, env, Moves(s, Transfer, b, ref, amount, fee, env), -(amount + FeeOf(Transfer, fee, env)))
  {
    var c := NewCall(Transfer, b, ref, amount, fee);
    SoloStep(s, c, env);
    var (s', c') := StepCall(s, c, env(Check));
    if c'.pc.Reserve? {
      ReserveTail(s', c', env);
    } else {
      SettledTail(s', c', env);
    }
  }

  /** Where a lone call ends, told from the store before it and its answers. */
  lemma WhereACallEnds(s: Store, op: Op, b: BusinessId, ref: Reference, amount: nat, fee: nat, env: Environment)
    requires !op.ReadBalance?
    ensures var delta := if op.Deposit? then amount else -(amount + FeeOf(op, fee, env));
            EndsWith(s, NewCall(op, b, ref, amount, fee), env, Moves(s, op, b, ref, amount, fee, env), delta)
  {
    var c := NewCall(op, b, ref, amount, fee);
    match op
    case Transfer => CheckTail(s, b, ref, amount, fee, env);
    case Release => SettledTail(s, c, env);
    case _ => LookupTail(s, c, env);
  }

  /** From a coherent cache, a call run alone leaves a coherent cache if and only if it does not go
      stale. */
  lemma SoloCoherentIff(s: Store, op: Op, b: BusinessId, ref: Reference, amount: nat, fee: nat, env: Environment)
    requires Coherent(s) && !op.ReadBalance?
    ensures Coherent(Solo(s, NewCall(op, b, ref, amount, fee), env).0) <==> !GoesStale(s, op, b, ref, amount, fee, env)
  {
    var c := NewCall(op, b, ref, amount, fee);
    SoloCache(s, c, env);
    WhereACallEnds(s, op, b, ref, amount, fee, env);
    var (s', c') := Solo(s, c, env);
    assert forall d | d in s'.cache :: d != b ==> s'.rows[d].balance == s'.cache[d];
  }

  /** A sequential history: calls served one after another, and expiries in between. */
  datatype Event =
    | Serve(op: Op, biz: BusinessId, ref: Reference, amount: nat, fee: nat, env: Environment)
    | Expiry(biz: BusinessId)

  function After(s: Store, e: Event): Store
  {
    match e
    case Serve(op, b, ref, amount, fee, env) => Solo(s, NewCall(op, b, ref, amount, fee), env).0
    case Expiry(b) => s.(cache := s.cache - {b})
  }

  predicate Stales(s: Store, e: Event)
  {
    e.Serve? && !e.op.ReadBalance? && GoesStale(s, e.op, e.biz, e.ref, e.amount, e.fee, e.env)
  }

  predicate CoherentThroughout(s: Store, history: seq<Event>)
    decreases |history|
  {
    Coherent(s) && (history != [] ==> CoherentThroughout(After(s, history[0]), history[1..]))
  }

  predicate NeverStales(s: Store, history: seq<Event>)
    decreases |history|
  {
    history != [] ==> !Stales(s, history[0]) && NeverStales(After(s, history[0]), history[1..])
  }

  /** Over every sequential history, cached balances equal the rows' at every moment if and only
      if no call of the history leaves its entry stale. */
  lemma {:induction false} CacheCoherence(s: Store, history: seq<Event>)
    requires Coherent(s)
    ensures CoherentThroughout(s, history) <==> NeverStales(s, history)
    decreases |history|
  {
    if history != [] {
      var e, s' := history[0], After(s, history[0]);
      if e.Serve? && !e.op.ReadBalance? {
        SoloCoherentIff(s, e.op, e.biz, e.ref, e.amount, e.fee, e.env);
      } else if e.Serve? {
        SoloReadIsCoherent(s, NewCall(e.op, e.biz, e.ref, e.amount, e.fee), e.env);
      }
      if Coherent(s') {
        CacheCoherence(s', history[1..]);
      }
    }
  }

  /** The environment keeps its word: no balance update is torn, and rollbacks and invalidations
      succeed. */
  predicate KeepsItsWord(e: Event)
  {
    e.Serve? ==> !e.env(Apply).TornUpdate? && e.env(Rollback).Good? && e.env(Invalidate).Good?
  }

  /** Then cached balances equal the rows' at every moment of every sequential history of reads,
      deposits fresh, duplicate or rolled back, withdrawals, transfers, unlocks and expiries. */
  lemma {:induction false} CacheStaysCoherent(s: Store, history: seq<Event>)
    requires Coherent(s) && forall e | e in history :: KeepsItsWord(e)
    ensures CoherentThroughout(s, history)
    decreases |history|
  {
    if history != [] {
      var e := history[0];
      assert KeepsItsWord(e);
      if e.Serve? && !e.op.ReadBalance? {
        SoloCoherentIff(s, e.op, e.biz, e.ref, e.amount, e.fee, e.env);
      } else if e.Serve? {
        SoloReadIsCoherent(s, NewCall(e.op, e.biz, e.ref, e.amount, e.fee), e.env);
      }
      CacheStaysCoherent(After(s, e), history[1..]);
    }
  }

  // ---- every interleaving ----

  /** Steps that make a cached balance wrong, told from the system before the step: an update of the
      balance that takes effect while the balance is cached, and a read storing a value that is no
      longer the row's. */
  predicate Taints(y: System, l: Label)
    requires Enabled(y, l)
  {
    l.Act? &&
    var c := y.calls[l.index];
    || ((c.pc.Apply? || c.pc.Rollback?) && Changes(y.store, c, l.outcome) && Delta(c) != 0 && c.biz in y.store.cache)
    || (c.pc.Fill? && l.outcome.Good? && (c.biz !in y.store.rows || y.store.rows[c.biz].balance != c.pc.value))
  }

  lemma BalanceMoves(s: Store, c: Call, o: Outcome, b: BusinessId)
    requires CallOk(c) && !c.pc.Done? && b in s.rows
    ensures var s' := StepCall(s, c, o).0;
            s'.rows.Keys == s.rows.Keys && s'.rows[b].balance - s.rows[b].balance ==
              if b == c.biz && Changes(s, c, o) then (if c.pc.Apply? then Delta(c) else if c.pc.Rollback? then -Delta(c) else 0) else 0
  {
    if SendsUpdate(c.pc) {
      UpdateMoves(s, c, o, b);
    } else {
      OtherStepsMoveNothing(s, c, o);
    }
  }

  lemma OtherStepsMoveNothing(s: Store, c: Call, o: Outcome)
    requires !c.pc.Done? && !SendsUpdate(c.pc)
    ensures StepCall(s, c, o).0.rows == s.rows
  {
  }

  lemma UpdateMoves(s: Store, c: Call, o: Outcome, b: BusinessId)
    requires CallOk(c) && SendsUpdate(c.pc) && b in s.rows
    ensures var s' := StepCall(s, c, o).0;
            s'.rows.Keys == s.rows.Keys && s'.rows[b].balance - s.rows[b].balance ==
              if b == c.biz && Changes(s, c, o) then (if c.pc.Apply? then Delta(c) else if c.pc.Rollback? then -Delta(c) else 0) else 0
  {
  }

  /** From a coherent cache a step leads to a coherent cache if and only if it does not taint it. */
  lemma StepCoherentIff(opening: Store, y: System, l: Label)
    requires Invariant(opening, y) && Coherent(y.store) && Enabled(y, l)
    ensures Coherent(Next(y, l).store) <==> !Taints(y, l)
  {
    if l.Act? {
      var c, s := y.calls[l.index], y.store;
      var s' := StepCall(s, c, l.outcome).0;
      CacheMoves(s, c, l.outcome);
      StepKeepsRows(s, c, l.outcome);
      forall b | b in s.rows {
        BalanceMoves(s, c, l.outcome, b);
      }
    }
  }

  predicate AlwaysCoherent(y: System, schedule: seq<Label>)
    requires Legal(y, schedule)
    decreases |schedule|
  {
    Coherent(y.store) && (schedule != [] ==> AlwaysCoherent(Next(y, schedule[0]), schedule[1..]))
  }

  predicate NeverTaints(y: System, schedule: seq<Label>)
    requires Legal(y, schedule)
    decreases |schedule|
  {
    schedule != [] ==> !Taints(y, schedule[0]) && NeverTaints(Next(y, schedule[0]), schedule[1..])
  }

  /** Over every interleaving: the cache is coherent in every state of a run if and only if no step
      of the run taints it. */
  lemma {:induction false} InterleavedCoherentIff(opening: Store, y: System, schedule: seq<Label>)
    requires Invariant(opening, y) && Coherent(y.store) && Legal(y, schedule)
    ensures AlwaysCoherent(y, schedule) <==> NeverTaints(y, schedule)
    decreases |schedule|
  {
    if schedule != [] {
      StepCoherentIff(opening, y, schedule[0]);
      InvariantStep(opening, y, schedule[0]);
      if !Taints(y, schedule[0]) {
        InterleavedCoherentIff(opening, Next(y, schedule[0]), schedule[1..]);
      }
    }
  }

  // ---- where a cached value comes from ----

  /** The label touches the cache entry of `b`. */
  predicate Touches(y: System, l: Label, b: BusinessId)
    requires Enabled(y, l)
  {
    match l
    case Arrive(_, _, _, _, _) => false
    case Expire(d) => d == b
    case Act(i, o) => o.Good? && y.calls[i].biz == b && (y.calls[i].pc.Invalidate? || y.calls[i].pc.Fill?)
  }

  /** Call `i` loads the balance of `b` by label `l` and stores it by label `f`. */
  ghost predicate Reads(y: System, schedule: seq<Label>, b: BusinessId, i: nat, l: nat, f: nat)
  {
    && l < f < |schedule| && Legal(y, schedule[..l]) && Legal(y, schedule[..f])
    && schedule[l].Act? && schedule[l].index == i && schedule[f] == Act(i, Good)
    && (forall k | l < k < f :: schedule[k].Act? ==> schedule[k].index != i)
    && i < |Run(y, schedule[..l]).calls| && Run(y, schedule[..l]).calls[i].pc.Load?
    && Run(y, schedule[..l]).calls[i].biz == b && b in Run(y, schedule[..l]).store.rows
    && i < |Run(y, schedule[..f]).calls| && Run(y, schedule[..f]).calls[i].pc.Fill?
  }

  /** And nothing touches the entry from then on: it is this read that is cached at the end. */
  ghost predicate CachedBy(y: System, schedule: seq<Label>, b: BusinessId, i: nat, l: nat, f: nat)
  {
    && Reads(y, schedule, b, i, l, f)
    && forall k | f < k < |schedule| ::
         Legal(y, schedule[..k]) && Enabled(Run(y, schedule[..k]), schedule[k]) && !Touches(Run(y, schedule[..k]), schedule[k], b)
  }

  lemma UntouchedStays(y: System, l: Label, b: BusinessId)
    requires Enabled(y, l) && !Touches(y, l, b)
    ensures var z := Next(y, l);
            (b in z.store.cache <==> b in y.store.cache) && (b in y.store.cache ==> z.store.cache[b] == y.store.cache[b])
  {
    if l.Act? {
      CacheMoves(y.store, y.calls[l.index], l.outcome);
    }
  }

  /** A call waiting to store a balance loaded it at some label, when the row had it. */
  lemma {:induction false} FillWasLoaded(y: System, schedule: seq<Label>, i: nat) returns (l: nat)
    requires Legal(y, schedule) && y.calls == [] && i < |Run(y, schedule).calls| && Run(y, schedule).calls[i].pc.Fill?
    ensures l < |schedule| && Legal(y, schedule[..l]) && schedule[l].Act? && schedule[l].index == i
    ensures forall k | l < k < |schedule| :: schedule[k].Act? ==> schedule[k].index != i
    ensures var c := Run(y, schedule).calls[i];
            var z := Run(y, schedule[..l]);
            && i < |z.calls| && z.calls[i].pc.Load? && z.calls[i].biz == c.biz
            && c.biz in z.store.rows && z.store.rows[c.biz].balance == c.pc.value
    decreases |schedule|
  {
    var n := |schedule| - 1;
    LegalFront(y, schedule);
    var z := Run(y, schedule[..n]);
    if schedule[n].Act? && schedule[n].index == i {
      l := n;
      CacheMoves(z.store, z.calls[i], schedule[n].outcome);
      StepKeepsNames(z.store, z.calls[i], schedule[n].outcome);
    } else {
      assert i < |z.calls| && z.calls[i] == Run(y, schedule).calls[i];
      l := FillWasLoaded(y, schedule[..n], i);
      assert schedule[..n][..l] == schedule[..l];
    }
  }

  /** Every cached entry was stored by a read of the run. */
  lemma {:induction false} CachedHasASource(y: System, schedule: seq<Label>, b: BusinessId) returns (i: nat, l: nat, f: nat)
    requires Legal(y, schedule) && y.calls == [] && y.store.cache == map[] && b in Run(y, schedule).store.cache
    ensures CachedBy(y, schedule, b, i, l, f)
    ensures Run(y, schedule).store.cache[b] == Run(y, schedule[..l]).store.rows[b].balance
    decreases |schedule|
  {
    var n := |schedule| - 1;
    LegalFront(y, schedule);
    var front := schedule[..n];
    var z := Run(y, front);
    if Touches(z, schedule[n], b) {
      i, f := schedule[n].index, n;
      CacheMoves(z.store, z.calls[i], schedule[n].outcome);
      l := FillWasLoaded(y, front, i);
      assert front[..l] == schedule[..l];
    } else {
      UntouchedStays(z, schedule[n], b);
      i, l, f := CachedHasASource(y, front, b);
      SourceExtends(y, schedule, b, i, l, f);
    }
  }

  lemma SourceExtends(y: System, schedule: seq<Label>, b: BusinessId, i: nat, l: nat, f: nat)
    requires schedule != []
    requires var n := |schedule| - 1;
             && CachedBy(y, schedule[..n], b, i, l, f) && Legal(y, schedule[..n])
             && Enabled(Run(y, schedule[..n]), schedule[n]) && !Touches(Run(y, schedule[..n]), schedule[n], b)
    ensures CachedBy(y, schedule, b, i, l, f) && schedule[..|schedule| - 1][..l] == schedule[..l]
  {
    var n := |schedule| - 1;
    assert forall k | 0 <= k <= n :: schedule[..n][..k] == schedule[..k];
  }

  /** A call that waits since its load holds the balance it loaded. */
  lemma {:induction false} WaitingValue(y: System, schedule: seq<Label>, i: nat, l: nat)
    requires Legal(y, schedule) && l < |schedule| && Legal(y, schedule[..l]) && schedule[l].Act? && schedule[l].index == i
    requires forall k | l < k < |schedule| :: schedule[k].Act? ==> schedule[k].index != i
    requires i < |Run(y, schedule[..l]).calls| && Run(y, schedule[..l]).calls[i].pc.Load?
    requires i < |Run(y, schedule).calls| && Run(y, schedule).calls[i].pc.Fill?
    ensures var z, c := Run(y, schedule[..l]), Run(y, schedule).calls[i];
            c.biz == z.calls[i].biz && c.biz in z.store.rows && c.pc.value == z.store.rows[c.biz].balance
    decreases |schedule|
  {
    var n := |schedule| - 1;
    LegalFront(y, schedule);
    var z := Run(y, schedule[..n]);
    if l == n {
      CacheMoves(z.store, z.calls[i], schedule[n].outcome);
      StepKeepsNames(z.store, z.calls[i], schedule[n].outcome);
    } else {
      assert schedule[..n][..l] == schedule[..l];
      CallsOnlyGrow(y, schedule[..n], l);
      WaitingValue(y, schedule[..n], i, l);
    }
  }

  lemma {:induction false} CallsOnlyGrow(y: System, schedule: seq<Label>, l: nat)
    requires Legal(y, schedule) && l <= |schedule| && Legal(y, schedule[..l])
    ensures |Run(y, schedule[..l]).calls| <= |Run(y, schedule).calls|
    decreases |schedule|
  {
    if l < |schedule| {
      var n := |schedule| - 1;
      LegalFront(y, schedule);
      assert schedule[..n][..l] == schedule[..l];
      CallsOnlyGrow(y, schedule[..n], l);
    } else {
      assert schedule[..l] == schedule;
    }
  }

  /** What a source has stored is still there, and is the balance of the moment it was loaded. */
  lemma {:induction false} SourceValue(y: System, schedule: seq<Label>, b: BusinessId, i: nat, l: nat, f: nat)
    requires Legal(y, schedule) && CachedBy(y, schedule, b, i, l, f)
    ensures var s := Run(y, schedule).store;
            b in s.cache && s.cache[b] == Run(y, schedule[..l]).store.rows[b].balance
    decreases |schedule|
  {
    var n := |schedule| - 1;
    LegalFront(y, schedule);
    var front := schedule[..n];
    assert front[..l] == schedule[..l];
    if f == n {
      assert schedule[..f] == front;
      assert forall k | l < k < f :: front[k] == schedule[k];
      WaitingValue(y, front, i, l);
      CacheMoves(Run(y, front).store, Run(y, front).calls[i], Good);
    } else {
      assert forall k | 0 <= k <= n :: front[..k] == schedule[..k];
      SourceValue(y, front, b, i, l, f);
      UntouchedStays(Run(y, front), schedule[n], b);
    }
  }

  /** At any moment, at rest among them, of a run that starts with an empty cache: the cache is
      coherent if and only if every cached balance is again what it was when the read that stored it
      loaded it. */
  lemma CoherentAtRestIff(y: System, schedule: seq<Label>)
    requires Legal(y, schedule) && y.calls == [] && y.store.cache == map[]
    ensures var s := Run(y, schedule).store;
            Coherent(s) <==>
              forall b, i: nat, l: nat, f: nat | CachedBy(y, schedule, b, i, l, f) ::
                b in s.rows && s.rows[b].balance == Run(y, schedule[..l]).store.rows[b].balance
  {
    var s := Run(y, schedule).store;
    if Coherent(s) {
      forall b, i: nat, l: nat, f: nat | CachedBy(y, schedule, b, i, l, f)
        ensures b in s.rows && s.rows[b].balance == Run(y, schedule[..l]).store.rows[b].balance
      {
        SourceValue(y, schedule, b, i, l, f);
      }
    } else {
      var b :| b in s.cache && !(b in s.rows && s.cache[b] == s.rows[b].balance);
      var i, l, f := CachedHasASource(y, schedule, b);
      assert CachedBy(y, schedule, b, i, l, f);
    }
  }
}

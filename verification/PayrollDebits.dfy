/** What a payroll run takes from the wallet, as against what it asks for. */
module PayrollDebits {
  import opened Common
  import opened PayrollRuns
  import PayrollHistories
  import WalletRows
  import WalletProtocol
  import WalletServices
  import Bulk
  import BatchResults
  import BatchTransfers
  import opened BatchDebits

  // ---- the calls of a run whose transfers have not failed ----

  /** The wallet's reference for the pay of an employee. */
  function WalletReference(batch: string, run: nat, employee: nat): string
  {
    "batch-" + batch + "-" + Reference(run, employee)
  }

  /** One withdrawal for each payable entry, of a hundred times its net pay. */
  function PayrollCalls(batch: string, run: nat, entries: seq<PayEntry>): seq<Ask>
  {
    if entries == [] then []
    else
      var n := |entries| - 1;
      var e := entries[n];
      PayrollCalls(batch, run, entries[..n])
      + if Payable(e) then [BatchTransfers.Withdraw(WalletReference(batch, run, e.employee), 100 * e.net)] else []
  }

  /** The responses are to these transfers, and none is a failure. */
  predicate NoneFailed(ts: seq<Bulk.Request>, responses: seq<BatchResults.Response>)
  {
    && |responses| == |ts|
    && forall i | 0 <= i < |ts| ::
         responses[i].reference == ts[i].reference && BatchResults.VerdictOf(responses[i]) != BatchResults.Failed
  }

  /** A transfer that has not failed adds a withdrawal under its own reference. */
  lemma CallAppended(batch: string, ts: seq<Bulk.Request>, t: Bulk.Request, responses: seq<BatchResults.Response>)
    requires NoneFailed(ts + [t], responses)
    ensures NoneFailed(ts, responses[..|ts|])
    ensures BatchTransfers.WalletCalls(batch, ts + [t], responses)
         == BatchTransfers.WalletCalls(batch, ts, responses[..|ts|])
            + [BatchTransfers.Withdraw("batch-" + batch + "-" + t.reference, BatchTransfers.KoboOf(t.amount))]
  {
    var all := ts + [t];
    assert all[..|ts|] == ts && all[|ts|] == t;
    assert forall i | 0 <= i < |ts| :: all[i] == ts[i];
  }

  lemma KoboOfNet(e: PayEntry)
    ensures BatchTransfers.KoboOf(Some(e.net as real)) == 100 * e.net
  {
    assert 100.0 * (e.net as real) == (100 * e.net) as real;
  }

  lemma {:induction false} CallsOfPayroll(batch: string, run: nat, entries: seq<PayEntry>, responses: seq<BatchResults.Response>)
    requires NoneFailed(Requests(run, entries), responses)
    ensures BatchTransfers.WalletCalls(batch, Requests(run, entries), responses) == PayrollCalls(batch, run, entries)
  {
    if entries != [] {
      var e, front := entries[|entries| - 1], entries[..|entries| - 1];
      var before := Requests(run, front);
      if Payable(e) {
        assert Requests(run, entries) == before + [RequestFor(run, e)];
        CallAppended(batch, before, RequestFor(run, e), responses);
        CallsOfPayroll(batch, run, front, responses[..|before|]);
        KoboOfNet(e);
      } else {
        assert Requests(run, entries) == before;
        CallsOfPayroll(batch, run, front, responses);
      }
    }
  }

  predicate NoNegativePay(entries: seq<PayEntry>) { forall i | 0 <= i < |entries| && Payable(entries[i]) :: entries[i].net >= 0 }

  lemma {:induction false} PayrollIsSendable(batch: string, run: nat, entries: seq<PayEntry>)
    requires NoNegativePay(entries)
    ensures Sendable(PayrollCalls(batch, run, entries))
  {
    if entries != [] {
      PayrollIsSendable(batch, run, entries[..|entries| - 1]);
    }
  }

  lemma {:induction false} AskedOfPayroll(batch: string, run: nat, entries: seq<PayEntry>)
    ensures Asked(PayrollCalls(batch, run, entries)) == 100 * Sum(entries, NetIfPayable())
  {
    if entries != [] {
      var n := |entries| - 1;
      var before := PayrollCalls(batch, run, entries[..n]);
      AskedOfPayroll(batch, run, entries[..n]);
      if Payable(entries[n]) {
        SumAppend(before, BatchTransfers.Withdraw(WalletReference(batch, run, entries[n].employee), 100 * entries[n].net),
                  BatchTransfers.Withdrawn());
      } else {
        assert PayrollCalls(batch, run, entries) == before;
      }
    }
  }

  /** The net pay, in kobo, as the batch's limits in naira see it. */
  predicate NetWithin(e: PayEntry, l: BatchTransfers.Limits)
  {
    (l.minAmount > 0 ==> e.net >= l.minAmount) && (l.maxAmount > 0 ==> e.net <= l.maxAmount)
  }

  /** A payroll passes the batch's limits if and only if every payable net pay, counted in kobo, lies
      within the limits, which count naira. */
  lemma {:induction false} PayrollWithinLimitsIff(run: nat, entries: seq<PayEntry>, l: BatchTransfers.Limits)
    ensures BatchTransfers.AllAllowed(Requests(run, entries), l) <==>
      forall i | 0 <= i < |entries| && Payable(entries[i]) :: NetWithin(entries[i], l)
  {
    if entries != [] {
      var e, front := entries[|entries| - 1], entries[..|entries| - 1];
      var before := Requests(run, front);
      PayrollWithinLimitsIff(run, front, l);
      assert forall i | 0 <= i < |front| :: front[i] == entries[i];
      if Payable(e) {
        AllowedAppend(before, RequestFor(run, e), l);
        NetIsItsRounding(e, l);
      } else {
        assert Requests(run, entries) == before;
      }
    }
  }

  lemma AllowedAppend(ts: seq<Bulk.Request>, t: Bulk.Request, l: BatchTransfers.Limits)
    ensures BatchTransfers.AllAllowed(ts + [t], l) <==> BatchTransfers.AllAllowed(ts, l) && BatchTransfers.AmountAllowed(t.amount, l)
  {
    var all := ts + [t];
    assert all[|ts|] == t && forall i | 0 <= i < |ts| :: all[i] == ts[i];
  }

  lemma NetIsItsRounding(e: PayEntry, l: BatchTransfers.Limits)
    ensures BatchTransfers.AmountAllowed(Some(e.net as real), l) <==> NetWithin(e, l)
  {
    BatchTransfers.BadAmountIff(Some(e.net as real), l);
  }

  // ---- each employee once ----

  lemma WalletReferencesSeparate(batch: string, run: nat, a: nat, b: nat)
    requires WalletReference(batch, run, a) == WalletReference(batch, run, b)
    ensures a == b
  {
    var n := |"batch-" + batch + "-"|;
    assert WalletReference(batch, run, a)[n..] == Reference(run, a) && WalletReference(batch, run, b)[n..] == Reference(run, b);
    ReferencesSeparate(run, a, b);
  }

  lemma {:induction false} NamesIffPays(batch: string, run: nat, entries: seq<PayEntry>, employee: nat)
    ensures Names(PayrollCalls(batch, run, entries), WalletReference(batch, run, employee)) <==> Pays(entries, employee)
  {
    if entries != [] {
      var n := |entries| - 1;
      var e, ref := entries[n], WalletReference(batch, run, employee);
      var before := PayrollCalls(batch, run, entries[..n]);
      NamesIffPays(batch, run, entries[..n], employee);
      assert entries[..n] + [e] == entries;
      PaysAppend(entries[..n], e, employee);
      if Payable(e) {
        NamesAppend(before, BatchTransfers.Withdraw(WalletReference(batch, run, e.employee), 100 * e.net), ref);
        if WalletReference(batch, run, e.employee) == ref {
          WalletReferencesSeparate(batch, run, e.employee, employee);
        }
      } else {
        assert PayrollCalls(batch, run, entries) == before;
      }
    }
  }

  /** The first payable entry of each employee counts, a later one does not. */
  function NetOnce(entries: seq<PayEntry>): int
  {
    if entries == [] then 0
    else
      var n := |entries| - 1;
      NetOnce(entries[..n]) + if Pays(entries[..n], entries[n].employee) then 0 else NetIfPayable()(entries[n])
  }

  /** The wallet has recorded none of the run's references. */
  predicate NotRecorded(table: seq<WalletProtocol.Row>, batch: string, run: nat, entries: seq<PayEntry>)
  {
    forall i | 0 <= i < |entries| && Payable(entries[i]) ::
      !WalletProtocol.HasRef(table, WalletReference(batch, run, entries[i].employee))
  }

  lemma {:induction false} DueOnceOfPayroll(table: seq<WalletProtocol.Row>, batch: string, run: nat, entries: seq<PayEntry>)
    requires NotRecorded(table, batch, run, entries)
    ensures DueOnce(table, PayrollCalls(batch, run, entries)) == 100 * NetOnce(entries)
  {
    if entries != [] {
      var n := |entries| - 1;
      var e, before := entries[n], PayrollCalls(batch, run, entries[..n]);
      DueOnceOfPayroll(table, batch, run, entries[..n]);
      NamesIffPays(batch, run, entries[..n], e.employee);
      var calls := PayrollCalls(batch, run, entries);
      if Payable(e) {
        assert calls[..|calls| - 1] == before;
      } else {
        assert calls == before;
      }
    }
  }

  /** Nobody is paid a positive amount after an earlier entry of theirs. */
  predicate PaysMoneyOnce(entries: seq<PayEntry>)
  {
    forall k | 0 <= k < |entries| && Payable(entries[k]) && entries[k].net > 0 :: !Pays(entries[..k], entries[k].employee)
  }

  lemma PaysMoneyOnceAppend(entries: seq<PayEntry>, e: PayEntry)
    ensures PaysMoneyOnce(entries + [e]) <==>
      PaysMoneyOnce(entries) && !(Payable(e) && e.net > 0 && Pays(entries, e.employee))
  {
    var all := entries + [e];
    assert all[..|entries|] == entries && all[|entries|] == e;
    forall k | 0 <= k < |entries| ensures all[..k] == entries[..k] && all[k] == entries[k] {}
    if PaysMoneyOnce(all) {
      forall k | 0 <= k < |entries| && Payable(entries[k]) && entries[k].net > 0
        ensures !Pays(entries[..k], entries[k].employee)
      {
        assert !Pays(all[..k], all[k].employee);
      }
    }
  }

  lemma {:induction false} NetOnceIsNetIff(entries: seq<PayEntry>)
    requires NoNegativePay(entries)
    ensures 0 <= NetOnce(entries) <= Sum(entries, NetIfPayable())
    ensures NetOnce(entries) == Sum(entries, NetIfPayable()) <==> PaysMoneyOnce(entries)
  {
    if entries != [] {
      var n := |entries| - 1;
      NetOnceIsNetIff(entries[..n]);
      assert entries[..n] + [entries[n]] == entries;
      PaysMoneyOnceAppend(entries[..n], entries[n]);
    }
  }

  /** One entry for each employee is more than enough for that. */
  lemma PaysOnceIsMoneyOnce(entries: seq<PayEntry>)
    requires PaysOnce(entries)
    ensures PaysMoneyOnce(entries)
  {
    forall k | 0 <= k < |entries| && Payable(entries[k]) && entries[k].net > 0
      ensures !Pays(entries[..k], entries[k].employee)
    {
      assert forall i | 0 <= i < k :: entries[..k][i] == entries[i];
    }
  }

  // ---- what is debited ----

  /** A run whose transfers have not failed, before a wallet that has recorded none of them. */
  ghost predicate Payroll(
      s: WalletProtocol.Store, b: WalletRows.BusinessId, batch: string, run: nat, entries: seq<PayEntry>,
      responses: seq<BatchResults.Response>, answers: nat -> WalletServices.Environment)
  {
    && b in s.rows && (forall k: nat :: Smooth(answers(k)))
    && NoNegativePay(entries) && NotRecorded(s.table, batch, run, entries)
    && NoneFailed(Requests(run, entries), responses)
  }

  /** What the wallet is debited for the run. */
  function DebitedFor(
      s: WalletProtocol.Store, b: WalletRows.BusinessId, batch: string, run: nat, entries: seq<PayEntry>,
      responses: seq<BatchResults.Response>, answers: nat -> WalletServices.Environment): int
    requires |responses| == |Requests(run, entries)| && b in s.rows
    requires Sendable(BatchTransfers.WalletCalls(batch, Requests(run, entries), responses))
  {
    var calls := BatchTransfers.WalletCalls(batch, Requests(run, entries), responses);
    ServedBalance(s, b, calls, answers);
    Debited(s, b, calls, answers)
  }

  lemma PayrollSends(
      s: WalletProtocol.Store, b: WalletRows.BusinessId, batch: string, run: nat, entries: seq<PayEntry>,
      responses: seq<BatchResults.Response>, answers: nat -> WalletServices.Environment)
    requires Payroll(s, b, batch, run, entries, responses, answers)
    ensures BatchTransfers.WalletCalls(batch, Requests(run, entries), responses) == PayrollCalls(batch, run, entries)
    ensures Sendable(PayrollCalls(batch, run, entries))
  {
    CallsOfPayroll(batch, run, entries, responses);
    PayrollIsSendable(batch, run, entries);
  }

  /** The wallet is debited a hundred times the net pay of each employee's first entry, if and only if it
      covers that. */
  lemma EachEmployeeDebitedOnceIff(
      s: WalletProtocol.Store, b: WalletRows.BusinessId, batch: string, run: nat, entries: seq<PayEntry>,
      responses: seq<BatchResults.Response>, answers: nat -> WalletServices.Environment)
    requires Payroll(s, b, batch, run, entries, responses, answers)
    ensures Sendable(BatchTransfers.WalletCalls(batch, Requests(run, entries), responses))
    ensures DebitedFor(s, b, batch, run, entries, responses, answers) == 100 * NetOnce(entries) <==>
      (NetOnce(entries) > 0 ==> 100 * NetOnce(entries) <= s.rows[b].balance)
  {
    PayrollSends(s, b, batch, run, entries, responses, answers);
    DebitedOncePerReferenceIff(s, b, PayrollCalls(batch, run, entries), answers);
    DueOnceOfPayroll(s.table, batch, run, entries);
  }

  /** The wallet is debited a hundred times the net pay of the run if and only if it covers that and
      nobody is paid money a second time. */
  lemma PayrollIsDebitedHundredfoldIff(
      s: WalletProtocol.Store, b: WalletRows.BusinessId, batch: string, run: nat, entries: seq<PayEntry>,
      responses: seq<BatchResults.Response>, answers: nat -> WalletServices.Environment)
    requires Payroll(s, b, batch, run, entries, responses, answers)
    ensures Sendable(BatchTransfers.WalletCalls(batch, Requests(run, entries), responses))
    ensures var net := Sum(entries, NetIfPayable());
            DebitedFor(s, b, batch, run, entries, responses, answers) == 100 * net <==>
              (net > 0 ==> 100 * net <= s.rows[b].balance) && PaysMoneyOnce(entries)
  {
    PayrollSends(s, b, batch, run, entries, responses, answers);
    var calls := PayrollCalls(batch, run, entries);
    DebitedInFullIff(s, b, calls, answers);
    AskedOfPayroll(batch, run, entries);
    DueOnceOfAsked(s.table, calls);
    DueOnceOfPayroll(s.table, batch, run, entries);
    NetOnceIsNetIff(entries);
  }

  // ---- an amended run ----

  /** The recalculated pay of those the first calculation does not pay. */
  function NetIfNew(stored: seq<PayEntry>): PayEntry -> int
  {
    (e: PayEntry) => if Pays(stored, e.employee) then 0 else NetIfPayable()(e)
  }

  lemma PaysConcat(a: seq<PayEntry>, b: seq<PayEntry>, employee: nat)
    ensures Pays(a + b, employee) <==> Pays(a, employee) || Pays(b, employee)
  {
    var all := a + b;
    if i :| 0 <= i < |a| && Payable(a[i]) && a[i].employee == employee {
      assert all[i] == a[i];
    }
    if i :| 0 <= i < |b| && Payable(b[i]) && b[i].employee == employee {
      assert all[|a| + i] == b[i];
    }
  }

  lemma NetOnceAppend(entries: seq<PayEntry>, e: PayEntry)
    ensures NetOnce(entries + [e]) == NetOnce(entries) + if Pays(entries, e.employee) then 0 else NetIfPayable()(e)
  {
    assert (entries + [e])[..|entries|] == entries;
  }

  lemma {:induction false} NetOnceConcat(a: seq<PayEntry>, b: seq<PayEntry>)
    requires PaysOnce(b)
    ensures NetOnce(a + b) == NetOnce(a) + Sum(b, NetIfNew(a))
  {
    if b == [] {
      assert a + b == a;
    } else {
      var front, e := b[..|b| - 1], b[|b| - 1];
      assert front + [e] == b && a + b == (a + front) + [e];
      PaysOnceAppend(front, e);
      NetOnceConcat(a, front);
      NetOnceAppend(a + front, e);
      PaysConcat(a, front, e.employee);
      SumAppend(front, e, NetIfNew(a));
      assert Payable(e) ==> !Pays(front, e.employee);
      assert NetIfNew(a)(e) == if Pays(a, e.employee) then 0 else NetIfPayable()(e);
    }
  }

  lemma DueOfAmended(stored: seq<PayEntry>, recalculated: seq<PayEntry>)
    requires PaysOnce(stored) && PaysOnce(recalculated) && NoNegativePay(stored + recalculated)
    ensures NetOnce(stored + recalculated) == Sum(stored, NetIfPayable()) + Sum(recalculated, NetIfNew(stored))
  {
    NetOnceConcat(stored, recalculated);
    PaysOnceIsMoneyOnce(stored);
    assert NoNegativePay(stored) by {
      assert forall i | 0 <= i < |stored| :: (stored + recalculated)[i] == stored[i];
    }
    NetOnceIsNetIff(stored);
  }

  /** An amended draft requests the transfers of both calculations, but the wallet is debited the stored
      pay of whoever was in the first and the recalculated pay only of those who were not, if and only if
      it covers that: the second withdrawal of an employee finds its reference recorded. */
  lemma AmendedRunIsDebitedOnceIff(
      s: WalletProtocol.Store, b: WalletRows.BusinessId, batch: string, r: Run, recalculated: seq<PayEntry>,
      responses: seq<BatchResults.Response>, answers: nat -> WalletServices.Environment)
    requires r.status.Draft? && PaysOnce(r.entries) && PaysOnce(recalculated)
    requires Payroll(s, b, batch, r.id, Amended(r, recalculated).entries, responses, answers)
    ensures var q := Amended(r, recalculated);
            && Requests(q.id, q.entries) == Requests(r.id, r.entries) + Requests(r.id, recalculated)
            && Sendable(BatchTransfers.WalletCalls(batch, Requests(r.id, q.entries), responses))
    ensures var due := Sum(r.entries, NetIfPayable()) + Sum(recalculated, NetIfNew(r.entries));
            DebitedFor(s, b, batch, r.id, Amended(r, recalculated).entries, responses, answers) == 100 * due <==>
              (due > 0 ==> 100 * due <= s.rows[b].balance)
  {
    var both := r.entries + recalculated;
    AmendedHoldsBoth(r, recalculated);
    EachEmployeeDebitedOnceIff(s, b, batch, r.id, both, responses, answers);
    DueOfAmended(r.entries, recalculated);
  }

  /** The run after an amendment that is saved. */
  function Amended(r: Run, recalculated: seq<PayEntry>): Run { Step(r, Amend(true, Some(recalculated), Saved)).0 }

  lemma AmendedHoldsBoth(r: Run, recalculated: seq<PayEntry>)
    requires r.status.Draft?
    ensures var q := Amended(r, recalculated);
            && q.id == r.id && q.entries == r.entries + recalculated
            && Requests(q.id, q.entries) == Requests(r.id, r.entries) + Requests(r.id, recalculated)
  {
    PayrollHistories.RequestsConcat(r.id, r.entries, recalculated);
  }

  // ---- a refused withdrawal ----

  lemma ServedAppend(s: WalletProtocol.Store, b: WalletRows.BusinessId, calls: seq<Ask>, ask: Ask, answers: nat -> WalletServices.Environment)
    requires Sendable(calls) && ask.amount >= 0
    ensures Sendable(calls + [ask])
    ensures Served(s, b, calls + [ask], answers)
         == WalletServices.Solo(Served(s, b, calls, answers), CallFor(b, ask), answers(|calls|)).0
  {
    assert (calls + [ask])[..|calls|] == calls;
  }

  /** A wallet that just covers the first withdrawal refuses a larger second one. */
  lemma SecondIsRefused(
      s: WalletProtocol.Store, b: WalletRows.BusinessId, one: Ask, two: Ask, answers: nat -> WalletServices.Environment)
    requires one.Withdraw? && two.Withdraw? && 0 <= one.amount < two.amount && !WalletProtocol.HasRef(s.table, one.reference)
    requires b in s.rows && s.rows[b].balance == one.amount && forall k: nat :: Smooth(answers(k))
    ensures Sendable([one] + [two]) && b in Served(s, b, [one] + [two], answers).rows
    ensures Debited(s, b, [one] + [two], answers) == one.amount
  {
    assert [] + [one] == [one];
    ServedAppend(s, b, [], one, answers);
    OneServed(s, b, one, answers(0));
    SmoothlyServed(s, b, one, answers(0));
    var after := Served(s, b, [one], answers);
    ServedAppend(s, b, [one], two, answers);
    OneServed(after, b, two, answers(1));
    SmoothlyServed(after, b, two, answers(1));
  }

  lemma CallsOfTwo(batch: string, run: nat, one: PayEntry, two: PayEntry)
    requires Payable(one) && Payable(two)
    ensures PayrollCalls(batch, run, [one, two])
         == [BatchTransfers.Withdraw(WalletReference(batch, run, one.employee), 100 * one.net)]
          + [BatchTransfers.Withdraw(WalletReference(batch, run, two.employee), 100 * two.net)]
    ensures Sum([one, two], NetIfPayable()) == one.net + two.net
  {
    assert [one, two] == [one] + [two] && [one] == [] + [one];
    SumAppend([one], two, NetIfPayable());
    SumAppend([], one, NetIfPayable());
    assert [one, two][..1] == [one] && [one][..0] == [];
    assert PayrollCalls(batch, run, []) == [];
  }

  /** Two employees, and a wallet that just covers the first withdrawal: the second is refused. */
  lemma SecondPayIsRefused(
      s: WalletProtocol.Store, b: WalletRows.BusinessId, batch: string, run: nat, one: PayEntry, two: PayEntry,
      responses: seq<BatchResults.Response>, answers: nat -> WalletServices.Environment)
    requires Payable(one) && Payable(two) && 0 <= one.net < two.net
    requires Payroll(s, b, batch, run, [one, two], responses, answers) && s.rows[b].balance == 100 * one.net
    ensures Sendable(BatchTransfers.WalletCalls(batch, Requests(run, [one, two]), responses))
    ensures DebitedFor(s, b, batch, run, [one, two], responses, answers) == 100 * one.net
  {
    assert [one, two][0] == one;
    PayrollSends(s, b, batch, run, [one, two], responses, answers);
    CallsOfTwo(batch, run, one, two);
    SecondIsRefused(s, b, BatchTransfers.Withdraw(WalletReference(batch, run, one.employee), 100 * one.net),
                    BatchTransfers.Withdraw(WalletReference(batch, run, two.employee), 100 * two.net), answers);
  }

  /** So the debit can be the net pay although each request is for a hundred times its own: with net pay
      of 100 and 9,900 and a wallet of 10,000, the first withdrawal takes all of it and the second is
      refused. */
  lemma RefusedPayIsNotDebited(
      s: WalletProtocol.Store, b: WalletRows.BusinessId, batch: string, run: nat, one: PayEntry, two: PayEntry,
      responses: seq<BatchResults.Response>, answers: nat -> WalletServices.Environment)
    requires one == PayEntry(1, true, true, 100) && two == PayEntry(2, true, true, 9_900)
    requires Payroll(s, b, batch, run, [one, two], responses, answers) && s.rows[b].balance == 10_000
    ensures Sendable(BatchTransfers.WalletCalls(batch, Requests(run, [one, two]), responses)) && PaysOnce([one, two])
    ensures DebitedFor(s, b, batch, run, [one, two], responses, answers) == 10_000 == Sum([one, two], NetIfPayable())
  {
    SecondPayIsRefused(s, b, batch, run, one, two, responses, answers);
    CallsOfTwo(batch, run, one, two);
  }
}

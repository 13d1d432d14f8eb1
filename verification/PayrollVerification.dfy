/** When a processed payroll run counts as paid: what counting rows of the transfers table amounts to,
    and what a provider outage comes to. */
module PayrollVerification {
  import opened Common
  import opened PayrollRuns
  import Bulk
  import BatchResults
  import BatchTransfers

  // ---- which rows count ----

  lemma {:induction false} DecimalHasNoDash(n: nat)
    ensures forall i | 0 <= i < |Bulk.Decimal(n)| :: Bulk.Decimal(n)[i] != '-'
  {
    if n >= 10 {
      DecimalHasNoDash(n / 10);
    }
  }

  /** What comes before the first dash is told by any prefix that reaches it. */
  lemma {:induction false} BeforeTheDash(a: string, b: string, x: string, y: string)
    requires forall i | 0 <= i < |a| :: a[i] != '-'
    requires forall i | 0 <= i < |b| :: b[i] != '-'
    requires a + "-" + x <= b + "-" + y
    ensures a == b
  {
    var s, t := a + "-" + x, b + "-" + y;
    assert s[0] == t[0];
    if a == [] {
      assert t[0] == '-';
      assert b == [];
    } else {
      assert b != [] && a[0] == b[0];
      assert s[1..] == a[1..] + "-" + x && t[1..] == b[1..] + "-" + y;
      BeforeTheDash(a[1..], b[1..], x, y);
    }
  }

  /** The rows of another run never match the pattern of this one. */
  lemma OtherRunsDoNotCount(run: nat, other: nat, employee: nat)
    ensures Prefix(run) <= Reference(other, employee) <==> run == other
  {
    var a, b := Bulk.Decimal(run), Bulk.Decimal(other);
    var n := |"PAYROLL-"|;
    DecimalHasNoDash(run);
    DecimalHasNoDash(other);
    assert Prefix(run)[n..] == a + "-" + "EMP-";
    assert Reference(other, employee)[n..] == b + "-" + ("EMP-" + Bulk.Decimal(employee));
    if run == other {
      assert Reference(other, employee)[..|Prefix(run)|] == Prefix(run);
    }
    if Prefix(run) <= Reference(other, employee) {
      TailsArePrefixes(Prefix(run), Reference(other, employee), n);
      BeforeTheDash(a, b, "EMP-", "EMP-" + Bulk.Decimal(employee));
      Bulk.DecimalIsInjective(run, other);
    }
  }

  lemma TailsArePrefixes(a: string, b: string, n: nat)
    requires a <= b && n <= |a|
    ensures a[n..] <= b[n..]
  {
  }

  /** References are unique in the transfers table, and those of a run that count are of its own
      transfers: no earlier call has disbursed it. */
  predicate OwnRowsOnly(table: seq<TransferRow>, run: nat, requests: seq<Bulk.Request>)
  {
    && (forall i, j | 0 <= i < j < |table| :: table[i].reference != table[j].reference)
    && (forall row | row in table && Counts(row, run) :: exists q :: q in requests && q.reference == row.reference)
  }

  /** The transfer has a recent row on the page. */
  predicate OnPage(page: seq<TransferRow>, reference: string)
  {
    exists i :: 0 <= i < |page| && page[i] == TransferRow(reference, true)
  }

  /** The references of the rows that count. */
  function Counted(page: seq<TransferRow>, run: nat): set<string>
  {
    if page == [] then {}
    else Counted(page[..|page| - 1], run) + if Counts(page[|page| - 1], run) then {page[|page| - 1].reference} else {}
  }

  lemma {:induction false} CountedMembers(page: seq<TransferRow>, run: nat, r: string)
    ensures r in Counted(page, run) <==> exists i :: 0 <= i < |page| && Counts(page[i], run) && page[i].reference == r
  {
    if page != [] {
      var n := |page| - 1;
      CountedMembers(page[..n], run, r);
      if i :| 0 <= i < |page| && Counts(page[i], run) && page[i].reference == r {
        assert i < n ==> page[..n][i] == page[i];
      }
    }
  }

  lemma {:induction false} CountIsSize(page: seq<TransferRow>, run: nat)
    requires forall i, j | 0 <= i < j < |page| :: page[i].reference != page[j].reference
    ensures |Counted(page, run)| == VerifiedCount(page, run)
  {
    if page != [] {
      var n := |page| - 1;
      CountIsSize(page[..n], run);
      CountedMembers(page[..n], run, page[n].reference);
    }
  }

  function ReferencesOf(requests: seq<Bulk.Request>): set<string>
  {
    set i | 0 <= i < |requests| :: requests[i].reference
  }

  /** A batch names as many references as it has transfers exactly when they are distinct. */
  lemma {:induction false} DistinctReferencesSize(requests: seq<Bulk.Request>)
    ensures |ReferencesOf(requests)| <= |requests|
    ensures |ReferencesOf(requests)| == |requests| <==> Bulk.Distinct(requests)
  {
    if requests != [] {
      var n := |requests| - 1;
      DistinctReferencesSize(requests[..n]);
      DistinctAppend(requests[..n], requests[n]);
      assert requests[..n] + [requests[n]] == requests;
      assert ReferencesOf(requests) == ReferencesOf(requests[..n]) + {requests[n].reference};
      assert requests[n].reference in ReferencesOf(requests[..n]) <==> Bulk.Mentions(requests[..n], requests[n].reference);
    }
  }

  lemma SubsetOfSameSize(a: set<string>, b: set<string>)
    requires a <= b && |a| >= |b|
    ensures a == b
  {
    if x :| x in b && x !in a {
      assert a <= b - {x};
      SubsetIsSmaller(a, b - {x});
    }
  }

  lemma {:induction false} SubsetIsSmaller(a: set<string>, b: set<string>)
    requires a <= b
    ensures |a| <= |b|
  {
    if a != {} {
      var x :| x in a;
      SubsetIsSmaller(a - {x}, b - {x});
    }
  }

  /** The query verifies a batch if and only if its references are distinct and every one of its
      transfers has a recent row among the newest two hundred of the business; whether it was paid does
      not matter. */
  lemma VerifiedIff(table: seq<TransferRow>, run: nat, entries: seq<PayEntry>)
    requires OwnRowsOnly(table, run, Requests(run, entries))
    ensures var requests := Requests(run, entries);
            VerifiedCount(Page(table), run) >= |requests| <==>
              Bulk.Distinct(requests) && forall q | q in requests :: OnPage(Page(table), q.reference)
  {
    var requests, page := Requests(run, entries), Page(table);
    CountIsSize(page, run);
    DistinctReferencesSize(requests);
    var counted, wanted := Counted(page, run), ReferencesOf(requests);
    CountedAreWanted(table, run, requests);
    SubsetIsSmaller(counted, wanted);
    if |counted| >= |requests| {
      SubsetOfSameSize(counted, wanted);
      forall q | q in requests ensures OnPage(page, q.reference) {
        assert q.reference in wanted;
        CountedMembers(page, run, q.reference);
        var i :| 0 <= i < |page| && Counts(page[i], run) && page[i].reference == q.reference;
        assert page[i] == TransferRow(q.reference, true);
      }
    }
    if forall q | q in requests :: OnPage(page, q.reference) {
      forall r | r in wanted ensures r in counted {
        WantedIsCounted(page, run, entries, r);
      }
      SubsetIsSmaller(wanted, counted);
    }
  }

  lemma CountedAreWanted(table: seq<TransferRow>, run: nat, requests: seq<Bulk.Request>)
    requires OwnRowsOnly(table, run, requests)
    ensures Counted(Page(table), run) <= ReferencesOf(requests)
  {
    var page := Page(table);
    forall r | r in Counted(page, run) ensures r in ReferencesOf(requests) {
      CountedMembers(page, run, r);
      var i :| 0 <= i < |page| && Counts(page[i], run) && page[i].reference == r;
      assert page[i] in table;
      var q :| q in requests && q.reference == r;
    }
  }

  lemma WantedIsCounted(page: seq<TransferRow>, run: nat, entries: seq<PayEntry>, r: string)
    requires r in ReferencesOf(Requests(run, entries)) && OnPage(page, r)
    ensures r in Counted(page, run)
  {
    var requests := Requests(run, entries);
    var k :| 0 <= k < |requests| && requests[k].reference == r;
    assert requests[k] in requests;
    RequestOrigin(run, entries, requests[k]);
    var e :| e in entries && Payable(e) && requests[k] == RequestFor(run, e);
    OtherRunsDoNotCount(run, run, e.employee);
    var i :| 0 <= i < |page| && page[i] == TransferRow(r, true);
    assert Counts(page[i], run);
    CountedMembers(page, run, r);
  }

  // ---- when a run is completed ----

  /** No reference is asked for twice, and every transfer has a recent row on the page. */
  predicate AllOnPage(reply: BatchReply, requests: seq<Bulk.Request>)
  {
    && reply.BatchReport? && reply.listed.Some? && Bulk.Distinct(requests)
    && forall q | q in requests :: OnPage(Page(reply.listed.value), q.reference)
  }

  /** Processing that gets to its closing save completes the run if and only if every transfer was
      reported successful, or nobody is paid twice and every transfer has a recent row among the newest
      two hundred. */
  lemma CompletesIff(r: Run, w: Weather)
    requires w.found && w.marking.Saved? && !w.closing.Lost? && Processable(r.status)
    requires Requests(r.id, r.entries) != [] && w.batch.BatchReport?
    requires w.batch.listed.Some? ==> OwnRowsOnly(w.batch.listed.value, r.id, Requests(r.id, r.entries))
    ensures Process(r, w).0.status.Completed? <==>
      w.batch.successful == |Requests(r.id, r.entries)| || AllOnPage(w.batch, Requests(r.id, r.entries))
  {
    if w.batch.listed.Some? {
      VerifiedIff(w.batch.listed.value, r.id, r.entries);
    }
  }

  /** A payroll of more than a page is never verified by its rows. */
  lemma LargeRunsAreNotVerified(r: Run, w: Weather)
    requires w.found && w.marking.Saved? && !w.closing.Lost? && Processable(r.status)
    requires |Requests(r.id, r.entries)| > 200 && w.batch.BatchReport?
    ensures Process(r, w).0.status.Completed? <==> w.batch.successful == |Requests(r.id, r.entries)|
  {
    if w.batch.listed.Some? {
      CountAtMost(Page(w.batch.listed.value), r.id);
    }
  }

  lemma {:induction false} CountAtMost(rows: seq<TransferRow>, run: nat)
    ensures VerifiedCount(rows, run) <= |rows|
  {
    if rows != [] {
      CountAtMost(rows[..|rows| - 1], run);
    }
  }

  function RowsOf(requests: seq<Bulk.Request>): seq<TransferRow>
  {
    seq(|requests|, i requires 0 <= i < |requests| => TransferRow(requests[i].reference, true))
  }

  /** The rows written before anything is sent are enough: with room on the page a payroll none of
      whose transfers succeeded is completed and its loans are reduced. */
  lemma UnpaidRunIsCompleted(r: Run, newer: seq<TransferRow>, older: seq<TransferRow>)
    requires Sound(r) && Processable(r.status) && PaysOnce(r.entries) && Requests(r.id, r.entries) != []
    requires var table := newer + RowsOf(Requests(r.id, r.entries)) + older; OwnRowsOnly(table, r.id, Requests(r.id, r.entries))
    requires |newer| + |Requests(r.id, r.entries)| <= 200
    ensures var table := newer + RowsOf(Requests(r.id, r.entries)) + older;
            var q := Process(r, Weather(true, Saved, BatchReport(0, Some(table)), Saved)).0;
            q.status.Completed? && q.loanUpdates == 1
  {
    var requests := Requests(r.id, r.entries);
    var table := newer + RowsOf(requests) + older;
    forall q | q in requests ensures OnPage(Page(table), q.reference) {
      var k :| 0 <= k < |requests| && requests[k] == q;
      assert Page(table)[|newer| + k] == TransferRow(q.reference, true);
    }
    DistinctIffPaysOnce(r.id, r.entries);
    CompletesIff(r, Weather(true, Saved, BatchReport(0, Some(table)), Saved));
  }

  // ---- a provider outage ----

  /** A payroll processed during a total outage, however its batch is answered, is completed if and
      only if its amounts are allowed and its batch is split into native calls only, or its rows are all
      on the page. */
  lemma OutageCompletesPayrollIff(
      r: Run, p: Bulk.Provider, limits: BatchTransfers.Limits, batch: string,
      response: BatchTransfers.BatchResponse, parts: seq<seq<BatchResults.Result>>, listed: Option<seq<TransferRow>>)
    requires Sound(r) && Processable(r.status) && Requests(r.id, r.entries) != []
    requires p.native ==> 0 < p.maxBatch && p.minBatch <= p.maxBatch
    requires BatchTransfers.Outage(p)
    requires BatchTransfers.Answers(p, limits, batch, Requests(r.id, r.entries), response, parts)
    requires listed.Some? ==> OwnRowsOnly(listed.value, r.id, Requests(r.id, r.entries))
    ensures var ts := Requests(r.id, r.entries);
            var reply := BatchReport(response.successful, listed);
            var q := Process(r, Weather(true, Saved, reply, Saved)).0;
            && (q.status.Completed? <==>
                 (BatchTransfers.AllAllowed(ts, limits) && BatchTransfers.SplitsIntoNative(p, |ts|)) || AllOnPage(reply, ts))
            && (q.status.Completed? <==> q.loanUpdates == 1)
  {
    BatchTransfers.OutageCountsAsSuccessIff(p, limits, batch, Requests(r.id, r.entries), response, parts);
    CompletesIff(r, Weather(true, Saved, BatchReport(response.successful, listed), Saved));
  }

  /** What becomes of a payroll sent by the batch: it is completed if and only if the amounts are
      allowed, the batch goes through and nothing of it is denied, or its rows are all on the page; and
      it fails otherwise, since the batch never answers with an error. */
  lemma PayrollFailsUnlessPaid(
      r: Run, p: Bulk.Provider, limits: BatchTransfers.Limits, batch: string,
      response: BatchTransfers.BatchResponse, parts: seq<seq<BatchResults.Result>>, listed: Option<seq<TransferRow>>)
    requires Sound(r) && Processable(r.status) && PaysOnce(r.entries) && Requests(r.id, r.entries) != []
    requires (p.native ==> 0 < p.maxBatch) && Bulk.EchoesReferences(p)
    requires BatchTransfers.Answers(p, limits, batch, Requests(r.id, r.entries), response, parts)
    requires listed.Some? ==> OwnRowsOnly(listed.value, r.id, Requests(r.id, r.entries))
    ensures var ts := Requests(r.id, r.entries);
            var reply := BatchReport(response.successful, listed);
            var q := Process(r, Weather(true, Saved, reply, Saved)).0;
            && (q.status.Failed? <==> !q.status.Completed?)
            && (q.status.Completed? <==>
                 (&& BatchTransfers.AllAllowed(ts, limits) && !BatchTransfers.Refused(p, batch, ts)
                  && BatchTransfers.NothingDenied(p, Bulk.PlanOf(p, batch, ts)))
                 || AllOnPage(reply, ts))
  {
    var ts := Requests(r.id, r.entries);
    DistinctIffPaysOnce(r.id, r.entries);
    if BatchTransfers.AllAllowed(ts, limits) && !BatchTransfers.Refused(p, batch, ts) {
      BatchTransfers.WhollySuccessfulIff(p, batch, ts, parts);
    }
    CompletesIff(r, Weather(true, Saved, BatchReport(response.successful, listed), Saved));
  }
}

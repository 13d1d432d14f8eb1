/** Employee loans and their repayment through payroll runs. */
module Loans {
  import opened Common

  datatype Status = Active | Completed | Cancelled

  datatype Loan = Loan(
    business: nat, employee: nat, amount: int, monthly: int, repaid: int, remaining: int, status: Status)

  /** A loan as it is opened. */
  function Opened(business: nat, employee: nat, amount: int, monthly: int): Loan
  {
    Loan(business, employee, amount, monthly, 0, amount, Active)
  }

  /** What one payroll run takes from a loan that is active. */
  function Instalment(l: Loan): int
  {
    if l.remaining <= 0 then 0 else Min(l.monthly, l.remaining)
  }

  /** One repayment of a loan loaded as active. */
  function Repay(l: Loan): Loan
  {
    if l.remaining <= 0 then l
    else
      var rest := l.remaining - Instalment(l);
      l.(repaid := l.repaid + Instalment(l), remaining := rest, status := if rest <= 0 then Completed else l.status)
  }

  /** `k` repayments, each made only if the loan is still active. */
  function Repaid(l: Loan, k: nat): Loan
  {
    if k == 0 then l
    else
      var m := Repaid(l, k - 1);
      if m.status.Active? then Repay(m) else m
  }

  // ---- exact amortisation ----

  /** After `k` repayments of a loan of `amount` at `monthly` a month: the remaining balance is what
      the instalments have not covered, repaid and remaining always add up to the loan, and it is
      completed exactly when the instalments cover it. */
  lemma {:induction false} ExactAmortisation(business: nat, employee: nat, amount: int, monthly: int, k: nat)
    requires amount >= 1 && monthly >= 1
    ensures var l := Repaid(Opened(business, employee, amount, monthly), k);
            && l.remaining == Max(0, amount - k * monthly)
            && l.repaid + l.remaining == amount
            && (l.status == Completed <==> k * monthly >= amount)
            && (l.status == Active <==> k * monthly < amount)
            && l.monthly == monthly
  {
    if k > 0 {
      ExactAmortisation(business, employee, amount, monthly, k - 1);
      assert k * monthly == (k - 1) * monthly + monthly;
    }
  }

  lemma {:induction false} RepaidAdds(l: Loan, a: nat, b: nat)
    ensures Repaid(Repaid(l, a), b) == Repaid(l, a + b)
  {
    if b > 0 {
      RepaidAdds(l, a, b - 1);
    }
  }

  // ---- a payroll run over the loan table ----

  /** An entry of a run; one whose employee could not be loaded is passed over. */
  datatype Entry = Entry(employee: nat, present: bool)

  /** Which loads of an employee's loans and which saves of a loan fail, by entry position. */
  datatype Faults = Faults(load: nat -> bool, save: (nat, nat) -> bool)

  predicate Owes(l: Loan, employee: nat) { l.employee == employee && l.status.Active? }

  /** Whether entry `k` of a run repays loan `i` if it is active. */
  predicate Hits(entries: seq<Entry>, k: nat, f: Faults, employee: nat, i: nat)
    requires k < |entries|
  {
    entries[k].present && entries[k].employee == employee && !f.load(k) && !f.save(k, i)
  }

  function HitCount(entries: seq<Entry>, k: nat, f: Faults, employee: nat, i: nat): nat
    requires k <= |entries|
  {
    if k == 0 then 0 else HitCount(entries, k - 1, f, employee, i) + if Hits(entries, k - 1, f, employee, i) then 1 else 0
  }

  /** The table after the first `k` entries of a run: each loan repaid as often as it was hit. */
  function AfterEntries(rows: seq<Loan>, entries: seq<Entry>, k: nat, f: Faults): (after: seq<Loan>)
    requires k <= |entries|
    ensures |after| == |rows|
  {
    seq(|rows|, i requires 0 <= i < |rows| => Repaid(rows[i], HitCount(entries, k, f, rows[i].employee, i)))
  }

  lemma {:induction false} RepaidKeepsTerms(l: Loan, k: nat)
    ensures Repaid(l, k).employee == l.employee && Repaid(l, k).business == l.business && Repaid(l, k).amount == l.amount
    ensures Repaid(l, k).repaid + Repaid(l, k).remaining == l.repaid + l.remaining
  {
    if k > 0 {
      RepaidKeepsTerms(l, k - 1);
    }
  }

  class LoanService {
    var rows: seq<Loan>

    constructor ()
      ensures rows == []
    {
      rows := [];
    }

    method Create(business: nat, employee: nat, amount: int, monthly: int, fails: bool) returns (id: Option<nat>)
      modifies this
      ensures id == (if fails then None else Some(|old(rows)|))
      ensures rows == old(rows) + if fails then [] else [Opened(business, employee, amount, monthly)]
    {
      if fails {
        return None;
      }
      rows := rows + [Loan(business, employee, amount, monthly, 0, amount, Active)];
      return Some(|rows| - 1);
    }

    /** Only the owning business can cancel a loan, only while it is active, and its balances stay. */
    method Cancel(id: nat, business: nat, fails: bool) returns (ok: bool)
      modifies this
      ensures ok <==> id < |old(rows)| && old(rows)[id].business == business && old(rows)[id].status.Active? && !fails
      ensures rows == if ok then old(rows)[id := old(rows)[id].(status := Cancelled)] else old(rows)
    {
      if id >= |rows| || rows[id].business != business || !rows[id].status.Active? || fails {
        return false;
      }
      rows := rows[id := rows[id].(status := Cancelled)];
      return true;
    }

    method FindActiveByEmployee(employee: nat) returns (ids: seq<nat>)
      ensures forall i :: i in ids <==> 0 <= i < |rows| && Owes(rows[i], employee)
      ensures forall j, k | 0 <= j < k < |ids| :: ids[j] < ids[k]
    {
      ids := [];
      for n := 0 to |rows|
        invariant forall i :: i in ids <==> 0 <= i < n && Owes(rows[i], employee)
        invariant forall j | 0 <= j < |ids| :: ids[j] < n
        invariant forall j, k | 0 <= j < k < |ids| :: ids[j] < ids[k]
      {
        if Owes(rows[n], employee) {
          ids := ids + [n];
        }
      }
    }

    /** The repayments of one entry's loans. */
    method RepayLoansOf(employee: nat, k: nat, f: Faults)
      modifies this
      ensures |rows| == |old(rows)|
      ensures forall i | 0 <= i < |rows| ::
        rows[i] == if Owes(old(rows)[i], employee) && !f.save(k, i) then Repay(old(rows)[i]) else old(rows)[i]
    {
      ghost var before := rows;
      var ids := FindActiveByEmployee(employee);
      for j := 0 to |ids|
        invariant |rows| == |before|
        invariant forall i | 0 <= i < |rows| ::
          rows[i] == if i in ids[..j] && !f.save(k, i) then Repay(before[i]) else before[i]
      {
        var id := ids[j];
        assert id in ids && id !in ids[..j];
        assert ids[..j + 1] == ids[..j] + [id];
        var loan := rows[id];
        if loan.remaining > 0 {
          var deduction := loan.monthly;
          if deduction > loan.remaining {
            deduction := loan.remaining;
          }
          loan := loan.(repaid := loan.repaid + deduction, remaining := loan.remaining - deduction);
          if loan.remaining <= 0 {
            loan := loan.(status := Completed);
          }
          if !f.save(k, id) {
            rows := rows[id := loan];
          }
        }
      }
      assert ids[..|ids|] == ids;
    }

    /** updateLoanBalances: afterwards every loan has been repaid once for each entry that hit it. */
    method UpdateLoanBalances(entries: seq<Entry>, f: Faults)
      modifies this
      ensures rows == AfterEntries(old(rows), entries, |entries|, f)
    {
      ghost var before := rows;
      for k := 0 to |entries|
        invariant rows == AfterEntries(before, entries, k, f)
      {
        forall i | 0 <= i < |before| {
          RepaidKeepsTerms(before[i], HitCount(entries, k, f, before[i].employee, i));
        }
        if entries[k].present && !f.load(k) {
          RepayLoansOf(entries[k].employee, k, f);
        }
      }
    }
  }

  // ---- histories of a loan ----

  datatype Event = Run(hits: nat) | CancelBy(business: nat)

  function Happens(l: Loan, e: Event): Loan
  {
    match e
    case Run(hits) => Repaid(l, hits)
    case CancelBy(b) => if l.business == b && l.status.Active? then l.(status := Cancelled) else l
  }

  function Lived(l: Loan, history: seq<Event>): Loan
  {
    if history == [] then l else Happens(Lived(l, history[..|history| - 1]), history[|history| - 1])
  }

  /** The repayments made before the loan was cancelled, if it was. */
  function RepaymentsOf(l: Loan, history: seq<Event>): nat
  {
    if history == [] then 0
    else
      var earlier := history[..|history| - 1];
      var e := history[|history| - 1];
      RepaymentsOf(l, earlier) + if e.Run? && !Lived(l, earlier).status.Cancelled? then e.hits else 0
  }

  lemma {:induction false} OnlyActiveMoves(l: Loan, k: nat)
    requires !l.status.Active?
    ensures Repaid(l, k) == l
  {
    if k > 0 {
      OnlyActiveMoves(l, k - 1);
    }
  }

  /** Over every history of runs and cancellations the balances are those of exact amortisation
      after the repayments made before the cancellation, whose effect is to freeze them. */
  lemma {:induction false} EveryHistoryAmortisesExactly(
      business: nat, employee: nat, amount: int, monthly: int, history: seq<Event>)
    requires amount >= 1 && monthly >= 1
    ensures var start := Opened(business, employee, amount, monthly);
            var l := Lived(start, history);
            var n := RepaymentsOf(start, history);
            && l == Repaid(start, n).(status := l.status)
            && (l.status == Cancelled || l.status == Repaid(start, n).status)
            && l.remaining == Max(0, amount - n * monthly)
            && l.repaid + l.remaining == amount
  {
    var start := Opened(business, employee, amount, monthly);
    var n := RepaymentsOf(start, history);
    if history != [] {
      var earlier := history[..|history| - 1];
      EveryHistoryAmortisesExactly(business, employee, amount, monthly, earlier);
      var l := Lived(start, earlier);
      match history[|history| - 1]
      case Run(hits) =>
        if l.status.Cancelled? {
          OnlyActiveMoves(l, hits);
        } else {
          RepaidAdds(start, RepaymentsOf(start, earlier), hits);
        }
      case CancelBy(_) =>
    }
    ExactAmortisation(business, employee, amount, monthly, n);
  }

  lemma {:induction false} RepaidIsNotCancelled(l: Loan, k: nat)
    ensures Repaid(l, k).status.Cancelled? <==> l.status.Cancelled?
  {
    if k > 0 {
      RepaidIsNotCancelled(l, k - 1);
    }
  }

  /** A loan ends cancelled exactly when its own business cancelled it while it was active. */
  lemma {:induction false} CancelledIff(l: Loan, history: seq<Event>)
    requires !l.status.Cancelled?
    ensures Lived(l, history).business == l.business
    ensures Lived(l, history).status.Cancelled? <==>
      exists k :: 0 <= k < |history| && history[k] == CancelBy(l.business) && Lived(l, history[..k]).status.Active?
  {
    if history != [] {
      var n := |history| - 1;
      var front := history[..n];
      CancelledIff(l, front);
      forall k | 0 <= k < n ensures front[..k] == history[..k] && front[k] == history[k] {}
      var before := Lived(l, front);
      if history[n].Run? {
        RepaidIsNotCancelled(before, history[n].hits);
        RepaidKeepsTerms(before, history[n].hits);
      }
      if before.status.Cancelled? {
        var k :| 0 <= k < n && front[k] == CancelBy(l.business) && Lived(l, front[..k]).status.Active?;
        assert history[k] == CancelBy(l.business) && Lived(l, history[..k]).status.Active?;
      }
    }
  }

  // ---- the run's loan details ----

  function InstalmentIfOwed(employee: nat): Loan -> int
  {
    (l: Loan) => if Owes(l, employee) then Instalment(l) else 0
  }

  /** What a calculation made on `rows` deducts from an employee's pay for loans. */
  function Due(rows: seq<Loan>, employee: nat): int { Sum(rows, InstalmentIfOwed(employee)) }

  function Remaining(): Loan -> int { (l: Loan) => l.remaining }

  function DueOf(rows: seq<Loan>): Entry -> int { (e: Entry) => Due(rows, e.employee) }

  const NO_FAULTS := Faults(_ => false, (_, _) => false)

  lemma {:induction false} OneEntryDrop(rows: seq<Loan>, after: seq<Loan>, employee: nat)
    requires |after| == |rows|
    requires forall i | 0 <= i < |rows| :: after[i] == if Owes(rows[i], employee) then Repay(rows[i]) else rows[i]
    ensures Sum(after, Remaining()) == Sum(rows, Remaining()) - Due(rows, employee)
  {
    if rows != [] {
      OneEntryDrop(rows[..|rows| - 1], after[..|rows| - 1], employee);
    }
  }

  lemma {:induction false} DueDependsOnOwnLoans(rows: seq<Loan>, other: seq<Loan>, employee: nat)
    requires |other| == |rows|
    requires forall i | 0 <= i < |rows| :: other[i].employee == rows[i].employee
    requires forall i | 0 <= i < |rows| && rows[i].employee == employee :: other[i] == rows[i]
    ensures Due(other, employee) == Due(rows, employee)
  {
    if rows != [] {
      DueDependsOnOwnLoans(rows[..|rows| - 1], other[..|rows| - 1], employee);
    }
  }

  lemma {:induction false} NoHits(entries: seq<Entry>, k: nat, f: Faults, employee: nat, i: nat)
    requires k <= |entries| && forall j | 0 <= j < k :: entries[j].employee != employee
    ensures HitCount(entries, k, f, employee, i) == 0
  {
    if k > 0 {
      NoHits(entries, k - 1, f, employee, i);
    }
  }

  /** When the loans are as they were when the run was calculated, each employee has one entry and
      nothing fails, the loan deductions on the payslips sum to the total drop in balances. */
  lemma {:induction false} DetailsSumToDrop(rows: seq<Loan>, entries: seq<Entry>, k: nat)
    requires k <= |entries|
    requires forall i, j | 0 <= i < j < |entries| :: entries[i].employee != entries[j].employee
    requires forall e | e in entries :: e.present
    ensures Sum(AfterEntries(rows, entries, k, NO_FAULTS), Remaining()) ==
            Sum(rows, Remaining()) - Sum(entries[..k], DueOf(rows))
  {
    var after := AfterEntries(rows, entries, k, NO_FAULTS);
    if k == 0 {
      assert after == rows;
    } else {
      var before := AfterEntries(rows, entries, k - 1, NO_FAULTS);
      var e := entries[k - 1];
      DetailsSumToDrop(rows, entries, k - 1);
      assert e in entries;
      forall i | 0 <= i < |rows|
        ensures before[i].employee == rows[i].employee
        ensures rows[i].employee == e.employee ==> before[i] == rows[i]
        ensures after[i] == if Owes(before[i], e.employee) then Repay(before[i]) else before[i]
      {
        RepaidKeepsTerms(rows[i], HitCount(entries, k - 1, NO_FAULTS, rows[i].employee, i));
        if rows[i].employee == e.employee {
          NoHits(entries, k - 1, NO_FAULTS, e.employee, i);
        }
      }
      OneEntryDrop(before, after, e.employee);
      DueDependsOnOwnLoans(rows, before, e.employee);
      assert entries[..k] == entries[..k - 1] + [e];
      SumAppend(entries[..k - 1], e, DueOf(rows));
    }
  }
}

/** The payroll register: amounts read back from the details of each entry, and the totals row. */
module PayrollSummary {
  import opened Common
  import opened Payslip
  import Loans
  import Tax

  /** The first detail of a kind whose name starts with a prefix. */
  function FirstMatch(details: seq<Detail>, k: Kind, prefix: string): Option<Detail>
  {
    if details == [] then None
    else if details[0].kind == k && prefix <= details[0].name then Some(details[0])
    else FirstMatch(details[1..], k, prefix)
  }

  function AmountRead(details: seq<Detail>, k: Kind, prefix: string): int
  {
    match FirstMatch(details, k, prefix)
    case None => 0
    case Some(d) => d.amount
  }

  method FindDetail(details: seq<Detail>, k: Kind, prefix: string) returns (found: Option<Detail>)
    ensures found == FirstMatch(details, k, prefix)
    ensures found.Some? ==> found.value in details && found.value.kind == k && prefix <= found.value.name
    ensures found.None? ==> forall d | d in details :: d.kind != k || !(prefix <= d.name)
  {
    for i := 0 to |details|
      invariant FirstMatch(details, k, prefix) == FirstMatch(details[i..], k, prefix)
      invariant forall j | 0 <= j < i :: details[j].kind != k || !(prefix <= details[j].name)
    {
      assert details[i..][1..] == details[i + 1..];
      if details[i].kind == k && |details[i].name| >= |prefix| && details[i].name[..|prefix|] == prefix {
        return Some(details[i]);
      }
    }
    return None;
  }

  method DetailAmount(details: seq<Detail>, k: Kind, prefix: string) returns (amount: int)
    ensures amount == AmountRead(details, k, prefix)
  {
    var found := FindDetail(details, k, prefix);
    amount := if found.Some? then found.value.amount else 0;
  }

  method FindAllDetails(details: seq<Detail>, k: Kind) returns (found: seq<Detail>)
    ensures forall d :: d in found <==> d in details && d.kind == k
    ensures Total(found, k) == Total(details, k)
  {
    found := [];
    for i := 0 to |details|
      invariant forall d :: d in found <==> d in details[..i] && d.kind == k
      invariant Total(found, k) == Total(details[..i], k)
    {
      assert details[..i + 1] == details[..i] + [details[i]];
      TotalAppend(details[..i], details[i], k);
      if details[i].kind == k {
        TotalAppend(found, details[i], k);
        found := found + [details[i]];
      }
    }
    assert details[..|details|] == details;
  }

  datatype Row = Row(
    gross: int, paye: int, pensionEmployee: int, pensionEmployer: int, nhf: int, custom: int,
    deductions: int, net: int, nsitf: int, costToCompany: int)

  /** The row of an entry; custom deductions are what the statutory ones leave, never negative. */
  function RowOf(e: Entry): Row
  {
    var paye := AmountRead(e.details, Statutory, "PAYE");
    var pension := AmountRead(e.details, Statutory, "Pension (Employee");
    var nhf := AmountRead(e.details, Statutory, "NHF");
    Row(e.gross, paye, pension, e.employerPension, nhf, Max(0, e.deductions - (paye + pension + nhf)),
        e.deductions, e.net, e.employerNsitf, e.costToCompany)
  }

  /** The statutory and custom columns of a row add up to its total deductions. */
  predicate Balanced(r: Row) { r.paye + r.pensionEmployee + r.nhf + r.custom == r.deductions }

  function Plus(a: Row, b: Row): Row
  {
    Row(a.gross + b.gross, a.paye + b.paye, a.pensionEmployee + b.pensionEmployee,
        a.pensionEmployer + b.pensionEmployer, a.nhf + b.nhf, a.custom + b.custom,
        a.deductions + b.deductions, a.net + b.net, a.nsitf + b.nsitf, a.costToCompany + b.costToCompany)
  }

  /** A stored entry and whether its employee was loaded. */
  datatype Line = Line(entry: Entry, present: bool)

  function Rows(lines: seq<Line>): seq<Row>
  {
    if lines == [] then []
    else Rows(lines[..|lines| - 1]) + if lines[|lines| - 1].present then [RowOf(lines[|lines| - 1].entry)] else []
  }

  function ColumnSums(rows: seq<Row>): Row
  {
    if rows == [] then Row(0, 0, 0, 0, 0, 0, 0, 0, 0, 0)
    else Plus(ColumnSums(rows[..|rows| - 1]), rows[|rows| - 1])
  }

  method RowFor(e: Entry) returns (r: Row)
    ensures r == RowOf(e)
  {
    var paye := DetailAmount(e.details, Statutory, "PAYE");
    var pension := DetailAmount(e.details, Statutory, "Pension (Employee");
    var nhf := DetailAmount(e.details, Statutory, "NHF");
    var custom := e.deductions - (paye + pension + nhf);
    if custom < 0 {
      custom := 0;
    }
    r := Row(e.gross, paye, pension, e.employerPension, nhf, custom, e.deductions, e.net, e.employerNsitf, e.costToCompany);
  }

  /** GeneratePayrollSummary: a row for each entry with an employee, and the column sums. */
  method GeneratePayrollSummary(lines: seq<Line>) returns (rows: seq<Row>, totals: Row)
    ensures rows == Rows(lines) && totals == ColumnSums(rows)
  {
    rows, totals := [], Row(0, 0, 0, 0, 0, 0, 0, 0, 0, 0);
    for i := 0 to |lines|
      invariant rows == Rows(lines[..i]) && totals == ColumnSums(rows)
    {
      assert lines[..i + 1][..i] == lines[..i];
      if lines[i].present {
        var row := RowFor(lines[i].entry);
        assert (rows + [row])[..|rows|] == rows;
        rows, totals := rows + [row], Plus(totals, row);
      }
    }
    assert lines[..|lines|] == lines;
  }

  /** The rows of the register are exactly those of the entries whose employee was loaded. */
  lemma {:induction false} RowsAreOfLoaded(lines: seq<Line>, row: Row)
    ensures row in Rows(lines) <==> exists l :: l in lines && l.present && row == RowOf(l.entry)
  {
    if lines != [] {
      var front, l := lines[..|lines| - 1], lines[|lines| - 1];
      assert lines == front + [l];
      RowsAreOfLoaded(front, row);
    }
  }

  // ---- reading back what was written ----

  lemma {:induction false} FirstMatchConcat(a: seq<Detail>, b: seq<Detail>, k: Kind, prefix: string)
    ensures FirstMatch(a + b, k, prefix) == if FirstMatch(a, k, prefix).Some? then FirstMatch(a, k, prefix) else FirstMatch(b, k, prefix)
  {
    if a == [] {
      assert a + b == b;
    } else {
      assert (a + b)[1..] == a[1..] + b;
      FirstMatchConcat(a[1..], b, k, prefix);
    }
  }

  lemma {:induction false} NoMatch(details: seq<Detail>, k: Kind, prefix: string)
    requires forall d | d in details :: d.kind != k || !(prefix <= d.name)
    ensures FirstMatch(details, k, prefix) == None
  {
    if details != [] {
      NoMatch(details[1..], k, prefix);
    }
  }

  lemma {:induction false} OneMatch(details: seq<Detail>, k: Kind, prefix: string, d: Detail)
    requires d in details && d.kind == k && prefix <= d.name
    requires forall x | x in details && x.kind == k && prefix <= x.name :: x == d
    ensures FirstMatch(details, k, prefix) == Some(d)
  {
    if details[0] != d {
      OneMatch(details[1..], k, prefix, d);
    }
  }

  lemma NoStatutoryBefore(c: Cadre, prefix: string)
    ensures FirstMatch(Earnings(c.components) + RuleDetails(c.rules, BaseGross(c.components), BasicPay(c.components)),
                       Statutory, prefix) == None
  {
    NoMatch(Earnings(c.components) + RuleDetails(c.rules, BaseGross(c.components), BasicPay(c.components)), Statutory, prefix);
  }

  lemma NoStatutoryAfter(e: Employee, t: Tax.Result, adjustments: seq<Adjustment>, prefix: string)
    ensures FirstMatch(EmployerDetails(t) + (RepaymentsOf(e) + AdjustmentDetails(adjustments)), Statutory, prefix) == None
  {
    if e.loans.Some? {
      LoanDetailsAreDeductions(e.loans.value);
    }
    NoMatch(RepaymentsOf(e), Statutory, prefix);
    NoMatch(AdjustmentDetails(adjustments), Statutory, prefix);
    NoMatch(EmployerDetails(t), Statutory, prefix);
    FirstMatchConcat(RepaymentsOf(e), AdjustmentDetails(adjustments), Statutory, prefix);
    FirstMatchConcat(EmployerDetails(t), RepaymentsOf(e) + AdjustmentDetails(adjustments), Statutory, prefix);
  }

  lemma Regroup(a: seq<Detail>, b: seq<Detail>, c: seq<Detail>, d: seq<Detail>, e: seq<Detail>)
    ensures a + b + c + d + e == a + (b + (c + (d + e)))
  {
  }

  /** Only the statutory part of an entry can be read as statutory. */
  lemma ReadsStatutoryPart(e: Employee, c: Cadre, t: Tax.Result, adjustments: seq<Adjustment>, prefix: string)
    ensures FirstMatch(DetailsWith(e, c, t, adjustments), Statutory, prefix) == FirstMatch(StatutoryDetails(t), Statutory, prefix)
  {
    var before := Earnings(c.components) + RuleDetails(c.rules, BaseGross(c.components), BasicPay(c.components));
    var after := EmployerDetails(t) + (RepaymentsOf(e) + AdjustmentDetails(adjustments));
    Regroup(before, StatutoryDetails(t), EmployerDetails(t), RepaymentsOf(e), AdjustmentDetails(adjustments));
    FirstMatchConcat(before, StatutoryDetails(t) + after, Statutory, prefix);
    FirstMatchConcat(StatutoryDetails(t), after, Statutory, prefix);
    NoStatutoryBefore(c, prefix);
    NoStatutoryAfter(e, t, adjustments, prefix);
  }

  /** A statutory amount is read back by its name's prefix. */
  lemma ReadsAmount(t: Tax.Result, prefix: string, d: Detail)
    requires t.paye >= 0 && t.employeePension >= 0 && t.nhf >= 0
    requires (prefix == "PAYE" && d == Detail(Statutory, PAYE, t.paye))
          || (prefix == "Pension (Employee" && d == Detail(Statutory, EMPLOYEE_PENSION, t.employeePension))
          || (prefix == "NHF" && d == Detail(Statutory, NHF, t.nhf))
    ensures AmountRead(StatutoryDetails(t), Statutory, prefix) == d.amount
  {
    var details := StatutoryDetails(t);
    assert prefix <= d.name;
    assert forall x | x in details :: x.name == PAYE || x.name == EMPLOYEE_PENSION || x.name == NHF;
    assert PAYE[0] == 'P' && PAYE[1] == 'A' && EMPLOYEE_PENSION[0] == 'P' && EMPLOYEE_PENSION[1] == 'e' && NHF[0] == 'N';
    assert forall x | x in details && prefix <= x.name :: x == d && d.amount > 0;
    if d.amount > 0 {
      assert d in details;
      OneMatch(details, Statutory, prefix, d);
    } else {
      NoMatch(details, Statutory, prefix);
    }
  }

  /** The register shows the amounts that were calculated, whatever else is on the payslip. */
  lemma RegisterShowsCalculatedTax(e: Employee, c: Cadre, s: Schemes, adjustments: seq<Adjustment>)
    ensures var t := TaxOf(e, c.components, s);
            var r := RowOf(Computed(e, c, s, adjustments));
            && r.paye == t.paye && r.pensionEmployee == t.employeePension && r.nhf == t.nhf
            && r.paye + r.pensionEmployee + r.nhf == Total(DetailsOf(e, c, s, adjustments), Statutory)
  {
    var t := TaxOf(e, c.components, s);
    Tax.EmployerCostsAreTheirParts(TaxInput(e, c.components, s));
    StatutoryDetailsAddUp(e, c, s, adjustments);
    ReadsStatutoryPart(e, c, t, adjustments, "PAYE");
    ReadsStatutoryPart(e, c, t, adjustments, "Pension (Employee");
    ReadsStatutoryPart(e, c, t, adjustments, "NHF");
    ReadsAmount(t, "PAYE", Detail(Statutory, PAYE, t.paye));
    ReadsAmount(t, "Pension (Employee", Detail(Statutory, EMPLOYEE_PENSION, t.employeePension));
    ReadsAmount(t, "NHF", Detail(Statutory, NHF, t.nhf));
  }

  /** A row balances exactly when the custom deductions of its entry do not sum below zero. */
  lemma RowBalancesIff(e: Employee, c: Cadre, s: Schemes, adjustments: seq<Adjustment>)
    ensures var entry := Computed(e, c, s, adjustments);
            Balanced(RowOf(entry)) <==> Total(entry.details, Deduction) >= 0
  {
    RegisterShowsCalculatedTax(e, c, s, adjustments);
  }

  predicate AllBalanced(rows: seq<Row>) { forall i | 0 <= i < |rows| :: Balanced(rows[i]) }

  /** The totals row balances exactly when every row does: the clamp can only overstate. */
  lemma {:induction false} TotalsBalanceIff(rows: seq<Row>)
    requires forall i | 0 <= i < |rows| ::
      rows[i].paye + rows[i].pensionEmployee + rows[i].nhf + rows[i].custom >= rows[i].deductions
    ensures var t := ColumnSums(rows); t.paye + t.pensionEmployee + t.nhf + t.custom >= t.deductions
    ensures Balanced(ColumnSums(rows)) <==> AllBalanced(rows)
  {
    if rows != [] {
      var n := |rows| - 1;
      TotalsBalanceIff(rows[..n]);
      assert AllBalanced(rows) <==> AllBalanced(rows[..n]) && Balanced(rows[n]) by {
        assert forall i | 0 <= i < n :: rows[..n][i] == rows[i];
      }
    }
  }

  // ---- non-negative inputs ----

  predicate NonNegativePay(e: Employee, c: Cadre)
  {
    && NonNegativeAmounts(c.components)
    && (forall i | 0 <= i < |c.rules| :: c.rules[i].value >= 0.0)
    && (e.loans.Some? ==> forall l | l in e.loans.value :: l.monthly >= 0)
  }

  lemma {:induction false} TotalNonNegative(details: seq<Detail>, k: Kind)
    requires forall d | d in details && d.kind == k :: d.amount >= 0
    ensures Total(details, k) >= 0
  {
    if details != [] {
      TotalNonNegative(details[..|details| - 1], k);
    }
  }

  lemma RuleAmountNonNegative(r: Rule, gross: int, basic: int)
    requires r.value >= 0.0 && gross >= 0
    ensures RuleAmount(r, gross, basic) >= 0
  {
    if r.Percentage? {
      var base := (if r.ofBasic && basic > 0 then basic else gross) as real;
      assert base * (r.value / 100.0) >= 0.0;
    }
  }

  lemma {:induction false} LoanAmountsNonNegative(loans: seq<Loans.Loan>)
    requires forall l | l in loans :: l.monthly >= 0
    ensures forall d | d in LoanDetails(loans) :: d.amount >= 0
  {
    if loans != [] {
      LoanAmountsNonNegative(loans[..|loans| - 1]);
    }
  }

  lemma RulesTotalNonNegative(rules: seq<Rule>, gross: int, basic: int)
    requires gross >= 0 && forall i | 0 <= i < |rules| :: rules[i].value >= 0.0
    ensures Total(RuleDetails(rules, gross, basic), Deduction) >= 0
  {
    forall i | 0 <= i < |rules| ensures RuleAmount(rules[i], gross, basic) >= 0 {
      RuleAmountNonNegative(rules[i], gross, basic);
    }
    TotalNonNegative(RuleDetails(rules, gross, basic), Deduction);
  }

  lemma RepaymentsTotalNonNegative(e: Employee)
    requires e.loans.Some? ==> forall l | l in e.loans.value :: l.monthly >= 0
    ensures Total(RepaymentsOf(e), Deduction) >= 0
  {
    if e.loans.Some? {
      LoanAmountsNonNegative(e.loans.value);
    }
    TotalNonNegative(RepaymentsOf(e), Deduction);
  }

  lemma AdjustmentsNonNegative(adjustments: seq<Adjustment>)
    ensures Total(AdjustmentDetails(adjustments), Deduction) >= 0
  {
    TotalNonNegative(AdjustmentDetails(adjustments), Deduction);
  }

  lemma NoStatutoryDeduction(t: Tax.Result)
    ensures Total(StatutoryDetails(t), Deduction) == 0 && Total(EmployerDetails(t), Deduction) == 0
  {
    TotalOfOthers(StatutoryDetails(t), Deduction);
    TotalOfOthers(EmployerDetails(t), Deduction);
  }

  lemma DeductionsNonNegative(e: Employee, c: Cadre, t: Tax.Result, adjustments: seq<Adjustment>)
    requires NonNegativePay(e, c)
    ensures Total(DetailsWith(e, c, t, adjustments), Deduction) >= 0
  {
    TaggedWithinGross(c.components);
    DetailParts(e, c, t, adjustments, Deduction);
    EarningsAreEarnings(c.components, Deduction);
    RulesTotalNonNegative(c.rules, BaseGross(c.components), BasicPay(c.components));
    AdjustmentsNonNegative(adjustments);
    NoStatutoryDeduction(t);
    RepaymentsTotalNonNegative(e);
  }

  /** With non-negative components, rules and instalments every row of the register balances. */
  lemma RowsOfNonNegativePayBalance(e: Employee, c: Cadre, s: Schemes, adjustments: seq<Adjustment>)
    requires NonNegativePay(e, c)
    ensures Balanced(RowOf(Computed(e, c, s, adjustments)))
  {
    DeductionsNonNegative(e, c, TaxOf(e, c.components, s), adjustments);
    RowBalancesIff(e, c, s, adjustments);
  }

  /** So does the totals row of the register of a whole run. */
  lemma RegisterBalances(staff: seq<Employee>, s: Schemes, adjustments: nat -> seq<Adjustment>)
    requires forall e | e in staff && Payable(e) :: NonNegativePay(e, e.cadre.value)
    ensures var rows := Rows(Lines(EntriesOf(staff, s, adjustments)));
            AllBalanced(rows) && Balanced(ColumnSums(rows))
  {
    var entries := EntriesOf(staff, s, adjustments);
    EveryRowBalances(staff, s, adjustments);
    TotalsBalanceIff(Rows(Lines(entries)));
  }

  function Lines(entries: seq<Entry>): seq<Line>
  {
    seq(|entries|, i requires 0 <= i < |entries| => Line(entries[i], true))
  }

  lemma AnotherRow(earlier: seq<Entry>, entry: Entry)
    requires AllBalanced(Rows(Lines(earlier))) && Balanced(RowOf(entry))
    ensures AllBalanced(Rows(Lines(earlier + [entry])))
  {
    assert Lines(earlier + [entry])[..|earlier|] == Lines(earlier);
  }

  lemma {:induction false} EveryRowBalances(staff: seq<Employee>, s: Schemes, adjustments: nat -> seq<Adjustment>)
    requires forall e | e in staff && Payable(e) :: NonNegativePay(e, e.cadre.value)
    ensures AllBalanced(Rows(Lines(EntriesOf(staff, s, adjustments))))
  {
    if staff != [] {
      var n := |staff| - 1;
      var e := staff[n];
      EveryRowBalances(staff[..n], s, adjustments);
      assert e in staff;
      if Payable(e) {
        RowsOfNonNegativePayBalance(e, e.cadre.value, s, adjustments(e.id));
        AnotherRow(EntriesOf(staff[..n], s, adjustments), Computed(e, e.cadre.value, s, adjustments(e.id)));
      } else {
        assert EntriesOf(staff, s, adjustments) == EntriesOf(staff[..n], s, adjustments);
      }
    }
  }
}

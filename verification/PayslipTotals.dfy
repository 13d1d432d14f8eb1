/** What a payslip comes to, told from the employee, the cadre, the schemes and the adjustments: each of
    its totals as a sum of independent parts, and the register that shows them. */
module PayslipTotals {
  import opened Common
  import opened Payslip
  import PayrollSummary
  import Loans
  import Tax

  // ---- the parts ----

  /** A rule's deduction: the exact amount, rounded toward zero to a whole kobo. */
  function RuleShare(gross: int, basic: int): Rule -> int { (r: Rule) => Truncate(ExactAmount(r, gross, basic)) }

  /** A loan's repayment: an instalment, or what remains if that is less. */
  function InstalmentShare(): Loans.Loan -> int
  {
    (l: Loans.Loan) => if l.remaining <= 0 then 0 else Min(l.monthly, l.remaining)
  }

  predicate SaysEarnings(a: Adjustment) { a.componentType == "" || a.componentType == "earnings" }

  /** A positive adjustment is earned when it says so or says nothing, and is a bonus otherwise; a
      negative one is deducted. */
  function EarnedShare(): Adjustment -> int { (a: Adjustment) => if a.amount >= 0 && SaysEarnings(a) then a.amount else 0 }
  function BonusShare(): Adjustment -> int { (a: Adjustment) => if a.amount >= 0 && !SaysEarnings(a) then a.amount else 0 }
  function DeductedShare(): Adjustment -> int { (a: Adjustment) => if a.amount < 0 then -a.amount else 0 }

  lemma {:induction false} EarningsTotal(cs: seq<Component>)
    ensures Total(Earnings(cs), Earning) == BaseGross(cs)
  {
    if cs != [] {
      var n := |cs| - 1;
      EarningsTotal(cs[..n]);
      assert Earnings(cs) == Earnings(cs[..n]) + [Detail(Earning, cs[n].name, cs[n].amount)];
      TotalAppend(Earnings(cs[..n]), Detail(Earning, cs[n].name, cs[n].amount), Earning);
    }
  }

  lemma {:induction false} RulesTotal(rules: seq<Rule>, gross: int, basic: int)
    ensures Total(RuleDetails(rules, gross, basic), Deduction) == Sum(rules, RuleShare(gross, basic))
  {
    if rules != [] {
      var n := |rules| - 1;
      var d := Detail(Deduction, rules[n].name, RuleAmount(rules[n], gross, basic));
      RulesTotal(rules[..n], gross, basic);
      RuleIsTruncated(rules[n], gross, basic);
      assert RuleDetails(rules, gross, basic) == RuleDetails(rules[..n], gross, basic) + [d];
      TotalAppend(RuleDetails(rules[..n], gross, basic), d, Deduction);
    }
  }

  lemma {:induction false} LoansTotal(loans: seq<Loans.Loan>)
    ensures Total(LoanDetails(loans), Deduction) == Sum(loans, InstalmentShare())
  {
    if loans != [] {
      var n := |loans| - 1;
      LoansTotal(loans[..n]);
      if loans[n].remaining > 0 {
        TotalAppend(LoanDetails(loans[..n]), Detail(Deduction, LOAN_REPAYMENT, Loans.Instalment(loans[n])), Deduction);
      } else {
        assert LoanDetails(loans) == LoanDetails(loans[..n]);
      }
    }
  }

  lemma {:induction false} AdjustmentsTotal(adjustments: seq<Adjustment>)
    ensures Total(AdjustmentDetails(adjustments), Earning) == Sum(adjustments, EarnedShare())
    ensures Total(AdjustmentDetails(adjustments), Bonus) == Sum(adjustments, BonusShare())
    ensures Total(AdjustmentDetails(adjustments), Deduction) == Sum(adjustments, DeductedShare())
  {
    if adjustments != [] {
      var n := |adjustments| - 1;
      var before, d := AdjustmentDetails(adjustments[..n]), AdjustmentDetail(adjustments[n]);
      AdjustmentsTotal(adjustments[..n]);
      assert AdjustmentDetails(adjustments) == before + [d];
      TotalAppend(before, d, Earning);
      TotalAppend(before, d, Bonus);
      TotalAppend(before, d, Deduction);
    }
  }

  function LoansOf(e: Employee): seq<Loans.Loan> { if e.loans.Some? then e.loans.value else [] }

  lemma RepaymentsTotal(e: Employee)
    ensures Total(RepaymentsOf(e), Deduction) == Sum(LoansOf(e), InstalmentShare())
  {
    LoansTotal(LoansOf(e));
  }

  lemma KindsApart(c: Cadre, t: Tax.Result, gross: int, basic: int, e: Employee)
    ensures Total(RuleDetails(c.rules, gross, basic), Earning) == 0 == Total(RuleDetails(c.rules, gross, basic), Bonus)
    ensures Total(RepaymentsOf(e), Earning) == 0 == Total(RepaymentsOf(e), Bonus)
    ensures forall k: Kind :: k.Earning? || k.Bonus? || k.Deduction? ==> Total(StatutoryDetails(t), k) == 0 == Total(EmployerDetails(t), k)
  {
    RulesAreDeductions(c.rules, gross, basic, Earning);
    RulesAreDeductions(c.rules, gross, basic, Bonus);
    RepaymentsAreDeductions(e, Earning);
    RepaymentsAreDeductions(e, Bonus);
    forall k: Kind | k.Earning? || k.Bonus? || k.Deduction?
      ensures Total(StatutoryDetails(t), k) == 0 == Total(EmployerDetails(t), k)
    {
      TotalOfOthers(StatutoryDetails(t), k);
      TotalOfOthers(EmployerDetails(t), k);
    }
  }

  // ---- what is written ----

  /** What a calculation has written on the payslip for statutory amounts: those that are positive, by
      their names. */
  predicate StatutoryLine(t: Tax.Result, d: Detail)
  {
    d.amount > 0 &&
    (|| d == Detail(Statutory, "PAYE Income Tax", t.paye)
     || d == Detail(Statutory, "Pension (Employee 8%)", t.employeePension)
     || d == Detail(Statutory, "NHF (2.5%)", t.nhf)
     || d == Detail(EmployerCost, "Pension (Employer 10%)", t.employerPension)
     || d == Detail(EmployerCost, "NSITF (Employer 1%)", t.nsitf))
  }

  lemma StatutoryLines(t: Tax.Result, d: Detail)
    ensures d in StatutoryDetails(t) + EmployerDetails(t) <==> StatutoryLine(t, d)
  {
  }

  predicate ComponentLine(cs: seq<Component>, d: Detail)
  {
    exists c :: c in cs && d == Detail(Earning, c.name, c.amount)
  }

  predicate RuleLine(rules: seq<Rule>, gross: int, basic: int, d: Detail)
  {
    exists r :: r in rules && d == Detail(Deduction, r.name, Truncate(ExactAmount(r, gross, basic)))
  }

  predicate LoanLine(loans: seq<Loans.Loan>, d: Detail)
  {
    exists l :: l in loans && l.remaining > 0 && d == Detail(Deduction, "Loan Repayment: ", Min(l.monthly, l.remaining))
  }

  predicate AdjustmentLine(adjustments: seq<Adjustment>, d: Detail)
  {
    exists a :: a in adjustments &&
      d == (if a.amount < 0 then Detail(Deduction, a.name, -a.amount)
            else Detail(if a.componentType == "" || a.componentType == "earnings" then Earning else Bonus, a.name, a.amount))
  }

  lemma ComponentLines(cs: seq<Component>, d: Detail)
    ensures d in Earnings(cs) <==> ComponentLine(cs, d)
  {
    if c :| c in cs && d == Detail(Earning, c.name, c.amount) {
      var i :| 0 <= i < |cs| && cs[i] == c;
      assert Earnings(cs)[i] == d;
    }
  }

  lemma RuleLines(rules: seq<Rule>, gross: int, basic: int, d: Detail)
    ensures d in RuleDetails(rules, gross, basic) <==> RuleLine(rules, gross, basic, d)
  {
    forall r ensures RuleAmount(r, gross, basic) == Truncate(ExactAmount(r, gross, basic)) {
      RuleIsTruncated(r, gross, basic);
    }
    if r :| r in rules && d == Detail(Deduction, r.name, Truncate(ExactAmount(r, gross, basic))) {
      var i :| 0 <= i < |rules| && rules[i] == r;
      assert RuleDetails(rules, gross, basic)[i] == d;
    }
  }

  lemma {:induction false} LoanLines(loans: seq<Loans.Loan>, d: Detail)
    ensures d in LoanDetails(loans) <==> LoanLine(loans, d)
  {
    if loans != [] {
      var front, l := loans[..|loans| - 1], loans[|loans| - 1];
      assert loans == front + [l];
      LoanLines(front, d);
    }
  }

  lemma AdjustmentLines(adjustments: seq<Adjustment>, d: Detail)
    ensures d in AdjustmentDetails(adjustments) <==> AdjustmentLine(adjustments, d)
  {
    if AdjustmentLine(adjustments, d) {
      var a :| a in adjustments &&
        d == (if a.amount < 0 then Detail(Deduction, a.name, -a.amount)
              else Detail(if a.componentType == "" || a.componentType == "earnings" then Earning else Bonus, a.name, a.amount));
      var i :| 0 <= i < |adjustments| && adjustments[i] == a;
      assert AdjustmentDetails(adjustments)[i] == d;
    }
  }

  /** The lines of a payslip: its components, its cadre's rules on that gross and that basic pay, the
      positive statutory amounts, the loans still owing and the adjustments, and no others. */
  lemma WrittenIff(e: Employee, c: Cadre, t: Tax.Result, adjustments: seq<Adjustment>, d: Detail)
    ensures d in DetailsWith(e, c, t, adjustments) <==>
      || ComponentLine(c.components, d)
      || RuleLine(c.rules, BaseGross(c.components), BasicPay(c.components), d)
      || StatutoryLine(t, d)
      || LoanLine(LoansOf(e), d)
      || AdjustmentLine(adjustments, d)
  {
    ComponentLines(c.components, d);
    RuleLines(c.rules, BaseGross(c.components), BasicPay(c.components), d);
    StatutoryLines(t, d);
    LoanLines(LoansOf(e), d);
    AdjustmentLines(adjustments, d);
    InOneOfSix(Earnings(c.components), RuleDetails(c.rules, BaseGross(c.components), BasicPay(c.components)),
               StatutoryDetails(t), EmployerDetails(t), RepaymentsOf(e), AdjustmentDetails(adjustments), d);
  }

  lemma InOneOfSix(a: seq<Detail>, b: seq<Detail>, c: seq<Detail>, x: seq<Detail>, y: seq<Detail>, z: seq<Detail>, d: Detail)
    ensures d in a + b + c + x + y + z <==> d in a || d in b || d in c + x || d in y || d in z
  {
  }

  // ---- the totals ----

  /** The totals of a payslip: what is earned, deducted and given as bonus is exactly the components, the
      cadre's rules on that gross and that basic pay, the statutory amounts, the instalments of the loans
      and the adjustments, each under its heading. */
  predicate ComesTo(entry: Entry, e: Employee, c: Cadre, t: Tax.Result, adjustments: seq<Adjustment>)
  {
    && entry.employee == e.id
    && entry.gross == BaseGross(c.components) + Sum(adjustments, EarnedShare())
    && entry.bonuses == Sum(adjustments, BonusShare())
    && entry.deductions == t.paye + t.employeePension + t.nhf + CustomDeductions(e, c, adjustments)
    && entry.net == entry.gross + entry.bonuses - entry.deductions
    && entry.employerPension == t.employerPension && entry.employerNsitf == t.nsitf
    && entry.employerCost == t.employerPension + t.nsitf
    && entry.costToCompany == entry.gross + t.employerPension + t.nsitf
  }

  /** The deductions that are not statutory. */
  function CustomDeductions(e: Employee, c: Cadre, adjustments: seq<Adjustment>): int
  {
    Sum(c.rules, RuleShare(BaseGross(c.components), BasicPay(c.components)))
    + Sum(LoansOf(e), InstalmentShare()) + Sum(adjustments, DeductedShare())
  }

  lemma PayslipComesTo(e: Employee, c: Cadre, s: Schemes, adjustments: seq<Adjustment>)
    ensures ComesTo(Computed(e, c, s, adjustments), e, c, TaxOf(e, c.components, s), adjustments)
  {
    var t := TaxOf(e, c.components, s);
    Tax.EmployerCostsAreTheirParts(TaxInput(e, c.components, s));
    StatutoryDetailsAddUp(e, c, s, adjustments);
    DeductionsComeTo(e, c, t, adjustments);
    EarningsComeTo(e, c, t, adjustments);
  }

  lemma DeductionsComeTo(e: Employee, c: Cadre, t: Tax.Result, adjustments: seq<Adjustment>)
    ensures Total(DetailsWith(e, c, t, adjustments), Deduction) == CustomDeductions(e, c, adjustments)
  {
    DetailParts(e, c, t, adjustments, Deduction);
    EarningsAreEarnings(c.components, Deduction);
    RulesTotal(c.rules, BaseGross(c.components), BasicPay(c.components));
    RepaymentsTotal(e);
    AdjustmentsTotal(adjustments);
    KindsApart(c, t, BaseGross(c.components), BasicPay(c.components), e);
  }

  lemma EarningsComeTo(e: Employee, c: Cadre, t: Tax.Result, adjustments: seq<Adjustment>)
    ensures Total(DetailsWith(e, c, t, adjustments), Earning) == BaseGross(c.components) + Sum(adjustments, EarnedShare())
    ensures Total(DetailsWith(e, c, t, adjustments), Bonus) == Sum(adjustments, BonusShare())
  {
    DetailParts(e, c, t, adjustments, Earning);
    DetailParts(e, c, t, adjustments, Bonus);
    EarningsTotal(c.components);
    EarningsAreEarnings(c.components, Bonus);
    AdjustmentsTotal(adjustments);
    KindsApart(c, t, BaseGross(c.components), BasicPay(c.components), e);
  }

  /** The statutory amounts of a payslip, from the cadre's components and the employee's rent. */
  lemma PayslipTax(e: Employee, c: Cadre, s: Schemes)
    requires NonNegativeAmounts(c.components) && e.annualRent >= 0
    ensures var t := TaxOf(e, c.components, s);
            var cs := c.components;
            var base := BasicPay(cs) + LastOf(cs, Housing) + LastOf(cs, Transport);
            var taxable := 12 * (BaseGross(cs) - t.employeePension - t.nhf) - Min(e.annualRent / 5, 50_000_000);
            && (if s.pension then Tax.ShareOf(t.employeePension, 80, base) && Tax.ShareOf(t.employerPension, 100, base)
                else t.employeePension == 0 == t.employerPension)
            && (if s.nhf then Tax.ShareOf(t.nhf, 25, BasicPay(cs)) else t.nhf == 0)
            && (if s.nsitf then Tax.ShareOf(t.nsitf, 10, BaseGross(cs)) else t.nsitf == 0)
            && t.paye == if s.paye && BaseGross(cs) > 7_000_000 then Tax.ClosedForm(taxable) / 12 else 0
  {
    TaggedWithinGross(c.components);
    BasicPayIsNonNegative(c.components);
    Tax.ContributionsAreShares(TaxInput(e, c.components, s));
    Tax.TaxOfCalculation(TaxInput(e, c.components, s));
  }

  /** Basic pay: the last component of that type if it is not zero, else the first so named, else none. */
  lemma BasicPayIs(cs: seq<Component>)
    ensures forall k: nat :: IsLast(cs, Basic, k) && cs[k].amount != 0 ==> BasicPay(cs) == cs[k].amount
    ensures (forall k: nat :: IsLast(cs, Basic, k) ==> cs[k].amount == 0) ==>
      BasicPay(cs) == if FirstNamed(cs) < |cs| then cs[FirstNamed(cs)].amount else 0
  {
    forall k: nat | IsLast(cs, Basic, k) ensures LastOf(cs, Basic) == cs[k].amount {
      LastIsItsAmount(cs, Basic, k);
    }
    if LastOf(cs, Basic) != 0 {
      var k := SomeLast(cs, Basic);
    }
  }

  lemma {:induction false} SomeLast(cs: seq<Component>, kind: ComponentType) returns (k: nat)
    requires LastOf(cs, kind) != 0
    ensures IsLast(cs, kind, k)
  {
    var n := |cs| - 1;
    if cs[n].kind == kind {
      k := n;
    } else {
      k := SomeLast(cs[..n], kind);
      assert forall j | 0 <= j < n :: cs[..n][j] == cs[j];
    }
  }

  // ---- the register ----

  /** The register's row of a payslip. */
  predicate Shows(row: PayrollSummary.Row, e: Employee, c: Cadre, t: Tax.Result, adjustments: seq<Adjustment>)
  {
    && row.gross == BaseGross(c.components) + Sum(adjustments, EarnedShare())
    && row.paye == t.paye && row.pensionEmployee == t.employeePension && row.nhf == t.nhf
    && row.custom == Max(0, CustomDeductions(e, c, adjustments))
    && row.deductions == t.paye + t.employeePension + t.nhf + CustomDeductions(e, c, adjustments)
    && row.net == row.gross + Sum(adjustments, BonusShare()) - row.deductions
    && row.pensionEmployer == t.employerPension && row.nsitf == t.nsitf
    && row.costToCompany == row.gross + row.pensionEmployer + row.nsitf
  }

  lemma RegisterShowsPayslip(e: Employee, c: Cadre, s: Schemes, adjustments: seq<Adjustment>)
    ensures Shows(PayrollSummary.RowOf(Computed(e, c, s, adjustments)), e, c, TaxOf(e, c.components, s), adjustments)
  {
    PayslipComesTo(e, c, s, adjustments);
    PayrollSummary.RegisterShowsCalculatedTax(e, c, s, adjustments);
    RowShows(Computed(e, c, s, adjustments), e, c, TaxOf(e, c.components, s), adjustments);
  }

  lemma RowShows(entry: Entry, e: Employee, c: Cadre, t: Tax.Result, adjustments: seq<Adjustment>)
    requires ComesTo(entry, e, c, t, adjustments)
    requires var row := PayrollSummary.RowOf(entry);
             row.paye == t.paye && row.pensionEmployee == t.employeePension && row.nhf == t.nhf
    ensures Shows(PayrollSummary.RowOf(entry), e, c, t, adjustments)
  {
  }

  function EmployerParts(): Entry -> int { (e: Entry) => e.employerPension + e.employerNsitf }

  /** The totals row of the register of a run whose employees are all loaded shows the totals of the run. */
  lemma {:induction false} TotalsAreOfTheEntries(entries: seq<Entry>)
    ensures var t := PayrollSummary.ColumnSums(PayrollSummary.Rows(PayrollSummary.Lines(entries)));
            && t.gross == Sum(entries, Gross()) && t.deductions == Sum(entries, Deductions()) && t.net == Sum(entries, Net())
            && t.costToCompany == Sum(entries, CostToCompany())
            && t.pensionEmployer + t.nsitf == Sum(entries, EmployerParts())
  {
    if entries != [] {
      var n := |entries| - 1;
      TotalsAreOfTheEntries(entries[..n]);
      assert PayrollSummary.Lines(entries)[..n] == PayrollSummary.Lines(entries[..n]);
      var rows := PayrollSummary.Rows(PayrollSummary.Lines(entries));
      assert rows[..|rows| - 1] == PayrollSummary.Rows(PayrollSummary.Lines(entries[..n]));
    }
  }

  lemma {:induction false} EmployerPartsAreCosts(staff: seq<Employee>, s: Schemes, adjustments: nat -> seq<Adjustment>)
    ensures var entries := EntriesOf(staff, s, adjustments); Sum(entries, EmployerParts()) == Sum(entries, EmployerCosts())
  {
    if staff != [] {
      var n := |staff| - 1;
      var e := staff[n];
      EmployerPartsAreCosts(staff[..n], s, adjustments);
      if Payable(e) {
        var before, entry := EntriesOf(staff[..n], s, adjustments), Computed(e, e.cadre.value, s, adjustments(e.id));
        PayslipComesTo(e, e.cadre.value, s, adjustments(e.id));
        SumAppend(before, entry, EmployerParts());
        SumAppend(before, entry, EmployerCosts());
      } else {
        assert EntriesOf(staff, s, adjustments) == EntriesOf(staff[..n], s, adjustments);
      }
    }
  }

  /** So the totals row agrees with the run as it was calculated. */
  lemma RegisterTotalsMatchTheRun(staff: seq<Employee>, s: Schemes, adjustments: nat -> seq<Adjustment>, r: PayRun)
    requires r.entries == EntriesOf(staff, s, adjustments) && RunAdds(r)
    ensures var t := PayrollSummary.ColumnSums(PayrollSummary.Rows(PayrollSummary.Lines(r.entries)));
            && t.gross == r.gross && t.deductions == r.deductions && t.net == r.net
            && t.pensionEmployer + t.nsitf == r.employerCosts && t.costToCompany == r.costToCompany
  {
    TotalsAreOfTheEntries(r.entries);
    EmployerPartsAreCosts(staff, s, adjustments);
    RunBalances(staff, s, adjustments, r);
  }

  /** The tax columns of the totals row, one by one. */
  function PayeColumn(): PayrollSummary.Row -> int { (r: PayrollSummary.Row) => r.paye }
  function PensionColumn(): PayrollSummary.Row -> int { (r: PayrollSummary.Row) => r.pensionEmployee }
  function EmployerColumn(): PayrollSummary.Row -> int { (r: PayrollSummary.Row) => r.pensionEmployer }
  function NhfColumn(): PayrollSummary.Row -> int { (r: PayrollSummary.Row) => r.nhf }
  function NsitfColumn(): PayrollSummary.Row -> int { (r: PayrollSummary.Row) => r.nsitf }
  function CustomColumn(): PayrollSummary.Row -> int { (r: PayrollSummary.Row) => r.custom }

  lemma {:induction false} TotalsAreColumnSums(rows: seq<PayrollSummary.Row>)
    ensures var t := PayrollSummary.ColumnSums(rows);
            && t.paye == Sum(rows, PayeColumn()) && t.pensionEmployee == Sum(rows, PensionColumn())
            && t.pensionEmployer == Sum(rows, EmployerColumn()) && t.nhf == Sum(rows, NhfColumn())
            && t.nsitf == Sum(rows, NsitfColumn()) && t.custom == Sum(rows, CustomColumn())
  {
    if rows != [] {
      TotalsAreColumnSums(rows[..|rows| - 1]);
    }
  }
}

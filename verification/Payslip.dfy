/** Calculating a payroll run: each employee's entry with its details, and the run's totals. */
module Payslip {
  import opened Common
  import Loans
  import Tax

  datatype ComponentType = Basic | Housing | Transport | Other
  datatype Component = Component(name: string, amount: int, kind: ComponentType)

  datatype Rule = Percentage(name: string, value: real, ofBasic: bool) | Flat(name: string, value: real)

  datatype Cadre = Cadre(components: seq<Component>, rules: seq<Rule>)

  /** `loans` is absent when there is no loan store or its query fails. */
  datatype Employee = Employee(
    id: nat, active: bool, cadre: Option<Cadre>, annualRent: int, loans: Option<seq<Loans.Loan>>)

  datatype Schemes = Schemes(pension: bool, nhf: bool, nsitf: bool, paye: bool)

  datatype Adjustment = Adjustment(name: string, amount: int, componentType: string)

  datatype Kind = Earning | Deduction | Bonus | Statutory | EmployerCost
  datatype Detail = Detail(kind: Kind, name: string, amount: int)

  datatype Entry = Entry(
    employee: nat, gross: int, deductions: int, bonuses: int, net: int,
    employerPension: int, employerNsitf: int, employerCost: int, costToCompany: int, details: seq<Detail>)

  // ---- earnings ----

  /** The amount of the last component of a type: a later one replaces an earlier one. */
  function LastOf(cs: seq<Component>, kind: ComponentType): int
  {
    if cs == [] then 0
    else if cs[|cs| - 1].kind == kind then cs[|cs| - 1].amount
    else LastOf(cs[..|cs| - 1], kind)
  }

  function AmountOf(): Component -> int { (c: Component) => c.amount }
  function BaseGross(cs: seq<Component>): int { Sum(cs, AmountOf()) }

  /** Case folding of a character, as far as the letters of the names below are concerned. */
  function Fold(c: char): char
  {
    if 'A' <= c <= 'Z' then c + 32 as char else if c == '\U{017F}' then 's' else c
  }

  predicate EqualFold(a: string, b: string)
  {
    |a| == |b| && forall i | 0 <= i < |a| :: Fold(a[i]) == Fold(b[i])
  }

  predicate NamedBasic(c: Component)
  {
    EqualFold(c.name, "basic pay") || EqualFold(c.name, "basic salary") || EqualFold(c.name, "basic")
  }

  /** Basic pay goes by three names, in any case, and by no longer ones. */
  lemma BasicPayNames(amount: int, kind: ComponentType)
    ensures NamedBasic(Component("Basic", amount, kind)) && NamedBasic(Component("BASIC PAY", amount, kind))
    ensures NamedBasic(Component("Basic Salary", amount, kind)) && !NamedBasic(Component("Basic Allowance", amount, kind))
  {
  }

  /** The position of the first component named as basic pay, or the length. */
  function FirstNamed(cs: seq<Component>): (k: nat)
    ensures k <= |cs| && (k < |cs| ==> NamedBasic(cs[k])) && forall i | 0 <= i < k :: !NamedBasic(cs[i])
  {
    if cs == [] then 0 else if NamedBasic(cs[0]) then 0 else
      var k := FirstNamed(cs[1..]);
      assert forall i | 1 <= i < |cs| :: cs[i] == cs[1..][i - 1];
      k + 1
  }

  function BasicPay(cs: seq<Component>): int
  {
    var tagged := LastOf(cs, Basic);
    if tagged != 0 then tagged else if FirstNamed(cs) < |cs| then cs[FirstNamed(cs)].amount else 0
  }

  // ---- details ----

  function Earnings(cs: seq<Component>): seq<Detail>
  {
    seq(|cs|, i requires 0 <= i < |cs| => Detail(Earning, cs[i].name, cs[i].amount))
  }

  function Truncate(x: real): int { if x >= 0.0 then x.Floor else -((-x).Floor) }

  /** A percentage of gross or of basic pay, truncated to kobo, or a flat amount. */
  function RuleAmount(r: Rule, gross: int, basic: int): int
  {
    match r
    case Percentage(_, value, ofBasic) =>
      Truncate((if ofBasic && basic > 0 then basic else gross) as real * (value / 100.0))
    case Flat(_, value) => Truncate(value)
  }

  function RuleDetails(rules: seq<Rule>, gross: int, basic: int): seq<Detail>
  {
    seq(|rules|, i requires 0 <= i < |rules| => Detail(Deduction, rules[i].name, RuleAmount(rules[i], gross, basic)))
  }

  function IfPositive(d: Detail): seq<Detail> { if d.amount > 0 then [d] else [] }

  const PAYE := "PAYE Income Tax"
  const EMPLOYEE_PENSION := "Pension (Employee 8%)"
  const NHF := "NHF (2.5%)"

  function StatutoryDetails(t: Tax.Result): seq<Detail>
  {
    IfPositive(Detail(Statutory, PAYE, t.paye))
    + IfPositive(Detail(Statutory, EMPLOYEE_PENSION, t.employeePension))
    + IfPositive(Detail(Statutory, NHF, t.nhf))
  }

  function EmployerDetails(t: Tax.Result): seq<Detail>
  {
    IfPositive(Detail(EmployerCost, "Pension (Employer 10%)", t.employerPension))
    + IfPositive(Detail(EmployerCost, "NSITF (Employer 1%)", t.nsitf))
  }

  const LOAN_REPAYMENT := "Loan Repayment: "

  function LoanDetails(loans: seq<Loans.Loan>): seq<Detail>
  {
    if loans == [] then []
    else
      var l := loans[|loans| - 1];
      LoanDetails(loans[..|loans| - 1])
      + if l.remaining <= 0 then [] else [Detail(Deduction, LOAN_REPAYMENT, Loans.Instalment(l))]
  }

  /** A non-negative adjustment is an earning when it says so or says nothing, and a bonus
      otherwise; a negative one is a deduction whatever it says. */
  function AdjustmentDetail(a: Adjustment): Detail
  {
    if a.amount < 0 then Detail(Deduction, a.name, -a.amount)
    else if a.componentType == "" || a.componentType == "earnings" then Detail(Earning, a.name, a.amount)
    else Detail(Bonus, a.name, a.amount)
  }

  function AdjustmentDetails(adjustments: seq<Adjustment>): seq<Detail>
  {
    seq(|adjustments|, i requires 0 <= i < |adjustments| => AdjustmentDetail(adjustments[i]))
  }

  function TaxInput(e: Employee, cs: seq<Component>, s: Schemes): Tax.Input
  {
    Tax.Input(BasicPay(cs), LastOf(cs, Housing), LastOf(cs, Transport), BaseGross(cs), e.annualRent,
              s.pension, s.nhf, s.nsitf, s.paye)
  }

  function TaxOf(e: Employee, cs: seq<Component>, s: Schemes): Tax.Result { Tax.Calculate(Tax.Unbounded, TaxInput(e, cs, s)) }

  function RepaymentsOf(e: Employee): seq<Detail> { if e.loans.Some? then LoanDetails(e.loans.value) else [] }

  /** The details of an entry, in the order they are written, given its statutory amounts. */
  function DetailsWith(e: Employee, c: Cadre, t: Tax.Result, adjustments: seq<Adjustment>): seq<Detail>
  {
    Earnings(c.components)
    + RuleDetails(c.rules, BaseGross(c.components), BasicPay(c.components))
    + StatutoryDetails(t) + EmployerDetails(t)
    + RepaymentsOf(e)
    + AdjustmentDetails(adjustments)
  }

  function DetailsOf(e: Employee, c: Cadre, s: Schemes, adjustments: seq<Adjustment>): seq<Detail>
  {
    DetailsWith(e, c, TaxOf(e, c.components, s), adjustments)
  }

  // ---- sums by kind ----

  function OfKind(k: Kind): Detail -> int { (d: Detail) => if d.kind == k then d.amount else 0 }

  function Total(details: seq<Detail>, k: Kind): int { Sum(details, OfKind(k)) }

  /** The totals an entry must show for its details. */
  predicate Adds(details: seq<Detail>, gross: int, deductions: int, bonuses: int)
  {
    && gross == Total(details, Earning)
    && deductions == Total(details, Deduction) + Total(details, Statutory)
    && bonuses == Total(details, Bonus)
  }

  lemma TotalAppend(details: seq<Detail>, d: Detail, k: Kind)
    ensures Total(details + [d], k) == Total(details, k) + if d.kind == k then d.amount else 0
  {
    SumAppend(details, d, OfKind(k));
  }

  lemma AddsAppend(details: seq<Detail>, gross: int, deductions: int, bonuses: int, d: Detail)
    requires Adds(details, gross, deductions, bonuses)
    ensures Adds(details + [d],
                 gross + if d.kind == Earning then d.amount else 0,
                 deductions + if d.kind == Deduction || d.kind == Statutory then d.amount else 0,
                 bonuses + if d.kind == Bonus then d.amount else 0)
  {
    TotalAppend(details, d, Earning);
    TotalAppend(details, d, Deduction);
    TotalAppend(details, d, Statutory);
    TotalAppend(details, d, Bonus);
  }

  // ---- one employee ----

  method Classify(cs: seq<Component>) returns (gross: int, basic: int, housing: int, transport: int, details: seq<Detail>)
    ensures gross == BaseGross(cs) && details == Earnings(cs) && Adds(details, gross, 0, 0)
    ensures basic == BasicPay(cs) && housing == LastOf(cs, Housing) && transport == LastOf(cs, Transport)
  {
    gross, basic, housing, transport, details := 0, 0, 0, 0, [];
    for i := 0 to |cs|
      invariant gross == BaseGross(cs[..i]) && details == Earnings(cs[..i]) && Adds(details, gross, 0, 0)
      invariant basic == LastOf(cs[..i], Basic)
      invariant housing == LastOf(cs[..i], Housing) && transport == LastOf(cs[..i], Transport)
    {
      var c := cs[i];
      assert cs[..i + 1] == cs[..i] + [c];
      SumAppend(cs[..i], c, AmountOf());
      gross := gross + c.amount;
      match c.kind {
        case Basic => basic := c.amount;
        case Housing => housing := c.amount;
        case Transport => transport := c.amount;
        case Other =>
      }
      AddsAppend(details, BaseGross(cs[..i]), 0, 0, Detail(Earning, c.name, c.amount));
      details := details + [Detail(Earning, c.name, c.amount)];
    }
    assert cs[..|cs|] == cs;
    if basic == 0 {
      basic := NamedBasicPay(cs);
    }
  }

  method NamedBasicPay(cs: seq<Component>) returns (basic: int)
    ensures basic == if FirstNamed(cs) < |cs| then cs[FirstNamed(cs)].amount else 0
  {
    for i := 0 to |cs|
      invariant forall k | 0 <= k < i :: !NamedBasic(cs[k])
    {
      if NamedBasic(cs[i]) {
        return cs[i].amount;
      }
    }
    return 0;
  }

  /** The exact amount a rule asks for, before truncation to kobo. */
  function ExactAmount(r: Rule, gross: int, basic: int): real
  {
    match r
    case Percentage(_, value, ofBasic) => (if ofBasic && basic > 0 then basic else gross) as real * value / 100.0
    case Flat(_, value) => value
  }

  /** Truncation goes toward zero and loses less than one kobo. */
  lemma TruncationBounds(x: real)
    ensures x >= 0.0 ==> 0 <= Truncate(x) && x - 1.0 < Truncate(x) as real <= x
    ensures x <= 0.0 ==> Truncate(x) <= 0 && x <= Truncate(x) as real < x + 1.0
  {
  }

  lemma RuleIsTruncated(r: Rule, gross: int, basic: int)
    ensures RuleAmount(r, gross, basic) == Truncate(ExactAmount(r, gross, basic))
  {
    if r.Percentage? {
      var base := (if r.ofBasic && basic > 0 then basic else gross) as real;
      assert base * (r.value / 100.0) == base * r.value / 100.0;
    }
  }

  /** A rule's deduction is the exact amount rounded toward zero to a whole kobo. */
  method RuleDeduction(r: Rule, gross: int, basic: int) returns (amount: int)
    ensures amount == RuleAmount(r, gross, basic)
    ensures var x := ExactAmount(r, gross, basic);
            && (x >= 0.0 ==> 0 <= amount && x - 1.0 < amount as real <= x)
            && (x <= 0.0 ==> amount <= 0 && x <= amount as real < x + 1.0)
  {
    RuleIsTruncated(r, gross, basic);
    TruncationBounds(ExactAmount(r, gross, basic));
    if r.Percentage? {
      var base := gross;
      if r.ofBasic && basic > 0 {
        base := basic;
      }
      amount := Truncate(base as real * (r.value / 100.0));
    } else {
      amount := Truncate(r.value);
    }
  }

  /** The custom deductions of the employee's cadre. */
  method ApplyRules(rules: seq<Rule>, gross: int, basic: int, start: seq<Detail>)
    returns (details: seq<Detail>, deductions: int)
    requires Adds(start, gross, 0, 0)
    ensures details == start + RuleDetails(rules, gross, basic) && Adds(details, gross, deductions, 0)
  {
    details, deductions := start, 0;
    for i := 0 to |rules|
      invariant details == start + RuleDetails(rules[..i], gross, basic) && Adds(details, gross, deductions, 0)
    {
      var r := rules[i];
      var amount := RuleDeduction(r, gross, basic);
      assert rules[..i + 1] == rules[..i] + [r];
      assert RuleDetails(rules[..i + 1], gross, basic) ==
             RuleDetails(rules[..i], gross, basic) + [Detail(Deduction, r.name, amount)];
      AddsAppend(details, gross, deductions, 0, Detail(Deduction, r.name, amount));
      details, deductions := details + [Detail(Deduction, r.name, amount)], deductions + amount;
    }
    assert rules[..|rules|] == rules;
  }

  /** One statutory amount: written and counted only when positive. */
  method AddIfPositive(start: seq<Detail>, d: Detail, gross: int, before: int) returns (details: seq<Detail>, deductions: int)
    requires Adds(start, gross, before, 0) && (d.kind.Statutory? || d.kind.EmployerCost?)
    ensures details == start + IfPositive(d) && Adds(details, gross, deductions, 0)
    ensures d.kind.EmployerCost? ==> deductions == before
  {
    details, deductions := start, before;
    if d.amount > 0 {
      AddsAppend(details, gross, deductions, 0, d);
      if d.kind.Statutory? {
        deductions := deductions + d.amount;
      }
      details := details + [d];
    }
  }

  method AddLoanRepayments(loans: seq<Loans.Loan>, start: seq<Detail>, gross: int, before: int)
    returns (details: seq<Detail>, deductions: int)
    requires Adds(start, gross, before, 0)
    ensures details == start + LoanDetails(loans) && Adds(details, gross, deductions, 0)
  {
    details, deductions := start, before;
    for i := 0 to |loans|
      invariant details == start + LoanDetails(loans[..i]) && Adds(details, gross, deductions, 0)
    {
      assert loans[..i + 1][..i] == loans[..i];
      var loan := loans[i];
      if loan.remaining > 0 {
        var amount := loan.monthly;
        if amount > loan.remaining {
          amount := loan.remaining;
        }
        AddsAppend(details, gross, deductions, 0, Detail(Deduction, LOAN_REPAYMENT, amount));
        details, deductions := details + [Detail(Deduction, LOAN_REPAYMENT, amount)], deductions + amount;
      }
    }
    assert loans[..|loans|] == loans;
  }

  method AddAdjustments(adjustments: seq<Adjustment>, start: seq<Detail>, gross0: int, before: int)
    returns (details: seq<Detail>, gross: int, deductions: int, bonuses: int)
    requires Adds(start, gross0, before, 0)
    ensures details == start + AdjustmentDetails(adjustments) && Adds(details, gross, deductions, bonuses)
  {
    details, gross, deductions, bonuses := start, gross0, before, 0;
    for i := 0 to |adjustments|
      invariant details == start + AdjustmentDetails(adjustments[..i]) && Adds(details, gross, deductions, bonuses)
    {
      var a := adjustments[i];
      var componentType := a.componentType;
      if componentType == "" {
        componentType := if a.amount >= 0 then "earnings" else "deduction";
      }
      var d;
      AddsAppend(details, gross, deductions, bonuses, AdjustmentDetail(a));
      if a.amount >= 0 {
        if componentType == "earnings" {
          d := Detail(Earning, a.name, a.amount);
          gross := gross + a.amount;
        } else {
          d := Detail(Bonus, a.name, a.amount);
          bonuses := bonuses + a.amount;
        }
      } else {
        d := Detail(Deduction, a.name, -a.amount);
        deductions := deductions + -a.amount;
      }
      assert AdjustmentDetails(adjustments[..i + 1]) == AdjustmentDetails(adjustments[..i]) + [d];
      details := details + [d];
    }
    assert adjustments[..|adjustments|] == adjustments;
  }

  /** The entry whose details are `details`: every total on it is a sum over them. */
  function EntryFor(id: nat, details: seq<Detail>, t: Tax.Result): Entry
  {
    var gross, bonuses := Total(details, Earning), Total(details, Bonus);
    var deductions := Total(details, Deduction) + Total(details, Statutory);
    Entry(id, gross, deductions, bonuses, gross + bonuses - deductions,
          t.employerPension, t.nsitf, t.totalEmployerCosts, gross + t.totalEmployerCosts, details)
  }

  function Computed(e: Employee, c: Cadre, s: Schemes, adjustments: seq<Adjustment>): Entry
  {
    EntryFor(e.id, DetailsOf(e, c, s, adjustments), TaxOf(e, c.components, s))
  }

  /** The details and totals of an entry whose statutory amounts are known. */
  method WriteDetails(e: Employee, c: Cadre, t: Tax.Result, adjustments: seq<Adjustment>, start: seq<Detail>, gross0: int, before: int)
    returns (details: seq<Detail>, gross: int, deductions: int, bonuses: int)
    requires Adds(start, gross0, before, 0)
    requires start == Earnings(c.components) + RuleDetails(c.rules, BaseGross(c.components), BasicPay(c.components))
    ensures details == DetailsWith(e, c, t, adjustments) && Adds(details, gross, deductions, bonuses)
  {
    details, deductions := AddStatutory(t, start, gross0, before);
    details, deductions := AddEmployerCosts(t, details, gross0, deductions);
    if e.loans.Some? {
      details, deductions := AddLoanRepayments(e.loans.value, details, gross0, deductions);
    }
    assert details == start + StatutoryDetails(t) + EmployerDetails(t) + RepaymentsOf(e);
    details, gross, deductions, bonuses := AddAdjustments(adjustments, details, gross0, deductions);
  }

  /** calculateEmployeeEntry: the running totals end as the sums of the details written. */
  method CalculateEmployeeEntry(e: Employee, c: Cadre, s: Schemes, adjustments: seq<Adjustment>)
    returns (entry: Entry, t: Tax.Result)
    ensures t == TaxOf(e, c.components, s) && entry == Computed(e, c, s, adjustments)
    ensures Adds(entry.details, entry.gross, entry.deductions, entry.bonuses)
    ensures entry.net == entry.gross + entry.bonuses - entry.deductions
    ensures entry.employerCost == Total(entry.details, EmployerCost)
  {
    var gross, basic, housing, transport, details := Classify(c.components);
    var deductions, bonuses;
    details, deductions := ApplyRules(c.rules, gross, basic, details);
    t := Tax.Calculate(Tax.Unbounded,
      Tax.Input(basic, housing, transport, gross, e.annualRent, s.pension, s.nhf, s.nsitf, s.paye));
    details, gross, deductions, bonuses := WriteDetails(e, c, t, adjustments, details, gross, deductions);
    entry := Entry(e.id, gross, deductions, bonuses, gross + bonuses - deductions,
                   t.employerPension, t.nsitf, t.totalEmployerCosts, gross + t.totalEmployerCosts, details);
    StatutoryDetailsAddUp(e, c, s, adjustments);
  }

  method AddStatutory(t: Tax.Result, start: seq<Detail>, gross: int, before: int)
    returns (details: seq<Detail>, deductions: int)
    requires Adds(start, gross, before, 0)
    ensures details == start + StatutoryDetails(t) && Adds(details, gross, deductions, 0)
  {
    details, deductions := AddIfPositive(start, Detail(Statutory, PAYE, t.paye), gross, before);
    details, deductions := AddIfPositive(details, Detail(Statutory, EMPLOYEE_PENSION, t.employeePension), gross, deductions);
    details, deductions := AddIfPositive(details, Detail(Statutory, NHF, t.nhf), gross, deductions);
  }

  method AddEmployerCosts(t: Tax.Result, start: seq<Detail>, gross: int, before: int)
    returns (details: seq<Detail>, deductions: int)
    requires Adds(start, gross, before, 0)
    ensures details == start + EmployerDetails(t) && Adds(details, gross, deductions, 0)
  {
    details, deductions :=
      AddIfPositive(start, Detail(EmployerCost, "Pension (Employer 10%)", t.employerPension), gross, before);
    details, deductions := AddIfPositive(details, Detail(EmployerCost, "NSITF (Employer 1%)", t.nsitf), gross, deductions);
  }

  lemma TotalConcat(a: seq<Detail>, b: seq<Detail>, k: Kind)
    ensures Total(a + b, k) == Total(a, k) + Total(b, k)
  {
    SumConcat(a, b, OfKind(k));
  }

  lemma {:induction false} TotalOfOthers(details: seq<Detail>, k: Kind)
    requires forall d | d in details :: d.kind != k
    ensures Total(details, k) == 0
  {
    if details != [] {
      TotalOfOthers(details[..|details| - 1], k);
    }
  }

  lemma {:induction false} LoanDetailsAreDeductions(loans: seq<Loans.Loan>)
    ensures forall d | d in LoanDetails(loans) :: d.kind == Deduction
  {
    if loans != [] {
      LoanDetailsAreDeductions(loans[..|loans| - 1]);
    }
  }

  lemma DetailParts(e: Employee, c: Cadre, t: Tax.Result, adjustments: seq<Adjustment>, k: Kind)
    ensures Total(DetailsWith(e, c, t, adjustments), k)
            == Total(Earnings(c.components), k) + Total(RuleDetails(c.rules, BaseGross(c.components), BasicPay(c.components)), k)
             + Total(StatutoryDetails(t), k) + Total(EmployerDetails(t), k)
             + Total(RepaymentsOf(e), k) + Total(AdjustmentDetails(adjustments), k)
  {
    var a := Earnings(c.components);
    var b := RuleDetails(c.rules, BaseGross(c.components), BasicPay(c.components));
    TotalConcat(a, b, k);
    TotalConcat(a + b, StatutoryDetails(t), k);
    TotalConcat(a + b + StatutoryDetails(t), EmployerDetails(t), k);
    TotalConcat(a + b + StatutoryDetails(t) + EmployerDetails(t), RepaymentsOf(e), k);
    TotalConcat(a + b + StatutoryDetails(t) + EmployerDetails(t) + RepaymentsOf(e), AdjustmentDetails(adjustments), k);
  }

  lemma EarningsAreEarnings(cs: seq<Component>, k: Kind)
    requires !k.Earning?
    ensures Total(Earnings(cs), k) == 0
  {
    TotalOfOthers(Earnings(cs), k);
  }

  lemma RulesAreDeductions(rules: seq<Rule>, gross: int, basic: int, k: Kind)
    requires !k.Deduction?
    ensures Total(RuleDetails(rules, gross, basic), k) == 0
  {
    TotalOfOthers(RuleDetails(rules, gross, basic), k);
  }

  lemma RepaymentsAreDeductions(e: Employee, k: Kind)
    requires !k.Deduction?
    ensures Total(RepaymentsOf(e), k) == 0
  {
    if e.loans.Some? {
      LoanDetailsAreDeductions(e.loans.value);
    }
    TotalOfOthers(RepaymentsOf(e), k);
  }

  /** Statutory and employer details come only from the statutory calculation. */
  lemma OnlyStatutoryParts(e: Employee, c: Cadre, t: Tax.Result, adjustments: seq<Adjustment>, k: Kind)
    requires k.Statutory? || k.EmployerCost?
    ensures Total(DetailsWith(e, c, t, adjustments), k) == Total(StatutoryDetails(t), k) + Total(EmployerDetails(t), k)
  {
    DetailParts(e, c, t, adjustments, k);
    EarningsAreEarnings(c.components, k);
    RulesAreDeductions(c.rules, BaseGross(c.components), BasicPay(c.components), k);
    RepaymentsAreDeductions(e, k);
    TotalOfOthers(AdjustmentDetails(adjustments), k);
  }

  lemma TotalIfPositive(d: Detail, k: Kind)
    requires d.amount >= 0
    ensures Total(IfPositive(d), k) == if d.kind == k then d.amount else 0
  {
    TotalAppend([], d, k);
    assert [] + [d] == [d];
  }

  lemma EmployerTotal(t: Tax.Result)
    requires t.employerPension >= 0 && t.nsitf >= 0
    ensures Total(EmployerDetails(t), EmployerCost) == t.employerPension + t.nsitf
    ensures Total(EmployerDetails(t), Statutory) == 0
  {
    var p := Detail(EmployerCost, "Pension (Employer 10%)", t.employerPension);
    var n := Detail(EmployerCost, "NSITF (Employer 1%)", t.nsitf);
    TotalConcat(IfPositive(p), IfPositive(n), EmployerCost);
    TotalIfPositive(p, EmployerCost);
    TotalIfPositive(n, EmployerCost);
    TotalOfOthers(EmployerDetails(t), Statutory);
  }

  lemma StatutoryTotal(t: Tax.Result)
    requires t.paye >= 0 && t.employeePension >= 0 && t.nhf >= 0
    ensures Total(StatutoryDetails(t), Statutory) == t.paye + t.employeePension + t.nhf
    ensures Total(StatutoryDetails(t), EmployerCost) == 0
  {
    var p, q := Detail(Statutory, PAYE, t.paye), Detail(Statutory, EMPLOYEE_PENSION, t.employeePension);
    var n := Detail(Statutory, NHF, t.nhf);
    TotalConcat(IfPositive(p), IfPositive(q), Statutory);
    TotalConcat(IfPositive(p) + IfPositive(q), IfPositive(n), Statutory);
    TotalIfPositive(p, Statutory);
    TotalIfPositive(q, Statutory);
    TotalIfPositive(n, Statutory);
    TotalOfOthers(StatutoryDetails(t), EmployerCost);
  }

  /** The employer details of an entry are exactly the employer's costs, and its statutory details
      exactly the employee's statutory deductions. */
  lemma StatutoryDetailsAddUp(e: Employee, c: Cadre, s: Schemes, adjustments: seq<Adjustment>)
    ensures var t := TaxOf(e, c.components, s);
            && Total(DetailsOf(e, c, s, adjustments), EmployerCost) == t.totalEmployerCosts
            && Total(DetailsOf(e, c, s, adjustments), Statutory) == t.totalEmployeeDeductions
  {
    var t := TaxOf(e, c.components, s);
    Tax.EmployerCostsAreTheirParts(TaxInput(e, c.components, s));
    OnlyStatutoryParts(e, c, t, adjustments, EmployerCost);
    OnlyStatutoryParts(e, c, t, adjustments, Statutory);
    EmployerTotal(t);
    StatutoryTotal(t);
  }

  // ---- the pension base ----

  predicate NonNegativeAmounts(cs: seq<Component>) { forall i | 0 <= i < |cs| :: cs[i].amount >= 0 }

  lemma {:induction false} TaggedWithinGross(cs: seq<Component>)
    requires NonNegativeAmounts(cs)
    ensures LastOf(cs, Basic) >= 0 && LastOf(cs, Housing) >= 0 && LastOf(cs, Transport) >= 0
    ensures LastOf(cs, Basic) + LastOf(cs, Housing) + LastOf(cs, Transport) <= BaseGross(cs)
  {
    if cs != [] {
      TaggedWithinGross(cs[..|cs| - 1]);
    }
  }

  /** The component whose amount counts for its type: none of that type follows. */
  predicate IsLast(cs: seq<Component>, kind: ComponentType, k: nat)
  {
    k < |cs| && cs[k].kind == kind && forall j | k < j < |cs| :: cs[j].kind != kind
  }

  lemma {:induction false} LastIsItsAmount(cs: seq<Component>, kind: ComponentType, k: nat)
    requires IsLast(cs, kind, k)
    ensures LastOf(cs, kind) == cs[k].amount
  {
    if k < |cs| - 1 {
      LastIsItsAmount(cs[..|cs| - 1], kind, k);
    }
  }

  /** A component that counts neither as housing nor as transport can be counted beside them. */
  lemma {:induction false} PickedWithinGross(cs: seq<Component>, k: nat)
    requires NonNegativeAmounts(cs) && k < |cs| && !IsLast(cs, Housing, k) && !IsLast(cs, Transport, k)
    ensures cs[k].amount + LastOf(cs, Housing) + LastOf(cs, Transport) <= BaseGross(cs)
  {
    var n := |cs| - 1;
    var front := cs[..n];
    TaggedWithinGross(front);
    if k < n {
      assert front[k] == cs[k];
      if IsLast(front, Housing, k) {
        LastIsItsAmount(front, Housing, k);
      } else if IsLast(front, Transport, k) {
        LastIsItsAmount(front, Transport, k);
      } else {
        PickedWithinGross(front, k);
      }
    }
  }

  /** The name fallback takes the very component that counts as housing or as transport. */
  predicate TakesCounted(cs: seq<Component>)
  {
    && LastOf(cs, Basic) == 0
    && (IsLast(cs, Housing, FirstNamed(cs)) || IsLast(cs, Transport, FirstNamed(cs)))
  }

  /** Any component counted twice is no larger than what is counted not at all. */
  predicate MadeUpFor(cs: seq<Component>)
  {
    TakesCounted(cs) ==>
      cs[FirstNamed(cs)].amount <= BaseGross(cs) - LastOf(cs, Housing) - LastOf(cs, Transport)
  }

  lemma BasicPayIsNonNegative(cs: seq<Component>)
    requires NonNegativeAmounts(cs)
    ensures BasicPay(cs) >= 0
  {
    TaggedWithinGross(cs);
  }

  /** The pension base is within gross pay if and only if the name fallback takes no component that is
      already counted, or the components that count for nothing make up for it. */
  lemma PensionBaseWithinGrossIff(cs: seq<Component>)
    requires NonNegativeAmounts(cs)
    ensures BasicPay(cs) + LastOf(cs, Housing) + LastOf(cs, Transport) <= BaseGross(cs) <==> MadeUpFor(cs)
  {
    TaggedWithinGross(cs);
    if LastOf(cs, Basic) == 0 && FirstNamed(cs) < |cs| && !TakesCounted(cs) {
      PickedWithinGross(cs, FirstNamed(cs));
    }
  }

  /** Then the statutory deductions of a payslip never exceed 32.875 % of the earnings before
      adjustments. */
  lemma StatutoryDeductionsAreCapped(e: Employee, c: Cadre, s: Schemes, adjustments: seq<Adjustment>)
    requires NonNegativeAmounts(c.components) && MadeUpFor(c.components) && e.annualRent >= 0
    ensures 0 <= 4000 * Total(DetailsOf(e, c, s, adjustments), Statutory) <= 1315 * BaseGross(c.components)
  {
    TaggedWithinGross(c.components);
    BasicPayIsNonNegative(c.components);
    PensionBaseWithinGrossIff(c.components);
    Tax.StatutoryCap(TaxInput(e, c.components, s));
    StatutoryDetailsAddUp(e, c, s, adjustments);
  }

  /** A single component called Basic and tagged as housing counts twice in the pension base. */
  lemma FallbackCountsTwice()
    ensures var cs := [Component("Basic", 100_000, Housing)];
            !MadeUpFor(cs) && BasicPay(cs) + LastOf(cs, Housing) + LastOf(cs, Transport) == 2 * BaseGross(cs)
  {
  }

  // ---- the run ----

  datatype PayRun = PayRun(
    gross: int, deductions: int, net: int, employerCosts: int, costToCompany: int, entries: seq<Entry>)

  predicate Payable(e: Employee) { e.active && e.cadre.Some? && e.cadre.value.components != [] }

  /** The entries of a run: one for each active employee whose cadre has earning components. */
  function EntriesOf(staff: seq<Employee>, s: Schemes, adjustments: nat -> seq<Adjustment>): seq<Entry>
  {
    if staff == [] then []
    else
      var e := staff[|staff| - 1];
      EntriesOf(staff[..|staff| - 1], s, adjustments)
      + if Payable(e) then [Computed(e, e.cadre.value, s, adjustments(e.id))] else []
  }

  function Gross(): Entry -> int { (e: Entry) => e.gross }
  function Deductions(): Entry -> int { (e: Entry) => e.deductions }
  function Bonuses(): Entry -> int { (e: Entry) => e.bonuses }
  function Net(): Entry -> int { (e: Entry) => e.net }
  function EmployerCosts(): Entry -> int { (e: Entry) => e.employerCost }
  function CostToCompany(): Entry -> int { (e: Entry) => e.costToCompany }

  predicate RunAdds(r: PayRun)
  {
    && r.gross == Sum(r.entries, Gross()) && r.deductions == Sum(r.entries, Deductions())
    && r.net == Sum(r.entries, Net()) && r.employerCosts == Sum(r.entries, EmployerCosts())
    && r.costToCompany == r.gross + r.employerCosts
  }

  method EmptyRun() returns (r: PayRun)
    ensures r.entries == [] && RunAdds(r)
  {
    r := PayRun(0, 0, 0, 0, 0, []);
  }

  method AddEntry(r: PayRun, e: Employee, c: Cadre, s: Schemes, adjustments: seq<Adjustment>) returns (next: PayRun)
    requires RunAdds(r)
    ensures RunAdds(next) && next.entries == r.entries + [Computed(e, c, s, adjustments)]
  {
    var entry, t := CalculateEmployeeEntry(e, c, s, adjustments);
    RunAddsAppend(r, entry);
    next := PayRun(r.gross + entry.gross, r.deductions + entry.deductions, r.net + entry.net,
                   r.employerCosts + t.totalEmployerCosts,
                   r.gross + entry.gross + r.employerCosts + t.totalEmployerCosts, r.entries + [entry]);
  }

  lemma EntriesGrow(staff: seq<Employee>, i: nat, s: Schemes, adjustments: nat -> seq<Adjustment>)
    requires i < |staff|
    ensures EntriesOf(staff[..i + 1], s, adjustments) == EntriesOf(staff[..i], s, adjustments) +
      if Payable(staff[i]) then [Computed(staff[i], staff[i].cadre.value, s, adjustments(staff[i].id))] else []
  {
    assert staff[..i + 1][..i] == staff[..i];
  }

  lemma RunAddsAppend(r: PayRun, e: Entry)
    requires RunAdds(r)
    ensures RunAdds(PayRun(r.gross + e.gross, r.deductions + e.deductions, r.net + e.net, r.employerCosts + e.employerCost,
                           r.gross + e.gross + r.employerCosts + e.employerCost, r.entries + [e]))
  {
    SumAppend(r.entries, e, Gross());
    SumAppend(r.entries, e, Deductions());
    SumAppend(r.entries, e, Net());
    SumAppend(r.entries, e, EmployerCosts());
  }

  /** One round of the run's loop: an employee who cannot be paid is skipped. */
  method AddEmployee(r: PayRun, staff: seq<Employee>, i: nat, s: Schemes, adjustments: nat -> seq<Adjustment>)
    returns (next: PayRun)
    requires i < |staff| && r.entries == EntriesOf(staff[..i], s, adjustments) && RunAdds(r)
    ensures next.entries == EntriesOf(staff[..i + 1], s, adjustments) && RunAdds(next)
  {
    var e := staff[i];
    EntriesGrow(staff, i, s, adjustments);
    if e.active && e.cadre.Some? && e.cadre.value.components != [] {
      next := AddEntry(r, e, e.cadre.value, s, adjustments(e.id));
    } else {
      next := r;
    }
  }

  lemma {:induction false} NoEntriesIff(staff: seq<Employee>, s: Schemes, adjustments: nat -> seq<Adjustment>)
    ensures EntriesOf(staff, s, adjustments) == [] <==> forall i | 0 <= i < |staff| :: !Payable(staff[i])
  {
    if staff != [] {
      var n := |staff| - 1;
      NoEntriesIff(staff[..n], s, adjustments);
      assert forall i | 0 <= i < n :: staff[..n][i] == staff[i];
    }
  }

  /** CalculatePayrollRun: it fails when nobody can be paid, and otherwise totals its entries. */
  method CalculatePayrollRun(staff: seq<Employee>, s: Schemes, adjustments: nat -> seq<Adjustment>)
    returns (run: Option<PayRun>)
    ensures run.None? <==> forall i | 0 <= i < |staff| :: !Payable(staff[i])
    ensures run.Some? ==> run.value.entries == EntriesOf(staff, s, adjustments) && RunAdds(run.value)
  {
    var r := EmptyRun();
    for i := 0 to |staff|
      invariant r.entries == EntriesOf(staff[..i], s, adjustments)
      invariant RunAdds(r)
    {
      r := AddEmployee(r, staff, i, s, adjustments);
    }
    assert staff[..|staff|] == staff;
    NoEntriesIff(staff, s, adjustments);
    run := if r.entries == [] then None else Some(r);
  }

  /** The employee is active and their cadre was loaded and has earning components. */
  predicate OnPayroll(e: Employee) { e.active && e.cadre.Some? && |e.cadre.value.components| > 0 }

  /** The entries of a run are exactly those of the employees on the payroll, each with the adjustments
      made for that employee. */
  lemma {:induction false} EntriesAre(staff: seq<Employee>, s: Schemes, adjustments: nat -> seq<Adjustment>, entry: Entry)
    ensures entry in EntriesOf(staff, s, adjustments) <==>
      exists e :: e in staff && OnPayroll(e) && entry == Computed(e, e.cadre.value, s, adjustments(e.id))
  {
    if staff != [] {
      var front, e := staff[..|staff| - 1], staff[|staff| - 1];
      assert staff == front + [e];
      EntriesAre(front, s, adjustments, entry);
      if OnPayroll(e) {
        assert EntriesOf(staff, s, adjustments) == EntriesOf(front, s, adjustments) + [Computed(e, e.cadre.value, s, adjustments(e.id))];
      } else {
        assert EntriesOf(staff, s, adjustments) == EntriesOf(front, s, adjustments);
      }
    }
  }

  lemma {:induction false} EntriesBalance(staff: seq<Employee>, s: Schemes, adjustments: nat -> seq<Adjustment>)
    ensures forall e | e in EntriesOf(staff, s, adjustments) ::
      e.net == e.gross + e.bonuses - e.deductions && e.costToCompany == e.gross + e.employerCost
  {
    if staff != [] {
      EntriesBalance(staff[..|staff| - 1], s, adjustments);
    }
  }

  lemma {:induction false} SumsBalance(entries: seq<Entry>)
    requires forall e | e in entries :: e.net == e.gross + e.bonuses - e.deductions && e.costToCompany == e.gross + e.employerCost
    ensures Sum(entries, Net()) == Sum(entries, Gross()) + Sum(entries, Bonuses()) - Sum(entries, Deductions())
    ensures Sum(entries, CostToCompany()) == Sum(entries, Gross()) + Sum(entries, EmployerCosts())
  {
    if entries != [] {
      SumsBalance(entries[..|entries| - 1]);
    }
  }

  /** A calculated run balances: it pays out what it grosses plus bonuses less deductions, and its
      cost to the company is the sum of what its entries cost. */
  lemma RunBalances(staff: seq<Employee>, s: Schemes, adjustments: nat -> seq<Adjustment>, r: PayRun)
    requires r.entries == EntriesOf(staff, s, adjustments) && RunAdds(r)
    ensures r.net == r.gross + Sum(r.entries, Bonuses()) - r.deductions
    ensures r.costToCompany == Sum(r.entries, CostToCompany())
  {
    EntriesBalance(staff, s, adjustments);
    SumsBalance(r.entries);
  }

  lemma {:induction false} EntryOrigin(staff: seq<Employee>, s: Schemes, adjustments: nat -> seq<Adjustment>, entry: Entry)
    requires entry in EntriesOf(staff, s, adjustments)
    ensures exists e :: e in staff && Payable(e) && e.id == entry.employee
  {
    var n := |staff| - 1;
    if entry in EntriesOf(staff[..n], s, adjustments) {
      EntryOrigin(staff[..n], s, adjustments, entry);
    } else {
      assert staff[n] in staff && Payable(staff[n]) && staff[n].id == entry.employee;
    }
  }

  /** A run holds at most one entry for each employee. */
  lemma {:induction false} OneEntryPerEmployee(staff: seq<Employee>, s: Schemes, adjustments: nat -> seq<Adjustment>)
    requires forall i, j | 0 <= i < j < |staff| :: staff[i].id != staff[j].id
    ensures var entries := EntriesOf(staff, s, adjustments);
            forall i, j | 0 <= i < j < |entries| :: entries[i].employee != entries[j].employee
  {
    if staff != [] {
      var n := |staff| - 1;
      var earlier := EntriesOf(staff[..n], s, adjustments);
      OneEntryPerEmployee(staff[..n], s, adjustments);
      forall i | 0 <= i < |earlier| ensures earlier[i].employee != staff[n].id {
        EntryOrigin(staff[..n], s, adjustments, earlier[i]);
      }
    }
  }

  // ---- loans on the payslip ----

  /** The loans an employee's calculation loads. */
  function ActiveLoans(rows: seq<Loans.Loan>, employee: nat): seq<Loans.Loan>
  {
    if rows == [] then []
    else
      ActiveLoans(rows[..|rows| - 1], employee)
      + if Loans.Owes(rows[|rows| - 1], employee) then [rows[|rows| - 1]] else []
  }

  /** The loan details of a payslip sum to what the payroll run will take from those loans. */
  lemma {:induction false} LoanDetailsAreDue(rows: seq<Loans.Loan>, employee: nat)
    ensures Total(LoanDetails(ActiveLoans(rows, employee)), Deduction) == Loans.Due(rows, employee)
  {
    if rows != [] {
      var n := |rows| - 1;
      var l := rows[n];
      var earlier := ActiveLoans(rows[..n], employee);
      LoanDetailsAreDue(rows[..n], employee);
      if Loans.Owes(l, employee) {
        assert (earlier + [l])[..|earlier|] == earlier;
        if l.remaining > 0 {
          TotalAppend(LoanDetails(earlier), Detail(Deduction, LOAN_REPAYMENT, Loans.Instalment(l)), Deduction);
        } else {
          assert LoanDetails(earlier + [l]) == LoanDetails(earlier);
        }
      } else {
        assert ActiveLoans(rows, employee) == earlier;
      }
    }
  }

  // ---- loans on the payslips of a run ----

  /** A detail that shows as a loan repayment. */
  predicate ShowsLoan(d: Detail) { d.kind.Deduction? && LOAN_REPAYMENT <= d.name }

  function LoanAmount(): Detail -> int { (d: Detail) => if ShowsLoan(d) then d.amount else 0 }

  /** What a payslip shows as loan repayments. */
  function LoansShown(): Entry -> int { (e: Entry) => Sum(e.details, LoanAmount()) }

  /** No rule or adjustment is named like a loan repayment. */
  predicate NoFalseLoans(c: Cadre, adjustments: seq<Adjustment>)
  {
    && (forall i | 0 <= i < |c.rules| :: !(LOAN_REPAYMENT <= c.rules[i].name))
    && (forall i | 0 <= i < |adjustments| :: !(LOAN_REPAYMENT <= adjustments[i].name))
  }

  lemma {:induction false} NoLoansShown(details: seq<Detail>)
    requires forall d | d in details :: !ShowsLoan(d)
    ensures Sum(details, LoanAmount()) == 0
  {
    if details != [] {
      NoLoansShown(details[..|details| - 1]);
    }
  }

  lemma {:induction false} LoanDetailsShow(loans: seq<Loans.Loan>)
    ensures Sum(LoanDetails(loans), LoanAmount()) == Total(LoanDetails(loans), Deduction)
  {
    if loans != [] {
      var n := |loans| - 1;
      LoanDetailsShow(loans[..n]);
      var before := LoanDetails(loans[..n]);
      if loans[n].remaining > 0 {
        var d := Detail(Deduction, LOAN_REPAYMENT, Loans.Instalment(loans[n]));
        assert LoanDetails(loans) == before + [d];
        SumAppend(before, d, LoanAmount());
        TotalAppend(before, d, Deduction);
      } else {
        assert LoanDetails(loans) == before;
      }
    }
  }

  lemma OnlyDeductionsShow(details: seq<Detail>)
    requires forall i | 0 <= i < |details| :: !details[i].kind.Deduction?
    ensures Sum(details, LoanAmount()) == 0
  {
    NoLoansShown(details);
  }

  lemma OtherDetailsShowNoLoan(c: Cadre, t: Tax.Result, adjustments: seq<Adjustment>)
    requires NoFalseLoans(c, adjustments)
    ensures Sum(Earnings(c.components), LoanAmount()) == 0
    ensures Sum(RuleDetails(c.rules, BaseGross(c.components), BasicPay(c.components)), LoanAmount()) == 0
    ensures Sum(StatutoryDetails(t), LoanAmount()) == 0 && Sum(EmployerDetails(t), LoanAmount()) == 0
    ensures Sum(AdjustmentDetails(adjustments), LoanAmount()) == 0
  {
    EarningsShowNoLoan(c.components);
    StatutoryShowsNoLoan(t);
    EmployerShowsNoLoan(t);
    RulesShowNoLoan(c.rules, BaseGross(c.components), BasicPay(c.components));
    AdjustmentsShowNoLoan(adjustments);
  }

  lemma EarningsShowNoLoan(cs: seq<Component>)
    ensures Sum(Earnings(cs), LoanAmount()) == 0
  {
    OnlyDeductionsShow(Earnings(cs));
  }

  lemma PositiveShowNoLoan(a: Detail, b: Detail, c: Detail)
    requires !a.kind.Deduction? && !b.kind.Deduction? && !c.kind.Deduction?
    ensures Sum(IfPositive(a) + IfPositive(b), LoanAmount()) == 0
    ensures Sum(IfPositive(a) + IfPositive(b) + IfPositive(c), LoanAmount()) == 0
  {
    OnlyDeductionsShow(IfPositive(a) + IfPositive(b));
    OnlyDeductionsShow(IfPositive(a) + IfPositive(b) + IfPositive(c));
  }

  lemma StatutoryShowsNoLoan(t: Tax.Result)
    ensures Sum(StatutoryDetails(t), LoanAmount()) == 0
  {
    PositiveShowNoLoan(Detail(Statutory, PAYE, t.paye), Detail(Statutory, EMPLOYEE_PENSION, t.employeePension), Detail(Statutory, NHF, t.nhf));
  }

  lemma EmployerShowsNoLoan(t: Tax.Result)
    ensures Sum(EmployerDetails(t), LoanAmount()) == 0
  {
    var a, b := Detail(EmployerCost, "Pension (Employer 10%)", t.employerPension), Detail(EmployerCost, "NSITF (Employer 1%)", t.nsitf);
    PositiveShowNoLoan(a, b, b);
  }

  lemma RulesShowNoLoan(rules: seq<Rule>, gross: int, basic: int)
    requires forall i | 0 <= i < |rules| :: !(LOAN_REPAYMENT <= rules[i].name)
    ensures Sum(RuleDetails(rules, gross, basic), LoanAmount()) == 0
  {
    NoLoansShown(RuleDetails(rules, gross, basic));
  }

  lemma AdjustmentsShowNoLoan(adjustments: seq<Adjustment>)
    requires forall i | 0 <= i < |adjustments| :: !(LOAN_REPAYMENT <= adjustments[i].name)
    ensures Sum(AdjustmentDetails(adjustments), LoanAmount()) == 0
  {
    NoLoansShown(AdjustmentDetails(adjustments));
  }

  /** A payslip calculated with the loans in `rows` shows exactly what they are due. */
  lemma PayslipShowsDue(e: Employee, c: Cadre, t: Tax.Result, adjustments: seq<Adjustment>, rows: seq<Loans.Loan>)
    requires NoFalseLoans(c, adjustments) && e.loans == Some(ActiveLoans(rows, e.id))
    ensures Sum(DetailsWith(e, c, t, adjustments), LoanAmount()) == Loans.Due(rows, e.id)
  {
    var a := Earnings(c.components);
    var b := RuleDetails(c.rules, BaseGross(c.components), BasicPay(c.components));
    SumConcat(a, b, LoanAmount());
    SumConcat(a + b, StatutoryDetails(t), LoanAmount());
    SumConcat(a + b + StatutoryDetails(t), EmployerDetails(t), LoanAmount());
    SumConcat(a + b + StatutoryDetails(t) + EmployerDetails(t), RepaymentsOf(e), LoanAmount());
    SumConcat(a + b + StatutoryDetails(t) + EmployerDetails(t) + RepaymentsOf(e), AdjustmentDetails(adjustments), LoanAmount());
    OtherDetailsShowNoLoan(c, t, adjustments);
    LoanDetailsShow(ActiveLoans(rows, e.id));
    LoanDetailsAreDue(rows, e.id);
  }

  /** The entries of a run as its loan update sees them: every entry carries its employee. */
  function LoanEntriesOf(entries: seq<Entry>): seq<Loans.Entry>
  {
    seq(|entries|, i requires 0 <= i < |entries| => Loans.Entry(entries[i].employee, true))
  }

  /** The staff was loaded with the loans in `rows`. */
  predicate LoadedFrom(staff: seq<Employee>, rows: seq<Loans.Loan>, adjustments: nat -> seq<Adjustment>)
  {
    forall i | 0 <= i < |staff| && Payable(staff[i]) ::
      staff[i].loans == Some(ActiveLoans(rows, staff[i].id)) && NoFalseLoans(staff[i].cadre.value, adjustments(staff[i].id))
  }

  lemma {:induction false} EntriesShowDue(
      staff: seq<Employee>, s: Schemes, adjustments: nat -> seq<Adjustment>, rows: seq<Loans.Loan>)
    requires LoadedFrom(staff, rows, adjustments)
    ensures var entries := EntriesOf(staff, s, adjustments);
            Sum(entries, LoansShown()) == Sum(LoanEntriesOf(entries), Loans.DueOf(rows))
  {
    if staff != [] {
      var n := |staff| - 1;
      var e := staff[n];
      assert LoadedFrom(staff[..n], rows, adjustments) by {
        assert forall i | 0 <= i < n :: staff[..n][i] == staff[i];
      }
      EntriesShowDue(staff[..n], s, adjustments, rows);
      var before := EntriesOf(staff[..n], s, adjustments);
      if Payable(e) {
        var c, adj := e.cadre.value, adjustments(e.id);
        PayslipShowsDue(e, c, TaxOf(e, c.components, s), adj, rows);
        AnotherShown(before, Computed(e, c, s, adj), rows);
      } else {
        assert EntriesOf(staff, s, adjustments) == before;
      }
    }
  }

  lemma DueGrows(before: seq<Entry>, entry: Entry, rows: seq<Loans.Loan>)
    ensures Sum(LoanEntriesOf(before + [entry]), Loans.DueOf(rows))
         == Sum(LoanEntriesOf(before), Loans.DueOf(rows)) + Loans.Due(rows, entry.employee)
  {
    var e := Loans.Entry(entry.employee, true);
    assert LoanEntriesOf(before + [entry]) == LoanEntriesOf(before) + [e];
    SumAppend(LoanEntriesOf(before), e, Loans.DueOf(rows));
  }

  lemma AnotherShown(before: seq<Entry>, entry: Entry, rows: seq<Loans.Loan>)
    requires Sum(before, LoansShown()) == Sum(LoanEntriesOf(before), Loans.DueOf(rows))
    requires LoansShown()(entry) == Loans.Due(rows, entry.employee)
    ensures Sum(before + [entry], LoansShown()) == Sum(LoanEntriesOf(before + [entry]), Loans.DueOf(rows))
  {
    SumAppend(before, entry, LoansShown());
    DueGrows(before, entry, rows);
  }

  /** When the loans are still as they were at the calculation, what the payslips of a run show as
      loan repayments is what the run's loan update takes off the balances. */
  lemma PayslipLoansMatchTheRun(staff: seq<Employee>, s: Schemes, adjustments: nat -> seq<Adjustment>, rows: seq<Loans.Loan>)
    requires LoadedFrom(staff, rows, adjustments)
    requires forall i, j | 0 <= i < j < |staff| :: staff[i].id != staff[j].id
    ensures var entries := EntriesOf(staff, s, adjustments);
            var after := Loans.AfterEntries(rows, LoanEntriesOf(entries), |entries|, Loans.NO_FAULTS);
            Sum(entries, LoansShown()) == Sum(rows, Loans.Remaining()) - Sum(after, Loans.Remaining())
  {
    var entries := EntriesOf(staff, s, adjustments);
    EntriesShowDue(staff, s, adjustments, rows);
    OneEntryPerEmployee(staff, s, adjustments);
    Loans.DetailsSumToDrop(rows, LoanEntriesOf(entries), |entries|);
    assert LoanEntriesOf(entries)[..|entries|] == LoanEntriesOf(entries);
  }
}

/** Nigerian statutory deductions: the 2026 PAYE brackets, pension, NHF and NSITF, in integer kobo.
    Every function takes the width its arithmetic is done in, so that the int64 of the code and
    the mathematical integers are two instances of one definition. */
module Tax {
  import opened Common

  datatype Width = Unbounded | Int64

  const MIN_INT64 := -0x8000_0000_0000_0000
  const MAX_INT64 := 0x7fff_ffff_ffff_ffff

  /** Two's-complement wrap-around to 64 bits. */
  function Wrap(x: int): int { (x + 0x8000_0000_0000_0000) % 0x1_0000_0000_0000_0000 - 0x8000_0000_0000_0000 }

  predicate InRange(w: Width, x: int) { w.Int64? ==> MIN_INT64 <= x <= MAX_INT64 }

  /** The value an operation leaves in a variable of the given width. */
  function Fit(w: Width, x: int): int { if InRange(w, x) then x else Wrap(x) }

  /** Division truncated toward zero. */
  function Quot(a: int, b: int): int
    requires b > 0
  {
    if a >= 0 then a / b else -((-a) / b)
  }

  /** A band of income up to a cumulative ceiling (0: no ceiling), taxed at a percentage. */
  datatype Bracket = Bracket(ceiling: int, rate: int)

  const BRACKETS: seq<Bracket> := [
    Bracket(80_000_000, 0),
    Bracket(300_000_000, 15),
    Bracket(1_200_000_000, 18),
    Bracket(2_500_000_000, 21),
    Bracket(5_000_000_000, 23),
    Bracket(0, 25)]

  const MINIMUM_WAGE_MONTHLY := 7_000_000
  const MAX_RENT_RELIEF := 50_000_000

  function TaxableInBracket(w: Width, taxable: int, b: Bracket, prevCeiling: int): int
  {
    if b.ceiling == 0 then Fit(w, taxable - prevCeiling)
    else if taxable > b.ceiling then Fit(w, b.ceiling - prevCeiling)
    else Fit(w, taxable - prevCeiling)
  }

  /** The tax charged in one bracket. */
  function BracketPart(w: Width, taxable: int, b: Bracket, prevCeiling: int): int
  {
    Quot(Fit(w, TaxableInBracket(w, taxable, b, prevCeiling) * b.rate), 100)
  }

  /** The bracket loop over the brackets still to come. */
  function BracketsFrom(w: Width, taxable: int, rest: seq<Bracket>, tax: int, prevCeiling: int): int
  {
    if rest == [] || taxable <= prevCeiling then tax
    else
      BracketsFrom(w, taxable, rest[1..], Fit(w, tax + BracketPart(w, taxable, rest[0], prevCeiling)), rest[0].ceiling)
  }

  function BracketTax(w: Width, taxable: int): int { BracketsFrom(w, taxable, BRACKETS, 0, 0) }

  method ApplyBrackets(w: Width, taxable: int) returns (tax: int)
    requires InRange(w, taxable)
    ensures tax == BracketTax(w, taxable)
    ensures tax == ClosedForm(taxable) <==> w.Unbounded? || taxable <= EXACT_LIMIT
  {
    tax := BracketLoop(w, taxable);
    BracketTaxIsClosedForm(w, taxable);
  }

  /** The loop itself. */
  method BracketLoop(w: Width, taxable: int) returns (tax: int)
    ensures tax == BracketTax(w, taxable)
  {
    tax := 0;
    var prevCeiling := 0;
    var i := 0;
    ghost var total := BracketTax(w, taxable);
    while i < |BRACKETS|
      invariant 0 <= i <= |BRACKETS|
      invariant BracketsFrom(w, taxable, BRACKETS[i..], tax, prevCeiling) == total
    {
      if taxable <= prevCeiling {
        break;
      }
      var b := BRACKETS[i];
      assert BRACKETS[i..][1..] == BRACKETS[i + 1..];
      var inBracket := BracketShare(w, taxable, b, prevCeiling);
      tax := Fit(w, tax + Quot(Fit(w, inBracket * b.rate), 100));
      prevCeiling := b.ceiling;
      i := i + 1;
    }
  }

  method BracketShare(w: Width, taxable: int, b: Bracket, prevCeiling: int) returns (inBracket: int)
    ensures inBracket == TaxableInBracket(w, taxable, b, prevCeiling)
  {
    if b.ceiling == 0 {
      inBracket := Fit(w, taxable - prevCeiling);
    } else if taxable > b.ceiling {
      inBracket := Fit(w, b.ceiling - prevCeiling);
    } else {
      inBracket := Fit(w, taxable - prevCeiling);
    }
  }

  /** A straight line: a rate, and what it is lowered by. */
  datatype Line = Line(rate: int, cost: int)

  /** The lines whose maximum, never below zero, is a hundred times the exact tax. */
  const LINES: seq<Line> := [
    Line(15, 1_200_000_000),
    Line(18, 2_100_000_000),
    Line(21, 5_700_000_000),
    Line(23, 10_700_000_000),
    Line(25, 20_700_000_000)]

  function Height(l: Line, t: int): int { l.rate * t - l.cost }

  function Highest(lines: seq<Line>, t: int): int
  {
    if lines == [] then 0 else Max(Highest(lines[..|lines| - 1], t), Height(lines[|lines| - 1], t))
  }

  function Numerator(t: int): int { Highest(LINES, t) }

  /** The floor of the exact tax: what the loop computes although it rounds in every bracket. */
  function ClosedForm(t: int): int { Numerator(t) / 100 }

  /** The largest income whose top-bracket product still fits in 64 bits. */
  const EXACT_LIMIT := 5_000_000_000 + MAX_INT64 / 25

  /** One round of the loop whose arithmetic fits: `part` kobo of income, `product` hundredths of tax. */
  lemma Round(w: Width, t: int, i: nat, tax: int, prev: int, part: int, product: int)
    requires i < |BRACKETS| && t > prev
    requires part == TaxableInBracket(Unbounded, t, BRACKETS[i], prev) && product == part * BRACKETS[i].rate
    requires 0 <= tax <= 5_000_000_000 && 0 <= part <= MAX_INT64 && 0 <= product <= MAX_INT64
    ensures BracketsFrom(w, t, BRACKETS[i..], tax, prev)
         == BracketsFrom(w, t, BRACKETS[i + 1..], tax + product / 100, BRACKETS[i].ceiling)
  {
    assert BRACKETS[i..][1..] == BRACKETS[i + 1..];
  }

  lemma Exempt(w: Width, t: int)
    requires t <= 80_000_000
    requires InRange(w, t)
    ensures BracketTax(w, t) == 0
  {
    if t > 0 {
      assert BRACKETS[0..] == BRACKETS;
      Round(w, t, 0, 0, 0, t, 0);
      assert BracketsFrom(w, t, BRACKETS[1..], 0, 80_000_000) == 0;
    }
  }

  lemma ReachSecond(w: Width, t: int)
    requires t > 80_000_000
    ensures BracketTax(w, t) == BracketsFrom(w, t, BRACKETS[1..], 0, 80_000_000)
  {
    assert BRACKETS[0..] == BRACKETS;
    Round(w, t, 0, 0, 0, 80_000_000, 0);
  }

  lemma ReachThird(w: Width, t: int)
    requires t > 300_000_000
    ensures BracketTax(w, t) == BracketsFrom(w, t, BRACKETS[2..], 33_000_000, 300_000_000)
  {
    ReachSecond(w, t);
    Round(w, t, 1, 0, 80_000_000, 220_000_000, 3_300_000_000);
  }

  lemma ReachFourth(w: Width, t: int)
    requires t > 1_200_000_000
    ensures BracketTax(w, t) == BracketsFrom(w, t, BRACKETS[3..], 195_000_000, 1_200_000_000)
  {
    ReachThird(w, t);
    Round(w, t, 2, 33_000_000, 300_000_000, 900_000_000, 16_200_000_000);
  }

  lemma ReachFifth(w: Width, t: int)
    requires t > 2_500_000_000
    ensures BracketTax(w, t) == BracketsFrom(w, t, BRACKETS[4..], 468_000_000, 2_500_000_000)
  {
    ReachFourth(w, t);
    Round(w, t, 3, 195_000_000, 1_200_000_000, 1_300_000_000, 27_300_000_000);
  }

  lemma ReachTop(w: Width, t: int)
    requires t > 5_000_000_000
    ensures BracketTax(w, t) == BracketsFrom(w, t, BRACKETS[5..], 1_043_000_000, 5_000_000_000)
  {
    ReachFifth(w, t);
    Round(w, t, 4, 468_000_000, 2_500_000_000, 2_500_000_000, 57_500_000_000);
  }

  /** The bracket the income ends in stops the loop. */
  lemma LastRound(w: Width, t: int, i: nat, tax: int, prev: int)
    requires 1 <= i < 5 && prev == BRACKETS[i - 1].ceiling < t <= BRACKETS[i].ceiling
    requires 0 <= tax <= 5_000_000_000
    ensures BracketsFrom(w, t, BRACKETS[i..], tax, prev) == tax + (t - prev) * BRACKETS[i].rate / 100
  {
    Round(w, t, i, tax, prev, t - prev, (t - prev) * BRACKETS[i].rate);
    assert BracketsFrom(w, t, BRACKETS[i + 1..], tax + (t - prev) * BRACKETS[i].rate / 100, BRACKETS[i].ceiling)
        == tax + (t - prev) * BRACKETS[i].rate / 100;
  }

  lemma NumeratorValue(t: int)
    ensures Numerator(t) == if t <= 80_000_000 then 0
                            else if t <= 300_000_000 then 15 * t - 1_200_000_000
                            else if t <= 1_200_000_000 then 18 * t - 2_100_000_000
                            else if t <= 2_500_000_000 then 21 * t - 5_700_000_000
                            else if t <= 5_000_000_000 then 23 * t - 10_700_000_000
                            else 25 * t - 20_700_000_000
  {
    var l := LINES;
    assert Highest(l[..0], t) == 0;
    assert l[..1][..0] == l[..0] && Highest(l[..1], t) == Max(0, 15 * t - 1_200_000_000);
    assert l[..2][..1] == l[..1] && Highest(l[..2], t) == Max(Highest(l[..1], t), 18 * t - 2_100_000_000);
    assert l[..3][..2] == l[..2] && Highest(l[..3], t) == Max(Highest(l[..2], t), 21 * t - 5_700_000_000);
    assert l[..4][..3] == l[..3] && Highest(l[..4], t) == Max(Highest(l[..3], t), 23 * t - 10_700_000_000);
  }

  lemma LowerBrackets(w: Width, t: int)
    requires InRange(w, t) && t <= 5_000_000_000
    ensures BracketTax(w, t) == ClosedForm(t)
  {
    NumeratorValue(t);
    if t <= 80_000_000 {
      Exempt(w, t);
    } else if t <= 300_000_000 {
      ReachSecond(w, t);
      LastRound(w, t, 1, 0, 80_000_000);
    } else if t <= 1_200_000_000 {
      ReachThird(w, t);
      LastRound(w, t, 2, 33_000_000, 300_000_000);
    } else if t <= 2_500_000_000 {
      ReachFourth(w, t);
      LastRound(w, t, 3, 195_000_000, 1_200_000_000);
    } else {
      ReachFifth(w, t);
      LastRound(w, t, 4, 468_000_000, 2_500_000_000);
    }
  }

  /** The top bracket, whose product is the only one that can leave 64 bits. */
  lemma TopBracket(w: Width, t: int)
    requires InRange(w, t) && t > 5_000_000_000
    ensures BracketTax(w, t) == Fit(w, 1_043_000_000 + Quot(Fit(w, (t - 5_000_000_000) * 25), 100))
  {
    ReachTop(w, t);
    assert BRACKETS[5..][1..] == BRACKETS[6..] == [];
  }

  /** A product that leaves 64 bits comes back smaller by at least 2^64, and so does its hundredth. */
  lemma WrappedQuotientIsSmaller(p: int)
    requires p >= 0
    ensures -92_233_720_368_547_758 <= Quot(Wrap(p), 100) <= 92_233_720_368_547_758
    ensures Quot(Wrap(p), 100) == p / 100 <==> p <= MAX_INT64
  {
    if p > MAX_INT64 {
      assert Wrap(p) <= p - 0x1_0000_0000_0000_0000;
    }
  }

  /** The loop is the closed form for every integer; in 64 bits, exactly up to EXACT_LIMIT. */
  lemma BracketTaxIsClosedForm(w: Width, t: int)
    requires InRange(w, t)
    ensures BracketTax(w, t) == ClosedForm(t) <==> w.Unbounded? || t <= EXACT_LIMIT
  {
    if t <= 5_000_000_000 {
      LowerBrackets(w, t);
    } else {
      var p := (t - 5_000_000_000) * 25;
      TopBracket(w, t);
      WrappedQuotientIsSmaller(p);
      NumeratorValue(t);
      assert ClosedForm(t) == 1_043_000_000 + p / 100;
    }
  }

  /** The maximum is one of the lines or zero, written as a line of its own. */
  lemma {:induction false} OnSomeLine(lines: seq<Line>, t: int) returns (l: Line)
    ensures Highest(lines, t) == Height(l, t) && (l in lines || l == Line(0, 0))
  {
    if lines == [] {
      l := Line(0, 0);
    } else {
      l := OnSomeLine(lines[..|lines| - 1], t);
      if Height(lines[|lines| - 1], t) > Height(l, t) {
        l := lines[|lines| - 1];
      }
    }
  }

  lemma {:induction false} AboveEveryLine(lines: seq<Line>, t: int, l: Line)
    requires l in lines || l == Line(0, 0)
    ensures Highest(lines, t) >= Height(l, t)
  {
    if lines != [] {
      if l in lines[..|lines| - 1] || l == Line(0, 0) {
        AboveEveryLine(lines[..|lines| - 1], t, l);
      } else {
        assert l == lines[|lines| - 1];
      }
    }
  }

  /** A maximum of lines that start at or below zero is superadditive. */
  lemma HighestIsSuperadditive(lines: seq<Line>, a: nat, b: nat)
    requires forall l | l in lines :: l.cost >= 0
    ensures Highest(lines, a) + Highest(lines, b) <= Highest(lines, a + b)
  {
    var l := OnSomeLine(lines, a);
    var m := OnSomeLine(lines, b);
    AboveEveryLine(lines, a + b, l);
    AboveEveryLine(lines, a + b, m);
    SteeperLineCovers(l, m, a, b);
  }

  lemma SteeperLineCovers(l: Line, m: Line, a: nat, b: nat)
    requires l.cost >= 0 && m.cost >= 0
    ensures Height(l, a) + Height(m, b) <= Max(Height(l, a + b), Height(m, a + b))
  {
    if m.rate <= l.rate {
      assert m.rate * b <= l.rate * b;
      assert l.rate * (a + b) == l.rate * a + l.rate * b;
    } else {
      assert l.rate * a <= m.rate * a;
      assert m.rate * (a + b) == m.rate * a + m.rate * b;
    }
  }

  lemma LineRises(l: Line, t: int, d: nat, steepest: nat)
    requires 0 <= l.rate <= steepest
    ensures Height(l, t) <= Height(l, t + d) <= Height(l, t) + steepest * d
  {
    assert 0 <= l.rate * d <= steepest * d;
    assert l.rate * (t + d) == l.rate * t + l.rate * d;
  }

  /** It never falls, and never rises faster than its steepest line. */
  lemma {:induction false} HighestRises(lines: seq<Line>, t: int, d: nat, steepest: nat)
    requires forall l | l in lines :: 0 <= l.rate <= steepest
    ensures 0 <= Highest(lines, t) <= Highest(lines, t + d) <= Highest(lines, t) + steepest * d
  {
    if lines != [] {
      var l := lines[|lines| - 1];
      HighestRises(lines[..|lines| - 1], t, d, steepest);
      LineRises(l, t, d, steepest);
    }
  }

  /** Splitting an income never raises the tax on it, floors included. */
  lemma SplittingNeverRaisesTax(a: nat, b: nat)
    ensures BracketTax(Unbounded, a) + BracketTax(Unbounded, b) <= BracketTax(Unbounded, a + b)
  {
    BracketTaxIsClosedForm(Unbounded, a);
    BracketTaxIsClosedForm(Unbounded, b);
    BracketTaxIsClosedForm(Unbounded, a + b);
    HighestIsSuperadditive(LINES, a, b);
  }

  /** The tax is non-decreasing and its marginal rate never exceeds a quarter. */
  lemma MarginalRate(t: int, d: nat)
    ensures 0 <= ClosedForm(t) <= ClosedForm(t + d)
    ensures 0 <= Numerator(t) <= Numerator(t + d) <= Numerator(t) + 25 * d
  {
    HighestRises(LINES, t, d, 25);
  }

  datatype Paye = Paye(monthly: int, taxable: int, relief: int)

  /** A fifth of the annual rent, capped. */
  function RentRelief(w: Width, annualRent: int): int
  {
    var fifth := Quot(Fit(w, annualRent * 20), 100);
    if fifth > MAX_RENT_RELIEF then MAX_RENT_RELIEF else fifth
  }

  /** calculateMonthlyPAYE: annualise, exempt the minimum wage, deduct pension, NHF and rent relief,
      tax what is left, and take a twelfth. */
  function MonthlyPaye(w: Width, gross: int, pension: int, nhf: int, annualRent: int): Paye
  {
    if gross <= MINIMUM_WAGE_MONTHLY then Paye(0, 0, 0)
    else
      var relief := RentRelief(w, annualRent);
      var afterPension := Fit(w, Fit(w, gross * 12) - Fit(w, pension * 12));
      var taxable := Fit(w, Fit(w, afterPension - Fit(w, nhf * 12)) - relief);
      if taxable <= 0 then Paye(0, 0, relief)
      else Paye(Quot(BracketTax(w, taxable), 12), taxable, relief)
  }

  datatype Input = Input(
    basicPay: int, housingPay: int, transportPay: int, grossPay: int, annualRentPaid: int,
    pensionEnabled: bool, nhfEnabled: bool, nsitfEnabled: bool, payeEnabled: bool)

  datatype Result = Result(
    paye: int, employeePension: int, nhf: int, employerPension: int, nsitf: int,
    pensionBase: int, annualGross: int, annualTaxable: int, rentRelief: int,
    totalEmployeeDeductions: int, totalEmployerCosts: int)

  function EmployeePension(w: Width, base: int): int { Quot(Fit(w, base * 8), 100) }
  function EmployerPension(w: Width, base: int): int { Quot(Fit(w, base * 10), 100) }
  function Nhf(w: Width, basic: int): int { Quot(Fit(w, basic * 25), 1000) }
  function Nsitf(w: Width, gross: int): int { Quot(Fit(w, gross * 1), 100) }

  /** All statutory deductions of one employee for one month. */
  function Calculate(w: Width, i: Input): Result
  {
    var base := Fit(w, Fit(w, i.basicPay + i.housingPay) + i.transportPay);
    var pension := if i.pensionEnabled && base > 0 then EmployeePension(w, base) else 0;
    var employer := if i.pensionEnabled && base > 0 then EmployerPension(w, base) else 0;
    var nhf := if i.nhfEnabled && i.basicPay > 0 then Nhf(w, i.basicPay) else 0;
    var nsitf := if i.nsitfEnabled && i.grossPay > 0 then Nsitf(w, i.grossPay) else 0;
    var p := if i.payeEnabled && i.grossPay > 0
             then MonthlyPaye(w, i.grossPay, pension, nhf, i.annualRentPaid) else Paye(0, 0, 0);
    Result(p.monthly, pension, nhf, employer, nsitf, base, Fit(w, i.grossPay * 12), p.taxable, p.relief,
           Fit(w, Fit(w, pension + nhf) + p.monthly), Fit(w, employer + nsitf))
  }

  /** The monthly tax on an annual taxable income, negative incomes included. */
  function Twelfth(taxable: int): int { ClosedForm(taxable) / 12 }

  lemma PayeIsTwelfth(gross: int, pension: int, nhf: int, rent: int)
    requires gross > MINIMUM_WAGE_MONTHLY
    ensures MonthlyPaye(Unbounded, gross, pension, nhf, rent).monthly
         == Twelfth(12 * (gross - pension - nhf) - RentRelief(Unbounded, rent))
  {
    var taxable := 12 * (gross - pension - nhf) - RentRelief(Unbounded, rent);
    BracketTaxIsClosedForm(Unbounded, taxable);
    MarginalRate(taxable, 0);
    if taxable <= 0 {
      LowerBrackets(Unbounded, taxable);
    }
  }

  lemma TwelfthRises(taxable: int, d: nat)
    ensures 0 <= Twelfth(taxable) <= Twelfth(taxable + 12 * d) <= Twelfth(taxable) + (d + 3) / 4
  {
    MarginalRate(taxable, 12 * d);
    FloorsRise(Numerator(taxable), Numerator(taxable + 12 * d), d);
  }

  lemma TwelfthRisesTo(from: int, to: int, d: nat)
    requires to == from + 12 * d
    ensures 0 <= Twelfth(from) <= Twelfth(to) <= Twelfth(from) + (d + 3) / 4
  {
    TwelfthRises(from, d);
  }

  lemma FloorsRise(n: int, m: int, d: nat)
    requires 0 <= n <= m <= n + 300 * d
    ensures 0 <= n / 100 / 12 <= m / 100 / 12 <= n / 100 / 12 + (d + 3) / 4
  {
    assert m / 100 <= (n + 300 * d) / 100 == n / 100 + 3 * d;
  }

  /** Above the minimum wage a rise of d raises PAYE by at most a quarter of it, rounded up. */
  lemma PayeTakesAtMostAQuarter(gross: int, d: nat, pension: nat, nhf: nat, rent: nat)
    requires gross > MINIMUM_WAGE_MONTHLY
    ensures 0 <= MonthlyPaye(Unbounded, gross, pension, nhf, rent).monthly
              <= MonthlyPaye(Unbounded, gross + d, pension, nhf, rent).monthly
              <= MonthlyPaye(Unbounded, gross, pension, nhf, rent).monthly + (d + 3) / 4
  {
    var from := 12 * (gross - pension - nhf) - RentRelief(Unbounded, rent);
    var to := 12 * (gross + d - pension - nhf) - RentRelief(Unbounded, rent);
    var a, b := Twelfth(from), Twelfth(to);
    assert 0 <= a <= b <= a + (d + 3) / 4 by { TwelfthRisesTo(from, to, d); }
    assert MonthlyPaye(Unbounded, gross, pension, nhf, rent).monthly == a by { PayeIsTwelfth(gross, pension, nhf, rent); }
    assert MonthlyPaye(Unbounded, gross + d, pension, nhf, rent).monthly == b by { PayeIsTwelfth(gross + d, pension, nhf, rent); }
  }

  /** With pension, NHF and rent fixed, PAYE never falls when gross rises. */
  lemma PayeIsMonotone(gross: int, d: nat, pension: nat, nhf: nat, rent: nat)
    ensures 0 <= MonthlyPaye(Unbounded, gross, pension, nhf, rent).monthly
              <= MonthlyPaye(Unbounded, gross + d, pension, nhf, rent).monthly
  {
    if gross > MINIMUM_WAGE_MONTHLY {
      PayeTakesAtMostAQuarter(gross, d, pension, nhf, rent);
    } else if gross + d > MINIMUM_WAGE_MONTHLY {
      PayeTakesAtMostAQuarter(gross + d, 0, pension, nhf, rent);
    }
  }

  /** Crossing the minimum-wage exemption costs less than 50,000 kobo of take-home pay. */
  lemma CliffIsBelowFiftyThousand(below: int, above: int, pension: nat, nhf: nat, rent: nat)
    requires below <= MINIMUM_WAGE_MONTHLY < above
    ensures above - MonthlyPaye(Unbounded, above, pension, nhf, rent).monthly
          > below - MonthlyPaye(Unbounded, below, pension, nhf, rent).monthly - 50_000
  {
    var first := MINIMUM_WAGE_MONTHLY + 1;
    PayeTakesAtMostAQuarter(first, above - first, pension, nhf, rent);
    PayeIsTwelfth(first, pension, nhf, rent);
    var relief := RentRelief(Unbounded, rent);
    MarginalRate(12 * (first - pension - nhf) - relief, 12 * (pension + nhf) + relief);
    NumeratorValue(12 * first);
    assert Twelfth(12 * first) == 50_000;
  }

  /** The bound is met to the kobo: 49,999 is what one kobo over the minimum wage can cost. */
  lemma CliffIsTight()
    ensures MINIMUM_WAGE_MONTHLY + 1 - MonthlyPaye(Unbounded, MINIMUM_WAGE_MONTHLY + 1, 0, 0, 0).monthly
         == MINIMUM_WAGE_MONTHLY - MonthlyPaye(Unbounded, MINIMUM_WAGE_MONTHLY, 0, 0, 0).monthly - 49_999
  {
    PayeIsTwelfth(MINIMUM_WAGE_MONTHLY + 1, 0, 0, 0);
    NumeratorValue(12 * (MINIMUM_WAGE_MONTHLY + 1));
  }

  /** `share` is the percentage of `base`, in thousandths, rounded down to a whole kobo. */
  predicate ShareOf(share: int, thousandths: int, base: int)
  {
    1000 * share <= thousandths * base < 1000 * share + 1000
  }

  /** The contributions of a calculation: eight and ten per cent of basic, housing and transport
      together, two and a half per cent of basic pay and one per cent of gross, each rounded down and each
      only when its scheme is on. */
  lemma ContributionsAreShares(i: Input)
    requires NonNegative(i)
    ensures var r := Calculate(Unbounded, i);
            var base := i.basicPay + i.housingPay + i.transportPay;
            && r.pensionBase == base && r.annualGross == 12 * i.grossPay
            && (if i.pensionEnabled then ShareOf(r.employeePension, 80, base) && ShareOf(r.employerPension, 100, base)
                else r.employeePension == 0 == r.employerPension)
            && (if i.nhfEnabled then ShareOf(r.nhf, 25, i.basicPay) else r.nhf == 0)
            && (if i.nsitfEnabled then ShareOf(r.nsitf, 10, i.grossPay) else r.nsitf == 0)
  {
  }

  /** A contribution is zero exactly when its scheme is off or its share is below a kobo. */
  lemma ContributionIsZeroIff(i: Input)
    requires NonNegative(i)
    ensures var r := Calculate(Unbounded, i);
            var base := i.basicPay + i.housingPay + i.transportPay;
            && (r.employeePension == 0 <==> !i.pensionEnabled || 8 * base < 100)
            && (r.employerPension == 0 <==> !i.pensionEnabled || 10 * base < 100)
            && (r.nhf == 0 <==> !i.nhfEnabled || 25 * i.basicPay < 1000)
            && (r.nsitf == 0 <==> !i.nsitfEnabled || i.grossPay < 100)
  {
    ContributionsAreShares(i);
  }

  /** The tax of a calculation: none when it is off or the pay is exempt; otherwise a twelfth of the
      closed form on a year's gross less a year's pension and NHF and less a fifth of the rent, which
      counts for 500,000 naira at most. */
  lemma TaxOfCalculation(i: Input)
    requires NonNegative(i)
    ensures var r := Calculate(Unbounded, i);
            var relief := Min(i.annualRentPaid / 5, 50_000_000);
            var taxable := 12 * (i.grossPay - r.employeePension - r.nhf) - relief;
            if !i.payeEnabled || i.grossPay <= 7_000_000
            then r.paye == 0 && r.annualTaxable == 0 && r.rentRelief == 0
            else r.rentRelief == relief && r.annualTaxable == Max(taxable, 0) && r.paye == ClosedForm(taxable) / 12
  {
    var r := Calculate(Unbounded, i);
    if i.payeEnabled && i.grossPay > 7_000_000 {
      ReliefIsAFifth(i.annualRentPaid);
      PayeIsTwelfth(i.grossPay, r.employeePension, r.nhf, i.annualRentPaid);
    }
  }

  lemma ReliefIsAFifth(rent: nat)
    ensures RentRelief(Unbounded, rent) == Min(rent / 5, 50_000_000)
  {
    assert rent * 20 / 100 == rent / 5;
  }

  predicate NonNegative(i: Input)
  {
    i.basicPay >= 0 && i.housingPay >= 0 && i.transportPay >= 0 && i.grossPay >= 0 && i.annualRentPaid >= 0
  }

  lemma TwelfthAtMostAQuarter(taxable: int, income: nat)
    requires taxable <= 12 * income
    ensures 0 <= 4 * Twelfth(taxable) <= income
  {
    MarginalRate(taxable, 12 * income - taxable);
    MarginalRate(0, 12 * income);
    NumeratorValue(0);
    assert Numerator(taxable) <= 300 * income;
  }

  lemma PayeAtMostAQuarterOfTaxable(gross: nat, pension: nat, nhf: nat, rent: nat)
    requires pension + nhf <= gross
    ensures 0 <= 4 * MonthlyPaye(Unbounded, gross, pension, nhf, rent).monthly <= gross - pension - nhf
  {
    if gross > MINIMUM_WAGE_MONTHLY {
      PayeIsTwelfth(gross, pension, nhf, rent);
      TwelfthAtMostAQuarter(12 * (gross - pension - nhf) - RentRelief(Unbounded, rent), gross - pension - nhf);
    }
  }

  /** Statutory deductions never exceed 32.875 % of gross pay. */
  lemma StatutoryCap(i: Input)
    requires NonNegative(i) && i.basicPay + i.housingPay + i.transportPay <= i.grossPay
    ensures 0 <= 4000 * Calculate(Unbounded, i).totalEmployeeDeductions <= 1315 * i.grossPay
  {
    var r := Calculate(Unbounded, i);
    PayeAtMostAQuarterOfTaxable(i.grossPay, r.employeePension, r.nhf, i.annualRentPaid);
  }

  /** The income that is taxed, when it is not exempt. */
  function Taxable(gross: int, pension: int, nhf: int, rent: int): int
  {
    12 * (gross - pension - nhf) - RentRelief(Unbounded, rent)
  }

  /** When a year's pay and twenty times the rent fit, so does the annual taxable income. */
  lemma TaxableFits(gross: nat, pension: nat, nhf: nat, rent: nat)
    requires 12 * gross <= MAX_INT64 && 20 * rent <= MAX_INT64 && pension + nhf <= gross
    ensures RentRelief(Int64, rent) == RentRelief(Unbounded, rent)
    ensures Fit(Int64, Fit(Int64, Fit(Int64, Fit(Int64, gross * 12) - Fit(Int64, pension * 12)) - Fit(Int64, nhf * 12))
                       - RentRelief(Int64, rent))
         == Taxable(gross, pension, nhf, rent) <= MAX_INT64
    ensures Taxable(gross, pension, nhf, rent) >= -MAX_RENT_RELIEF
  {
  }

  /** When the two widths disagree on the tax they disagree on a twelfth of it. */
  lemma TwelfthsAgreeIff(t: int)
    requires MIN_INT64 <= t <= MAX_INT64
    ensures Quot(BracketTax(Int64, t), 12) == Quot(BracketTax(Unbounded, t), 12) <==> t <= EXACT_LIMIT
  {
    BracketTaxIsClosedForm(Int64, t);
    BracketTaxIsClosedForm(Unbounded, t);
    if t > EXACT_LIMIT {
      var p := (t - 5_000_000_000) * 25;
      TopBracket(Int64, t);
      TopBracket(Unbounded, t);
      assert Wrap(p) <= p - 0x1_0000_0000_0000_0000;
    }
  }

  /** When a year's pay and twenty times the rent fit in 64 bits, the monthly tax is exact if and only
      if the pay is exempt or the taxable income is within the limit of the bracket loop. */
  lemma PayeIsExactIff(gross: nat, pension: nat, nhf: nat, rent: nat)
    requires 12 * gross <= MAX_INT64 && 20 * rent <= MAX_INT64 && pension + nhf <= gross
    ensures MonthlyPaye(Int64, gross, pension, nhf, rent) == MonthlyPaye(Unbounded, gross, pension, nhf, rent) <==>
      gross <= MINIMUM_WAGE_MONTHLY || Taxable(gross, pension, nhf, rent) <= EXACT_LIMIT
  {
    TaxableFits(gross, pension, nhf, rent);
    TwelfthsAgreeIff(Taxable(gross, pension, nhf, rent));
  }

  lemma ContributionsFit(i: Input)
    requires NonNegative(i) && i.basicPay + i.housingPay + i.transportPay <= i.grossPay
    requires 12 * i.grossPay <= MAX_INT64 && 25 * i.basicPay <= MAX_INT64
    ensures var r, m := Calculate(Unbounded, i), Calculate(Int64, i);
            && m.pensionBase == r.pensionBase && m.annualGross == r.annualGross
            && m.employeePension == r.employeePension && m.employerPension == r.employerPension
            && m.nhf == r.nhf && m.nsitf == r.nsitf && m.totalEmployerCosts == r.totalEmployerCosts
    ensures var r := Calculate(Unbounded, i);
            && 0 <= 12 * r.employeePension <= i.grossPay && 0 <= 40 * r.nhf <= i.grossPay
            && 0 <= 10 * r.employerPension <= i.grossPay && 0 <= 100 * r.nsitf <= i.grossPay
  {
  }

  /** When a year's pay, twenty-five times the basic pay and twenty times the rent fit in 64 bits, the
      whole calculation is exact if and only if no tax is due or its income is within the limit. */
  lemma CalculationIsExactIff(i: Input)
    requires NonNegative(i) && i.basicPay + i.housingPay + i.transportPay <= i.grossPay
    requires 12 * i.grossPay <= MAX_INT64 && 25 * i.basicPay <= MAX_INT64 && 20 * i.annualRentPaid <= MAX_INT64
    ensures var r := Calculate(Unbounded, i);
            Calculate(Int64, i) == r <==>
              !i.payeEnabled || i.grossPay <= MINIMUM_WAGE_MONTHLY
              || Taxable(i.grossPay, r.employeePension, r.nhf, i.annualRentPaid) <= EXACT_LIMIT
  {
    var r := Calculate(Unbounded, i);
    ContributionsFit(i);
    PayeIsExactIff(i.grossPay, r.employeePension, r.nhf, i.annualRentPaid);
    PayeAtMostAQuarterOfTaxable(i.grossPay, r.employeePension, r.nhf, i.annualRentPaid);
    SamePayeSameResult(i);
  }

  /** The calculations differ at most in the tax and what is derived from it. */
  lemma SamePayeSameResult(i: Input)
    requires NonNegative(i) && i.basicPay + i.housingPay + i.transportPay <= i.grossPay
    requires 12 * i.grossPay <= MAX_INT64 && 25 * i.basicPay <= MAX_INT64
    requires 0 <= 4 * Calculate(Unbounded, i).paye <= i.grossPay
    ensures var r, m := Calculate(Unbounded, i), Calculate(Int64, i);
            m == r <==> m.paye == r.paye && m.annualTaxable == r.annualTaxable && m.rentRelief == r.rentRelief
  {
    ContributionsFit(i);
  }

  predicate Small(x: int) { MIN_INT64 <= x <= MAX_INT64 }

  /** Every value the bracket loop computes on the way fits in 64 bits. */
  predicate LoopStaysSmall(taxable: int, rest: seq<Bracket>, tax: int, prevCeiling: int)
  {
    rest == [] || taxable <= prevCeiling ||
    var part := TaxableInBracket(Unbounded, taxable, rest[0], prevCeiling);
    var next := tax + Quot(part * rest[0].rate, 100);
    Small(part) && Small(part * rest[0].rate) && Small(next) && LoopStaysSmall(taxable, rest[1..], next, rest[0].ceiling)
  }

  predicate ContributionsSmall(i: Input)
  {
    var base := i.basicPay + i.housingPay + i.transportPay;
    && Small(i.basicPay + i.housingPay) && Small(base) && Small(base * 8) && Small(base * 10)
    && Small(i.basicPay * 25) && Small(i.grossPay * 1) && Small(i.annualRentPaid * 20)
    && Small(i.grossPay * 12) && Small(EmployeePension(Unbounded, base) * 12) && Small(Nhf(Unbounded, i.basicPay) * 12)
  }

  predicate PayeSmall(gross: int, pension: int, nhf: int, rent: int)
  {
    && Small(gross * 12 - pension * 12) && Small(gross * 12 - pension * 12 - nhf * 12)
    && Small(Taxable(gross, pension, nhf, rent)) && LoopStaysSmall(Taxable(gross, pension, nhf, rent), BRACKETS, 0, 0)
  }

  predicate TotalsSmall(r: Result)
  {
    Small(r.employeePension + r.nhf) && Small(r.employeePension + r.nhf + r.paye) && Small(r.employerPension + r.nsitf)
  }

  /** Every value the calculation computes on the way fits in 64 bits, whichever schemes are on. */
  predicate StaysSmall(i: Input)
  {
    var r := Calculate(Unbounded, i);
    ContributionsSmall(i) && PayeSmall(i.grossPay, r.employeePension, r.nhf, i.annualRentPaid) && TotalsSmall(r)
  }

  lemma {:induction false} LoopFits(taxable: int, k: nat, tax: int, prevCeiling: int)
    requires k <= |BRACKETS| && taxable <= 360_000_000_000_000_000
    requires k < |BRACKETS| ==> prevCeiling == (if k == 0 then 0 else BRACKETS[k - 1].ceiling)
    requires k < |BRACKETS| ==> 0 <= tax <= prevCeiling
    ensures LoopStaysSmall(taxable, BRACKETS[k..], tax, prevCeiling)
    decreases |BRACKETS| - k
  {
    if k < |BRACKETS| && taxable > prevCeiling {
      var b := BRACKETS[k];
      var part := TaxableInBracket(Unbounded, taxable, b, prevCeiling);
      assert 0 <= part <= taxable && part * b.rate <= 25 * part && 0 <= part * b.rate;
      assert 0 <= part * b.rate / 100 <= part;
      var next := tax + Quot(part * b.rate, 100);
      assert BRACKETS[k..][1..] == BRACKETS[k + 1..] && BRACKETS[k..][0] == b;
      if k + 1 < |BRACKETS| && taxable <= b.ceiling {
        assert LoopStaysSmall(taxable, BRACKETS[k + 1..], next, b.ceiling);
      } else {
        LoopFits(taxable, k + 1, next, b.ceiling);
      }
    }
  }

  lemma ContributionsStaySmall(i: Input)
    requires NonNegative(i) && i.basicPay + i.housingPay + i.transportPay <= i.grossPay
    requires i.grossPay <= 30_000_000_000_000_000 && i.annualRentPaid <= 400_000_000_000_000_000
    ensures ContributionsSmall(i)
  {
  }

  lemma PayeStaysSmall(gross: nat, pension: nat, nhf: nat, rent: nat)
    requires gross <= 30_000_000_000_000_000 && pension + nhf <= gross
    ensures PayeSmall(gross, pension, nhf, rent)
  {
    LoopFits(Taxable(gross, pension, nhf, rent), 0, 0, 0);
    assert BRACKETS[0..] == BRACKETS;
  }

  /** In 64 bits no intermediate value of the whole calculation leaves its range, and the result is
      exact, for every gross pay up to 3 * 10^16 kobo and every annual rent up to 4 * 10^17. */
  lemma NoOverflow(i: Input)
    requires NonNegative(i) && i.basicPay + i.housingPay + i.transportPay <= i.grossPay
    requires i.grossPay <= 30_000_000_000_000_000 && i.annualRentPaid <= 400_000_000_000_000_000
    ensures StaysSmall(i)
    ensures Calculate(Int64, i) == Calculate(Unbounded, i)
  {
    var r := Calculate(Unbounded, i);
    ContributionsFit(i);
    PayeAtMostAQuarterOfTaxable(i.grossPay, r.employeePension, r.nhf, i.annualRentPaid);
    CalculationIsExactIff(i);
    ContributionsStaySmall(i);
    PayeStaysSmall(i.grossPay, r.employeePension, r.nhf, i.annualRentPaid);
  }

  /** A little above the bound the code's arithmetic does overflow. */
  lemma OverflowJustAbove()
    ensures var i := Input(0, 0, 0, 31_000_000_000_000_000, 0, false, false, false, true);
            Calculate(Int64, i).paye != Calculate(Unbounded, i).paye
  {
    var i := Input(0, 0, 0, 31_000_000_000_000_000, 0, false, false, false, true);
    TaxWraps();
    assert Calculate(Int64, i).paye == Quot(BracketTax(Int64, 372_000_000_000_000_000), 12) < 0;
    EmployerCostsAreTheirParts(i);
  }

  lemma TaxWraps()
    ensures BracketTax(Int64, 372_000_000_000_000_000) < -12
  {
    TopBracket(Int64, 372_000_000_000_000_000);
    assert Wrap(371_999_995_000_000_000 * 25) == -9_146_744_198_709_551_616;
  }

  /** Whatever the input, the employer costs of a calculation are its two non-negative parts. */
  lemma EmployerCostsAreTheirParts(i: Input)
    ensures var r := Calculate(Unbounded, i);
            r.employerPension >= 0 && r.nsitf >= 0 && r.employeePension >= 0 && r.nhf >= 0 && r.paye >= 0
            && r.totalEmployerCosts == r.employerPension + r.nsitf
            && r.totalEmployeeDeductions == r.employeePension + r.nhf + r.paye
  {
    var r := Calculate(Unbounded, i);
    if i.payeEnabled && i.grossPay > MINIMUM_WAGE_MONTHLY {
      PayeIsTwelfth(i.grossPay, r.employeePension, r.nhf, i.annualRentPaid);
      TwelfthRises(12 * (i.grossPay - r.employeePension - r.nhf) - RentRelief(Unbounded, i.annualRentPaid), 0);
    }
  }
}

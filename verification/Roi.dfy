/**
 The ROI engine: capped compound growth, a linear adoption ramp, horizon gain,
 and the month in which the cumulative gain covers the investment. Exact reals
 stand for the floating-point numbers of the original.
 */
module Roi {
  import opened Basics
  import opened Rounding

  datatype ModuleCode = Delivery | CrmLoyalty | KitchenDisplay | QrMenu | Inventory | AnalyticsPro
  datatype Currency = Kzt | OtherCurrency

  type Percent = r: real | 0.0 <= r <= 100.0
  type Fee = r: real | 0.0 <= r
  type Share = r: real | 0.0 < r <= 1.0 witness 1.0
  type Ticket = r: real | 0.0 < r witness 1.0
  type Horizon = n: int | n >= 1 witness 1

  datatype PalomaModule = PalomaModule(
    code: ModuleCode, name: string, orderGrowthPct: Percent, avgTicketGrowthPct: Percent)

  datatype ModulePrice = ModulePrice(setupFee: Fee, monthlyFee: Fee, currency: Currency)

  datatype Metrics = Metrics(restaurantId: string, avgTicket: Ticket, ordersPerMonth: nat)

  datatype Assumptions = Assumptions(grossMargin: Share, attribution: Share, rampUpMonths: nat)

  datatype RoiProjection = RoiProjection(
    horizonMonths: Horizon, totalInvestment: real, monthlyGain: real,
    revenueIncreasePct: real, roiPct: real, paybackMonths: Option<real>)

  const MAX_COMBINED_GROWTH_PCT: real := 25.0

  // ------------------------------------------------------------------ growth

  function GrowthOf(m: PalomaModule): (f: real)
    ensures f >= 1.0
  {
    AtLeastOne(1.0 + m.orderGrowthPct / 100.0, 1.0 + m.avgTicketGrowthPct / 100.0);
    (1.0 + m.orderGrowthPct / 100.0) * (1.0 + m.avgTicketGrowthPct / 100.0)
  }

  lemma AtLeastOne(x: real, y: real)
    requires x >= 1.0 && y >= 1.0
    ensures x * y >= x && x * y >= y
  {
  }

  function Map<T>(f: T -> real, xs: seq<T>): (ys: seq<real>)
    ensures |ys| == |xs|
    ensures forall i | 0 <= i < |xs| :: ys[i] == f(xs[i])
  {
    seq(|xs|, i requires 0 <= i < |xs| => f(xs[i]))
  }

  function Growths(modules: seq<PalomaModule>): seq<real> {
    Map(GrowthOf, modules)
  }

  function Product(xs: seq<real>): real {
    if xs == [] then 1.0 else xs[0] * Product(xs[1..])
  }

  lemma {:induction false} ProductAtLeastOne(xs: seq<real>)
    requires forall i | 0 <= i < |xs| :: xs[i] >= 1.0
    ensures Product(xs) >= 1.0
  {
    if xs != [] {
      ProductAtLeastOne(xs[1..]);
      AtLeastOne(xs[0], Product(xs[1..]));
    }
  }

  lemma {:induction false} ProductPullOut(xs: seq<real>, i: nat)
    requires i < |xs|
    ensures Product(xs) == xs[i] * Product(xs[..i] + xs[i + 1..])
  {
    var rest := xs[..i] + xs[i + 1..];
    if i == 0 {
      assert rest == xs[1..];
    } else {
      ProductPullOut(xs[1..], i - 1);
      RestAfterFirst(xs, i);
      Exchange(xs[0], xs[i], Product(rest[1..]));
    }
  }

  lemma RestAfterFirst<T>(xs: seq<T>, i: nat)
    requires 0 < i < |xs|
    ensures var rest := xs[..i] + xs[i + 1..];
            rest[0] == xs[0] && rest[1..] == xs[1..][..i - 1] + xs[1..][i..]
  {
  }

  lemma Exchange(x: real, y: real, z: real)
    ensures x * (y * z) == y * (x * z)
  {
  }

  function GrowthFactor(modules: seq<PalomaModule>): (f: real)
    ensures f >= 1.0
  {
    ProductAtLeastOne(Growths(modules));
    Product(Growths(modules))
  }

  /** The growth of a factor in percent, up to the cap. */
  function CapPct(factor: real): real {
    var pct := (factor - 1.0) * 100.0;
    if pct <= MAX_COMBINED_GROWTH_PCT then pct else MAX_COMBINED_GROWTH_PCT
  }

  function CombinedGrowthPct(modules: seq<PalomaModule>): (g: real)
    ensures 0.0 <= g <= MAX_COMBINED_GROWTH_PCT
  {
    CapPct(GrowthFactor(modules))
  }

  lemma FirstIsSomewhere<T>(a: seq<T>, b: seq<T>) returns (i: nat)
    requires a != [] && multiset(a) == multiset(b)
    ensures i < |b| && b[i] == a[0] && multiset(a[1..]) == multiset(b[..i] + b[i + 1..])
  {
    assert a[0] in multiset(b);
    i :| 0 <= i < |b| && b[i] == a[0];
    RestsMatch(a, b, i);
  }

  lemma RestsMatch<T>(a: seq<T>, b: seq<T>, i: nat)
    requires a != [] && i < |b| && b[i] == a[0] && multiset(a) == multiset(b)
    ensures multiset(a[1..]) == multiset(b[..i] + b[i + 1..])
  {
    assert a == [a[0]] + a[1..];
    assert b == b[..i] + [b[i]] + b[i + 1..];
    assert multiset(b[..i] + b[i + 1..]) == multiset(b) - multiset{a[0]};
  }

  /** Two permutations of one bundle give the same product of any factor. */
  lemma {:induction false} ProductIgnoresOrder<T>(f: T -> real, a: seq<T>, b: seq<T>)
    requires multiset(a) == multiset(b)
    ensures Product(Map(f, a)) == Product(Map(f, b))
  {
    if a == [] {
      assert |b| == |multiset(b)| == 0;
    } else {
      var i := FirstIsSomewhere(a, b);
      var rest := b[..i] + b[i + 1..];
      ProductIgnoresOrder(f, a[1..], rest);
      FactorInFront(f, a);
      FactorAt(f, b, i, rest);
      SameFactors(f, a, b, a[0], a[1..], rest);
    }
  }

  lemma SameFactors<T>(f: T -> real, a: seq<T>, b: seq<T>, x: T, p: seq<T>, q: seq<T>)
    requires Factors(f, a, x, p) && Factors(f, b, x, q) && Product(Map(f, p)) == Product(Map(f, q))
    ensures Product(Map(f, a)) == Product(Map(f, b))
  {
  }

  /** The product over a bundle, one factor taken out. */
  predicate Factors<T>(f: T -> real, whole: seq<T>, x: T, rest: seq<T>) {
    Product(Map(f, whole)) == f(x) * Product(Map(f, rest))
  }

  lemma FactorInFront<T>(f: T -> real, a: seq<T>)
    requires a != []
    ensures Factors(f, a, a[0], a[1..])
  {
    assert Map(f, a)[1..] == Map(f, a[1..]);
  }

  lemma FactorAt<T>(f: T -> real, b: seq<T>, i: nat, rest: seq<T>)
    requires i < |b| && rest == b[..i] + b[i + 1..]
    ensures Factors(f, b, b[i], rest)
  {
    ProductPullOut(Map(f, b), i);
    MapWithout(f, b, i);
  }

  lemma MapWithout<T>(f: T -> real, b: seq<T>, i: nat)
    requires i < |b|
    ensures Map(f, b)[..i] + Map(f, b)[i + 1..] == Map(f, b[..i] + b[i + 1..])
  {
  }

  /** Growth depends on which modules are offered, not on their order. */
  lemma GrowthIgnoresOrder(a: seq<PalomaModule>, b: seq<PalomaModule>)
    requires multiset(a) == multiset(b)
    ensures CombinedGrowthPct(a) == CombinedGrowthPct(b)
  {
    ProductIgnoresOrder(GrowthOf, a, b);
  }

  lemma CapIsMonotone(a: seq<PalomaModule>, b: seq<PalomaModule>)
    requires Product(Growths(a)) <= Product(Growths(b))
    ensures CombinedGrowthPct(a) <= CombinedGrowthPct(b)
  {
  }

  lemma GrowthNeverHurts(x: real, xs: seq<real>)
    requires x >= 1.0 && forall i | 0 <= i < |xs| :: xs[i] >= 1.0
    ensures x * Product(xs) >= Product(xs)
  {
    ProductAtLeastOne(xs);
    AtLeastOne(x, Product(xs));
  }

  /** Adding a module anywhere in a bundle never lowers its growth. */
  lemma GrowthNeverFalls(a: seq<PalomaModule>, m: PalomaModule, b: seq<PalomaModule>)
    ensures CombinedGrowthPct(a + b) <= CombinedGrowthPct(a + [m] + b)
  {
    var all := Growths(a + [m] + b);
    ProductPullOut(all, |a|);
    assert all[..|a|] + all[|a| + 1..] == Growths(a + b);
    GrowthNeverHurts(all[|a|], Growths(a + b));
    CapIsMonotone(a + b, a + [m] + b);
  }

  function Capped(x: real): real {
    if x <= 12500.0 then x else 12500.0
  }

  lemma {:induction false} ProductAppend(xs: seq<real>, ys: seq<real>)
    ensures Product(xs + ys) == Product(xs) * Product(ys)
  {
    if xs == [] {
      assert xs + ys == ys;
    } else {
      assert (xs + ys)[1..] == xs[1..] + ys;
      ProductAppend(xs[1..], ys);
      Exchange(xs[0], 1.0, Product(xs[1..]) * Product(ys));
      assert xs[0] * (Product(xs[1..]) * Product(ys)) == xs[0] * Product(xs[1..]) * Product(ys);
    }
  }

  /**
   Growths of bundles compose multiplicatively, so that two modules of ten percent give
   twenty-one, up to the cap of twenty-five percent.
   */
  lemma GrowthComposes(a: seq<PalomaModule>, b: seq<PalomaModule>)
    ensures 100.0 * (100.0 + CombinedGrowthPct(a + b))
            == Capped((100.0 + CombinedGrowthPct(a)) * (100.0 + CombinedGrowthPct(b)))
  {
    hide GrowthFactor, CapPct, Capped;
    FactorsMultiply(a, b);
    CapsCompose(GrowthFactor(a), GrowthFactor(b), GrowthFactor(a + b), CombinedGrowthPct(a), CombinedGrowthPct(b));
  }

  lemma FactorsMultiply(a: seq<PalomaModule>, b: seq<PalomaModule>)
    ensures GrowthFactor(a + b) == GrowthFactor(a) * GrowthFactor(b)
  {
    hide Product;
    assert Growths(a + b) == Growths(a) + Growths(b);
    ProductAppend(Growths(a), Growths(b));
  }

  lemma CapsCompose(x: real, y: real, product: real, g: real, h: real)
    requires x >= 1.0 && y >= 1.0 && product == x * y && g == CapPct(x) && h == CapPct(y)
    ensures 100.0 * (100.0 + CapPct(product)) == Capped((100.0 + g) * (100.0 + h))
  {
    var p, q := 100.0 + g, 100.0 + h;
    AtLeastOne(x, y);
    if x <= 1.25 && y <= 1.25 {
      assert p == 100.0 * x && q == 100.0 * y;
      assert p * q == 10000.0 * (x * y);
    } else {
      assert p * q >= 12500.0 by {
        if x > 1.25 {
          assert p == 125.0 && p * q >= 125.0 * 100.0;
        } else {
          assert q == 125.0 && p * q >= 100.0 * 125.0;
        }
      }
    }
  }

  /** A single module composes the growth of its orders with that of its tickets. */
  lemma OneModuleGrows(m: PalomaModule)
    ensures 100.0 * (100.0 + CombinedGrowthPct([m]))
            == Capped((100.0 + m.orderGrowthPct) * (100.0 + m.avgTicketGrowthPct))
    ensures CombinedGrowthPct([]) == 0.0
  {
    assert Growths([m]) == [GrowthOf(m)] && Product(Growths([m])[1..]) == 1.0;
    assert Growths([]) == [];
    var x: real, y: real := m.orderGrowthPct, m.avgTicketGrowthPct;
    assert (100.0 + x) * (100.0 + y) == 10000.0 * ((1.0 + x / 100.0) * (1.0 + y / 100.0));
  }

  // -------------------------------------------------------------------- ramp

  function RampFactor(a: Assumptions, month: nat): (f: real)
    requires month >= 1
    ensures 0.0 < f <= 1.0
  {
    if a.rampUpMonths == 0 || month >= a.rampUpMonths then 1.0
    else
      RatioBelowOne(month, a.rampUpMonths);
      month as real / a.rampUpMonths as real
  }

  lemma RatioBelowOne(p: nat, q: nat)
    requires 1 <= p <= q
    ensures 0.0 < p as real / q as real <= 1.0
  {
  }

  function RampFactors(a: Assumptions, months: nat): (fs: seq<real>)
    ensures |fs| == months
    ensures forall i | 0 <= i < months :: 0.0 < fs[i] <= 1.0
  {
    seq(months, i requires 0 <= i < months => RampFactor(a, i + 1))
  }

  function Sum(xs: seq<real>): real {
    if xs == [] then 0.0 else xs[0] + Sum(xs[1..])
  }

  lemma {:induction false} SumAppend(xs: seq<real>, x: real)
    ensures Sum(xs + [x]) == Sum(xs) + x
  {
    if xs != [] {
      assert (xs + [x])[1..] == xs[1..] + [x];
      SumAppend(xs[1..], x);
    }
  }

  function RampSum(a: Assumptions, months: nat): real {
    Sum(RampFactors(a, months))
  }

  lemma RampSumStep(a: Assumptions, months: nat)
    requires months >= 1
    ensures RampSum(a, months) == RampSum(a, months - 1) + RampFactor(a, months)
  {
    assert RampFactors(a, months) == RampFactors(a, months - 1) + [RampFactor(a, months)];
    SumAppend(RampFactors(a, months - 1), RampFactor(a, months));
  }

  lemma {:induction false} RampSumBounds(a: Assumptions, months: nat)
    ensures 0.0 <= RampSum(a, months) <= months as real
    ensures months >= 1 ==> RampSum(a, months) > 0.0
  {
    if months != 0 {
      RampSumBounds(a, months - 1);
      RampSumStep(a, months);
    }
  }

  /** The closed form of the ramp: a triangle, then full months. */
  function RampClosed(months: nat, ramp: nat): real {
    var h, r := months as real, ramp as real;
    if ramp == 0 then h
    else if months >= ramp then h - (r - 1.0) / 2.0
    else h * (h + 1.0) / (2.0 * r)
  }

  lemma RampClosedStep(months: nat, a: Assumptions)
    requires months >= 1
    ensures RampClosed(months, a.rampUpMonths) == RampClosed(months - 1, a.rampUpMonths) + RampFactor(a, months)
  {
    if months < a.rampUpMonths {
      TriangleStep(months as real, a.rampUpMonths as real);
    } else if months == a.rampUpMonths {
      TriangleEnd(a.rampUpMonths as real);
    }
  }

  lemma {:induction false} RampSumClosedForm(a: Assumptions, months: nat)
    ensures RampSum(a, months) == RampClosed(months, a.rampUpMonths)
  {
    if months == 0 {
      if a.rampUpMonths != 0 {
        ZeroOver(a.rampUpMonths as real);
      }
    } else {
      RampSumClosedForm(a, months - 1);
      RampSumStep(a, months);
      RampClosedStep(months, a);
    }
  }

  lemma ZeroOver(r: real)
    requires r > 0.0
    ensures 0.0 * (0.0 + 1.0) / (2.0 * r) == 0.0
  {
  }

  lemma TriangleStep(h: real, r: real)
    requires r > 0.0
    ensures (h - 1.0) * h / (2.0 * r) + h / r == h * (h + 1.0) / (2.0 * r)
  {
    assert h / r == (2.0 * h) / (2.0 * r);
    assert (h - 1.0) * h + 2.0 * h == h * (h + 1.0);
  }

  lemma QuotientOf(n: real, d: real, q: real)
    requires d > 0.0 && n == q * d
    ensures n / d == q
  {
  }

  lemma TriangleEnd(r: real)
    requires r > 0.0
    ensures (r - 1.0) * r / (2.0 * r) + 1.0 == r - (r - 1.0) / 2.0
  {
    assert (r - 1.0) / 2.0 * (2.0 * r) == (r - 1.0) * r;
    QuotientOf((r - 1.0) * r, 2.0 * r, (r - 1.0) / 2.0);
  }

  // ----------------------------------------------------------------- payback

  ghost predicate Positive(xs: seq<real>) {
    forall i | 0 <= i < |xs| :: xs[i] > 0.0
  }

  function MonthGain(gain: real, factor: real): real {
    gain * factor
  }

  /** The gain of each month of the horizon. */
  function MonthGains(gain: real, factors: seq<real>): (gains: seq<real>)
    ensures |gains| == |factors|
    ensures forall i | 0 <= i < |factors| :: gains[i] == MonthGain(gain, factors[i])
  {
    seq(|factors|, i requires 0 <= i < |factors| => MonthGain(gain, factors[i]))
  }

  lemma MonthGainsPositive(gain: real, factors: seq<real>)
    requires gain > 0.0 && Positive(factors)
    ensures Positive(MonthGains(gain, factors))
  {
    forall i | 0 <= i < |factors| ensures MonthGains(gain, factors)[i] > 0.0 {
      ProductPositive(gain, factors[i]);
    }
  }

  lemma {:induction false} MonthGainsSum(gain: real, factors: seq<real>)
    ensures Sum(MonthGains(gain, factors)) == Earned(gain, Sum(factors))
  {
    if factors != [] {
      assert MonthGains(gain, factors)[1..] == MonthGains(gain, factors[1..]);
      MonthGainsSum(gain, factors[1..]);
      Expand(gain, factors[0], Sum(factors[1..]));
    }
  }

  lemma ProductPositive(x: real, y: real)
    requires x > 0.0 && y > 0.0
    ensures x * y > 0.0
  {
  }

  lemma Expand(x: real, y: real, z: real)
    ensures x * (y + z) == x * y + x * z
  {
  }

  /** What a rate of gain brings in over a stretch of time. */
  function Earned(rate: real, t: real): real {
    rate * t
  }

  lemma EarnedAtEnds(rate: real)
    ensures Earned(rate, 0.0) == 0.0 && Earned(rate, 1.0) == rate
  {
  }

  lemma EarnedStrictly(rate: real, t: real, u: real)
    requires rate > 0.0 && t < u
    ensures Earned(rate, t) < Earned(rate, u)
  {
    ScaleStrictly(t, u, rate);
  }

  lemma EarnedWeakly(rate: real, rate': real, t: real)
    requires rate <= rate' && t >= 0.0
    ensures Earned(rate, t) <= Earned(rate', t)
  {
    ScaleWeakly(rate, rate', t);
  }

  lemma EarnedBack(rate: real, x: real)
    requires rate > 0.0
    ensures Earned(rate, x / rate) == x
  {
    Cancel(x, rate);
  }

  /**
   Gain accumulated after t months: linear within each month, with that month's
   gain as the slope, and with the full gain as the slope beyond the listed months.
   */
  function Cumulative(gains: seq<real>, full: real, t: real): real
    decreases |gains|
  {
    if gains == [] then Earned(full, t)
    else if t <= 1.0 then Earned(gains[0], t)
    else gains[0] + Cumulative(gains[1..], full, t - 1.0)
  }

  /** The month in which the investment is recovered, by the engine's recipe. */
  ghost function Payback(gains: seq<real>, full: real, investment: real): real
    requires full > 0.0 && Positive(gains)
    decreases |gains|
  {
    if gains == [] then investment / full
    else if gains[0] >= investment then investment / gains[0]
    else 1.0 + Payback(gains[1..], full, investment - gains[0])
  }

  lemma PaybackStep(gains: seq<real>, full: real, month: nat, left: real)
    requires full > 0.0 && Positive(gains) && month < |gains|
    ensures Payback(gains[month..], full, left) ==
              if gains[month] >= left then left / gains[month]
              else 1.0 + Payback(gains[month + 1..], full, left - gains[month])
  {
    assert gains[month..][1..] == gains[month + 1..];
  }

  method PaybackMonths(gain: real, factors: seq<real>, investment: real) returns (payback: Option<real>)
    requires Positive(factors)
    ensures gain <= 0.0 <==> payback == None
    ensures gain > 0.0 ==>
              && Positive(MonthGains(gain, factors))
              && payback == Some(Payback(MonthGains(gain, factors), gain, investment))
  {
    if gain <= 0.0 {
      return None;
    }
    ghost var gains := MonthGains(gain, factors);
    MonthGainsPositive(gain, factors);
    var cumulative := 0.0;
    for month := 0 to |factors|
      invariant Payback(gains, gain, investment)
                == month as real + Payback(gains[month..], gain, investment - cumulative)
    {
      var monthGain := MonthGain(gain, factors[month]);
      PaybackStep(gains, gain, month, investment - cumulative);
      if cumulative + monthGain >= investment {
        var remainder := investment - cumulative;
        return Some(month as real + remainder / monthGain);
      }
      cumulative := cumulative + monthGain;
    }
    payback := Some(|factors| as real + (investment - cumulative) / gain);
  }

  lemma Cancel(x: real, y: real)
    requires y > 0.0
    ensures y * (x / y) == x
    ensures x >= 0.0 ==> x / y >= 0.0
    ensures x > 0.0 ==> x / y > 0.0
    ensures x <= y ==> x / y <= 1.0
  {
  }

  /** Payback inverts the cumulative gain. */
  lemma {:induction false} PaybackInverts(gains: seq<real>, full: real, investment: real)
    requires full > 0.0 && Positive(gains) && investment >= 0.0
    ensures Payback(gains, full, investment) >= 0.0
    ensures investment > 0.0 ==> Payback(gains, full, investment) > 0.0
    ensures Cumulative(gains, full, Payback(gains, full, investment)) == investment
    decreases |gains|
  {
    if gains == [] {
      Cancel(investment, full);
      EarnedBack(full, investment);
    } else if gains[0] >= investment {
      Cancel(investment, gains[0]);
      EarnedBack(gains[0], investment);
    } else {
      PaybackInverts(gains[1..], full, investment - gains[0]);
    }
  }

  lemma ScaleStrictly(x: real, y: real, c: real)
    requires x < y && c > 0.0
    ensures c * x < c * y
  {
  }

  lemma ScaleWeakly(x: real, y: real, c: real)
    requires x <= y && c >= 0.0
    ensures c * x <= c * y && x * c <= y * c
  {
    NonnegativeProduct(y - x, c);
    assert (y - x) * c == y * c - x * c;
  }

  lemma CumulativeFromZero(gains: seq<real>, full: real)
    ensures Cumulative(gains, full, 0.0) == 0.0
  {
    EarnedAtEnds(if gains == [] then full else gains[0]);
  }

  lemma {:induction false} CumulativeIsStrict(gains: seq<real>, full: real, t: real, u: real)
    requires full > 0.0 && Positive(gains) && 0.0 <= t < u
    ensures Cumulative(gains, full, t) < Cumulative(gains, full, u)
    decreases |gains|
  {
    if gains == [] {
      EarnedStrictly(full, t, u);
    } else if u <= 1.0 {
      EarnedStrictly(gains[0], t, u);
    } else if t <= 1.0 {
      CumulativeFromZero(gains[1..], full);
      CumulativeIsStrict(gains[1..], full, 0.0, u - 1.0);
      EarnedAtEnds(gains[0]);
      if t < 1.0 {
        EarnedStrictly(gains[0], t, 1.0);
      }
    } else {
      CumulativeIsStrict(gains[1..], full, t - 1.0, u - 1.0);
    }
  }

  /** ... and is the only moment that does. */
  lemma PaybackIsUnique(gains: seq<real>, full: real, investment: real, t: real)
    requires full > 0.0 && Positive(gains) && investment >= 0.0 && t >= 0.0
    ensures Cumulative(gains, full, t) == investment <==> t == Payback(gains, full, investment)
  {
    var p := Payback(gains, full, investment);
    PaybackInverts(gains, full, investment);
    if t < p {
      CumulativeIsStrict(gains, full, t, p);
    } else if p < t {
      CumulativeIsStrict(gains, full, p, t);
    }
  }

  lemma {:induction false} CumulativeAtHorizon(gains: seq<real>, full: real, t: real)
    requires t == |gains| as real
    ensures Cumulative(gains, full, t) == Sum(gains)
  {
    if gains != [] {
      CumulativeAtHorizon(gains[1..], full, t - 1.0);
      if |gains| == 1 {
        EarnedAtEnds(gains[0]);
        assert gains[1..] == [];
      }
    } else {
      CumulativeFromZero(gains, full);
      assert t == 0.0;
    }
  }

  lemma {:induction false} PaybackBeyond(gains: seq<real>, full: real, investment: real, excess: real)
    requires full > 0.0 && Positive(gains) && excess == investment - Sum(gains) && excess > 0.0
    ensures Payback(gains, full, investment) == |gains| as real + excess / full
  {
    if gains != [] {
      SumNonnegative(gains[1..]);
      PaybackBeyond(gains[1..], full, investment - gains[0], excess);
    }
  }

  lemma SumNonnegative(xs: seq<real>)
    requires Positive(xs)
    ensures Sum(xs) >= 0.0
  {
  }

  /**
   The investment is recovered within the horizon exactly when the horizon gain
   covers it; otherwise the excess is worked off at the full gain.
   */
  lemma PaybackWithinHorizonIff(gains: seq<real>, full: real, investment: real)
    requires full > 0.0 && Positive(gains) && investment >= 0.0
    ensures Payback(gains, full, investment) <= |gains| as real <==> Sum(gains) >= investment
    ensures Sum(gains) < investment ==>
              Earned(full, Payback(gains, full, investment) - |gains| as real) == investment - Sum(gains)
  {
    var p, h := Payback(gains, full, investment), |gains| as real;
    PaybackInverts(gains, full, investment);
    CumulativeAtHorizon(gains, full, h);
    if p < h {
      CumulativeIsStrict(gains, full, p, h);
    } else if h < p {
      CumulativeIsStrict(gains, full, h, p);
    }
    if Sum(gains) < investment {
      PaybackBeyond(gains, full, investment, investment - Sum(gains));
      EarnedBack(full, investment - Sum(gains));
    }
  }

  lemma {:induction false} CumulativeGrowsWithGain(gains: seq<real>, full: real, gains': seq<real>, full': real,
                                                    t: real)
    requires full <= full' && |gains| == |gains'| && t >= 0.0
    requires forall i | 0 <= i < |gains| :: gains[i] <= gains'[i]
    ensures Cumulative(gains, full, t) <= Cumulative(gains', full', t)
    decreases |gains|
  {
    if gains == [] {
      EarnedWeakly(full, full', t);
    } else if t <= 1.0 {
      EarnedWeakly(gains[0], gains'[0], t);
    } else {
      CumulativeGrowsWithGain(gains[1..], full, gains'[1..], full', t - 1.0);
    }
  }

  /** A larger steady gain never pays back later. */
  lemma PaybackFallsWithGain(gain: real, gain': real, factors: seq<real>, investment: real)
    requires 0.0 < gain <= gain' && Positive(factors) && 0.0 <= investment
    ensures Positive(MonthGains(gain, factors)) && Positive(MonthGains(gain', factors))
    ensures Payback(MonthGains(gain', factors), gain', investment)
            <= Payback(MonthGains(gain, factors), gain, investment)
  {
    MonthGainsPositive(gain, factors);
    MonthGainsPositive(gain', factors);
    var gains, gains' := MonthGains(gain, factors), MonthGains(gain', factors);
    forall i | 0 <= i < |factors| ensures gains[i] <= gains'[i] {
      ScaleWeakly(gain, gain', factors[i]);
    }
    var p, q := Payback(gains, gain, investment), Payback(gains', gain', investment);
    PaybackInverts(gains, gain, investment);
    PaybackInverts(gains', gain', investment);
    CumulativeGrowsWithGain(gains, gain, gains', gain', p);
    if p < q {
      CumulativeIsStrict(gains', gain', p, q);
    }
  }

  /** A larger investment always pays back later. */
  lemma PaybackRisesWithInvestment(gains: seq<real>, full: real, investment: real, dearer: real)
    requires full > 0.0 && Positive(gains) && 0.0 <= investment < dearer
    ensures Payback(gains, full, investment) < Payback(gains, full, dearer)
  {
    var p, q := Payback(gains, full, investment), Payback(gains, full, dearer);
    PaybackInverts(gains, full, investment);
    PaybackInverts(gains, full, dearer);
    if q < p {
      CumulativeIsStrict(gains, full, q, p);
    }
  }

  // -------------------------------------------------------------- projection

  function Revenue(metrics: Metrics): real {
    metrics.avgTicket * metrics.ordersPerMonth as real
  }

  /** The attributed part of the margin on the additional revenue. */
  function GainOf(revenue: real, growthPct: real, margin: real, attribution: real): real {
    revenue * growthPct / 100.0 * margin * attribution
  }

  function SteadyGain(metrics: Metrics, modules: seq<PalomaModule>, a: Assumptions): real {
    GainOf(Revenue(metrics), CombinedGrowthPct(modules), a.grossMargin, a.attribution)
  }

  /** The gain is proportional to each of the four, and all growth of the revenue where nothing is taken off. */
  lemma GainIsProportional(k: real, revenue: real, growth: real, margin: real, attribution: real)
    ensures GainOf(k * revenue, growth, margin, attribution) == k * GainOf(revenue, growth, margin, attribution)
    ensures GainOf(revenue, k * growth, margin, attribution) == k * GainOf(revenue, growth, margin, attribution)
    ensures GainOf(revenue, growth, k * margin, attribution) == k * GainOf(revenue, growth, margin, attribution)
    ensures GainOf(revenue, growth, margin, k * attribution) == k * GainOf(revenue, growth, margin, attribution)
    ensures GainOf(revenue, 100.0, 1.0, 1.0) == revenue
  {
    var added := revenue * growth / 100.0;
    assert k * revenue * growth / 100.0 == k * added && revenue * (k * growth) / 100.0 == k * added;
    Reassociate(k, added, margin, attribution);
  }

  lemma Reassociate(k: real, x: real, m: real, a: real)
    ensures k * x * m * a == k * (x * m * a)
    ensures x * (k * m) * a == k * (x * m * a)
    ensures x * m * (k * a) == k * (x * m * a)
  {
    assert k * x * m == k * (x * m);
    assert x * (k * m) == k * (x * m);
  }

  /** The revenue of a month grows with every order by the average ticket. */
  lemma RevenuePerOrder(metrics: Metrics)
    ensures Revenue(metrics.(ordersPerMonth := 0)) == 0.0
    ensures Revenue(metrics.(ordersPerMonth := metrics.ordersPerMonth + 1)) == Revenue(metrics) + metrics.avgTicket
  {
  }

  lemma NonnegativeProduct(x: real, y: real)
    requires x >= 0.0 && y >= 0.0
    ensures x * y >= 0.0
  {
  }

  function Investment(prices: seq<ModulePrice>, horizon: Horizon): (i: real)
    ensures i >= 0.0
  {
    if prices == [] then 0.0
    else
      NonnegativeProduct(prices[0].monthlyFee, horizon as real);
      prices[0].setupFee + prices[0].monthlyFee * horizon as real + Investment(prices[1..], horizon)
  }

  /** A sum over a list of prices. */
  function Total(fee: ModulePrice -> real, prices: seq<ModulePrice>): real {
    if prices == [] then 0.0 else fee(prices[0]) + Total(fee, prices[1..])
  }

  function SetupFeeOf(p: ModulePrice): real {
    p.setupFee
  }

  function MonthlyFeeOf(p: ModulePrice): real {
    p.monthlyFee
  }

  function SetupFees(prices: seq<ModulePrice>): real {
    Total(SetupFeeOf, prices)
  }

  function MonthlyFees(prices: seq<ModulePrice>): real {
    Total(MonthlyFeeOf, prices)
  }

  /** The investment is all set-up fees once, and all monthly fees in every month of the horizon. */
  lemma {:induction false} InvestmentIsFees(prices: seq<ModulePrice>, horizon: Horizon)
    ensures Investment(prices, horizon) == SetupFees(prices) + horizon as real * MonthlyFees(prices)
  {
    if prices != [] {
      InvestmentIsFees(prices[1..], horizon);
      Spread(horizon as real, prices[0].monthlyFee, MonthlyFees(prices[1..]));
    }
  }

  lemma Spread(h: real, x: real, y: real)
    ensures h * (x + y) == x * h + h * y
  {
  }

  /** One more month costs the monthly fees once more. */
  lemma OneMoreMonthCosts(prices: seq<ModulePrice>, horizon: Horizon)
    ensures Investment(prices, horizon + 1) == Investment(prices, horizon) + MonthlyFees(prices)
  {
    InvestmentIsFees(prices, horizon);
    InvestmentIsFees(prices, horizon + 1);
    Spread(MonthlyFees(prices), horizon as real, 1.0);
  }

  lemma {:induction false} TotalPullOut(fee: ModulePrice -> real, prices: seq<ModulePrice>, i: nat)
    requires i < |prices|
    ensures Total(fee, prices) == fee(prices[i]) + Total(fee, prices[..i] + prices[i + 1..])
  {
    if i == 0 {
      assert prices[..0] + prices[1..] == prices[1..];
    } else {
      TotalPullOut(fee, prices[1..], i - 1);
      RestAfterFirst(prices, i);
    }
  }

  lemma {:induction false} TotalIgnoresOrder(fee: ModulePrice -> real, a: seq<ModulePrice>, b: seq<ModulePrice>)
    requires multiset(a) == multiset(b)
    ensures Total(fee, a) == Total(fee, b)
  {
    if a == [] {
      assert |b| == |multiset(b)| == 0;
    } else {
      var i := FirstIsSomewhere(a, b);
      TotalIgnoresOrder(fee, a[1..], b[..i] + b[i + 1..]);
      TotalPullOut(fee, b, i);
    }
  }

  /** The order of the prices does not matter. */
  lemma InvestmentIgnoresOrder(a: seq<ModulePrice>, b: seq<ModulePrice>, horizon: Horizon)
    requires multiset(a) == multiset(b)
    ensures Investment(a, horizon) == Investment(b, horizon)
  {
    hide Investment, Total;
    InvestmentIsFees(a, horizon);
    InvestmentIsFees(b, horizon);
    TotalIgnoresOrder(SetupFeeOf, a, b);
    TotalIgnoresOrder(MonthlyFeeOf, a, b);
  }

  /** A return in percent, as a relation that needs no division. */
  predicate Yields(roi: real, gain: real, investment: real) {
    roi * investment == (gain - investment) * 100.0
  }

  function RoiPct(gain: real, investment: real): real {
    if investment > 0.0 then (gain - investment) / investment * 100.0 else 0.0
  }

  /** The unrounded figures of a projection. */
  datatype Figures = Figures(growthPct: real, gain: real, investment: real, rampSum: real, roiPct: real,
                             payback: Option<real>)

  ghost function Projected(growthPct: real, gain: real, investment: real, factors: seq<real>): Figures
    requires Positive(factors)
  {
    Figures(growthPct, gain, investment, Sum(factors), RoiPct(Earned(gain, Sum(factors)), investment),
            if gain <= 0.0 then None
            else
              MonthGainsPositive(gain, factors);
              Some(Payback(MonthGains(gain, factors), gain, investment)))
  }

  ghost function FiguresOf(metrics: Metrics, modules: seq<PalomaModule>, prices: seq<ModulePrice>,
                     horizon: Horizon, a: Assumptions): Figures
  {
    Projected(CombinedGrowthPct(modules), SteadyGain(metrics, modules, a), Investment(prices, horizon),
              RampFactors(a, horizon))
  }

  function Rounded(f: Figures, horizon: Horizon): RoiProjection {
    RoiProjection(horizon, RoundTo(f.investment, 100), RoundTo(f.gain, 100), RoundTo(f.growthPct, 100),
                  RoundTo(f.roiPct, 100), if f.payback.Some? then Some(RoundTo(f.payback.value, 10)) else None)
  }

  class RoiEngine {
    const horizonMonths: Horizon
    const assumptions: Assumptions

    constructor (horizonMonths: Horizon, assumptions: Assumptions)
      ensures this.horizonMonths == horizonMonths && this.assumptions == assumptions
    {
      this.horizonMonths, this.assumptions := horizonMonths, assumptions;
    }

    /** An empty bundle is refused; every other one is projected. */
    method Calculate(metrics: Metrics, modules: seq<PalomaModule>, prices: seq<ModulePrice>)
      returns (result: Option<RoiProjection>)
      ensures modules == [] <==> result == None
      ensures modules != [] ==>
                result == Some(Rounded(FiguresOf(metrics, modules, prices, horizonMonths, assumptions), horizonMonths))
    {
      if modules == [] {
        return None;
      }
      var growthPct := CombinedGrowthPct(modules);
      var steadyGain := SteadyGain(metrics, modules, assumptions);
      var totalInvestment := Investment(prices, horizonMonths);
      var rampFactors := RampFactors(assumptions, horizonMonths);
      var figures := Project(growthPct, steadyGain, totalInvestment, rampFactors);
      result := Some(Rounded(figures, horizonMonths));
    }

    method Project(growthPct: real, gain: real, investment: real, factors: seq<real>) returns (figures: Figures)
      requires Positive(factors)
      ensures figures == Projected(growthPct, gain, investment, factors)
    {
      var horizonGain := Earned(gain, Sum(factors));
      var payback := PaybackMonths(gain, factors, investment);
      figures := Figures(growthPct, gain, investment, Sum(factors), RoiPct(horizonGain, investment), payback);
    }
  }

  lemma PaybackFitsIff(gains: seq<real>, full: real, horizonGain: real, investment: real)
    requires full > 0.0 && Positive(gains) && investment > 0.0 && horizonGain == Sum(gains)
    ensures Payback(gains, full, investment) <= |gains| as real <==> RoiPct(horizonGain, investment) >= 0.0
  {
    PaybackWithinHorizonIff(gains, full, investment);
    RoiSign(horizonGain, investment);
  }

  /** Before rounding, the payback fits the horizon exactly when ROI is not negative. */
  lemma PaybackAgreesWithRoi(growthPct: real, gain: real, investment: real, factors: seq<real>)
    requires gain > 0.0 && investment > 0.0 && Positive(factors)
    ensures var f := Projected(growthPct, gain, investment, factors);
            f.payback.value <= |factors| as real <==> f.roiPct >= 0.0
  {
    MonthGainsPositive(gain, factors);
    MonthGainsSum(gain, factors);
    PaybackFitsIff(MonthGains(gain, factors), gain, Earned(gain, Sum(factors)), investment);
  }

  lemma RoiSign(gain: real, investment: real)
    requires investment > 0.0
    ensures RoiPct(gain, investment) >= 0.0 <==> gain >= investment
  {
    var ratio := (gain - investment) / investment;
    assert ratio * investment == gain - investment;
  }
}

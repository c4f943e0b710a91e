/**
 The offer firewall: five rules report issues, the worst of which decides. What is
 checked may come from anyone, so its figures may be infinite or no number at all;
 offers of the factory hold exact reals.
 */
module Validator {
  import opened Basics
  import opened Offers
  import opened Roi
  import opened Rounding

  datatype RuleId = RoiBounds | PaybackFits | ModuleExists | PriceConsistency | FiniteNumbers
  datatype Severity = Low | Medium | High | Critical
  datatype Issue = Issue(rule: RuleId, severity: Severity)
  datatype Status = Passed | PassedWithWarnings | Failed

  datatype ValidationReport = ValidationReport(
    offerId: string, status: Status, issues: seq<Issue>, rulesChecked: nat)

  /** The figures an offer claims. */
  datatype Claim = Claim(
    horizonMonths: Horizon, totalInvestment: Number, monthlyGain: Number,
    revenueIncreasePct: Number, roiPct: Number, paybackMonths: Option<Number>)
  {
    /** The figures that must be finite. */
    function Figures(): seq<Number> {
      [totalInvestment, monthlyGain, revenueIncreasePct, roiPct]
      + if paybackMonths.Some? then [paybackMonths.value] else []
    }
  }

  /** An offer as it is handed in for validation. */
  datatype Submission = Submission(offerId: string, lineItems: seq<LineItem>, claim: Claim)

  function Claimed(roi: RoiProjection): Claim {
    Claim(roi.horizonMonths, Finite(roi.totalInvestment), Finite(roi.monthlyGain),
          Finite(roi.revenueIncreasePct), Finite(roi.roiPct),
          if roi.paybackMonths.Some? then Some(Finite(roi.paybackMonths.value)) else None)
  }

  /** An offer of the factory, handed in. */
  function Submitted(offer: Offer): Submission {
    Submission(offer.offerId, offer.lineItems, Claimed(offer.roi))
  }

  const MAX_ROI_PCT := 500.0

  function Abs(x: real): real {
    if x < 0.0 then -x else x
  }

  /** `math.isclose` with a relative tolerance of one billionth. */
  predicate IsClose(x: real, y: real) {
    Abs(x - y) <= 0.000000001 * (if Abs(x) >= Abs(y) then Abs(x) else Abs(y))
  }

  predicate PriceDeviates(item: LineItem, price: ModulePrice) {
    || !IsClose(item.setupFee, price.setupFee)
    || !IsClose(item.monthlyFee, price.monthlyFee)
    || item.currency != price.currency
  }

  function RoiIssues(claim: Claim): seq<Issue> {
    (if claim.roiPct.Above(MAX_ROI_PCT) then [Issue(RoiBounds, Critical)] else [])
    + (if claim.roiPct.Below(0.0) then [Issue(RoiBounds, High)] else [])
  }

  function PaybackIssues(claim: Claim): seq<Issue> {
    match claim.paybackMonths
    case None => [Issue(PaybackFits, Critical)]
    case Some(p) => if p.Above(claim.horizonMonths as real) then [Issue(PaybackFits, Medium)] else []
  }

  function FiniteIssues(figures: seq<Number>): seq<Issue> {
    if figures == [] then []
    else
      FiniteIssues(figures[..|figures| - 1])
      + if figures[|figures| - 1].Finite? then [] else [Issue(FiniteNumbers, Critical)]
  }

  function ModuleIssues(items: seq<LineItem>, kb: Knowledge): seq<Issue> {
    if items == [] then []
    else
      ModuleIssues(items[..|items| - 1], kb)
      + if items[|items| - 1].code in kb.modules then [] else [Issue(ModuleExists, Critical)]
  }

  function PriceIssues(items: seq<LineItem>, kb: Knowledge): seq<Issue> {
    if items == [] then []
    else
      var item := items[|items| - 1];
      PriceIssues(items[..|items| - 1], kb)
      + if item.code in kb.prices && PriceDeviates(item, kb.prices[item.code])
        then [Issue(PriceConsistency, Critical)] else []
  }

  function AllIssues(offer: Submission, kb: Knowledge): seq<Issue> {
    RoiIssues(offer.claim) + PaybackIssues(offer.claim)
    + ModuleIssues(offer.lineItems, kb) + PriceIssues(offer.lineItems, kb) + FiniteIssues(offer.claim.Figures())
  }

  predicate Blocking(issue: Issue) {
    issue.severity == High || issue.severity == Critical
  }

  function ResolveStatus(issues: seq<Issue>): Status {
    if exists i | i in issues :: Blocking(i) then Failed
    else if issues != [] then PassedWithWarnings
    else Passed
  }

  function VerdictOn(offer: Submission, kb: Knowledge): Status {
    ResolveStatus(AllIssues(offer, kb))
  }

  function Verdict(offer: Offer, kb: Knowledge): Status {
    VerdictOn(Submitted(offer), kb)
  }

  class ValidatorEngine {
    constructor () {
    }

    /** An offer without an id is reported under a fresh one. */
    method Validate(offer: Submission, kb: Knowledge, freshId: string) returns (report: ValidationReport)
      ensures report.issues == AllIssues(offer, kb) && report.status == VerdictOn(offer, kb)
      ensures report.offerId == (if offer.offerId != "" then offer.offerId else freshId) && report.rulesChecked == 5
    {
      var issues := CheckRoiBounds(offer.claim);
      var found := CheckPayback(offer.claim);
      issues := issues + found;
      found := CheckModules(offer.lineItems, kb);
      issues := issues + found;
      found := CheckPrices(offer.lineItems, kb);
      issues := issues + found;
      found := CheckFinite(offer.claim.Figures());
      issues := issues + found;
      var id := if offer.offerId != "" then offer.offerId else freshId;
      report := ValidationReport(id, ResolveStatus(issues), issues, 5);
    }

    method CheckRoiBounds(claim: Claim) returns (issues: seq<Issue>)
      ensures issues == RoiIssues(claim)
    {
      issues := [];
      if claim.roiPct.Above(MAX_ROI_PCT) {
        issues := issues + [Issue(RoiBounds, Critical)];
      }
      if claim.roiPct.Below(0.0) {
        issues := issues + [Issue(RoiBounds, High)];
      }
    }

    method CheckPayback(claim: Claim) returns (issues: seq<Issue>)
      ensures issues == PaybackIssues(claim)
    {
      if claim.paybackMonths == None {
        return [Issue(PaybackFits, Critical)];
      }
      if claim.paybackMonths.value.Above(claim.horizonMonths as real) {
        return [Issue(PaybackFits, Medium)];
      }
      return [];
    }

    method CheckFinite(figures: seq<Number>) returns (issues: seq<Issue>)
      ensures issues == FiniteIssues(figures)
    {
      issues := [];
      for i := 0 to |figures|
        invariant issues == FiniteIssues(figures[..i])
      {
        assert figures[..i + 1][..i] == figures[..i];
        if !figures[i].Finite? {
          issues := issues + [Issue(FiniteNumbers, Critical)];
        }
      }
      assert figures[..|figures|] == figures;
    }

    method CheckModules(items: seq<LineItem>, kb: Knowledge) returns (issues: seq<Issue>)
      ensures issues == ModuleIssues(items, kb)
    {
      issues := [];
      for i := 0 to |items|
        invariant issues == ModuleIssues(items[..i], kb)
      {
        assert items[..i + 1][..i] == items[..i];
        if items[i].code !in kb.modules {
          issues := issues + [Issue(ModuleExists, Critical)];
        }
      }
      assert items[..|items|] == items;
    }

    method CheckPrices(items: seq<LineItem>, kb: Knowledge) returns (issues: seq<Issue>)
      ensures issues == PriceIssues(items, kb)
    {
      issues := [];
      for i := 0 to |items|
        invariant issues == PriceIssues(items[..i], kb)
      {
        assert items[..i + 1][..i] == items[..i];
        var item := items[i];
        if item.code !in kb.prices {
          continue;
        }
        if PriceDeviates(item, kb.prices[item.code]) {
          issues := issues + [Issue(PriceConsistency, Critical)];
        }
      }
      assert items[..|items|] == items;
    }
  }

  // ------------------------------------------------------------ any offer

  predicate Mispriced(item: LineItem, kb: Knowledge) {
    item.code in kb.prices && PriceDeviates(item, kb.prices[item.code])
  }

  ghost predicate ItemHonest(item: LineItem, kb: Knowledge) {
    item.code in kb.modules && !Mispriced(item, kb)
  }

  lemma {:induction false} ModuleIssuesIff(items: seq<LineItem>, kb: Knowledge)
    ensures ModuleIssues(items, kb) == [] <==> forall i | 0 <= i < |items| :: items[i].code in kb.modules
    ensures forall i | i in ModuleIssues(items, kb) :: Blocking(i)
  {
    if items != [] {
      ModuleIssuesIff(items[..|items| - 1], kb);
    }
  }

  lemma {:induction false} PriceIssuesIff(items: seq<LineItem>, kb: Knowledge)
    ensures PriceIssues(items, kb) == [] <==> forall i | 0 <= i < |items| :: !Mispriced(items[i], kb)
    ensures forall i | i in PriceIssues(items, kb) :: Blocking(i)
  {
    if items != [] {
      PriceIssuesIff(items[..|items| - 1], kb);
      PriceIssuesLast(items, kb);
    }
  }

  lemma PriceIssuesLast(items: seq<LineItem>, kb: Knowledge)
    requires items != []
    ensures PriceIssues(items, kb) == PriceIssues(items[..|items| - 1], kb)
              + if Mispriced(items[|items| - 1], kb) then [Issue(PriceConsistency, Critical)] else []
  {
  }

  ghost predicate AnyBlocking(issues: seq<Issue>) {
    exists i | i in issues :: Blocking(i)
  }

  lemma AnyBlockingSplit(a: seq<Issue>, b: seq<Issue>)
    ensures AnyBlocking(a + b) <==> AnyBlocking(a) || AnyBlocking(b)
  {
  }

  /** Which figures the rules object to, and which objections block. */
  lemma FigureIssuesIff(claim: Claim)
    ensures RoiIssues(claim) != [] <==> claim.roiPct.Above(500.0) || claim.roiPct.Below(0.0)
    ensures AnyBlocking(RoiIssues(claim)) <==> RoiIssues(claim) != []
    ensures AnyBlocking(PaybackIssues(claim)) <==> claim.paybackMonths == None
    ensures PaybackIssues(claim) != [] <==>
              claim.paybackMonths.Some? ==> claim.paybackMonths.value.Above(claim.horizonMonths as real)
  {
    if RoiIssues(claim) != [] {
      assert Blocking(RoiIssues(claim)[0]);
    }
    if claim.paybackMonths == None {
      assert Blocking(PaybackIssues(claim)[0]);
    }
  }

  lemma {:induction false} FiniteIssuesIff(figures: seq<Number>)
    ensures FiniteIssues(figures) == [] <==> forall i | 0 <= i < |figures| :: figures[i].Finite?
    ensures AnyBlocking(FiniteIssues(figures)) <==> FiniteIssues(figures) != []
  {
    if figures != [] {
      var n := |figures| - 1;
      FiniteIssuesIff(figures[..n]);
      var last := if figures[n].Finite? then [] else [Issue(FiniteNumbers, Critical)];
      AnyBlockingSplit(FiniteIssues(figures[..n]), last);
      assert last != [] ==> Blocking(last[0]);
      assert figures == figures[..n] + [figures[n]];
    }
  }

  lemma ItemIssuesIff(items: seq<LineItem>, kb: Knowledge)
    ensures AnyBlocking(ModuleIssues(items, kb)) || AnyBlocking(PriceIssues(items, kb))
            <==> exists i :: 0 <= i < |items| && !ItemHonest(items[i], kb)
    ensures ModuleIssues(items, kb) + PriceIssues(items, kb) != []
            <==> exists i :: 0 <= i < |items| && !ItemHonest(items[i], kb)
  {
    ModuleIssuesIff(items, kb);
    PriceIssuesIff(items, kb);
    if ModuleIssues(items, kb) != [] {
      assert ModuleIssues(items, kb)[0] in ModuleIssues(items, kb);
    }
    if PriceIssues(items, kb) != [] {
      assert PriceIssues(items, kb)[0] in PriceIssues(items, kb);
    }
  }

  /** A claimed figure is no finite number. */
  ghost predicate SomeNotFinite(claim: Claim) {
    exists i :: 0 <= i < |claim.Figures()| && !claim.Figures()[i].Finite?
  }

  /** Whoever wrote an offer, it fails exactly when a figure or an item is bad. */
  lemma VerdictMeaning(offer: Submission, kb: Knowledge)
    ensures VerdictOn(offer, kb) == Failed <==>
              || offer.claim.roiPct.Above(500.0) || offer.claim.roiPct.Below(0.0)
              || offer.claim.paybackMonths == None || SomeNotFinite(offer.claim)
              || exists i :: 0 <= i < |offer.lineItems| && !ItemHonest(offer.lineItems[i], kb)
    ensures VerdictOn(offer, kb) == PassedWithWarnings <==>
              && VerdictOn(offer, kb) != Failed
              && offer.claim.paybackMonths.Some?
              && offer.claim.paybackMonths.value.Above(offer.claim.horizonMonths as real)
  {
    var roi, payback := RoiIssues(offer.claim), PaybackIssues(offer.claim);
    var modules, prices := ModuleIssues(offer.lineItems, kb), PriceIssues(offer.lineItems, kb);
    FigureIssuesIff(offer.claim);
    ItemIssuesIff(offer.lineItems, kb);
    FiniteIssuesIff(offer.claim.Figures());
    AnyBlockingSplit(roi + payback + modules + prices, FiniteIssues(offer.claim.Figures()));
    AnyBlockingSplit(roi + payback + modules, prices);
    AnyBlockingSplit(roi + payback, modules);
    AnyBlockingSplit(roi, payback);
    assert VerdictOn(offer, kb) == Failed <==> AnyBlocking(AllIssues(offer, kb));
  }

  /** The same for an offer whose figures are reals. */
  lemma RealVerdictMeaning(offer: Offer, kb: Knowledge)
    ensures Verdict(offer, kb) == Failed <==>
              || offer.roi.roiPct > 500.0 || offer.roi.roiPct < 0.0 || offer.roi.paybackMonths == None
              || exists i :: 0 <= i < |offer.lineItems| && !ItemHonest(offer.lineItems[i], kb)
    ensures Verdict(offer, kb) == PassedWithWarnings <==>
              && Verdict(offer, kb) != Failed
              && offer.roi.paybackMonths.Some? && offer.roi.paybackMonths.value > offer.roi.horizonMonths as real
  {
    VerdictMeaning(Submitted(offer), kb);
    assert !SomeNotFinite(Claimed(offer.roi));
  }

  // ------------------------------------------------- offers from the factory

  ghost predicate Built(kb: Knowledge, terms: Terms, request: Request, offer: Offer) {
    Assembled(kb, terms, request, offer.offerId) == Ok(offer)
  }

  lemma BuiltItemsHonest(kb: Knowledge, terms: Terms, request: Request, offer: Offer)
    requires Built(kb, terms, request, offer)
    ensures forall i | 0 <= i < |offer.lineItems| :: ItemHonest(offer.lineItems[i], kb)
  {
    forall i | 0 <= i < |offer.lineItems| ensures ItemHonest(offer.lineItems[i], kb) {
      assert request.codes[i] in request.codes;
      var price := kb.prices[request.codes[i]];
      assert IsClose(price.setupFee, price.setupFee) && IsClose(price.monthlyFee, price.monthlyFee);
    }
  }

  /** A payback rounded to tenths exceeds a whole month only beyond its 0.05. */
  lemma RoundedLateIff(p: real, h: int)
    ensures RoundTo(p, 10) > h as real <==> p > h as real + 0.05
  {
    TenfoldIsEven(h);
    RoundsAboveIff(p * 10.0, 10 * h);
    TenthsAbove(RoundHalfEven(p * 10.0), p, h);
  }

  lemma TenfoldIsEven(h: int)
    ensures (10 * h) % 2 == 0
  {
  }

  lemma TenthsAbove(n: int, p: real, h: int)
    requires n > 10 * h <==> p * 10.0 > (10 * h) as real + 0.5
    ensures n as real / 10.0 > h as real <==> p > h as real + 0.05
  {
  }

  /** An investment of gain * (s + x) against a horizon gain of gain * s loses x in s + x. */
  lemma LossOf(gain: real, s: real, x: real, investment: real, roi: real)
    requires gain > 0.0 && s >= 0.0 && x > 0.0
    requires investment - Earned(gain, s) == Earned(gain, x) && Yields(roi, Earned(gain, s), investment)
    ensures roi * (s + x) == -100.0 * x
  {
    assert investment == gain * (s + x);
    assert gain * (roi * (s + x)) == roi * (gain * (s + x));
    SameFactor(gain, roi * (s + x), -100.0 * x);
  }

  lemma RoundsToNonnegativeIff(x: real)
    ensures RoundTo(x, 100) >= 0.0 <==> x >= -0.005
    ensures x <= 0.0 ==> RoundTo(x, 100) <= 0.0
  {
    RoundsAboveIff(x * 100.0, 0);
  }

  /** A loss of x in s + x survives rounding to hundredths unless x is tiny against s. */
  lemma LossThreshold(roi: real, s: real, x: real)
    requires s >= 0.0 && x > 0.0 && roi * (s + x) == -100.0 * x
    ensures roi < 0.0
    ensures roi >= -0.005 <==> 19999.0 * x <= s
  {
    if roi >= -0.005 {
      ScaleWeakly(-0.005, roi, s + x);
    } else {
      ScaleStrictly(roi, -0.005, s + x);
    }
    if roi >= 0.0 {
      NonnegativeProduct(roi, s + x);
    }
  }

  /** Late after rounding, but by too little against the ramp sum to cost 0.01%. */
  predicate BarelyLate(p: real, h: int, s: real) {
    p > h as real + 0.05 && 19999.0 * (p - h as real) <= s
  }

  lemma LateRounding(gain: real, s: real, investment: real, roi: real, p: real, h: int)
    requires gain > 0.0 && s >= 0.0 && p > h as real + 0.05
    requires investment - Earned(gain, s) == Earned(gain, p - h as real) && Yields(roi, Earned(gain, s), investment)
    ensures RoundTo(roi, 100) <= 0.0
    ensures RoundTo(roi, 100) >= 0.0 <==> BarelyLate(p, h, s)
  {
    LossOf(gain, s, p - h as real, investment, roi);
    LossThreshold(roi, s, p - h as real);
    RoundsToNonnegativeIff(roi);
  }

  /** For every projection: a late rounded payback goes with a rounded ROI of at most 0. */
  lemma LateRoundingIff(gains: seq<real>, gain: real, s: real, investment: real, roi: real, h: int)
    requires gain > 0.0 && Positive(gains) && investment >= 0.0 && |gains| == h && s >= 0.0
    requires Sum(gains) == Earned(gain, s) && (investment > 0.0 ==> Yields(roi, Sum(gains), investment))
    ensures var p := Payback(gains, gain, investment);
            && (RoundTo(p, 10) > h as real ==> RoundTo(roi, 100) <= 0.0)
            && (RoundTo(p, 10) > h as real && RoundTo(roi, 100) >= 0.0 <==> BarelyLate(p, h, s))
  {
    SumNonnegative(gains);
    PaybackWithinHorizonIff(gains, gain, investment);
    LateRoundingAt(gain, s, investment, roi, Payback(gains, gain, investment), h);
  }

  lemma LateRoundingAt(gain: real, s: real, investment: real, roi: real, p: real, h: int)
    requires gain > 0.0 && s >= 0.0
    requires p > h as real ==> investment > 0.0 && investment - Earned(gain, s) == Earned(gain, p - h as real)
    requires investment > 0.0 ==> Yields(roi, Earned(gain, s), investment)
    ensures RoundTo(p, 10) > h as real ==> RoundTo(roi, 100) <= 0.0
    ensures RoundTo(p, 10) > h as real && RoundTo(roi, 100) >= 0.0 <==> BarelyLate(p, h, s)
  {
    RoundedLateIff(p, h);
    if p > h as real + 0.05 {
      LateRounding(gain, s, investment, roi, p, h);
    }
  }

  lemma RoiMeaning(gain: real, investment: real)
    requires investment > 0.0
    ensures Yields(RoiPct(gain, investment), gain, investment)
  {
    Cancel(gain - investment, investment);
  }

  /** The figures of a projection as relations between its inputs. */
  lemma ProjectedMeaning(growthPct: real, gain: real, investment: real, factors: seq<real>)
    requires gain > 0.0 && Positive(factors) && investment >= 0.0
    ensures var f := Projected(growthPct, gain, investment, factors);
            var gains := MonthGains(gain, factors);
            && Positive(gains) && f.payback == Some(Payback(gains, gain, investment))
            && f.rampSum >= 0.0 && Sum(gains) == Earned(gain, f.rampSum)
            && (investment > 0.0 ==> Yields(f.roiPct, Sum(gains), investment))
  {
    MonthGainsPositive(gain, factors);
    MonthGainsSum(gain, factors);
    SumNonnegative(factors);
    if investment > 0.0 {
      RoiMeaning(Earned(gain, Sum(factors)), investment);
    }
  }

  // ------------------------------------------------------------ main theorems

  /** Rounded figures that agree on when a late payback goes with a negative ROI. */
  ghost predicate RoundsConsistently(f: Figures, horizon: Horizon) {
    f.payback.Some? ==>
      var late := RoundTo(f.payback.value, 10) > horizon as real;
      && (late ==> RoundTo(f.roiPct, 100) <= 0.0)
      && (late && RoundTo(f.roiPct, 100) >= 0.0 <==> BarelyLate(f.payback.value, horizon, f.rampSum))
  }

  lemma FiguresRoundConsistently(growthPct: real, gain: real, investment: real, factors: seq<real>, horizon: Horizon)
    requires Positive(factors) && investment >= 0.0 && |factors| == horizon
    ensures RoundsConsistently(Projected(growthPct, gain, investment, factors), horizon)
  {
    if gain > 0.0 {
      var f := Projected(growthPct, gain, investment, factors);
      ProjectedMeaning(growthPct, gain, investment, factors);
      LateRoundingIff(MonthGains(gain, factors), gain, f.rampSum, investment, f.roiPct, horizon);
    }
  }

  lemma VerdictOfFigures(offer: Offer, kb: Knowledge, f: Figures, horizon: Horizon)
    requires forall i | 0 <= i < |offer.lineItems| :: ItemHonest(offer.lineItems[i], kb)
    requires offer.roi == Rounded(f, horizon) && RoundsConsistently(f, horizon)
    ensures Verdict(offer, kb) == Failed <==>
              f.payback == None || offer.roi.roiPct < 0.0 || offer.roi.roiPct > 500.0
    ensures Verdict(offer, kb) == PassedWithWarnings <==>
              f.payback.Some? && BarelyLate(f.payback.value, horizon, f.rampSum)
  {
    RealVerdictMeaning(offer, kb);
  }

  /**
   The verdict on any offer the factory built, checked against the same catalog:
   failed on no gain, a negative or an incredible rounded ROI; with warnings only
   for a payback that is late by too little to cost a hundredth of a percent.
   */
  lemma BuiltOfferVerdict(kb: Knowledge, terms: Terms, request: Request, offer: Offer)
    requires Built(kb, terms, request, offer)
    ensures var f := FiguresFor(kb, terms, request);
            && (Verdict(offer, kb) == Failed <==>
                  f.gain <= 0.0 || offer.roi.roiPct < 0.0 || offer.roi.roiPct > 500.0)
            && (Verdict(offer, kb) == PassedWithWarnings <==>
                  f.payback.Some? && BarelyLate(f.payback.value, terms.horizon, f.rampSum))
  {
    var f := FiguresFor(kb, terms, request);
    BuiltItemsHonest(kb, terms, request, offer);
    var factors := RampFactors(terms.assumptions, terms.horizon);
    FiguresRoundConsistently(f.growthPct, f.gain, f.investment, factors, terms.horizon);
    VerdictOfFigures(offer, kb, f, terms.horizon);
  }

  /** With a ramp sum up to 999.95 months, no offer passes with warnings. */
  lemma NoWarningsWithin(kb: Knowledge, terms: Terms, request: Request, offer: Offer)
    requires Built(kb, terms, request, offer)
    requires RampSum(terms.assumptions, terms.horizon) <= 999.95
    ensures Verdict(offer, kb) != PassedWithWarnings
  {
    BuiltOfferVerdict(kb, terms, request, offer);
  }

  /** In particular for every horizon up to 999 months, whatever the assumptions. */
  lemma NoWarningsUpTo999(kb: Knowledge, terms: Terms, request: Request, offer: Offer)
    requires Built(kb, terms, request, offer) && terms.horizon <= 999
    ensures Verdict(offer, kb) == if FiguresFor(kb, terms, request).gain <= 0.0 || offer.roi.roiPct < 0.0
                                     || offer.roi.roiPct > 500.0 then Failed else Passed
  {
    RampSumBounds(terms.assumptions, terms.horizon);
    NoWarningsWithin(kb, terms, request, offer);
    BuiltOfferVerdict(kb, terms, request, offer);
  }

  ghost predicate WarnsUnder(terms: Terms, kb: Knowledge, request: Request, offer: Offer) {
    Built(kb, terms, request, offer) && Verdict(offer, kb) == PassedWithWarnings
  }

  /** Some catalog and restaurant lead to an offer that passes with warnings. */
  ghost predicate WarningsReachable(terms: Terms) {
    exists kb: Knowledge, request: Request, offer: Offer :: WarnsUnder(terms, kb, request, offer)
  }

  /** A one-module catalog whose set-up fee is late by exactly 1/19999 of the ramp sum. */
  lemma WarningWitness(terms: Terms)
    requires RampSum(terms.assumptions, terms.horizon) > 999.95
    ensures WarningsReachable(terms)
  {
    var m := PalomaModule(Delivery, "Delivery", 25.0, 0.0);
    var metrics := Metrics("R-001", 100.0, 1);
    WitnessGain(metrics, m, terms.assumptions);
    WitnessFee(terms, metrics, m, RampSum(terms.assumptions, terms.horizon) / 19999.0);
  }

  function WitnessCatalog(m: PalomaModule, fee: Fee): (kb: Knowledge)
    requires m.code == Delivery
  {
    Catalog(map[Delivery := m], map[Delivery := ModulePrice(fee, 0.0, Kzt)])
  }

  lemma WitnessFee(terms: Terms, metrics: Metrics, m: PalomaModule, x: real)
    requires m.code == Delivery && SteadyGain(metrics, [m], terms.assumptions) > 0.0
    requires 0.05 < x && 19999.0 * x <= RampSum(terms.assumptions, terms.horizon)
    ensures WarningsReachable(terms)
  {
    var gain := SteadyGain(metrics, [m], terms.assumptions);
    var span := RampSum(terms.assumptions, terms.horizon) + x;
    NonnegativeProduct(gain, span);
    WitnessVerdict(terms, Request(metrics, [Delivery], ""), m, gain, Earned(gain, span), x);
  }

  lemma WitnessOffer(terms: Terms, request: Request, m: PalomaModule, fee: Fee) returns (offer: Offer)
    requires m.code == Delivery && request.codes == [Delivery] && request.summary == ""
    ensures Built(WitnessCatalog(m, fee), terms, request, offer)
    ensures FiguresFor(WitnessCatalog(m, fee), terms, request)
            == Projected(CombinedGrowthPct([m]), SteadyGain(request.metrics, [m], terms.assumptions), fee,
                         RampFactors(terms.assumptions, terms.horizon))
  {
    var kb := WitnessCatalog(m, fee);
    assert FirstMissing(request.codes, kb.modules.Keys) == None;
    assert FirstMissing(request.codes, kb.prices.Keys) == None;
    offer := Assembled(kb, terms, request, "OF-1").value;
    var price := ModulePrice(fee, 0.0, Kzt);
    assert ModulesOf(kb, request.codes) == [m] && PricesOf(kb, request.codes) == [price];
    assert Investment([price], terms.horizon) == fee + Investment([], terms.horizon);
  }

  lemma WitnessVerdict(terms: Terms, request: Request, m: PalomaModule, gain: real, fee: Fee, x: real)
    requires m.code == Delivery && request.codes == [Delivery] && request.summary == ""
    requires gain == SteadyGain(request.metrics, [m], terms.assumptions) > 0.0
    requires fee == Earned(gain, RampSum(terms.assumptions, terms.horizon) + x)
    requires 0.05 < x && 19999.0 * x <= RampSum(terms.assumptions, terms.horizon)
    ensures WarningsReachable(terms)
  {
    WitnessPayback(gain, RampFactors(terms.assumptions, terms.horizon), fee, x);
    var offer := WitnessOffer(terms, request, m, fee);
    BuiltOfferVerdict(WitnessCatalog(m, fee), terms, request, offer);
    assert WarnsUnder(terms, WitnessCatalog(m, fee), request, offer);
  }

  lemma WitnessGain(metrics: Metrics, m: PalomaModule, a: Assumptions)
    requires metrics.avgTicket == 100.0 && metrics.ordersPerMonth == 1
    requires m.orderGrowthPct == 25.0 && m.avgTicketGrowthPct == 0.0
    ensures SteadyGain(metrics, [m], a) > 0.0
  {
    assert Growths([m]) == [GrowthOf(m)] && GrowthOf(m) == 1.25;
    assert Product([1.25]) == 1.25 * Product([]);
    assert CombinedGrowthPct([m]) == 25.0;
    ProductPositive(25.0, a.grossMargin);
    ProductPositive(25.0 * a.grossMargin, a.attribution);
  }

  lemma WitnessPayback(gain: real, factors: seq<real>, investment: real, x: real)
    requires gain > 0.0 && x > 0.0 && Positive(factors) && investment == Earned(gain, Sum(factors) + x)
    ensures Positive(MonthGains(gain, factors))
    ensures Payback(MonthGains(gain, factors), gain, investment) == |factors| as real + x
  {
    MonthGainsPositive(gain, factors);
    MonthGainsSum(gain, factors);
    SumNonnegative(factors);
    LateBy(MonthGains(gain, factors), gain, Sum(factors), x, investment);
  }

  lemma LateBy(gains: seq<real>, gain: real, s: real, x: real, investment: real)
    requires gain > 0.0 && x > 0.0 && s >= 0.0 && Positive(gains)
    requires Sum(gains) == Earned(gain, s) && investment == Earned(gain, s + x)
    ensures Payback(gains, gain, investment) == |gains| as real + x
  {
    EarnedInParts(gain, s, x);
    SumNonnegative(gains);
    PaybackWithinHorizonIff(gains, gain, investment);
    SameFactor(gain, Payback(gains, gain, investment) - |gains| as real, x);
  }

  lemma EarnedInParts(gain: real, s: real, x: real)
    requires gain > 0.0 && x > 0.0
    ensures Earned(gain, s + x) == Earned(gain, s) + Earned(gain, x) && Earned(gain, x) > 0.0
  {
    Expand(gain, s, x);
    ProductPositive(gain, x);
  }

  lemma SameFactor(c: real, x: real, y: real)
    requires c > 0.0 && Earned(c, x) == Earned(c, y)
    ensures x == y
  {
    assert c * (x - y) == 0.0;
  }

  /**
   The warnings verdict is reachable for machine-built offers exactly when the
   ramp sum of the horizon exceeds 999.95 months.
   */
  lemma WarningsReachableIff(terms: Terms)
    ensures WarningsReachable(terms) <==> RampSum(terms.assumptions, terms.horizon) > 999.95
  {
    if WarningsReachable(terms) {
      var kb, request, offer :| WarnsUnder(terms, kb, request, offer);
      if RampSum(terms.assumptions, terms.horizon) <= 999.95 {
        NoWarningsWithin(kb, terms, request, offer);
      }
    }
    if RampSum(terms.assumptions, terms.horizon) > 999.95 {
      WarningWitness(terms);
    }
  }

  /** Prices count as equal exactly if they differ by no more than a billionth of the larger one. */
  lemma CloseIff(x: real, y: real)
    requires 0.0 <= x <= y
    ensures IsClose(x, y) <==> y - x <= y / 1000000000.0
    ensures IsClose(y, x) <==> IsClose(x, y)
    ensures IsClose(-x, -y) <==> IsClose(x, y)
    ensures IsClose(x, -y) <==> x == 0.0 && y == 0.0
  {
  }

  /** A price deviates exactly if one of its fees is not equal in that sense, or the currency is another. */
  lemma DeviatesIff(item: LineItem, price: ModulePrice)
    ensures !PriceDeviates(item, price)
            <==> && IsClose(item.setupFee, price.setupFee) && IsClose(item.monthlyFee, price.monthlyFee)
                 && item.currency == price.currency
  {
  }
}

/** Valuation of a single listing: null-guarded financial ratios, a verdict
    keyed on the revenue multiple, and an ordered list of risk factors
    (`analyzeListing`, src/tools/analyze.ts). */
module Valuation {
  import opened Wrappers
  import opened Listings

  datatype Verdict = Underpriced | Fair | Overpriced | InsufficientData

  /** The risk factors, declared in the order the analyzer emits them. */
  datatype RiskFactor =
    | NoRevenue | NoProfit | NoTrafficData | LowTraffic | RevenueNotVerified
    | TrafficNotVerified | NotSuperSeller | NoBids | NoImages
    | ShortDescription | Confidential

  /** Position of a factor in the emitted order. */
  function Rank(f: RiskFactor): nat {
    match f
    case NoRevenue => 0
    case NoProfit => 1
    case NoTrafficData => 2
    case LowTraffic => 3
    case RevenueNotVerified => 4
    case TrafficNotVerified => 5
    case NotSuperSeller => 6
    case NoBids => 7
    case NoImages => 8
    case ShortDescription => 9
    case Confidential => 10
  }

  /** The text the analyzer emits for each factor.  The model lists factors
      by tag; `LabelsDistinct` shows that the tags and the texts determine
      each other. */
  function Label(f: RiskFactor): string {
    match f
    case NoRevenue => "No reported revenue"
    case NoProfit => "No reported profit"
    case NoTrafficData => "No traffic data available"
    case LowTraffic => "Very low traffic"
    case RevenueNotVerified => "Revenue not verified by Flippa"
    case TrafficNotVerified => "Traffic not verified by Flippa"
    case NotSuperSeller => "Seller is not a verified Super Seller"
    case NoBids => "No bids yet"
    case NoImages => "No images provided"
    case ShortDescription => "Very short listing description"
    case Confidential => "Confidential listing - limited data"
  }

  /** Reads the factor back from its text, by the text's length and, where
      lengths coincide, one distinguishing character. */
  function FactorOfLabel(s: string): Option<RiskFactor> {
    if |s| < 4 then None
    else if |s| == 11 then Some(NoBids)
    else if |s| == 16 then Some(LowTraffic)
    else if |s| == 18 then (if s[3] == 'r' then Some(NoProfit) else Some(NoImages))
    else if |s| == 19 then Some(NoRevenue)
    else if |s| == 25 then Some(NoTrafficData)
    else if |s| == 30 then
      (if s[0] == 'R' then Some(RevenueNotVerified)
       else if s[0] == 'T' then Some(TrafficNotVerified)
       else Some(ShortDescription))
    else if |s| == 35 then Some(Confidential)
    else if |s| == 37 then Some(NotSuperSeller)
    else None
  }

  /** Every factor's text reads back as that factor. */
  lemma LabelReadsBack(f: RiskFactor)
    ensures FactorOfLabel(Label(f)) == Some(f)
  {
    match f
    case NoRevenue =>
    case NoProfit =>
    case NoTrafficData =>
    case LowTraffic =>
    case RevenueNotVerified =>
    case TrafficNotVerified =>
    case NotSuperSeller =>
    case NoBids =>
    case NoImages =>
    case ShortDescription =>
    case Confidential =>
  }

  /** No two factors share a text, so a list of emitted texts names exactly
      one list of factors. */
  lemma LabelsDistinct(f: RiskFactor, g: RiskFactor)
    ensures Label(f) == Label(g) <==> f == g
  {
    LabelReadsBack(f);
    LabelReadsBack(g);
  }

  /** The condition under which each factor is raised, stated per factor. */
  predicate Raised(l: Listing, f: RiskFactor) {
    match f
    case NoRevenue => l.revenuePerMonth.None? || l.revenuePerMonth.value == 0.0
    case NoProfit => l.profitPerMonth.None? || l.profitPerMonth.value == 0.0
    case NoTrafficData => l.uniquesPerMonth.None?
    case LowTraffic => l.uniquesPerMonth.Some? && l.uniquesPerMonth.value < 1000.0
    case RevenueNotVerified => !l.hasVerifiedRevenue
    case TrafficNotVerified => !l.hasVerifiedTraffic
    case NotSuperSeller => !l.superSeller
    case NoBids => l.bidCount == 0
    case NoImages => l.imageCount == 0
    case ShortDescription => l.summary.Some? && |l.summary.value| < 100
    case Confidential => l.confidential
  }

  /** Factors strictly increasing in rank: in emitted order, none twice. */
  ghost predicate InEmittedOrder(fs: seq<RiskFactor>) {
    forall i, j | 0 <= i < j < |fs| :: Rank(fs[i]) < Rank(fs[j])
  }

  /** The derived financial figures of one listing; each is absent when an
      operand is unknown or its divisor is zero. */
  datatype Ratios = Ratios(
    annualRevenue: Option<real>,
    revenueMultiple: Option<real>,
    profitMultiple: Option<real>,
    pricePerVisitor: Option<real>,
    estimatedRoiMonths: Option<real>,
    revenuePerVisitor: Option<real>)

  /** The analyzer's result.  The verdict's explanatory sentence is
      presentation and is represented by the verdict tag alone. */
  datatype Analysis = Analysis(
    listingId: string,
    title: string,
    askingPrice: Option<real>,
    monthlyRevenue: Option<real>,
    monthlyProfit: Option<real>,
    ratios: Ratios,
    verdict: Verdict,
    riskFactors: seq<RiskFactor>)

  /** A known, non-zero divisor. */
  predicate Usable(d: Option<real>) {
    d.Some? && d.value != 0.0
  }

  /** `q` is present exactly when `num` and `den` are both known and the
      divisor is non-zero, so no ratio ever divides by zero or by null; a
      present quotient multiplied back by its divisor gives the numerator. */
  predicate IsQuotient(q: Option<real>, num: Option<real>, den: Option<real>) {
    && (q.Some? <==> num.Some? && Usable(den))
    && (q.Some? ==> q.value * den.value == num.value)
  }

  /** `num / den`, absent when either side is absent or the divisor is 0. */
  function Quotient(num: Option<real>, den: Option<real>): (r: Option<real>)
    ensures IsQuotient(r, num, den)
  {
    if num.Some? && Usable(den) then Some(num.value / den.value) else None
  }

  /** Twelve months of a known, non-zero monthly amount. */
  function Annualize(monthly: Option<real>): (r: Option<real>)
    ensures r.Some? <==> Usable(monthly)
    ensures r.Some? ==> r.value == monthly.value * 12.0 && r.value != 0.0
  {
    if Usable(monthly) then Some(monthly.value * 12.0) else None
  }

  /** Verdict bands on the revenue multiple: below 2, 2 to 4 inclusive,
      above 4. */
  function Classify(multiple: Option<real>): (v: Verdict)
    ensures v == InsufficientData <==> multiple.None?
    ensures v == Underpriced <==> multiple.Some? && multiple.value < 2.0
    ensures v == Fair <==> multiple.Some? && 2.0 <= multiple.value <= 4.0
    ensures v == Overpriced <==> multiple.Some? && multiple.value > 4.0
  {
    if multiple.None? then InsufficientData
    else if multiple.value < 2.0 then Underpriced
    else if multiple.value <= 4.0 then Fair
    else Overpriced
  }

  /** The factor emitted at each position of the fixed order. */
  function FactorOfRank(k: nat): (f: RiskFactor)
    requires k <= 10
    ensures Rank(f) == k
  {
    if k == 0 then NoRevenue
    else if k == 1 then NoProfit
    else if k == 2 then NoTrafficData
    else if k == 3 then LowTraffic
    else if k == 4 then RevenueNotVerified
    else if k == 5 then TrafficNotVerified
    else if k == 6 then NotSuperSeller
    else if k == 7 then NoBids
    else if k == 8 then NoImages
    else if k == 9 then ShortDescription
    else Confidential
  }

  /** The raised factors from position `k` of the order onwards, each
      checked in turn.  The two traffic checks are the two arms of one
      if/else in the source; their conditions exclude each other, so testing
      them one after the other raises the same factors. */
  function RiskFactorsFrom(l: Listing, k: nat): (fs: seq<RiskFactor>)
    requires k <= 11
    ensures forall f :: f in fs <==> Raised(l, f) && Rank(f) >= k
    ensures forall i | 0 <= i < |fs| :: Rank(fs[i]) >= k
    ensures InEmittedOrder(fs)
    decreases 11 - k
  {
    if k == 11 then []
    else
      var f := FactorOfRank(k);
      var rest := RiskFactorsFrom(l, k + 1);
      forall g | Rank(g) == k
        ensures g == f
      {
        RankInjective(g, f);
      }
      if Raised(l, f) then [f] + rest else rest
  }

  /** The risk factors raised for a listing, in emitted order. */
  function RiskFactors(l: Listing): (fs: seq<RiskFactor>)
    ensures forall f :: f in fs <==> Raised(l, f)
    ensures InEmittedOrder(fs)
  {
    RiskFactorsFrom(l, 0)
  }

  /** The ratio block of `analyzeListing`. */
  function ComputeRatios(l: Listing): (r: Ratios)
    ensures r.annualRevenue == Annualize(l.revenuePerMonth)
    ensures IsQuotient(r.revenueMultiple, l.currentPrice, Annualize(l.revenuePerMonth))
    ensures IsQuotient(r.profitMultiple, l.currentPrice, Annualize(l.profitPerMonth))
    ensures IsQuotient(r.pricePerVisitor, l.currentPrice, l.uniquesPerMonth)
    ensures IsQuotient(r.estimatedRoiMonths, l.currentPrice, l.profitPerMonth)
    ensures IsQuotient(r.revenuePerVisitor, l.revenuePerMonth, l.uniquesPerMonth)
  {
    Ratios(
      annualRevenue := Annualize(l.revenuePerMonth),
      revenueMultiple := Quotient(l.currentPrice, Annualize(l.revenuePerMonth)),
      profitMultiple := Quotient(l.currentPrice, Annualize(l.profitPerMonth)),
      pricePerVisitor := Quotient(l.currentPrice, l.uniquesPerMonth),
      estimatedRoiMonths := Quotient(l.currentPrice, l.profitPerMonth),
      revenuePerVisitor := Quotient(l.revenuePerMonth, l.uniquesPerMonth))
  }

  /** `analyzeListing`. */
  function Analyze(l: Listing): (a: Analysis)
    ensures a.listingId == l.id && a.title == l.title
    ensures a.askingPrice == l.currentPrice
    ensures a.monthlyRevenue == l.revenuePerMonth && a.monthlyProfit == l.profitPerMonth
    ensures a.ratios == ComputeRatios(l)
    ensures a.verdict == InsufficientData <==> a.ratios.revenueMultiple.None?
    ensures a.verdict == Underpriced <==>
              a.ratios.revenueMultiple.Some? && a.ratios.revenueMultiple.value < 2.0
    ensures a.verdict == Fair <==>
              a.ratios.revenueMultiple.Some? && 2.0 <= a.ratios.revenueMultiple.value <= 4.0
    ensures a.verdict == Overpriced <==>
              a.ratios.revenueMultiple.Some? && a.ratios.revenueMultiple.value > 4.0
    ensures a.verdict == InsufficientData <==>
              l.currentPrice.None? || !Usable(l.revenuePerMonth)
    ensures a.riskFactors == RiskFactors(l)
  {
    var ratios := ComputeRatios(l);
    Analysis(
      listingId := l.id,
      title := l.title,
      askingPrice := l.currentPrice,
      monthlyRevenue := l.revenuePerMonth,
      monthlyProfit := l.profitPerMonth,
      ratios := ratios,
      verdict := Classify(ratios.revenueMultiple),
      riskFactors := RiskFactors(l))
  }

  /** The verdict of a listing's figures. */
  function VerdictOf(l: Listing): Verdict {
    Classify(ComputeRatios(l).revenueMultiple)
  }

  /** A multiple of exactly 2 is fair: the lower band edge is inclusive. */
  lemma LowerBoundaryIsFair(l: Listing)
    requires l.currentPrice == Some(24000.0) && l.revenuePerMonth == Some(1000.0)
    ensures ComputeRatios(l).revenueMultiple == Some(2.0)
    ensures VerdictOf(l) == Fair
  {
  }

  /** A multiple of exactly 4 is still fair; one dollar more is overpriced. */
  lemma UpperBoundary(l: Listing)
    requires l.revenuePerMonth == Some(1000.0)
    requires l.currentPrice == Some(48000.0) || l.currentPrice == Some(48001.0)
    ensures l.currentPrice == Some(48000.0) ==> VerdictOf(l) == Fair
    ensures l.currentPrice == Some(48001.0) ==> VerdictOf(l) == Overpriced
  {
  }

  /** A non-negative price over a negative revenue gives a multiple of at
      most zero, which the analyzer reports as underpriced. */
  lemma NegativeRevenueIsUnderpriced(l: Listing)
    requires l.currentPrice.Some? && l.currentPrice.value >= 0.0
    requires l.revenuePerMonth.Some? && l.revenuePerMonth.value < 0.0
    ensures ComputeRatios(l).revenueMultiple.Some?
    ensures ComputeRatios(l).revenueMultiple.value <= 0.0
    ensures VerdictOf(l) == Underpriced
  {
    var m := ComputeRatios(l).revenueMultiple.value;
    var d := l.revenuePerMonth.value * 12.0;
    assert m * d == l.currentPrice.value;
  }

  /** At most one traffic factor is raised, and 1000 uniques is not low. */
  lemma TrafficFactorsExclusive(l: Listing)
    ensures !(NoTrafficData in RiskFactors(l) && LowTraffic in RiskFactors(l))
    ensures l.uniquesPerMonth == Some(1000.0) ==>
              NoTrafficData !in RiskFactors(l) && LowTraffic !in RiskFactors(l)
  {
  }

  /** A description is flagged as short only when it is present and shorter
      than 100 characters; a missing description is never flagged. */
  lemma ShortDescriptionIff(l: Listing)
    ensures ShortDescription in RiskFactors(l) <==>
              l.summary.Some? && |l.summary.value| < 100
  {
  }

  /** A listing with known non-zero revenue and profit, at least 1000
      uniques, both verifications, a super seller, bids, images, a long
      description and no confidentiality raises no risk factor. */
  lemma CleanListingHasNoRisks(l: Listing)
    requires Usable(l.revenuePerMonth) && Usable(l.profitPerMonth)
    requires l.uniquesPerMonth.Some? && l.uniquesPerMonth.value >= 1000.0
    requires l.hasVerifiedRevenue && l.hasVerifiedTraffic && l.superSeller
    requires l.bidCount != 0 && l.imageCount > 0
    requires l.summary.Some? && |l.summary.value| >= 100
    requires !l.confidential
    ensures RiskFactors(l) == []
  {
    assert forall f :: !Raised(l, f);
  }

  lemma RankInjective(x: RiskFactor, y: RiskFactor)
    requires Rank(x) == Rank(y)
    ensures x == y
  {
  }

  /** In an ordered factor list the head has the smallest rank, and the tail
      holds every other member. */
  lemma OrderedHeadAndTail(a: seq<RiskFactor>)
    requires InEmittedOrder(a) && |a| > 0
    ensures forall f | f in a :: Rank(a[0]) <= Rank(f)
    ensures forall f :: f in a[1..] <==> f in a && f != a[0]
  {
    forall f
      ensures f in a[1..] <==> f in a && f != a[0]
    {
      if f in a && f != a[0] {
        var k :| 0 <= k < |a| && a[k] == f;
        assert a[1..][k - 1] == f;
      }
      if f in a[1..] {
        var k :| 0 <= k < |a| - 1 && a[1..][k] == f;
        assert Rank(a[0]) < Rank(a[k + 1]);
      }
    }
  }

  /** The factor list is determined by which factors are raised: two lists
      in emitted order with the same members are equal. */
  lemma {:induction false} EmittedOrderUnique(a: seq<RiskFactor>, b: seq<RiskFactor>)
    requires InEmittedOrder(a) && InEmittedOrder(b)
    requires forall f :: f in a <==> f in b
    ensures a == b
  {
    if |a| > 0 {
      assert a[0] in b;
    }
    if |b| > 0 {
      assert b[0] in a;
    }
    if |a| > 0 && |b| > 0 {
      OrderedHeadAndTail(a);
      OrderedHeadAndTail(b);
      RankInjective(a[0], b[0]);
      assert InEmittedOrder(a[1..]) && InEmittedOrder(b[1..]);
      EmittedOrderUnique(a[1..], b[1..]);
      assert a == [a[0]] + a[1..] && b == [b[0]] + b[1..];
    }
  }
}

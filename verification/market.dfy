/** The aggregation of the `flippa_market_overview` handler
    (dist/tools/market.js): one search per category (the requested one, or
    every major category), then totals, a per-category breakdown ordered by
    count, statistics over every fetched listing, the average revenue
    multiple and the share of listings with verified revenue.  The
    concurrent fan-out is a fold over the responses in category order. */
module Market {
  import opened Wrappers
  import opened Constants
  import opened Stats
  import opened Listings
  import opened Client
  import opened Schemas

  /** Listings fetched per category. */
  const MarketPageSize: int := 100

  /** One line of the per-category breakdown. */
  datatype TypeStats = TypeStats(propertyType: string, count: int, avgPrice: Option<int>, avgRevenue: Option<int>)

  datatype Overview = Overview(
    totalListings: int,
    breakdown: seq<TypeStats>,
    priceStats: Option<NumericStats>,
    revenueStats: Option<NumericStats>,
    profitStats: Option<NumericStats>,
    avgRevenueMultiple: Option<real>,
    verifiedPercentage: real)

  /** What one invocation does: the searches in order and the outcome. */
  datatype MarketRun = MarketRun(requests: seq<SearchParams>, result: Result<Overview, ApiError>)

  /** A category with the page fetched for it. */
  datatype Page = Page(propertyType: string, response: SearchResponse)

  // ---------------------------------------------------------------------
  // Fan-out

  /** The categories queried: the requested one alone, or all major ones. */
  function Categories(input: MarketInput): (cs: seq<string>)
    ensures Truthy(input.propertyType) ==> cs == [input.propertyType.value]
    ensures !Truthy(input.propertyType) ==> cs == MajorPropertyTypes
  {
    if Truthy(input.propertyType) then [input.propertyType.value] else MajorPropertyTypes
  }

  /** The search for one category: open listings, 100 per page. */
  function CategoryQuery(category: string): SearchParams {
    SearchParams(None, Some(MarketPageSize), Some(category), Some("open"), None, None)
  }

  function Queries(cats: seq<string>): (qs: seq<SearchParams>)
    ensures |qs| == |cats|
    ensures forall i | 0 <= i < |cats| :: qs[i] == CategoryQuery(cats[i])
  {
    if |cats| == 0 then [] else [CategoryQuery(cats[0])] + Queries(cats[1..])
  }

  /** Pairs each category with its page; the first failed response, in
      category order, fails the whole collection. */
  function Collect(cats: seq<string>, responses: seq<Result<SearchResponse, ApiError>>): (r: Result<seq<Page>, ApiError>)
    requires |cats| == |responses|
    ensures r.Success? <==> forall i | 0 <= i < |responses| :: responses[i].Success?
    ensures r.Success? ==> |r.value| == |cats|
    ensures r.Success? ==> forall i | 0 <= i < |cats| :: r.value[i] == Page(cats[i], responses[i].value)
    ensures r.Failure? ==>
              exists i | 0 <= i < |responses| ::
                responses[i] == Failure(r.error) && forall j | 0 <= j < i :: responses[j].Success?
  {
    if |cats| == 0 then Success([])
    else
      match responses[0]
      case Failure(e) => Failure(e)
      case Success(response) =>
        var rest := Collect(cats[1..], responses[1..]);
        assert forall i | 0 <= i < |responses| - 1 :: responses[1..][i] == responses[i + 1];
        if rest.Failure? then
          var k :| 0 <= k < |responses| - 1 && responses[1..][k] == Failure(rest.error)
                   && forall j | 0 <= j < k :: responses[1..][j].Success?;
          assert responses[k + 1] == Failure(rest.error);
          Failure(rest.error)
        else Success([Page(cats[0], response)] + rest.value)
  }

  // ---------------------------------------------------------------------
  // Per-category breakdown

  /** `Math.round(average(values))`, absent for an empty list. */
  function RoundedAverage(s: seq<real>): (r: Option<int>)
    ensures r.None? <==> |s| == 0
    ensures r.Some? ==> r.value == Round(Average(s).value)
    ensures r.Some? ==> Min(s) - 0.5 < r.value as real <= Max(s) + 0.5
  {
    match Average(s)
    case None => None
    case Some(a) => Some(Round(a))
  }

  /** A category's line: the provider's total, and rounded averages of the
      positive prices and of all known revenues on the fetched page. */
  function Entry(page: Page): (e: TypeStats)
    ensures e.propertyType == page.propertyType
    ensures e.count == page.response.meta.totalResults
    ensures e.avgPrice == RoundedAverage(PositivePrices(page.response.data))
    ensures e.avgRevenue == RoundedAverage(KnownRevenues(page.response.data))
    ensures e.avgPrice.None? <==> forall l | l in page.response.data :: !HasPositivePrice(l)
    ensures e.avgRevenue.None? <==> forall l | l in page.response.data :: l.revenuePerMonth.None?
  {
    var data := page.response.data;
    TypeStats(page.propertyType, page.response.meta.totalResults,
              RoundedAverage(PositivePrices(data)), RoundedAverage(KnownRevenues(data)))
  }

  function Entries(pages: seq<Page>): (es: seq<TypeStats>)
    ensures |es| == |pages|
    ensures forall i | 0 <= i < |pages| :: es[i] == Entry(pages[i])
  {
    if |pages| == 0 then [] else [Entry(pages[0])] + Entries(pages[1..])
  }

  ghost predicate ByCountDesc(s: seq<TypeStats>) {
    forall i, j | 0 <= i < j < |s| :: s[i].count >= s[j].count
  }

  /** Places `e` in front of the first line whose count is not larger, so
      it follows every line with a larger count. */
  function InsertByCount(e: TypeStats, s: seq<TypeStats>): (r: seq<TypeStats>)
    requires ByCountDesc(s)
    ensures ByCountDesc(r)
    ensures multiset(r) == multiset(s) + multiset{e}
  {
    if |s| == 0 then [e]
    else if s[0].count <= e.count then [e] + s
    else
      var tail := InsertByCount(e, s[1..]);
      assert s == [s[0]] + s[1..];
      UpperBoundOfInsert(s[0].count, e, s[1..], tail);
      [s[0]] + tail
  }

  /** An upper bound on the count of `e` and of every line of `s` bounds
      every line of the list obtained by inserting `e` into `s`. */
  lemma UpperBoundOfInsert(hi: int, e: TypeStats, s: seq<TypeStats>, r: seq<TypeStats>)
    requires e.count <= hi
    requires forall i | 0 <= i < |s| :: s[i].count <= hi
    requires multiset(r) == multiset(s) + multiset{e}
    ensures forall i | 0 <= i < |r| :: r[i].count <= hi
  {
    forall i | 0 <= i < |r|
      ensures r[i].count <= hi
    {
      assert r[i] in multiset(r);
      if r[i] != e {
        assert r[i] in multiset(s);
      }
    }
  }

  /** `sort((a, b) => b.count - a.count)`: by count, largest first; lines
      with equal counts keep their order, as the stable built-in sort does. */
  function SortByCount(s: seq<TypeStats>): (r: seq<TypeStats>)
    ensures ByCountDesc(r)
    ensures multiset(r) == multiset(s)
    ensures |r| == |s|
  {
    if |s| == 0 then []
    else
      assert s == [s[0]] + s[1..];
      var r := InsertByCount(s[0], SortByCount(s[1..]));
      assert |r| == |multiset(r)| == |multiset(s)| == |s|;
      r
  }

  // ---------------------------------------------------------------------
  // Totals over every fetched page

  /** Sum of the provider totals. */
  function TotalResults(pages: seq<Page>): int {
    if |pages| == 0 then 0 else pages[0].response.meta.totalResults + TotalResults(pages[1..])
  }

  /** Every fetched listing, page after page. */
  function AllListings(pages: seq<Page>): seq<Listing> {
    if |pages| == 0 then [] else pages[0].response.data + AllListings(pages[1..])
  }

  /** Folding two runs of pages one after the other: totals add up and the
      listings concatenate in order. */
  lemma {:induction false} FoldAppend(p: seq<Page>, q: seq<Page>)
    ensures TotalResults(p + q) == TotalResults(p) + TotalResults(q)
    ensures AllListings(p + q) == AllListings(p) + AllListings(q)
  {
    if |p| > 0 {
      assert (p + q)[1..] == p[1..] + q;
      FoldAppend(p[1..], q);
    } else {
      assert p + q == q;
    }
  }

  /** The total counts what the provider reports, not what was fetched:
      pages that agree on their reported totals give the same total,
      whatever listings they carry. */
  lemma {:induction false} TotalIgnoresData(p: seq<Page>, q: seq<Page>)
    requires |p| == |q|
    requires forall i | 0 <= i < |p| :: p[i].response.meta.totalResults == q[i].response.meta.totalResults
    ensures TotalResults(p) == TotalResults(q)
  {
    if |p| > 0 {
      TotalIgnoresData(p[1..], q[1..]);
    }
  }

  /** Every listing of every page is among the fetched listings. */
  lemma {:induction false} AllListingsHasEveryPage(pages: seq<Page>, i: int, l: Listing)
    requires 0 <= i < |pages| && l in pages[i].response.data
    ensures l in AllListings(pages)
  {
    if i > 0 {
      AllListingsHasEveryPage(pages[1..], i - 1, l);
    }
  }

  /** `Math.round(average(multiples) * 100) / 100`, absent when no listing
      has both a positive price and a positive revenue. */
  function AverageMultiple(all: seq<Listing>): (r: Option<real>)
    ensures r.None? <==> forall l | l in all :: !HasPositivePriceAndRevenue(l)
    ensures r.Some? ==> r.value >= 0.0
    ensures r.Some? ==> r.value == Round2(Average(RevenueMultiples(all)).value)
  {
    var multiples := RevenueMultiples(all);
    if |multiples| == 0 then None
    else
      var a := Average(multiples).value;
      assert multiples[0] in multiples;
      assert a >= Min(multiples) > 0.0;
      RoundMonotone(0.0, a * 100.0);
      RoundOfInteger(0);
      Some(Round2(a))
  }

  /** The share of fetched listings with verified revenue, to three
      decimals; 0 when nothing was fetched. */
  function VerifiedShare(all: seq<Listing>): (r: real)
    ensures 0.0 <= r <= 1.0
    ensures |all| == 0 ==> r == 0.0
    ensures |all| > 0 ==> r == Round3(VerifiedCount(all) as real / |all| as real)
  {
    if |all| == 0 then 0.0
    else
      var x := VerifiedCount(all) as real / |all| as real;
      QuotientBounds(VerifiedCount(all) as real, |all| as real, 0.0, 1.0);
      RoundMonotone(0.0, x * 1000.0);
      RoundMonotone(x * 1000.0, 1000.0);
      RoundOfInteger(0);
      RoundOfInteger(1000);
      Round3(x)
  }

  /** The overview of a complete set of pages. */
  function Aggregate(pages: seq<Page>): (o: Overview)
    ensures o.totalListings == TotalResults(pages)
    ensures ByCountDesc(o.breakdown)
    ensures multiset(o.breakdown) == multiset(Entries(pages))
    ensures o.priceStats == ComputeStats(PositivePrices(AllListings(pages)))
    ensures o.revenueStats == ComputeStats(KnownRevenues(AllListings(pages)))
    ensures o.profitStats == ComputeStats(KnownProfits(AllListings(pages)))
    ensures o.priceStats.None? <==> forall l | l in AllListings(pages) :: !HasPositivePrice(l)
    ensures o.revenueStats.None? <==> forall l | l in AllListings(pages) :: l.revenuePerMonth.None?
    ensures o.profitStats.None? <==> forall l | l in AllListings(pages) :: l.profitPerMonth.None?
    ensures o.avgRevenueMultiple == AverageMultiple(AllListings(pages))
    ensures o.verifiedPercentage == VerifiedShare(AllListings(pages))
    ensures 0.0 <= o.verifiedPercentage <= 1.0
  {
    var all := AllListings(pages);
    Overview(
      TotalResults(pages),
      SortByCount(Entries(pages)),
      ComputeStats(PositivePrices(all)),
      ComputeStats(KnownRevenues(all)),
      ComputeStats(KnownProfits(all)),
      AverageMultiple(all),
      VerifiedShare(all))
  }

  /** One invocation, given the provider's answer to each category's
      search, in category order. */
  function MarketOverview(input: MarketInput, responses: seq<Result<SearchResponse, ApiError>>): (run: MarketRun)
    requires |responses| == |Categories(input)|
    ensures run.requests == Queries(Categories(input))
    ensures run.result.Success? <==> forall i | 0 <= i < |responses| :: responses[i].Success?
    ensures run.result.Failure? ==>
              exists i | 0 <= i < |responses| ::
                responses[i] == Failure(run.result.error) && forall j | 0 <= j < i :: responses[j].Success?
    ensures run.result.Success? ==> run.result == Success(Aggregate(Collect(Categories(input), responses).value))
  {
    var cats := Categories(input);
    var requests := Queries(cats);
    match Collect(cats, responses)
    case Failure(e) => MarketRun(requests, Failure(e))
    case Success(pages) => MarketRun(requests, Success(Aggregate(pages)))
  }

  /** With a category given there is exactly one search, and the breakdown
      is that category's line, counting the provider's total. */
  lemma SingleCategory(input: MarketInput, response: SearchResponse)
    requires Truthy(input.propertyType)
    ensures var run := MarketOverview(input, [Success(response)]);
            && run.requests == [CategoryQuery(input.propertyType.value)]
            && run.result.Success?
            && run.result.value.totalListings == response.meta.totalResults
            && run.result.value.breakdown == [Entry(Page(input.propertyType.value, response))]
            && run.result.value.breakdown[0].count == response.meta.totalResults
  {
    var page := Page(input.propertyType.value, response);
    var pages := Collect([input.propertyType.value], [Success(response)]).value;
    assert pages == [page];
    var sorted := SortByCount(Entries(pages));
    assert Entries(pages) == [Entry(page)];
    assert |sorted| == 1 && sorted[0] in multiset(sorted);
    assert TotalResults(pages) == response.meta.totalResults;
  }

  /** Without a category every major category is searched, in order, and
      every listing of every page is aggregated. */
  lemma EveryMajorCategory(input: MarketInput, responses: seq<Result<SearchResponse, ApiError>>)
    requires !Truthy(input.propertyType) && |responses| == |MajorPropertyTypes|
    ensures var run := MarketOverview(input, responses);
            && |run.requests| == 10
            && (forall i | 0 <= i < 10 :: run.requests[i].propertyType == Some(MajorPropertyTypes[i]))
            && (run.result.Success? ==>
                  var pages := Collect(MajorPropertyTypes, responses).value;
                  forall i, l | 0 <= i < 10 && l in responses[i].value.data :: l in AllListings(pages))
  {
    var run := MarketOverview(input, responses);
    if run.result.Success? {
      var pages := Collect(MajorPropertyTypes, responses).value;
      forall i, l | 0 <= i < 10 && l in responses[i].value.data
        ensures l in AllListings(pages)
      {
        assert pages[i].response == responses[i].value;
        AllListingsHasEveryPage(pages, i, l);
      }
    }
  }
}

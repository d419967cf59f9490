/** The selection and aggregation of the `flippa_comparable_sales` handler
    (src/tools/compare.ts): find the category, fetch one page of open
    listings in it, drop the target, narrow to a revenue band around the
    target when that leaves something, cut to the page size, and summarise
    the prices. */
module Comparables {
  import opened Wrappers
  import opened Stats
  import opened Listings
  import opened Client
  import opened Schemas
  import opened Sequences

  /** A call the handler makes to the client. */
  datatype Outgoing = FetchListing(id: string) | SearchFor(params: SearchParams)

  /** Neither a listing nor a category to compare against, or a failed call. */
  datatype CompareError = MissingCriteria | Api(error: ApiError)

  datatype PriceRange = PriceRange(min: real, max: real)

  datatype ComparablesResult = ComparablesResult(
    target: Option<Listing>,
    comparables: seq<Listing>,
    avgPrice: Option<real>,
    medianPrice: Option<real>,
    avgRevenueMultiple: Option<real>,
    priceRange: Option<PriceRange>)

  /** What one invocation does: the calls in order and the outcome. */
  datatype CompareRun = CompareRun(requests: seq<Outgoing>, result: Result<ComparablesResult, CompareError>)

  /** The category searched: the explicit one when non-empty, otherwise the
      fetched target's. */
  function Category(input: CompareInput, target: Option<Listing>): (c: Option<string>)
    ensures Truthy(input.propertyType) ==> c == input.propertyType
    ensures !Truthy(input.propertyType) && target.Some? ==> c == Some(target.value.propertyType)
    ensures target.None? ==> c == input.propertyType
  {
    if target.Some? && !Truthy(input.propertyType) then Some(target.value.propertyType)
    else input.propertyType
  }

  /** The search for candidates. */
  function CandidateQuery(input: CompareInput, category: Option<string>): SearchParams {
    SearchParams(None, Some(input.pageSize), category, Some("open"), None, Some("most_relevant"))
  }

  /** Not the requested listing.  An absent id excludes nothing. */
  predicate NotTarget(listingId: Option<string>, l: Listing) {
    listingId != Some(l.id)
  }

  /** The target's monthly revenue, when it is known and positive. */
  function BandCentre(target: Option<Listing>): Option<real> {
    if target.Some? && target.value.revenuePerMonth.Some? && target.value.revenuePerMonth.value > 0.0
    then target.value.revenuePerMonth
    else None
  }

  /** The filter that drops the requested listing. */
  function Excluding(listingId: Option<string>): Listing -> bool {
    l => NotTarget(listingId, l)
  }

  /** Monthly revenue known and between half and twice `r`, both ends
      included. */
  predicate InBand(r: real, l: Listing) {
    l.revenuePerMonth.Some? && r * 0.5 <= l.revenuePerMonth.value <= r * 2.0
  }

  /** The filter that keeps the listings in the band around `r`. */
  function InBandOf(r: real): Listing -> bool {
    l => InBand(r, l)
  }

  /** The revenue band, applied only around a target with positive revenue
      and only when it keeps at least one candidate. */
  function ApplyBand(candidates: seq<Listing>, target: Option<Listing>): (r: seq<Listing>)
    ensures Subseq(r, candidates)
    ensures BandCentre(target).None? ==> r == candidates
    ensures BandCentre(target).Some? ==>
              var c := BandCentre(target).value;
              if exists l | l in candidates :: InBand(c, l) then
                && (forall l | l in r :: InBand(c, l))
                && (forall l | l in candidates && InBand(c, l) :: l in r)
              else r == candidates
  {
    SubseqRefl(candidates);
    match BandCentre(target)
    case None => candidates
    case Some(c) =>
      var banded := Filter(candidates, InBandOf(c));
      if |banded| > 0 then
        SubseqMembers(banded, candidates);
        assert banded[0] in candidates && InBand(c, banded[0]);
        banded
      else
        assert forall l | l in candidates :: !InBand(c, l);
        candidates
  }

  /** The comparables drawn from the fetched page. */
  function Select(input: CompareInput, target: Option<Listing>, page: seq<Listing>): (r: seq<Listing>)
    requires input.pageSize >= 0
    ensures Subseq(r, page)
    ensures |r| <= input.pageSize
    ensures forall l | l in r :: NotTarget(input.listingId, l)
  {
    var candidates := Filter(page, Excluding(input.listingId));
    var narrowed := ApplyBand(candidates, target);
    var r := Take(narrowed, input.pageSize);
    SubseqTrans(narrowed, candidates, page);
    SubseqTrans(r, narrowed, page);
    SubseqMembers(r, narrowed);
    SubseqMembers(narrowed, candidates);
    r
  }

  /** The summary over the chosen comparables. */
  function Summarise(target: Option<Listing>, comparables: seq<Listing>): (r: ComparablesResult)
    ensures r.target == target && r.comparables == comparables
    ensures r.avgPrice == Average(PositivePrices(comparables))
    ensures r.medianPrice == Median(PositivePrices(comparables))
    ensures r.avgRevenueMultiple == Average(RevenueMultiples(comparables))
    ensures r.priceRange.None? <==> forall l | l in comparables :: !HasPositivePrice(l)
    ensures r.priceRange.Some? ==>
              && (exists l | l in comparables && HasPositivePrice(l) :: l.currentPrice == Some(r.priceRange.value.min))
              && (exists l | l in comparables && HasPositivePrice(l) :: l.currentPrice == Some(r.priceRange.value.max))
              && (forall l | l in comparables && HasPositivePrice(l) ::
                    r.priceRange.value.min <= l.currentPrice.value <= r.priceRange.value.max)
  {
    var prices := PositivePrices(comparables);
    var range := if |prices| > 0 then Some(PriceRange(Min(prices), Max(prices))) else None;
    ComparablesResult(target, comparables, Average(prices), Median(prices),
                      Average(RevenueMultiples(comparables)), range)
  }

  /** The outcome once the target, if any, is known and the candidate
      search has been answered. */
  function Conclude(input: CompareInput, target: Option<Listing>,
                    pageFetch: Result<SearchResponse, ApiError>): (r: Result<ComparablesResult, CompareError>)
    requires input.pageSize >= 0
    ensures r.Failure? <==> pageFetch.Failure?
    ensures r.Failure? ==> r.error == Api(pageFetch.error)
    ensures r.Success? ==> r.value == Summarise(target, Select(input, target, pageFetch.value.data))
    ensures r.Success? ==>
              && r.value.target == target
              && Subseq(r.value.comparables, pageFetch.value.data)
              && |r.value.comparables| <= input.pageSize
              && (forall l | l in r.value.comparables :: NotTarget(input.listingId, l))
  {
    match pageFetch
    case Failure(e) => Failure(Api(e))
    case Success(page) => Success(Summarise(target, Select(input, target, page.data)))
  }

  /** The target listing, when an id is given and its fetch succeeded. */
  function TargetOf(input: CompareInput, targetFetch: Result<Listing, ApiError>): (t: Option<Listing>)
    ensures t.Some? <==> Truthy(input.listingId) && targetFetch.Success?
    ensures t.Some? ==> t.value == targetFetch.value
  {
    if Truthy(input.listingId) && targetFetch.Success? then Some(targetFetch.value) else None
  }

  /** One invocation.  `targetFetch` answers the fetch of the requested
      listing and is consulted only when a listing id is given; `pageFetch`
      answers the candidate search. */
  function Compare(input: CompareInput, targetFetch: Result<Listing, ApiError>,
                   pageFetch: Result<SearchResponse, ApiError>): (run: CompareRun)
    requires input.pageSize >= 0
    ensures run.result == Failure(MissingCriteria) <==>
              !Truthy(input.listingId) && !Truthy(input.propertyType)
    ensures run.result == Failure(MissingCriteria) ==> run.requests == []
    ensures Truthy(input.listingId) ==> |run.requests| >= 1 && run.requests[0] == FetchListing(input.listingId.value)
    ensures !Truthy(input.listingId) && Truthy(input.propertyType) ==>
              run.requests == [SearchFor(CandidateQuery(input, input.propertyType))]
    ensures Truthy(input.listingId) && targetFetch.Failure? ==>
              run.requests == [FetchListing(input.listingId.value)] && run.result == Failure(Api(targetFetch.error))
    ensures Truthy(input.listingId) && targetFetch.Success? ==>
              run.requests == [FetchListing(input.listingId.value),
                               SearchFor(CandidateQuery(input, Category(input, Some(targetFetch.value))))]
    ensures run.result.Success? ==>
              && pageFetch.Success?
              && Subseq(run.result.value.comparables, pageFetch.value.data)
              && |run.result.value.comparables| <= input.pageSize
              && (forall l | l in run.result.value.comparables :: NotTarget(input.listingId, l))
              && (run.result.value.target.Some? <==> Truthy(input.listingId))
    ensures run.result != Failure(MissingCriteria) && !(Truthy(input.listingId) && targetFetch.Failure?) ==>
              run.result == Conclude(input, TargetOf(input, targetFetch), pageFetch)
  {
    var fetchTarget := if Truthy(input.listingId) then [FetchListing(input.listingId.value)] else [];
    if Truthy(input.listingId) && targetFetch.Failure? then
      CompareRun(fetchTarget, Failure(Api(targetFetch.error)))
    else
      var target := TargetOf(input, targetFetch);
      var category := Category(input, target);
      if !Truthy(category) && !Truthy(input.listingId) then
        CompareRun([], Failure(MissingCriteria))
      else
        CompareRun(fetchTarget + [SearchFor(CandidateQuery(input, category))], Conclude(input, target, pageFetch))
  }

  /** An explicit category wins over the target's. */
  lemma ExplicitCategoryWins(input: CompareInput, targetFetch: Result<Listing, ApiError>,
                             pageFetch: Result<SearchResponse, ApiError>)
    requires input.pageSize >= 0 && Truthy(input.propertyType)
    ensures var run := Compare(input, targetFetch, pageFetch);
            run.result != Failure(MissingCriteria) &&
            (forall o | o in run.requests && o.SearchFor? :: o.params.propertyType == input.propertyType)
  {
    if Truthy(input.listingId) && targetFetch.Success? {
      assert Category(input, Some(targetFetch.value)) == input.propertyType;
    }
  }

  /** Without an explicit category the target's is used. */
  lemma TargetCategoryUsed(input: CompareInput, target: Listing,
                           pageFetch: Result<SearchResponse, ApiError>)
    requires input.pageSize >= 0 && Truthy(input.listingId) && !Truthy(input.propertyType)
    ensures Compare(input, Success(target), pageFetch).requests[1].params.propertyType == Some(target.propertyType)
  {
    var run := Compare(input, Success(target), pageFetch);
    var query := CandidateQuery(input, Category(input, Some(target)));
    assert run.requests == [FetchListing(input.listingId.value), SearchFor(query)];
    assert query.propertyType == Some(target.propertyType);
  }

  /** Without a target of positive revenue there is no band: the
      comparables are the first `page_size` listings other than the
      requested one, in page order. */
  lemma SelectWithoutBand(input: CompareInput, target: Option<Listing>, page: seq<Listing>)
    requires input.pageSize >= 0
    requires BandCentre(target).None?
    ensures Select(input, target, page) == Take(Filter(page, Excluding(input.listingId)), input.pageSize)
  {
  }

  /** Once some listing other than the target lies in the band, the
      comparables are the first `page_size` in-band listings other than the
      requested one, in page order. */
  lemma SelectWithinBand(input: CompareInput, target: Option<Listing>, page: seq<Listing>, sample: Listing)
    requires input.pageSize >= 0
    requires BandCentre(target).Some?
    requires sample in page && NotTarget(input.listingId, sample)
    requires InBand(BandCentre(target).value, sample)
    ensures Select(input, target, page) ==
              Take(Filter(Filter(page, Excluding(input.listingId)), InBandOf(BandCentre(target).value)), input.pageSize)
  {
  }

  /** When every listing other than the target lies outside the band, the
      band is dropped and the comparables are the first `page_size`
      candidates other than the target.  The target itself may be on the
      page: it is always in its own band but never a candidate. */
  lemma EmptyBandFallsBack(input: CompareInput, target: Listing, page: seq<Listing>)
    requires input.pageSize >= 0
    requires BandCentre(Some(target)).Some?
    requires forall l | l in page && NotTarget(input.listingId, l) :: !InBand(target.revenuePerMonth.value, l)
    ensures Select(input, Some(target), page)
            == Take(Filter(page, Excluding(input.listingId)), input.pageSize)
  {
    var candidates := Filter(page, Excluding(input.listingId));
    SubseqMembers(candidates, page);
    assert forall l | l in candidates :: NotTarget(input.listingId, l);
    assert forall l | l in candidates :: !InBand(target.revenuePerMonth.value, l);
  }

  /** Around a target with positive revenue, once any candidate is in the
      band every comparable is. */
  lemma BandHolds(input: CompareInput, target: Listing, page: seq<Listing>, sample: Listing)
    requires input.pageSize >= 0
    requires BandCentre(Some(target)).Some?
    requires sample in page && NotTarget(input.listingId, sample)
    requires InBand(target.revenuePerMonth.value, sample)
    ensures forall l | l in Select(input, Some(target), page) :: InBand(target.revenuePerMonth.value, l)
  {
    var candidates := Filter(page, Excluding(input.listingId));
    var narrowed := ApplyBand(candidates, Some(target));
    assert sample in candidates;
    SubseqMembers(Take(narrowed, input.pageSize), narrowed);
  }
}

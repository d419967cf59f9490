/** The `flippa_search_listings` handler (src/tools/search.ts): forward the
    validated filters to `searchListings`, then copy the provider's page
    with a `has_more` flag added. */
module Search {
  import opened Wrappers
  import opened Constants
  import opened Listings
  import opened Client
  import opened Schemas

  /** The result's pagination block: the provider's numbers and `has_more`. */
  datatype PageInfo = PageInfo(pageNumber: int, pageSize: int, totalResults: int, hasMore: bool)

  datatype SearchResult = SearchResult(meta: PageInfo, data: seq<Listing>)

  /** What one invocation does: the request it sends and what it returns. */
  datatype SearchRun = SearchRun(request: Request, result: Result<SearchResult, ApiError>)

  /** The `searchListings` argument built from validated input. */
  function ParamsOf(input: SearchInput): SearchParams {
    SearchParams(Some(input.pageNumber), Some(input.pageSize), input.propertyType,
                 Some(input.status), input.saleMethod, input.sortAlias)
  }

  /** More results exist beyond the pages up to and including this one. */
  predicate HasMore(m: Meta) {
    m.pageNumber * m.pageSize < m.totalResults
  }

  /** Pages needed to show `total` results `size` at a time. */
  function PageCount(total: int, size: int): (n: nat)
    requires size > 0
  {
    if total <= 0 then 0 else (total + size - 1) / size
  }

  /** `has_more` holds exactly when some page after this one has results. */
  lemma HasMoreIffPagesRemain(response: SearchResponse)
    requires response.meta.pageNumber >= 0 && response.meta.pageSize > 0
    ensures var m := response.meta;
            Assemble(response).meta.hasMore <==> m.pageNumber < PageCount(m.totalResults, m.pageSize)
  {
    var m := response.meta;
    var p, s, t := m.pageNumber, m.pageSize, m.totalResults;
    if t > 0 {
      var c := PageCount(t, s);
      assert c * s <= t + s - 1 < (c + 1) * s;
      if p < c {
        MulMonotone(p, c - 1, s);
      } else {
        MulMonotone(c, p, s);
      }
    } else {
      MulMonotone(0, p, s);
    }
  }

  lemma MulMonotone(a: int, b: int, s: int)
    requires a <= b && s >= 0
    ensures a * s <= b * s
  {
  }

  function Assemble(response: SearchResponse): (r: SearchResult)
    ensures r.meta.pageNumber == response.meta.pageNumber
    ensures r.meta.pageSize == response.meta.pageSize
    ensures r.meta.totalResults == response.meta.totalResults
    ensures r.meta.hasMore <==> response.meta.pageNumber * response.meta.pageSize < response.meta.totalResults
    ensures r.data == response.data
  {
    var m := response.meta;
    SearchResult(PageInfo(m.pageNumber, m.pageSize, m.totalResults, HasMore(m)), response.data)
  }

  /** One invocation, given the provider's answer to its request. */
  function RunSearch(input: SearchInput, response: Result<SearchResponse, ApiError>): (run: SearchRun)
    ensures run.request == SearchRequest(ParamsOf(input))
    ensures run.result.Failure? <==> response.Failure?
    ensures run.result.Failure? ==> run.result.error == response.error
    ensures run.result.Success? ==> run.result.value == Assemble(response.value)
  {
    var request := SearchRequest(ParamsOf(input));
    match response
    case Failure(e) => SearchRun(request, Failure(e))
    case Success(page) => SearchRun(request, Success(Assemble(page)))
  }

  /** Validated input reaches the wire unchanged: page number, page size
      and status always, and each optional filter exactly when it was
      given (a valid property type is never empty). */
  lemma RequestForwardsInput(input: SearchInput)
    requires ValidSearch(input)
    ensures var p := ParamsOf(input);
            && WireValue(p, "page_number") == Some(Number(input.pageNumber))
            && WireValue(p, "page_size") == Some(Number(input.pageSize))
            && WireValue(p, "filter[status]") == Some(Text(input.status))
            && WireValue(p, "filter[property_type]") == OptText(input.propertyType)
            && WireValue(p, "filter[sale_method]") == OptText(input.saleMethod)
            && WireValue(p, "sort_alias") == OptText(input.sortAlias)
  {
    if input.propertyType.Some? {
      assert forall t | t in ToolPropertyTypes :: |t| > 0;
    }
  }

  /** The first page of 45 results at 20 per page has more, the third does
      not, and a page that ends exactly on the last result does not. */
  lemma PaginationExample(data: seq<Listing>)
    ensures Assemble(SearchResponse(Meta(1, 20, 45), data)).meta.hasMore
    ensures !Assemble(SearchResponse(Meta(3, 20, 45), data)).meta.hasMore
    ensures !Assemble(SearchResponse(Meta(2, 10, 20), data)).meta.hasMore
  {
  }
}

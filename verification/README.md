# flippa-mcp core, modelled in Dafny

flippa-mcp is an MCP server. It exposes five marketplace tools: search listings, get a listing, analyze a listing, comparable sales and market overview. It talks to the Flippa listings API through an HTTP client with a sliding-window rate limiter and a retry loop.

This project models the decision and arithmetic logic behind those tools as pure Dafny functions over immutable datatypes:

- **Stats** (`stats.dfy`): the statistics kit — `median`, `average`, `computeStats` — over exact reals, with JavaScript's `Math.round` as `Floor(x + 0.5)`.
- **Listings** (`listings.dfy`): the listing record, reduced to the fields the computations read. It also holds the price, revenue, profit and multiple projections that comparables and market share.
- **Valuation** (`valuation.dfy`): `analyzeListing`. This covers the null-guarded ratios, the four-way verdict on the revenue multiple and the ordered risk factors.
- **Client** (`client.dfy`): the HTTP client's policy. This covers query-parameter cleaning and mapping, the rate limiter (with the clock readings as parameters) and the retry loop of `get` (a function of the outcome each attempt would get).
- **Search** (`search.dfy`): the search-listings handler: the forwarded request and the `has_more` flag.
- **Schemas** (`schemas.dfy`): the five input schemas, as parsers from a JSON object to a validated input. Each has an encoder back and a round-trip lemma.
- **Sequences** (`sequences.dfy`): order-preserving `filter` and `slice(0, n)`, and the subsequence relation they stay within.
- **Comparables** (`comparables.dfy`): the comparable-sales handler as a function of the parsed input and the provider's answers. It returns the calls made and the result.
- **Market** (`market.dfy`): the market overview handler as a fold over the provider's answers, one per category, in category order.
- **Formatter** (`formatter.dfy`): the response length cap, and the "N/A" branches of the money and number formatters.

Wrappers (`Option`, `Result`) and the configuration constants are in `wrappers.dfy` and `constants.dfy`.

## Model

| member | source | states |
|---|---|---|
| Stats.Min | src/utils/math.ts:29 | the minimum of a non-empty list is one of its elements and no element is smaller |
| Stats.Max | src/utils/math.ts:30 | the maximum of a non-empty list is one of its elements and no element is larger |
| Stats.Sort | src/utils/math.ts:4 | the ascending sort is sorted and is a permutation of its input |
| Stats.SortedUnique | src/utils/math.ts:4 | two sorted lists with the same elements are equal, so the median does not depend on the sorting algorithm |
| Stats.Median | src/utils/math.ts:2-10 | absent exactly for the empty list; a one-element list gives its element; the median lies between the minimum and the maximum |
| Stats.MedianOfSorted | src/utils/math.ts:5-9 | on a sorted list the median is the middle element for odd lengths and the mean of the two middle elements for even lengths |
| Stats.MedianPermutationInvariant | src/utils/math.ts:4 | lists holding the same values in any order have the same median |
| Stats.MedianOddExample | src/utils/math.ts:2-10 | the median of 1, 3, 5 is 3 |
| Stats.MedianEvenExample | src/utils/math.ts:6-7 | the median of 1, 2, 3, 4 is 2.5 |
| Stats.MedianUnsortedExample | src/utils/math.ts:4-9 | the median of 5, 1, 3 is 3: the input is sorted before the middle is read |
| Stats.SumBounds | src/utils/math.ts:15 | if every element lies in [lo, hi], the sum lies between length·lo and length·hi |
| Stats.Average | src/utils/math.ts:13-16 | absent exactly for the empty list; otherwise it lies between the minimum and the maximum |
| Stats.AverageIsSumOverLength | src/utils/math.ts:15 | a non-empty list has an average, and the average multiplied by the length gives back the left-to-right sum |
| Stats.Round | src/utils/math.ts:31 | the rounded value is the integer r with r − 0.5 ≤ x < r + 0.5, so halves round up |
| Stats.Round2 | src/utils/math.ts:31-32 | the result is a whole number of hundredths, and it moves the value by more than −0.005 and at most +0.005, so it is the nearest hundredth with halves rounded up |
| Stats.Round3 | dist/tools/market.js:111 | the result is a whole number of thousandths, and it moves the value by more than −0.0005 and at most +0.0005, so it is the nearest thousandth with halves rounded up |
| Stats.RoundMonotone | src/utils/math.ts:31 | rounding never reverses the order of two values |
| Stats.RoundOfInteger | src/utils/math.ts:31 | rounding a whole number returns it |
| Stats.ComputeStats | src/utils/math.ts:19-34 | absent exactly for the empty list; min and max are elements that bound every element; avg and median are the two-decimal roundings of the average and the median |
| Stats.StatsWithinRange | src/utils/math.ts:26-32 | the rounded average and median lie within half a cent of the range [min, max] |
| Stats.SingletonStats | src/utils/math.ts:19-34 | a one-element list gives min = max = the element and avg = median = its rounding; all four are equal when the element has at most two decimals |
| Listings.PositivePrices | src/tools/compare.ts:104-106 | every value kept is the positive price of some listing; every positive price is kept; the list is empty exactly when no listing has a positive price |
| Listings.KnownRevenues | dist/tools/market.js:88-90 | every value kept is some listing's revenue; every known revenue (zero and negative included) is kept; empty exactly when no revenue is known |
| Listings.KnownProfits | dist/tools/market.js:91-93 | every value kept is some listing's profit; every known profit is kept; empty exactly when no profit is known |
| Listings.RevenueMultiples | src/tools/compare.ts:108-118 | every value is price / (12 · revenue) of a listing with positive price and revenue, and every such listing contributes its multiple; all values are positive; empty exactly when no listing qualifies |
| Listings.VerifiedCount | dist/tools/market.js:100 | the count is at most the number of listings; it is 0 exactly when none has verified revenue, and it equals the number of listings exactly when all do |
| Listings.VerifiedCountAppend | dist/tools/market.js:100 | counts add up over concatenated lists, and one listing counts 1 exactly when its revenue is verified, so the count is the number of verified listings |
| Listings.PositivePricesGather | src/tools/compare.ts:104-106 | the positive prices are the listings' own prices in listing order, one per listing with a positive price, repeated values kept |
| Listings.PositivePricesAppend | src/tools/compare.ts:104-106 | the positive prices of two lists joined are those of the first followed by those of the second; one listing contributes its price exactly when it is positive |
| Listings.KnownRevenuesGather | dist/tools/market.js:88-90 | the known revenues are the listings' revenues in listing order, one per listing whose revenue is known, repeated values kept |
| Listings.KnownRevenuesAppend | dist/tools/market.js:88-90 | known revenues of joined lists are those of each part in turn; one listing contributes its revenue exactly when it is known |
| Listings.KnownProfitsGather | dist/tools/market.js:91-93 | the known profits are the listings' profits in listing order, one per listing whose profit is known, repeated values kept |
| Listings.KnownProfitsAppend | dist/tools/market.js:91-93 | known profits of joined lists are those of each part in turn; one listing contributes its profit exactly when it is known |
| Listings.RevenueMultiplesGather | dist/tools/market.js:94-99 | the multiples are price / (12 · revenue) in listing order, one per listing with positive price and revenue, repeated values kept |
| Listings.RevenueMultiplesAppend | dist/tools/market.js:94-99 | multiples of joined lists are those of each part in turn; one listing contributes its multiple exactly when price and revenue are both positive |
| Valuation.Quotient | src/tools/analyze.ts:19-48 | a ratio is present exactly when the numerator is known and the divisor is known and non-zero, so nothing is ever divided by zero or null; a present ratio multiplied by its divisor gives the numerator |
| Valuation.Annualize | src/tools/analyze.ts:14-17 | annual revenue is present exactly when monthly revenue is known and non-zero, and is then twelve times it |
| Valuation.Classify | src/tools/analyze.ts:54-76 | no multiple gives insufficient data; below 2 gives underpriced; 2 to 4 inclusive gives fair; above 4 gives overpriced |
| Valuation.RiskFactorsFrom | src/tools/analyze.ts:79-112 | from position k of the order on, a factor is listed exactly when its condition holds, in strictly increasing position |
| Valuation.RiskFactors | src/tools/analyze.ts:79-112 | a factor is listed exactly when its condition holds; the list is in the fixed emission order, with no factor twice |
| Valuation.LabelReadsBack | src/tools/analyze.ts:79-112 | every risk factor's text reads back as that factor |
| Valuation.LabelsDistinct | src/tools/analyze.ts:79-112 | two factors have the same text exactly when they are the same factor, so listing factors by tag loses nothing |
| Valuation.ComputeRatios | src/tools/analyze.ts:14-48 | annual revenue is the annualised monthly revenue; each of the five ratios is present exactly when its operands are known and its divisor non-zero, and then multiplied by that divisor gives its numerator |
| Valuation.Analyze | src/tools/analyze.ts:8-130 | id, title, price, revenue and profit are copied unchanged; the verdict is the band of the revenue multiple; it is insufficient data exactly when the price is missing or the revenue is missing or zero; the risk factors are those raised |
| Valuation.LowerBoundaryIsFair | src/tools/analyze.ts:59-66 | a multiple of exactly 2 is fair |
| Valuation.UpperBoundary | src/tools/analyze.ts:65-71 | a multiple of exactly 4 is fair, and a price one dollar higher is overpriced |
| Valuation.NegativeRevenueIsUnderpriced | src/tools/analyze.ts:19-60 | a non-negative price over negative revenue gives a multiple of at most 0, which is reported as underpriced |
| Valuation.TrafficFactorsExclusive | src/tools/analyze.ts:87-91 | at most one of "no traffic data" and "very low traffic" is raised, and 1000 uniques raises neither |
| Valuation.ShortDescriptionIff | src/tools/analyze.ts:107-109 | the short-description factor is raised exactly when a summary is present and shorter than 100 characters |
| Valuation.CleanListingHasNoRisks | src/tools/analyze.ts:79-112 | a listing that meets every condition raises no factor at all |
| Valuation.EmittedOrderUnique | src/tools/analyze.ts:79-112 | two factor lists in emission order with the same members are equal, so the raised set determines the list |
| Client.CleanParams | src/services/flippa-client.ts:72-79 | a key/value pair is sent exactly when it was given with a defined value |
| Client.CleanParamsGather | src/services/flippa-client.ts:72-79 | the cleaned parameters are the defined entries, each once, in their original order |
| Client.CleanDefinedIsIdentity | src/services/flippa-client.ts:72-79 | cleaning parameters that are all defined leaves them unchanged, order included |
| Client.QueryHoldsWireValues | src/services/flippa-client.ts:146-156 | the query object holds, under each wire name, exactly the field it is named after; the property-type filter is present only for a non-empty property type |
| Client.SearchRequest | src/services/flippa-client.ts:138-159 | the search goes to /listings, and a pair is sent exactly when it is the defined value of its field under that field's wire name; the pairs are the cleaned search query, in field order |
| Client.ListingRequest | src/services/flippa-client.ts:162-164 | a listing fetch goes to /listings/ followed by the id, with no parameters |
| Client.NewRateLimiter | src/services/flippa-client.ts:62 | the client's limiter allows 60 requests per 60 000 ms and starts empty |
| Client.Prune | src/services/flippa-client.ts:26 | a timestamp is kept exactly when it is less than one window old; a first timestamp that is kept stays first |
| Client.PruneIdempotent | src/services/flippa-client.ts:26 | pruning twice at the same instant is pruning once |
| Client.WaitForSlot | src/services/flippa-client.ts:24-35 | the new ledger is the unexpired timestamps, in place and in order, followed by the resume time; the wait is positive exactly when the window is full, and then ends 10 ms after the oldest kept timestamp leaves the window |
| Client.SlidingWindowBound | src/services/flippa-client.ts:24-35 | a caller within budget that sleeps the granted time is still within budget when recorded and at every later moment |
| Client.LedgerStaysSorted | src/services/flippa-client.ts:26-34 | when times are recorded in order, the timestamp list stays sorted |
| Client.ThirdCallWaits | src/services/flippa-client.ts:28-31 | with 2 requests per second, a third call inside the window sleeps until at least one second after the first call |
| Client.StatusCode | src/services/flippa-client.ts:168-176 | an error carries a status code exactly when it is a client error, and then it is that error's status |
| Client.RetryAfterMs | src/services/flippa-client.ts:109-113 | after a 429 the sleep is Retry-After seconds, or 30 s when the header is missing, not a number, or zero |
| Client.RetryFrom | src/services/flippa-client.ts:83-134 | between 1 and 4 attempts; every attempt before the last failed in a retryable way and was followed by the policy's sleep; the last attempt decides success (its body), a client error (its status) or exhaustion (4 retryable failures) |
| Client.Get | src/services/flippa-client.ts:66-135 | one slot wait whose delay and ledger are those of the rate limiter, the cleaned parameters on the request in their original order, and the outcome of the retry loop over the attempts: between 1 and 4 attempts with one sleep fewer than attempts |
| Client.LimiterOncePerGet | src/services/flippa-client.ts:70 | the limiter after a call does not depend on how many attempts were made |
| Client.ClientErrorStopsAtOnce | src/services/flippa-client.ts:94-105 | a 4xx other than 429 ends the call after one attempt, with no sleep, with an error carrying that status |
| Client.PersistentServerError | src/services/flippa-client.ts:119-134 | a server error on every attempt gives 4 attempts, sleeps of 1, 2 and 4 seconds, and an error with no status |
| Client.SuccessAfterFailures | src/services/flippa-client.ts:83-88 | k retryable failures followed by a success return the body after k + 1 attempts |
| Client.TooManyRequests | src/services/flippa-client.ts:107-125 | 429s sleep their Retry-After (30 s by default) instead of the backoff, and a 429 on the last attempt ends in exhaustion |
| Constants.Backoff | src/services/flippa-client.ts:120-123 | the backoff before any retry is at least the 1000 ms base delay |
| Search.Assemble | src/tools/search.ts:51-61 | page number, page size, total and data are copied unchanged, and has_more holds exactly when page number · page size < total |
| Search.HasMoreIffPagesRemain | src/tools/search.ts:51-53 | has_more holds exactly when the current page number is below the number of pages the total needs |
| Search.RunSearch | src/tools/search.ts:42-61 | the request is built from the validated input; a failed call fails the tool with the same error; success returns the assembled page |
| Search.RequestForwardsInput | src/tools/search.ts:42-49 | page number, page size and status always reach the wire; each optional filter reaches it exactly when it was given |
| Search.PaginationExample | src/tools/search.ts:51-53 | with 45 results at 20 per page, page 1 has more and page 3 does not; with 20 results at 10 per page, page 2 does not |
| Schemas.ParseSearch | dist/schemas/listing.js:9-40 | accepted exactly when every key is known, each present enumeration holds an allowed string, the page number is a whole number ≥ 1 and the page size a whole number in 1–100; each present field is read as given, and absent ones take the defaults open, 1, 30 and markdown (the optional filters stay absent) |
| Schemas.SearchRoundTrip | dist/schemas/listing.js:9-40 | every valid search input is accepted back, unchanged, from its JSON form |
| Schemas.SearchDefaults | dist/schemas/listing.js:14-39 | an empty object gives status open, page 1, page size 30, markdown and no filters |
| Schemas.SearchPageSizeLimits | dist/schemas/listing.js:32-38 | page sizes 0, 101, 2.5 and the string "30" are rejected |
| Schemas.ParseListingRef | dist/schemas/listing.js:42-56 | accepted exactly when the keys are known, listing_id is a non-empty string and the format is valid; the id and the format are read as given, the format defaulting to markdown |
| Schemas.ListingRefRoundTrip | dist/schemas/listing.js:42-56 | every single-listing input with a non-empty id is accepted back from its JSON form |
| Schemas.ParseCompare | dist/schemas/listing.js:58-75 | accepted exactly when every key is known, a present listing_id is a string (empty allowed), a present property type is an allowed one, the page size a whole number in 1–20 and the format valid; the id, the type, the page size (default 10) and the format are read as given |
| Schemas.CompareRoundTrip | dist/schemas/listing.js:58-75 | every valid comparable-sales input is accepted back from its JSON form |
| Schemas.CompareAcceptsNoTarget | dist/schemas/listing.js:59-66 | the schema accepts neither id nor type, and an empty id |
| Schemas.ParseMarket | dist/schemas/listing.js:77-83 | accepted exactly when the keys are known and a present property type and format are allowed strings; both are read as given, the format defaulting to markdown |
| Schemas.MarketRoundTrip | dist/schemas/listing.js:77-83 | every valid market input is accepted back from its JSON form |
| Formatter.Truncate | src/services/formatter.ts:13-19 | text within 25 000 characters is unchanged; longer text becomes its first 24 900 characters followed by the notice; the result never exceeds 25 000 characters |
| Formatter.TruncatedSaysSo | src/services/formatter.ts:17-18 | a cut-short response contains the word "truncated" |
| Formatter.TruncatedShape | src/services/formatter.ts:17-18 | a cut-short response starts with the first 24 900 characters of the input and ends with the notice |
| Formatter.TruncateIdempotent | src/services/formatter.ts:13-19 | truncating twice is truncating once |
| Formatter.FormatUsd | src/services/formatter.ts:22-25 | "N/A" exactly for a missing amount; otherwise a dollar sign followed by the amount's rendering |
| Formatter.FormatNumber | src/services/formatter.ts:28-31 | "N/A" for a missing number; otherwise its rendering |
| Formatter.UsdIsDollarNumber | src/services/formatter.ts:22-31 | both formatters give "N/A" for a missing value; for a present one the dollar form is the number form behind a dollar sign, both rendered with the same locale |
| Sequences.Filter | src/tools/compare.ts:78-80 | the result is a subsequence of the input, every element kept satisfies the test, and each value satisfying it occurs in the result exactly as often as in the input |
| Sequences.Take | src/tools/compare.ts:101 | the first n elements, or all of them when fewer, as a prefix and so a subsequence |
| Comparables.Category | src/tools/compare.ts:44-55 | the explicit property type when it is non-empty, otherwise the fetched target's |
| Comparables.ApplyBand | src/tools/compare.ts:82-99 | without a target with positive revenue, nothing changes; otherwise, when some candidate is within half to twice that revenue, exactly the candidates in the band are kept, and otherwise all are |
| Comparables.Select | src/tools/compare.ts:78-101 | the comparables are a subsequence of the fetched page, no more than page_size, and none is the requested listing |
| Comparables.SelectWithoutBand | src/tools/compare.ts:78-101 | without a target of positive revenue the comparables are exactly the first page_size listings other than the requested one, in page order |
| Comparables.SelectWithinBand | src/tools/compare.ts:78-101 | once some listing other than the target lies in the band, the comparables are exactly the first page_size in-band listings other than the requested one, in page order |
| Comparables.Summarise | src/tools/compare.ts:104-130 | average and median over the positive prices; the average multiple over the qualifying listings; the price range is absent exactly when no price is positive, and otherwise is the smallest and largest positive price |
| Comparables.Conclude | src/tools/compare.ts:70-130 | a failed search fails with its error; a successful one is the summary of the comparables selected from the page, which are a subsequence of the page, within page_size, without the target |
| Comparables.Compare | src/tools/compare.ts:44-130 | a usage error exactly when neither listing_id nor property_type is given, and then no call is made; the fetch comes first when an id is given; with a property type but no id, exactly one search for that type; with an id, the fetch alone when it fails and otherwise the fetch then one search; a success is a bounded subsequence of the page without the target, with a target exactly when an id was given; whenever neither a usage error nor a failed fetch stops it, the result is the conclusion drawn from the fetched target and the search's answer |
| Comparables.ExplicitCategoryWins | src/tools/compare.ts:45-55 | with an explicit property type there is no usage error and every search uses that type |
| Comparables.TargetCategoryUsed | src/tools/compare.ts:52-54 | without an explicit property type the search uses the fetched target's |
| Comparables.EmptyBandFallsBack | src/tools/compare.ts:95-101 | when no listing other than the target lies in the band (the target itself may be on the page), the comparables are the first page_size candidates other than the target |
| Comparables.BandHolds | src/tools/compare.ts:82-99 | when some candidate lies in the band, every comparable does |
| Market.Categories | dist/tools/market.js:35-66 | the requested category alone, or the ten major categories in order |
| Market.Queries | dist/tools/market.js:59-66 | one search per category, in category order |
| Market.Collect | dist/tools/market.js:59-69 | success exactly when every search succeeded, pairing each category with its page in order; otherwise the error of the first failed search |
| Market.RoundedAverage | dist/tools/market.js:53-54 | absent exactly for an empty list; otherwise the rounded average, within half a unit of the range of the values |
| Market.Entry | dist/tools/market.js:70-81 | the category's line counts the provider's total and averages the page's positive prices and all its known revenues, each absent when there is nothing to average |
| Market.SortByCount | dist/tools/market.js:103 | the breakdown is ordered by count, largest first, and is a permutation of the lines |
| Market.FoldAppend | dist/tools/market.js:67-69 | folding pages one run after another adds the totals and concatenates the listings |
| Market.TotalIgnoresData | dist/tools/market.js:69 | the total depends only on the provider's reported totals, not on the listings fetched |
| Market.AllListingsHasEveryPage | dist/tools/market.js:68 | every listing of every page is among the aggregated listings |
| Market.AverageMultiple | dist/tools/market.js:94-109 | absent exactly when no listing has a positive price and a positive revenue; otherwise the two-decimal rounding of the average multiple, and never negative |
| Market.VerifiedShare | dist/tools/market.js:100-112 | 0 when nothing was fetched, otherwise the verified fraction rounded to three decimals; always between 0 and 1 |
| Market.Aggregate | dist/tools/market.js:84-113 | the total sums the provider totals; the breakdown is ordered by count and holds one line per page; price, revenue and profit stats cover all fetched listings and are absent exactly when there is nothing to measure; the share is the rounded verified fraction of all fetched listings, in [0, 1] |
| Market.MarketOverview | dist/tools/market.js:32-113 | one search per category; success exactly when every search succeeded, and then it is the aggregate of the pages; otherwise the first failure |
| Market.SingleCategory | dist/tools/market.js:35-56 | with a category given there is exactly one search, and the breakdown is one line counting the provider's total |
| Market.EveryMajorCategory | dist/tools/market.js:59-83 | without a category the ten major categories are searched in order, and every listing of every page is aggregated |

## Left out

- Transport and client construction (axios, timeouts, base URL, auth header, User-Agent, the shared client instance). An HTTP exchange is an input. Each attempt's outcome is given as a value.
- The clock and sleeping. `Date.now()` readings are parameters (`now`, `resumedAt`). Sleeps are returned as values and never performed.
- Concurrency of `Promise.all` in the market overview. The fan-out is a fold in category order. When several searches fail, the model reports the first in category order, whereas the program reports whichever rejects first in time.
- Concurrent rate limiting. `Client.SlidingWindowBound` holds for `get` calls made one after another. In the program, `waitForSlot` sleeps between counting the window and recording the timestamp. So concurrent calls that find the window full (such as the market overview's fan-out) all sleep until the same oldest timestamp expires, and then all are admitted, exceeding the budget. The model does not cover interleaved calls.
- Rendering of responses: the markdown and JSON builders, `toLocaleString`, `toFixed`. The locale rendering is a parameter of `FormatUsd` and `FormatNumber`.
- Human-readable text: the verdict's explanatory sentence (only the verdict tag is kept), error messages, and the comparable-sales usage message (only its tag `MissingCriteria` is kept).
- Error details: the last underlying error's message kept on exhaustion (only its HTTP status is kept), and the individual schema issues (a rejection carries no detail).
- Tool registration, the handlers' try/catch into `isError` results, the server entry point and the listing-details handler. These are thin wiring around the modelled functions.
- IEEE-754 arithmetic. All numbers are exact reals, so rounding artefacts of binary floating point do not appear.
- String length units. JavaScript counts UTF-16 code units and Dafny counts Unicode scalar values. The two agree on text without characters outside the Basic Multilingual Plane.
- Listing fields that no computation reads: URLs, dates, seller and relationship data. The `images` array is reduced to its length, with a missing array counted as 0.
- Constants.Backoff: its contract states only the lower bound of 1000 ms. The doubling values 1000, 2000 and 4000 ms are pinned down by `Client.PersistentServerError`.
- Market.SortByCount: its contract does not state that lines with equal counts keep their order. The insertion sort does keep it, as the stable built-in sort does.
- Client.RetryFrom: the attempt outcomes are given as a list of at least four, one for every attempt the loop could make. Only a prefix is consumed.

/** Validation of tool input (dist/schemas/listing.js): each tool accepts a
    JSON object with a fixed set of keys, checks every field's type, range
    or enumeration, fills in defaults for absent fields, and rejects any key
    it does not know. */
module Schemas {
  import opened Wrappers
  import opened Constants

  /** A JSON value as it arrives in tool input.  No field accepts arrays
      or objects, so they are all `JOther`. */
  datatype Json = JString(s: string) | JNumber(n: real) | JBool(b: bool) | JNull | JOther

  /** A tool's raw arguments: a JSON object. */
  type Input = map<string, Json>

  datatype Format = Markdown | JsonText

  /** The input was refused; the individual issues are not modelled. */
  datatype Rejected = Rejected

  // ---------------------------------------------------------------------
  // Field validators

  /** A JSON string drawn from `allowed`. */
  predicate IsTextIn(v: Json, allowed: seq<string>) {
    v.JString? && v.s in allowed
  }

  predicate IsWhole(n: real) {
    n.Floor as real == n
  }

  /** A JSON number that is a whole number of at least `lo`. */
  predicate IsWholeAtLeast(v: Json, lo: int) {
    v.JNumber? && IsWhole(v.n) && lo as real <= v.n
  }

  /** A JSON number that is a whole number in `[lo, hi]`. */
  predicate IsWholeIn(v: Json, lo: int, hi: int) {
    IsWholeAtLeast(v, lo) && v.n <= hi as real
  }

  /** An optional member of a string enumeration. */
  function EnumOpt(raw: Input, key: string, allowed: seq<string>): (r: Result<Option<string>, Rejected>)
    ensures r.Success? <==> (key in raw ==> IsTextIn(raw[key], allowed))
    ensures r.Success? ==> (r.value.Some? <==> key in raw)
    ensures r.Success? && key in raw ==> raw[key] == JString(r.value.value) && r.value.value in allowed
  {
    if key !in raw then Success(None)
    else if raw[key].JString? && raw[key].s in allowed then Success(Some(raw[key].s))
    else Failure(Rejected)
  }

  /** A member of a string enumeration with a default. */
  function EnumOr(raw: Input, key: string, allowed: seq<string>, default: string): (r: Result<string, Rejected>)
    ensures r.Success? <==> (key in raw ==> IsTextIn(raw[key], allowed))
    ensures r.Success? && key !in raw ==> r.value == default
    ensures r.Success? && key in raw ==> raw[key] == JString(r.value) && r.value in allowed
  {
    if key !in raw then Success(default)
    else if raw[key].JString? && raw[key].s in allowed then Success(raw[key].s)
    else Failure(Rejected)
  }

  /** A whole number in `[lo, hi]` with a default. */
  function IntOr(raw: Input, key: string, lo: int, hi: int, default: int): (r: Result<int, Rejected>)
    ensures r.Success? <==> (key in raw ==> IsWholeIn(raw[key], lo, hi))
    ensures r.Success? && key !in raw ==> r.value == default
    ensures r.Success? && key in raw ==> raw[key] == JNumber(r.value as real) && lo <= r.value <= hi
  {
    if key !in raw then Success(default)
    else if raw[key].JNumber? && IsWhole(raw[key].n) && lo <= raw[key].n.Floor <= hi then
      Success(raw[key].n.Floor)
    else Failure(Rejected)
  }

  /** A whole number of at least `lo` with a default; no upper bound. */
  function IntAtLeastOr(raw: Input, key: string, lo: int, default: int): (r: Result<int, Rejected>)
    ensures r.Success? <==> (key in raw ==> IsWholeAtLeast(raw[key], lo))
    ensures r.Success? && key !in raw ==> r.value == default
    ensures r.Success? && key in raw ==> raw[key] == JNumber(r.value as real) && lo <= r.value
  {
    if key !in raw then Success(default)
    else if raw[key].JNumber? && IsWhole(raw[key].n) && lo <= raw[key].n.Floor then
      Success(raw[key].n.Floor)
    else Failure(Rejected)
  }

  /** An optional string, the empty string allowed. */
  function StringOpt(raw: Input, key: string): (r: Result<Option<string>, Rejected>)
    ensures r.Success? <==> (key in raw ==> raw[key].JString?)
    ensures r.Success? ==> (r.value.Some? <==> key in raw)
    ensures r.Success? && key in raw ==> raw[key] == JString(r.value.value)
  {
    if key !in raw then Success(None)
    else if raw[key].JString? then Success(Some(raw[key].s))
    else Failure(Rejected)
  }

  /** A required non-empty string. */
  function NonEmptyString(raw: Input, key: string): (r: Result<string, Rejected>)
    ensures r.Success? <==> key in raw && raw[key].JString? && |raw[key].s| >= 1
    ensures r.Success? ==> raw[key] == JString(r.value)
  {
    if key in raw && raw[key].JString? && |raw[key].s| >= 1 then Success(raw[key].s)
    else Failure(Rejected)
  }

  const FormatNames: seq<string> := ["markdown", "json"]

  /** The shared `response_format` field: "markdown" (the default) or "json". */
  function FormatField(raw: Input): (r: Result<Format, Rejected>)
    ensures r.Success? <==> ("response_format" in raw ==> IsTextIn(raw["response_format"], FormatNames))
    ensures r.Success? && "response_format" !in raw ==> r.value == Markdown
    ensures r.Success? && "response_format" in raw ==> raw["response_format"] == JString(FormatName(r.value))
  {
    var name :- EnumOr(raw, "response_format", FormatNames, "markdown");
    Success(if name == "json" then JsonText else Markdown)
  }

  function FormatName(f: Format): string {
    match f
    case Markdown => "markdown"
    case JsonText => "json"
  }

  /** The `.strict()` check: no key outside the shape. */
  predicate OnlyKeys(raw: Input, shape: set<string>) {
    forall k | k in raw :: k in shape
  }

  /** The optional property-type filter every tool shares. */
  predicate ValidPropertyType(p: Option<string>) {
    p.None? || p.value in ToolPropertyTypes
  }

  // ---------------------------------------------------------------------
  // flippa_search_listings

  datatype SearchInput = SearchInput(
    propertyType: Option<string>,
    status: string,
    saleMethod: Option<string>,
    sortAlias: Option<string>,
    pageNumber: int,
    pageSize: int,
    format: Format)

  const SearchShape: set<string> :=
    {"property_type", "status", "sale_method", "sort_alias", "page_number", "page_size", "response_format"}

  predicate ValidSearch(p: SearchInput) {
    && ValidPropertyType(p.propertyType)
    && p.status in ListingStatuses
    && (p.saleMethod.None? || p.saleMethod.value in SaleMethods)
    && (p.sortAlias.None? || p.sortAlias.value in SortAliases)
    && p.pageNumber >= 1
    && 1 <= p.pageSize <= MaxPageSize
  }

  /** The search schema: accepted exactly when every key is known and every
      present field is valid; present fields are read as given and absent
      ones take their defaults. */
  function ParseSearch(raw: Input): (r: Result<SearchInput, Rejected>)
    ensures r.Success? <==> (&& OnlyKeys(raw, SearchShape)
                             && ("property_type" in raw ==> IsTextIn(raw["property_type"], ToolPropertyTypes))
                             && ("status" in raw ==> IsTextIn(raw["status"], ListingStatuses))
                             && ("sale_method" in raw ==> IsTextIn(raw["sale_method"], SaleMethods))
                             && ("sort_alias" in raw ==> IsTextIn(raw["sort_alias"], SortAliases))
                             && ("page_number" in raw ==> IsWholeAtLeast(raw["page_number"], 1))
                             && ("page_size" in raw ==> IsWholeIn(raw["page_size"], 1, MaxPageSize))
                             && ("response_format" in raw ==> IsTextIn(raw["response_format"], FormatNames)))
    ensures r.Success? ==> ValidSearch(r.value)
    ensures r.Success? ==> ("status" !in raw ==> r.value.status == "open")
    ensures r.Success? ==> ("status" in raw ==> raw["status"] == JString(r.value.status))
    ensures r.Success? ==> ("page_number" !in raw ==> r.value.pageNumber == 1)
    ensures r.Success? ==> ("page_number" in raw ==> raw["page_number"] == JNumber(r.value.pageNumber as real))
    ensures r.Success? ==> ("page_size" !in raw ==> r.value.pageSize == DefaultPageSize)
    ensures r.Success? ==> ("page_size" in raw ==> raw["page_size"] == JNumber(r.value.pageSize as real))
    ensures r.Success? ==> (r.value.propertyType.Some? <==> "property_type" in raw)
    ensures r.Success? ==> ("property_type" in raw ==> raw["property_type"] == JString(r.value.propertyType.value))
    ensures r.Success? ==> (r.value.saleMethod.Some? <==> "sale_method" in raw)
    ensures r.Success? ==> ("sale_method" in raw ==> raw["sale_method"] == JString(r.value.saleMethod.value))
    ensures r.Success? ==> (r.value.sortAlias.Some? <==> "sort_alias" in raw)
    ensures r.Success? ==> ("sort_alias" in raw ==> raw["sort_alias"] == JString(r.value.sortAlias.value))
    ensures r.Success? ==> ("response_format" !in raw ==> r.value.format == Markdown)
    ensures r.Success? ==> ("response_format" in raw ==> raw["response_format"] == JString(FormatName(r.value.format)))
  {
    if !OnlyKeys(raw, SearchShape) then Failure(Rejected)
    else
      var propertyType := EnumOpt(raw, "property_type", ToolPropertyTypes);
      var status := EnumOr(raw, "status", ListingStatuses, "open");
      var saleMethod := EnumOpt(raw, "sale_method", SaleMethods);
      var sortAlias := EnumOpt(raw, "sort_alias", SortAliases);
      var pageNumber := IntAtLeastOr(raw, "page_number", 1, 1);
      var pageSize := IntOr(raw, "page_size", 1, MaxPageSize, DefaultPageSize);
      var format := FormatField(raw);
      if && propertyType.Success? && status.Success? && saleMethod.Success? && sortAlias.Success?
         && pageNumber.Success? && pageSize.Success? && format.Success?
      then
        Success(SearchInput(propertyType.value, status.value, saleMethod.value, sortAlias.value,
                            pageNumber.value, pageSize.value, format.value))
      else Failure(Rejected)
  }

  /** `raw` with an optional text field added, unchanged when `None`. */
  function WithOpt(raw: Input, key: string, v: Option<string>): Input {
    if v.Some? then raw[key := JString(v.value)] else raw
  }

  /** The canonical JSON form of a search input: every field spelled out. */
  function EncodeSearch(p: SearchInput): Input {
    var base := map["status" := JString(p.status),
                    "page_number" := JNumber(p.pageNumber as real),
                    "page_size" := JNumber(p.pageSize as real),
                    "response_format" := JString(FormatName(p.format))];
    WithOpt(WithOpt(WithOpt(base, "property_type", p.propertyType), "sale_method", p.saleMethod),
            "sort_alias", p.sortAlias)
  }

  /** Each field of a valid search input reads back from its JSON form. */
  lemma SearchFieldsReadBack(p: SearchInput)
    requires ValidSearch(p)
    ensures var raw := EncodeSearch(p);
            && OnlyKeys(raw, SearchShape)
            && EnumOpt(raw, "property_type", ToolPropertyTypes) == Success(p.propertyType)
            && EnumOr(raw, "status", ListingStatuses, "open") == Success(p.status)
            && EnumOpt(raw, "sale_method", SaleMethods) == Success(p.saleMethod)
            && EnumOpt(raw, "sort_alias", SortAliases) == Success(p.sortAlias)
  {
  }

  lemma SearchNumbersReadBack(p: SearchInput)
    requires ValidSearch(p)
    ensures var raw := EncodeSearch(p);
            && IntAtLeastOr(raw, "page_number", 1, 1) == Success(p.pageNumber)
            && IntOr(raw, "page_size", 1, MaxPageSize, DefaultPageSize) == Success(p.pageSize)
            && FormatField(raw) == Success(p.format)
  {
    assert (p.pageNumber as real).Floor == p.pageNumber;
    assert (p.pageSize as real).Floor == p.pageSize;
  }

  /** Every valid search input is accepted back from its JSON form. */
  lemma SearchRoundTrip(p: SearchInput)
    requires ValidSearch(p)
    ensures ParseSearch(EncodeSearch(p)) == Success(p)
  {
    SearchFieldsReadBack(p);
    SearchNumbersReadBack(p);
  }

  /** An empty object takes every default. */
  lemma SearchDefaults()
    ensures ParseSearch(map[]) == Success(SearchInput(None, "open", None, None, 1, DefaultPageSize, Markdown))
  {
  }

  /** The page size must be a whole number between 1 and 100. */
  lemma SearchPageSizeLimits(raw: Input)
    requires OnlyKeys(raw, SearchShape)
    ensures ParseSearch(raw["page_size" := JNumber(0.0)]).Failure?
    ensures ParseSearch(raw["page_size" := JNumber(101.0)]).Failure?
    ensures ParseSearch(raw["page_size" := JNumber(2.5)]).Failure?
    ensures ParseSearch(raw["page_size" := JString("30")]).Failure?
  {
  }

  // ---------------------------------------------------------------------
  // flippa_get_listing and flippa_analyze_listing

  /** Both single-listing tools take the same shape. */
  datatype ListingInput = ListingInput(listingId: string, format: Format)

  const ListingShape: set<string> := {"listing_id", "response_format"}

  function ParseListingRef(raw: Input): (r: Result<ListingInput, Rejected>)
    ensures !OnlyKeys(raw, ListingShape) ==> r.Failure?
    ensures "listing_id" !in raw ==> r.Failure?
    ensures r.Success? ==> |r.value.listingId| >= 1 && raw["listing_id"] == JString(r.value.listingId)
    ensures r.Success? <==> (&& OnlyKeys(raw, ListingShape)
                             && "listing_id" in raw && raw["listing_id"].JString? && raw["listing_id"].s != ""
                             && ("response_format" in raw ==> IsTextIn(raw["response_format"], FormatNames)))
    ensures r.Success? ==> ("response_format" !in raw ==> r.value.format == Markdown)
    ensures r.Success? ==> ("response_format" in raw ==> raw["response_format"] == JString(FormatName(r.value.format)))
  {
    if !OnlyKeys(raw, ListingShape) then Failure(Rejected)
    else
      var id :- NonEmptyString(raw, "listing_id");
      var format :- FormatField(raw);
      Success(ListingInput(id, format))
  }

  function EncodeListingRef(p: ListingInput): Input {
    map["listing_id" := JString(p.listingId), "response_format" := JString(FormatName(p.format))]
  }

  lemma ListingRefRoundTrip(p: ListingInput)
    requires |p.listingId| >= 1
    ensures ParseListingRef(EncodeListingRef(p)) == Success(p)
  {
    assert OnlyKeys(EncodeListingRef(p), ListingShape);
  }

  // ---------------------------------------------------------------------
  // flippa_comparable_sales

  datatype CompareInput = CompareInput(
    listingId: Option<string>,
    propertyType: Option<string>,
    pageSize: int,
    format: Format)

  const CompareShape: set<string> := {"listing_id", "property_type", "page_size", "response_format"}

  const DefaultComparables: int := 10
  const MaxComparables: int := 20

  predicate ValidCompare(p: CompareInput) {
    ValidPropertyType(p.propertyType) && 1 <= p.pageSize <= MaxComparables
  }

  /** The comparables schema: neither the id nor the type is required. */
  function ParseCompare(raw: Input): (r: Result<CompareInput, Rejected>)
    ensures r.Success? <==> (&& OnlyKeys(raw, CompareShape)
                             && ("listing_id" in raw ==> raw["listing_id"].JString?)
                             && ("property_type" in raw ==> IsTextIn(raw["property_type"], ToolPropertyTypes))
                             && ("page_size" in raw ==> IsWholeIn(raw["page_size"], 1, MaxComparables))
                             && ("response_format" in raw ==> IsTextIn(raw["response_format"], FormatNames)))
    ensures r.Success? ==> ValidCompare(r.value)
    ensures r.Success? ==> ("page_size" !in raw ==> r.value.pageSize == DefaultComparables)
    ensures r.Success? ==> ("page_size" in raw ==> raw["page_size"] == JNumber(r.value.pageSize as real))
    ensures r.Success? ==> (r.value.listingId.Some? <==> "listing_id" in raw)
    ensures r.Success? ==> ("listing_id" in raw ==> raw["listing_id"] == JString(r.value.listingId.value))
    ensures r.Success? ==> (r.value.propertyType.Some? <==> "property_type" in raw)
    ensures r.Success? ==> ("property_type" in raw ==> raw["property_type"] == JString(r.value.propertyType.value))
    ensures r.Success? ==> ("response_format" !in raw ==> r.value.format == Markdown)
    ensures r.Success? ==> ("response_format" in raw ==> raw["response_format"] == JString(FormatName(r.value.format)))
  {
    if !OnlyKeys(raw, CompareShape) then Failure(Rejected)
    else
      var listingId :- StringOpt(raw, "listing_id");
      var propertyType :- EnumOpt(raw, "property_type", ToolPropertyTypes);
      var pageSize :- IntOr(raw, "page_size", 1, MaxComparables, DefaultComparables);
      var format :- FormatField(raw);
      Success(CompareInput(listingId, propertyType, pageSize, format))
  }

  function EncodeCompare(p: CompareInput): Input {
    var base := map["page_size" := JNumber(p.pageSize as real), "response_format" := JString(FormatName(p.format))];
    WithOpt(WithOpt(base, "listing_id", p.listingId), "property_type", p.propertyType)
  }

  lemma CompareRoundTrip(p: CompareInput)
    requires ValidCompare(p)
    ensures ParseCompare(EncodeCompare(p)) == Success(p)
  {
    assert OnlyKeys(EncodeCompare(p), CompareShape);
    assert (p.pageSize as real).Floor == p.pageSize;
  }

  /** The schema accepts an empty listing id and an object with neither a
      listing id nor a property type; the tool itself handles those. */
  lemma CompareAcceptsNoTarget()
    ensures ParseCompare(map[]) == Success(CompareInput(None, None, DefaultComparables, Markdown))
    ensures ParseCompare(map["listing_id" := JString("")]) == Success(CompareInput(Some(""), None, DefaultComparables, Markdown))
  {
  }

  // ---------------------------------------------------------------------
  // flippa_market_overview

  datatype MarketInput = MarketInput(propertyType: Option<string>, format: Format)

  const MarketShape: set<string> := {"property_type", "response_format"}

  function ParseMarket(raw: Input): (r: Result<MarketInput, Rejected>)
    ensures r.Success? <==> (&& OnlyKeys(raw, MarketShape)
                             && ("property_type" in raw ==> IsTextIn(raw["property_type"], ToolPropertyTypes))
                             && ("response_format" in raw ==> IsTextIn(raw["response_format"], FormatNames)))
    ensures r.Success? ==> ValidPropertyType(r.value.propertyType)
    ensures r.Success? ==> (r.value.propertyType.Some? <==> "property_type" in raw)
    ensures r.Success? ==> ("property_type" in raw ==> raw["property_type"] == JString(r.value.propertyType.value))
    ensures r.Success? ==> ("response_format" !in raw ==> r.value.format == Markdown)
    ensures r.Success? ==> ("response_format" in raw ==> raw["response_format"] == JString(FormatName(r.value.format)))
  {
    if !OnlyKeys(raw, MarketShape) then Failure(Rejected)
    else
      var propertyType :- EnumOpt(raw, "property_type", ToolPropertyTypes);
      var format :- FormatField(raw);
      Success(MarketInput(propertyType, format))
  }

  function EncodeMarket(p: MarketInput): Input {
    WithOpt(map["response_format" := JString(FormatName(p.format))], "property_type", p.propertyType)
  }

  lemma MarketRoundTrip(p: MarketInput)
    requires ValidPropertyType(p.propertyType)
    ensures ParseMarket(EncodeMarket(p)) == Success(p)
  {
    assert OnlyKeys(EncodeMarket(p), MarketShape);
  }
}

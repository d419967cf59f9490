/** The listing record as decoded from the marketplace API, reduced to the
    fields the analytics read (src/types.ts), and the projections of a list
    of listings that the comparables and market computations share. */
module Listings {
  import opened Wrappers
  import opened Sequences

  /** One marketplace item.  `imageCount` is the length of the `images`
      array; a missing array and an empty one are both 0, as the source
      treats them alike. */
  datatype Listing = Listing(
    id: string,
    title: string,
    propertyType: string,
    currentPrice: Option<real>,
    revenuePerMonth: Option<real>,
    profitPerMonth: Option<real>,
    uniquesPerMonth: Option<real>,
    bidCount: int,
    hasVerifiedRevenue: bool,
    hasVerifiedTraffic: bool,
    superSeller: bool,
    confidential: bool,
    summary: Option<string>,
    imageCount: nat)

  /** Pagination metadata as reported by the provider. */
  datatype Meta = Meta(pageNumber: int, pageSize: int, totalResults: int)

  /** One page of search results. */
  datatype SearchResponse = SearchResponse(meta: Meta, data: seq<Listing>)

  predicate HasPositivePrice(l: Listing) {
    l.currentPrice.Some? && l.currentPrice.value > 0.0
  }

  /** Price and monthly revenue both known and positive: the listings that
      contribute a revenue multiple. */
  predicate HasPositivePriceAndRevenue(l: Listing) {
    HasPositivePrice(l) && l.revenuePerMonth.Some? && l.revenuePerMonth.value > 0.0
  }

  /** Known positive prices, in listing order. */
  function PositivePrices(ls: seq<Listing>): (r: seq<real>)
    ensures |r| <= |ls|
    ensures forall x | x in r :: x > 0.0 && exists l | l in ls :: l.currentPrice == Some(x)
    ensures forall l | l in ls && HasPositivePrice(l) :: l.currentPrice.value in r
    ensures |r| == 0 <==> forall l | l in ls :: !HasPositivePrice(l)
  {
    if |ls| == 0 then []
    else
      var rest := PositivePrices(ls[1..]);
      assert ls == [ls[0]] + ls[1..];
      if HasPositivePrice(ls[0]) then [ls[0].currentPrice.value] + rest else rest
  }

  /** The price a listing contributes: its price when positive. */
  function PriceEntry(l: Listing): seq<real> {
    if HasPositivePrice(l) then [l.currentPrice.value] else []
  }

  /** The positive prices are the price entries of the listings in order:
      every listing with a positive price counts once, duplicates included. */
  lemma {:induction false} PositivePricesGather(ls: seq<Listing>)
    ensures PositivePrices(ls) == Gather(ls, PriceEntry)
  {
    if |ls| > 0 {
      PositivePricesGather(ls[1..]);
    }
  }

  /** Positive prices distribute over concatenation. */
  lemma PositivePricesAppend(a: seq<Listing>, b: seq<Listing>)
    ensures PositivePrices(a + b) == PositivePrices(a) + PositivePrices(b)
    ensures |a| == 1 ==> PositivePrices(a) == PriceEntry(a[0])
  {
    PositivePricesGather(a + b);
    PositivePricesGather(a);
    PositivePricesGather(b);
    GatherAppend(a, b, PriceEntry);
  }

  /** Known monthly revenues, zero and negative ones included. */
  function KnownRevenues(ls: seq<Listing>): (r: seq<real>)
    ensures |r| <= |ls|
    ensures forall x | x in r :: exists l | l in ls :: l.revenuePerMonth == Some(x)
    ensures forall l | l in ls && l.revenuePerMonth.Some? :: l.revenuePerMonth.value in r
    ensures |r| == 0 <==> forall l | l in ls :: l.revenuePerMonth.None?
  {
    if |ls| == 0 then []
    else
      var rest := KnownRevenues(ls[1..]);
      assert ls == [ls[0]] + ls[1..];
      if ls[0].revenuePerMonth.Some? then [ls[0].revenuePerMonth.value] + rest else rest
  }

  /** The revenue a listing contributes: its monthly revenue when known. */
  function RevenueEntry(l: Listing): seq<real> {
    if l.revenuePerMonth.Some? then [l.revenuePerMonth.value] else []
  }

  /** The known revenues are the revenue entries of the listings in order,
      one per listing with a known revenue. */
  lemma {:induction false} KnownRevenuesGather(ls: seq<Listing>)
    ensures KnownRevenues(ls) == Gather(ls, RevenueEntry)
  {
    if |ls| > 0 {
      KnownRevenuesGather(ls[1..]);
    }
  }

  /** Known revenues distribute over concatenation. */
  lemma KnownRevenuesAppend(a: seq<Listing>, b: seq<Listing>)
    ensures KnownRevenues(a + b) == KnownRevenues(a) + KnownRevenues(b)
    ensures |a| == 1 ==> KnownRevenues(a) == RevenueEntry(a[0])
  {
    KnownRevenuesGather(a + b);
    KnownRevenuesGather(a);
    KnownRevenuesGather(b);
    GatherAppend(a, b, RevenueEntry);
  }

  /** Known monthly profits, zero and negative ones included. */
  function KnownProfits(ls: seq<Listing>): (r: seq<real>)
    ensures |r| <= |ls|
    ensures forall x | x in r :: exists l | l in ls :: l.profitPerMonth == Some(x)
    ensures forall l | l in ls && l.profitPerMonth.Some? :: l.profitPerMonth.value in r
    ensures |r| == 0 <==> forall l | l in ls :: l.profitPerMonth.None?
  {
    if |ls| == 0 then []
    else
      var rest := KnownProfits(ls[1..]);
      assert ls == [ls[0]] + ls[1..];
      if ls[0].profitPerMonth.Some? then [ls[0].profitPerMonth.value] + rest else rest
  }

  /** The profit a listing contributes: its monthly profit when known. */
  function ProfitEntry(l: Listing): seq<real> {
    if l.profitPerMonth.Some? then [l.profitPerMonth.value] else []
  }

  /** The known profits are the profit entries of the listings in order,
      one per listing with a known profit. */
  lemma {:induction false} KnownProfitsGather(ls: seq<Listing>)
    ensures KnownProfits(ls) == Gather(ls, ProfitEntry)
  {
    if |ls| > 0 {
      KnownProfitsGather(ls[1..]);
    }
  }

  /** Known profits distribute over concatenation. */
  lemma KnownProfitsAppend(a: seq<Listing>, b: seq<Listing>)
    ensures KnownProfits(a + b) == KnownProfits(a) + KnownProfits(b)
    ensures |a| == 1 ==> KnownProfits(a) == ProfitEntry(a[0])
  {
    KnownProfitsGather(a + b);
    KnownProfitsGather(a);
    KnownProfitsGather(b);
    GatherAppend(a, b, ProfitEntry);
  }

  /** A listing's price over its annual revenue. */
  function Multiple(l: Listing): (m: real)
    requires HasPositivePriceAndRevenue(l)
    ensures m > 0.0
  {
    l.currentPrice.value / (l.revenuePerMonth.value * 12.0)
  }

  /** `price / (revenue * 12)` for every listing with positive price and
      positive revenue, in listing order. */
  function RevenueMultiples(ls: seq<Listing>): (r: seq<real>)
    ensures |r| <= |ls|
    ensures forall i | 0 <= i < |r| :: r[i] > 0.0
    ensures forall x | x in r :: exists l | l in ls && HasPositivePriceAndRevenue(l) :: x == Multiple(l)
    ensures forall l | l in ls && HasPositivePriceAndRevenue(l) :: Multiple(l) in r
    ensures |r| == 0 <==> forall l | l in ls :: !HasPositivePriceAndRevenue(l)
  {
    if |ls| == 0 then []
    else
      var rest := RevenueMultiples(ls[1..]);
      assert ls == [ls[0]] + ls[1..];
      var l := ls[0];
      if HasPositivePriceAndRevenue(l) then [Multiple(l)] + rest else rest
  }

  /** The multiple a listing contributes: its revenue multiple when price and revenue are both positive. */
  function MultipleEntry(l: Listing): seq<real> {
    if HasPositivePriceAndRevenue(l) then [Multiple(l)] else []
  }

  /** The revenue multiples are the multiple entries of the listings in
      order, one per qualifying listing. */
  lemma {:induction false} RevenueMultiplesGather(ls: seq<Listing>)
    ensures RevenueMultiples(ls) == Gather(ls, MultipleEntry)
  {
    if |ls| > 0 {
      RevenueMultiplesGather(ls[1..]);
    }
  }

  /** Revenue multiples distribute over concatenation. */
  lemma RevenueMultiplesAppend(a: seq<Listing>, b: seq<Listing>)
    ensures RevenueMultiples(a + b) == RevenueMultiples(a) + RevenueMultiples(b)
    ensures |a| == 1 ==> RevenueMultiples(a) == MultipleEntry(a[0])
  {
    RevenueMultiplesGather(a + b);
    RevenueMultiplesGather(a);
    RevenueMultiplesGather(b);
    GatherAppend(a, b, MultipleEntry);
  }

  /** Number of listings with verified revenue: none exactly when no
      listing is verified, all exactly when every one is. */
  function VerifiedCount(ls: seq<Listing>): (n: nat)
    ensures n <= |ls|
    ensures n == 0 <==> forall l | l in ls :: !l.hasVerifiedRevenue
    ensures n == |ls| <==> forall l | l in ls :: l.hasVerifiedRevenue
  {
    if |ls| == 0 then 0
    else
      assert ls == [ls[0]] + ls[1..];
      (if ls[0].hasVerifiedRevenue then 1 else 0) + VerifiedCount(ls[1..])
  }

  /** Verified counts add up over concatenation, and a single listing
      counts 1 exactly when its revenue is verified. */
  lemma {:induction false} VerifiedCountAppend(a: seq<Listing>, b: seq<Listing>)
    ensures VerifiedCount(a + b) == VerifiedCount(a) + VerifiedCount(b)
    ensures |a| == 1 ==> VerifiedCount(a) == if a[0].hasVerifiedRevenue then 1 else 0
  {
    if |a| == 0 {
      assert a + b == b;
    } else {
      var ab := a + b;
      assert ab[0] == a[0] && ab[1..] == a[1..] + b;
      VerifiedCountAppend(a[1..], b);
    }
  }
}

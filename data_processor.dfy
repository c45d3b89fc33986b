/**
 * The product-record processor of the first demo script
 * (`demo-code-to-change/script_1.py`, class `DataProcessor`): sample-record generation,
 * the empty check, record count, means and extremes and per-category breakdown of
 * `process_data`, and `filter_data`. The random draws are a parameter; numbers are exact
 * reals, so medians, standard deviations and float rounding are not modelled.
 */
module DataProcessor {
  import opened Wrappers
  import opened Seqs
  import opened Text
  import opened Reals

  /** One product record as `generate_sample_data` builds it. */
  datatype Product = Product(
    id: int,
    name: string,
    category: string,
    price: real,
    quantity: int,
    rating: real,
    available: bool)

  /** The category list `generate_sample_data` draws from. */
  const SampleCategories: seq<string> := ["electronics", "clothing", "books", "home", "sports"]

  /** The random choices for one record; `category` picks from `SampleCategories`. */
  datatype Draw = Draw(category: nat, price: real, quantity: int, rating: real, available: bool)

  const NamePrefix := "Product_"

  /** Record `i` (counting from 0) of a generated sample, with the draws `d`. */
  function SampleRecord(i: nat, d: Draw): Product {
    Product(
      id := i + 1,
      name := NamePrefix + DecimalText(i + 1),
      category := SampleCategories[d.category % |SampleCategories|],
      price := d.price,
      quantity := d.quantity,
      rating := d.rating,
      available := d.available)
  }

  /** The name of a generated record spells out its id after the `Product_` prefix. */
  lemma SampleNameCarriesId(i: nat, d: Draw)
    ensures SampleRecord(i, d).id >= 1
    ensures |SampleRecord(i, d).name| > |NamePrefix|
    ensures SampleRecord(i, d).name[..|NamePrefix|] == NamePrefix
    ensures forall k :: |NamePrefix| <= k < |SampleRecord(i, d).name| ==> IsDigit(SampleRecord(i, d).name[k])
    ensures ParseDecimal(SampleRecord(i, d).name[|NamePrefix|..]) == SampleRecord(i, d).id
  {
    var name := SampleRecord(i, d).name;
    assert name[|NamePrefix|..] == DecimalText(i + 1);
    DecimalRoundTrip(i + 1);
  }

  /**
   * `generate_sample_data(count)`: `count` records (none for a negative count) with ids
   * `1..count` in order, each drawn by `draw` at its position.
   */
  method GenerateSampleData(count: int, draw: nat -> Draw) returns (data: seq<Product>)
    ensures |data| == if count < 0 then 0 else count
    ensures forall i :: 0 <= i < |data| ==> data[i] == SampleRecord(i, draw(i))
    ensures forall i :: 0 <= i < |data| ==> data[i].id == i + 1 && data[i].category in SampleCategories
  {
    var n := if count < 0 then 0 else count;
    data := [];
    var i := 0;
    while i < n
      invariant 0 <= i <= n
      invariant |data| == i
      invariant forall k :: 0 <= k < i ==> data[k] == SampleRecord(k, draw(k))
    {
      data := data + [SampleRecord(i, draw(i))];
      i := i + 1;
    }
  }

  /** The conditions `filter_data` applies; `""` and `None` as category both mean "any". */
  predicate Matches(p: Product, category: Option<string>, minPrice: Option<real>, maxPrice: Option<real>) {
    && (category.None? || category.value == "" || p.category == category.value)
    && (minPrice.None? || p.price >= minPrice.value)
    && (maxPrice.None? || p.price <= maxPrice.value)
  }

  function CategoryIs(category: string): Product -> bool {
    (p: Product) => p.category == category
  }

  function PriceAtLeast(bound: real): Product -> bool {
    (p: Product) => p.price >= bound
  }

  function PriceAtMost(bound: real): Product -> bool {
    (p: Product) => p.price <= bound
  }

  /** `if category:` keeps the records of that category; a falsy category keeps all. */
  function ByCategory(data: seq<Product>, category: Option<string>): seq<Product> {
    if category.Some? && category.value != "" then Filter(data, CategoryIs(category.value)) else data
  }

  function ByMinPrice(data: seq<Product>, minPrice: Option<real>): seq<Product> {
    if minPrice.Some? then Filter(data, PriceAtLeast(minPrice.value)) else data
  }

  function ByMaxPrice(data: seq<Product>, maxPrice: Option<real>): seq<Product> {
    if maxPrice.Some? then Filter(data, PriceAtMost(maxPrice.value)) else data
  }

  /**
   * `filter_data`: the category filter when the category is truthy, then the inclusive
   * lower bound, then the inclusive upper bound, each only when given.
   */
  function FilterData(data: seq<Product>, category: Option<string>, minPrice: Option<real>,
                      maxPrice: Option<real>): seq<Product>
  {
    ByMaxPrice(ByMinPrice(ByCategory(data, category), minPrice), maxPrice)
  }

  function CategoryCriterion(category: Option<string>): Product -> bool {
    (p: Product) => category.None? || category.value == "" || p.category == category.value
  }

  function MinCriterion(minPrice: Option<real>): Product -> bool {
    (p: Product) => minPrice.None? || p.price >= minPrice.value
  }

  function MaxCriterion(maxPrice: Option<real>): Product -> bool {
    (p: Product) => maxPrice.None? || p.price <= maxPrice.value
  }

  function Criteria(category: Option<string>, minPrice: Option<real>, maxPrice: Option<real>): Product -> bool {
    (p: Product) => Matches(p, category, minPrice, maxPrice)
  }

  lemma ByCategoryFilters(data: seq<Product>, category: Option<string>)
    ensures ByCategory(data, category) == Filter(data, CategoryCriterion(category))
  {
    if category.Some? && category.value != "" {
      FilterExtensional(data, CategoryIs(category.value), CategoryCriterion(category));
    } else {
      FilterKeepsAll(data, CategoryCriterion(category));
    }
  }

  lemma ByMinPriceFilters(data: seq<Product>, minPrice: Option<real>)
    ensures ByMinPrice(data, minPrice) == Filter(data, MinCriterion(minPrice))
  {
    if minPrice.Some? {
      FilterExtensional(data, PriceAtLeast(minPrice.value), MinCriterion(minPrice));
    } else {
      FilterKeepsAll(data, MinCriterion(minPrice));
    }
  }

  lemma ByMaxPriceFilters(data: seq<Product>, maxPrice: Option<real>)
    ensures ByMaxPrice(data, maxPrice) == Filter(data, MaxCriterion(maxPrice))
  {
    if maxPrice.Some? {
      FilterExtensional(data, PriceAtMost(maxPrice.value), MaxCriterion(maxPrice));
    } else {
      FilterKeepsAll(data, MaxCriterion(maxPrice));
    }
  }

  /**
   * The three passes amount to one: the records that meet every given condition, in their
   * original order; so the result is a sub-list of the input.
   */
  lemma FilterDataSinglePass(data: seq<Product>, category: Option<string>, minPrice: Option<real>,
                             maxPrice: Option<real>)
    ensures FilterData(data, category, minPrice, maxPrice) == Filter(data, Criteria(category, minPrice, maxPrice))
    ensures IsSubsequence(FilterData(data, category, minPrice, maxPrice), data)
  {
    var c, lo, hi := CategoryCriterion(category), MinCriterion(minPrice), MaxCriterion(maxPrice);
    var clo := (p: Product) => c(p) && lo(p);
    var byCategory := ByCategory(data, category);
    ByCategoryFilters(data, category);
    var byMin := ByMinPrice(byCategory, minPrice);
    ByMinPriceFilters(byCategory, minPrice);
    FilterFusion(data, c, lo, clo);
    ByMaxPriceFilters(byMin, maxPrice);
    FilterFusion(data, clo, hi, Criteria(category, minPrice, maxPrice));
    FilterIsSubsequence(data, Criteria(category, minPrice, maxPrice));
  }

  /** With no criteria the input comes back as it is. */
  lemma NoCriteriaKeepsAll(data: seq<Product>)
    ensures FilterData(data, None, None, None) == data
    ensures FilterData(data, Some(""), None, None) == data
  {
  }

  /** The category column of a list of records, in order. */
  function Categories(data: seq<Product>): (r: seq<string>)
    ensures |r| == |data| && forall i :: 0 <= i < |r| ==> r[i] == data[i].category
  {
    seq(|data|, i requires 0 <= i < |data| => data[i].category)
  }

  /** The summed price of the records in one category. */
  function PriceTotal(data: seq<Product>, category: string): real {
    if data == [] then 0.0
    else
      var last := data[|data| - 1];
      PriceTotal(data[..|data| - 1], category) + (if last.category == category then last.price else 0.0)
  }

  datatype CategoryTotals = CategoryTotals(count: nat, totalPrice: real)

  /** `category_breakdown`: the categories in first-seen order and their totals. */
  datatype Breakdown = Breakdown(order: seq<string>, totals: map<string, CategoryTotals>)

  /** The sum of the counts of the listed categories. */
  function CountSum(order: seq<string>, totals: map<string, CategoryTotals>): nat
    requires forall c :: c in order ==> c in totals
  {
    if order == [] then 0 else CountSum(order[..|order| - 1], totals) + totals[order[|order| - 1]].count
  }

  /** Counts read from a multiset sum as the multiset does. */
  lemma {:induction false} CountSumIsSumCounts(order: seq<string>, totals: map<string, CategoryTotals>,
                                               m: multiset<string>)
    requires forall c :: c in order ==> c in totals && totals[c].count == m[c]
    ensures CountSum(order, totals) == SumCounts(order, m)
  {
    if order != [] {
      var init := order[..|order| - 1];
      assert forall c :: c in init ==> c in order;
      CountSumIsSumCounts(init, totals, m);
    }
  }

  /** Extending the records by one extends the category column and one category's total. */
  lemma BreakdownStep(data: seq<Product>, i: nat)
    requires i < |data|
    ensures Categories(data[..i + 1]) == Categories(data[..i]) + [data[i].category]
    ensures forall c :: PriceTotal(data[..i + 1], c) ==
              PriceTotal(data[..i], c) + (if data[i].category == c then data[i].price else 0.0)
  {
    assert data[..i + 1][..i] == data[..i];
  }

  /** A category no record has sums to nothing. */
  lemma {:induction false} PriceTotalAbsent(records: seq<Product>, category: string)
    requires category !in Categories(records)
    ensures PriceTotal(records, category) == 0.0
  {
    if records != [] {
      var init := records[..|records| - 1];
      assert Categories(records) == Categories(init) + [records[|records| - 1].category];
      PriceTotalAbsent(init, category);
    }
  }

  /** `order` and `totals` tally `records` by category. */
  ghost predicate Tallied(records: seq<Product>, order: seq<string>, totals: map<string, CategoryTotals>) {
    && order == Distinct(Categories(records))
    && (forall c :: c in totals <==> c in order)
    && (forall c :: c in totals ==>
          totals[c] == CategoryTotals(multiset(Categories(records))[c], PriceTotal(records, c)))
  }

  /** One pass of the breakdown loop keeps the tally up to date. */
  lemma TallyStep(data: seq<Product>, i: nat, order: seq<string>, totals: map<string, CategoryTotals>,
                  order2: seq<string>, totals2: map<string, CategoryTotals>)
    requires i < |data| && Tallied(data[..i], order, totals)
    requires order2 == if data[i].category in totals then order else order + [data[i].category]
    requires totals2 == totals[data[i].category :=
               var prev := if data[i].category in totals then totals[data[i].category] else CategoryTotals(0, 0.0);
               CategoryTotals(prev.count + 1, prev.totalPrice + data[i].price)]
    ensures order2 == Distinct(Categories(data[..i + 1]))
    ensures forall c :: c in totals2 <==> c in order2
    ensures forall c :: c in totals2 ==>
              totals2[c] == CategoryTotals(multiset(Categories(data[..i + 1]))[c], PriceTotal(data[..i + 1], c))
  {
    var cat := data[i].category;
    var before, after := Categories(data[..i]), Categories(data[..i + 1]);
    BreakdownStep(data, i);
    assert order2 == Distinct(after) by {
      DistinctSnoc(before, cat);
    }
    assert forall c :: c in totals2 <==> c in order2;
    assert forall c :: c in totals2 ==>
             totals2[c] == CategoryTotals(multiset(after)[c], PriceTotal(data[..i + 1], c)) by {
      assert multiset(after) == multiset(before) + multiset{cat};
      if cat !in totals {
        assert cat !in before;
        PriceTotalAbsent(data[..i], cat);
      }
      forall c | c in totals2
        ensures totals2[c] == CategoryTotals(multiset(after)[c], PriceTotal(data[..i + 1], c))
      {
        if c != cat {
          assert totals2[c] == totals[c];
        }
      }
    }
  }

  /**
   * The category-breakdown loop of `process_data`: per category, in first-seen order, the
   * number of records and their summed price.
   */
  method CategoryBreakdown(data: seq<Product>) returns (b: Breakdown)
    ensures b.order == Distinct(Categories(data))
    ensures forall c :: c in b.totals <==> c in Categories(data)
    ensures forall c :: c in b.totals ==>
              b.totals[c] == CategoryTotals(multiset(Categories(data))[c], PriceTotal(data, c))
  {
    var order: seq<string> := [];
    var totals: map<string, CategoryTotals> := map[];
    var i := 0;
    while i < |data|
      invariant 0 <= i <= |data|
      invariant Tallied(data[..i], order, totals)
    {
      var cat := data[i].category;
      ghost var order0, totals0 := order, totals;
      if cat !in totals {
        order := order + [cat];
        totals := totals[cat := CategoryTotals(0, 0.0)];
      }
      totals := totals[cat := CategoryTotals(totals[cat].count + 1, totals[cat].totalPrice + data[i].price)];
      TallyStep(data, i, order0, totals0, order, totals);
      i := i + 1;
    }
    assert data[..i] == data;
    b := Breakdown(order, totals);
  }

  /** The counts of a breakdown add up to the number of records. */
  lemma BreakdownCoversAll(data: seq<Product>, b: Breakdown)
    requires b.order == Distinct(Categories(data))
    requires forall c :: c in b.totals <==> c in Categories(data)
    requires forall c :: c in b.totals ==> b.totals[c].count == multiset(Categories(data))[c]
    ensures forall c :: c in b.order ==> c in b.totals
    ensures CountSum(b.order, b.totals) == |data|
  {
    CountSumIsSumCounts(b.order, b.totals, multiset(Categories(data)));
    CountsSumToLength(Categories(data));
  }

  /** The price, quantity and rating columns, in record order. */
  function Prices(data: seq<Product>): (r: seq<real>)
    ensures |r| == |data| && forall i :: 0 <= i < |data| ==> r[i] == data[i].price
  {
    seq(|data|, i requires 0 <= i < |data| => data[i].price)
  }

  function Quantities(data: seq<Product>): (r: seq<real>)
    ensures |r| == |data| && forall i :: 0 <= i < |data| ==> r[i] == data[i].quantity as real
  {
    seq(|data|, i requires 0 <= i < |data| => data[i].quantity as real)
  }

  function Ratings(data: seq<Product>): (r: seq<real>)
    ensures |r| == |data| && forall i :: 0 <= i < |data| ==> r[i] == data[i].rating
  {
    seq(|data|, i requires 0 <= i < |data| => data[i].rating)
  }

  /** The mean, smallest and largest value of one column. */
  datatype ColumnStats = ColumnStats(mean: real, min: real, max: real)

  /** The summary of a non-empty column; the mean lies between the extremes. */
  function Summarize(xs: seq<real>): (r: ColumnStats)
    requires xs != []
    ensures r.min in xs && r.max in xs
    ensures forall x :: x in xs ==> r.min <= x <= r.max
    ensures r.min <= r.mean <= r.max
  {
    MeanBetween(xs);
    ColumnStats(Mean(xs), MinOf(xs), MaxOf(xs))
  }

  /**
   * What `process_data` returns, without the medians and standard deviations: the record
   * count, the price mean, the quantity and rating summaries and the category breakdown.
   */
  datatype ProcessResult =
    | NoData(error: string)
    | Stats(totalRecords: nat, priceMean: real, quantity: ColumnStats, rating: ColumnStats,
            breakdown: Breakdown)

  class Processor {
    /** The processor's name. */
    const name: string
    /** The last data set `process_data` accepted. */
    var processedData: seq<Product>

    constructor (name: string)
      ensures this.name == name && processedData == []
    {
      this.name := name;
      processedData := [];
    }

    /**
     * `process_data`: empty data is refused with an error record and remembered nowhere;
     * otherwise the record count, the mean price, the mean, smallest and largest quantity
     * and rating and, per category in first-seen order, its number of records and summed
     * price, and the data becomes `processed_data`.
     */
    method ProcessData(data: seq<Product>) returns (r: ProcessResult)
      modifies this
      ensures data == [] ==> r == NoData("No data to process") && processedData == old(processedData)
      ensures data != [] ==> r.Stats? && processedData == data
      ensures r.Stats? ==> r.totalRecords == |data|
      ensures r.Stats? ==> r.priceMean == Mean(Prices(data))
      ensures r.Stats? ==> r.quantity == Summarize(Quantities(data)) && r.rating == Summarize(Ratings(data))
      ensures r.Stats? ==> r.breakdown.order == Distinct(Categories(data))
      ensures r.Stats? ==> forall c :: c in r.breakdown.totals <==> c in Categories(data)
      ensures r.Stats? ==> forall c :: c in r.breakdown.totals ==>
                r.breakdown.totals[c] == CategoryTotals(multiset(Categories(data))[c], PriceTotal(data, c))
    {
      if data == [] {
        return NoData("No data to process");
      }
      var prices := Prices(data);
      var breakdown := CategoryBreakdown(data);
      processedData := data;
      return Stats(|data|, Mean(prices), Summarize(Quantities(data)), Summarize(Ratings(data)), breakdown);
    }
  }
}

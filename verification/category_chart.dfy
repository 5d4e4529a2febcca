/**
 The "Spending by Category" chart: the same per-category fold as the
 summary cards, each row carrying its category's display configuration,
 sorted by amount.
 */
module CategoryChart {
  import opened Seqs
  import opened StableSort
  import opened ExpenseTypes
  import opened CategoryTotals
  import opened ExpenseSummary

  /** One bar of the chart. */
  datatype ChartEntry = ChartEntry(category: Category, amount: int, percentage: real, config: CategoryConfig)

  function EntryAmount(e: ChartEntry): int
  {
    e.amount
  }

  function EntryCategory(e: ChartEntry): Category
  {
    e.category
  }

  /** The bar without its display configuration. */
  function WithoutConfig(e: ChartEntry): Share
  {
    Share(e.category, e.amount, e.percentage)
  }

  /**
   `Object.values(totals).reduce((sum, val) => sum + val, 0)`: the chart
   sums the per-category totals rather than the records, and still
   arrives at the total spent.
   */
  function GrandTotal(s: seq<Expense>): (t: int)
    ensures t == Total(s)
  {
    TalliesAmounts(s);
    Sum(Tallies(s), TallyAmount)
  }

  /** The `.map` from a record entry to a bar. */
  function ToEntry(total: int): Tally -> ChartEntry
  {
    (t: Tally) => ChartEntry(t.category, t.amount, Percentage(t.amount, total), Config(t.category))
  }

  function Entries(s: seq<Expense>): seq<ChartEntry>
  {
    Map(Tallies(s), ToEntry(GrandTotal(s)))
  }

  /** `categoryData`: the bars sorted by `b.amount - a.amount`. */
  function CategoryData(s: seq<Expense>): seq<ChartEntry>
  {
    Sort(Entries(s), EntryAmount)
  }

  /**
   Dropping the configuration, the chart's rows are exactly the summary's
   breakdown rows, in the same order: the two components compute the
   same thing.
   */
  lemma ChartMatchesBreakdown(s: seq<Expense>)
    ensures Map(CategoryData(s), WithoutConfig) == Breakdown(s)
  {
    SortMap(Entries(s), EntryAmount, WithoutConfig, ShareAmount);
    assert Map(Entries(s), WithoutConfig) == Shares(s);
  }

  /** Every bar carries its own category's entry of the configuration table. */
  lemma ChartConfigs(s: seq<Expense>)
    ensures forall i :: 0 <= i < |CategoryData(s)| ==> CategoryData(s)[i].config == Config(CategoryData(s)[i].category)
  {
    var d := CategoryData(s);
    forall i | 0 <= i < |d| ensures d[i].config == Config(d[i].category) {
      SortMembers(Entries(s), EntryAmount, d[i]);
      var k :| 0 <= k < |Entries(s)| && Entries(s)[k] == d[i];
    }
  }

  /**
   Each bar holds its category's total, that total's percentage of the
   grand total, and the category's entry of the configuration table; no
   category has two bars.
   */
  lemma ChartRows(s: seq<Expense>)
    ensures |CategoryData(s)| == |Tallies(s)|
    ensures DistinctBy(CategoryData(s), EntryCategory)
    ensures forall i :: 0 <= i < |CategoryData(s)| ==>
      && CategoryData(s)[i].amount == CategorySum(s, CategoryData(s)[i].category)
      && CategoryData(s)[i].percentage == Percentage(CategoryData(s)[i].amount, Total(s))
      && CategoryData(s)[i].config == Config(CategoryData(s)[i].category)
  {
    var d := CategoryData(s);
    var b := Breakdown(s);
    ChartMatchesBreakdown(s);
    BreakdownRows(s);
    ChartConfigs(s);
    assert forall i :: 0 <= i < |d| ==> WithoutConfig(d[i]) == b[i];
  }

  /** The bars are in non-increasing order of amount. */
  lemma ChartSorted(s: seq<Expense>)
    ensures forall i, j :: 0 <= i < j < |CategoryData(s)| ==> CategoryData(s)[i].amount >= CategoryData(s)[j].amount
  {
  }

  /** There are no bars, and the chart shows "No spending data yet", exactly for an empty list. */
  lemma ChartEmpty(s: seq<Expense>)
    ensures CategoryData(s) == [] <==> s == []
  {
    ChartRows(s);
    TalliesEmpty(s);
  }

  lemma {:induction false} KeepTotalBounded(s: seq<Expense>, p: Expense -> bool)
    requires forall e :: e in s ==> e.amount >= 0
    ensures 0 <= Total(Keep(s, p)) <= Total(s)
  {
    if s != [] {
      KeepTotalBounded(s[1..], p);
    }
  }

  lemma PercentageBounds(amount: int, total: int)
    requires 0 <= amount <= total
    ensures 0.0 <= Percentage(amount, total) <= 100.0
  {
    if total > 0 {
      var p := Percentage(amount, total);
      assert p * (total as real) <= 100.0 * (total as real);
      assert p * (total as real) >= 0.0;
    }
  }

  /** With no negative amounts, every bar's percentage lies between 0 and 100. */
  lemma ChartPercentagesInRange(s: seq<Expense>)
    requires forall e :: e in s ==> e.amount >= 0
    ensures forall i :: 0 <= i < |CategoryData(s)| ==> 0.0 <= CategoryData(s)[i].percentage <= 100.0
  {
    ChartRows(s);
    var d := CategoryData(s);
    forall i | 0 <= i < |d| ensures 0.0 <= d[i].percentage <= 100.0 {
      KeepTotalBounded(s, HasCategory(d[i].category));
      PercentageBounds(d[i].amount, Total(s));
    }
  }
}

/**
 The summary cards: total spent, number of transactions, average per
 transaction, and the top category of the percentage breakdown.
 */
module ExpenseSummary {
  import opened Wrappers
  import opened Seqs
  import opened StableSort
  import opened ExpenseTypes
  import opened CategoryTotals

  /** One row of `categoryBreakdown`. */
  datatype Share = Share(category: Category, amount: int, percentage: real)

  function ShareAmount(b: Share): int
  {
    b.amount
  }

  function SharePercentage(b: Share): real
  {
    b.percentage
  }

  function ShareCategory(b: Share): Category
  {
    b.category
  }

  /**
   `total > 0 ? (amount / total) * 100 : 0`: the share of `amount` in
   `total`, in percent, or 0 when the total is not positive.
   */
  function Percentage(amount: int, total: int): (p: real)
    ensures total <= 0 ==> p == 0.0
    ensures total > 0 ==> p * (total as real) == (amount as real) * 100.0
  {
    if total > 0 then (amount as real / total as real) * 100.0 else 0.0
  }

  /** The `.map` from a record entry to a breakdown row. */
  function ToShare(total: int): Tally -> Share
  {
    (t: Tally) => Share(t.category, t.amount, Percentage(t.amount, total))
  }

  /** The rows before sorting, in the record's enumeration order. */
  function Shares(s: seq<Expense>): seq<Share>
  {
    Map(Tallies(s), ToShare(Total(s)))
  }

  /** `categoryBreakdown`: the rows sorted by `b.amount - a.amount`. */
  function Breakdown(s: seq<Expense>): seq<Share>
  {
    Sort(Shares(s), ShareAmount)
  }

  lemma {:induction false} PercentagesAdd(ts: seq<Tally>, total: int)
    requires total > 0
    ensures RealSum(Map(ts, ToShare(total)), SharePercentage) == Percentage(Sum(ts, TallyAmount), total)
  {
    if ts != [] {
      assert Map(ts, ToShare(total))[1..] == Map(ts[1..], ToShare(total));
      PercentagesAdd(ts[1..], total);
      var a := ts[0].amount as real;
      var rest := Sum(ts[1..], TallyAmount) as real;
      var t := total as real;
      assert (a / t) * 100.0 + (rest / t) * 100.0 == ((a + rest) / t) * 100.0;
    }
  }

  lemma SharesFacts(s: seq<Expense>)
    ensures |Shares(s)| == |Tallies(s)|
    ensures forall i :: 0 <= i < |Shares(s)| ==>
      && Shares(s)[i].category == Tallies(s)[i].category
      && Shares(s)[i].amount == CategorySum(s, Shares(s)[i].category)
      && Shares(s)[i].percentage == Percentage(Shares(s)[i].amount, Total(s))
    ensures DistinctBy(Shares(s), ShareCategory)
    ensures Sum(Shares(s), ShareAmount) == Total(s)
  {
    TalliesCorrect(s);
    var m := Shares(s);
    forall i | 0 <= i < |m| ensures m[i].amount == CategorySum(s, m[i].category) {
      TallyIsCategorySum(s, i);
    }
    SumMap(Tallies(s), ToShare(Total(s)), ShareAmount, TallyAmount);
  }

  /**
   Each breakdown row holds its category's total and that total's
   percentage of the grand total; no category has two rows.
   */
  lemma BreakdownRows(s: seq<Expense>)
    ensures |Breakdown(s)| == |Tallies(s)|
    ensures DistinctBy(Breakdown(s), ShareCategory)
    ensures forall i :: 0 <= i < |Breakdown(s)| ==>
      && Breakdown(s)[i].amount == CategorySum(s, Breakdown(s)[i].category)
      && Breakdown(s)[i].percentage == Percentage(Breakdown(s)[i].amount, Total(s))
  {
    var m := Shares(s);
    var b := Breakdown(s);
    SharesFacts(s);
    SortLength(m, ShareAmount);
    SortDistinctBy(m, ShareAmount, ShareCategory);
    forall i | 0 <= i < |b|
      ensures b[i].amount == CategorySum(s, b[i].category)
      ensures b[i].percentage == Percentage(b[i].amount, Total(s))
    {
      SortMembers(m, ShareAmount, b[i]);
      var k :| 0 <= k < |m| && m[k] == b[i];
    }
  }

  /** Every row's category occurs in the list. */
  lemma RowOccurs(s: seq<Expense>, i: nat)
    requires i < |Breakdown(s)|
    ensures Occurs(s, Breakdown(s)[i].category)
  {
    var m := Shares(s);
    var ts := Tallies(s);
    SortMembers(m, ShareAmount, Breakdown(s)[i]);
    var k :| 0 <= k < |m| && m[k] == Breakdown(s)[i];
    assert m[k].category == ts[k].category;
    TalliesListed(s);
  }

  /** Every category that occurs in the list has a row. */
  lemma OccurringHasRow(s: seq<Expense>, c: Category) returns (i: nat)
    requires Occurs(s, c)
    ensures i < |Breakdown(s)| && Breakdown(s)[i].category == c
  {
    var m := Shares(s);
    var ts := Tallies(s);
    TalliesListed(s);
    var k :| 0 <= k < |ts| && ts[k].category == c;
    assert m[k].category == c;
    SortMembers(m, ShareAmount, m[k]);
    i :| 0 <= i < |Breakdown(s)| && Breakdown(s)[i] == m[k];
  }

  /** The breakdown has a row for every category that occurs in the list and for no other. */
  lemma BreakdownCategories(s: seq<Expense>, c: Category)
    ensures Occurs(s, c) <==> exists i :: 0 <= i < |Breakdown(s)| && Breakdown(s)[i].category == c
  {
    if Occurs(s, c) {
      var i := OccurringHasRow(s, c);
    }
    if exists i :: 0 <= i < |Breakdown(s)| && Breakdown(s)[i].category == c {
      var i :| 0 <= i < |Breakdown(s)| && Breakdown(s)[i].category == c;
      RowOccurs(s, i);
    }
  }

  /** The rows are in non-increasing order of amount. */
  lemma BreakdownSorted(s: seq<Expense>)
    ensures forall i, j :: 0 <= i < j < |Breakdown(s)| ==> Breakdown(s)[i].amount >= Breakdown(s)[j].amount
  {
  }

  /** The row amounts add up to the total spent. */
  lemma BreakdownSumsToTotal(s: seq<Expense>)
    ensures Sum(Breakdown(s), ShareAmount) == Total(s)
  {
    SharesFacts(s);
    SortSum(Shares(s), ShareAmount, ShareAmount);
  }

  lemma WholePercentage(total: int)
    requires total > 0
    ensures Percentage(total, total) == 100.0
  {
    var t := total as real;
    assert t / t == 1.0;
  }

  /**
   With exact arithmetic the percentages add up to 100 when anything was
   spent, and are all 0 otherwise.
   */
  lemma PercentagesSumTo100(s: seq<Expense>)
    ensures Total(s) > 0 ==> RealSum(Breakdown(s), SharePercentage) == 100.0
    ensures Total(s) <= 0 ==> forall i :: 0 <= i < |Breakdown(s)| ==> Breakdown(s)[i].percentage == 0.0
  {
    if Total(s) > 0 {
      TalliesAmounts(s);
      SortRealSum(Shares(s), ShareAmount, SharePercentage);
      PercentagesAdd(Tallies(s), Total(s));
      WholePercentage(Total(s));
    } else {
      BreakdownRows(s);
    }
  }

  /** The rank of a row: where its category first occurs in the list. */
  function FirstSeen(s: seq<Expense>): Share -> int
  {
    (b: Share) => FirstIndex(s, b.category)
  }

  /**
   Rows with equal amounts keep the order in which their categories first
   occur in the list (insertion-ordered keys, then a stable sort).
   */
  lemma BreakdownTiesInFirstOccurrenceOrder(s: seq<Expense>)
    ensures forall i, j :: 0 <= i < j < |Breakdown(s)| && Breakdown(s)[i].amount == Breakdown(s)[j].amount
              ==> FirstIndex(s, Breakdown(s)[i].category) < FirstIndex(s, Breakdown(s)[j].category)
  {
    TalliesCorrect(s);
    SharesFacts(s);
    var m := Shares(s);
    assert StrictlyRanked(m, FirstSeen(s)) by {
      forall i, j | 0 <= i < j < |m| ensures FirstSeen(s)(m[i]) < FirstSeen(s)(m[j]) {
        assert m[i].category == Tallies(s)[i].category && m[j].category == Tallies(s)[j].category;
      }
    }
    SortTiesRanked(m, ShareAmount, FirstSeen(s));
    var b := Breakdown(s);
    forall i, j | 0 <= i < j < |b| && b[i].amount == b[j].amount
      ensures FirstIndex(s, b[i].category) < FirstIndex(s, b[j].category)
    {
      assert ShareAmount(b[i]) == ShareAmount(b[j]);
      assert FirstSeen(s)(b[i]) < FirstSeen(s)(b[j]);
    }
  }

  /**
   `topCategory`: the first breakdown row, or `null` when there is none.
   It is `null` exactly for an empty list; otherwise no category's total
   exceeds it, and among the categories tied for the largest total it is
   the one whose first record comes earliest in the list.
   */
  function TopCategory(s: seq<Expense>): (r: Option<Share>)
    ensures r.None? <==> s == []
    ensures r.Some? ==> r.value in Breakdown(s)
    ensures r.Some? ==> r.value.amount == CategorySum(s, r.value.category)
    ensures r.Some? ==> forall b :: b in Breakdown(s) ==> b.amount <= r.value.amount
    ensures r.Some? ==> forall c :: Occurs(s, c) ==> CategorySum(s, c) <= r.value.amount
    ensures r.Some? ==> forall b :: b in Breakdown(s) && b.amount == r.value.amount ==>
              FirstIndex(s, r.value.category) <= FirstIndex(s, b.category)
  {
    var b := Breakdown(s);
    assert |b| == 0 <==> s == [] by {
      BreakdownRows(s);
      TalliesEmpty(s);
    }
    if |b| == 0 then None
    else
      FirstRowIsMaximal(s);
      FirstRowFirstAmongTies(s);
      Some(b[0])
  }

  /** Among the rows tied with the first, the first row's category occurs earliest. */
  lemma FirstRowFirstAmongTies(s: seq<Expense>)
    requires Breakdown(s) != []
    ensures forall b :: b in Breakdown(s) && b.amount == Breakdown(s)[0].amount ==>
              FirstIndex(s, Breakdown(s)[0].category) <= FirstIndex(s, b.category)
  {
    var rows := Breakdown(s);
    forall b | b in rows && b.amount == rows[0].amount
      ensures FirstIndex(s, rows[0].category) <= FirstIndex(s, b.category)
    {
      var i :| 0 <= i < |rows| && rows[i] == b;
      if i > 0 {
        BreakdownTiesInFirstOccurrenceOrder(s);
        assert FirstIndex(s, rows[0].category) < FirstIndex(s, rows[i].category);
      }
    }
  }

  lemma FirstRowIsMaximal(s: seq<Expense>)
    requires Breakdown(s) != []
    ensures Breakdown(s)[0].amount == CategorySum(s, Breakdown(s)[0].category)
    ensures forall b :: b in Breakdown(s) ==> b.amount <= Breakdown(s)[0].amount
    ensures forall c :: Occurs(s, c) ==> CategorySum(s, c) <= Breakdown(s)[0].amount
  {
    var b := Breakdown(s);
    BreakdownRows(s);
    assert SortedDesc(b, ShareAmount);
    forall x | x in b ensures x.amount <= b[0].amount {
      var i :| 0 <= i < |b| && b[i] == x;
      if i > 0 {
        assert ShareAmount(b[0]) >= ShareAmount(b[i]);
      }
    }
    forall c | Occurs(s, c) ensures CategorySum(s, c) <= b[0].amount {
      BreakdownCategories(s, c);
      var i :| 0 <= i < |b| && b[i].category == c;
      assert b[i] in b;
    }
  }

  /** `a` is the mean of `count` values adding up to `total`, or 0 for none. */
  ghost predicate MeanOf(a: real, total: int, count: nat)
  {
    if count == 0 then a == 0.0 else a * (count as real) == total as real
  }

  /** `total / count`, or 0 when there are no transactions. */
  function Average(s: seq<Expense>): (a: real)
    ensures |s| == 0 ==> a == 0.0
    ensures |s| > 0 ==> a * (|s| as real) == Total(s) as real
    ensures MeanOf(a, Total(s), |s|)
  {
    if |s| > 0 then Total(s) as real / |s| as real else 0.0
  }

  /** What the three cards show. */
  datatype Summary = Summary(total: int, count: nat, average: real, top: Option<Share>)

  function Summarize(s: seq<Expense>): (r: Summary)
    ensures r.count == |s|
    ensures r.total == Total(s)
    ensures r.top.None? <==> r.count == 0
    ensures MeanOf(r.average, r.total, r.count)
    ensures r.top == TopCategory(s)
  {
    Summary(Total(s), |s|, Average(s), TopCategory(s))
  }

  /** An empty list summarises to zero total, zero count, zero average and no top category. */
  lemma EmptySummary()
    ensures Summarize([]) == Summary(0, 0, 0.0, None)
  {
  }
}

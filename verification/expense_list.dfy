/**
 The list panel's derived views: the records the active filter selects,
 ordered by transaction date, most recent first.
 */
module ExpenseList {
  import opened Seqs
  import opened StableSort
  import opened ExpenseTypes

  /**
   `filteredExpenses`: the whole list for `'all'`; for a category, exactly
   the records of that category, each as often as in the list, in list
   order.
   */
  function FilterExpenses(expenses: seq<Expense>, filter: Filter): (r: seq<Expense>)
    ensures filter.All? ==> r == expenses
    ensures filter.Only? ==> forall e :: e in r <==> e in expenses && e.category == filter.category
    ensures filter.Only? ==> forall e {:trigger multiset(r)[e]} ::
              multiset(r)[e] == if e.category == filter.category then multiset(expenses)[e] else 0
    ensures IsSubsequence(r, expenses)
  {
    match filter
    case All =>
      SubsequenceReflexive(expenses);
      expenses
    case Only(c) =>
      KeepCounts(expenses, HasCategory(c));
      KeepSubsequence(expenses, HasCategory(c));
      Keep(expenses, HasCategory(c))
  }

  /** The seven single-category views partition the list: their sizes add up to its size. */
  lemma {:induction false} CategoryViewSizes(s: seq<Expense>)
    ensures |FilterExpenses(s, Only(Food))| + |FilterExpenses(s, Only(Transport))|
          + |FilterExpenses(s, Only(Entertainment))| + |FilterExpenses(s, Only(Utilities))|
          + |FilterExpenses(s, Only(Shopping))| + |FilterExpenses(s, Only(Health))|
          + |FilterExpenses(s, Only(Other))| == |s|
  {
    KeepSizes(s);
  }

  lemma {:induction false} KeepSizes(s: seq<Expense>)
    ensures |Keep(s, HasCategory(Food))| + |Keep(s, HasCategory(Transport))|
          + |Keep(s, HasCategory(Entertainment))| + |Keep(s, HasCategory(Utilities))|
          + |Keep(s, HasCategory(Shopping))| + |Keep(s, HasCategory(Health))|
          + |Keep(s, HasCategory(Other))| == |s|
  {
    if s != [] {
      KeepSizes(s[1..]);
    }
  }

  /** Dates are real calendar dates, so their timestamps compare. */
  ghost predicate ValidDates(s: seq<Expense>)
  {
    forall e :: e in s ==> ValidDate(e.date)
  }

  /** No record is dated before a record that follows it. */
  ghost predicate NewestFirst(s: seq<Expense>)
  {
    forall i, j :: 0 <= i < j < |s| ==> !DateBefore(s[i].date, s[j].date)
  }

  /**
   `sortedExpenses`: a stable sort by the comparator
   `getTime(b.date) - getTime(a.date)`. The result is a permutation of the
   input in which dates never increase.
   */
  function SortByDate(expenses: seq<Expense>): (r: seq<Expense>)
    ensures multiset(r) == multiset(expenses)
    ensures forall i, j :: 0 <= i < j < |r| ==> DayKey(r[i].date) >= DayKey(r[j].date)
    ensures ValidDates(expenses) ==> NewestFirst(r)
  {
    var r := Sort(expenses, DateKeyOf);
    assert ValidDates(expenses) ==> NewestFirst(r) by {
      if ValidDates(expenses) {
        forall e | e in r ensures ValidDate(e.date) {
          assert e in multiset(expenses);
        }
        KeyOrderIsNewestFirst(r);
      }
    }
    r
  }

  lemma KeyOrderIsNewestFirst(r: seq<Expense>)
    requires ValidDates(r)
    requires forall i, j :: 0 <= i < j < |r| ==> DateKeyOf(r[i]) >= DateKeyOf(r[j])
    ensures NewestFirst(r)
  {
    forall i, j | 0 <= i < j < |r| ensures !DateBefore(r[i].date, r[j].date) {
      assert DateKeyOf(r[i]) >= DateKeyOf(r[j]);
      DayKeyOrder(r[j].date, r[i].date);
    }
  }

  lemma SameDateSameKey(s: seq<Expense>, d: Date)
    requires ValidDates(s) && ValidDate(d)
    ensures Keep(s, OnDate(d)) == Keep(s, HasKey(DateKeyOf, DayKey(d)))
  {
    forall e | e in s ensures OnDate(d)(e) == HasKey(DateKeyOf, DayKey(d))(e) {
      DayKeyOrder(e.date, d);
      assert OnDate(d)(e) == (e.date == d);
      assert HasKey(DateKeyOf, DayKey(d))(e) == (DateKeyOf(e) == DayKey(d));
    }
    KeepCongruent(s, OnDate(d), HasKey(DateKeyOf, DayKey(d)));
  }

  /**
   The date sort is stable: for every date, the records bearing it come
   out in the order they went in.
   */
  lemma SortByDateStable(s: seq<Expense>, d: Date)
    requires ValidDates(s)
    ensures Keep(SortByDate(s), OnDate(d)) == Keep(s, OnDate(d))
  {
    var r := SortByDate(s);
    assert ValidDates(r) by {
      forall e | e in r ensures ValidDate(e.date) {
        assert e in multiset(s);
      }
    }
    if ValidDate(d) {
      SameDateSameKey(s, d);
      SameDateSameKey(r, d);
      SortStable(s, DateKeyOf, DayKey(d));
    } else {
      KeepNone(s, OnDate(d));
      KeepNone(r, OnDate(d));
    }
  }

  /** A list already newest-first comes back unchanged. */
  lemma SortByDateIdempotent(s: seq<Expense>)
    requires ValidDates(s) && NewestFirst(s)
    ensures SortByDate(s) == s
  {
    forall i, j | 0 <= i < j < |s| ensures DateKeyOf(s[i]) >= DateKeyOf(s[j]) {
      DayKeyOrder(s[i].date, s[j].date);
    }
    SortIdempotent(s, DateKeyOf);
  }

  /** The records the list panel shows, in display order. */
  function VisibleExpenses(expenses: seq<Expense>, filter: Filter): (r: seq<Expense>)
    ensures multiset(r) == multiset(FilterExpenses(expenses, filter))
    ensures ValidDates(expenses) ==> NewestFirst(r)
  {
    var filtered := FilterExpenses(expenses, filter);
    assert ValidDates(expenses) ==> ValidDates(filtered);
    SortByDate(filtered)
  }
}

/**
 The eight records the simulated fetch resolves with, in cents, as a
 worked instance of the views.
 */
module SeedData {
  import opened Wrappers
  import opened Seqs
  import opened ExpenseTypes
  import opened CategoryTotals
  import opened ExpenseSummary
  import opened ExpenseList
  import opened ExpenseStore
  import Text

  const E1 := Expense("1", "Grocery shopping", 8550, Food, Date(2024, 1, 15), "2024-01-15T10:30:00Z")
  const E2 := Expense("2", "Monthly transit pass", 12000, Transport, Date(2024, 1, 14), "2024-01-14T09:00:00Z")
  const E3 := Expense("3", "Netflix subscription", 1599, Entertainment, Date(2024, 1, 13), "2024-01-13T08:00:00Z")
  const E4 := Expense("4", "Electric bill", 14500, Utilities, Date(2024, 1, 12), "2024-01-12T14:00:00Z")
  const E5 := Expense("5", "New headphones", 19999, Shopping, Date(2024, 1, 11), "2024-01-11T16:30:00Z")
  const E6 := Expense("6", "Pharmacy", 3250, Health, Date(2024, 1, 10), "2024-01-10T11:00:00Z")
  const E7 := Expense("7", "Coffee with friends", 2400, Food, Date(2024, 1, 9), "2024-01-09T15:00:00Z")
  const E8 := Expense("8", "Uber ride", 1850, Transport, Date(2024, 1, 8), "2024-01-08T20:00:00Z")

  const Seed: seq<Expense> := [E1, E2, E3, E4, E5, E6, E7, E8]

  const SeedTotals: seq<Tally> := [
    Tally(Food, 10950), Tally(Transport, 13850), Tally(Entertainment, 1599),
    Tally(Utilities, 14500), Tally(Shopping, 19999), Tally(Health, 3250)]

  /** A list with the seed's categories and amounts, in the seed's order. */
  ghost predicate SeedShaped(s: seq<Expense>)
  {
    && |s| == 8
    && s[0].category == Food && s[0].amount == 8550
    && s[1].category == Transport && s[1].amount == 12000
    && s[2].category == Entertainment && s[2].amount == 1599
    && s[3].category == Utilities && s[3].amount == 14500
    && s[4].category == Shopping && s[4].amount == 19999
    && s[5].category == Health && s[5].amount == 3250
    && s[6].category == Food && s[6].amount == 2400
    && s[7].category == Transport && s[7].amount == 1850
  }

  lemma SeedIsShaped()
    ensures SeedShaped(Seed)
  {
  }

  const F1 := Tally(Food, 8550)
  const T1 := Tally(Transport, 12000)
  const N1 := Tally(Entertainment, 1599)
  const U1 := Tally(Utilities, 14500)
  const S1 := Tally(Shopping, 19999)
  const H1 := Tally(Health, 3250)

  /** A step for a category the record does not have yet appends an entry. */
  lemma BumpMiss(ts: seq<Tally>, e: Expense)
    requires forall i :: 0 <= i < |ts| ==> ts[i].category != e.category
    ensures Bump(ts, e) == ts + [Tally(e.category, e.amount)]
  {
  }

  /** A step for the category of the first entry adds to that entry. */
  lemma BumpHit(t: Tally, ts: seq<Tally>, e: Expense)
    requires t.category == e.category
    ensures Bump([t] + ts, e) == [Tally(e.category, t.amount + e.amount)] + ts
  {
    assert ([t] + ts)[1..] == ts;
  }

  /** The fold over the first `k + 1` records is one step after the fold over the first `k`. */
  lemma FoldStep(s: seq<Expense>, k: nat)
    requires k < |s|
    ensures Tallies(s[..k + 1]) == Bump(Tallies(s[..k]), s[k])
  {
    assert s[..k + 1] == s[..k] + [s[k]];
    TalliesSnoc(s[..k], s[k]);
  }

  lemma Fold1(s: seq<Expense>)
    requires SeedShaped(s)
    ensures Tallies(s[..1]) == [F1]
  {
    FoldStep(s, 0);
    assert s[..0] == [];
  }

  lemma Fold2(s: seq<Expense>)
    requires SeedShaped(s)
    ensures Tallies(s[..2]) == [F1, T1]
  {
    Fold1(s);
    FoldStep(s, 1);
    BumpMiss([F1], s[1]);
  }

  lemma Fold3(s: seq<Expense>)
    requires SeedShaped(s)
    ensures Tallies(s[..3]) == [F1, T1, N1]
  {
    Fold2(s);
    FoldStep(s, 2);
    BumpMiss([F1, T1], s[2]);
  }

  lemma Fold4(s: seq<Expense>)
    requires SeedShaped(s)
    ensures Tallies(s[..4]) == [F1, T1, N1, U1]
  {
    Fold3(s);
    FoldStep(s, 3);
    BumpMiss([F1, T1, N1], s[3]);
  }

  lemma Fold5(s: seq<Expense>)
    requires SeedShaped(s)
    ensures Tallies(s[..5]) == [F1, T1, N1, U1, S1]
  {
    Fold4(s);
    FoldStep(s, 4);
    BumpMiss([F1, T1, N1, U1], s[4]);
  }

  lemma Fold6(s: seq<Expense>)
    requires SeedShaped(s)
    ensures Tallies(s[..6]) == [F1, T1, N1, U1, S1, H1]
  {
    Fold5(s);
    FoldStep(s, 5);
    BumpMiss([F1, T1, N1, U1, S1], s[5]);
  }

  lemma Fold7(s: seq<Expense>)
    requires SeedShaped(s)
    ensures Tallies(s[..7]) == [Tally(Food, 10950), T1, N1, U1, S1, H1]
  {
    Fold6(s);
    FoldStep(s, 6);
    BumpHit(F1, [T1, N1, U1, S1, H1], s[6]);
  }

  /** The last step adds the second transport record to the existing transport entry. */
  lemma LastBump(e: Expense)
    requires e.category == Transport && e.amount == 1850
    ensures Bump([Tally(Food, 10950), T1, N1, U1, S1, H1], e) == SeedTotals
  {
    var a := [N1, U1, S1, H1];
    var f := Tally(Food, 10950);
    var t2 := Tally(Transport, 13850);
    assert Bump([f, T1, N1, U1, S1, H1], e) == [f] + Bump([T1] + a, e) by {
      assert [f, T1, N1, U1, S1, H1] == [f] + ([T1] + a);
      BumpPast(f, [T1] + a, e);
    }
    assert Bump([T1] + a, e) == [t2] + a by {
      BumpHit(T1, a, e);
    }
    assert [f] + ([t2] + a) == SeedTotals;
  }

  lemma Fold8(s: seq<Expense>)
    requires SeedShaped(s)
    ensures Tallies(s) == SeedTotals
  {
    Fold7(s);
    FoldStep(s, 7);
    assert s[..8] == s;
    LastBump(s[7]);
  }

  lemma SeedTotalsLookup()
    ensures AmountFor(SeedTotals, Food) == 10950 && AmountFor(SeedTotals, Transport) == 13850
    ensures AmountFor(SeedTotals, Entertainment) == 1599 && AmountFor(SeedTotals, Utilities) == 14500
    ensures AmountFor(SeedTotals, Shopping) == 19999 && AmountFor(SeedTotals, Health) == 3250
    ensures !Listed(SeedTotals, Other)
  {
    var t := SeedTotals;
    var t5 := [N1, U1, S1, H1];
    assert t[1..] == [Tally(Transport, 13850)] + t5;
    assert t5[1..] == [U1, S1, H1];
    assert t5[1..][1..] == [S1, H1];
    assert t5[1..][1..][1..] == [H1];
  }

  lemma ShapedCategorySums(s: seq<Expense>)
    requires SeedShaped(s)
    ensures CategorySum(s, Food) == 10950 && CategorySum(s, Transport) == 13850
    ensures CategorySum(s, Entertainment) == 1599 && CategorySum(s, Utilities) == 14500
    ensures CategorySum(s, Shopping) == 19999 && CategorySum(s, Health) == 3250
    ensures !Occurs(s, Other)
  {
    Fold8(s);
    TalliesListed(s);
    TalliesAmounts(s);
    SeedTotalsLookup();
  }

  /** Only shopping reaches 199.99. */
  lemma ShapedLargest(s: seq<Expense>, c: Category)
    requires SeedShaped(s) && Occurs(s, c) && CategorySum(s, c) >= 19999
    ensures c == Shopping
  {
    ShapedCategorySums(s);
  }

  /** Only entertainment stays at or under 15.99. */
  lemma ShapedSmallest(s: seq<Expense>, c: Category)
    requires SeedShaped(s) && Occurs(s, c) && CategorySum(s, c) <= 1599
    ensures c == Entertainment
  {
    ShapedCategorySums(s);
  }

  lemma ShapedTop(s: seq<Expense>)
    requires SeedShaped(s)
    ensures TopCategory(s).Some?
    ensures TopCategory(s).value.category == Shopping && TopCategory(s).value.amount == 19999
  {
    var r := TopCategory(s);
    assert Occurs(s, Shopping) by { assert s[4] in s; }
    ShapedCategorySums(s);
    var i :| 0 <= i < |Breakdown(s)| && Breakdown(s)[i] == r.value;
    RowOccurs(s, i);
    ShapedLargest(s, r.value.category);
  }

  lemma ShapedRowCount(s: seq<Expense>)
    requires SeedShaped(s)
    ensures |Breakdown(s)| == 6
  {
    Fold8(s);
    BreakdownRows(s);
  }

  /** The last row holds at most entertainment's total, and is some occurring category's total. */
  lemma ShapedLastRow(s: seq<Expense>)
    requires SeedShaped(s) && |Breakdown(s)| == 6
    ensures Breakdown(s)[5].amount <= 1599
    ensures Breakdown(s)[5].amount == CategorySum(s, Breakdown(s)[5].category)
  {
    var b := Breakdown(s);
    assert Occurs(s, Entertainment) by { assert s[2] in s; }
    var k := OccurringHasRow(s, Entertainment);
    assert b[5].amount <= b[k].amount by {
      BreakdownSorted(s);
    }
    BreakdownRows(s);
    ShapedCategorySums(s);
  }

  lemma ShapedBottom(s: seq<Expense>)
    requires SeedShaped(s)
    ensures |Breakdown(s)| == 6
    ensures Breakdown(s)[5].category == Entertainment && Breakdown(s)[5].amount == 1599
  {
    ShapedRowCount(s);
    ShapedLastRow(s);
    RowOccurs(s, 5);
    ShapedSmallest(s, Breakdown(s)[5].category);
    ShapedCategorySums(s);
  }

  /** The per-category totals of the seed, in first-occurrence order, with no `other` spending. */
  lemma SeedTallies()
    ensures Tallies(Seed) == SeedTotals
  {
    SeedIsShaped();
    Fold8(Seed);
  }

  /** Each category's spending in the seed. */
  lemma SeedCategorySums()
    ensures CategorySum(Seed, Food) == 10950 && CategorySum(Seed, Transport) == 13850
    ensures CategorySum(Seed, Entertainment) == 1599 && CategorySum(Seed, Utilities) == 14500
    ensures CategorySum(Seed, Shopping) == 19999 && CategorySum(Seed, Health) == 3250
    ensures !Occurs(Seed, Other)
  {
    SeedIsShaped();
    ShapedCategorySums(Seed);
  }

  /** Total 641.48 and average 80.185 per transaction. */
  lemma SeedTotalAndAverage()
    ensures Total(Seed) == 64148
    ensures Average(Seed) == 8018.5
  {
    SeedTallies();
    TalliesAmounts(Seed);
    assert Sum(SeedTotals, TallyAmount) == 64148;
  }

  /** The top category of the seed is shopping at 199.99. */
  lemma SeedTop()
    ensures TopCategory(Seed).Some?
    ensures TopCategory(Seed).value.category == Shopping && TopCategory(Seed).value.amount == 19999
  {
    SeedIsShaped();
    ShapedTop(Seed);
  }

  /** The breakdown of the seed has six rows and ends with entertainment at 15.99. */
  lemma SeedBottom()
    ensures |Breakdown(Seed)| == 6
    ensures Breakdown(Seed)[5].category == Entertainment && Breakdown(Seed)[5].amount == 1599
  {
    SeedIsShaped();
    ShapedBottom(Seed);
  }

  /** Records dated on consecutive days of January 2024, counting down from `first`. */
  lemma CountdownDates(s: seq<Expense>, first: int)
    requires first <= 31 && first - |s| >= 0
    requires forall i :: 0 <= i < |s| ==> s[i].date == Date(2024, 1, first - i)
    ensures ValidDates(s) && NewestFirst(s)
  {
    forall e | e in s ensures ValidDate(e.date) {
      var i :| 0 <= i < |s| && s[i] == e;
    }
  }

  /** The seed is already newest first, so the list shows it in fetch order. */
  lemma SeedListOrder()
    ensures VisibleExpenses(Seed, All) == Seed
  {
    assert forall i :: 0 <= i < |Seed| ==> Seed[i].date == Date(2024, 1, 15 - i);
    CountdownDates(Seed, 15);
    SortByDateIdempotent(Seed);
  }

  /** Every seed record has a trimmed, non-blank description and a positive amount. */
  lemma SeedWellFormed(i: nat)
    requires i < |Seed|
    ensures WellFormed(Seed[i])
  {
    Text.TrimUntouched(Seed[i].description);
  }

  /** The seed's ids are pairwise distinct. */
  lemma SeedUniqueIds()
    ensures UniqueIds(Seed)
  {
    forall i, j | 0 <= i < j < |Seed| ensures Seed[i].id != Seed[j].id {
      SeedId(i);
      SeedId(j);
      assert Seed[i].id[0] != Seed[j].id[0];
    }
  }

  /** The `k`-th seed record's id is the single digit `k + 1`. */
  lemma SeedId(k: nat)
    requires k < |Seed|
    ensures |Seed[k].id| == 1 && Seed[k].id[0] as int == '1' as int + k
  {
    if k == 0 {} else if k == 1 {} else if k == 2 {} else if k == 3 {}
    else if k == 4 {} else if k == 5 {} else if k == 6 {} else {}
  }

  /**
   The one fetch resolves with the seed, which meets the store invariant,
   so the load on mount keeps it.
   */
  lemma SeedLoadKeepsInvariant(st: StoreState)
    requires StoreInvariant(st)
    ensures StoreInvariant(StoreState(Seed, st.filter, false))
    ensures StoreInvariant(FinishLoad(st, Loaded(Seed)))
  {
    SeedUniqueIds();
    forall e | e in Seed ensures WellFormed(e) {
      var i :| 0 <= i < |Seed| && Seed[i] == e;
      SeedWellFormed(i);
    }
    LoadKeepsInvariant(st, Loaded(Seed));
  }
}

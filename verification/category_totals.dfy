/**
 The per-category fold shared by the summary cards and the category
 chart: `expenses.forEach(e => record[e.category] = (record[e.category] || 0) + e.amount)`
 followed by `Object.entries(record)`. Object keys that are not integer
 indices enumerate in insertion order, so the entries come out in the
 order in which each category first occurs in the list.
 */
module CategoryTotals {
  import opened Seqs
  import opened ExpenseTypes

  /** `expenses.reduce((sum, e) => sum + e.amount, 0)`. */
  function Total(s: seq<Expense>): int
  {
    Sum(s, AmountOf)
  }

  /** The reference definition of a category's total: the sum over its records. */
  function CategorySum(s: seq<Expense>, c: Category): int
  {
    Total(Keep(s, HasCategory(c)))
  }

  /** Some record of `s` has category `c`. */
  ghost predicate Occurs(s: seq<Expense>, c: Category)
  {
    exists e :: e in s && e.category == c
  }

  /** One `[category, amount]` entry of the record. */
  datatype Tally = Tally(category: Category, amount: int)

  function TallyAmount(t: Tally): int
  {
    t.amount
  }

  ghost predicate DistinctCategories(ts: seq<Tally>)
  {
    forall i, j :: 0 <= i < j < |ts| ==> ts[i].category != ts[j].category
  }

  /** The record has a key for `c`. */
  ghost predicate Listed(ts: seq<Tally>, c: Category)
  {
    exists i :: 0 <= i < |ts| && ts[i].category == c
  }

  /** `record[c] || 0`: the amount stored under `c`, or 0 when there is none. */
  function AmountFor(ts: seq<Tally>, c: Category): int
  {
    if ts == [] then 0
    else if ts[0].category == c then ts[0].amount
    else AmountFor(ts[1..], c)
  }

  /**
   One step of the fold: adds `e.amount` under `e.category`, updating the
   entry in place when the key exists and appending a new entry when it
   does not.
   */
  function Bump(ts: seq<Tally>, e: Expense): (r: seq<Tally>)
    ensures Listed(ts, e.category) ==>
              |r| == |ts| && forall i :: 0 <= i < |ts| ==> r[i].category == ts[i].category
    ensures !Listed(ts, e.category) ==> r == ts + [Tally(e.category, e.amount)]
  {
    if ts == [] then [Tally(e.category, e.amount)]
    else if ts[0].category == e.category then [Tally(e.category, ts[0].amount + e.amount)] + ts[1..]
    else
      var r := [ts[0]] + Bump(ts[1..], e);
      assert Listed(ts, e.category) ==> Listed(ts[1..], e.category) by {
        if Listed(ts, e.category) {
          var i :| 0 <= i < |ts| && ts[i].category == e.category;
          assert ts[1..][i - 1].category == e.category;
        }
      }
      assert !Listed(ts, e.category) ==> !Listed(ts[1..], e.category) by {
        if Listed(ts[1..], e.category) {
          var i :| 0 <= i < |ts[1..]| && ts[1..][i].category == e.category;
          assert ts[i + 1].category == e.category;
        }
      }
      assert !Listed(ts, e.category) ==> r == ts + [Tally(e.category, e.amount)] by {
        if !Listed(ts, e.category) {
          assert ts == [ts[0]] + ts[1..];
        }
      }
      r
  }

  /** After a step, the record holds `e.amount` more under `e.category` and the same under every other key. */
  lemma {:induction false} BumpAmountFor(ts: seq<Tally>, e: Expense, c: Category)
    ensures AmountFor(Bump(ts, e), c) == AmountFor(ts, c) + (if c == e.category then e.amount else 0)
  {
    if ts != [] && ts[0].category != e.category {
      BumpAmountFor(ts[1..], e, c);
      assert Bump(ts, e)[1..] == Bump(ts[1..], e);
    }
  }

  /** After a step, the entries add up to `e.amount` more. */
  lemma {:induction false} BumpSum(ts: seq<Tally>, e: Expense)
    ensures Sum(Bump(ts, e), TallyAmount) == Sum(ts, TallyAmount) + e.amount
  {
    if ts != [] && ts[0].category != e.category {
      BumpSum(ts[1..], e);
      assert Bump(ts, e)[1..] == Bump(ts[1..], e);
    }
  }

  /** The fold over the whole list, left to right. */
  function Tallies(s: seq<Expense>): seq<Tally>
    decreases |s|
  {
    if s == [] then [] else Bump(Tallies(s[..|s| - 1]), s[|s| - 1])
  }

  lemma BumpPast(t: Tally, ts: seq<Tally>, e: Expense)
    requires t.category != e.category
    ensures Bump([t] + ts, e) == [t] + Bump(ts, e)
  {
    assert ([t] + ts)[1..] == ts;
  }

  lemma TalliesSnoc(s: seq<Expense>, x: Expense)
    ensures Tallies(s + [x]) == Bump(Tallies(s), x)
  {
    assert (s + [x])[..|s|] == s;
  }

  /** Index of the first record of category `c` (`|s|` when there is none). */
  function FirstIndex(s: seq<Expense>, c: Category): (n: nat)
    ensures n <= |s|
    ensures n < |s| <==> Occurs(s, c)
    ensures n < |s| ==> s[n].category == c
  {
    if s == [] then 0
    else if s[0].category == c then 0
    else
      OccursTail(s, c);
      1 + FirstIndex(s[1..], c)
  }

  /** The order in which the entries of the record are enumerated. */
  ghost predicate FirstOccurrenceOrder(s: seq<Expense>, ts: seq<Tally>)
  {
    forall i, j :: 0 <= i < j < |ts| ==> FirstIndex(s, ts[i].category) < FirstIndex(s, ts[j].category)
  }

  lemma OccursTail(s: seq<Expense>, c: Category)
    requires s != [] && s[0].category != c
    ensures Occurs(s, c) <==> Occurs(s[1..], c)
  {
    if Occurs(s, c) {
      var e :| e in s && e.category == c;
      assert e in s[1..];
    }
    if Occurs(s[1..], c) {
      var e :| e in s[1..] && e.category == c;
      assert e in s;
    }
  }

  lemma {:induction false} FirstIndexAppend(s: seq<Expense>, x: Expense, c: Category)
    ensures Occurs(s, c) ==> FirstIndex(s + [x], c) == FirstIndex(s, c)
    ensures !Occurs(s, c) && x.category == c ==> FirstIndex(s + [x], c) == |s|
  {
    if s != [] {
      assert (s + [x])[0] == s[0];
      if s[0].category != c {
        assert (s + [x])[1..] == s[1..] + [x];
        FirstIndexAppend(s[1..], x, c);
        OccursTail(s, c);
      }
    }
  }

  lemma OccursAppend(s: seq<Expense>, x: Expense, c: Category)
    ensures Occurs(s + [x], c) <==> Occurs(s, c) || x.category == c
  {
    if Occurs(s + [x], c) {
      var e :| e in s + [x] && e.category == c;
      if e != x {
        assert e in s;
      }
    }
    if Occurs(s, c) {
      var e :| e in s && e.category == c;
      assert e in s + [x];
    }
    assert x in s + [x];
  }

  lemma CategorySumAppend(s: seq<Expense>, x: Expense, c: Category)
    ensures CategorySum(s + [x], c) == CategorySum(s, c) + (if x.category == c then x.amount else 0)
  {
    KeepConcat(s, [x], HasCategory(c));
    SumConcat(Keep(s, HasCategory(c)), Keep([x], HasCategory(c)), AmountOf);
  }

  lemma TotalAppend(s: seq<Expense>, x: Expense)
    ensures Total(s + [x]) == Total(s) + x.amount
  {
    SumConcat(s, [x], AmountOf);
  }

  lemma ListedAmountFor(ts: seq<Tally>, i: nat)
    requires DistinctCategories(ts) && i < |ts|
    ensures AmountFor(ts, ts[i].category) == ts[i].amount
  {
    if i > 0 {
      assert DistinctCategories(ts[1..]);
      ListedAmountFor(ts[1..], i - 1);
    }
  }

  /** The record has a key for exactly the categories that occur. */
  lemma {:induction false} TalliesListed(s: seq<Expense>)
    ensures forall c :: Listed(Tallies(s), c) <==> Occurs(s, c)
    decreases |s|
  {
    if s != [] {
      var p := s[..|s| - 1];
      var x := s[|s| - 1];
      assert s == p + [x];
      TalliesListed(p);
      forall c ensures Listed(Tallies(s), c) <==> Occurs(s, c) {
        OccursAppend(p, x, c);
        ListedBump(Tallies(p), x, c);
      }
    }
  }

  /** Each key holds its category's total, and the entries add up to the list's total. */
  lemma {:induction false} TalliesAmounts(s: seq<Expense>)
    ensures forall c :: AmountFor(Tallies(s), c) == CategorySum(s, c)
    ensures Sum(Tallies(s), TallyAmount) == Total(s)
    decreases |s|
  {
    if s != [] {
      var p := s[..|s| - 1];
      var x := s[|s| - 1];
      assert s == p + [x];
      TalliesAmounts(p);
      TotalAppend(p, x);
      BumpSum(Tallies(p), x);
      forall c ensures AmountFor(Tallies(s), c) == CategorySum(s, c) {
        CategorySumAppend(p, x, c);
        BumpAmountFor(Tallies(p), x, c);
      }
    }
  }

  /** No key repeats. */
  lemma {:induction false} TalliesDistinct(s: seq<Expense>)
    ensures DistinctCategories(Tallies(s))
    decreases |s|
  {
    if s != [] {
      var p := s[..|s| - 1];
      var x := s[|s| - 1];
      assert s == p + [x];
      TalliesDistinct(p);
      var ts := Tallies(p);
      var r := Bump(ts, x);
      assert r == Tallies(s);
      if Listed(ts, x.category) {
        assert forall i :: 0 <= i < |r| ==> r[i].category == ts[i].category;
      } else {
        assert r == ts + [Tally(x.category, x.amount)];
        assert forall i :: 0 <= i < |ts| ==> ts[i].category != x.category;
      }
    }
  }

  /** The keys come in order of first occurrence. */
  lemma {:induction false} TalliesOrdered(s: seq<Expense>)
    ensures FirstOccurrenceOrder(s, Tallies(s))
    decreases |s|
  {
    if s != [] {
      var p := s[..|s| - 1];
      var x := s[|s| - 1];
      assert s == p + [x];
      TalliesOrdered(p);
      TalliesListed(p);
      var ts := Tallies(p);
      var r := Bump(ts, x);
      assert r == Tallies(s);
      forall i | 0 <= i < |ts|
        ensures FirstIndex(s, ts[i].category) == FirstIndex(p, ts[i].category) < |p|
      {
        assert Listed(ts, ts[i].category);
        FirstIndexAppend(p, x, ts[i].category);
      }
      if Listed(ts, x.category) {
        assert forall i :: 0 <= i < |r| ==> r[i].category == ts[i].category;
      } else {
        assert r == ts + [Tally(x.category, x.amount)];
        FirstIndexAppend(p, x, x.category);
      }
    }
  }

  /**
   What the fold builds: one entry per category that occurs in `s` and
   none for the others, each holding the total of its category's records,
   enumerated in order of first occurrence; the entries add up to the
   total of `s`.
   */
  lemma TalliesCorrect(s: seq<Expense>)
    ensures DistinctCategories(Tallies(s))
    ensures forall c :: Listed(Tallies(s), c) <==> Occurs(s, c)
    ensures forall c :: AmountFor(Tallies(s), c) == CategorySum(s, c)
    ensures Sum(Tallies(s), TallyAmount) == Total(s)
    ensures FirstOccurrenceOrder(s, Tallies(s))
  {
    TalliesListed(s);
    TalliesAmounts(s);
    TalliesDistinct(s);
    TalliesOrdered(s);
  }

  lemma ListedBump(ts: seq<Tally>, x: Expense, c: Category)
    ensures Listed(Bump(ts, x), c) <==> Listed(ts, c) || c == x.category
  {
    var r := Bump(ts, x);
    if Listed(ts, x.category) {
      if Listed(r, c) {
        var i :| 0 <= i < |r| && r[i].category == c;
        assert ts[i].category == c;
      }
      if Listed(ts, c) {
        var i :| 0 <= i < |ts| && ts[i].category == c;
        assert r[i].category == c;
      }
    } else {
      assert r[|ts|].category == x.category;
      if Listed(r, c) {
        var i :| 0 <= i < |r| && r[i].category == c;
        if i < |ts| {
          assert ts[i].category == c;
        }
      }
      if Listed(ts, c) {
        var i :| 0 <= i < |ts| && ts[i].category == c;
        assert r[i].category == c;
      }
    }
  }

  /** Each entry of the fold holds its category's total. */
  lemma TallyIsCategorySum(s: seq<Expense>, i: nat)
    requires i < |Tallies(s)|
    ensures Tallies(s)[i].amount == CategorySum(s, Tallies(s)[i].category)
  {
    TalliesCorrect(s);
    ListedAmountFor(Tallies(s), i);
  }

  /** The fold is empty exactly when the list is. */
  lemma TalliesEmpty(s: seq<Expense>)
    ensures Tallies(s) == [] <==> s == []
  {
    if s != [] {
      TalliesCorrect(s);
      assert s[0] in s;
      assert Listed(Tallies(s), s[0].category);
    }
  }
}

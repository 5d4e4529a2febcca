/**
 The page-level store: the canonical expense list, the active filter and
 the loading flag, and the transitions the page's callbacks perform on
 them. Fresh ids and creation timestamps are parameters.
 */
module ExpenseStore {
  import opened Seqs
  import opened ExpenseTypes
  import opened Text
  import ExpenseForm

  /** No two records share an id. */
  ghost predicate UniqueIds(s: seq<Expense>)
  {
    forall i, j :: 0 <= i < j < |s| ==> s[i].id != s[j].id
  }

  /** `id` is not used by any record of `s`. */
  ghost predicate FreshId(s: seq<Expense>, id: string)
  {
    forall e :: e in s ==> e.id != id
  }

  /** The selector `expense => expense.id !== id`. */
  function IdIsNot(id: string): Expense -> bool
  {
    (e: Expense) => e.id != id
  }

  /**
   `handleAddExpense`: the payload becomes a record with the supplied id
   and timestamp, placed in front of the previous records.
   */
  function Add(prev: seq<Expense>, input: NewExpense, id: string, createdAt: string): (r: seq<Expense>)
    ensures |r| == |prev| + 1 && r[1..] == prev
    ensures r[0].id == id && r[0].createdAt == createdAt
    ensures NewExpense(r[0].description, r[0].amount, r[0].category, r[0].date) == input
  {
    [Expense(id, input.description, input.amount, input.category, input.date, createdAt)] + prev
  }

  /**
   `handleDeleteExpense`: keeps exactly the records whose id differs from
   `id`, each as often as before, in their original order.
   */
  function Delete(prev: seq<Expense>, id: string): (r: seq<Expense>)
    ensures forall e :: e in r <==> e in prev && e.id != id
    ensures forall e {:trigger multiset(r)[e]} :: multiset(r)[e] == if e.id != id then multiset(prev)[e] else 0
    ensures IsSubsequence(r, prev)
  {
    KeepCounts(prev, IdIsNot(id));
    KeepSubsequence(prev, IdIsNot(id));
    Keep(prev, IdIsNot(id))
  }

  /** Deleting an id no record has leaves the list as it was. */
  lemma DeleteAbsent(prev: seq<Expense>, id: string)
    requires FreshId(prev, id)
    ensures Delete(prev, id) == prev
  {
    KeepAll(prev, IdIsNot(id));
  }

  lemma DeleteIdempotent(prev: seq<Expense>, id: string)
    ensures Delete(Delete(prev, id), id) == Delete(prev, id)
  {
    KeepIdempotent(prev, IdIsNot(id));
  }

  /** Deleting the record just added, under a fresh id, restores the previous list. */
  lemma DeleteUndoesAdd(prev: seq<Expense>, input: NewExpense, id: string, createdAt: string)
    requires FreshId(prev, id)
    ensures Delete(Add(prev, input, id, createdAt), id) == prev
  {
    var r := Add(prev, input, id, createdAt);
    assert r == [r[0]] + prev;
    KeepConcat([r[0]], prev, IdIsNot(id));
    DeleteAbsent(prev, id);
  }

  /** Adding under an id not yet in use keeps the ids unique. */
  lemma AddKeepsUniqueIds(prev: seq<Expense>, input: NewExpense, id: string, createdAt: string)
    requires UniqueIds(prev) && FreshId(prev, id)
    ensures UniqueIds(Add(prev, input, id, createdAt))
  {
    var r := Add(prev, input, id, createdAt);
    forall i, j | 0 <= i < j < |r| ensures r[i].id != r[j].id {
      assert r[j] == prev[j - 1];
      if i > 0 {
        assert r[i] == prev[i - 1];
      }
    }
  }

  lemma {:induction false} KeepKeepsUniqueIds(s: seq<Expense>, p: Expense -> bool)
    requires UniqueIds(s)
    ensures UniqueIds(Keep(s, p))
  {
    if s != [] {
      assert UniqueIds(s[1..]);
      KeepKeepsUniqueIds(s[1..], p);
      var t := Keep(s[1..], p);
      if p(s[0]) {
        var r := [s[0]] + t;
        forall i, j | 0 <= i < j < |r| ensures r[i].id != r[j].id {
          if i == 0 {
            assert r[j] in s[1..];
            var k :| 0 <= k < |s[1..]| && s[1..][k] == r[j];
            assert s[k + 1] == r[j];
          } else {
            assert r[i] == t[i - 1] && r[j] == t[j - 1];
          }
        }
      }
    }
  }

  lemma DeleteKeepsUniqueIds(prev: seq<Expense>, id: string)
    requires UniqueIds(prev)
    ensures UniqueIds(Delete(prev, id))
  {
    KeepKeepsUniqueIds(prev, IdIsNot(id));
  }

  /** With unique ids, deleting an id that is in use removes exactly one record. */
  lemma {:induction false} DeleteRemovesOne(prev: seq<Expense>, id: string)
    requires UniqueIds(prev) && !FreshId(prev, id)
    ensures |Delete(prev, id)| == |prev| - 1
  {
    assert prev == [prev[0]] + prev[1..];
    KeepConcat([prev[0]], prev[1..], IdIsNot(id));
    assert UniqueIds(prev[1..]);
    if prev[0].id == id {
      forall e | e in prev[1..] ensures e.id != id {
        var k :| 0 <= k < |prev[1..]| && prev[1..][k] == e;
        assert prev[k + 1] == e;
      }
      DeleteAbsent(prev[1..], id);
    } else {
      var e :| e in prev && e.id == id;
      assert e in prev[1..];
      DeleteRemovesOne(prev[1..], id);
    }
  }

  /** The selector for records in the same calendar month and year as `now`. */
  function InMonthOf(now: Date): Expense -> bool
  {
    (e: Expense) => e.date.month == now.month && e.date.year == now.year
  }

  /**
   `currentMonthExpenses`: the records dated in the month and year of
   `now`, in list order.
   */
  function CurrentMonth(expenses: seq<Expense>, now: Date): (r: seq<Expense>)
    ensures forall e :: e in r <==> e in expenses && e.date.year == now.year && e.date.month == now.month
    ensures forall e {:trigger multiset(r)[e]} ::
              multiset(r)[e] == if e.date.year == now.year && e.date.month == now.month then multiset(expenses)[e] else 0
    ensures IsSubsequence(r, expenses)
  {
    KeepCounts(expenses, InMonthOf(now));
    KeepSubsequence(expenses, InMonthOf(now));
    Keep(expenses, InMonthOf(now))
  }

  /** The page's state. */
  datatype StoreState = StoreState(expenses: seq<Expense>, filter: Filter, isLoading: bool)

  /** The state on mount: no records, filter `'all'`, loading. */
  const InitialState: StoreState := StoreState([], All, true)

  /** How the one load request ends. */
  datatype LoadOutcome = Loaded(data: seq<Expense>) | LoadFailed

  /**
   The load effect: on success the fetched records replace the list
   wholesale; on failure the list stays as it was. Either way loading ends
   and the filter is untouched.
   */
  function FinishLoad(st: StoreState, outcome: LoadOutcome): (r: StoreState)
    ensures !r.isLoading && r.filter == st.filter
    ensures outcome.LoadFailed? ==> r.expenses == st.expenses
    ensures outcome.Loaded? ==> r.expenses == outcome.data
  {
    match outcome
    case Loaded(data) => st.(expenses := data, isLoading := false)
    case LoadFailed => st.(isLoading := false)
  }

  /** A failed load on mount leaves the list empty and the filter `'all'`. */
  lemma FailedLoadOnMount()
    ensures FinishLoad(InitialState, LoadFailed) == StoreState([], All, false)
  {
  }

  function AddExpense(st: StoreState, input: NewExpense, id: string, createdAt: string): (r: StoreState)
    ensures r.filter == st.filter && r.isLoading == st.isLoading
    ensures r.expenses == Add(st.expenses, input, id, createdAt)
  {
    st.(expenses := Add(st.expenses, input, id, createdAt))
  }

  function DeleteExpense(st: StoreState, id: string): (r: StoreState)
    ensures r.filter == st.filter && r.isLoading == st.isLoading
    ensures r.expenses == Delete(st.expenses, id)
  {
    st.(expenses := Delete(st.expenses, id))
  }

  /** `handleFilterChange`: the filter is replaced and nothing else changes. */
  function ChangeFilter(st: StoreState, f: Filter): (r: StoreState)
    ensures r.filter == f
    ensures r.expenses == st.expenses && r.isLoading == st.isLoading
  {
    st.(filter := f)
  }

  /** A record as the form can create it: trimmed non-blank description, positive amount. */
  predicate WellFormed(e: Expense)
  {
    e.amount > 0 && e.description != "" && Trim(e.description) == e.description
  }

  ghost predicate StoreInvariant(st: StoreState)
  {
    UniqueIds(st.expenses) && forall e :: e in st.expenses ==> WellFormed(e)
  }

  lemma InitialStateInvariant()
    ensures StoreInvariant(InitialState)
  {
  }

  /** Adding a payload the form sends, under a fresh id, keeps the store invariant. */
  lemma AddKeepsInvariant(st: StoreState, input: NewExpense, id: string, createdAt: string)
    requires StoreInvariant(st) && ExpenseForm.ValidPayload(input) && FreshId(st.expenses, id)
    ensures StoreInvariant(AddExpense(st, input, id, createdAt))
  {
    AddKeepsUniqueIds(st.expenses, input, id, createdAt);
    var r := Add(st.expenses, input, id, createdAt);
    forall e | e in r ensures WellFormed(e) {
      if e != r[0] {
        assert e in r[1..];
      }
    }
  }

  lemma DeleteKeepsInvariant(st: StoreState, id: string)
    requires StoreInvariant(st)
    ensures StoreInvariant(DeleteExpense(st, id))
  {
    DeleteKeepsUniqueIds(st.expenses, id);
  }

  lemma LoadKeepsInvariant(st: StoreState, outcome: LoadOutcome)
    requires StoreInvariant(st)
    requires outcome.Loaded? ==> StoreInvariant(StoreState(outcome.data, st.filter, false))
    ensures StoreInvariant(FinishLoad(st, outcome))
  {
  }
}

/**
 A stable sort in descending order of an integer key: what
 `[...xs].sort((a, b) => key(b) - key(a))` computes, given that
 `Array.prototype.sort` is required to be stable (section 23.1.3.30 of
 ECMA-262, 2023 edition). It is written as an insertion sort over `seq`.
 */
module StableSort {
  import opened Seqs

  /** Non-increasing by `key`. */
  ghost predicate SortedDesc<T>(s: seq<T>, key: T -> int)
  {
    forall i, j :: 0 <= i < j < |s| ==> key(s[i]) >= key(s[j])
  }

  /** The selector for the elements whose key is `k`. */
  function HasKey<T>(key: T -> int, k: int): T -> bool
  {
    x => key(x) == k
  }

  /**
   Inserts `x` in front of the first element whose key is not greater
   than its own: `x` goes after every element with a larger key and
   before every element with an equal one.
   */
  function Insert<T>(x: T, s: seq<T>, key: T -> int): (r: seq<T>)
    ensures |r| == |s| + 1
    ensures multiset(r) == multiset(s) + multiset{x}
    ensures r[0] == x || (s != [] && r[0] == s[0])
  {
    if s == [] || key(s[0]) <= key(x) then [x] + s
    else
      assert s == [s[0]] + s[1..];
      [s[0]] + Insert(x, s[1..], key)
  }

  /** Inserting into a sorted sequence keeps it sorted. */
  lemma {:induction false} InsertSorted<T>(x: T, s: seq<T>, key: T -> int)
    requires SortedDesc(s, key)
    ensures SortedDesc(Insert(x, s, key), key)
  {
    if !(s == [] || key(s[0]) <= key(x)) {
      var t := Insert(x, s[1..], key);
      assert SortedDesc(s[1..], key);
      InsertSorted(x, s[1..], key);
      assert key(t[0]) <= key(s[0]) by {
        if t[0] != x {
          assert t[0] == s[1];
        }
      }
      assert Insert(x, s, key) == [s[0]] + t;
    }
  }

  function Sort<T>(s: seq<T>, key: T -> int): (r: seq<T>)
    ensures multiset(r) == multiset(s)
    ensures SortedDesc(r, key)
  {
    if s == [] then []
    else
      assert s == [s[0]] + s[1..];
      InsertSorted(s[0], Sort(s[1..], key), key);
      Insert(s[0], Sort(s[1..], key), key)
  }

  lemma {:induction false} SortLength<T>(s: seq<T>, key: T -> int)
    ensures |Sort(s, key)| == |s|
  {
    assert |multiset(Sort(s, key))| == |multiset(s)|;
  }

  lemma {:induction false} InsertStable<T(!new)>(x: T, s: seq<T>, key: T -> int, k: int)
    ensures Keep(Insert(x, s, key), HasKey(key, k)) == Keep([x], HasKey(key, k)) + Keep(s, HasKey(key, k))
  {
    var p := HasKey(key, k);
    if s == [] || key(s[0]) <= key(x) {
      KeepConcat([x], s, p);
    } else {
      var t := Insert(x, s[1..], key);
      assert Insert(x, s, key) == [s[0]] + t;
      InsertStable(x, s[1..], key, k);
      KeepConcat([s[0]], t, p);
      KeepConcat([s[0]], s[1..], p);
      assert [s[0]] + s[1..] == s;
      KeepSingle(x, p);
      KeepSingle(s[0], p);
      // s[0] and x have different keys, so at most one of them is kept
      if p(x) {
        assert Keep([s[0]], p) == [];
      } else {
        assert Keep([x], p) == [];
      }
    }
  }

  /**
   Stability: for every key, the elements carrying that key appear in the
   output in exactly the order they had in the input.
   */
  lemma {:induction false} SortStable<T(!new)>(s: seq<T>, key: T -> int, k: int)
    ensures Keep(Sort(s, key), HasKey(key, k)) == Keep(s, HasKey(key, k))
  {
    var p := HasKey(key, k);
    if s != [] {
      SortStable(s[1..], key, k);
      InsertStable(s[0], Sort(s[1..], key), key, k);
      KeepConcat([s[0]], s[1..], p);
      assert [s[0]] + s[1..] == s;
    }
  }

  /** Sorting a sequence that is already in order returns it unchanged. */
  lemma {:induction false} SortIdempotent<T>(s: seq<T>, key: T -> int)
    requires SortedDesc(s, key)
    ensures Sort(s, key) == s
  {
    if s != [] {
      assert SortedDesc(s[1..], key);
      SortIdempotent(s[1..], key);
      assert [s[0]] + s[1..] == s;
    }
  }

  /** Sorting a sorted output again is the identity. */
  lemma SortTwice<T>(s: seq<T>, key: T -> int)
    ensures Sort(Sort(s, key), key) == Sort(s, key)
  {
    SortIdempotent(Sort(s, key), key);
  }

  lemma {:induction false} InsertSum<T>(x: T, s: seq<T>, key: T -> int, f: T -> int)
    ensures Sum(Insert(x, s, key), f) == f(x) + Sum(s, f)
  {
    if !(s == [] || key(s[0]) <= key(x)) {
      InsertSum(x, s[1..], key, f);
    }
  }

  lemma {:induction false} SortSum<T>(s: seq<T>, key: T -> int, f: T -> int)
    ensures Sum(Sort(s, key), f) == Sum(s, f)
  {
    if s != [] {
      SortSum(s[1..], key, f);
      InsertSum(s[0], Sort(s[1..], key), key, f);
    }
  }

  lemma {:induction false} InsertRealSum<T>(x: T, s: seq<T>, key: T -> int, f: T -> real)
    ensures RealSum(Insert(x, s, key), f) == f(x) + RealSum(s, f)
  {
    if !(s == [] || key(s[0]) <= key(x)) {
      InsertRealSum(x, s[1..], key, f);
    }
  }

  lemma {:induction false} SortRealSum<T>(s: seq<T>, key: T -> int, f: T -> real)
    ensures RealSum(Sort(s, key), f) == RealSum(s, f)
  {
    if s != [] {
      SortRealSum(s[1..], key, f);
      InsertRealSum(s[0], Sort(s[1..], key), key, f);
    }
  }

  /**
   Among elements with equal keys, `rank` increases along `s`.
   */
  ghost predicate TiesRanked<T>(s: seq<T>, key: T -> int, rank: T -> int)
  {
    forall i, j :: 0 <= i < j < |s| && key(s[i]) == key(s[j]) ==> rank(s[i]) < rank(s[j])
  }

  ghost predicate StrictlyRanked<T>(s: seq<T>, rank: T -> int)
  {
    forall i, j :: 0 <= i < j < |s| ==> rank(s[i]) < rank(s[j])
  }

  lemma InsertMembers<T>(x: T, s: seq<T>, key: T -> int, y: T)
    ensures y in Insert(x, s, key) <==> y == x || y in s
  {
    assert y in Insert(x, s, key) <==> y in multiset(Insert(x, s, key));
    assert y in s <==> y in multiset(s);
  }

  /** In a ties-ranked sequence the head outranks every later element with its key. */
  lemma RankedHead<T>(s: seq<T>, key: T -> int, rank: T -> int)
    requires s != [] && TiesRanked(s, key, rank)
    ensures TiesRanked(s[1..], key, rank)
    ensures forall y :: y in s[1..] && key(y) == key(s[0]) ==> rank(s[0]) < rank(y)
  {
    forall y | y in s[1..] && key(y) == key(s[0]) ensures rank(s[0]) < rank(y) {
      var j :| 0 <= j < |s[1..]| && s[1..][j] == y;
      assert s[j + 1] == y;
    }
  }

  lemma {:induction false} InsertTiesRanked<T>(x: T, s: seq<T>, key: T -> int, rank: T -> int)
    requires TiesRanked(s, key, rank)
    requires forall y :: y in s ==> rank(x) < rank(y)
    ensures TiesRanked(Insert(x, s, key), key, rank)
  {
    if !(s == [] || key(s[0]) <= key(x)) {
      var t := Insert(x, s[1..], key);
      RankedHead(s, key, rank);
      InsertTiesRanked(x, s[1..], key, rank);
      var r := Insert(x, s, key);
      assert r == [s[0]] + t;
      forall i, j | 0 <= i < j < |r| && key(r[i]) == key(r[j])
        ensures rank(r[i]) < rank(r[j])
      {
        assert r[j] == t[j - 1];
        if i == 0 {
          InsertMembers(x, s[1..], key, t[j - 1]);
        } else {
          assert r[i] == t[i - 1];
        }
      }
    }
  }

  /**
   If the input is strictly increasing in `rank`, then in the sorted
   output every run of equal keys is still increasing in `rank`: ties keep
   the input's order.
   */
  lemma {:induction false} SortTiesRanked<T>(s: seq<T>, key: T -> int, rank: T -> int)
    requires StrictlyRanked(s, rank)
    ensures TiesRanked(Sort(s, key), key, rank)
  {
    if s != [] {
      assert StrictlyRanked(s[1..], rank);
      SortTiesRanked(s[1..], key, rank);
      forall y | y in Sort(s[1..], key)
        ensures rank(s[0]) < rank(y)
      {
        assert y in multiset(Sort(s[1..], key));
        assert y in s[1..];
      }
      InsertTiesRanked(s[0], Sort(s[1..], key), key, rank);
    }
  }
  /** No two elements agree on `f`. */
  ghost predicate DistinctBy<T, U>(s: seq<T>, f: T -> U)
  {
    forall i, j :: 0 <= i < j < |s| ==> f(s[i]) != f(s[j])
  }

  /** In a sequence distinct by `f`, the head differs under `f` from every later element. */
  lemma DistinctHead<T, U>(s: seq<T>, f: T -> U)
    requires s != [] && DistinctBy(s, f)
    ensures DistinctBy(s[1..], f)
    ensures forall y :: y in s[1..] ==> f(y) != f(s[0])
  {
    forall y | y in s[1..] ensures f(y) != f(s[0]) {
      var j :| 0 <= j < |s[1..]| && s[1..][j] == y;
      assert s[j + 1] == y;
    }
  }

  lemma {:induction false} InsertDistinctBy<T, U>(x: T, s: seq<T>, key: T -> int, f: T -> U)
    requires DistinctBy(s, f)
    requires forall y :: y in s ==> f(y) != f(x)
    ensures DistinctBy(Insert(x, s, key), f)
  {
    if !(s == [] || key(s[0]) <= key(x)) {
      var t := Insert(x, s[1..], key);
      DistinctHead(s, f);
      InsertDistinctBy(x, s[1..], key, f);
      var r := Insert(x, s, key);
      assert r == [s[0]] + t;
      forall i, j | 0 <= i < j < |r| ensures f(r[i]) != f(r[j]) {
        assert r[j] == t[j - 1];
        if i == 0 {
          InsertMembers(x, s[1..], key, t[j - 1]);
        } else {
          assert r[i] == t[i - 1];
        }
      }
    }
  }

  /** Sorting never makes two elements agree on `f` that did not already. */
  lemma {:induction false} SortDistinctBy<T, U>(s: seq<T>, key: T -> int, f: T -> U)
    requires DistinctBy(s, f)
    ensures DistinctBy(Sort(s, key), f)
  {
    if s != [] {
      assert DistinctBy(s[1..], f);
      SortDistinctBy(s[1..], key, f);
      forall y | y in Sort(s[1..], key) ensures f(y) != f(s[0]) {
        assert y in multiset(Sort(s[1..], key));
        assert y in s[1..];
        var j :| 0 <= j < |s[1..]| && s[1..][j] == y;
        assert s[j + 1] == y;
      }
      InsertDistinctBy(s[0], Sort(s[1..], key), key, f);
    }
  }

  /** The sorted output holds exactly the input's elements. */
  lemma SortMembers<T>(s: seq<T>, key: T -> int, y: T)
    ensures y in Sort(s, key) <==> y in s
  {
    assert y in Sort(s, key) <==> y in multiset(Sort(s, key));
    assert y in s <==> y in multiset(s);
  }
  lemma {:induction false} InsertMap<A, B>(x: A, s: seq<A>, k1: A -> int, f: A -> B, k2: B -> int)
    requires forall y :: k2(f(y)) == k1(y)
    ensures Map(Insert(x, s, k1), f) == Insert(f(x), Map(s, f), k2)
  {
    if s == [] || k1(s[0]) <= k1(x) {
      assert Map([x] + s, f) == [f(x)] + Map(s, f);
    } else {
      InsertMap(x, s[1..], k1, f, k2);
      assert Map(s, f)[1..] == Map(s[1..], f);
      assert Map([s[0]] + Insert(x, s[1..], k1), f) == [f(s[0])] + Map(Insert(x, s[1..], k1), f);
    }
  }

  /**
   Mapping after sorting is sorting after mapping, when the map carries
   the sort key over unchanged.
   */
  lemma {:induction false} SortMap<A, B>(s: seq<A>, k1: A -> int, f: A -> B, k2: B -> int)
    requires forall y :: k2(f(y)) == k1(y)
    ensures Map(Sort(s, k1), f) == Sort(Map(s, f), k2)
  {
    if s != [] {
      SortMap(s[1..], k1, f, k2);
      InsertMap(s[0], Sort(s[1..], k1), k1, f, k2);
      assert Map(s, f)[0] == f(s[0]);
      assert Map(s, f)[1..] == Map(s[1..], f);
    }
  }
}

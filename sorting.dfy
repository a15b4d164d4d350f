/**
 * Python's `list.sort(key=..., reverse=...)` as the scheduler uses it: a
 * stable sort of elements paired with precomputed keys. `before(a, b)` says
 * that key `a` must come before key `b`; for `reverse=True` over a natural
 * order `<` it is `b < a`, otherwise `a < b`. Python computes every key before
 * it compares any, so keys are computed by the caller.
 */
module Sorting {

  ghost predicate StrictOrder<K(!new)>(before: (K, K) -> bool) {
    && (forall a :: !before(a, a))
    && (forall a, b, c :: before(a, b) && before(b, c) ==> before(a, c))
  }

  /** No element is followed by one whose key must come before its own. */
  ghost predicate SortedByKey<T, K>(s: seq<(T, K)>, before: (K, K) -> bool) {
    forall i, j :: 0 <= i < j < |s| ==> !before(s[j].1, s[i].1)
  }

  /** The elements of `s` whose key is `k`, in their order in `s`. */
  function WithKey<T, K(==)>(s: seq<(T, K)>, k: K): seq<(T, K)> {
    if s == [] then []
    else WithKey(s[..|s| - 1], k) + (if s[|s| - 1].1 == k then [s[|s| - 1]] else [])
  }

  function Firsts<T, K>(s: seq<(T, K)>): (r: seq<T>)
    ensures |r| == |s|
  {
    if s == [] then [] else Firsts(s[..|s| - 1]) + [s[|s| - 1].0]
  }

  /** The elements of `Firsts(s)` are those of `s` with their keys dropped, position by position. */
  lemma {:induction false} FirstsAt<T, K>(s: seq<(T, K)>)
    ensures forall i :: 0 <= i < |s| ==> Firsts(s)[i] == s[i].0
  {
    if s != [] {
      FirstsAt(s[..|s| - 1]);
    }
  }

  /** `x` placed after every element whose key need not follow it. */
  function InsertByKey<T, K>(x: (T, K), s: seq<(T, K)>, before: (K, K) -> bool): seq<(T, K)> {
    if s == [] then [x]
    else if before(x.1, s[0].1) then [x] + s
    else [s[0]] + InsertByKey(x, s[1..], before)
  }

  /** Insertion sort, taking the elements from the left: stable by construction. */
  function SortByKey<T, K>(s: seq<(T, K)>, before: (K, K) -> bool): seq<(T, K)> {
    if s == [] then [] else InsertByKey(s[|s| - 1], SortByKey(s[..|s| - 1], before), before)
  }

  lemma {:induction false} InsertPermutes<T, K>(x: (T, K), s: seq<(T, K)>, before: (K, K) -> bool)
    ensures multiset(InsertByKey(x, s, before)) == multiset(s) + multiset{x}
    ensures |InsertByKey(x, s, before)| == |s| + 1
  {
    if s != [] && !before(x.1, s[0].1) {
      InsertPermutes(x, s[1..], before);
      assert s == [s[0]] + s[1..];
    }
  }

  /** Sorting only reorders. */
  lemma {:induction false} SortPermutes<T, K>(s: seq<(T, K)>, before: (K, K) -> bool)
    ensures multiset(SortByKey(s, before)) == multiset(s)
    ensures |SortByKey(s, before)| == |s|
  {
    if s != [] {
      var init := s[..|s| - 1];
      SortPermutes(init, before);
      InsertPermutes(s[|s| - 1], SortByKey(init, before), before);
      assert s == init + [s[|s| - 1]];
    }
  }

  lemma FirstsAppend<T, K>(a: seq<(T, K)>, b: seq<(T, K)>)
    ensures Firsts(a + b) == Firsts(a) + Firsts(b)
  {
    FirstsAt(a + b);
    FirstsAt(a);
    FirstsAt(b);
    assert forall i :: 0 <= i < |a + b| ==> Firsts(a + b)[i] == (Firsts(a) + Firsts(b))[i];
  }

  lemma {:induction false} InsertFirsts<T, K>(x: (T, K), s: seq<(T, K)>, before: (K, K) -> bool)
    ensures multiset(Firsts(InsertByKey(x, s, before))) == multiset(Firsts(s)) + multiset{x.0}
  {
    if s == [] {
      assert Firsts([x]) == [x.0];
    } else if before(x.1, s[0].1) {
      FirstsAppend([x], s);
      assert Firsts([x]) == [x.0];
    } else {
      InsertFirsts(x, s[1..], before);
      FirstsAppend([s[0]], InsertByKey(x, s[1..], before));
      FirstsAppend([s[0]], s[1..]);
      assert s == [s[0]] + s[1..];
    }
  }

  /** Sorting only reorders the elements themselves, whatever their keys. */
  lemma {:induction false} SortFirsts<T, K>(s: seq<(T, K)>, before: (K, K) -> bool)
    ensures multiset(Firsts(SortByKey(s, before))) == multiset(Firsts(s))
  {
    if s != [] {
      var init := s[..|s| - 1];
      SortFirsts(init, before);
      InsertFirsts(s[|s| - 1], SortByKey(init, before), before);
      assert Firsts(s) == Firsts(init) + [s[|s| - 1].0];
    }
  }

  /** Every element of the sorted list is an element of the input. */
  lemma SortedFrom<T, K>(s: seq<(T, K)>, before: (K, K) -> bool, i: int) returns (k: nat)
    requires 0 <= i < |SortByKey(s, before)|
    ensures k < |s| && s[k] == SortByKey(s, before)[i]
  {
    SortPermutes(s, before);
    var x := SortByKey(s, before)[i];
    assert x in multiset(SortByKey(s, before));
    assert x in multiset(s);
    k :| 0 <= k < |s| && s[k] == x;
  }

  lemma {:induction false} InsertSorted<T, K(!new)>(x: (T, K), s: seq<(T, K)>, before: (K, K) -> bool)
    requires StrictOrder(before) && SortedByKey(s, before)
    ensures SortedByKey(InsertByKey(x, s, before), before)
  {
    var r := InsertByKey(x, s, before);
    if s == [] {
    } else if before(x.1, s[0].1) {
      forall i, j | 0 <= i < j < |r| ensures !before(r[j].1, r[i].1) {
        if i == 0 {
          assert r[j] == s[j - 1];
          assert !before(s[j - 1].1, s[0].1);
        } else {
          assert r[i] == s[i - 1] && r[j] == s[j - 1];
        }
      }
    } else {
      var t := InsertByKey(x, s[1..], before);
      InsertSorted(x, s[1..], before);
      InsertPermutes(x, s[1..], before);
      forall i, j | 0 <= i < j < |r| ensures !before(r[j].1, r[i].1) {
        if i == 0 {
          assert r[j] == t[j - 1];
          assert r[j] in multiset(s[1..]) + multiset{x} by {
            assert t[j - 1] in t;
          }
          if r[j] != x {
            assert r[j] in s[1..];
            var m :| 0 <= m < |s[1..]| && s[1..][m] == r[j];
            assert s[m + 1] == r[j];
          }
        } else {
          assert r[i] == t[i - 1] && r[j] == t[j - 1];
        }
      }
    }
  }

  lemma {:induction false} SortSorted<T, K(!new)>(s: seq<(T, K)>, before: (K, K) -> bool)
    requires StrictOrder(before)
    ensures SortedByKey(SortByKey(s, before), before)
  {
    if s != [] {
      SortSorted(s[..|s| - 1], before);
      InsertSorted(s[|s| - 1], SortByKey(s[..|s| - 1], before), before);
    }
  }

  lemma {:induction false} WithKeyAppend<T, K>(s: seq<(T, K)>, t: seq<(T, K)>, k: K)
    ensures WithKey(s + t, k) == WithKey(s, k) + WithKey(t, k)
    decreases |t|
  {
    if t == [] {
      assert s + t == s;
    } else {
      var t' := t[..|t| - 1];
      assert (s + t)[..|s + t| - 1] == s + t';
      WithKeyAppend(s, t', k);
    }
  }

  lemma WithKeySingle<T, K>(x: (T, K), k: K)
    ensures WithKey([x], k) == if x.1 == k then [x] else []
  {
    assert [x][..0] == [];
  }

  /** Inserting `x` into a sorted list puts it after every element with its key. */
  lemma {:induction false} InsertWithKey<T, K(!new)>(x: (T, K), s: seq<(T, K)>, before: (K, K) -> bool, k: K)
    requires StrictOrder(before) && SortedByKey(s, before)
    ensures WithKey(InsertByKey(x, s, before), k) == WithKey(s, k) + WithKey([x], k)
  {
    if s == [] {
      assert [x] == [] + [x];
    } else if before(x.1, s[0].1) {
      assert InsertByKey(x, s, before) == [x] + s;
      WithKeyFront(x, s, before, k);
    } else {
      assert InsertByKey(x, s, before) == [s[0]] + InsertByKey(x, s[1..], before);
      InsertWithKey(x, s[1..], before, k);
      WithKeyAppend([s[0]], InsertByKey(x, s[1..], before), k);
      WithKeyAppend([s[0]], s[1..], k);
      assert s == [s[0]] + s[1..];
    }
  }

  /** Putting `x` in front of a sorted list whose keys all come after its own keeps the elements with any one key in order. */
  lemma WithKeyFront<T, K(!new)>(x: (T, K), s: seq<(T, K)>, before: (K, K) -> bool, k: K)
    requires StrictOrder(before) && SortedByKey(s, before)
    requires s != [] && before(x.1, s[0].1)
    ensures WithKey([x] + s, k) == WithKey(s, k) + WithKey([x], k)
  {
    WithKeyAppend([x], s, k);
    WithKeySingle(x, k);
    if x.1 == k {
      WithKeyNone(s, before, k);
    }
  }

  /** In a sorted list headed by a key that `k` must precede, no element has key `k`. */
  lemma {:induction false} WithKeyNone<T, K(!new)>(s: seq<(T, K)>, before: (K, K) -> bool, k: K)
    requires StrictOrder(before) && SortedByKey(s, before)
    requires s != [] && before(k, s[0].1)
    ensures WithKey(s, k) == []
    decreases |s|
  {
    var last := s[|s| - 1];
    if |s| > 1 {
      assert SortedByKey(s[..|s| - 1], before);
      WithKeyNone(s[..|s| - 1], before, k);
    }
    assert !before(last.1, s[0].1);
  }

  /**
   * The sort is stable: for every key, the elements carrying it keep their
   * relative order.
   */
  lemma {:induction false} SortStable<T, K(!new)>(s: seq<(T, K)>, before: (K, K) -> bool, k: K)
    requires StrictOrder(before)
    ensures WithKey(SortByKey(s, before), k) == WithKey(s, k)
  {
    if s != [] {
      var init := s[..|s| - 1];
      SortStable(init, before, k);
      SortSorted(init, before);
      InsertWithKey(s[|s| - 1], SortByKey(init, before), before, k);
      WithKeyAppend(init, [s[|s| - 1]], k);
      assert s == init + [s[|s| - 1]];
    }
  }

  /** Any two keys of `s` that differ are ordered one way or the other. */
  ghost predicate TotalOn<T, K>(s: seq<(T, K)>, before: (K, K) -> bool) {
    forall i, j :: 0 <= i < |s| && 0 <= j < |s| && s[i].1 != s[j].1 ==> before(s[i].1, s[j].1) || before(s[j].1, s[i].1)
  }

  /** A list already sorted comes out of the sort unchanged. */
  lemma {:induction false} SortedUnchanged<T, K>(s: seq<(T, K)>, before: (K, K) -> bool)
    requires SortedByKey(s, before)
    ensures SortByKey(s, before) == s
  {
    if s != [] {
      var init, x := s[..|s| - 1], s[|s| - 1];
      assert SortedByKey(init, before);
      SortedUnchanged(init, before);
      InsertLast(x, init, before);
      assert s == init + [x];
    }
  }

  /** An element whose key precedes no key of `s` is inserted at the end. */
  lemma {:induction false} InsertLast<T, K>(x: (T, K), s: seq<(T, K)>, before: (K, K) -> bool)
    requires forall i :: 0 <= i < |s| ==> !before(x.1, s[i].1)
    ensures InsertByKey(x, s, before) == s + [x]
  {
    if s != [] {
      InsertLast(x, s[1..], before);
      assert s == [s[0]] + s[1..];
    }
  }

  /** A list whose `true` keys all come first is its `true`-keyed elements followed by the others. */
  lemma {:induction false} TrueKeysFirst<T>(s: seq<(T, bool)>)
    requires forall i, j :: 0 <= i < j < |s| ==> s[i].1 || !s[j].1
    ensures s == WithKey(s, true) + WithKey(s, false)
  {
    if s != [] {
      var init, x := s[..|s| - 1], s[|s| - 1];
      assert s == init + [x];
      TrueKeysFirst(init);
      if x.1 {
        assert forall i :: 0 <= i < |init| ==> init[i].1 by {
          forall i | 0 <= i < |init| ensures init[i].1 {
            assert s[i] == init[i];
          }
        }
        AllTrueKeys(init);
        assert WithKey(s, true) == init + [x];
        assert WithKey(s, false) == [] + [];
      } else {
        assert WithKey(s, true) == WithKey(init, true) + [];
        assert WithKey(s, false) == WithKey(init, false) + [x];
      }
    }
  }

  lemma {:induction false} AllTrueKeys<T>(s: seq<(T, bool)>)
    requires forall i :: 0 <= i < |s| ==> s[i].1
    ensures WithKey(s, true) == s && WithKey(s, false) == []
  {
    if s != [] {
      AllTrueKeys(s[..|s| - 1]);
      assert s == s[..|s| - 1] + [s[|s| - 1]];
    }
  }

  /** The elements of `s` whose first component passes `keep`, in their order in `s`. */
  function Keep<T, K>(s: seq<(T, K)>, keep: T -> bool): seq<(T, K)> {
    if s == [] then [] else Keep(s[..|s| - 1], keep) + (if keep(s[|s| - 1].0) then [s[|s| - 1]] else [])
  }

  lemma {:induction false} KeepAppend<T, K>(s: seq<(T, K)>, t: seq<(T, K)>, keep: T -> bool)
    ensures Keep(s + t, keep) == Keep(s, keep) + Keep(t, keep)
    decreases |t|
  {
    if t == [] {
      assert s + t == s;
    } else {
      var t' := t[..|t| - 1];
      assert (s + t)[..|s + t| - 1] == s + t';
      KeepAppend(s, t', keep);
    }
  }

  lemma KeepSingle<T, K>(x: (T, K), keep: T -> bool)
    ensures Keep([x], keep) == if keep(x.0) then [x] else []
  {
    assert [x][..0] == [];
  }

  /** What `Keep` keeps is an element of the list. */
  lemma {:induction false} KeepMembers<T, K>(s: seq<(T, K)>, keep: T -> bool, x: (T, K))
    requires x in Keep(s, keep)
    ensures x in s && keep(x.0)
  {
    var init := s[..|s| - 1];
    if x in Keep(init, keep) {
      KeepMembers(init, keep, x);
      assert init <= s;
    }
  }

  /**
   * Keeping some elements of a sorted list and then inserting `x` gives what
   * inserting first and keeping afterwards gives, when the key of `x` is
   * ordered against every other key of the list.
   */
  lemma {:induction false} KeepInsert<T, K(!new)>(x: (T, K), s: seq<(T, K)>, before: (K, K) -> bool, keep: T -> bool)
    requires StrictOrder(before) && SortedByKey(s, before)
    requires forall i :: 0 <= i < |s| && s[i].1 != x.1 ==> before(x.1, s[i].1) || before(s[i].1, x.1)
    ensures Keep(InsertByKey(x, s, before), keep)
         == if keep(x.0) then InsertByKey(x, Keep(s, keep), before) else Keep(s, keep)
  {
    if s == [] {
      KeepSingle(x, keep);
    } else if before(x.1, s[0].1) {
      KeepSingle(x, keep);
      KeepAppend([x], s, keep);
      if keep(x.0) && Keep(s, keep) != [] {
        KeepHeadAfter(x, s, before, keep);
      }
    } else {
      var t := s[1..];
      assert SortedByKey(t, before);
      assert forall i :: 0 <= i < |t| ==> t[i] == s[i + 1];
      KeepInsert(x, t, before, keep);
      KeepInsertSkip(x, s, before, keep);
    }
  }

  /** Inserting past the head of a list: the head stays in front, kept or not. */
  lemma KeepInsertSkip<T, K>(x: (T, K), s: seq<(T, K)>, before: (K, K) -> bool, keep: T -> bool)
    requires s != [] && !before(x.1, s[0].1)
    requires Keep(InsertByKey(x, s[1..], before), keep)
          == if keep(x.0) then InsertByKey(x, Keep(s[1..], keep), before) else Keep(s[1..], keep)
    ensures Keep(InsertByKey(x, s, before), keep)
         == if keep(x.0) then InsertByKey(x, Keep(s, keep), before) else Keep(s, keep)
  {
    var t := s[1..];
    var head := Keep([s[0]], keep);
    assert s == [s[0]] + t;
    assert InsertByKey(x, s, before) == [s[0]] + InsertByKey(x, t, before);
    KeepAppend([s[0]], InsertByKey(x, t, before), keep);
    KeepAppend([s[0]], t, keep);
    KeepSingle(s[0], keep);
    assert Keep(InsertByKey(x, s, before), keep) == head + Keep(InsertByKey(x, t, before), keep);
    assert Keep(s, keep) == head + Keep(t, keep);
    if keep(x.0) && keep(s[0].0) {
      var u := [s[0]] + Keep(t, keep);
      assert u[0] == s[0] && u[1..] == Keep(t, keep);
      assert InsertByKey(x, u, before) == [s[0]] + InsertByKey(x, Keep(t, keep), before);
    } else if keep(x.0) {
      assert head == [] && Keep(s, keep) == Keep(t, keep);
    }
  }

  /** In a sorted list headed by a key after that of `x`, the first kept element has a key after it too. */
  lemma KeepHeadAfter<T, K(!new)>(x: (T, K), s: seq<(T, K)>, before: (K, K) -> bool, keep: T -> bool)
    requires StrictOrder(before) && SortedByKey(s, before)
    requires forall i :: 0 <= i < |s| && s[i].1 != x.1 ==> before(x.1, s[i].1) || before(s[i].1, x.1)
    requires s != [] && before(x.1, s[0].1) && Keep(s, keep) != []
    ensures before(x.1, Keep(s, keep)[0].1)
  {
    var y := Keep(s, keep)[0];
    KeepMembers(s, keep, y);
    var m :| 0 <= m < |s| && s[m] == y;
    if m > 0 {
      assert !before(s[m].1, s[0].1);
    }
  }

  /** The last key of a list whose keys are all ordered is ordered against every key of the sorted rest. */
  lemma LastOrdered<T, K>(s: seq<(T, K)>, before: (K, K) -> bool)
    requires s != [] && TotalOn(s, before)
    ensures var t, x := SortByKey(s[..|s| - 1], before), s[|s| - 1];
      forall i :: 0 <= i < |t| && t[i].1 != x.1 ==> before(x.1, t[i].1) || before(t[i].1, x.1)
  {
    var init, x := s[..|s| - 1], s[|s| - 1];
    var t := SortByKey(init, before);
    forall i | 0 <= i < |t| && t[i].1 != x.1 ensures before(x.1, t[i].1) || before(t[i].1, x.1) {
      var k := SortedFrom(init, before, i);
      assert s[k] == t[i];
    }
  }

  /**
   * Keeping the elements that pass `keep` commutes with the sort, as long as
   * any two different keys of the list are ordered.
   */
  lemma {:induction false} KeepSort<T, K(!new)>(s: seq<(T, K)>, before: (K, K) -> bool, keep: T -> bool)
    requires StrictOrder(before) && TotalOn(s, before)
    ensures Keep(SortByKey(s, before), keep) == SortByKey(Keep(s, keep), before)
  {
    if s != [] {
      var init, x := s[..|s| - 1], s[|s| - 1];
      assert TotalOn(init, before);
      KeepSort(init, before, keep);
      var t := SortByKey(init, before);
      SortSorted(init, before);
      LastOrdered(s, before);
      KeepInsert(x, t, before, keep);
      SortKeepLast(s, before, keep);
    }
  }

  /** Sorting what is kept of a list inserts its last element, if kept, into the sorted rest. */
  lemma SortKeepLast<T, K>(s: seq<(T, K)>, before: (K, K) -> bool, keep: T -> bool)
    requires s != []
    ensures var init, x := s[..|s| - 1], s[|s| - 1];
      SortByKey(Keep(s, keep), before)
      == if keep(x.0) then InsertByKey(x, SortByKey(Keep(init, keep), before), before)
         else SortByKey(Keep(init, keep), before)
  {
    var init, x := s[..|s| - 1], s[|s| - 1];
    var rest := Keep(init, keep);
    if keep(x.0) {
      var kept := rest + [x];
      assert Keep(s, keep) == kept;
      assert kept[..|kept| - 1] == rest && kept[|kept| - 1] == x;
      assert SortByKey(kept, before) == InsertByKey(x, SortByKey(rest, before), before);
    } else {
      assert rest + [] == rest;
      assert Keep(s, keep) == rest;
    }
  }
}

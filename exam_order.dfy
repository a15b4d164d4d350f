/**
 * The orderings `Planner` works with (src/scheduler/planner.py:22-66): the
 * duty quotas, the two sorts of the exam list, the grouping of exams into
 * blocks, and the ordering of blocks by demand.
 */
module ExamOrdering {
  import opened Outcomes
  import opened Text
  import opened Sorting
  import opened ExamProctor

  /**
   * `set_min_max_duties`: the minimum is the floor of the total need over the
   * number of proctors and the maximum one more; no proctors divides by zero.
   */
  function Quotas(total: int, count: nat): (r: Result<(int, int), PyError>)
    ensures r.Err? <==> count == 0
    ensures r.Err? ==> r.error == ZeroDivisionError
    ensures r.Ok? ==> r.value.0 * count <= total < (r.value.0 + 1) * count
    ensures r.Ok? ==> r.value.1 == r.value.0 + 1
  {
    if count == 0 then Err(ZeroDivisionError)
    else
      var q := total / count;
      assert total == q * count + total % count;
      Ok((q, q + 1))
  }

  /** The sum of the needs of `es`. */
  function TotalNeeded(es: seq<Exam>): int
    reads es`numberOfProctorsNeeded
  {
    if es == [] then 0 else TotalNeeded(es[..|es| - 1]) + es[|es| - 1].numberOfProctorsNeeded
  }

  // ---------------------------------------------------------------------
  // First sort: by the name of the required proctor, descending.

  /** The first sort key: the required proctor's name, or `False`. */
  datatype NameKey = NoName | Name(name: string)

  /**
   * `exam.requires_specific_proctor.name if exam.requires_specific_proctor
   * else False`: a proctor object gives its name, nothing or an empty text is
   * falsy, and a non-empty text has no `.name`.
   */
  function SpecificKey(e: Exam): Result<NameKey, PyError>
    reads e`requiresSpecificProctor
  {
    match e.requiresSpecificProctor
    case None => Ok(NoName)
    case Some(ByProctor(p)) => Ok(Name(p.name))
    case Some(ByText(t)) => if t == "" then Ok(NoName) else Err(AttributeError)
  }

  predicate SomeKeyFails(es: seq<Exam>)
    reads es`requiresSpecificProctor
  {
    exists e | e in es :: SpecificKey(e).Err?
  }

  /** Both `False` and a name occur among the keys, so the sort compares a str with a bool. */
  predicate MixedKeys(es: seq<Exam>)
    reads es`requiresSpecificProctor
  {
    && (exists e | e in es :: SpecificKey(e) == Ok(NoName))
    && (exists e | e in es :: SpecificKey(e).Ok? && SpecificKey(e).value.Name?)
  }

  /** Every exam paired with its first sort key. */
  function NameKeys(es: seq<Exam>): seq<(Exam, NameKey)>
    requires !SomeKeyFails(es)
    reads es`requiresSpecificProctor
  {
    if es == [] then [] else NameKeys(es[..|es| - 1]) + [(es[|es| - 1], SpecificKey(es[|es| - 1]).value)]
  }

  lemma {:induction false} NameKeysAt(es: seq<Exam>)
    requires !SomeKeyFails(es)
    ensures |NameKeys(es)| == |es|
    ensures forall i :: 0 <= i < |es| ==> NameKeys(es)[i] == (es[i], SpecificKey(es[i]).value)
  {
    if es != [] {
      NameKeysAt(es[..|es| - 1]);
    }
  }

  /** `reverse=True` over names; `False` keys never compare with names here. */
  predicate NameBefore(a: NameKey, b: NameKey) {
    a.Name? && b.Name? && StrLess(b.name, a.name)
  }

  /** The first `self.exams.sort`, with the exception it raises. */
  function SortBySpecific(es: seq<Exam>): Result<seq<Exam>, PyError>
    reads es`requiresSpecificProctor
  {
    if SomeKeyFails(es) then Err(AttributeError)
    else if MixedKeys(es) then Err(TypeError)
    else Ok(Firsts(SortByKey(NameKeys(es), NameBefore)))
  }

  // ---------------------------------------------------------------------
  // Second sort: PhD exams first.

  predicate AllHaveCodes(es: seq<Exam>) {
    forall e | e in es :: HasCourseCode(e.title)
  }

  function IsPhd(e: Exam): bool
    requires HasCourseCode(e.title)
  {
    RequiresPhdProctor(e.title).value
  }

  /** Every exam paired with its second sort key. */
  function PhdKeys(es: seq<Exam>): seq<(Exam, bool)>
    requires AllHaveCodes(es)
  {
    if es == [] then [] else PhdKeys(es[..|es| - 1]) + [(es[|es| - 1], IsPhd(es[|es| - 1]))]
  }

  lemma {:induction false} PhdKeysAt(es: seq<Exam>)
    requires AllHaveCodes(es)
    ensures |PhdKeys(es)| == |es|
    ensures forall i :: 0 <= i < |es| ==> PhdKeys(es)[i] == (es[i], IsPhd(es[i]))
  {
    if es != [] {
      var init, last := es[..|es| - 1], es[|es| - 1];
      PhdKeysAt(init);
      assert PhdKeys(es) == PhdKeys(init) + [(last, IsPhd(last))];
      forall i | 0 <= i < |es| ensures PhdKeys(es)[i] == (es[i], IsPhd(es[i])) {
        if i < |init| {
          assert es[i] == init[i];
        }
      }
    }
  }

  /** `reverse=True` over booleans: `True` before `False`. */
  predicate PhdBefore(a: bool, b: bool) {
    a && !b
  }

  /** The second `self.exams.sort`; a title without a course code raises before any comparison. */
  function SortByPhd(es: seq<Exam>): Result<seq<Exam>, PyError> {
    if !AllHaveCodes(es) then Err(ValueError)
    else Ok(Firsts(SortByKey(PhdKeys(es), PhdBefore)))
  }

  /** Both sorts of `set_blocks`, in order. */
  function ExamOrder(es: seq<Exam>): Result<seq<Exam>, PyError>
    reads es`requiresSpecificProctor
  {
    match SortBySpecific(es)
    case Err(e) => Err(e)
    case Ok(s) => SortByPhd(s)
  }

  /** The exams of `es` with the given PhD requirement, in their order in `es`. */
  function WithPhd(es: seq<Exam>, phd: bool): seq<Exam>
    requires AllHaveCodes(es)
  {
    if es == [] then [] else WithPhd(es[..|es| - 1], phd) + (if IsPhd(es[|es| - 1]) == phd then [es[|es| - 1]] else [])
  }

  lemma NameBeforeStrict()
    ensures StrictOrder(NameBefore)
  {
    forall a | true ensures !NameBefore(a, a) {
      if a.Name? {
        StrLessIrreflexive(a.name);
      }
    }
    forall a, b, c | NameBefore(a, b) && NameBefore(b, c) ensures NameBefore(a, c) {
      StrLessTransitive(c.name, b.name, a.name);
    }
  }

  /**
   * The first sort raises AttributeError when some exam stores a non-empty
   * text, and otherwise TypeError when some exams require a proctor and others
   * do not. When it succeeds it only reorders; with no proctor required
   * anywhere it keeps the order, and with a proctor required everywhere the
   * names do not increase along the result.
   */
  lemma SpecificOrder(es: seq<Exam>)
    ensures SortBySpecific(es).Err? <==> SomeKeyFails(es) || MixedKeys(es)
    ensures SortBySpecific(es).Err? ==> SortBySpecific(es).error == if SomeKeyFails(es) then AttributeError else TypeError
    ensures SortBySpecific(es).Ok? ==> multiset(SortBySpecific(es).value) == multiset(es)
    ensures SortBySpecific(es).Ok? && (forall i :: 0 <= i < |es| ==> SpecificKey(es[i]) == Ok(NoName)) ==>
      SortBySpecific(es).value == es
    ensures SortBySpecific(es).Ok? ==> NamesDescending(SortBySpecific(es).value)
  {
    if SortBySpecific(es).Ok? {
      var ks := NameKeys(es);
      NameKeysAt(es);
      var s := SortBySpecific(es).value;
      assert s == Firsts(SortByKey(ks, NameBefore));
      assert Firsts(ks) == es by {
        FirstsAt(ks);
      }
      assert multiset(s) == multiset(es) by {
        SortFirsts(ks, NameBefore);
      }
      assert (forall i :: 0 <= i < |es| ==> SpecificKey(es[i]) == Ok(NoName)) ==> s == es by {
        if forall i :: 0 <= i < |es| ==> SpecificKey(es[i]) == Ok(NoName) {
          NoNamesKeepOrder(ks);
        }
      }
      NamesNonIncreasing(es);
    }
  }

  lemma NamesNonIncreasing(es: seq<Exam>)
    requires !SomeKeyFails(es) && !MixedKeys(es)
    ensures NamesDescending(Firsts(SortByKey(NameKeys(es), NameBefore)))
  {
    var ks := NameKeys(es);
    NameKeysAt(es);
    var sorted := SortByKey(ks, NameBefore);
    NameBeforeStrict();
    SortSorted(ks, NameBefore);
    var s := Firsts(sorted);
    FirstsAt(sorted);
    forall i, j | 0 <= i < j < |s|
      ensures !StrLess(RequiredName(s[i]), RequiredName(s[j]))
    {
      var ki := SortedFrom(ks, NameBefore, i);
      var kj := SortedFrom(ks, NameBefore, j);
      assert SpecificKey(es[ki]) == Ok(sorted[i].1) && SpecificKey(es[kj]) == Ok(sorted[j].1);
      assert !NameBefore(sorted[j].1, sorted[i].1);
      StrLessIrreflexive("");
    }
  }

  /** The name the first sort orders by: the required proctor's, or none. */
  function RequiredName(e: Exam): string
    reads e`requiresSpecificProctor
  {
    match e.requiresSpecificProctor
    case Some(ByProctor(p)) => p.name
    case _ => ""
  }

  /** No exam is followed by one whose required proctor's name sorts after its own. */
  predicate NamesDescending(s: seq<Exam>)
    reads s`requiresSpecificProctor
  {
    forall i, j :: 0 <= i < j < |s| ==> !StrLess(RequiredName(s[i]), RequiredName(s[j]))
  }

  lemma {:induction false} NoNamesKeepOrder(ks: seq<(Exam, NameKey)>)
    requires forall k :: 0 <= k < |ks| ==> ks[k].1 == NoName
    ensures SortByKey(ks, NameBefore) == ks
  {
    if ks != [] {
      var init := ks[..|ks| - 1];
      NoNamesKeepOrder(init);
      InsertNoName(ks[|ks| - 1], init);
      assert ks == init + [ks[|ks| - 1]];
    }
  }

  lemma {:induction false} InsertNoName(x: (Exam, NameKey), s: seq<(Exam, NameKey)>)
    requires x.1 == NoName
    ensures InsertByKey(x, s, NameBefore) == s + [x]
  {
    if s != [] {
      InsertNoName(x, s[1..]);
      assert s == [s[0]] + s[1..];
    }
  }

  /** Every exam is keyed by its own PhD requirement. */
  predicate PhdKeyed(ks: seq<(Exam, bool)>) {
    forall k :: 0 <= k < |ks| ==> HasCourseCode(ks[k].0.title) && ks[k].1 == IsPhd(ks[k].0)
  }

  /** Every PhD exam comes before every other exam. */
  predicate PhdFirst(s: seq<Exam>)
    requires AllHaveCodes(s)
  {
    forall i, j :: 0 <= i < j < |s| ==> IsPhd(s[i]) || !IsPhd(s[j])
  }

  lemma SortKeepsPhdKeys(ks: seq<(Exam, bool)>)
    requires PhdKeyed(ks)
    ensures PhdKeyed(SortByKey(ks, PhdBefore))
  {
    var t := SortByKey(ks, PhdBefore);
    forall i | 0 <= i < |t| ensures HasCourseCode(t[i].0.title) && t[i].1 == IsPhd(t[i].0) {
      var k := SortedFrom(ks, PhdBefore, i);
    }
  }

  lemma {:induction false} WithPhdFirsts(t: seq<(Exam, bool)>, phd: bool)
    requires PhdKeyed(t)
    ensures AllHaveCodes(Firsts(t))
    ensures WithPhd(Firsts(t), phd) == Firsts(WithKey(t, phd))
  {
    if t != [] {
      var init := t[..|t| - 1];
      WithPhdFirsts(init, phd);
      assert Firsts(t) == Firsts(init) + [t[|t| - 1].0];
      assert Firsts(t)[..|t| - 1] == Firsts(init);
      FirstsAppend(WithKey(init, phd), if t[|t| - 1].1 == phd then [t[|t| - 1]] else []);
    }
  }

  /**
   * The second sort raises ValueError exactly when some title has no course
   * code. Otherwise it only reorders, puts every PhD exam before every other
   * exam, and keeps the relative order within each of the two groups.
   */
  lemma PhdOrder(es: seq<Exam>)
    ensures SortByPhd(es).Err? <==> !AllHaveCodes(es)
    ensures SortByPhd(es).Err? ==> SortByPhd(es).error == ValueError
    ensures SortByPhd(es).Ok? ==> multiset(SortByPhd(es).value) == multiset(es)
    ensures SortByPhd(es).Ok? ==> AllHaveCodes(SortByPhd(es).value) && PhdFirst(SortByPhd(es).value)
    ensures SortByPhd(es).Ok? ==> forall phd :: WithPhd(SortByPhd(es).value, phd) == WithPhd(es, phd)
  {
    if AllHaveCodes(es) {
      var ks := PhdKeys(es);
      PhdKeysAt(es);
      var t := SortByKey(ks, PhdBefore);
      var s := Firsts(t);
      assert SortByPhd(es).value == s;
      assert multiset(s) == multiset(es) by {
        assert Firsts(ks) == es by {
          FirstsAt(ks);
        }
        SortFirsts(ks, PhdBefore);
      }
      assert AllHaveCodes(s) && PhdFirst(s) by {
        FirstsAt(t);
        SortKeepsPhdKeys(ks);
        WithPhdFirsts(t, true);
        SortSorted(ks, PhdBefore);
      }
      forall phd ensures WithPhd(s, phd) == WithPhd(es, phd) {
        SortKeepsPhdKeys(ks);
        WithPhdFirsts(t, phd);
        WithPhdFirsts(ks, phd);
        SortStable(ks, PhdBefore, phd);
        assert Firsts(ks) == es by {
          FirstsAt(ks);
        }
      }
    }
  }

  /**
   * `set_blocks` raises AttributeError when some exam stores a non-empty text
   * as its required proctor, otherwise TypeError when some exams require a
   * proctor and others do not, otherwise ValueError when some title has no
   * course code. When it does not raise, the new exam list is a permutation of
   * the old one with every PhD exam first, and within each group the exams
   * keep the order of the first sort.
   */
  lemma ExamOrderSpec(es: seq<Exam>)
    ensures ExamOrder(es).Err? <==> SomeKeyFails(es) || MixedKeys(es) || !AllHaveCodes(es)
    ensures ExamOrder(es).Err? ==>
      ExamOrder(es).error == (if SomeKeyFails(es) then AttributeError else if MixedKeys(es) then TypeError else ValueError)
    ensures ExamOrder(es).Ok? ==> multiset(ExamOrder(es).value) == multiset(es)
    ensures ExamOrder(es).Ok? ==> AllHaveCodes(ExamOrder(es).value) && PhdFirst(ExamOrder(es).value)
    ensures ExamOrder(es).Ok? ==>
      forall phd :: WithPhd(ExamOrder(es).value, phd) == WithPhd(SortBySpecific(es).value, phd)
  {
    SpecificOrder(es);
    if SortBySpecific(es).Ok? {
      var first := SortBySpecific(es).value;
      assert ExamOrder(es) == SortByPhd(first);
      SameMembers(first, es);
      assert AllHaveCodes(first) <==> AllHaveCodes(es);
      PhdOrder(first);
    }
  }

  lemma SameMembers<T>(a: seq<T>, b: seq<T>)
    requires multiset(a) == multiset(b)
    ensures forall x :: x in a <==> x in b
  {
    forall x ensures x in a <==> x in b {
      assert x in a <==> x in multiset(a);
      assert x in b <==> x in multiset(b);
    }
  }

  /** Whether `set_blocks` raises, and what, depends only on which exams are listed. */
  lemma ExamOrderErrorsIgnoreOrder(es: seq<Exam>, es': seq<Exam>)
    requires multiset(es) == multiset(es')
    ensures ExamOrder(es).Err? <==> ExamOrder(es').Err?
    ensures ExamOrder(es).Err? ==> ExamOrder(es').error == ExamOrder(es).error
  {
    ExamOrderSpec(es);
    ExamOrderSpec(es');
    SameMembers(es, es');
  }

  // ---------------------------------------------------------------------
  // Sorting an already sorted list again.

  /** Whether an exam's PhD requirement is `phd`, as a test `Keep` can apply to any exam. */
  function PhdIs(phd: bool): Exam -> bool {
    (e: Exam) => RequiresPhdProctor(e.title) == Ok(phd)
  }

  lemma {:induction false} WithPhdMembers(es: seq<Exam>, phd: bool, e: Exam)
    requires AllHaveCodes(es) && e in WithPhd(es, phd)
    ensures e in es && IsPhd(e) == phd
  {
    var init := es[..|es| - 1];
    if e in WithPhd(init, phd) {
      WithPhdMembers(init, phd, e);
      assert init <= es;
    }
  }

  /** Keeping the keyed exams with a given PhD requirement keys the exams `WithPhd` keeps. */
  lemma {:induction false} KeepNameKeys(es: seq<Exam>, phd: bool)
    requires AllHaveCodes(es) && !SomeKeyFails(es) && !SomeKeyFails(WithPhd(es, phd))
    ensures Keep(NameKeys(es), PhdIs(phd)) == NameKeys(WithPhd(es, phd))
  {
    if es != [] {
      var init, e := es[..|es| - 1], es[|es| - 1];
      assert !SomeKeyFails(WithPhd(init, phd)) by {
        forall x | x in WithPhd(init, phd) ensures SpecificKey(x).Ok? {
          WithPhdMembers(init, phd, x);
          assert x in es;
        }
      }
      KeepNameKeys(init, phd);
      var ks, key := NameKeys(es), (e, SpecificKey(e).value);
      assert ks == NameKeys(init) + [key];
      assert ks[..|ks| - 1] == NameKeys(init) && ks[|ks| - 1] == key;
      assert PhdIs(phd)(e) == (IsPhd(e) == phd);
      if IsPhd(e) == phd {
        var w := WithPhd(init, phd) + [e];
        assert WithPhd(es, phd) == w;
        assert w[..|w| - 1] == WithPhd(init, phd) && w[|w| - 1] == e;
        assert NameKeys(w) == NameKeys(WithPhd(init, phd)) + [key];
        assert Keep(ks, PhdIs(phd)) == Keep(NameKeys(init), PhdIs(phd)) + [key];
      } else {
        assert WithPhd(es, phd) == WithPhd(init, phd) + [] == WithPhd(init, phd);
        assert Keep(ks, PhdIs(phd)) == Keep(NameKeys(init), PhdIs(phd)) + [] == Keep(NameKeys(init), PhdIs(phd));
      }
    }
  }

  /** Dropping the keys of the kept pairs gives the exams `WithPhd` keeps. */
  lemma {:induction false} FirstsKeep<K>(ks: seq<(Exam, K)>, phd: bool)
    requires AllHaveCodes(Firsts(ks))
    ensures Firsts(Keep(ks, PhdIs(phd))) == WithPhd(Firsts(ks), phd)
  {
    if ks != [] {
      var init := ks[..|ks| - 1];
      assert Firsts(ks) == Firsts(init) + [ks[|ks| - 1].0];
      assert Firsts(ks)[..|ks| - 1] == Firsts(init);
      FirstsKeep(init, phd);
      FirstsAppend(Keep(init, PhdIs(phd)), if PhdIs(phd)(ks[|ks| - 1].0) then [ks[|ks| - 1]] else []);
    }
  }

  /** What is kept of a sorted list is sorted. */
  lemma {:induction false} KeepSorted<T, K>(s: seq<(T, K)>, before: (K, K) -> bool, keep: T -> bool)
    requires SortedByKey(s, before)
    ensures SortedByKey(Keep(s, keep), before)
  {
    if s != [] {
      var init, x := s[..|s| - 1], s[|s| - 1];
      assert SortedByKey(init, before);
      KeepSorted(init, before, keep);
      var r := Keep(init, keep);
      if keep(x.0) {
        var t := r + [x];
        forall i, j | 0 <= i < j < |t| ensures !before(t[j].1, t[i].1) {
          if j == |r| {
            KeepMembers(init, keep, t[i]);
            var m :| 0 <= m < |init| && init[m] == t[i];
            assert s[m] == t[i];
          }
        }
      }
    }
  }

  /** The sorted keyed list is the keyed list of the sorted exams. */
  lemma SortedNameKeys(es: seq<Exam>)
    requires !SomeKeyFails(es)
    ensures !SomeKeyFails(Firsts(SortByKey(NameKeys(es), NameBefore)))
    ensures SortByKey(NameKeys(es), NameBefore) == NameKeys(Firsts(SortByKey(NameKeys(es), NameBefore)))
  {
    var ks := NameKeys(es);
    NameKeysAt(es);
    var t := SortByKey(ks, NameBefore);
    var f := Firsts(t);
    FirstsAt(t);
    forall i | 0 <= i < |t| ensures t[i].0 == f[i] && SpecificKey(f[i]) == Ok(t[i].1) {
      var k := SortedFrom(ks, NameBefore, i);
    }
    assert !SomeKeyFails(f) by {
      forall x | x in f ensures SpecificKey(x).Ok? {
        var i :| 0 <= i < |f| && f[i] == x;
      }
    }
    NameKeysAt(f);
  }

  /** Without a failing key and without both kinds of key, any two different keys are ordered. */
  lemma NameKeysTotal(es: seq<Exam>)
    requires !SomeKeyFails(es) && !MixedKeys(es)
    ensures TotalOn(NameKeys(es), NameBefore)
  {
    var ks := NameKeys(es);
    NameKeysAt(es);
    forall i, j | 0 <= i < |ks| && 0 <= j < |ks| && ks[i].1 != ks[j].1
      ensures NameBefore(ks[i].1, ks[j].1) || NameBefore(ks[j].1, ks[i].1)
    {
      assert es[i] in es && es[j] in es;
      StrLessTotal(ks[i].1.name, ks[j].1.name);
    }
  }

  /** A list with every PhD exam first is its PhD exams followed by the others. */
  lemma PhdSplit(es: seq<Exam>)
    requires AllHaveCodes(es) && PhdFirst(es)
    ensures es == WithPhd(es, true) + WithPhd(es, false)
  {
    var ks := PhdKeys(es);
    PhdKeysKeyed(es);
    PhdKeysGrouped(es);
    WithPhdFirsts(ks, true);
    WithPhdFirsts(ks, false);
    FirstsAppend(WithKey(ks, true), WithKey(ks, false));
  }

  /** `PhdKeys(es)` pairs each exam of `es`, in order, with its PhD requirement. */
  lemma PhdKeysKeyed(es: seq<Exam>)
    requires AllHaveCodes(es)
    ensures PhdKeyed(PhdKeys(es)) && Firsts(PhdKeys(es)) == es
  {
    PhdKeysAt(es);
    FirstsAt(PhdKeys(es));
  }

  /** When every PhD exam comes first, so do the `True` keys of `PhdKeys(es)`. */
  lemma PhdKeysGrouped(es: seq<Exam>)
    requires AllHaveCodes(es) && PhdFirst(es)
    ensures PhdKeys(es) == WithKey(PhdKeys(es), true) + WithKey(PhdKeys(es), false)
  {
    var ks := PhdKeys(es);
    PhdKeysAt(es);
    assert forall i, j :: 0 <= i < j < |ks| ==> ks[i].1 || !ks[j].1;
    TrueKeysFirst(ks);
  }

  /**
   * Sorting the result of both sorts again by name leaves each PhD group as it
   * was: within a group the names already descend.
   */
  lemma ResortGroups(es: seq<Exam>, phd: bool)
    requires ExamOrder(es).Ok? && ExamOrder(ExamOrder(es).value).Ok?
    ensures var s := ExamOrder(es).value;
      SortBySpecific(s).Ok? && AllHaveCodes(s) && AllHaveCodes(SortBySpecific(s).value)
      && WithPhd(SortBySpecific(s).value, phd) == WithPhd(s, phd)
  {
    var s := ExamOrder(es).value;
    ExamOrderSpec(es);
    ExamOrderSpec(s);
    SpecificOrder(s);
    var ts := SortByKey(NameKeys(s), NameBefore);
    var x := Firsts(ts);
    SameMembers(x, s);
    assert AllHaveCodes(x);
    var t := SortByKey(NameKeys(es), NameBefore);
    var first := Firsts(t);
    assert first == SortBySpecific(es).value;
    SpecificOrder(es);
    SameMembers(first, es);
    SameMembers(s, es);
    assert AllHaveCodes(first);
    var p := PhdIs(phd);
    assert !SomeKeyFails(WithPhd(s, phd)) by {
      forall y | y in WithPhd(s, phd) ensures SpecificKey(y).Ok? {
        WithPhdMembers(s, phd, y);
      }
    }
    SortedNameKeys(es);
    NameBeforeStrict();
    NameKeysTotal(s);
    KeepSort(NameKeys(s), NameBefore, p);
    KeepNameKeys(s, phd);
    KeepNameKeys(first, phd);
    SortSorted(NameKeys(es), NameBefore);
    KeepSorted(t, NameBefore, p);
    SortedUnchanged(Keep(t, p), NameBefore);
    FirstsKeep(ts, phd);
    FirstsKeep(t, phd);
  }

  /**
   * `set_blocks` on a list it has already ordered changes nothing: the two
   * sorts give back their own result.
   */
  lemma ExamOrderIdempotent(es: seq<Exam>)
    requires ExamOrder(es).Ok?
    ensures ExamOrder(ExamOrder(es).value) == ExamOrder(es)
  {
    var s := ExamOrder(es).value;
    ExamOrderSpec(es);
    ExamOrderErrorsIgnoreOrder(es, s);
    ExamOrderSpec(s);
    var r := ExamOrder(s).value;
    ResortGroups(es, true);
    ResortGroups(es, false);
    PhdSplit(r);
    PhdSplit(s);
  }

  // ---------------------------------------------------------------------
  // Grouping into blocks.

  function Get(m: map<string, seq<Exam>>, b: string): seq<Exam> {
    if b in m then m[b] else []
  }

  /** The exams of `es` held in block `b`, in their order in `es`. */
  function InBlock(es: seq<Exam>, b: string): seq<Exam> {
    if es == [] then [] else InBlock(es[..|es| - 1], b) + (if es[|es| - 1].Block() == b then [es[|es| - 1]] else [])
  }

  /**
   * The loop of `set_blocks`, as a function: each exam in turn is appended to
   * the list of its block, which is created (and its key recorded) on first use.
   */
  function GroupInto(keys: seq<string>, m: map<string, seq<Exam>>, es: seq<Exam>): (seq<string>, map<string, seq<Exam>>) {
    if es == [] then (keys, m)
    else
      var g := GroupInto(keys, m, es[..|es| - 1]);
      var e := es[|es| - 1];
      if e.Block() in g.1 then (g.0, g.1[e.Block() := g.1[e.Block()] + [e]])
      else (g.0 + [e.Block()], g.1[e.Block() := [e]])
  }

  /**
   * Grouping keeps the block keys distinct and in insertion order, with new
   * blocks after the old ones, and keeps exactly the blocks of the map as keys.
   */
  lemma {:induction false} GroupKeys(keys: seq<string>, m: map<string, seq<Exam>>, es: seq<Exam>)
    requires Distinct(keys) && (forall k :: k in keys <==> k in m)
    ensures Distinct(GroupInto(keys, m, es).0)
    ensures keys <= GroupInto(keys, m, es).0
    ensures forall k :: k in GroupInto(keys, m, es).0 <==> k in GroupInto(keys, m, es).1
  {
    if es != [] {
      var e := es[|es| - 1];
      GroupKeys(keys, m, es[..|es| - 1]);
      var g := GroupInto(keys, m, es[..|es| - 1]);
      if e.Block() !in g.1 {
        assert keys <= g.0 + [e.Block()] by {
          assert (g.0 + [e.Block()])[..|keys|] == g.0[..|keys|];
        }
      }
    }
  }

  /**
   * Grouping extends what was there: the blocks are the old ones and those of
   * the given exams, and every block's list is its old list followed by the
   * exams of that block in the given order. Starting from nothing, each exam
   * therefore lands once in its own block; a second pass over the same exams
   * appends every exam again.
   */
  lemma {:induction false} GroupContents(keys: seq<string>, m: map<string, seq<Exam>>, es: seq<Exam>)
    ensures forall b :: b in GroupInto(keys, m, es).1 <==> b in m || b in BlocksOf(es)
    ensures forall b :: b in GroupInto(keys, m, es).1 ==> GroupInto(keys, m, es).1[b] == Get(m, b) + InBlock(es, b)
  {
    if es != [] {
      var init := es[..|es| - 1];
      var e := es[|es| - 1];
      GroupContents(keys, m, init);
      var g := GroupInto(keys, m, init);
      assert BlocksOf(es) == BlocksOf(init) + [e.Block()];
      var r := GroupInto(keys, m, es);
      forall b | b in r.1 ensures r.1[b] == Get(m, b) + InBlock(es, b) {
        assert InBlock(es, b) == InBlock(init, b) + (if e.Block() == b then [e] else []);
        if b !in g.1 {
          InBlockEmpty(init, b);
        }
      }
    }
  }

  lemma {:induction false} InBlockEmpty(es: seq<Exam>, b: string)
    requires b !in BlocksOf(es)
    ensures InBlock(es, b) == []
  {
    if es != [] {
      assert BlocksOf(es) == BlocksOf(es[..|es| - 1]) + [es[|es| - 1].Block()];
      InBlockEmpty(es[..|es| - 1], b);
    }
  }

  /** A block's exams come from the list and carry that block. */
  lemma {:induction false} InBlockMembers(es: seq<Exam>, b: string, e: Exam)
    requires e in InBlock(es, b)
    ensures e in es && e.Block() == b
  {
    var init := es[..|es| - 1];
    if e in InBlock(init, b) {
      InBlockMembers(init, b, e);
      assert init <= es;
    }
  }

  // ---------------------------------------------------------------------
  // Ordering blocks by demand.

  function Keyed(keys: seq<string>, demand: map<string, int>): (ks: seq<(string, int)>)
    requires forall k :: k in keys ==> k in demand
    ensures |ks| == |keys| && forall i :: 0 <= i < |keys| ==> ks[i] == (keys[i], demand[keys[i]])
  {
    if keys == [] then [] else Keyed(keys[..|keys| - 1], demand) + [(keys[|keys| - 1], demand[keys[|keys| - 1]])]
  }

  /** The order of a descending sort on demands: a larger demand goes first. */
  function MoreNeeded(a: int, b: int): bool {
    b < a
  }

  /** The order of an ascending sort on demands: a smaller demand goes first. */
  function LessNeeded(a: int, b: int): bool {
    a < b
  }

  /** `sort(key=demand, reverse=mostNeededToLeast)` over block keys. */
  function OrderKeys(keys: seq<string>, demand: map<string, int>, mostNeededToLeast: bool): (r: seq<string>)
    requires forall k :: k in keys ==> k in demand
    ensures forall k :: k in r ==> k in demand
  {
    var before := if mostNeededToLeast then MoreNeeded else LessNeeded;
    var t := SortByKey(Keyed(keys, demand), before);
    DemandKeyedSorted(keys, demand, before);
    FirstsAt(t);
    Firsts(t)
  }

  /**
   * Ordering the keys only reorders them, and puts them in order of demand:
   * non-increasing for a descending sort, non-decreasing otherwise.
   */
  lemma OrderKeysSorted(keys: seq<string>, demand: map<string, int>, mostNeededToLeast: bool)
    requires forall k :: k in keys ==> k in demand
    ensures var r := OrderKeys(keys, demand, mostNeededToLeast);
      && multiset(r) == multiset(keys)
      && forall i, j :: 0 <= i < j < |r| ==>
           if mostNeededToLeast then demand[r[i]] >= demand[r[j]] else demand[r[i]] <= demand[r[j]]
  {
    var before := if mostNeededToLeast then MoreNeeded else LessNeeded;
    var ks := Keyed(keys, demand);
    var t := SortByKey(ks, before);
    assert OrderKeys(keys, demand, mostNeededToLeast) == Firsts(t);
    assert Firsts(ks) == keys by {
      FirstsAt(ks);
    }
    SortFirsts(ks, before);
    SortSorted(ks, before);
    DemandKeyedSorted(keys, demand, before);
    FirstsAt(t);
  }

  /** The keys of `keys` with demand `d`, in their order in `keys`. */
  function WithDemand(keys: seq<string>, demand: map<string, int>, d: int): seq<string>
    requires forall k :: k in keys ==> k in demand
  {
    if keys == [] then []
    else WithDemand(keys[..|keys| - 1], demand, d) + (if demand[keys[|keys| - 1]] == d then [keys[|keys| - 1]] else [])
  }

  /** The sort is stable: blocks of equal demand keep the order in which they were first seen. */
  lemma OrderKeysStable(keys: seq<string>, demand: map<string, int>, mostNeededToLeast: bool, d: int)
    requires forall k :: k in keys ==> k in demand
    ensures WithDemand(OrderKeys(keys, demand, mostNeededToLeast), demand, d) == WithDemand(keys, demand, d)
  {
    var before := if mostNeededToLeast then MoreNeeded else LessNeeded;
    assert OrderKeys(keys, demand, mostNeededToLeast) == Firsts(SortByKey(Keyed(keys, demand), before));
    SortKeyedStable(keys, demand, before, d);
  }

  lemma SortKeyedStable(keys: seq<string>, demand: map<string, int>, before: (int, int) -> bool, d: int)
    requires forall k :: k in keys ==> k in demand
    requires StrictOrder(before)
    ensures forall k :: k in Firsts(SortByKey(Keyed(keys, demand), before)) ==> k in demand
    ensures WithDemand(Firsts(SortByKey(Keyed(keys, demand), before)), demand, d) == WithDemand(keys, demand, d)
  {
    var ks := Keyed(keys, demand);
    var t := SortByKey(ks, before);
    SortStable(ks, before, d);
    DemandKeyedSorted(keys, demand, before);
    assert Firsts(ks) == keys by {
      FirstsAt(ks);
    }
    WithDemandFirsts(ks, demand, d);
    WithDemandFirsts(t, demand, d);
  }

  lemma {:induction false} WithDemandFirsts(u: seq<(string, int)>, demand: map<string, int>, d: int)
    requires forall i :: 0 <= i < |u| ==> u[i].0 in demand && u[i].1 == demand[u[i].0]
    ensures forall k :: k in Firsts(u) ==> k in demand
    ensures WithDemand(Firsts(u), demand, d) == Firsts(WithKey(u, d))
  {
    FirstsAt(u);
    if u != [] {
      var init := u[..|u| - 1];
      WithDemandFirsts(init, demand, d);
      assert Firsts(u) == Firsts(init) + [u[|u| - 1].0];
      assert Firsts(u)[..|u| - 1] == Firsts(init);
      FirstsAppend(WithKey(init, d), if u[|u| - 1].1 == d then [u[|u| - 1]] else []);
    }
  }

  lemma DemandKeyedSorted(keys: seq<string>, demand: map<string, int>, before: (int, int) -> bool)
    requires forall k :: k in keys ==> k in demand
    ensures forall i :: 0 <= i < |SortByKey(Keyed(keys, demand), before)| ==>
      var t := SortByKey(Keyed(keys, demand), before); t[i].0 in keys && t[i].1 == demand[t[i].0]
  {
    var ks := Keyed(keys, demand);
    var t := SortByKey(ks, before);
    forall i | 0 <= i < |t| ensures t[i].0 in keys && t[i].1 == demand[t[i].0] {
      var k := SortedFrom(ks, before, i);
    }
  }
}

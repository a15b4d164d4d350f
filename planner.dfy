/**
 * The planner (src/scheduler/planner.py): it owns the exam list, the proctor
 * list, the duty quotas and the blocks, sorts and groups the exams, and makes
 * one randomized greedy pass appending to `exam.proctors` and
 * `proctor.duties`. Every method is proved against the value model in
 * `ExamOrdering` and `Assignment`.
 */
module Planning {
  import opened Outcomes
  import opened ExamProctor
  import opened ExamOrdering
  import opened Assignment

  /** How `schedule` ends: it runs to the end, returns early, or raises. */
  datatype Outcome = Completed | NotEnoughProctors | Raised(error: PyError)

  /**
   * The exit code the simulator records for a run: 0 when every exam was
   * staffed, 1 when the pass stopped at an exam it could not staff.
   */
  function ExitCode(o: Outcome): (code: int)
    requires !o.Raised?
    ensures code == 0 <==> o == Completed
  {
    if o == Completed then 0 else 1
  }

  /** The configuration the planner reads from an exam. */
  function JobOf(e: Exam): Job
    reads e`numberOfProctorsNeeded, e`requiresSpecificProctor
  {
    Job(e, e.numberOfProctorsNeeded, e.requiresSpecificProctor)
  }

  function JobsOf(es: seq<Exam>): (jobs: seq<Job>)
    reads es`numberOfProctorsNeeded, es`requiresSpecificProctor
    ensures |jobs| == |es|
  {
    if es == [] then [] else JobsOf(es[..|es| - 1]) + [JobOf(es[|es| - 1])]
  }

  /** The jobs of `es` under the configurations `cfgs`. */
  function JobsIn(cfgs: map<Exam, Job>, es: seq<Exam>): (jobs: seq<Job>)
    requires forall e :: e in es ==> e in cfgs
    ensures |jobs| == |es|
  {
    if es == [] then [] else JobsIn(cfgs, es[..|es| - 1]) + [cfgs[es[|es| - 1]]]
  }

  /** The total need of `es` under the configurations `cfgs`. */
  function NeedIn(cfgs: map<Exam, Job>, es: seq<Exam>): int
    requires forall e :: e in es ==> e in cfgs
  {
    if es == [] then 0 else NeedIn(cfgs, es[..|es| - 1]) + cfgs[es[|es| - 1]].need
  }

  /** The total need of every block under the configurations `cfgs`. */
  function BlockDemands(cfgs: map<Exam, Job>, m: map<string, seq<Exam>>): (d: map<string, int>)
    requires forall k, e :: k in m && e in m[k] ==> e in cfgs
    ensures d.Keys == m.Keys
  {
    map k | k in m :: NeedIn(cfgs, m[k])
  }

  /** `slot` occurs in `jobs` starting at index `n`. */
  predicate InSlot(jobs: seq<Job>, n: nat, slot: seq<Job>) {
    n + |slot| <= |jobs| && forall i :: 0 <= i < |slot| ==> jobs[n + i] == slot[i]
  }

  lemma InSlotAt(jobs: seq<Job>, n: nat, slot: seq<Job>, i: nat, at: nat)
    requires InSlot(jobs, n, slot) && i < |slot| && at == n + i
    ensures at < |jobs| && jobs[at] == slot[i]
  {
  }

  /**
   * Every exam's proctor list in `lists` is its list in `lists0` followed by
   * the proctors the first `|picks|` jobs drew for it.
   */
  ghost predicate ListsAt(lists: map<Exam, seq<Proctor>>, lists0: map<Exam, seq<Proctor>>, jobs: seq<Job>, picks: seq<seq<Proctor>>) {
    && |picks| <= |jobs|
    && forall e :: e in lists ==> e in lists0 && lists[e] == lists0[e] + ExamPicks(jobs, picks, e)
  }

  /**
   * Appending `drawn` to the list of the exam of job `|picks|`, and to no
   * other list, extends the lists by that job; appending nothing keeps them.
   */
  lemma ListsGrow(before: map<Exam, seq<Proctor>>, after: map<Exam, seq<Proctor>>, lists0: map<Exam, seq<Proctor>>,
                  jobs: seq<Job>, picks: seq<seq<Proctor>>, drawn: seq<Proctor>, exam: Exam)
    requires ListsAt(before, lists0, jobs, picks) && |picks| < |jobs| && jobs[|picks|].exam == exam
    requires exam in before && after == before[exam := before[exam] + drawn]
    ensures ListsAt(after, lists0, jobs, picks + [drawn])
    ensures drawn == [] ==> ListsAt(after, lists0, jobs, picks)
  {
    forall e | e in after ensures e in lists0 && after[e] == lists0[e] + ExamPicks(jobs, picks + [drawn], e) {
      ExamPicksStep(jobs, picks, drawn, e);
    }
    if drawn == [] {
      forall e | e in after ensures after[e] == lists0[e] + ExamPicks(jobs, picks, e) {
        assert after[e] == before[e] + [];
      }
    }
  }

  /** Before any job is staffed, every exam's list is its list before the pass. */
  lemma ListsStart(lists0: map<Exam, seq<Proctor>>, jobs: seq<Job>)
    ensures ListsAt(lists0, lists0, jobs, [])
  {
    forall e | e in lists0
      ensures lists0[e] == lists0[e] + ExamPicks(jobs, [], e)
    {
      assert lists0[e] + [] == lists0[e];
    }
  }

  /** The jobs of block `keys[k]` sit in the jobs of the whole worklist right after those of the blocks before it. */
  lemma JobsSlot(m: map<string, seq<Exam>>, keys: seq<string>, k: nat, jobs: seq<Job>, n: nat)
    requires forall key :: key in keys ==> key in m
    requires k < |keys| && jobs == JobsOf(Worklist(m, keys))
    requires n == |Worklist(m, keys[..k])|
    ensures keys[k] in m && |Worklist(m, keys[..k + 1])| == n + |m[keys[k]]| <= |jobs|
    ensures InSlot(jobs, n, JobsOf(m[keys[k]]))
  {
    WorklistSlot(m, keys, k);
    var list := m[keys[k]];
    forall i | 0 <= i < |list|
      ensures jobs[n + i] == JobsOf(list)[i]
    {
      var w := Worklist(m, keys[..k + 1]);
      assert Worklist(m, keys)[n + i] == w[n + i] == list[i];
      JobsOfAt(Worklist(m, keys), n + i);
      JobsOfAt(list, i);
    }
  }

  /** Appending nothing to one list leaves the lists as they were. */
  lemma UpdateSame(lists: map<Exam, seq<Proctor>>, exam: Exam)
    requires exam in lists
    ensures lists[exam := lists[exam] + []] == lists
  {
    assert lists[exam] + [] == lists[exam];
  }

  /** Job `i` of a list of exams is the job of its exam `i`. */
  lemma {:induction false} JobsOfAt(es: seq<Exam>, i: nat)
    requires i < |es|
    ensures JobsOf(es)[i] == JobOf(es[i])
    decreases |es|
  {
    if i < |es| - 1 {
      JobsOfAt(es[..|es| - 1], i);
    }
  }

  /** The exams of the listed blocks, block by block: the order `schedule` visits them in. */
  function Worklist(m: map<string, seq<Exam>>, keys: seq<string>): seq<Exam>
    requires forall k :: k in keys ==> k in m
  {
    if keys == [] then [] else Worklist(m, keys[..|keys| - 1]) + m[keys[|keys| - 1]]
  }

  lemma {:induction false} WorklistPrefix(m: map<string, seq<Exam>>, keys: seq<string>, n: nat)
    requires forall k :: k in keys ==> k in m
    requires n <= |keys|
    ensures Worklist(m, keys[..n]) <= Worklist(m, keys)
    decreases |keys|
  {
    if n < |keys| {
      WorklistPrefix(m, keys[..|keys| - 1], n);
      assert keys[..|keys| - 1][..n] == keys[..n];
    } else {
      assert keys[..n] == keys;
    }
  }

  lemma {:induction false} WorklistMembers(m: map<string, seq<Exam>>, keys: seq<string>, e: Exam)
    requires forall k :: k in keys ==> k in m
    requires e in Worklist(m, keys)
    ensures exists k :: k in keys && e in m[k]
  {
    var init := keys[..|keys| - 1];
    if e !in m[keys[|keys| - 1]] {
      WorklistMembers(m, init, e);
      var k :| k in init && e in m[k];
      assert k in keys;
    }
  }

  /** The worklist of the first `k + 1` blocks is that of the first `k` followed by block `k`, and starts the whole worklist. */
  lemma WorklistSlot(m: map<string, seq<Exam>>, keys: seq<string>, k: nat)
    requires forall k :: k in keys ==> k in m
    requires k < |keys|
    ensures Worklist(m, keys[..k + 1]) == Worklist(m, keys[..k]) + m[keys[k]]
    ensures Worklist(m, keys[..k + 1]) <= Worklist(m, keys)
  {
    assert keys[..k + 1][..k] == keys[..k];
    WorklistPrefix(m, keys, k + 1);
  }

  /** `random.choices(population, k=k)`: `k` draws with replacement, none when `k <= 0`. */
  method Choices(population: seq<Proctor>, k: int) returns (drawn: seq<Proctor>)
    requires k <= 0 || |population| > 0
    ensures LegalPicks(drawn, population, k)
  {
    drawn := [];
    while |drawn| < k
      invariant |drawn| <= Max0(k)
      invariant forall q :: q in drawn ==> q in population
      decreases k - |drawn|
    {
      assert population[0] in population;
      var q :| q in population;
      drawn := drawn + [q];
    }
  }

  /**
   * Grouping a list into well-formed blocks whose exams are already in the
   * list leaves the blocks well formed: keys distinct and matching the map,
   * and every listed exam in the list and in its own block.
   */
  lemma GroupValid(keys: seq<string>, m: map<string, seq<Exam>>, es: seq<Exam>)
    requires Distinct(keys) && (forall k :: k in keys <==> k in m)
    requires forall k, e :: k in m && e in m[k] ==> e in es && e.Block() == k
    ensures Distinct(GroupInto(keys, m, es).0)
    ensures forall k :: k in GroupInto(keys, m, es).0 <==> k in GroupInto(keys, m, es).1
    ensures forall k, e :: k in GroupInto(keys, m, es).1 && e in GroupInto(keys, m, es).1[k] ==>
      e in es && e.Block() == k
  {
    GroupKeys(keys, m, es);
    var g := GroupInto(keys, m, es);
    forall k, e | k in g.1 && e in g.1[k] ensures e in es && e.Block() == k {
      GroupedMember(keys, m, es, k, e);
    }
  }

  /**
   * The planner's invariant on values: proctors and block keys distinct, the
   * keys those of the map, every listed exam in the list and in its own block.
   */
  ghost predicate WellFormed(ps: seq<Proctor>, keys: seq<string>, m: map<string, seq<Exam>>, es: seq<Exam>)
  {
    && Distinct(ps)
    && Distinct(keys)
    && (forall k :: k in keys <==> k in m)
    && (forall k, e :: k in m && e in m[k] ==> e in es && e.Block() == k)
  }

  /** Reordering the exam list keeps the blocks well formed, before and after grouping it. */
  lemma RegroupValid(ps: seq<Proctor>, keys: seq<string>, m: map<string, seq<Exam>>, es0: seq<Exam>, es: seq<Exam>)
    requires WellFormed(ps, keys, m, es0) && multiset(es) == multiset(es0)
    ensures WellFormed(ps, keys, m, es)
    ensures WellFormed(ps, GroupInto(keys, m, es).0, GroupInto(keys, m, es).1, es)
  {
    ReorderKeepsBlocks(m, es0, es);
    GroupValid(keys, m, es);
  }

  /** An exam grouped under block `k` was already there or comes from the list in that block. */
  lemma GroupedMember(keys: seq<string>, m: map<string, seq<Exam>>, es: seq<Exam>, k: string, e: Exam)
    requires forall k, e :: k in m && e in m[k] ==> e in es && e.Block() == k
    requires k in GroupInto(keys, m, es).1 && e in GroupInto(keys, m, es).1[k]
    ensures e in es && e.Block() == k
  {
    GroupContents(keys, m, es);
    assert e in Get(m, k) + InBlock(es, k);
    if e !in Get(m, k) {
      InBlockMembers(es, k, e);
    }
  }

  /** Reordering the exam list keeps every grouped exam in it. */
  lemma ReorderKeepsBlocks(m: map<string, seq<Exam>>, es: seq<Exam>, es': seq<Exam>)
    requires multiset(es') == multiset(es)
    requires forall k, e :: k in m && e in m[k] ==> e in es && e.Block() == k
    ensures forall k, e :: k in m && e in m[k] ==> e in es' && e.Block() == k
  {
    SameMembers(es', es);
  }

  /** The mutable state of one proctor. */
  ghost function StateOf(p: Proctor): ProctorState
    reads p`unavailable, p`notPreferred, p`duties
  {
    ProctorState(p.unavailable, p.notPreferred, p.duties)
  }

  class Planner {
    var exams: seq<Exam>
    const proctors: seq<Proctor>
    var minDuties: int
    var maxDuties: int
    /** The keys of `blocks` in insertion order, as a Python dict keeps them. */
    var blockKeys: seq<string>
    var blocks: map<string, seq<Exam>>

    ghost predicate Valid()
      reads this
    {
      WellFormed(proctors, blockKeys, blocks, exams)
    }

    /** Stores both lists; quotas start at 0 and there are no blocks yet. */
    constructor(exams: seq<Exam>, proctors: seq<Proctor>)
      requires Distinct(proctors)
      ensures this.exams == exams && this.proctors == proctors
      ensures minDuties == 0 && maxDuties == 0 && blockKeys == [] && blocks == map[]
      ensures Valid()
    {
      this.exams := exams;
      this.proctors := proctors;
      minDuties := 0;
      maxDuties := 0;
      blockKeys := [];
      blocks := map[];
    }

    /** The mutable state of every proctor. */
    ghost function View(): Roster
      reads proctors`unavailable, proctors`notPreferred, proctors`duties
    {
      map p | p in proctors :: StateOf(p)
    }

    /** A step that changes no proctor leaves the proctors' states as they were. */
    twostate lemma ViewUnchanged()
      requires unchanged(proctors)
      ensures View() == old(View())
    {
    }

    /**
     * `set_min_max_duties`: the quotas are the floor of the total need over
     * the number of proctors, and one more; no proctors raise ZeroDivisionError
     * and leave the quotas as they were.
     */
    method SetMinMaxDuties(ghost total: int) returns (err: Option<PyError>)
      requires total == TotalNeeded(exams)
      modifies this`minDuties, this`maxDuties
      ensures |proctors| == 0 ==> err == Some(ZeroDivisionError)
      ensures |proctors| == 0 ==> minDuties == old(minDuties) && maxDuties == old(maxDuties)
      ensures |proctors| > 0 ==> err == None
      ensures |proctors| > 0 ==>
        minDuties * |proctors| <= total < (minDuties + 1) * |proctors| && maxDuties == minDuties + 1
      ensures |proctors| > 0 ==> Quotas(total, |proctors|) == Ok((minDuties, maxDuties))
    {
      var total := TotalNeeded(exams);
      var quotas := Quotas(total, |proctors|);
      if quotas.Err? {
        return Some(quotas.error);
      }
      minDuties := quotas.value.0;
      maxDuties := quotas.value.1;
      return None;
    }

    /**
     * `set_blocks`: both sorts of the exam list, then every exam appended to
     * the list of its block. A raising sort leaves the blocks untouched. The
     * first sort leaves the list as it was when a key fails, and in an order
     * of its elements the model leaves open when a comparison fails (CPython
     * stops a sort that raises midway); the second sort fails only on a key,
     * leaving the list in the order of the first.
     */
    method SetBlocks(ghost order: Result<seq<Exam>, PyError>, ghost first: Result<seq<Exam>, PyError>) returns (err: Option<PyError>)
      requires Valid() && order == ExamOrder(exams) && first == SortBySpecific(exams)
      modifies this`exams, this`blockKeys, this`blocks
      ensures Valid()
      ensures multiset(exams) == multiset(old(exams)) && forall i :: 0 <= i < |exams| ==> exams[i] in old(exams)
      ensures forall e :: e in old(exams) ==> e in exams && e.proctors == old(e.proctors)
      ensures Configs() == old(Configs()) && unchanged(proctors)
      ensures err.Some? <==> order.Err?
      ensures err.Some? ==>
        && err.value == order.error
        && (first.Ok? ==> exams == first.value)
        && (first == Err(AttributeError) ==> exams == old(exams))
        && blockKeys == old(blockKeys) && blocks == old(blocks)
      ensures err.None? ==>
        && exams == order.value && AllHaveCodes(exams)
        && (blockKeys, blocks) == GroupInto(old(blockKeys), old(blocks), exams)
    {
      ghost var es0 := exams;
      err := SortExams(order, first);
      RegroupValid(proctors, blockKeys, blocks, es0, exams);
      if err.None? { GroupExams(); }
    }

    /**
     * The two sorts of `set_blocks`, in place; a raising sort stops there.
     * A failed comparison may leave the list in any order of its elements:
     * this method leaves it as it was, one of the orders the contract allows.
     */
    method SortExams(ghost order: Result<seq<Exam>, PyError>, ghost first: Result<seq<Exam>, PyError>) returns (err: Option<PyError>)
      requires order == ExamOrder(exams) && first == SortBySpecific(exams)
      modifies this`exams
      ensures multiset(exams) == multiset(old(exams)) && forall e :: e in exams <==> e in old(exams)
      ensures forall i :: 0 <= i < |exams| ==> exams[i] in old(exams)
      ensures Configs() == old(Configs())
      ensures err.Some? <==> order.Err?
      ensures err.Some? ==>
        && err.value == order.error
        && (first.Ok? ==> exams == first.value)
        && (first == Err(AttributeError) ==> exams == old(exams))
      ensures err.None? ==> exams == order.value && AllHaveCodes(exams)
    {
      ghost var cfgs := Configs();
      var byName := SortBySpecific(exams);
      if byName.Err? {
        return Some(byName.error);
      }
      assert multiset(byName.value) == multiset(exams) by {
        SpecificOrder(exams);
      }
      var second := SortByPhd(byName.value);
      if second.Err? {
        SameMembers(byName.value, exams);
        exams := byName.value;
        ConfigsIs(cfgs);
        return Some(second.error);
      }
      assert multiset(second.value) == multiset(byName.value) by {
        PhdOrder(byName.value);
      }
      SameMembers(second.value, exams);
      exams := second.value;
      ConfigsIs(cfgs);
      forall e | e in exams ensures HasCourseCode(e.title) {
        assert e in multiset(byName.value);
      }
      return None;
    }

    /** The grouping loop of `set_blocks`: every exam, in list order, appended to its block's list. */
    method GroupExams()
      modifies this`blockKeys, this`blocks
      ensures (blockKeys, blocks) == GroupInto(old(blockKeys), old(blocks), exams)
      ensures Configs() == old(Configs())
    {
      for i := 0 to |exams|
        invariant (blockKeys, blocks) == GroupInto(old(blockKeys), old(blocks), exams[..i])
      {
        var e := exams[i];
        assert exams[..i + 1][..i] == exams[..i];
        ghost var m := blocks;
        if e.Block() !in blocks {
          blocks := blocks[e.Block() := []];
          blockKeys := blockKeys + [e.Block()];
          assert blocks[e.Block()] + [e] == [e];
        }
        blocks := blocks[e.Block() := blocks[e.Block()] + [e]];
        assert e.Block() !in m ==> blocks == m[e.Block() := [e]];
      }
      assert exams[..|exams|] == exams;
    }

    /** The total need of every block. */
    function Demands(): (d: map<string, int>)
      requires Valid()
      reads this, exams`numberOfProctorsNeeded
      ensures forall k :: k in d <==> k in blocks
    {
      assert forall k, i :: k in blocks && 0 <= i < |blocks[k]| ==> blocks[k][i] in exams;
      map k | k in blocks :: TotalNeeded(blocks[k])
    }

    /**
     * `ordered_blocks_keys`: the block keys, ordered by total need, largest
     * first when `mostNeededToLeast` is set and smallest first otherwise
     * (`OrderedBlocksKeysSorted`).
     */
    function OrderedBlocksKeys(mostNeededToLeast: bool): (keys: seq<string>)
      requires Valid()
      reads this, exams`numberOfProctorsNeeded
      ensures forall k :: k in keys ==> k in blocks
    {
      OrderKeys(blockKeys, Demands(), mostNeededToLeast)
    }

    /** The ordered keys are the block keys, ordered by the blocks' total need. */
    lemma OrderedBlocksKeysSorted(mostNeededToLeast: bool)
      requires Valid()
      ensures var keys := OrderedBlocksKeys(mostNeededToLeast);
        && multiset(keys) == multiset(blockKeys)
        && forall i, j :: 0 <= i < j < |keys| ==>
             if mostNeededToLeast then TotalNeeded(blocks[keys[i]]) >= TotalNeeded(blocks[keys[j]])
             else TotalNeeded(blocks[keys[j]]) >= TotalNeeded(blocks[keys[i]])
    {
      OrderKeysSorted(blockKeys, Demands(), mostNeededToLeast);
    }

    /**
     * `get_available_proctors`: the proctors passing every rule for `exam`,
     * each once or twice as the rules append it. With all constraints nothing
     * changes; without, every proctor within capacity gets the blocks of its
     * duties appended to its `unavailable` list.
     */
    method GetAvailableProctors(exam: Exam, allConstraints: bool) returns (available: seq<Proctor>)
      requires Valid() && HasCourseCode(exam.title)
      modifies proctors`unavailable
      ensures unchanged(this)
      ensures available == old(Available(proctors, View(), JobOf(exam), allConstraints, maxDuties))
      ensures View() == old(if allConstraints then View() else Relax(proctors, View(), maxDuties))
      ensures Snapshot() == old(Snapshot()) && Configs() == old(Configs())
    {
      ghost var r := View();
      ghost var lists, cfgs := Snapshot(), Configs();
      var job := JobOf(exam);
      available := [];
      for i := 0 to |proctors|
        invariant available == Available(proctors[..i], r, job, allConstraints, maxDuties)
        invariant Snapshot() == lists && Configs() == cfgs
        invariant forall q :: q in proctors ==>
          StateOf(q) == if allConstraints || q !in proctors[..i] then r[q] else Extend(r[q], maxDuties)
      {
        AvailableStep(proctors, i, r, job, allConstraints, maxDuties);
        var verdict := ScanAt(i, r, job, allConstraints);
        available := available + verdict;
      }
      assert proctors[..|proctors|] == proctors;
      ViewIs(if allConstraints then r else Relax(proctors, r, maxDuties));
    }

    /**
     * The `i`-th iteration of the proctor loop of `get_available_proctors`:
     * the first `i` proctors are scanned, and the scan of the next one keeps
     * every other proctor's state.
     */
    method ScanAt(i: nat, ghost r: Roster, job: Job, allConstraints: bool) returns (verdict: seq<Proctor>)
      requires Valid() && i < |proctors| && HasCourseCode(job.exam.title)
      requires forall q :: q in proctors ==> q in r
      requires forall q :: q in proctors ==>
        StateOf(q) == if allConstraints || q !in proctors[..i] then r[q] else Extend(r[q], maxDuties)
      modifies proctors`unavailable
      ensures verdict == Verdict(proctors[i], r[proctors[i]], job, allConstraints, maxDuties)
      ensures forall q :: q in proctors ==>
        StateOf(q) == if allConstraints || q !in proctors[..i + 1] then r[q] else Extend(r[q], maxDuties)
      ensures Snapshot() == old(Snapshot()) && Configs() == old(Configs())
    {
      var p := proctors[i];
      assert p !in proctors[..i];
      verdict := ScanProctor(p, job, allConstraints);
      assert forall q :: q in proctors[..i + 1] <==> q in proctors[..i] || q == p;
    }

    /** The view is determined by the state of each listed proctor. */
    lemma ViewIs(r: Roster)
      requires r.Keys == set q | q in proctors
      requires forall q :: q in proctors ==> StateOf(q) == r[q]
      ensures View() == r
    {
    }

    /** The snapshot is determined by the list of each exam. */
    lemma SnapshotIs(m: map<Exam, seq<Proctor>>)
      requires forall e :: e in m <==> e in exams
      requires forall e :: e in exams ==> e.proctors == m[e]
      ensures Snapshot() == m
    {
    }

    /** The configurations are determined by the configuration of each exam. */
    lemma ConfigsIs(m: map<Exam, Job>)
      requires forall e :: e in m <==> e in exams
      requires forall e :: e in exams ==> JobOf(e) == m[e]
      ensures Configs() == m
    {
    }

    /**
     * One iteration of the proctor loop of `get_available_proctors`: what it
     * appends for `p`, and the relaxed pass's extension of `p.unavailable`.
     */
    method ScanProctor(p: Proctor, job: Job, allConstraints: bool) returns (verdict: seq<Proctor>)
      requires HasCourseCode(job.exam.title)
      modifies p`unavailable
      ensures verdict == Verdict(p, old(StateOf(p)), job, allConstraints, maxDuties)
      ensures StateOf(p) == if allConstraints then old(StateOf(p)) else Extend(old(StateOf(p)), maxDuties)
      ensures Snapshot() == old(Snapshot()) && Configs() == old(Configs())
    {
      verdict := [];
      if |p.duties| > maxDuties {
        return;
      }
      var constraints: seq<string>;
      if allConstraints {
        constraints := p.unavailable + p.notPreferred + BlocksOf(p.duties);
      } else {
        p.unavailable := p.unavailable + BlocksOf(p.duties);
        constraints := p.unavailable;
      }
      if job.exam.Block() !in constraints {
        if job.specific.Some? {
          if NameEquals(p.name, job.specific.value) {
            verdict := verdict + [p];
          } else {
            return;
          }
        }
        if NeedsPhd(job) {
          if p.proctorClass == 3 {
            verdict := verdict + [p];
          } else {
            return;
          }
        } else {
          verdict := verdict + [p];
        }
      }
    }
  
    /** The decisions `schedule` makes for `exam` in the current state. */
    ghost function PlanOf(exam: Exam): Plan
      requires HasCourseCode(exam.title)
      reads this`minDuties, this`maxDuties, proctors`unavailable, proctors`notPreferred, proctors`duties
      reads exam`numberOfProctorsNeeded, exam`requiresSpecificProctor
    {
      PlanFor(proctors, View(), JobOf(exam), minDuties, maxDuties)
    }

    /**
     * The staffing of one exam in `schedule`: the strict scan, the relaxed
     * scan when the strict pool is short of the need, and, when the pool is
     * large enough, `need` draws from the proctors still below the minimum if
     * there are enough of them and from the whole pool otherwise. A pool that
     * stays too small staffs nothing but keeps the relaxed scan's changes.
     */
    method StaffExam(exam: Exam) returns (staffed: bool, drawn: seq<Proctor>)
      requires Valid() && HasCourseCode(exam.title) && exam in exams
      modifies proctors`unavailable, proctors`duties, exam`proctors
      ensures unchanged(this) && Configs() == old(Configs())
      ensures staffed <==> |old(PlanOf(exam)).pool| >= old(exam.numberOfProctorsNeeded)
      ensures staffed ==> LegalPicks(drawn, old(PlanOf(exam)).selectFrom, old(exam.numberOfProctorsNeeded))
      ensures !staffed ==> drawn == []
      ensures View() == Assign(old(PlanOf(exam)).after, exam, drawn)
      ensures exam.proctors == old(exam.proctors) + drawn
      ensures Snapshot() == old(Snapshot())[exam := old(exam.proctors) + drawn]
    {
      ghost var plan := PlanOf(exam);
      ghost var r, job := View(), JobOf(exam);
      ghost var lists := Snapshot();
      var available := ScanExam(exam);
      ghost var after := View();
      assert after == plan.after && available == plan.pool;
      var minNotReached := MinNotReached(available);
      assert View() == after && minNotReached == BelowMin(available, after, minDuties);
      if |available| < exam.numberOfProctorsNeeded {
        assert Assign(after, exam, []) == after;
        assert exam in lists;
        UpdateSame(lists, exam);
        return false, [];
      }
      SelectAfterScan(plan, proctors, r, job, minDuties, maxDuties);
      var selectFrom := if |minNotReached| >= exam.numberOfProctorsNeeded then minNotReached else available;
      assert selectFrom == plan.selectFrom;
      drawn := DrawPicks(exam, selectFrom);
      assert View() == Assign(after, exam, drawn);
      staffed := true;
    }

    /** The availability scans of `schedule` for one exam: strict, then relaxed when the strict pool is short. */
    method ScanExam(exam: Exam) returns (available: seq<Proctor>)
      requires Valid() && HasCourseCode(exam.title)
      modifies proctors`unavailable
      ensures unchanged(this)
      ensures available == old(PlanOf(exam)).pool
      ensures View() == old(PlanOf(exam)).after
      ensures Snapshot() == old(Snapshot()) && Configs() == old(Configs())
    {
      available := GetAvailableProctors(exam, true);
      if |available| < exam.numberOfProctorsNeeded {
        available := GetAvailableProctors(exam, false);
      }
    }

    /** The list comprehension of `schedule`: the proctors of `available`, in order, still below the minimum. */
    method MinNotReached(available: seq<Proctor>) returns (below: seq<Proctor>)
      requires forall q :: q in available ==> q in proctors
      ensures unchanged(proctors) && View() == old(View())
      ensures Snapshot() == old(Snapshot()) && Configs() == old(Configs())
      ensures below == BelowMin(available, View(), minDuties)
    {
      below := [];
      for i := 0 to |available|
        invariant below == BelowMin(available[..i], View(), minDuties)
      {
        assert available[..i + 1][..i] == available[..i];
        assert available[i] in available;
        if |available[i].duties| < minDuties {
          below := below + [available[i]];
        }
      }
      assert available[..|available|] == available;
    }

    /**
     * The picks of `schedule`: `need` draws from `selectFrom`, then the
     * appending loop over them.
     */
    method DrawPicks(exam: Exam, selectFrom: seq<Proctor>) returns (drawn: seq<Proctor>)
      requires exam.numberOfProctorsNeeded <= 0 || |selectFrom| > 0
      requires forall q :: q in selectFrom ==> q in proctors
      requires exam in exams
      modifies proctors`duties, exam`proctors
      ensures unchanged(this)
      ensures LegalPicks(drawn, selectFrom, old(exam.numberOfProctorsNeeded))
      ensures exam.proctors == old(exam.proctors) + drawn
      ensures View() == Assign(old(View()), exam, drawn)
      ensures Snapshot() == old(Snapshot())[exam := old(exam.proctors) + drawn]
      ensures Configs() == old(Configs())
    {
      ghost var r := View();
      ghost var lists, cfgs := Snapshot(), Configs();
      drawn := Choices(selectFrom, exam.numberOfProctorsNeeded);
      AppendPicks(exam, drawn);
      forall p | p in proctors ensures StateOf(p) == Assign(r, exam, drawn)[p] {
        AssignEffect(r, exam, drawn, p);
      }
      ViewIs(Assign(r, exam, drawn));
      SnapshotIs(lists[exam := old(exam.proctors) + drawn]);
      ConfigsIs(cfgs);
    }

    /**
     * The loop over the picks in `schedule`: each drawn proctor in turn gets
     * the exam appended to its duties and is appended to the exam's proctors.
     */
    method AppendPicks(exam: Exam, drawn: seq<Proctor>)
      requires forall q :: q in drawn ==> q in proctors
      modifies proctors`duties, exam`proctors
      ensures unchanged(this)
      ensures exam.proctors == old(exam.proctors) + drawn
      ensures forall e :: e in exams && e != exam ==> e.proctors == old(e.proctors)
      ensures forall e :: e in exams ==> JobOf(e) == old(JobOf(e))
      ensures forall p :: p in proctors ==> p.duties == old(p.duties) + Copies(exam, Count(drawn, p))
      ensures forall p :: p in proctors ==> p.unavailable == old(p.unavailable) && p.notPreferred == old(p.notPreferred)
    {
      for i := 0 to |drawn|
        invariant exam.proctors == old(exam.proctors) + drawn[..i]
        invariant forall p :: p in proctors ==> p.duties == old(p.duties) + Copies(exam, Count(drawn[..i], p))
      {
        var q := drawn[i];
        assert q in drawn;
        q.duties := q.duties + [exam];
        exam.proctors := exam.proctors + [q];
        assert drawn[..i + 1][..i] == drawn[..i];
      }
      assert drawn[..|drawn|] == drawn;
    }

    /**
     * Every exam's proctor list is its list `lists0` from before the pass
     * followed by the proctors the first `|picks|` jobs drew for it.
     */
    ghost predicate Lists(lists0: map<Exam, seq<Proctor>>, jobs: seq<Job>, picks: seq<seq<Proctor>>)
      reads this`exams, exams`proctors
    {
      ListsAt(Snapshot(), lists0, jobs, picks)
    }

    /** The configuration of every exam. */
    ghost function Configs(): (m: map<Exam, Job>)
      reads this`exams, exams`numberOfProctorsNeeded, exams`requiresSpecificProctor
      ensures forall e :: e in exams ==> e in m
      ensures forall e :: e in m ==> e in exams && m[e] == JobOf(e)
    {
      map e | e in exams :: JobOf(e)
    }

    /** The jobs of listed exams are fixed by their configurations. */
    lemma {:induction false} JobsOfConfigs(es: seq<Exam>)
      requires forall e :: e in es ==> e in exams
      ensures JobsOf(es) == JobsIn(Configs(), es)
      decreases |es|
    {
      if es != [] {
        assert es[|es| - 1] in es;
        JobsOfConfigs(es[..|es| - 1]);
      }
    }

    /** The total need of listed exams is fixed by their configurations. */
    lemma {:induction false} NeededConfigs(es: seq<Exam>)
      requires forall e :: e in es ==> e in exams
      ensures TotalNeeded(es) == NeedIn(Configs(), es)
      decreases |es|
    {
      if es != [] {
        assert es[|es| - 1] in es;
        NeededConfigs(es[..|es| - 1]);
      }
    }

    /** The demand of every block is fixed by the configurations of its exams. */
    lemma DemandsConfigs()
      requires Valid()
      ensures forall k :: k in blocks ==> forall e :: e in blocks[k] ==> e in Configs()
      ensures Demands() == map k | k in blocks :: NeedIn(Configs(), blocks[k])
    {
      forall k | k in blocks ensures TotalNeeded(blocks[k]) == NeedIn(Configs(), blocks[k]) {
        BlockListed(k);
        NeededConfigs(blocks[k]);
      }
    }

    /**
     * The block order and the jobs of a pass depend on the exams only through
     * their configurations.
     */
    lemma PassInValues(cfgs: map<Exam, Job>)
      requires Valid() && cfgs == Configs()
      ensures forall k, e :: k in blocks && e in blocks[k] ==> e in cfgs
      ensures OrderedBlocksKeys(true) == OrderKeys(blockKeys, BlockDemands(cfgs, blocks), true)
      ensures forall e :: e in Worklist(blocks, OrderedBlocksKeys(true)) ==> e in cfgs
      ensures JobsOf(Worklist(blocks, OrderedBlocksKeys(true))) == JobsIn(cfgs, Worklist(blocks, OrderedBlocksKeys(true)))
    {
      DemandsConfigs();
      assert Demands() == BlockDemands(cfgs, blocks);
      var keys := OrderedBlocksKeys(true);
      assert keys == OrderKeys(blockKeys, BlockDemands(cfgs, blocks), true);
      forall e | e in Worklist(blocks, keys) ensures e in exams {
        WorklistMembers(blocks, keys, e);
      }
      JobsOfConfigs(Worklist(blocks, keys));
    }

    /** The proctor list of every exam. */
    ghost function Snapshot(): (m: map<Exam, seq<Proctor>>)
      reads this`exams, exams`proctors
      ensures forall e :: e in exams ==> e in m
      ensures forall e :: e in m ==> e in exams && m[e] == e.proctors
    {
      map e | e in exams :: e.proctors
    }

    /**
     * A pass that is still running: it has staffed the jobs `picks` stand
     * for, in a legal run from the roster `r0` and the exam lists `lists0`,
     * and the proctors and the exam lists are in the state that run leaves.
     */
    ghost predicate Running(r0: Roster, lists0: map<Exam, seq<Proctor>>, jobs: seq<Job>, picks: seq<seq<Proctor>>)
      reads this`exams, this`minDuties, this`maxDuties, proctors`unavailable, proctors`notPreferred, proctors`duties, exams`proctors
    {
      && Covers(r0, proctors) && AllCoded(jobs) && |picks| <= |jobs|
      && LegalRun(proctors, jobs, minDuties, maxDuties, r0, picks)
      && View() == RunRoster(proctors, jobs, minDuties, maxDuties, r0, picks)
      && Lists(lists0, jobs, picks)
    }

    /**
     * A pass that gave up on job `|picks|`: the jobs before it were staffed
     * in a legal run, the pool of that job is smaller than its need, and the
     * proctors are in the state its relaxed scan left.
     */
    ghost predicate Stopped(r0: Roster, lists0: map<Exam, seq<Proctor>>, jobs: seq<Job>, picks: seq<seq<Proctor>>)
      reads this`exams, this`minDuties, this`maxDuties, proctors`unavailable, proctors`notPreferred, proctors`duties, exams`proctors
    {
      && Covers(r0, proctors) && AllCoded(jobs) && |picks| < |jobs|
      && LegalRun(proctors, jobs, minDuties, maxDuties, r0, picks)
      && |PlanAt(proctors, jobs, minDuties, maxDuties, r0, picks, |picks|).pool| < jobs[|picks|].need
      && View() == PlanAt(proctors, jobs, minDuties, maxDuties, r0, picks, |picks|).after
      && Lists(lists0, jobs, picks)
    }

    /**
     * Staffing the next job of a pass: with the proctors in the state the
     * earlier picks left, the exam is staffed exactly when its pool is large
     * enough, and then the run, the proctors' states and the exam lists all
     * grow by its picks; otherwise the pass stops at this job.
     */
    method StaffNext(exam: Exam, ghost r0: Roster, ghost lists0: map<Exam, seq<Proctor>>, ghost jobs: seq<Job>, ghost picks: seq<seq<Proctor>>)
      returns (staffed: bool, drawn: seq<Proctor>)
      requires Valid() && Running(r0, lists0, jobs, picks) && |picks| < |jobs|
      requires exam in exams && jobs[|picks|] == JobOf(exam)
      modifies proctors`unavailable, proctors`duties, exam`proctors
      ensures unchanged(this) && Configs() == old(Configs())
      ensures staffed ==> Running(r0, lists0, jobs, picks + [drawn])
      ensures !staffed ==> Stopped(r0, lists0, jobs, picks)
    {
      PlanAtNext(proctors, jobs, minDuties, maxDuties, r0, picks);
      ghost var before := Snapshot();
      staffed, drawn := StaffExam(exam);
      ListsGrow(before, Snapshot(), lists0, jobs, picks, drawn, exam);
      if staffed {
        LegalExtend(proctors, jobs, minDuties, maxDuties, r0, picks, drawn);
        RunExtend(proctors, jobs, minDuties, maxDuties, r0, picks, drawn);
      }
    }

    /** Every exam of a block is listed. */
    lemma BlockListed(key: string)
      requires Valid() && key in blocks
      ensures forall e :: e in blocks[key] ==> e in exams
    {
    }

    /** Every exam on the worklist of `keys` is listed, so its course code is known. */
    lemma WorklistCoded(keys: seq<string>)
      requires Valid() && AllHaveCodes(exams)
      requires forall k :: k in keys ==> k in blocks
      ensures forall e :: e in Worklist(blocks, keys) ==> e in exams
      ensures AllCoded(JobsOf(Worklist(blocks, keys)))
    {
      var work := Worklist(blocks, keys);
      forall e | e in work ensures e in exams {
        WorklistMembers(blocks, keys, e);
      }
      forall j | 0 <= j < |work| ensures HasCourseCode(JobsOf(work)[j].exam.title) {
        JobsOfAt(work, j);
        assert work[j] in work;
      }
    }

    /**
     * The inner loop of `schedule` over the exams of one block, continuing a
     * pass at job `|picks0|`: it stops at the first exam whose pool is too
     * small, and otherwise staffs every exam of the block in order.
     */
    method StaffBlock(key: string, ghost r0: Roster, ghost lists0: map<Exam, seq<Proctor>>, ghost jobs: seq<Job>, ghost picks0: seq<seq<Proctor>>)
      returns (completed: bool, ghost picks: seq<seq<Proctor>>)
      requires Valid() && key in blocks && Running(r0, lists0, jobs, picks0)
      requires |picks0| + |blocks[key]| <= |jobs| && InSlot(jobs, |picks0|, JobsOf(blocks[key]))
      modifies proctors`unavailable, proctors`duties, exams`proctors
      ensures unchanged(this) && Configs() == old(Configs())
      ensures completed ==> |picks| == |picks0| + |blocks[key]| && Running(r0, lists0, jobs, picks)
      ensures !completed ==> |picks0| <= |picks| < |picks0| + |blocks[key]| && Stopped(r0, lists0, jobs, picks)
    {
      var list := blocks[key];
      BlockListed(key);
      ghost var slot, cfgs := JobsOf(list), Configs();
      forall i | 0 <= i < |list| ensures list[i] in cfgs && slot[i] == cfgs[list[i]] {
        JobsOfAt(list, i);
        assert list[i] in list;
      }
      picks := picks0;
      for i := 0 to |list|
        invariant unchanged(this) && |picks| == |picks0| + i
        invariant Configs() == cfgs
        invariant Running(r0, lists0, jobs, picks)
      {
        var exam := list[i];
        assert exam in list;
        InSlotAt(jobs, |picks0|, slot, i, |picks|);
        assert slot[i] == Configs()[exam] == JobOf(exam);
        var staffed, drawn := StaffNext(exam, r0, lists0, jobs, picks);
        if !staffed {
          return false, picks;
        }
        picks := picks + [drawn];
      }
      completed := true;
    }

    /**
     * The nested loops of `schedule` over the blocks `keys` and their exams:
     * the jobs are the exams of the blocks in that order, the picks a legal
     * run of them from the proctors' current state, and the pass stops at the
     * first job whose pool is smaller than its need. Every proctor ends in the
     * state the run leaves and every exam's proctor list gains its picks.
     */
    method StaffBlocks(ghost r0: Roster, ghost lists0: map<Exam, seq<Proctor>>)
      returns (completed: bool, ghost keys: seq<string>, ghost jobs: seq<Job>, ghost picks: seq<seq<Proctor>>)
      requires Valid() && AllHaveCodes(exams) && r0 == View() && lists0 == Snapshot()
      modifies proctors`unavailable, proctors`duties, exams`proctors
      ensures unchanged(this) && Configs() == old(Configs())
      ensures keys == OrderedBlocksKeys(true) && jobs == JobsOf(Worklist(blocks, keys))
      ensures PassEnded(proctors, jobs, minDuties, maxDuties, r0, picks, completed, View())
      ensures forall e :: e in exams ==> e.proctors == lists0[e] + ExamPicks(jobs, picks, e)
    {
      var order := OrderedBlocksKeys(true);
      keys := order;
      WorklistCoded(keys);
      jobs := JobsOf(Worklist(blocks, keys));
      JobsOfConfigs(Worklist(blocks, keys));
      DemandsConfigs();
      ListsStart(lists0, jobs);
      completed, picks := StaffKeys(order, r0, lists0, jobs);
      ListsEnd(lists0, jobs, picks);
      JobsOfConfigs(Worklist(blocks, keys));
      DemandsConfigs();
    }

    /** The loop over the blocks `keys`, staffing their exams in order until one cannot be staffed. */
    method StaffKeys(keys: seq<string>, ghost r0: Roster, ghost lists0: map<Exam, seq<Proctor>>, ghost jobs: seq<Job>)
      returns (completed: bool, ghost picks: seq<seq<Proctor>>)
      requires Valid() && forall k :: k in keys ==> k in blocks
      requires jobs == JobsOf(Worklist(blocks, keys)) && Running(r0, lists0, jobs, [])
      modifies proctors`unavailable, proctors`duties, exams`proctors
      ensures unchanged(this) && Configs() == old(Configs())
      ensures completed ==> |picks| == |jobs| && Running(r0, lists0, jobs, picks)
      ensures !completed ==> Stopped(r0, lists0, jobs, picks)
    {
      ghost var m := blocks;
      assert forall key :: key in keys ==> key in m;
      assert jobs == JobsOf(Worklist(m, keys));
      ghost var cfgs := Configs();
      picks := [];
      for k := 0 to |keys|
        invariant unchanged(this) && blocks == m && Configs() == cfgs
        invariant |picks| == |Worklist(m, keys[..k])| <= |jobs|
        invariant Running(r0, lists0, jobs, picks)
      {
        JobsSlot(m, keys, k, jobs, |picks|);
        var done;
        done, picks := StaffBlock(keys[k], r0, lists0, jobs, picks);
        if !done {
          return false, picks;
        }
      }
      assert keys[..|keys|] == keys;
      completed := true;
    }

    /** At the end of a pass, each exam's list is its list before the pass followed by its picks. */
    lemma ListsEnd(lists0: map<Exam, seq<Proctor>>, jobs: seq<Job>, picks: seq<seq<Proctor>>)
      requires Lists(lists0, jobs, picks)
      ensures forall e :: e in exams ==> e in lists0 && e.proctors == lists0[e] + ExamPicks(jobs, picks, e)
    {
      forall e | e in exams
        ensures e in lists0 && e.proctors == lists0[e] + ExamPicks(jobs, picks, e)
      {
        assert e in Snapshot();
      }
    }

    /**
     * `schedule` after the quotas: the sorted and grouped exams, then one pass
     * over the blocks. `order` and `first` are the two sorts of the current
     * exam list, `r0` the proctors' states and `lists0` the exams' proctor
     * lists, all as they are on entry.
     */
    method SortAndStaff(ghost order: Result<seq<Exam>, PyError>, ghost first: Result<seq<Exam>, PyError>,
                        ghost r0: Roster, ghost lists0: map<Exam, seq<Proctor>>)
      returns (outcome: Outcome, ghost keys: seq<string>, ghost jobs: seq<Job>, ghost picks: seq<seq<Proctor>>)
      requires Valid() && order == ExamOrder(exams) && first == SortBySpecific(exams)
      requires r0 == View()
      requires forall e :: e in lists0 <==> e in exams
      requires forall e :: e in exams ==> e.proctors == lists0[e]
      modifies this`exams, this`blockKeys, this`blocks
      modifies proctors`unavailable, proctors`duties, exams`proctors
      ensures Valid() && multiset(exams) == multiset(old(exams)) && Configs() == old(Configs())
      ensures order.Err? ==>
        && outcome == Raised(order.error)
        && blockKeys == old(blockKeys) && blocks == old(blocks)
        && (first.Ok? ==> exams == first.value)
        && (first == Err(AttributeError) ==> exams == old(exams))
        && View() == r0 && forall e :: e in lists0 ==> e.proctors == lists0[e]
      ensures order.Ok? ==>
        && !outcome.Raised?
        && exams == order.value
        && (blockKeys, blocks) == GroupInto(old(blockKeys), old(blocks), exams)
        && keys == OrderedBlocksKeys(true) && jobs == JobsOf(Worklist(blocks, keys))
        && PassEnded(proctors, jobs, minDuties, maxDuties, r0, picks, outcome == Completed, View())
        && forall e :: e in lists0 ==> e.proctors == lists0[e] + ExamPicks(jobs, picks, e)
    {
      keys, jobs, picks := [], [], [];
      var err := SetBlocks(order, first);
      ViewUnchanged();
      if err.Some? {
        return Raised(err.value), keys, jobs, picks;
      }
      ghost var grouped := (blockKeys, blocks);
      outcome, keys, jobs, picks := StaffGrouped(exams, grouped, r0, lists0);
    }

    /**
     * The pass of `schedule` over blocks already grouped: `es` is the exam
     * list and `grouped` the blocks, and neither changes.
     */
    method StaffGrouped(ghost es: seq<Exam>, ghost grouped: (seq<string>, map<string, seq<Exam>>),
                        ghost r0: Roster, ghost lists0: map<Exam, seq<Proctor>>)
      returns (outcome: Outcome, ghost keys: seq<string>, ghost jobs: seq<Job>, ghost picks: seq<seq<Proctor>>)
      requires Valid() && AllHaveCodes(exams) && r0 == View()
      requires forall e :: e in lists0 ==> e in exams && e.proctors == lists0[e]
      requires forall e :: e in exams ==> e in lists0
      requires exams == es && (blockKeys, blocks) == grouped
      modifies proctors`unavailable, proctors`duties, exams`proctors
      ensures Valid() && exams == es && (blockKeys, blocks) == grouped && Configs() == old(Configs())
      ensures !outcome.Raised?
      ensures keys == OrderedBlocksKeys(true) && jobs == JobsOf(Worklist(blocks, keys))
      ensures PassEnded(proctors, jobs, minDuties, maxDuties, r0, picks, outcome == Completed, View())
      ensures forall e :: e in lists0 ==> e.proctors == lists0[e] + ExamPicks(jobs, picks, e)
    {
      SnapshotIs(lists0);
      var completed;
      completed, keys, jobs, picks := StaffBlocks(r0, lists0);
      outcome := if completed then Completed else NotEnoughProctors;
    }

    /**
     * `schedule`: the quotas, the sorted and grouped exams, then one pass over
     * the blocks from the most to the least needed, each block's exams in
     * list order. Raising when there are no proctors or when a sort fails
     * leaves every proctor and every exam list as it was; with no proctors
     * the exam order, the blocks and the quotas stay as well, and a failed
     * sort leaves the blocks and the order `SetBlocks` describes; otherwise the picks
     * are a legal run of the blocks' jobs from the proctors' starting states,
     * the pass completes exactly when every job was staffed and otherwise
     * stops at a job whose pool is smaller than its need, and every proctor
     * and exam ends in the state the run leaves.
     */
    method Schedule() returns (outcome: Outcome, ghost keys: seq<string>, ghost jobs: seq<Job>, ghost picks: seq<seq<Proctor>>)
      requires Valid()
      modifies this`minDuties, this`maxDuties, this`exams, this`blockKeys, this`blocks
      modifies proctors`unavailable, proctors`duties, exams`proctors
      ensures Valid() && multiset(exams) == multiset(old(exams)) && Configs() == old(Configs())
      ensures |proctors| == 0 ==> outcome == Raised(ZeroDivisionError)
      ensures |proctors| == 0 ==>
        && exams == old(exams) && blockKeys == old(blockKeys) && blocks == old(blocks)
        && minDuties == old(minDuties) && maxDuties == old(maxDuties)
      ensures |proctors| > 0 ==> Quotas(old(TotalNeeded(exams)), |proctors|) == Ok((minDuties, maxDuties))
      ensures |proctors| > 0 && old(ExamOrder(exams)).Err? ==>
        && outcome == Raised(old(ExamOrder(exams)).error)
        && blockKeys == old(blockKeys) && blocks == old(blocks)
        && (old(SortBySpecific(exams)).Ok? ==> exams == old(SortBySpecific(exams)).value)
        && (old(SortBySpecific(exams)) == Err(AttributeError) ==> exams == old(exams))
      ensures outcome.Raised? ==> View() == old(View()) && forall e :: e in old(exams) ==> e.proctors == old(e.proctors)
      ensures |proctors| > 0 && old(ExamOrder(exams)).Ok? ==>
        && !outcome.Raised?
        && exams == old(ExamOrder(exams)).value
        && (blockKeys, blocks) == GroupInto(old(blockKeys), old(blocks), exams)
        && keys == OrderedBlocksKeys(true) && jobs == JobsOf(Worklist(blocks, keys))
        && PassEnded(proctors, jobs, minDuties, maxDuties, old(View()), picks, outcome == Completed, View())
        && forall e :: e in old(exams) ==> e.proctors == old(e.proctors) + ExamPicks(jobs, picks, e)
    {
      keys, jobs, picks := [], [], [];
      ghost var total, order, first := TotalNeeded(exams), ExamOrder(exams), SortBySpecific(exams);
      ghost var r0, lists0 := View(), Snapshot();
      var err := SetMinMaxDuties(total);
      if err.Some? {
        return Raised(err.value), keys, jobs, picks;
      }
      outcome, keys, jobs, picks := SortAndStaff(order, first, r0, lists0);
    }
  }
}

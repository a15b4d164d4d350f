/**
 * The simulator (src/scheduler/simulator.py): the quotas and the blocks once,
 * then `numberOfSimulations` passes of the planner, each recorded under its
 * number with its exit code and copies of the planner's state.
 */
module Simulation {
  import opened Outcomes
  import opened ExamProctor
  import opened ExamOrdering
  import opened Assignment
  import opened Planning

  /**
   * A copy of the planner's state: the exam list, the blocks (their keys in
   * insertion order and their lists), the proctor list of every exam and the
   * lists of every proctor. `simulate` records deep copies of its planner's
   * state; here the copies are plain values, so a later trial cannot change
   * a recorded one.
   */
  datatype Copy = Copy(exams: seq<Exam>, blockKeys: seq<string>, blocks: map<string, seq<Exam>>,
                       lists: map<Exam, seq<Proctor>>, roster: Roster)

  /** The record of one trial: its exit code and the state it left. */
  datatype Trial = Trial(exitCode: int, state: Copy)

  /** What one pass did: its quotas, its block order, its jobs and its picks. */
  datatype Pass = Pass(minDuties: int, maxDuties: int, keys: seq<string>, jobs: seq<Job>, picks: seq<seq<Proctor>>)

  /** A copy of the proctor list of every exam of `es`. */
  function ListsOf(es: seq<Exam>): (m: map<Exam, seq<Proctor>>)
    reads es
    ensures forall e :: e in es ==> e in m && m[e] == e.proctors
    ensures forall e :: e in m ==> e in es
  {
    map e | e in es :: e.proctors
  }

  /** A copy of the lists of every proctor of `ps`. */
  function RosterOf(ps: seq<Proctor>): (r: Roster)
    reads ps
    ensures r.Keys == set p | p in ps
    ensures forall p :: p in ps ==> r[p] == StateOf(p)
  {
    map p | p in ps :: ProctorState(p.unavailable, p.notPreferred, p.duties)
  }

  /**
   * Trial `t` is what one pass of `schedule` leaves when it starts from the
   * state `prev`, with the proctors `ps` and the exam configurations `cfgs`
   * (need and required proctor, which no pass changes): the exam list sorted
   * again, which gives it back as it was, every exam appended once more to
   * its block, the quotas of the total need, and a legal run of the pass's jobs
   * that completes exactly when the exit code is 0 and otherwise stops at a
   * job it cannot staff, with every proctor and every exam list in the state
   * that run leaves. Which jobs the pass has is `Visits`.
   */
  ghost predicate Follows(ps: seq<Proctor>, cfgs: map<Exam, Job>, prev: Copy, pass: Pass, t: Trial)
  {
    var s := t.state;
    && s.exams == prev.exams
    && (s.blockKeys, s.blocks) == GroupInto(prev.blockKeys, prev.blocks, s.exams)
    && (forall e :: e in s.exams ==> e in cfgs)
    && Quotas(NeedIn(cfgs, s.exams), |ps|) == Ok((pass.minDuties, pass.maxDuties))
    && |pass.picks| <= |pass.jobs|
    && PassEnded(ps, pass.jobs, pass.minDuties, pass.maxDuties, prev.roster, pass.picks, t.exitCode == 0, s.roster)
    && s.lists == ListsAfter(prev.lists, pass.jobs, pass.picks)
    && (t.exitCode == 0 || t.exitCode == 1)
  }

  /**
   * The pass visits the blocks of state `s` from the most to the least
   * needed, keeping the insertion order of blocks with equal need, and its
   * jobs are their exams in that order, each block's exams in list order.
   */
  ghost predicate Visits(cfgs: map<Exam, Job>, s: Copy, pass: Pass) {
    && (forall k :: k in s.blockKeys <==> k in s.blocks)
    && (forall k, e :: k in s.blocks && e in s.blocks[k] ==> e in cfgs)
    && pass.keys == OrderKeys(s.blockKeys, BlockDemands(cfgs, s.blocks), true)
    && (forall e :: e in Worklist(s.blocks, pass.keys) ==> e in cfgs)
    && pass.jobs == JobsIn(cfgs, Worklist(s.blocks, pass.keys))
  }

  /** The state the next trial starts from: the one the last trial left, or `start` before any. */
  function Last(start: Copy, trials: seq<Trial>): (c: Copy)
    ensures trials == [] ==> c == start
  {
    if trials == [] then start else trials[|trials| - 1].state
  }

  /**
   * `trials` are what the passes `passes` did in turn, the first starting
   * from `start` and each later one from the state the one before it left;
   * every exam of `start` has a configuration in `cfgs`.
   */
  ghost predicate Chain(ps: seq<Proctor>, cfgs: map<Exam, Job>, start: Copy, passes: seq<Pass>, trials: seq<Trial>) {
    && |trials| == |passes|
    && (forall e :: e in start.exams ==> e in cfgs)
    && (forall i {:trigger passes[i]} :: 0 <= i < |passes| ==> Follows(ps, cfgs, Last(start, trials[..i]), passes[i], trials[i]))
    && (forall i {:trigger passes[i].keys} :: 0 <= i < |passes| ==> Visits(cfgs, trials[i].state, passes[i]))
  }

  /** A trial that follows the last one of a chain extends the chain. */
  lemma ChainExtend(ps: seq<Proctor>, cfgs: map<Exam, Job>, start: Copy, passes: seq<Pass>, trials: seq<Trial>,
                    pass: Pass, t: Trial)
    requires Chain(ps, cfgs, start, passes, trials)
    requires Follows(ps, cfgs, Last(start, trials), pass, t) && Visits(cfgs, t.state, pass)
    ensures Chain(ps, cfgs, start, passes + [pass], trials + [t])
  {
    FollowsExtend(ps, cfgs, start, passes, trials, pass, t);
    VisitsExtend(cfgs, passes, trials, pass, t);
  }

  /** Each trial of an extended chain follows the state before it. */
  lemma FollowsExtend(ps: seq<Proctor>, cfgs: map<Exam, Job>, start: Copy, passes: seq<Pass>, trials: seq<Trial>,
                      pass: Pass, t: Trial)
    requires |trials| == |passes|
    requires forall i {:trigger passes[i]} :: 0 <= i < |passes| ==> Follows(ps, cfgs, Last(start, trials[..i]), passes[i], trials[i])
    requires Follows(ps, cfgs, Last(start, trials), pass, t)
    ensures forall i {:trigger (passes + [pass])[i]} :: 0 <= i < |passes + [pass]| ==>
      Follows(ps, cfgs, Last(start, (trials + [t])[..i]), (passes + [pass])[i], (trials + [t])[i])
  {
    var passes', trials' := passes + [pass], trials + [t];
    forall i | 0 <= i < |passes'|
      ensures Follows(ps, cfgs, Last(start, trials'[..i]), passes'[i], trials'[i])
    {
      if i < |passes| {
        assert trials'[..i] == trials[..i] && passes'[i] == passes[i] && trials'[i] == trials[i];
      } else {
        assert trials'[..i] == trials;
      }
    }
  }

  /** Each pass of an extended chain visits the state its trial left. */
  lemma VisitsExtend(cfgs: map<Exam, Job>, passes: seq<Pass>, trials: seq<Trial>, pass: Pass, t: Trial)
    requires |trials| == |passes|
    requires forall i {:trigger passes[i].keys} :: 0 <= i < |passes| ==> Visits(cfgs, trials[i].state, passes[i])
    requires Visits(cfgs, t.state, pass)
    ensures forall i {:trigger (passes + [pass])[i].keys} :: 0 <= i < |passes + [pass]| ==>
      Visits(cfgs, (trials + [t])[i].state, (passes + [pass])[i])
  {
    var passes', trials' := passes + [pass], trials + [t];
    forall i | 0 <= i < |passes'|
      ensures Visits(cfgs, trials'[i].state, passes'[i])
    {
      if i < |passes| {
        // the `passes[i].keys` term fires the trigger of the old `Visits` facts
        assert passes'[i] == passes[i] && trials'[i] == trials[i] && passes[i].keys == passes[i].keys;
      }
    }
  }

  /** Exam lists that are `lists0` followed by the picks of each exam are those `ListsAfter` describes. */
  lemma ListsAfterIs(lists0: map<Exam, seq<Proctor>>, jobs: seq<Job>, picks: seq<seq<Proctor>>, m: map<Exam, seq<Proctor>>)
    requires |picks| <= |jobs|
    requires forall e :: e in m ==> e in lists0
    requires forall e :: e in lists0 ==> e in m && m[e] == lists0[e] + ExamPicks(jobs, picks, e)
    ensures m == ListsAfter(lists0, jobs, picks)
  {
  }

  /** The state trial `i` starts from is the one trial `i - 1` left, or `start` for the first. */
  lemma TrialStart(ps: seq<Proctor>, cfgs: map<Exam, Job>, start: Copy, passes: seq<Pass>, trials: seq<Trial>, i: int)
    requires Chain(ps, cfgs, start, passes, trials) && 0 <= i < |trials|
    ensures Follows(ps, cfgs, if i == 0 then start else trials[i - 1].state, passes[i], trials[i])
  {
    var prev := if i == 0 then start else trials[i - 1].state;
    assert Last(start, trials[..i]) == prev by {
      if i > 0 {
        assert trials[..i][i - 1] == trials[i - 1];
      }
    }
    assert Follows(ps, cfgs, Last(start, trials[..i]), passes[i], trials[i]);
    assert Follows(ps, cfgs, prev, passes[i], trials[i]) == Follows(ps, cfgs, Last(start, trials[..i]), passes[i], trials[i]);
  }

  /** Trial `i` leaves the exam list as it was at the start. */
  lemma {:induction false} TrialExams(ps: seq<Proctor>, cfgs: map<Exam, Job>, start: Copy, passes: seq<Pass>, trials: seq<Trial>, i: int)
    requires Chain(ps, cfgs, start, passes, trials) && 0 <= i < |trials|
    ensures trials[i].state.exams == start.exams
    decreases i
  {
    TrialStart(ps, cfgs, start, passes, trials, i);
    if i > 0 {
      TrialExams(ps, cfgs, start, passes, trials, i - 1);
    }
  }

  /**
   * Trial `i` keeps the starting exam list, appends it once more to the
   * blocks of the state it starts from, and appends its picks to the exam
   * lists of that state.
   */
  lemma TrialState(ps: seq<Proctor>, cfgs: map<Exam, Job>, start: Copy, passes: seq<Pass>, trials: seq<Trial>, i: int)
    requires Chain(ps, cfgs, start, passes, trials) && 0 <= i < |trials|
    ensures var prev, s := (if i == 0 then start else trials[i - 1].state), trials[i].state;
      && s.exams == start.exams
      && (s.blockKeys, s.blocks) == GroupInto(prev.blockKeys, prev.blocks, s.exams)
      && |passes[i].picks| <= |passes[i].jobs|
      && s.lists == ListsAfter(prev.lists, passes[i].jobs, passes[i].picks)
  {
    TrialStart(ps, cfgs, start, passes, trials, i);
    TrialExams(ps, cfgs, start, passes, trials, i);
  }

  /**
   * Every trial computes the same quotas, those of the total need of the
   * starting exams: no trial changes the exam list.
   */
  lemma SameQuotas(ps: seq<Proctor>, cfgs: map<Exam, Job>, start: Copy, passes: seq<Pass>, trials: seq<Trial>)
    requires Chain(ps, cfgs, start, passes, trials)
    ensures forall i :: 0 <= i < |passes| ==>
      Quotas(NeedIn(cfgs, start.exams), |ps|) == Ok((passes[i].minDuties, passes[i].maxDuties))
  {
    forall i | 0 <= i < |passes|
      ensures Quotas(NeedIn(cfgs, start.exams), |ps|) == Ok((passes[i].minDuties, passes[i].maxDuties))
    {
      TrialStart(ps, cfgs, start, passes, trials, i);
      TrialExams(ps, cfgs, start, passes, trials, i);
    }
  }

  /**
   * Trials only append: after trial `i` the same exams have lists, and every
   * exam's list starts with its list from before the first trial.
   */
  lemma ListsGrow(ps: seq<Proctor>, cfgs: map<Exam, Job>, start: Copy, passes: seq<Pass>, trials: seq<Trial>, i: int)
    requires Chain(ps, cfgs, start, passes, trials) && 0 <= i < |trials|
    ensures trials[i].state.lists.Keys == start.lists.Keys
    ensures forall e :: e in start.lists ==> start.lists[e] <= trials[i].state.lists[e]
  {
    forall j | 0 <= j < |trials|
      ensures Extends(Before(start, trials, j).lists, trials[j].state.lists)
    {
      TrialState(ps, cfgs, start, passes, trials, j);
    }
    ListsExtend(start, trials, i);
  }

  /** `m` has the exams of `m0`, and each exam's list in `m` starts with its list in `m0`. */
  ghost predicate Extends(m0: map<Exam, seq<Proctor>>, m: map<Exam, seq<Proctor>>) {
    m.Keys == m0.Keys && forall e :: e in m0 ==> m0[e] <= m[e]
  }

  /** Exam lists that every trial extends are, after trial `i`, an extension of the starting ones. */
  lemma {:induction false} ListsExtend(start: Copy, trials: seq<Trial>, i: int)
    requires 0 <= i < |trials|
    requires forall j {:trigger Before(start, trials, j)} :: 0 <= j < |trials| ==>
      Extends(Before(start, trials, j).lists, trials[j].state.lists)
    ensures Extends(start.lists, trials[i].state.lists)
    decreases i
  {
    var prev := Before(start, trials, i);
    assert Extends(prev.lists, trials[i].state.lists);
    if i > 0 {
      ListsExtend(start, trials, i - 1);
      ExtendsTrans(start.lists, trials[i - 1].state.lists, trials[i].state.lists);
    }
  }

  /** Extending an extension extends the original. */
  lemma ExtendsTrans(m0: map<Exam, seq<Proctor>>, m1: map<Exam, seq<Proctor>>, m2: map<Exam, seq<Proctor>>)
    requires Extends(m0, m1) && Extends(m1, m2)
    ensures Extends(m0, m2)
  {
    forall e | e in m0 ensures m0[e] <= m2[e] {
      assert m0[e] <= m1[e] <= m2[e];
    }
  }

  /** A block's list after grouping is its list before followed by the block's exams. */
  lemma GetAfterGroup(keys: seq<string>, m: map<string, seq<Exam>>, es: seq<Exam>, b: string)
    ensures Get(GroupInto(keys, m, es).1, b) == Get(m, b) + InBlock(es, b)
  {
    GroupContents(keys, m, es);
    if b !in GroupInto(keys, m, es).1 {
      InBlockEmpty(es, b);
    }
  }

  /**
   * The blocks are never emptied: every trial appends every exam of a block
   * to that block's list once more, so after trial `i` (counted from 0)
   * block `b` holds its starting list and `i + 1` further copies of its exams.
   */
  lemma BlocksAccumulate(ps: seq<Proctor>, cfgs: map<Exam, Job>, start: Copy, passes: seq<Pass>,
                         trials: seq<Trial>, i: int, b: string)
    requires Chain(ps, cfgs, start, passes, trials) && 0 <= i < |trials|
    ensures |Get(trials[i].state.blocks, b)| == |Get(start.blocks, b)| + (i + 1) * |InBlock(start.exams, b)|
  {
    forall j | 0 <= j < |trials|
      ensures |Get(trials[j].state.blocks, b)| == |Get(Before(start, trials, j).blocks, b)| + |InBlock(start.exams, b)|
    {
      TrialState(ps, cfgs, start, passes, trials, j);
      var prev := Before(start, trials, j);
      GetAfterGroup(prev.blockKeys, prev.blocks, start.exams, b);
    }
    BlocksGrow(start, trials, i, b, |InBlock(start.exams, b)|);
  }

  /** The state trial `j` starts from. */
  function Before(start: Copy, trials: seq<Trial>, j: int): (c: Copy)
    requires 0 <= j < |trials|
    ensures j > 0 ==> c == trials[j - 1].state
  {
    if j == 0 then start else trials[j - 1].state
  }

  /** Block lengths that grow by `c` at every trial grow by `(i + 1) * c` over trials `0` to `i`. */
  lemma {:induction false} BlocksGrow(start: Copy, trials: seq<Trial>, i: int, b: string, c: int)
    requires 0 <= i < |trials|
    requires forall j {:trigger Before(start, trials, j)} :: 0 <= j < |trials| ==>
      |Get(trials[j].state.blocks, b)| == |Get(Before(start, trials, j).blocks, b)| + c
    ensures |Get(trials[i].state.blocks, b)| == |Get(start.blocks, b)| + (i + 1) * c
    decreases i
  {
    var prev := Before(start, trials, i);
    assert |Get(trials[i].state.blocks, b)| == |Get(prev.blocks, b)| + c;
    if i > 0 {
      BlocksGrow(start, trials, i - 1, b, c);
      OneMoreCopy(|Get(trials[i - 1].state.blocks, b)|, |Get(start.blocks, b)|, i, c);
    }
  }

  /** A length `i` copies of `c` beyond `n` is, with `c` more, `i + 1` copies beyond `n`. */
  lemma OneMoreCopy(m: int, n: int, i: int, c: int)
    requires m == n + i * c
    ensures m + c == n + (i + 1) * c
  {
  }

  /** The state after one more trial is the one that trial left. */
  lemma LastAppend(start: Copy, trials: seq<Trial>, t: Trial)
    ensures Last(start, trials + [t]) == t.state
  {
  }

  /** The configurations of the planner's exams are where they were in the state `old`. */
  twostate lemma ConfigsKept(p: Planner)
    requires unchanged(p`exams) && unchanged(p.exams`numberOfProctorsNeeded, p.exams`requiresSpecificProctor)
    ensures p.Configs() == old(p.Configs())
  {
  }

  /**
   * Sorting the planner's exam list into the order `set_blocks` gives,
   * touching no exam and no proctor, leaves a list that sorts to itself, the
   * same exam lists and the same proctor lists.
   */
  twostate lemma SortedKept(p: Planner)
    requires old(ExamOrder(p.exams)).Ok? && p.exams == old(ExamOrder(p.exams)).value
    requires unchanged(old(p.exams)) && unchanged(p.proctors)
    ensures ExamOrder(p.exams) == Ok(p.exams)
    ensures p.Snapshot() == old(p.Snapshot()) && p.View() == old(p.View())
  {
    Resorted(p);
    SnapshotKept(p);
    ViewKept(p);
  }

  /**
   * An exam list sorted as `set_blocks` sorts, with no exam changed since,
   * sorts to itself and holds the same exams.
   */
  twostate lemma Resorted(p: Planner)
    requires old(ExamOrder(p.exams)) == Ok(p.exams) && unchanged(old(p.exams))
    ensures ExamOrder(p.exams) == Ok(p.exams)
    ensures forall e :: e in p.exams <==> e in old(p.exams)
  {
    ghost var es0 := old(p.exams);
    ExamOrderSpec(es0);
    ExamOrderIdempotent(es0);
    forall e ensures e in p.exams <==> e in es0 {
      assert e in p.exams <==> e in multiset(p.exams);
      assert e in es0 <==> e in multiset(es0);
    }
  }

  /** The planner's exam lists are where they were when it has the same exams, each with its list unchanged. */
  twostate lemma SnapshotKept(p: Planner)
    requires forall e :: e in p.exams <==> e in old(p.exams)
    requires unchanged(old(p.exams))
    ensures p.Snapshot() == old(p.Snapshot())
  {
    ghost var lists0 := old(p.Snapshot());
    assert forall e :: e in old(p.exams) ==> e.proctors == lists0[e];
    p.SnapshotIs(lists0);
  }

  /** The lists of the planner's proctors are where they were in the state `old`. */
  twostate lemma ViewKept(p: Planner)
    requires unchanged(p.proctors`unavailable, p.proctors`notPreferred, p.proctors`duties)
    ensures p.View() == old(p.View())
  {
  }

  /**
   * `m` with every trial of `trials` recorded under its number: the trial at
   * position `k` under `k + 1`, the later trials written over the earlier keys.
   */
  function Record(m: map<int, Trial>, trials: seq<Trial>): (r: map<int, Trial>)
    ensures forall i :: 1 <= i <= |trials| ==> i in r && r[i] == trials[i - 1]
    ensures forall i :: i in m && !(1 <= i <= |trials|) ==> i in r && r[i] == m[i]
    ensures forall i :: i in r ==> i in m || 1 <= i <= |trials|
    decreases |trials|
  {
    if trials == [] then m else Record(m, trials[..|trials| - 1])[|trials| := trials[|trials| - 1]]
  }

  /** Recording one more trial writes it under the next number. */
  lemma RecordNext(m: map<int, Trial>, trials: seq<Trial>, t: Trial)
    ensures Record(m, trials + [t]) == Record(m, trials)[|trials| + 1 := t]
  {
    assert (trials + [t])[..|trials|] == trials;
  }

  class Simulator {
    const planner: Planner
    const numberOfSimulations: int
    var results: map<int, Trial>

    /** Stores the planner and the number of trials; nothing is recorded yet. */
    constructor(planner: Planner, numberOfSimulations: int)
      ensures this.planner == planner && this.numberOfSimulations == numberOfSimulations
      ensures results == map[]
    {
      this.planner := planner;
      this.numberOfSimulations := numberOfSimulations;
      results := map[];
    }

    /**
     * One trial: `schedule`, then its exit code and copies of the exams, the
     * proctors and the blocks. `prev` is the planner's state and `cfgs` the
     * exams' configurations on entry.
     */
    method RunTrial(ghost cfgs: map<Exam, Job>, ghost prev: Copy) returns (t: Trial, ghost pass: Pass)
      requires planner.Valid() && |planner.proctors| > 0 && ExamOrder(planner.exams) == Ok(planner.exams)
      requires cfgs == planner.Configs()
      requires prev.exams == planner.exams && prev.blockKeys == planner.blockKeys && prev.blocks == planner.blocks
      requires forall e :: e in prev.lists ==> e in planner.exams
      requires forall e :: e in planner.exams ==> e in prev.lists && e.proctors == prev.lists[e]
      requires prev.roster == planner.View()
      modifies planner`minDuties, planner`maxDuties, planner`exams, planner`blockKeys, planner`blocks
      modifies planner.proctors`unavailable, planner.proctors`duties, planner.exams`proctors
      ensures planner.Valid() && cfgs == planner.Configs() && planner.exams == old(planner.exams)
      ensures t.state.exams == planner.exams && t.state.blockKeys == planner.blockKeys && t.state.blocks == planner.blocks
      ensures forall e :: e in t.state.lists ==> e in planner.exams
      ensures forall e :: e in planner.exams ==> e in t.state.lists && e.proctors == t.state.lists[e]
      ensures t.state.roster == planner.View()
      ensures Follows(planner.proctors, cfgs, prev, pass, t) && Visits(cfgs, t.state, pass)
    {
      ghost var es0 := planner.exams;
      planner.NeededConfigs(es0);
      var outcome;
      ghost var keys, jobs, picks;
      outcome, keys, jobs, picks := planner.Schedule();
      planner.PassInValues(cfgs);
      var lists := ListsOf(planner.exams);
      ListsAfterIs(prev.lists, jobs, picks, lists);
      var roster := RosterOf(planner.proctors);
      planner.ViewIs(roster);
      t := Trial(ExitCode(outcome), Copy(planner.exams, planner.blockKeys, planner.blocks, lists, roster));
      pass := Pass(planner.minDuties, planner.maxDuties, keys, jobs, picks);
    }

    /**
     * `simulate`: the quotas and the blocks once, then trials `1` to
     * `numberOfSimulations`, trial `i` recorded under `i`. Raising when there
     * are no proctors or when the first sort fails records nothing and
     * leaves the planner as `SetUp` leaves it, every proctor and exam list
     * untouched;
     * otherwise `start` is the state after the first grouping, `cfgs` the
     * exams' configurations, and `trials` the chain of recorded trials.
     * Numbers outside the trials keep what they held.
     */
    method Simulate() returns (err: Option<PyError>, ghost cfgs: map<Exam, Job>, ghost start: Copy,
                               ghost passes: seq<Pass>, ghost trials: seq<Trial>)
      requires planner.Valid()
      modifies this`results, planner`minDuties, planner`maxDuties, planner`exams, planner`blockKeys, planner`blocks
      modifies planner.proctors`unavailable, planner.proctors`duties, planner.exams`proctors
      ensures err.Some? ==> results == old(results)
      ensures err.Some? ==> unchanged(planner.proctors) && unchanged(old(planner.exams))
      ensures |planner.proctors| == 0 ==> err == Some(ZeroDivisionError)
      ensures |planner.proctors| == 0 ==>
        && planner.exams == old(planner.exams)
        && planner.blockKeys == old(planner.blockKeys) && planner.blocks == old(planner.blocks)
        && planner.minDuties == old(planner.minDuties) && planner.maxDuties == old(planner.maxDuties)
      ensures |planner.proctors| > 0 && old(ExamOrder(planner.exams)).Err? ==>
        && err == Some(old(ExamOrder(planner.exams)).error)
        && Quotas(old(TotalNeeded(planner.exams)), |planner.proctors|) == Ok((planner.minDuties, planner.maxDuties))
        && planner.blockKeys == old(planner.blockKeys) && planner.blocks == old(planner.blocks)
        && (old(SortBySpecific(planner.exams)).Ok? ==> planner.exams == old(SortBySpecific(planner.exams)).value)
        && (old(SortBySpecific(planner.exams)) == Err(AttributeError) ==> planner.exams == old(planner.exams))
      ensures |planner.proctors| > 0 && old(ExamOrder(planner.exams)).Ok? ==>
        && err == None
        && cfgs == old(planner.Configs())
        && start.exams == old(ExamOrder(planner.exams)).value
        && (start.blockKeys, start.blocks) == GroupInto(old(planner.blockKeys), old(planner.blocks), start.exams)
        && start.lists == old(planner.Snapshot()) && start.roster == old(planner.View())
        && |trials| == (if numberOfSimulations < 0 then 0 else numberOfSimulations)
        && Chain(planner.proctors, cfgs, start, passes, trials)
        && results == Record(old(results), trials)
    {
      passes, trials := [], [];
      cfgs := map[];
      start := Copy([], [], map[], map[], map[]);
      err := SetUp();
      if err.Some? {
        return;
      }
      SortedKept(planner);
      cfgs, start, passes, trials := TrialsFrom();
    }

    /** The second half of `simulate`: the trials from the state the first grouping left. */
    method TrialsFrom() returns (ghost cfgs: map<Exam, Job>, ghost start: Copy, ghost passes: seq<Pass>, ghost trials: seq<Trial>)
      requires planner.Valid() && |planner.proctors| > 0 && ExamOrder(planner.exams) == Ok(planner.exams)
      modifies this`results, planner`minDuties, planner`maxDuties, planner`exams, planner`blockKeys, planner`blocks
      modifies planner.proctors`unavailable, planner.proctors`duties, planner.exams`proctors
      ensures cfgs == old(planner.Configs())
      ensures start == Copy(old(planner.exams), old(planner.blockKeys), old(planner.blocks), old(planner.Snapshot()), old(planner.View()))
      ensures |trials| == (if numberOfSimulations < 0 then 0 else numberOfSimulations)
      ensures Chain(planner.proctors, cfgs, start, passes, trials)
      ensures results == Record(old(results), trials)
    {
      cfgs := planner.Configs();
      start := Copy(planner.exams, planner.blockKeys, planner.blocks, planner.Snapshot(), planner.View());
      passes, trials := RunTrials(cfgs, start);
    }

    /** The first half of `simulate`: the quotas, then the first sort and grouping of the exams. */
    method SetUp() returns (err: Option<PyError>)
      requires planner.Valid()
      modifies planner`minDuties, planner`maxDuties, planner`exams, planner`blockKeys, planner`blocks
      ensures multiset(planner.exams) == multiset(old(planner.exams))
      ensures forall i :: 0 <= i < |planner.exams| ==> planner.exams[i] in old(planner.exams)
      ensures forall e :: e in old(planner.exams) ==> e in planner.exams
      ensures |planner.proctors| == 0 ==> err == Some(ZeroDivisionError)
      ensures |planner.proctors| == 0 ==>
        && planner.exams == old(planner.exams)
        && planner.blockKeys == old(planner.blockKeys) && planner.blocks == old(planner.blocks)
        && planner.minDuties == old(planner.minDuties) && planner.maxDuties == old(planner.maxDuties)
      ensures |planner.proctors| > 0 ==>
        Quotas(old(TotalNeeded(planner.exams)), |planner.proctors|) == Ok((planner.minDuties, planner.maxDuties))
      ensures |planner.proctors| > 0 && old(ExamOrder(planner.exams)).Err? ==>
        && err == Some(old(ExamOrder(planner.exams)).error)
        && planner.blockKeys == old(planner.blockKeys) && planner.blocks == old(planner.blocks)
        && (old(SortBySpecific(planner.exams)).Ok? ==> planner.exams == old(SortBySpecific(planner.exams)).value)
        && (old(SortBySpecific(planner.exams)) == Err(AttributeError) ==> planner.exams == old(planner.exams))
      ensures |planner.proctors| > 0 && old(ExamOrder(planner.exams)).Ok? ==>
        && err == None && planner.Valid() && planner.Configs() == old(planner.Configs())
        && planner.exams == old(ExamOrder(planner.exams)).value
        && (planner.blockKeys, planner.blocks) == GroupInto(old(planner.blockKeys), old(planner.blocks), planner.exams)
    {
      ghost var order, first := ExamOrder(planner.exams), SortBySpecific(planner.exams);
      err := planner.SetMinMaxDuties(TotalNeeded(planner.exams));
      if err.Some? {
        return;
      }
      ConfigsKept(planner);
      err := planner.SetBlocks(order, first);
    }

    /** The loop of `simulate`: trials `1` to `numberOfSimulations` from the state `start`. */
    method RunTrials(ghost cfgs: map<Exam, Job>, ghost start: Copy) returns (ghost passes: seq<Pass>, ghost trials: seq<Trial>)
      requires planner.Valid() && |planner.proctors| > 0 && ExamOrder(planner.exams) == Ok(planner.exams)
      requires cfgs == planner.Configs() && Mirrors(start)
      modifies this`results, planner`minDuties, planner`maxDuties, planner`exams, planner`blockKeys, planner`blocks
      modifies planner.proctors`unavailable, planner.proctors`duties, planner.exams`proctors
      ensures |trials| == (if numberOfSimulations < 0 then 0 else numberOfSimulations)
      ensures Chain(planner.proctors, cfgs, start, passes, trials)
      ensures results == Record(old(results), trials)
    {
      passes, trials := [], [];
      var recorded := results;
      var i := 1;
      while i <= numberOfSimulations
        invariant 1 <= i && |trials| == i - 1
        invariant i <= (if numberOfSimulations < 0 then 0 else numberOfSimulations) + 1
        invariant planner.Valid() && cfgs == planner.Configs() && planner.exams == old(planner.exams)
        invariant Mirrors(Last(start, trials))
        invariant Chain(planner.proctors, cfgs, start, passes, trials)
        invariant results == old(results) && recorded == Record(results, trials)
        decreases numberOfSimulations - i
      {
        var t;
        t, passes, trials := NextTrial(cfgs, start, passes, trials);
        RecordNext(results, trials[..i - 1], t);
        assert trials[..i - 1] + [t] == trials;
        recorded := recorded[i := t];
        i := i + 1;
      }
      results := recorded;
    }

    /** The copy `c` holds the planner's present state. */
    ghost predicate Mirrors(c: Copy)
      reads planner`exams, planner`blockKeys, planner`blocks, planner.exams`proctors
      reads planner.proctors`unavailable, planner.proctors`notPreferred, planner.proctors`duties
    {
      && c.exams == planner.exams && c.blockKeys == planner.blockKeys && c.blocks == planner.blocks
      && (forall e :: e in c.lists ==> e in planner.exams)
      && (forall e :: e in planner.exams ==> e in c.lists && e.proctors == c.lists[e])
      && c.roster == planner.View()
    }

    /** One turn of the loop of `simulate`: trial `i`, recorded under `i`. */
    method NextTrial(ghost cfgs: map<Exam, Job>, ghost start: Copy, ghost passes: seq<Pass>, ghost trials: seq<Trial>)
      returns (t: Trial, ghost passes': seq<Pass>, ghost trials': seq<Trial>)
      requires planner.Valid() && |planner.proctors| > 0 && ExamOrder(planner.exams) == Ok(planner.exams)
      requires cfgs == planner.Configs()
      requires Mirrors(Last(start, trials)) && Chain(planner.proctors, cfgs, start, passes, trials)
      modifies planner`minDuties, planner`maxDuties, planner`exams, planner`blockKeys, planner`blocks
      modifies planner.proctors`unavailable, planner.proctors`duties, planner.exams`proctors
      ensures planner.Valid() && cfgs == planner.Configs() && planner.exams == old(planner.exams)
      ensures trials' == trials + [t] && Mirrors(Last(start, trials'))
      ensures Chain(planner.proctors, cfgs, start, passes', trials')
    {
      ghost var pass;
      t, pass := RunTrial(cfgs, Last(start, trials));
      assert Mirrors(t.state);
      LastAppend(start, trials, t);
      ChainExtend(planner.proctors, cfgs, start, passes, trials, pass, t);
      passes', trials' := passes + [pass], trials + [t];
    }
  }
}

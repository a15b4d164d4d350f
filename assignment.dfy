/**
 * The assignment step of the planner (src/scheduler/planner.py) stated over
 * values: the state of every proctor is a `ProctorState`, the exams still
 * to be processed are `Job`s, and the random picks of each exam are an
 * explicit parameter. `Planning.Planner` is proved to follow this model; the
 * properties of one scheduling pass are lemmas here.
 */
module Assignment {
  import opened Outcomes
  import opened ExamProctor

  /** The mutable part of a proctor. */
  datatype ProctorState = ProctorState(unavailable: seq<string>, notPreferred: seq<string>, duties: seq<Exam>)

  type Roster = map<Proctor, ProctorState>

  /** An exam to be staffed, with the configuration the planner reads from it. */
  datatype Job = Job(exam: Exam, need: int, specific: Option<Specific>)

  predicate Covers(r: Roster, ps: seq<Proctor>) {
    forall p :: p in ps ==> p in r
  }

  /** Every exam of the worklist has a course code, so its PhD test cannot raise. */
  predicate AllCoded(jobs: seq<Job>) {
    forall j :: 0 <= j < |jobs| ==> HasCourseCode(jobs[j].exam.title)
  }

  /**
   * The specific-proctor test of the planner, `proctor.name == stored`: a
   * name equals a text with the same characters and never a proctor object.
   */
  predicate NameEquals(name: string, stored: Specific) {
    stored.ByText? && stored.text == name
  }

  function NeedsPhd(job: Job): bool
    requires HasCourseCode(job.exam.title)
  {
    RequiresPhdProctor(job.exam.title).value
  }

  /**
   * What one iteration of the proctor loop of `get_available_proctors` appends
   * for proctor `p` in state `st`: nothing, `p`, or `p` twice (once for a
   * matching name and once more for the PhD or general case).
   */
  function Verdict(p: Proctor, st: ProctorState, job: Job, allConstraints: bool, maxDuties: int): seq<Proctor>
    requires HasCourseCode(job.exam.title)
  {
    if |st.duties| > maxDuties then []
    else
      var constraints := (if allConstraints then st.unavailable + st.notPreferred else st.unavailable)
                         + BlocksOf(st.duties);
      if job.exam.Block() in constraints then []
      else if job.specific.Some? && !NameEquals(p.name, job.specific.value) then []
      else
        (if job.specific.Some? then [p] else [])
        + (if NeedsPhd(job) then (if p.proctorClass == 3 then [p] else []) else [p])
  }

  /** The eligibility rules as one condition. */
  predicate Qualifies(p: Proctor, st: ProctorState, job: Job, allConstraints: bool, maxDuties: int)
    requires HasCourseCode(job.exam.title)
  {
    && |st.duties| <= maxDuties
    && job.exam.Block() !in st.unavailable
    && job.exam.Block() !in BlocksOf(st.duties)
    && (allConstraints ==> job.exam.Block() !in st.notPreferred)
    && (job.specific.Some? ==> NameEquals(p.name, job.specific.value))
    && (job.specific.None? && NeedsPhd(job) ==> p.proctorClass == 3)
  }

  /**
   * A proctor is appended exactly when it passes every rule; it is appended
   * twice exactly when a required name matches and the PhD rule would have
   * admitted it as well.
   */
  lemma VerdictQualifies(p: Proctor, st: ProctorState, job: Job, allConstraints: bool, maxDuties: int)
    requires HasCourseCode(job.exam.title)
    ensures forall q :: q in Verdict(p, st, job, allConstraints, maxDuties) ==> q == p
    ensures p in Verdict(p, st, job, allConstraints, maxDuties) <==> Qualifies(p, st, job, allConstraints, maxDuties)
    ensures |Verdict(p, st, job, allConstraints, maxDuties)| == 2 <==>
      Qualifies(p, st, job, allConstraints, maxDuties) && job.specific.Some? && (!NeedsPhd(job) || p.proctorClass == 3)
    ensures |Verdict(p, st, job, allConstraints, maxDuties)| <= 2
  {
  }

  /** The list `get_available_proctors` returns for the proctors `ps` in roster `r`. */
  function Available(ps: seq<Proctor>, r: Roster, job: Job, allConstraints: bool, maxDuties: int): (a: seq<Proctor>)
    requires Covers(r, ps) && HasCourseCode(job.exam.title)
    ensures forall q :: q in a ==> q in ps
  {
    if ps == [] then []
    else
      var p := ps[|ps| - 1];
      VerdictQualifies(p, r[p], job, allConstraints, maxDuties);
      Available(ps[..|ps| - 1], r, job, allConstraints, maxDuties) + Verdict(p, r[p], job, allConstraints, maxDuties)
  }

  /** `get_available_proctors` returns exactly the listed proctors that pass every rule. */
  lemma {:induction false} AvailableExactly(ps: seq<Proctor>, r: Roster, job: Job, allConstraints: bool, maxDuties: int, q: Proctor)
    requires Covers(r, ps) && HasCourseCode(job.exam.title)
    ensures q in Available(ps, r, job, allConstraints, maxDuties) <==> q in ps && Qualifies(q, r[q], job, allConstraints, maxDuties)
  {
    if ps != [] {
      var p := ps[|ps| - 1];
      AvailableExactly(ps[..|ps| - 1], r, job, allConstraints, maxDuties, q);
      VerdictQualifies(p, r[p], job, allConstraints, maxDuties);
      assert ps == ps[..|ps| - 1] + [p];
    }
  }

  /** The scan over one more proctor appends that proctor's verdict. */
  lemma AvailableStep(ps: seq<Proctor>, i: nat, r: Roster, job: Job, allConstraints: bool, maxDuties: int)
    requires i < |ps| && Covers(r, ps) && HasCourseCode(job.exam.title)
    ensures Available(ps[..i + 1], r, job, allConstraints, maxDuties)
            == Available(ps[..i], r, job, allConstraints, maxDuties) + Verdict(ps[i], r[ps[i]], job, allConstraints, maxDuties)
  {
    assert ps[..i + 1][..i] == ps[..i];
  }

  /** Relaxing only drops the soft constraint: the strict pool lies inside the relaxed one. */
  lemma StrictWithinRelaxed(ps: seq<Proctor>, r: Roster, job: Job, maxDuties: int, q: Proctor)
    requires Covers(r, ps) && HasCourseCode(job.exam.title)
    requires q in Available(ps, r, job, true, maxDuties)
    ensures q in Available(ps, r, job, false, maxDuties)
  {
    AvailableExactly(ps, r, job, true, maxDuties, q);
    AvailableExactly(ps, r, job, false, maxDuties, q);
  }

  /**
   * The relaxed pass of `get_available_proctors` extends the very list
   * `proctor.unavailable` by the blocks of the proctor's duties, for every
   * proctor it does not skip for capacity.
   */
  function Extend(st: ProctorState, maxDuties: int): ProctorState {
    if |st.duties| <= maxDuties then st.(unavailable := st.unavailable + BlocksOf(st.duties)) else st
  }

  function Relax(ps: seq<Proctor>, r: Roster, maxDuties: int): (r': Roster)
    ensures r'.Keys == r.Keys
  {
    map p | p in r :: if p in ps then Extend(r[p], maxDuties) else r[p]
  }

  /** The proctors of `pool` that are still below the minimum duty count. */
  function BelowMin(pool: seq<Proctor>, r: Roster, minDuties: int): (b: seq<Proctor>)
    requires Covers(r, pool)
    ensures forall q :: q in b ==> q in pool && |r[q].duties| < minDuties
    ensures forall q :: q in pool && |r[q].duties| < minDuties ==> q in b
  {
    if pool == [] then []
    else
      var q := pool[|pool| - 1];
      BelowMin(pool[..|pool| - 1], r, minDuties) + (if |r[q].duties| < minDuties then [q] else [])
  }

  /**
   * The decisions made for one exam before any pick: whether the soft
   * constraints were dropped, the pool of available proctors, the list the
   * picks are drawn from, and the roster after the availability scans.
   */
  datatype Plan = Plan(relaxed: bool, pool: seq<Proctor>, selectFrom: seq<Proctor>, after: Roster)

  function PlanFor(ps: seq<Proctor>, r: Roster, job: Job, minDuties: int, maxDuties: int): (plan: Plan)
    requires Covers(r, ps) && HasCourseCode(job.exam.title)
    ensures plan.after.Keys == r.Keys
  {
    var strict := Available(ps, r, job, true, maxDuties);
    var relaxed := |strict| < job.need;
    var pool := if relaxed then Available(ps, r, job, false, maxDuties) else strict;
    var below := BelowMin(pool, r, minDuties);
    Plan(relaxed, pool, if |below| >= job.need then below else pool, if relaxed then Relax(ps, r, maxDuties) else r)
  }

  /** The picks are drawn from the pool, and the pool holds only listed proctors. */
  lemma PlanForPools(ps: seq<Proctor>, r: Roster, job: Job, minDuties: int, maxDuties: int)
    requires Covers(r, ps) && HasCourseCode(job.exam.title)
    ensures var plan := PlanFor(ps, r, job, minDuties, maxDuties);
      && (forall q :: q in plan.selectFrom ==> q in plan.pool)
      && (forall q :: q in plan.pool ==> q in ps)
  {
  }

  /** Two rosters agreeing on the duties of a pool agree on who in it is below the minimum. */
  lemma {:induction false} BelowMinSameDuties(pool: seq<Proctor>, r: Roster, r': Roster, minDuties: int)
    requires Covers(r, pool) && Covers(r', pool)
    requires forall q :: q in pool ==> r[q].duties == r'[q].duties
    ensures BelowMin(pool, r, minDuties) == BelowMin(pool, r', minDuties)
  {
    if pool != [] {
      BelowMinSameDuties(pool[..|pool| - 1], r, r', minDuties);
    }
  }

  /**
   * The scans leave every duty list as it was, so the proctors below the
   * minimum can as well be counted in the roster after the scans.
   */
  lemma SelectAfterScan(plan: Plan, ps: seq<Proctor>, r: Roster, job: Job, minDuties: int, maxDuties: int)
    requires Covers(r, ps) && HasCourseCode(job.exam.title)
    requires plan == PlanFor(ps, r, job, minDuties, maxDuties)
    ensures Covers(plan.after, plan.pool)
    ensures var below := BelowMin(plan.pool, plan.after, minDuties);
            plan.selectFrom == if |below| >= job.need then below else plan.pool
  {
    forall q | q in plan.pool ensures plan.after[q].duties == r[q].duties {
      ScanEffect(ps, r, job, minDuties, maxDuties, q);
    }
    BelowMinSameDuties(plan.pool, r, plan.after, minDuties);
  }

  /** `random.choices(select_from, k=need)`: `need` draws with replacement. */
  predicate LegalPicks(picks: seq<Proctor>, selectFrom: seq<Proctor>, need: int) {
    |picks| == Max0(need) && forall q :: q in picks ==> q in selectFrom
  }

  /** `n` copies of `x`. */
  function Copies<T>(x: T, n: nat): (s: seq<T>)
    ensures |s| == n && forall i :: 0 <= i < n ==> s[i] == x
  {
    if n == 0 then [] else Copies(x, n - 1) + [x]
  }

  function Count<T(==)>(s: seq<T>, x: T): nat {
    if s == [] then 0 else Count(s[..|s| - 1], x) + (if s[|s| - 1] == x then 1 else 0)
  }

  /** Each pick in turn appends the exam to the chosen proctor's duties. */
  function Assign(r: Roster, exam: Exam, picks: seq<Proctor>): (r': Roster)
    ensures r'.Keys == r.Keys
  {
    if picks == [] then r
    else
      var s := Assign(r, exam, picks[..|picks| - 1]);
      var q := picks[|picks| - 1];
      if q in s then s[q := s[q].(duties := s[q].duties + [exam])] else s
  }

  /** A proctor picked `n` times gains `n` copies of the exam, and nothing else changes. */
  lemma {:induction false} AssignEffect(r: Roster, exam: Exam, picks: seq<Proctor>, q: Proctor)
    requires q in r
    ensures Assign(r, exam, picks)[q] == r[q].(duties := r[q].duties + Copies(exam, Count(picks, q)))
  {
    if picks != [] {
      AssignEffect(r, exam, picks[..|picks| - 1], q);
    }
  }

  /** The roster after the first `|picks|` jobs were staffed with `picks`. */
  function RunRoster(ps: seq<Proctor>, jobs: seq<Job>, minDuties: int, maxDuties: int, r0: Roster, picks: seq<seq<Proctor>>): (r: Roster)
    requires Covers(r0, ps) && AllCoded(jobs) && |picks| <= |jobs|
    ensures r.Keys == r0.Keys
    decreases |picks|
  {
    if picks == [] then r0
    else
      var j := |picks| - 1;
      var r := RunRoster(ps, jobs, minDuties, maxDuties, r0, picks[..j]);
      Assign(PlanFor(ps, r, jobs[j], minDuties, maxDuties).after, jobs[j].exam, picks[j])
  }

  /** The plan for job `j` after the jobs before it were staffed with `picks[..j]`. */
  function PlanAt(ps: seq<Proctor>, jobs: seq<Job>, minDuties: int, maxDuties: int, r0: Roster, picks: seq<seq<Proctor>>, j: int): Plan
    requires Covers(r0, ps) && AllCoded(jobs) && 0 <= j < |jobs| && j <= |picks|
  {
    PlanFor(ps, RunRoster(ps, jobs, minDuties, maxDuties, r0, picks[..j]), jobs[j], minDuties, maxDuties)
  }

  /** The plan for the next job is made in the roster the run has reached. */
  lemma PlanAtNext(ps: seq<Proctor>, jobs: seq<Job>, minDuties: int, maxDuties: int, r0: Roster, picks: seq<seq<Proctor>>)
    requires Covers(r0, ps) && AllCoded(jobs) && |picks| < |jobs|
    ensures PlanAt(ps, jobs, minDuties, maxDuties, r0, picks, |picks|)
            == PlanFor(ps, RunRoster(ps, jobs, minDuties, maxDuties, r0, picks), jobs[|picks|], minDuties, maxDuties)
  {
    assert picks[..|picks|] == picks;
  }

  /** Job `job` had a large enough pool and drew exactly its need from its selection list. */
  predicate StepOk(plan: Plan, job: Job, drawn: seq<Proctor>) {
    |plan.pool| >= job.need && LegalPicks(drawn, plan.selectFrom, job.need)
  }

  /**
   * `picks` is a possible outcome of the random draws for the first `|picks|`
   * jobs: the earlier picks form a legal run and the last step was legal in
   * the roster they left.
   */
  ghost predicate LegalRun(ps: seq<Proctor>, jobs: seq<Job>, minDuties: int, maxDuties: int, r0: Roster, picks: seq<seq<Proctor>>)
    requires Covers(r0, ps) && AllCoded(jobs)
    decreases |picks|
  {
    && |picks| <= |jobs|
    && (picks != [] ==>
         var j := |picks| - 1;
         && LegalRun(ps, jobs, minDuties, maxDuties, r0, picks[..j])
         && StepOk(PlanAt(ps, jobs, minDuties, maxDuties, r0, picks, j), jobs[j], picks[j]))
  }

  /** In a legal run every step was legal in the roster the steps before it left. */
  lemma {:induction false} LegalRunAt(ps: seq<Proctor>, jobs: seq<Job>, minDuties: int, maxDuties: int, r0: Roster, picks: seq<seq<Proctor>>, j: nat)
    requires Covers(r0, ps) && AllCoded(jobs) && LegalRun(ps, jobs, minDuties, maxDuties, r0, picks)
    requires j < |picks|
    ensures StepOk(PlanAt(ps, jobs, minDuties, maxDuties, r0, picks, j), jobs[j], picks[j])
    decreases |picks|
  {
    var n := |picks| - 1;
    assert LegalRun(ps, jobs, minDuties, maxDuties, r0, picks[..n]);
    if j == n {
      assert StepOk(PlanAt(ps, jobs, minDuties, maxDuties, r0, picks, n), jobs[n], picks[n]);
    } else {
      LegalRunAt(ps, jobs, minDuties, maxDuties, r0, picks[..n], j);
      PlanAtPrefix(ps, jobs, minDuties, maxDuties, r0, picks, n, j);
    }
  }

  /** The plan for job `j` depends on the picks before `j` only. */
  lemma PlanAtPrefix(ps: seq<Proctor>, jobs: seq<Job>, minDuties: int, maxDuties: int, r0: Roster, picks: seq<seq<Proctor>>, n: nat, j: nat)
    requires Covers(r0, ps) && AllCoded(jobs) && j <= n <= |picks| && j < |jobs|
    ensures PlanAt(ps, jobs, minDuties, maxDuties, r0, picks[..n], j) == PlanAt(ps, jobs, minDuties, maxDuties, r0, picks, j)
  {
    assert picks[..n][..j] == picks[..j];
  }

  /** Staffing one more job extends the roster of the run by that job's assignment. */
  lemma RunExtend(ps: seq<Proctor>, jobs: seq<Job>, minDuties: int, maxDuties: int, r0: Roster, picks: seq<seq<Proctor>>, drawn: seq<Proctor>)
    requires Covers(r0, ps) && AllCoded(jobs) && |picks| < |jobs|
    ensures RunRoster(ps, jobs, minDuties, maxDuties, r0, picks + [drawn])
            == Assign(PlanAt(ps, jobs, minDuties, maxDuties, r0, picks, |picks|).after, jobs[|picks|].exam, drawn)
  {
    var picks' := picks + [drawn];
    RunRosterLast(ps, jobs, minDuties, maxDuties, r0, picks');
    PlanAtNext(ps, jobs, minDuties, maxDuties, r0, picks);
    assert picks'[..|picks'| - 1] == picks && picks'[|picks'| - 1] == drawn;
  }

  /** A legal run followed by a legal step for the next job is a legal run. */
  lemma LegalExtend(ps: seq<Proctor>, jobs: seq<Job>, minDuties: int, maxDuties: int, r0: Roster, picks: seq<seq<Proctor>>, drawn: seq<Proctor>)
    requires Covers(r0, ps) && AllCoded(jobs) && |picks| < |jobs|
    requires LegalRun(ps, jobs, minDuties, maxDuties, r0, picks)
    requires StepOk(PlanAt(ps, jobs, minDuties, maxDuties, r0, picks, |picks|), jobs[|picks|], drawn)
    ensures LegalRun(ps, jobs, minDuties, maxDuties, r0, picks + [drawn])
  {
    assert (picks + [drawn])[..|picks|] == picks == picks[..|picks|];
    assert PlanAt(ps, jobs, minDuties, maxDuties, r0, picks + [drawn], |picks|) == PlanAt(ps, jobs, minDuties, maxDuties, r0, picks, |picks|);
  }

  /** The roster once `schedule` stops: after the last staffed job, or after the relaxed scan of the job it gave up on. */
  function FinalRoster(ps: seq<Proctor>, jobs: seq<Job>, minDuties: int, maxDuties: int, r0: Roster, picks: seq<seq<Proctor>>): Roster
    requires Covers(r0, ps) && AllCoded(jobs) && |picks| <= |jobs|
  {
    if |picks| == |jobs| then RunRoster(ps, jobs, minDuties, maxDuties, r0, picks)
    else PlanAt(ps, jobs, minDuties, maxDuties, r0, picks, |picks|).after
  }

  /**
   * How one pass of `schedule` over `jobs` from the roster `r0` ended: the
   * picks are a legal run, the pass completed exactly when every job was
   * staffed, an incomplete pass stopped at a job whose pool is smaller than
   * its need, and `final` is the roster the pass leaves.
   */
  ghost predicate PassEnded(ps: seq<Proctor>, jobs: seq<Job>, minDuties: int, maxDuties: int, r0: Roster,
                            picks: seq<seq<Proctor>>, completed: bool, final: Roster)
  {
    && Covers(r0, ps) && AllCoded(jobs) && |picks| <= |jobs|
    && LegalRun(ps, jobs, minDuties, maxDuties, r0, picks)
    && (completed <==> |picks| == |jobs|)
    && (!completed ==> |PlanAt(ps, jobs, minDuties, maxDuties, r0, picks, |picks|).pool| < jobs[|picks|].need)
    && final == FinalRoster(ps, jobs, minDuties, maxDuties, r0, picks)
  }

  /** The proctors appended to `exam.proctors`, over all jobs of that exam. */
  function ExamPicks(jobs: seq<Job>, picks: seq<seq<Proctor>>, exam: Exam): seq<Proctor>
    requires |picks| <= |jobs|
  {
    if picks == [] then []
    else
      var j := |picks| - 1;
      ExamPicks(jobs, picks[..j], exam) + (if jobs[j].exam == exam then picks[j] else [])
  }

  /** Every exam's proctor list in `lists0` followed by the picks of its jobs. */
  ghost function ListsAfter(lists0: map<Exam, seq<Proctor>>, jobs: seq<Job>, picks: seq<seq<Proctor>>): (m: map<Exam, seq<Proctor>>)
    requires |picks| <= |jobs|
    ensures m.Keys == lists0.Keys
  {
    map e | e in lists0 :: lists0[e] + ExamPicks(jobs, picks, e)
  }

  /** The exams appended to `proctor.duties`, in order. */
  function DutiesFrom(jobs: seq<Job>, picks: seq<seq<Proctor>>, q: Proctor): seq<Exam>
    requires |picks| <= |jobs|
  {
    if picks == [] then []
    else
      var j := |picks| - 1;
      DutiesFrom(jobs, picks[..j], q) + Copies(jobs[j].exam, Count(picks[j], q))
  }

  /** The availability scans change only hard constraints, and only by extending them. */
  lemma ScanEffect(ps: seq<Proctor>, r: Roster, job: Job, minDuties: int, maxDuties: int, q: Proctor)
    requires Covers(r, ps) && HasCourseCode(job.exam.title) && q in r
    ensures PlanFor(ps, r, job, minDuties, maxDuties).after[q].duties == r[q].duties
    ensures PlanFor(ps, r, job, minDuties, maxDuties).after[q].notPreferred == r[q].notPreferred
    ensures r[q].unavailable <= PlanFor(ps, r, job, minDuties, maxDuties).after[q].unavailable
  {
  }

  /** One staffed job: the picked proctor gains the exam once per pick, and only hard constraints grow. */
  lemma StepShape(ps: seq<Proctor>, r: Roster, job: Job, minDuties: int, maxDuties: int, drawn: seq<Proctor>, q: Proctor)
    requires Covers(r, ps) && HasCourseCode(job.exam.title) && q in r
    ensures Assign(PlanFor(ps, r, job, minDuties, maxDuties).after, job.exam, drawn)[q].duties
            == r[q].duties + Copies(job.exam, Count(drawn, q))
    ensures Assign(PlanFor(ps, r, job, minDuties, maxDuties).after, job.exam, drawn)[q].notPreferred == r[q].notPreferred
    ensures r[q].unavailable <= Assign(PlanFor(ps, r, job, minDuties, maxDuties).after, job.exam, drawn)[q].unavailable
  {
    var after := PlanFor(ps, r, job, minDuties, maxDuties).after;
    ScanEffect(ps, r, job, minDuties, maxDuties, q);
    AssignEffect(after, job.exam, drawn, q);
  }

  /** The last job of a run, seen from the roster before it. */
  lemma RunStep(ps: seq<Proctor>, jobs: seq<Job>, minDuties: int, maxDuties: int, r0: Roster, picks: seq<seq<Proctor>>, q: Proctor)
    requires Covers(r0, ps) && AllCoded(jobs) && 0 < |picks| <= |jobs| && q in r0
    ensures RunRoster(ps, jobs, minDuties, maxDuties, r0, picks)[q].duties
            == RunRoster(ps, jobs, minDuties, maxDuties, r0, picks[..|picks| - 1])[q].duties
               + Copies(jobs[|picks| - 1].exam, Count(picks[|picks| - 1], q))
    ensures RunRoster(ps, jobs, minDuties, maxDuties, r0, picks)[q].notPreferred
            == RunRoster(ps, jobs, minDuties, maxDuties, r0, picks[..|picks| - 1])[q].notPreferred
    ensures RunRoster(ps, jobs, minDuties, maxDuties, r0, picks[..|picks| - 1])[q].unavailable
            <= RunRoster(ps, jobs, minDuties, maxDuties, r0, picks)[q].unavailable
  {
    RunRosterLast(ps, jobs, minDuties, maxDuties, r0, picks);
    StepShape(ps, RunRoster(ps, jobs, minDuties, maxDuties, r0, picks[..|picks| - 1]), jobs[|picks| - 1],
              minDuties, maxDuties, picks[|picks| - 1], q);
  }

  /** The roster after a run is the one after its last job, staffed from the roster before it. */
  lemma RunRosterLast(ps: seq<Proctor>, jobs: seq<Job>, minDuties: int, maxDuties: int, r0: Roster, picks: seq<seq<Proctor>>)
    requires Covers(r0, ps) && AllCoded(jobs) && 0 < |picks| <= |jobs|
    ensures RunRoster(ps, jobs, minDuties, maxDuties, r0, picks)
            == Assign(PlanFor(ps, RunRoster(ps, jobs, minDuties, maxDuties, r0, picks[..|picks| - 1]), jobs[|picks| - 1],
                              minDuties, maxDuties).after, jobs[|picks| - 1].exam, picks[|picks| - 1])
  {
  }

  /** Along a run every proctor's duties are its initial duties followed by the exams it was picked for. */
  lemma {:induction false} RunDuties(ps: seq<Proctor>, jobs: seq<Job>, minDuties: int, maxDuties: int, r0: Roster, picks: seq<seq<Proctor>>, q: Proctor)
    requires Covers(r0, ps) && AllCoded(jobs) && |picks| <= |jobs| && q in r0
    ensures RunRoster(ps, jobs, minDuties, maxDuties, r0, picks)[q].duties == r0[q].duties + DutiesFrom(jobs, picks, q)
    decreases |picks|
  {
    if picks != [] {
      var j := |picks| - 1;
      RunDuties(ps, jobs, minDuties, maxDuties, r0, picks[..j], q);
      RunStep(ps, jobs, minDuties, maxDuties, r0, picks, q);
      assert DutiesFrom(jobs, picks, q) == DutiesFrom(jobs, picks[..j], q) + Copies(jobs[j].exam, Count(picks[j], q));
    }
  }

  /** Along a run no proctor's soft constraints change. */
  lemma {:induction false} RunKeepsSoft(ps: seq<Proctor>, jobs: seq<Job>, minDuties: int, maxDuties: int, r0: Roster, picks: seq<seq<Proctor>>, q: Proctor)
    requires Covers(r0, ps) && AllCoded(jobs) && |picks| <= |jobs| && q in r0
    ensures RunRoster(ps, jobs, minDuties, maxDuties, r0, picks)[q].notPreferred == r0[q].notPreferred
    decreases |picks|
  {
    if picks != [] {
      RunKeepsSoft(ps, jobs, minDuties, maxDuties, r0, picks[..|picks| - 1], q);
      RunStep(ps, jobs, minDuties, maxDuties, r0, picks, q);
    }
  }

  /** Along a run a proctor's hard constraints only grow at the end. */
  lemma {:induction false} RunGrowsHard(ps: seq<Proctor>, jobs: seq<Job>, minDuties: int, maxDuties: int, r0: Roster, picks: seq<seq<Proctor>>, q: Proctor)
    requires Covers(r0, ps) && AllCoded(jobs) && |picks| <= |jobs| && q in r0
    ensures r0[q].unavailable <= RunRoster(ps, jobs, minDuties, maxDuties, r0, picks)[q].unavailable
    decreases |picks|
  {
    if picks != [] {
      RunGrowsHard(ps, jobs, minDuties, maxDuties, r0, picks[..|picks| - 1], q);
      RunStep(ps, jobs, minDuties, maxDuties, r0, picks, q);
    }
  }

  /**
   * Every proctor picked for job `j` was, at that moment, a listed proctor
   * passing the relaxed rules: at most `maxDuties` duties, the exam's block
   * neither unavailable to it nor among the blocks of its duties, the
   * required name if one is required, and class 3 if the exam needs a PhD
   * proctor and requires no one in particular.
   */
  lemma PicksQualify(ps: seq<Proctor>, jobs: seq<Job>, minDuties: int, maxDuties: int, r0: Roster, picks: seq<seq<Proctor>>, j: nat, q: Proctor)
    requires Covers(r0, ps) && AllCoded(jobs) && LegalRun(ps, jobs, minDuties, maxDuties, r0, picks)
    requires j < |picks| && q in picks[j]
    ensures q in ps
    ensures Qualifies(q, RunRoster(ps, jobs, minDuties, maxDuties, r0, picks[..j])[q], jobs[j], false, maxDuties)
  {
    LegalRunAt(ps, jobs, minDuties, maxDuties, r0, picks, j);
    var r := RunRoster(ps, jobs, minDuties, maxDuties, r0, picks[..j]);
    var plan := PlanFor(ps, r, jobs[j], minDuties, maxDuties);
    assert q in plan.pool;
    if plan.relaxed {
      AvailableExactly(ps, r, jobs[j], false, maxDuties, q);
    } else {
      StrictWithinRelaxed(ps, r, jobs[j], maxDuties, q);
      AvailableExactly(ps, r, jobs[j], false, maxDuties, q);
    }
  }

  /**
   * The hard constraint holds over a whole run: nobody is picked for an exam
   * whose block was in their `unavailable` list when the run began, nor for
   * one whose block is that of a duty they held before the exam's turn.
   */
  lemma NeverUnavailable(ps: seq<Proctor>, jobs: seq<Job>, minDuties: int, maxDuties: int, r0: Roster, picks: seq<seq<Proctor>>, j: nat, q: Proctor)
    requires Covers(r0, ps) && AllCoded(jobs) && LegalRun(ps, jobs, minDuties, maxDuties, r0, picks)
    requires j < |picks| && q in picks[j]
    ensures q in r0 && jobs[j].exam.Block() !in r0[q].unavailable
    ensures jobs[j].exam.Block() !in BlocksOf(r0[q].duties + DutiesFrom(jobs, picks[..j], q))
  {
    PicksQualify(ps, jobs, minDuties, maxDuties, r0, picks, j, q);
    RunDuties(ps, jobs, minDuties, maxDuties, r0, picks[..j], q);
    RunGrowsHard(ps, jobs, minDuties, maxDuties, r0, picks[..j], q);
    var u := RunRoster(ps, jobs, minDuties, maxDuties, r0, picks[..j])[q].unavailable;
    assert r0[q].unavailable == u[..|r0[q].unavailable|];
  }

  /**
   * When at least `need` proctors of the pool are below `minDuties`, every
   * pick of that job comes from them.
   */
  lemma PrefersBelowMinimum(ps: seq<Proctor>, jobs: seq<Job>, minDuties: int, maxDuties: int, r0: Roster, picks: seq<seq<Proctor>>, j: nat, q: Proctor)
    requires Covers(r0, ps) && AllCoded(jobs) && LegalRun(ps, jobs, minDuties, maxDuties, r0, picks)
    requires j < |picks| && q in picks[j]
    requires var r := RunRoster(ps, jobs, minDuties, maxDuties, r0, picks[..j]);
             |BelowMin(PlanFor(ps, r, jobs[j], minDuties, maxDuties).pool, r, minDuties)| >= jobs[j].need
    ensures q in r0 && |r0[q].duties + DutiesFrom(jobs, picks[..j], q)| < minDuties
  {
    PicksQualify(ps, jobs, minDuties, maxDuties, r0, picks, j, q);
    LegalRunAt(ps, jobs, minDuties, maxDuties, r0, picks, j);
    var r := RunRoster(ps, jobs, minDuties, maxDuties, r0, picks[..j]);
    var plan := PlanFor(ps, r, jobs[j], minDuties, maxDuties);
    assert q in plan.selectFrom && plan.selectFrom == BelowMin(plan.pool, r, minDuties);
    RunDuties(ps, jobs, minDuties, maxDuties, r0, picks[..j], q);
  }

  lemma CountAppend<T>(s: seq<T>, t: seq<T>, x: T)
    ensures Count(s + t, x) == Count(s, x) + Count(t, x)
    decreases |t|
  {
    if t != [] {
      assert (s + t)[..|s + t| - 1] == s + t[..|t| - 1];
      CountAppend(s, t[..|t| - 1], x);
    } else {
      assert s + t == s;
    }
  }

  lemma CountCopies<T>(x: T, n: nat, y: T)
    ensures Count(Copies(x, n), y) == if x == y then n else 0
  {
    if n > 0 {
      assert Copies(x, n)[..n - 1] == Copies(x, n - 1);
    }
  }

  /**
   * Exam and proctor lists stay paired: over any run, proctor `q` appears in
   * the list appended to `exam.proctors` as often as `exam` appears in the
   * list appended to `q.duties`.
   */
  lemma {:induction false} PicksPaired(jobs: seq<Job>, picks: seq<seq<Proctor>>, exam: Exam, q: Proctor)
    requires |picks| <= |jobs|
    ensures Count(ExamPicks(jobs, picks, exam), q) == Count(DutiesFrom(jobs, picks, q), exam)
    decreases |picks|
  {
    if picks != [] {
      var j := |picks| - 1;
      PicksPaired(jobs, picks[..j], exam, q);
      CountAppend(ExamPicks(jobs, picks[..j], exam), if jobs[j].exam == exam then picks[j] else [], q);
      CountAppend(DutiesFrom(jobs, picks[..j], q), Copies(jobs[j].exam, Count(picks[j], q)), exam);
      CountCopies(jobs[j].exam, Count(picks[j], q), exam);
      assert Count(picks[j][..0], q) == 0;
    }
  }

  /** An exam with no job among the staffed ones gains no proctor. */
  lemma {:induction false} UnstaffedUntouched(jobs: seq<Job>, picks: seq<seq<Proctor>>, exam: Exam)
    requires |picks| <= |jobs|
    requires forall j :: 0 <= j < |picks| ==> jobs[j].exam != exam
    ensures ExamPicks(jobs, picks, exam) == []
    decreases |picks|
  {
    if picks != [] {
      UnstaffedUntouched(jobs, picks[..|picks| - 1], exam);
    }
  }

  /** Staffing one more job adds its picks to the list of that job's exam only. */
  lemma ExamPicksStep(jobs: seq<Job>, picks: seq<seq<Proctor>>, drawn: seq<Proctor>, exam: Exam)
    requires |picks| < |jobs|
    ensures ExamPicks(jobs, picks + [drawn], exam)
            == ExamPicks(jobs, picks, exam) + (if jobs[|picks|].exam == exam then drawn else [])
  {
    assert (picks + [drawn])[..|picks|] == picks;
  }
}

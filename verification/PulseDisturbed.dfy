/** A run directory whose recorded product changes behind a recorded origin: the log of the `build` result is
    intact when qualification/release/qualify.py checks it before the loop (lines 459-466), and damaged when
    a scan comes to it (lines 531-540). The whole story, from an empty run directory on, by the scheduler's own
    runs. */
module PulseDisturbed {
  import opened Basics
  import opened PulseBinding
  import opened Invocations
  import opened InvocationTraces
  import G = Signatures
  import S = Scheduler
  import Safety = SchedulerSafety
  import R = SchedulerRuns
  import L = SchedulerLedger
  import P = SchedulerPlans

  /** A discovery matrix in which Pulse measures what `build` has built. */
  ghost predicate Measuring(cfg: S.Config) {
    && S.GoodConfig(cfg) && !cfg.final && cfg.context.product == ""
    && G.BUILD in cfg.context.jobs && PULSE in cfg.context.jobs && G.BUILD in S.Deps(cfg, PULSE)
    && !S.JobOf(cfg, G.BUILD).alwaysRun
  }

  /** The configuration of an invocation that finds the product installed. */
  function Finding(cfg: S.Config, product: string): S.Config {
    cfg.(context := G.WithProduct(cfg.context, product))
  }

  lemma FindingGood(cfg: S.Config, product: string)
    requires S.GoodConfig(cfg)
    ensures S.GoodConfig(Finding(cfg, product))
  {
    var found := Finding(cfg, product);
    forall other
      ensures S.SignsRight(found, other) && found.sign(other).Keys == found.context.jobs.Keys
    {
      assert S.SignsRight(cfg, other);
      assert G.WithProduct(found.context, other) == G.WithProduct(cfg.context, other);
    }
    forall n | n in found.context.jobs
      ensures S.GoodJob(found, n)
    {
      assert S.GoodJob(cfg, n);
    }
  }

  // ----- The first run of the jobs -----

  /** Everything passes but Pulse, and the product `p` is installed. */
  function FirstPlan(p: string): P.Plan {
    P.Plan(r => true, n => n != PULSE, n => n, n => 1, p)
  }

  /** Nothing is found changed behind the loop. */
  function Quiet(p: string): R.World {
    R.World(true, p, true, r => true, map[], product => map[])
  }

  ghost function FirstTicks(cfg: S.Config, p: string): seq<S.Tick>
    requires S.GoodConfig(cfg)
  {
    P.Planned(cfg, S.Initial(cfg, map[], None), FirstPlan(p), FirstFuel(cfg))
  }

  ghost function FirstFuel(cfg: S.Config): (fuel: nat)
    requires S.GoodConfig(cfg)
    ensures fuel > Safety.Measure(S.Initial(cfg, map[], None))
  {
    Safety.Measure(S.Initial(cfg, map[], None)) + 1
  }

  lemma NothingHinders(cfg: S.Config, p: string)
    requires Measuring(cfg) && R.Usable(cfg)
    ensures P.Unhindered(cfg, FirstPlan(p), G.BUILD) && P.Unhindered(cfg, FirstPlan(p), PULSE)
  {
    assert R.Below(cfg, PULSE, G.BUILD);
  }

  /** What the run of the jobs leaves: a passed `build` and a failed `pulse_report`. */
  ghost predicate Measured(cfg: S.Config, p: string, results: map<string, S.JobResult>) {
    && G.BUILD in results && PULSE in results && G.BUILD in cfg.sign(p)
    && results[G.BUILD] == S.JobResult(S.Pass, cfg.head, Some(cfg.sign(p)[G.BUILD]), Some(G.BUILD), 1)
    && results[PULSE].status == S.Fail && results[PULSE].log.Some? && results[PULSE].attempt == 1
  }

  ghost function FirstEnd(cfg: S.Config, p: string): S.Phase
    requires S.GoodConfig(cfg)
  {
    R.Run(cfg, S.Initial(cfg, map[], None), FirstTicks(cfg, p))
  }

  lemma FirstIsPlanned(cfg: S.Config, p: string, ledger: map<string, S.JobResult>, due: set<string>)
    requires S.GoodConfig(cfg) && due <= cfg.context.jobs.Keys && ledger == map[]
    ensures R.Usable(cfg) && P.PlanOver(cfg, FirstEnd(cfg, p), FirstPlan(p), due)
  {
    P.FreshPlanned(cfg, ledger, FirstPlan(p), due, FirstFuel(cfg));
  }

  /** Both jobs are done, with these results, and the product `p` is recorded. */
  ghost predicate Done(cfg: S.Config, p: string, phase: S.Phase) {
    && phase.LoopDone? && phase.st.recorded == Some(p)
    && Measured(cfg, p, phase.st.results) && G.BUILD !in phase.st.pending && PULSE !in phase.st.pending
  }

  lemma PlanLeaves(cfg: S.Config, p: string, phase: S.Phase)
    requires R.Usable(cfg) && P.PlanOver(cfg, phase, FirstPlan(p), {G.BUILD, PULSE})
    requires G.BUILD in cfg.context.jobs && PULSE in cfg.context.jobs
    requires P.Unhindered(cfg, FirstPlan(p), G.BUILD) && P.Unhindered(cfg, FirstPlan(p), PULSE)
    ensures Done(cfg, p, phase)
  {
    var plan, due := FirstPlan(p), {G.BUILD, PULSE};
    P.PlanSays(cfg, phase, plan, due);
    P.BuildIsLeft(cfg, phase, plan, due);
    P.DueIsLeft(cfg, phase, plan, due, PULSE);
  }

  lemma FirstRun(cfg: S.Config, p: string)
    requires Measuring(cfg)
    ensures Done(cfg, p, FirstEnd(cfg, p))
  {
    FirstIsPlanned(cfg, p, map[], {G.BUILD, PULSE});
    NothingHinders(cfg, p);
    PlanLeaves(cfg, p, FirstEnd(cfg, p));
  }

  /** The verdict behind it leaves these results as they are. */
  lemma FirstVerdict(cfg: S.Config, p: string, phase: S.Phase, w: R.World)
    requires Done(cfg, p, phase) && !cfg.final && w == Quiet(p).(discovery := w.discovery)
    ensures Measured(cfg, p, R.Outcome(cfg, phase, w).1)
  {
    assert R.Conclude(cfg, phase.st, w).1 == R.Marked(cfg, phase.st);
  }

  // ----- The invocations -----

  function Made(cfg: S.Config): Invocation {
    Invocation(Init, Nothing, cfg, [], Quiet(""))
  }

  ghost function Built(cfg: S.Config, p: string): Invocation
    requires S.GoodConfig(cfg)
  {
    Invocation(Work, Nothing, cfg, FirstTicks(cfg, p), Quiet(p))
  }

  function Completed(cfg: S.Config, p: string, c: Completion): Invocation {
    Invocation(Work, c, Finding(cfg, p), [], Quiet(p))
  }

  function Disturbing(cfg: S.Config, p: string, c: Completion, ticks: seq<S.Tick>): Invocation {
    Meeting(Completed(cfg, p, c), ticks)
  }

  lemma MadeStep(at: Layout, w: World, cfg: S.Config)
    requires Measuring(cfg)
    ensures Step(at, w, None, Made(cfg), Some(Created(Nothing)))
  {
    StepIs(at, w, None, Made(cfg), Some(Created(Nothing)));
  }

  lemma BuiltProper(cfg: S.Config, p: string)
    requires Measuring(cfg) && p != ""
    ensures Proper(Built(cfg, p))
  {
    P.PlannedInstalls(cfg, S.Initial(cfg, map[], None), FirstPlan(p), FirstFuel(cfg), Present);
  }

  lemma BuiltStep(at: Layout, w: World, cfg: S.Config, p: string) returns (s: State)
    requires Measuring(cfg) && p != ""
    ensures Step(at, w, Some(Created(Nothing)), Built(cfg, p), Some(s))
    ensures s.completion == Nothing && s.origin == None && s.history == [] && !s.final && s.product == Some(p)
    ensures Measured(cfg, p, s.results)
  {
    var s0, i := Created(Nothing), Built(cfg, p);
    BuiltProper(cfg, p);
    FirstRun(cfg, p);
    FirstVerdict(cfg, p, End(s0, i), Behind(s0, i));
    CreatedBinds(at, w, Nothing, Product(i));
    InvokeBinds(at, w, Some(s0), i, Ok(s0));
    BoundRuns(w, s0, s0, i);
    s := AfterJobs(s0, i);
    StepIs(at, w, Some(s0), i, Some(s));
  }

  lemma MeasuredTrusted(cfg: S.Config, p: string, r: S.JobResult)
    requires !cfg.final && G.BUILD in cfg.context.jobs && G.BUILD in cfg.sign(p) && !S.JobOf(cfg, G.BUILD).alwaysRun
    requires r == S.JobResult(S.Pass, cfg.head, Some(cfg.sign(p)[G.BUILD]), Some(G.BUILD), 1)
    ensures L.Trusted(Finding(cfg, p), Finding(cfg, p).sign(p), r)
  {
  }

  /** The `build` result can be relied on in every later invocation. */
  lemma MeasuredRelies(w: World, cfg: S.Config, p: string, s: State, i: Invocation)
    requires Measuring(cfg) && Measured(cfg, p, s.results) && i.cfg == Finding(cfg, p) && forall r :: w.intact(r)
    ensures CanRely(w, s, i)
  {
    MeasuredTrusted(cfg, p, s.results[G.BUILD]);
    assert Product(i) == p;
  }

  lemma CompletedProper(cfg: S.Config, p: string, c: Completion)
    requires Measuring(cfg)
    ensures Proper(Completed(cfg, p, c))
  {
    FindingGood(cfg, p);
  }

  /** An interrupted run leaves results and product. */
  lemma Interrupted(s: State, i: Invocation)
    requires Proper(i) && i.ticks == [] && !i.cfg.final && s.product == Some(Product(i))
    ensures AfterJobs(s, i) == s
  {
  }

  /** The state behind the binding of the completion. */
  function Adopted(s: State, c: Completion): State
    requires PULSE in s.results
  {
    s.(completion := c, origin := Some(s.results[PULSE]))
  }

  lemma BindsFailed(at: Layout, w: World, s: State, c: Completion, p: string)
    requires PULSE in s.results && Failed(w, s.results[PULSE]) && c.From? && c.path == at(s.results[PULSE].attempt)
    requires s.completion == Nothing && s.origin == None && s.history == [] && !s.final
    requires s.product == Some(p) && p != ""
    ensures Bind(at, w, s, c, p) == Ok(Adopted(s, c))
  {
    assert Origins(s) == [];
  }

  lemma BindsAgain(at: Layout, w: World, b: State, p: string)
    requires b.origin.Some? && Intact(w, b.origin.value) && b.history == [] && b.product == Some(p)
    ensures Bind(at, w, b, b.completion, p) == Ok(b)
  {
    assert Origins(b) == [b.origin.value];
  }

  /** A run of the jobs, once the binding is known. */
  lemma StepRuns(at: Layout, w: World, s: State, i: Invocation, b: State)
    requires Proper(i) && i.action == Work && WellFormed(i.completion) && CanRely(w, b, i)
    requires Bind(at, w, s, i.completion, Product(i)) == Ok(b)
    ensures Step(at, w, Some(s), i, Some(AfterJobs(b, i)))
  {
    InvokeBinds(at, w, Some(s), i, Ok(b));
    BoundRuns(w, s, b, i);
    StepIs(at, w, Some(s), i, Some(AfterJobs(b, i)));
  }

  lemma CompletedStep(at: Layout, w: World, cfg: S.Config, p: string, c: Completion, s: State)
    requires Measuring(cfg) && p != "" && Measured(cfg, p, s.results) && forall r :: w.intact(r)
    requires s.completion == Nothing && s.origin == None && s.history == [] && !s.final && s.product == Some(p)
    requires c.From? && WellFormed(c) && c.path == at(1)
    ensures Step(at, w, Some(s), Completed(cfg, p, c), Some(Adopted(s, c)))
  {
    var i, b := Completed(cfg, p, c), Adopted(s, c);
    BindsFailed(at, w, s, c, p);
    CompletedProper(cfg, p, c);
    MeasuredRelies(w, cfg, p, b, i);
    StepRuns(at, w, s, i, b);
    Interrupted(b, i);
  }

  lemma DisturbedStep(at: Layout, w: World, cfg: S.Config, p: string, c: Completion, b: State, q: string)
    returns (ticks: seq<S.Tick>, d: State)
    requires Measuring(cfg) && Measured(cfg, p, b.results) && q != "" && forall r :: w.intact(r)
    requires b.completion == c && b.origin == Some(b.results[PULSE]) && b.history == [] && b.product == Some(p)
    requires WellFormed(c)
    ensures Step(at, w, Some(b), Disturbing(cfg, p, c, ticks), Some(d))
    ensures d.origin == b.origin && d.product == Some(q)
  {
    var i := Completed(cfg, p, c);
    CompletedProper(cfg, p, c);
    MeasuredRelies(w, cfg, p, b, i);
    ticks := DisturbedRebuilds(w, b, i, q);
    var j := Disturbing(cfg, p, c, ticks);
    MeasuredRelies(w, cfg, p, b, j);
    d := AfterJobs(b, j);
    BindsAgain(at, w, b, p);
    StepRuns(at, w, b, j, b);
  }

  lemma TraceOfFour(at: Layout, w: World, i: Invocation, j: Invocation, k: Invocation, l: Invocation,
                    s: State, t: State, u: State, v: State)
    requires Step(at, w, None, i, Some(s)) && Step(at, w, Some(s), j, Some(t))
    requires Step(at, w, Some(t), k, Some(u)) && Step(at, w, Some(u), l, Some(v))
    ensures Trace(at, [w, w, w, w], [i, j, k, l], [None, Some(s), Some(t), Some(u), Some(v)])
  {
  }

  /** What the four invocations are about. */
  ghost predicate Story(at: Layout, w: World, cfg: S.Config, p: string, q: string, c: Completion) {
    && Measuring(cfg) && p != "" && q != "" && (forall r :: w.intact(r))
    && c.From? && WellFormed(c) && c.path == at(1)
  }

  lemma FourSteps(at: Layout, w: World, cfg: S.Config, p: string, q: string, c: Completion)
    returns (ticks: seq<S.Tick>, s: State, b: State, d: State)
    requires Story(at, w, cfg, p, q, c)
    ensures Step(at, w, None, Made(cfg), Some(Created(Nothing)))
    ensures Step(at, w, Some(Created(Nothing)), Built(cfg, p), Some(s))
    ensures Step(at, w, Some(s), Completed(cfg, p, c), Some(b))
    ensures Step(at, w, Some(b), Disturbing(cfg, p, c, ticks), Some(d))
    ensures b.origin.Some? && b.product == Some(p) && d.origin == b.origin && d.product == Some(q)
  {
    MadeStep(at, w, cfg);
    s := BuiltStep(at, w, cfg, p);
    CompletedStep(at, w, cfg, p, c, s);
    b := Adopted(s, c);
    ticks, d := DisturbedStep(at, w, cfg, p, c, b, q);
  }

  /** For every matrix in which Pulse depends on `build`: the run directory is made; the jobs run until the loop
      ends, all of them pass but Pulse, and the product `p` is recorded; a completion of that attempt is bound and
      the run is interrupted; and the next run, which finds the log of `build` damaged, records any other
      product `q` behind the same origin. */
  lemma ProductCanChange(at: Layout, w: World, cfg: S.Config, p: string, q: string, c: Completion)
    returns (ticks: seq<S.Tick>, s: State, b: State, d: State)
    requires Story(at, w, cfg, p, q, c)
    ensures Trace(at, [w, w, w, w], [Made(cfg), Built(cfg, p), Completed(cfg, p, c), Disturbing(cfg, p, c, ticks)],
                  [None, Some(Created(Nothing)), Some(s), Some(b), Some(d)])
    ensures b.origin.Some? && b.product == Some(p) && d.origin == b.origin && d.product == Some(q)
  {
    ticks, s, b, d := FourSteps(at, w, cfg, p, q, c);
    TraceOfFour(at, w, Made(cfg), Built(cfg, p), Completed(cfg, p, c), Disturbing(cfg, p, c, ticks),
                Created(Nothing), s, b, d);
  }
}

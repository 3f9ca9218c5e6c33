/** What every step of the scheduler keeps, in every run and whatever the surroundings answer
    (qualification/release/qualify.py, lines 516-618). */
module SchedulerSafety {
  import opened Basics
  import opened Matrix
  import opened Signatures
  import opened Scheduler

  // ----- Sums -----

  lemma {:induction false} TotalRemove(m: map<string, int>, n: string)
    requires n in m
    ensures Total(m) == m[n] + Total(m - {n})
    decreases m.Keys
  {
    var k :| k in m && Total(m) == m[k] + Total(m - {k});
    if k != n {
      TotalRemove(m - {k}, n);
      TotalRemove(m - {n}, k);
      assert m - {k} - {n} == m - {n} - {k};
    }
  }

  lemma TotalAdd(m: map<string, int>, n: string, v: int)
    requires n !in m
    ensures Total(m[n := v]) == v + Total(m)
  {
    TotalRemove(m[n := v], n);
    assert m[n := v] - {n} == m;
  }

  // ----- The invariant -----

  /** Pending, running and executed jobs are different jobs of the matrix. */
  ghost predicate Partitioned(cfg: Config, st: State) {
    && Aligned(cfg, st)
    && st.pending <= cfg.context.jobs.Keys
    && st.active.Keys <= cfg.context.jobs.Keys
    && st.executed <= cfg.context.jobs.Keys
    && st.pending !! st.active.Keys !! st.executed
  }

  /** A running job holds at least one slot and some memory. */
  ghost predicate Demanding(cfg: Config, n: string)
    requires n in cfg.slots && n in cfg.needs
  {
    cfg.slots[n] >= 1 && cfg.needs[n] >= 1
  }

  ghost predicate AllDemanding(cfg: Config) {
    forall n {:trigger Demanding(cfg, n)} :: n in cfg.slots && n in cfg.needs ==> Demanding(cfg, n)
  }

  lemma GoodJobDemands(cfg: Config, n: string)
    requires GoodConfig(cfg) && n in cfg.context.jobs
    ensures Demanding(cfg, n) && cfg.slots[n] <= cfg.workers && cfg.needs[n] <= cfg.memory
  {
    assert GoodJob(cfg, n);
  }

  /** The running jobs hold their slots and stay within both budgets. */
  ghost predicate WithinBudget(cfg: Config, st: State) {
    && st.allocations.Keys == st.active.Keys
    && (forall n :: n in st.allocations && n in cfg.slots && n in cfg.needs ==>
          st.allocations[n] == cfg.slots[n] && Demanding(cfg, n))
    && Total(st.allocations) <= cfg.workers
    && Total(MemoryTable(cfg, st.allocations)) <= cfg.memory
  }

  /** No two running jobs share a resource, and the resource set is exactly theirs. */
  ghost predicate ResourcesHeld(cfg: Config, st: State)
    requires st.active.Keys <= cfg.context.jobs.Keys
  {
    && (forall n :: n in st.active ==> ResourceKey(cfg, n) in st.resources)
    && (forall r :: r in st.resources ==> exists n :: n in st.active && ResourceKey(cfg, n) == r)
    && (forall n, m :: n in st.active && m in st.active && ResourceKey(cfg, n) == ResourceKey(cfg, m) ==> n == m)
  }

  /** An exclusive job runs alone. */
  ghost predicate ExclusiveAlone(cfg: Config, st: State)
    requires st.active.Keys <= cfg.context.jobs.Keys
  {
    forall n, m :: n in st.active && m in st.active && JobOf(cfg, n).exclusive ==> n == m
  }

  /** Every job that left `pending` has all its parents and all jobs of earlier stages resolved as
      passed. */
  ghost predicate DepsResolved(cfg: Config, st: State) {
    forall n :: n in cfg.context.jobs && n !in st.pending ==> Ready(cfg, st, n)
  }

  /** An executed job has a verdict of this run, bound to the current HEAD. */
  ghost predicate ExecutedHere(cfg: Config, st: State, n: string) {
    n in st.results && st.results[n].status != Blocked && st.results[n].head == cfg.head
  }

  /** A reused job meets every condition of the reuse test that does not look at the disk. */
  ghost predicate ReusedRightly(cfg: Config, st: State, n: string)
    requires n in cfg.context.jobs
  {
    && Passed(st, n)
    && !JobOf(cfg, n).alwaysRun
    && (st.results[n].head == cfg.head || (!cfg.final && !JobOf(cfg, n).headBound))
  }

  ghost predicate ResultsExplained(cfg: Config, st: State) {
    forall n ::
      n in cfg.context.jobs && n !in st.pending && n !in st.active ==> Explained(cfg, st, n)
  }

  ghost predicate Explained(cfg: Config, st: State, n: string)
    requires n in cfg.context.jobs
  {
    if n in st.executed then ExecutedHere(cfg, st, n) else ReusedRightly(cfg, st, n)
  }

  /** The current signatures are those of the current product, and every job taken so far, running,
      executed or reused, carries its current signature. */
  ghost predicate SignaturesCurrent(cfg: Config, st: State)
  {
    && st.signatures == cfg.sign(st.product)
    && forall n ::
         n in st.signatures && n !in st.pending ==> Carries(st, n, st.signatures[n])
  }

  ghost predicate Carries(st: State, n: string, signature: string) {
    if n in st.active then st.active[n] == signature
    else n in st.results && st.results[n].signature == Some(signature)
  }

  /** All running jobs belong to the current stage, and everything of an earlier stage has passed. */
  ghost predicate OneStage(cfg: Config, st: State) {
    && (forall n :: n in st.active && n in cfg.context.jobs ==> st.stage == Some(Stage(JobOf(cfg, n))))
    && (st.stage.Some? ==> EarlierPassed(cfg, st, st.stage.value))
  }

  ghost predicate EarlierPassed(cfg: Config, st: State, stage: int) {
    forall n :: n in cfg.context.jobs && Stage(JobOf(cfg, n)) < stage ==> !Unresolved(st, n) && Passed(st, n)
  }

  /** A passed build result always speaks of the product the signatures were computed from, and that
      is the identity in the state file. */
  ghost predicate ProductBound(cfg: Config, st: State) {
    BUILD in cfg.context.jobs && Passed(st, BUILD) ==> st.recorded == Some(st.product)
  }

  /** The parts of the invariant by name, so that a proof can take up the one it needs. */
  datatype Fact = Budget | Resources | Exclusive | Resolved | Results | Signed | Staged | Bound

  ghost predicate Holds(f: Fact, cfg: Config, st: State)
    requires Partitioned(cfg, st)
  {
    match f
    case Budget => WithinBudget(cfg, st)
    case Resources => ResourcesHeld(cfg, st)
    case Exclusive => ExclusiveAlone(cfg, st)
    case Resolved => DepsResolved(cfg, st)
    case Results => ResultsExplained(cfg, st)
    case Signed => SignaturesCurrent(cfg, st)
    case Staged => OneStage(cfg, st)
    case Bound => ProductBound(cfg, st)
  }

  ghost predicate Inv(cfg: Config, st: State)
  {
    Partitioned(cfg, st) && forall f: Fact :: Holds(f, cfg, st)
  }

  /** The scan's running totals are what is left of the budgets. */
  ghost predicate ScanInv(cfg: Config, s: Scan)
  {
    && Inv(cfg, s.st)
    && s.available == cfg.workers - Total(s.st.allocations)
    && s.memory == cfg.memory - Total(MemoryTable(cfg, s.st.allocations))
  }

  // ----- The start of a run -----

  /** A run starts within the invariant, whatever the ledger of earlier invocations holds. */
  lemma InitialInv(cfg: Config, ledger: map<string, JobResult>, recorded: Option<string>)
    requires GoodConfig(cfg)
    ensures Inv(cfg, Initial(cfg, ledger, recorded))
  {
    var st := Initial(cfg, ledger, recorded);
    forall f: Fact
      ensures Holds(f, cfg, st)
    {
      match f
      case Budget =>
        assert MemoryTable(cfg, st.allocations) == map[];
      case _ =>
    }
  }

  // ----- One considered job -----

  /** A ready job has everything of an earlier stage passed before it. */
  lemma ReadyStage(cfg: Config, st: State, n: string)
    requires n in cfg.context.jobs && Ready(cfg, st, n)
    ensures EarlierPassed(cfg, st, Stage(JobOf(cfg, n)))
  {
    forall m | m in cfg.context.jobs && Stage(JobOf(cfg, m)) < Stage(JobOf(cfg, n))
      ensures !Unresolved(st, m) && Passed(st, m)
    {
      assert m in Deps(cfg, n);
    }
  }

  /** When a job may open a stage, nothing of another stage runs and the stage does not fall. */
  lemma StageOpens(cfg: Config, st: State, n: string)
    requires Partitioned(cfg, st) && OneStage(cfg, st) && n in st.pending && Ready(cfg, st, n)
    ensures st.stage == Some(Stage(JobOf(cfg, n))) || st.active == map[]
    ensures st.stage.Some? ==> st.stage.value <= Stage(JobOf(cfg, n))
    ensures OneStage(cfg, st.(stage := Some(Stage(JobOf(cfg, n)))))
  {
    ReadyStage(cfg, st, n);
    if st.active != map[] {
      var a :| a in st.active;
      assert Unresolved(st, a) && Unresolved(st, n);
    }
    if st.stage.Some? && Stage(JobOf(cfg, n)) < st.stage.value {
      assert Unresolved(st, n);
    }
  }

  lemma StageInv(cfg: Config, st: State, n: string)
    requires Inv(cfg, st) && n in st.pending && Ready(cfg, st, n)
    ensures Inv(cfg, st.(stage := Some(Stage(JobOf(cfg, n)))))
  {
    var st1 := st.(stage := Some(Stage(JobOf(cfg, n))));
    forall f: Fact
      ensures Holds(f, cfg, st1)
    {
      assert Holds(f, cfg, st);
      match f
      case Staged => StageOpens(cfg, st, n);
      case Resolved => ReadyFrame(cfg, st, st1);
      case _ =>
    }
  }

  /** Readiness looks only at the three sets, so shrinking the unresolved jobs keeps it. */
  lemma ReadyFrame(cfg: Config, st: State, st1: State)
    requires st1.pending <= st.pending && st1.active.Keys <= st.active.Keys && st1.results == st.results
    ensures forall m :: m in cfg.context.jobs && Ready(cfg, st, m) ==> Ready(cfg, st1, m)
  {
  }

  lemma ReuseInv(cfg: Config, st: State, intact: JobResult -> bool, n: string)
    requires Inv(cfg, st)
    requires n in st.pending && Ready(cfg, st, n) && Reusable(cfg, st, intact, n)
    ensures Inv(cfg, st.(pending := st.pending - {n}))
  {
    var st1 := st.(pending := st.pending - {n});
    forall f: Fact
      ensures Holds(f, cfg, st1)
    {
      assert Holds(f, cfg, st);
      match f
      case Resolved => ReadyFrame(cfg, st, st1);
      case _ =>
    }
  }

  lemma StartTotals(cfg: Config, s: Scan, n: string)
    requires Partitioned(cfg, s.st) && WithinBudget(cfg, s.st) && n in s.st.pending
    ensures var t := Start(cfg, s, n).st.allocations;
      && Total(t) == Total(s.st.allocations) + cfg.slots[n]
      && Total(MemoryTable(cfg, t)) == Total(MemoryTable(cfg, s.st.allocations)) + cfg.needs[n]
  {
    var before, after := s.st.allocations, Start(cfg, s, n).st.allocations;
    TotalAdd(before, n, cfg.slots[n]);
    TotalAdd(MemoryTable(cfg, before), n, cfg.needs[n]);
    assert MemoryTable(cfg, after) == MemoryTable(cfg, before)[n := cfg.needs[n]];
  }

  lemma StartBudget(cfg: Config, s: Scan, n: string)
    requires Partitioned(cfg, s.st) && WithinBudget(cfg, s.st) && n in s.st.pending && Demanding(cfg, n)
    requires Total(s.st.allocations) + cfg.slots[n] <= cfg.workers
    requires Total(MemoryTable(cfg, s.st.allocations)) + cfg.needs[n] <= cfg.memory
    ensures WithinBudget(cfg, Start(cfg, s, n).st)
  {
    StartTotals(cfg, s, n);
  }

  lemma StartResources(cfg: Config, s: Scan, n: string)
    requires Partitioned(cfg, s.st) && ResourcesHeld(cfg, s.st) && n in s.st.pending
    requires ResourceKey(cfg, n) !in s.st.resources
    ensures ResourcesHeld(cfg, Start(cfg, s, n).st)
  {
    var st, st1 := s.st, Start(cfg, s, n).st;
    forall r | r in st1.resources
      ensures exists m :: m in st1.active && ResourceKey(cfg, m) == r
    {
      if r == ResourceKey(cfg, n) {
        assert n in st1.active;
      } else {
        var m :| m in st.active && ResourceKey(cfg, m) == r;
        assert m in st1.active;
      }
    }
  }

  lemma StartExclusive(cfg: Config, s: Scan, n: string)
    requires Partitioned(cfg, s.st) && ExclusiveAlone(cfg, s.st) && n in s.st.pending && Fits(cfg, s, n)
    ensures ExclusiveAlone(cfg, Start(cfg, s, n).st)
  {
  }

  lemma StartResolved(cfg: Config, s: Scan, n: string)
    requires Partitioned(cfg, s.st) && DepsResolved(cfg, s.st) && n in s.st.pending && Ready(cfg, s.st, n)
    ensures DepsResolved(cfg, Start(cfg, s, n).st)
  {
    var st1 := Start(cfg, s, n).st;
    forall m | m in cfg.context.jobs && m !in st1.pending
      ensures Ready(cfg, st1, m)
    {
      assert Ready(cfg, s.st, m);
      assert Unresolved(s.st, n);
    }
  }

  lemma StartExplained(cfg: Config, s: Scan, n: string)
    requires Partitioned(cfg, s.st) && ResultsExplained(cfg, s.st) && n in s.st.pending
    ensures ResultsExplained(cfg, Start(cfg, s, n).st)
  {
  }

  lemma StartSigned(cfg: Config, s: Scan, n: string)
    requires Partitioned(cfg, s.st) && SignaturesCurrent(cfg, s.st) && n in s.st.pending
    ensures SignaturesCurrent(cfg, Start(cfg, s, n).st)
  {
    var st1 := Start(cfg, s, n).st;
    forall m | m in st1.signatures && m !in st1.pending
      ensures Carries(st1, m, st1.signatures[m])
    {
      if m != n {
        assert Carries(s.st, m, s.st.signatures[m]);
      }
    }
  }

  lemma StartStaged(cfg: Config, s: Scan, n: string)
    requires Partitioned(cfg, s.st) && OneStage(cfg, s.st) && n in s.st.pending
    requires s.st.stage == Some(Stage(JobOf(cfg, n)))
    ensures OneStage(cfg, Start(cfg, s, n).st)
  {
    var st, st1 := s.st, Start(cfg, s, n).st;
    forall m | m in cfg.context.jobs && Stage(JobOf(cfg, m)) < st1.stage.value
      ensures !Unresolved(st1, m) && Passed(st1, m)
    {
      assert !Unresolved(st, m) && Passed(st, m);
    }
  }

  lemma StartFact(cfg: Config, s: Scan, n: string, f: Fact)
    requires ScanInv(cfg, s) && n in s.st.pending && Ready(cfg, s.st, n)
    requires s.st.stage == Some(Stage(JobOf(cfg, n))) && Fits(cfg, s, n) && Demanding(cfg, n)
    requires Partitioned(cfg, Start(cfg, s, n).st)
    ensures Holds(f, cfg, Start(cfg, s, n).st)
  {
    assert Holds(f, cfg, s.st);
    match f
    case Budget => StartBudget(cfg, s, n);
    case Resources => StartResources(cfg, s, n);
    case Exclusive => StartExclusive(cfg, s, n);
    case Resolved => StartResolved(cfg, s, n);
    case Results => StartExplained(cfg, s, n);
    case Signed => StartSigned(cfg, s, n);
    case Staged => StartStaged(cfg, s, n);
    case Bound =>
  }

  lemma StartPartition(cfg: Config, s: Scan, n: string)
    requires Partitioned(cfg, s.st) && n in s.st.pending
    ensures Partitioned(cfg, Start(cfg, s, n).st)
  {
    assert Start(cfg, s, n).st.active.Keys == s.st.active.Keys + {n};
  }

  lemma StartInv(cfg: Config, s: Scan, n: string)
    requires ScanInv(cfg, s) && n in s.st.pending && Ready(cfg, s.st, n)
    requires s.st.stage == Some(Stage(JobOf(cfg, n))) && Fits(cfg, s, n) && Demanding(cfg, n)
    ensures ScanInv(cfg, Start(cfg, s, n))
  {
    StartPartition(cfg, s, n);
    forall f: Fact
      ensures Holds(f, cfg, Start(cfg, s, n).st)
    {
      StartFact(cfg, s, n, f);
    }
    assert Holds(Budget, cfg, s.st);
    StartTotals(cfg, s, n);
  }

  /** A ready job that is not reused: its stage opens, and it starts if it fits. */
  lemma OpenInv(cfg: Config, s: Scan, n: string)
    requires ScanInv(cfg, s) && n in s.st.pending && Ready(cfg, s.st, n) && Demanding(cfg, n)
    ensures ScanInv(cfg, Opened(cfg, s, n))
    ensures Fits(cfg, Opened(cfg, s, n), n) ==> ScanInv(cfg, Start(cfg, Opened(cfg, s, n), n))
  {
    StageInv(cfg, s.st, n);
    var s1 := Opened(cfg, s, n);
    assert Ready(cfg, s1.st, n);
    if Fits(cfg, s1, n) {
      StartInv(cfg, s1, n);
    }
  }

  /** A stage other than the current one opens only while nothing runs. */
  lemma DriftIdle(cfg: Config, s: Scan, n: string)
    requires Inv(cfg, s.st) && n in s.st.pending && Ready(cfg, s.st, n) && s.st.stage != Some(Stage(JobOf(cfg, n)))
    ensures s.st.active == map[]
  {
    assert Holds(Staged, cfg, s.st);
    StageOpens(cfg, s.st, n);
  }

  /** One considered job keeps the invariant; the checkout is found changed only while nothing runs. */
  lemma ConsiderInv(cfg: Config, s: Scan, n: string, clean: string -> bool, intact: JobResult -> bool)
    requires ScanInv(cfg, s) && n in s.st.pending && Demanding(cfg, n)
    ensures var r := Consider(cfg, s, n, clean, intact);
      if r.Drift? then r.st == s.st && s.st.active == map[] else ScanInv(cfg, r.scan)
  {
    ConsiderCases(cfg, s, n, clean, intact);
    var r := Consider(cfg, s, n, clean, intact);
    if Ready(cfg, s.st, n) {
      if Reusable(cfg, s.st, intact, n) {
        ReuseInv(cfg, s.st, intact, n);
      } else if r.Drift? {
        DriftIdle(cfg, s, n);
      } else {
        OpenInv(cfg, s, n);
      }
    }
  }

  // ----- Progress -----

  /** Work left: it falls at every step that changes the sets. */
  function Measure(st: State): nat {
    2 * |st.pending| + |st.active.Keys|
  }

  lemma StartMeasure(pending: set<string>, active: map<string, string>, n: string, signature: string)
    requires n in pending && n !in active
    ensures 2 * |pending - {n}| + |active[n := signature].Keys| == 2 * |pending| + |active.Keys| - 1
  {
    assert active[n := signature].Keys == active.Keys + {n};
    assert pending == (pending - {n}) + {n};
  }

  /** How one scan state follows another: jobs only leave `pending`, running jobs stay, results are
      untouched, and the measure falls unless nothing moved. */
  ghost predicate Progress(s: Scan, t: Scan) {
    && t.st.pending <= s.st.pending
    && s.st.active.Keys <= t.st.active.Keys
    && t.st.results == s.st.results && t.st.executed == s.st.executed
    && t.st.product == s.st.product && t.st.recorded == s.st.recorded
    && (s.reused ==> t.reused)
    && (Measure(t.st) < Measure(s.st) || t == s.(st := s.st.(stage := t.st.stage)))
    && (t.st.pending == s.st.pending || t.reused || t.st.active != map[])
  }

  /** The stage never falls. */
  ghost predicate StageRises(s: Scan, t: Scan) {
    s.st.stage.Some? ==> t.st.stage.Some? && s.st.stage.value <= t.st.stage.value
  }

  lemma StartProgress(cfg: Config, s: Scan, n: string)
    requires Partitioned(cfg, s.st) && n in s.st.pending
    ensures Progress(s, Start(cfg, s, n))
  {
    StartMeasure(s.st.pending, s.st.active, n, s.st.signatures[n]);
    assert n in Start(cfg, s, n).st.active;
  }

  lemma ReuseProgress(s: Scan, n: string)
    requires n in s.st.pending
    ensures Progress(s, s.(st := s.st.(pending := s.st.pending - {n}), reused := true))
  {
    assert s.st.pending == (s.st.pending - {n}) + {n};
  }

  function Opened(cfg: Config, s: Scan, n: string): Scan
    requires n in cfg.context.jobs
  {
    s.(st := s.st.(stage := Some(Stage(JobOf(cfg, n)))))
  }

  function Taken(s: Scan, n: string): Scan {
    s.(st := s.st.(pending := s.st.pending - {n}), reused := true)
  }

  /** The four states one considered job can lead to. */
  lemma ConsiderCases(cfg: Config, s: Scan, n: string, clean: string -> bool, intact: JobResult -> bool)
    requires Aligned(cfg, s.st) && n in cfg.context.jobs
    ensures var r := Consider(cfg, s, n, clean, intact);
      r.Drift? || r.scan == s || r.scan == Opened(cfg, s, n) || r.scan == Taken(s, n)
      || r.scan == Start(cfg, Opened(cfg, s, n), n)
  {
  }

  lemma MovesProgress(cfg: Config, s: Scan, n: string, t: Scan)
    requires Partitioned(cfg, s.st) && n in s.st.pending
    requires t == s || t == Opened(cfg, s, n) || t == Taken(s, n) || t == Start(cfg, Opened(cfg, s, n), n)
    ensures Progress(s, t)
  {
    if t == Taken(s, n) {
      ReuseProgress(s, n);
    } else if t == Start(cfg, Opened(cfg, s, n), n) {
      StartProgress(cfg, Opened(cfg, s, n), n);
    }
  }

  lemma ConsiderProgress(cfg: Config, s: Scan, n: string, clean: string -> bool, intact: JobResult -> bool)
    requires Partitioned(cfg, s.st) && n in s.st.pending
    ensures var r := Consider(cfg, s, n, clean, intact);
      !r.Drift? ==> Progress(s, r.scan)
  {
    ConsiderCases(cfg, s, n, clean, intact);
    var r := Consider(cfg, s, n, clean, intact);
    if !r.Drift? {
      MovesProgress(cfg, s, n, r.scan);
    }
  }

  lemma ConsiderStage(cfg: Config, s: Scan, n: string, clean: string -> bool, intact: JobResult -> bool)
    requires Partitioned(cfg, s.st) && OneStage(cfg, s.st) && n in s.st.pending
    ensures var r := Consider(cfg, s, n, clean, intact);
      !r.Drift? ==> StageRises(s, r.scan)
  {
    if Ready(cfg, s.st, n) {
      StageOpens(cfg, s.st, n);
    }
  }

  /** One considered job, all together. */
  lemma ConsiderSafe(cfg: Config, s: Scan, n: string, clean: string -> bool, intact: JobResult -> bool)
    requires ScanInv(cfg, s) && n in s.st.pending && Demanding(cfg, n)
    ensures var r := Consider(cfg, s, n, clean, intact);
      if r.Drift? then r.st == s.st && s.st.active == map[]
      else ScanInv(cfg, r.scan) && Progress(s, r.scan) && StageRises(s, r.scan)
  {
    ConsiderInv(cfg, s, n, clean, intact);
    ConsiderProgress(cfg, s, n, clean, intact);
    assert Holds(Staged, cfg, s.st);
    ConsiderStage(cfg, s, n, clean, intact);
  }

  /** What a whole scan guarantees, told of its state before and its last move. */
  ghost predicate ScanKept(cfg: Config, s: Scan, r: Move) {
    if r.Drift? then
      && Inv(cfg, r.st) && r.st.active == map[] && s.st.active == map[]
      && r.st.executed == s.st.executed && Measure(r.st) <= Measure(s.st)
    else ScanInv(cfg, r.scan) && Progress(s, r.scan) && StageRises(s, r.scan)
  }

  lemma ScanKeptTransitive(cfg: Config, s: Scan, t: Scan, r: Move)
    requires Progress(s, t) && StageRises(s, t) && ScanKept(cfg, t, r)
    ensures ScanKept(cfg, s, r)
  {
  }

  lemma {:induction false} ScanSafe(cfg: Config, s: Scan, names: seq<string>, clean: string -> bool,
                                    intact: JobResult -> bool)
    requires AllDemanding(cfg) && ScanInv(cfg, s) && Known(cfg, names)
    ensures ScanKept(cfg, s, ScanOver(cfg, s, names, clean, intact))
    decreases |names|
  {
    if names != [] {
      var n := names[0];
      if n !in s.st.pending {
        ScanSafe(cfg, s, names[1..], clean, intact);
      } else if s.available != 0 {
        assert Demanding(cfg, n);
        ConsiderSafe(cfg, s, n, clean, intact);
        var move := Consider(cfg, s, n, clean, intact);
        if move.Next? {
          ScanSafe(cfg, move.scan, names[1..], clean, intact);
          ScanKeptTransitive(cfg, s, move.scan, ScanOver(cfg, move.scan, names[1..], clean, intact));
        }
      }
    }
  }

  // ----- Finished jobs -----

  /** While `build` runs, no job taken so far has it among its ancestors. */
  lemma {:induction false} NobodyTakenNeedsBuild(cfg: Config, st: State, n: string)
    requires Sound(cfg.context) && DepsResolved(cfg, st) && BUILD in st.active
    requires n in cfg.context.jobs && n !in st.pending
    ensures !NeedsBuild(cfg.context, n)
    decreases cfg.context.rank[n]
  {
    if NeedsBuild(cfg.context, n) {
      var p :| Edge(cfg.context.jobs, cfg.context.platform, n, p) && (p == BUILD || NeedsBuild(cfg.context, p));
      assert Ready(cfg, st, n) && p in Deps(cfg, n);
      assert !Unresolved(st, p);
      if p != BUILD {
        NobodyTakenNeedsBuild(cfg, st, p);
      }
      assert false;
    }
  }

  /** Recomputing the signatures after `build` has passed changes none of a job reused, finished or
      running. */
  lemma RecomputationStable(cfg: Config, st: State, product: string, n: string)
    requires GoodConfig(cfg) && Inv(cfg, st) && BUILD in st.active
    requires n in cfg.context.jobs && n !in st.pending
    ensures cfg.sign(product)[n] == st.signatures[n]
  {
    assert Holds(Resolved, cfg, st) && Holds(Signed, cfg, st);
    assert SignsRight(cfg, product) && SignsRight(cfg, st.product);
    NobodyTakenNeedsBuild(cfg, st, n);
    ProductIrrelevant(cfg.context, n, product);
    ProductIrrelevant(cfg.context, n, st.product);
  }

  lemma FinishBudget(cfg: Config, st: State, n: string)
    requires Partitioned(cfg, st) && WithinBudget(cfg, st) && n in st.active
    ensures WithinBudget(cfg, st.(active := st.active - {n}, allocations := st.allocations - {n}))
  {
    TotalRemove(st.allocations, n);
    TotalRemove(MemoryTable(cfg, st.allocations), n);
    assert MemoryTable(cfg, st.allocations - {n}) == MemoryTable(cfg, st.allocations) - {n};
    assert MemoryTable(cfg, st.allocations)[n] == cfg.needs[n];
  }

  lemma FinishResources(cfg: Config, st: State, n: string)
    requires st.active.Keys <= cfg.context.jobs.Keys && ResourcesHeld(cfg, st) && n in st.active
    ensures ResourcesHeld(cfg, st.(active := st.active - {n}, resources := st.resources - {ResourceKey(cfg, n)}))
  {
    var st1 := st.(active := st.active - {n}, resources := st.resources - {ResourceKey(cfg, n)});
    forall r | r in st1.resources
      ensures exists m :: m in st1.active && ResourceKey(cfg, m) == r
    {
      var m :| m in st.active && ResourceKey(cfg, m) == r;
      assert m in st1.active;
    }
  }

  lemma FinishResolved(cfg: Config, st: State, f: Finish)
    requires Partitioned(cfg, st) && DepsResolved(cfg, st) && f.name in st.active
    ensures DepsResolved(cfg, Finished(cfg, st, f))
  {
    var st1 := Finished(cfg, st, f);
    forall m | m in cfg.context.jobs && m !in st1.pending
      ensures Ready(cfg, st1, m)
    {
      assert Ready(cfg, st, m);
      assert Unresolved(st, f.name);
    }
  }

  lemma FinishStaged(cfg: Config, st: State, f: Finish)
    requires Partitioned(cfg, st) && OneStage(cfg, st) && f.name in st.active
    ensures OneStage(cfg, Finished(cfg, st, f))
  {
    var st1 := Finished(cfg, st, f);
    forall n | n in cfg.context.jobs && Stage(JobOf(cfg, n)) < st.stage.value
      ensures !Unresolved(st1, n) && Passed(st1, n)
    {
      assert !Unresolved(st, n) && Passed(st, n);
      assert Unresolved(st, f.name);
    }
  }

  /** The signatures for `product` agree with the current ones on every job taken so far. */
  ghost predicate Keeps(cfg: Config, st: State, product: string) {
    forall n :: n in cfg.context.jobs && n !in st.pending ==>
      n in cfg.sign(product) && n in st.signatures && cfg.sign(product)[n] == st.signatures[n]
  }

  lemma FinishSigned(cfg: Config, st: State, f: Finish)
    requires Partitioned(cfg, st) && SignaturesCurrent(cfg, st) && f.name in st.active
    requires f.name == BUILD ==> Keeps(cfg, st, f.installed)
    ensures SignaturesCurrent(cfg, Finished(cfg, st, f))
  {
    var st1 := Finished(cfg, st, f);
    forall n | n in st1.signatures && n !in st1.pending
      ensures Carries(st1, n, st1.signatures[n])
    {
      assert Carries(st, n, st.signatures[n]);
    }
  }

  lemma FinishExclusive(cfg: Config, st: State, f: Finish)
    requires Partitioned(cfg, st) && ExclusiveAlone(cfg, st) && f.name in st.active
    ensures ExclusiveAlone(cfg, Finished(cfg, st, f))
  {
  }

  lemma FinishExplained(cfg: Config, st: State, f: Finish)
    requires Partitioned(cfg, st) && ResultsExplained(cfg, st) && f.name in st.active
    ensures ResultsExplained(cfg, Finished(cfg, st, f))
  {
  }

  lemma FinishBound(cfg: Config, st: State, f: Finish)
    requires Partitioned(cfg, st) && ProductBound(cfg, st) && f.name in st.active
    ensures ProductBound(cfg, Finished(cfg, st, f))
  {
  }

  lemma FinishFact(cfg: Config, st: State, f: Finish, x: Fact)
    requires Partitioned(cfg, st) && Holds(x, cfg, st) && f.name in st.active
    requires f.name == BUILD ==> Keeps(cfg, st, f.installed)
    requires Partitioned(cfg, Finished(cfg, st, f))
    ensures Holds(x, cfg, Finished(cfg, st, f))
  {
    match x
    case Budget => FinishBudget(cfg, st, f.name);
    case Resources => FinishResources(cfg, st, f.name);
    case Resolved => FinishResolved(cfg, st, f);
    case Signed => FinishSigned(cfg, st, f);
    case Staged => FinishStaged(cfg, st, f);
    case Bound => FinishBound(cfg, st, f);
    case Exclusive => FinishExclusive(cfg, st, f);
    case Results => FinishExplained(cfg, st, f);
  }

  lemma FinishPartition(cfg: Config, st: State, f: Finish)
    requires Partitioned(cfg, st) && f.name in st.active
    ensures Partitioned(cfg, Finished(cfg, st, f))
    ensures Measure(Finished(cfg, st, f)) < Measure(st)
  {
    var st1 := Finished(cfg, st, f);
    assert st1.pending == st.pending && st1.active == st.active - {f.name} && st1.executed == st.executed + {f.name};
    MoveOver(st.pending, st.active.Keys, st.executed, f.name);
    assert (st.active - {f.name}).Keys == st.active.Keys - {f.name};
  }

  lemma MoveOver(pending: set<string>, active: set<string>, executed: set<string>, n: string)
    requires pending !! active !! executed && n in active
    ensures pending !! (active - {n}) !! (executed + {n})
    ensures |active - {n}| == |active| - 1
  {
  }

  /** Whatever product a passing build installs, the recomputed signatures agree on every job taken. */
  ghost predicate Steady(cfg: Config) {
    forall st: State, product: string {:trigger Keeps(cfg, st, product)} ::
      Inv(cfg, st) && BUILD in st.active ==> Keeps(cfg, st, product)
  }

  lemma GoodConfigSteady(cfg: Config)
    requires GoodConfig(cfg)
    ensures Steady(cfg)
  {
    forall st: State, product: string | Inv(cfg, st) && BUILD in st.active
      ensures Keeps(cfg, st, product)
    {
      forall n | n in cfg.context.jobs && n !in st.pending
        ensures cfg.sign(product)[n] == st.signatures[n]
      {
        RecomputationStable(cfg, st, product, n);
      }
    }
  }

  /** A finished job keeps the invariant and the stage, and lowers the measure. */
  lemma FinishSafe(cfg: Config, st: State, f: Finish)
    requires Steady(cfg) && Inv(cfg, st)
    ensures Inv(cfg, Finished(cfg, st, f))
    ensures Measure(Finished(cfg, st, f)) <= Measure(st)
    ensures f.name in st.active ==> Measure(Finished(cfg, st, f)) < Measure(st)
    ensures Finished(cfg, st, f).stage == st.stage
  {
    if f.name in st.active {
      FinishPartition(cfg, st, f);
      assert f.name == BUILD ==> Keeps(cfg, st, f.installed);
      forall x: Fact
        ensures Holds(x, cfg, Finished(cfg, st, f))
      {
        FinishFact(cfg, st, f, x);
      }
    }
  }

  lemma {:induction false} FinishAllSafe(cfg: Config, st: State, done: seq<Finish>)
    requires Steady(cfg) && Inv(cfg, st)
    ensures Inv(cfg, FinishedAll(cfg, st, done))
    ensures Measure(FinishedAll(cfg, st, done)) <= Measure(st)
    ensures done != [] && done[0].name in st.active ==> Measure(FinishedAll(cfg, st, done)) < Measure(st)
    ensures FinishedAll(cfg, st, done).stage == st.stage
    decreases |done|
  {
    if done != [] {
      FinishSafe(cfg, st, done[0]);
      FinishAllSafe(cfg, Finished(cfg, st, done[0]), done[1..]);
    }
  }
}

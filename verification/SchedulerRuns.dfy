/** Whole runs of the scheduler: safety of every reachable state, termination, why a job can be left
    over, and what the verdict is worth (qualification/release/qualify.py, lines 510-652). */
module SchedulerRuns {
  import opened Basics
  import opened Matrix
  import opened Signatures
  import opened Scheduler
  import opened SchedulerSafety

  // ----- Runs -----

  /** The loop over as many iterations as there are ticks. */
  ghost function Run(cfg: Config, st: State, ticks: seq<Tick>): (r: Phase)
    requires Aligned(cfg, st)
    ensures r.Looping? ==> Aligned(cfg, r.st)
    decreases |ticks|
  {
    if ticks == [] then Looping(st)
    else
      var phase := Iterate(cfg, st, ticks[0]);
      if phase.Looping? then Run(cfg, phase.st, ticks[1..]) else phase
  }

  /** What the proofs below use of a good configuration. */
  ghost predicate Usable(cfg: Config) {
    && Steady(cfg) && AllDemanding(cfg) && AllFit(cfg)
    && (forall n :: n in cfg.context.jobs ==> n in cfg.listing)
    && forall n, p {:trigger Below(cfg, n, p)} :: n in cfg.context.jobs && p in Deps(cfg, n) ==> Below(cfg, n, p)
  }

  lemma GoodConfigUsable(cfg: Config)
    requires GoodConfig(cfg)
    ensures Usable(cfg)
  {
    GoodConfigSteady(cfg);
    GoodConfigFits(cfg);
    assert forall n :: n in (set m | m in cfg.listing) ==> n in cfg.listing;
    forall n, p | n in cfg.context.jobs && p in Deps(cfg, n)
      ensures Below(cfg, n, p)
    {
      DependencyBelow(cfg, n, p);
    }
  }

  /** Every job fits the whole budget. */
  ghost predicate AllFit(cfg: Config) {
    1 <= cfg.workers &&
    forall n {:trigger Demanding(cfg, n)} :: n in cfg.slots && n in cfg.needs ==>
      cfg.slots[n] <= cfg.workers && cfg.needs[n] <= cfg.memory
  }

  lemma GoodConfigFits(cfg: Config)
    requires GoodConfig(cfg)
    ensures AllFit(cfg) && AllDemanding(cfg)
  {
    forall n | n in cfg.slots && n in cfg.needs
      ensures Demanding(cfg, n) && cfg.slots[n] <= cfg.workers && cfg.needs[n] <= cfg.memory
    {
      GoodJobDemands(cfg, n);
    }
  }

  // ----- The order of dependencies -----

  function StageDepth(cfg: Config, n: string): nat
    requires n in cfg.context.jobs
  {
    |set m | m in cfg.context.jobs && Stage(JobOf(cfg, m)) < Stage(JobOf(cfg, n))|
  }

  function RankIn(cfg: Config, n: string): nat {
    if n in cfg.context.rank then cfg.context.rank[n] else 0
  }

  /** `p` is smaller than `n` in the well-founded order of stages and ranks. */
  predicate Below(cfg: Config, n: string, p: string) {
    && n in cfg.context.jobs && p in cfg.context.jobs
    && (StageDepth(cfg, p) < StageDepth(cfg, n)
        || (StageDepth(cfg, p) == StageDepth(cfg, n) && RankIn(cfg, p) < RankIn(cfg, n)))
  }

  lemma StageDepthFalls(cfg: Config, n: string, p: string)
    requires n in cfg.context.jobs && p in cfg.context.jobs && Stage(JobOf(cfg, p)) <= Stage(JobOf(cfg, n))
    ensures StageDepth(cfg, p) <= StageDepth(cfg, n)
    ensures Stage(JobOf(cfg, p)) < Stage(JobOf(cfg, n)) ==> StageDepth(cfg, p) < StageDepth(cfg, n)
  {
    var below := set m | m in cfg.context.jobs && Stage(JobOf(cfg, m)) < Stage(JobOf(cfg, p));
    var beyond := set m | m in cfg.context.jobs && Stage(JobOf(cfg, m)) < Stage(JobOf(cfg, n));
    assert below <= beyond;
    Subset(below, beyond);
    if Stage(JobOf(cfg, p)) < Stage(JobOf(cfg, n)) {
      assert below + {p} <= beyond;
      Subset(below + {p}, beyond);
    }
  }

  lemma Subset(a: set<string>, b: set<string>)
    requires a <= b
    ensures |a| <= |b|
  {
    assert b == a + (b - a);
  }

  lemma DependencyBelow(cfg: Config, n: string, p: string)
    requires GoodConfig(cfg) && n in cfg.context.jobs && p in Deps(cfg, n)
    ensures Below(cfg, n, p)
  {
    assert GoodJob(cfg, n);
    DependenciesFall(cfg.context.jobs, cfg.context.platform, cfg.context.rank, n, p);
    StageDepthFalls(cfg, n, p);
  }

  // ----- Steps of a run -----

  ghost predicate StageNotLower(st: State, st1: State) {
    st.stage.Some? ==> st1.stage.Some? && st.stage.value <= st1.stage.value
  }

  /** The wait of this iteration, if there is one, returned a job that was running. */
  ghost predicate Delivers(cfg: Config, st: State, tick: Tick)
    requires Aligned(cfg, st)
  {
    var r := WholeScan(cfg, st, tick);
    r.Drift? || DeliversAfter(r.scan, tick)
  }

  ghost predicate DeliversAfter(scan: Scan, tick: Tick) {
    scan.st.active == map[] || (tick.done != [] && tick.done[0].name in scan.st.active)
  }

  /** One iteration: the invariant is kept, the stage does not fall, a changed checkout is noticed
      with nothing running, and going on means less work is left, unless the wait timed out. */
  ghost predicate IterateKept(cfg: Config, st: State, delivers: bool, phase: Phase) {
    && Inv(cfg, phase.st)
    && (phase.SourceChanged? ==> phase.st.active == map[] && phase.st.executed == st.executed)
    && (!phase.SourceChanged? ==> StageNotLower(st, phase.st))
    && Measure(phase.st) <= Measure(st)
    && (phase.Looping? && delivers ==> Measure(phase.st) < Measure(st))
  }

  /** What the scan of an iteration leaves, in terms of the state before it. */
  ghost predicate ScanLeaves(cfg: Config, st: State, r: Move) {
    if r.Drift? then
      Inv(cfg, r.st) && r.st.active == map[] && r.st.executed == st.executed && Measure(r.st) <= Measure(st)
    else
      && Inv(cfg, r.scan.st) && StageNotLower(st, r.scan.st) && Measure(r.scan.st) <= Measure(st)
      && (r.scan.reused ==> Measure(r.scan.st) < Measure(st))
      && st.active.Keys <= r.scan.st.active.Keys
  }

  lemma ScanKeptLeaves(cfg: Config, st: State, r: Move)
    requires ScanKept(cfg, FreshScan(cfg, st), r)
    ensures ScanLeaves(cfg, st, r)
  {
  }

  lemma WholeScanSafe(cfg: Config, st: State, tick: Tick)
    requires Usable(cfg) && Inv(cfg, st)
    ensures ScanLeaves(cfg, st, WholeScan(cfg, st, tick))
  {
    ScanSafe(cfg, FreshScan(cfg, st), cfg.listing, tick.clean, tick.intact);
    ScanKeptLeaves(cfg, st, WholeScan(cfg, st, tick));
  }

  lemma AfterScanSafe(cfg: Config, st: State, scan: Scan, tick: Tick)
    requires Usable(cfg) && Inv(cfg, scan.st)
    requires Measure(scan.st) <= Measure(st) && StageNotLower(st, scan.st)
    requires scan.reused ==> Measure(scan.st) < Measure(st)
    ensures IterateKept(cfg, st, DeliversAfter(scan, tick), AfterScan(cfg, scan, tick))
  {
    if scan.st.active != map[] {
      FinishAllSafe(cfg, scan.st, tick.done);
    }
  }

  lemma IterateSafe(cfg: Config, st: State, tick: Tick)
    requires Usable(cfg) && Inv(cfg, st)
    ensures IterateKept(cfg, st, Delivers(cfg, st, tick), Iterate(cfg, st, tick))
  {
    if st.pending != {} || st.active != map[] {
      WholeScanSafe(cfg, st, tick);
      DecideSafe(cfg, st, WholeScan(cfg, st, tick), tick);
    }
  }

  /** The rest of an iteration, once its scan is known. */
  lemma DecideSafe(cfg: Config, st: State, r: Move, tick: Tick)
    requires Usable(cfg) && ScanLeaves(cfg, st, r)
    ensures IterateKept(cfg, st, r.Drift? || DeliversAfter(r.scan, tick),
                        if r.Drift? then SourceChanged(r.st) else AfterScan(cfg, r.scan, tick))
  {
    if !r.Drift? {
      AfterScanSafe(cfg, st, r.scan, tick);
    }
  }

  /** Safety over every run: whatever happens, every reached state satisfies the invariant. */
  lemma {:induction false} RunSafe(cfg: Config, st: State, ticks: seq<Tick>)
    requires Usable(cfg) && Inv(cfg, st)
    ensures Inv(cfg, Run(cfg, st, ticks).st)
    ensures Run(cfg, st, ticks).SourceChanged? ==> Run(cfg, st, ticks).st.active == map[]
    ensures !Run(cfg, st, ticks).SourceChanged? ==> StageNotLower(st, Run(cfg, st, ticks).st)
    decreases |ticks|
  {
    if ticks != [] {
      IterateSafe(cfg, st, ticks[0]);
      var phase := Iterate(cfg, st, ticks[0]);
      if phase.Looping? {
        RunSafe(cfg, phase.st, ticks[1..]);
      }
    }
  }

  // ----- Termination -----

  ghost predicate AllDeliver(cfg: Config, st: State, ticks: seq<Tick>)
    requires Aligned(cfg, st)
    decreases |ticks|
  {
    ticks == [] ||
    (Delivers(cfg, st, ticks[0]) &&
     var phase := Iterate(cfg, st, ticks[0]);
     phase.Looping? ==> AllDeliver(cfg, phase.st, ticks[1..]))
  }

  /** Termination: leaving timeouts aside, the loop ends after at most `Measure` further iterations,
      that is, twice the number of jobs from the start of a run. */
  lemma {:induction false} RunTerminates(cfg: Config, st: State, ticks: seq<Tick>)
    requires Usable(cfg) && Inv(cfg, st) && AllDeliver(cfg, st, ticks)
    requires |ticks| > Measure(st)
    ensures !Run(cfg, st, ticks).Looping?
    decreases |ticks|
  {
    var phase := Iterate(cfg, st, ticks[0]);
    IterateSafe(cfg, st, ticks[0]);
    if phase.Looping? {
      RunTerminates(cfg, phase.st, ticks[1..]);
    }
  }

  // ----- No deadlock -----

  /** Nothing runs and no pending job is ready. */
  ghost predicate Stuck(cfg: Config, st: State) {
    st.active == map[] && forall n :: n in st.pending && n in cfg.context.jobs ==> !Ready(cfg, st, n)
  }

  /** With nothing running everything is free. */
  lemma IdleIsFree(cfg: Config, s: Scan)
    requires ScanInv(cfg, s) && s.st.active == map[]
    ensures s.available == cfg.workers && s.memory == cfg.memory && s.st.resources == {}
  {
    assert Holds(Budget, cfg, s.st) && Holds(Resources, cfg, s.st);
    assert s.st.allocations == map[];
    assert MemoryTable(cfg, s.st.allocations) == map[];
  }

  /** Then a ready job is always taken: reused, started, or stopped by a changed checkout. Slots,
      memory, resources and exclusivity cannot hold it back. */
  lemma IdleTakes(cfg: Config, s: Scan, n: string, clean: string -> bool, intact: JobResult -> bool)
    requires Aligned(cfg, s.st) && n in cfg.context.jobs && s.st.active == map[]
    requires s.available == cfg.workers && s.memory == cfg.memory && s.st.resources == {}
    requires cfg.slots[n] <= cfg.workers && cfg.needs[n] <= cfg.memory
    requires Ready(cfg, s.st, n)
    ensures var r := Consider(cfg, s, n, clean, intact);
      r.Drift? || r.scan.reused || r.scan.st.active != map[]
  {
    assert n in Start(cfg, Opened(cfg, s, n), n).st.active;
    assert Fits(cfg, Opened(cfg, s, n), n);
  }

  /** What a taken job leaves for the rest of the scan to see. */
  lemma TakenShows(cfg: Config, t: Scan, names: seq<string>, clean: string -> bool, intact: JobResult -> bool)
    requires AllDemanding(cfg) && ScanInv(cfg, t) && Known(cfg, names)
    requires t.reused || t.st.active != map[]
    ensures var r := ScanOver(cfg, t, names, clean, intact);
      r.Drift? || r.scan.reused || r.scan.st.active != map[]
  {
    ScanSafe(cfg, t, names, clean, intact);
  }

  /** A scan that ends with nothing running and nothing reused found no ready job. */
  lemma {:induction false} IdleScan(cfg: Config, s: Scan, names: seq<string>, clean: string -> bool,
                                    intact: JobResult -> bool)
    requires Usable(cfg) && ScanInv(cfg, s) && s.st.active == map[] && !s.reused
    requires Known(cfg, names)
    ensures var r := ScanOver(cfg, s, names, clean, intact);
      !r.Drift? && r.scan.st.active == map[] && !r.scan.reused ==>
        r.scan == s && forall n :: n in names && n in s.st.pending ==> !Ready(cfg, s.st, n)
    decreases |names|
  {
    if names != [] {
      var n := names[0];
      if n !in s.st.pending {
        IdleScan(cfg, s, names[1..], clean, intact);
      } else {
        IdleIsFree(cfg, s);
        assert Demanding(cfg, n);
        var move := Consider(cfg, s, n, clean, intact);
        if Ready(cfg, s.st, n) {
          IdleTakes(cfg, s, n, clean, intact);
          ConsiderSafe(cfg, s, n, clean, intact);
          if move.Next? {
            TakenShows(cfg, move.scan, names[1..], clean, intact);
          }
        } else {
          IdleScan(cfg, s, names[1..], clean, intact);
        }
      }
    }
  }

  /** The loop is left only with nothing running and no pending job ready. */
  lemma LoopExit(cfg: Config, st: State, tick: Tick, phase: Phase)
    requires Usable(cfg) && Inv(cfg, st)
    requires phase == Iterate(cfg, st, tick) && phase.LoopDone?
    ensures Stuck(cfg, phase.st)
  {
    if st.pending != {} || st.active != map[] {
      WholeScanSafe(cfg, st, tick);
      var r := WholeScan(cfg, st, tick);
      if !r.scan.reused {
        IdleScan(cfg, FreshScan(cfg, st), cfg.listing, tick.clean, tick.intact);
      }
    }
  }

  lemma {:induction false} RunExit(cfg: Config, st: State, ticks: seq<Tick>)
    requires Usable(cfg) && Inv(cfg, st)
    requires Run(cfg, st, ticks).LoopDone?
    ensures Inv(cfg, Run(cfg, st, ticks).st) && Stuck(cfg, Run(cfg, st, ticks).st)
    decreases |ticks|
  {
    var phase := Iterate(cfg, st, ticks[0]);
    IterateSafe(cfg, st, ticks[0]);
    if phase.Looping? {
      RunExit(cfg, phase.st, ticks[1..]);
    } else {
      LoopExit(cfg, st, ticks[0], phase);
    }
  }

  // ----- Why a job is left over -----

  /** A chain of dependencies from a pending job, over pending jobs, down to one that was executed in
      this run and failed. */
  ghost predicate FailureChain(cfg: Config, st: State, chain: seq<string>) {
    && |chain| >= 2
    && (forall i :: 0 <= i < |chain| - 1 ==>
          chain[i] in st.pending && chain[i] in cfg.context.jobs && chain[i + 1] in Deps(cfg, chain[i]))
    && chain[|chain| - 1] in st.executed
    && chain[|chain| - 1] in st.results && st.results[chain[|chain| - 1]].status == Fail
  }

  lemma ChainGrows(cfg: Config, st: State, n: string, rest: seq<string>)
    requires FailureChain(cfg, st, rest) && n in st.pending && n in cfg.context.jobs && rest[0] in Deps(cfg, n)
    ensures FailureChain(cfg, st, [n] + rest)
  {
  }

  /** A resolved dependency that has not passed was executed in this run and failed. */
  lemma UnpassedFailed(cfg: Config, st: State, p: string)
    requires Inv(cfg, st) && p in cfg.context.jobs && !Unresolved(st, p) && !Passed(st, p)
    ensures p in st.executed && p in st.results && st.results[p].status == Fail
  {
    assert Holds(Results, cfg, st);
    assert Explained(cfg, st, p);
  }

  /** Completeness: every job left pending is there because of an executed job that failed among its
      transitive parents and earlier-stage jobs. */
  lemma {:induction false} LeftOverExplained(cfg: Config, st: State, n: string) returns (chain: seq<string>)
    requires Usable(cfg) && Inv(cfg, st) && Stuck(cfg, st) && n in st.pending
    ensures FailureChain(cfg, st, chain) && chain[0] == n
    decreases StageDepth(cfg, n), RankIn(cfg, n)
  {
    var p :| p in Deps(cfg, n) && (Unresolved(st, p) || !Passed(st, p));
    if p in st.pending {
      assert Below(cfg, n, p);
      var rest := LeftOverExplained(cfg, st, p);
      ChainGrows(cfg, st, n, rest);
      chain := [n] + rest;
    } else {
      UnpassedFailed(cfg, st, p);
      chain := [n, p];
    }
  }

  // ----- The verdict -----

  /** What is found after the loop: whether the checkout is unchanged, the identity of the installed
      product, whether the baseline is unchanged, and which logs still match; for a final run also the
      results of the full discovery and its signatures for a product. */
  datatype World = World(
    clean: bool,
    installed: string,
    baselineSame: bool,
    intact: JobResult -> bool,
    discovery: map<string, JobResult>,
    discoverySign: string -> map<string, string>)

  datatype Verdict = Green(carried: bool) | Findings | InputsChanged

  /** Jobs left over are marked blocked, unless an older pass stands in the ledger. */
  function Marked(cfg: Config, st: State): map<string, JobResult> {
    map n | n in st.results.Keys + st.pending ::
      if n in st.pending && !Passed(st, n) then JobResult(Blocked, cfg.head, None, None, 0) else st.results[n]
  }

  /** `reject_changed_inputs`: nothing executed in this run may count. */
  function Rejected(st: State, results: map<string, JobResult>): map<string, JobResult> {
    map n | n in results :: if n in st.executed then results[n].(status := Fail) else results[n]
  }

  /** Every job of the full discovery has the signature that the final product gives it, and its log. */
  predicate DiscoveryHolds(product: string, w: World) {
    var signatures := w.discoverySign(product);
    forall n :: n in signatures ==>
      n in w.discovery && w.discovery[n].signature == Some(signatures[n]) && w.intact(w.discovery[n])
  }

  predicate JobGreen(cfg: Config, st: State, results: map<string, JobResult>, w: World, n: string) {
    && n in results && results[n].status == Pass
    && w.intact(results[n])
    && n in st.signatures && results[n].signature == Some(st.signatures[n])
    && (cfg.final ==> results[n].head == cfg.head)
  }

  /** The verdict and the ledger after a loop that ran to its end. */
  function Conclude(cfg: Config, st: State, w: World): (Verdict, map<string, JobResult>) {
    var results := Marked(cfg, st);
    if !w.clean then (InputsChanged, Rejected(st, results))
    else if BUILD in cfg.context.jobs && st.recorded.Some? && st.recorded.value != ""
            && w.installed != st.recorded.value then
      (InputsChanged, Rejected(st, results))
    else if !w.baselineSame then (InputsChanged, Rejected(st, results))
    else if cfg.final && !DiscoveryHolds(st.product, w) then (InputsChanged, Rejected(st, results))
    else if forall n :: n in cfg.context.jobs ==> JobGreen(cfg, st, results, w, n) then
      (Green(exists n :: n in cfg.context.jobs && n in results && results[n].head != cfg.head), results)
    else (Findings, results)
  }

  /** A job that was taken carries its signature and, in a final run, the current HEAD. */
  lemma TakenCarries(cfg: Config, st: State, n: string)
    requires Inv(cfg, st) && n in cfg.context.jobs && n !in st.pending && n !in st.active
    ensures n in st.results && st.results[n].signature == Some(st.signatures[n])
    ensures n !in st.executed ==> Passed(st, n)
    ensures cfg.final ==> st.results[n].head == cfg.head
  {
    assert Holds(Results, cfg, st) && Holds(Signed, cfg, st);
    assert Explained(cfg, st, n) && Carries(st, n, st.signatures[n]);
  }

  lemma MarkedWithoutPending(cfg: Config, st: State)
    requires st.pending == {}
    ensures Marked(cfg, st) == st.results
  {
  }

  /** Nothing failed and nothing was damaged. */
  ghost predicate AllSound(cfg: Config, st: State, w: World) {
    && (forall n :: n in st.executed ==> Passed(st, n))
    && (forall n :: n in cfg.context.jobs && n in st.results ==> w.intact(st.results[n]))
  }

  lemma GreenWhenNothingPending(cfg: Config, st: State, w: World)
    requires Inv(cfg, st) && st.pending == {} && st.active == map[]
    ensures (forall n :: n in cfg.context.jobs ==> JobGreen(cfg, st, Marked(cfg, st), w, n)) <==> AllSound(cfg, st, w)
  {
    MarkedWithoutPending(cfg, st);
    forall n | n in cfg.context.jobs
      ensures JobGreen(cfg, st, st.results, w, n) <==> Passed(st, n) && w.intact(st.results[n])
      ensures n in st.results && (n !in st.executed ==> Passed(st, n))
    {
      TakenCarries(cfg, st, n);
    }
  }

  lemma PendingMeansFailure(cfg: Config, st: State, w: World)
    requires Usable(cfg) && Inv(cfg, st) && Stuck(cfg, st) && st.pending != {}
    ensures exists f :: f in st.executed && !Passed(st, f) && !JobGreen(cfg, st, Marked(cfg, st), w, f)
  {
    var n :| n in st.pending;
    var chain := LeftOverExplained(cfg, st, n);
    var f := chain[|chain| - 1];
    assert f in st.executed && !Passed(st, f) && !JobGreen(cfg, st, Marked(cfg, st), w, f);
  }

  /** The verdict is green exactly when nothing executed has failed and all evidence is still intact:
      its other clauses, the signatures and the HEAD, can fail for no job that was taken, and then no
      job was left over. */
  lemma VerdictExact(cfg: Config, st: State, w: World)
    requires Usable(cfg) && Inv(cfg, st) && Stuck(cfg, st)
    requires !Conclude(cfg, st, w).0.InputsChanged?
    ensures Conclude(cfg, st, w).0.Green? <==> AllSound(cfg, st, w)
    ensures Conclude(cfg, st, w).0.Green? ==> st.pending == {}
  {
    if st.pending != {} {
      PendingMeansFailure(cfg, st, w);
    } else {
      GreenWhenNothingPending(cfg, st, w);
    }
  }

  lemma GreenMeans(cfg: Config, st: State, w: World, n: string)
    requires Conclude(cfg, st, w).0.Green? && n in cfg.context.jobs
    ensures JobGreen(cfg, st, Marked(cfg, st), w, n) && Conclude(cfg, st, w).1 == Marked(cfg, st)
    ensures BUILD in cfg.context.jobs && st.recorded.Some? && st.recorded.value != "" ==>
      w.installed == st.recorded.value
    ensures cfg.final ==> DiscoveryHolds(st.product, w)
  {
  }

  /** A pass in the marked ledger was there before. */
  lemma GreenWasPassed(cfg: Config, st: State, w: World, n: string)
    requires JobGreen(cfg, st, Marked(cfg, st), w, n)
    ensures Passed(st, n)
  {
  }

  /** A green verdict speaks of the product that is installed when it is given: every job holds a pass
      whose signature is the one computed from that product. */
  lemma GreenAttestsProduct(cfg: Config, st: State, w: World, n: string)
    requires GoodConfig(cfg) && Inv(cfg, st) && Conclude(cfg, st, w).0.Green?
    requires BUILD in cfg.context.jobs && st.product != "" && n in cfg.context.jobs
    ensures cfg.final ==> DiscoveryHolds(w.installed, w)
    ensures n in Conclude(cfg, st, w).1
    ensures Conclude(cfg, st, w).1[n].status == Pass
    ensures Conclude(cfg, st, w).1[n].signature == Some(Signature(WithProduct(cfg.context, w.installed), n))
  {
    GreenMeans(cfg, st, w, BUILD);
    GreenMeans(cfg, st, w, n);
    GreenWasPassed(cfg, st, w, BUILD);
    assert Holds(Bound, cfg, st);
    SignatureIs(cfg, st, n);
  }

  lemma SignatureIs(cfg: Config, st: State, n: string)
    requires GoodConfig(cfg) && Inv(cfg, st) && n in cfg.context.jobs
    ensures st.signatures[n] == Signature(WithProduct(cfg.context, st.product), n)
  {
    assert Holds(Signed, cfg, st);
    assert SignsRight(cfg, st.product);
  }

  // ----- The whole program, from any ledger and whatever its surroundings answer -----

  /** In every reachable state each running job, and nothing else, holds the slots it was given; together
      they fit the budgets, the running jobs share no resource and belong to one stage, an exclusive job is
      alone, and a job that left `pending` has all its parents and every job of an earlier stage passed. */
  lemma ReachableSafe(cfg: Config, ledger: map<string, JobResult>, recorded: Option<string>, ticks: seq<Tick>)
    requires GoodConfig(cfg)
    ensures var st := Run(cfg, Initial(cfg, ledger, recorded), ticks).st;
      && st.active.Keys <= cfg.context.jobs.Keys
      && st.allocations.Keys == st.active.Keys
      && (forall n :: n in st.active ==> st.allocations[n] == cfg.slots[n])
      && Total(st.allocations) <= cfg.workers
      && Total(MemoryTable(cfg, st.allocations)) <= cfg.memory
      && (forall n, m :: n in st.active && m in st.active && n != m ==>
            && ResourceKey(cfg, n) != ResourceKey(cfg, m)
            && !JobOf(cfg, n).exclusive
            && Stage(JobOf(cfg, n)) == Stage(JobOf(cfg, m)))
      && (forall n, p :: n in cfg.context.jobs && n !in st.pending && p in Deps(cfg, n) ==>
            !Unresolved(st, p) && Passed(st, p))
  {
    GoodConfigUsable(cfg);
    InitialInv(cfg, ledger, recorded);
    RunSafe(cfg, Initial(cfg, ledger, recorded), ticks);
    var st := Run(cfg, Initial(cfg, ledger, recorded), ticks).st;
    InvSays(cfg, st);
  }

  lemma InvSays(cfg: Config, st: State)
    requires Inv(cfg, st)
    ensures WithinBudget(cfg, st) && ResourcesHeld(cfg, st) && ExclusiveAlone(cfg, st) && OneStage(cfg, st)
    ensures DepsResolved(cfg, st)
  {
    assert Holds(Budget, cfg, st) && Holds(Resources, cfg, st) && Holds(Exclusive, cfg, st);
    assert Holds(Staged, cfg, st) && Holds(Resolved, cfg, st);
  }

  /** Leaving timeouts aside, the loop ends within two iterations per job. */
  lemma ProgramTerminates(cfg: Config, ledger: map<string, JobResult>, recorded: Option<string>, ticks: seq<Tick>)
    requires GoodConfig(cfg) && AllDeliver(cfg, Initial(cfg, ledger, recorded), ticks)
    requires |ticks| > 2 * |cfg.context.jobs|
    ensures !Run(cfg, Initial(cfg, ledger, recorded), ticks).Looping?
  {
    GoodConfigUsable(cfg);
    InitialInv(cfg, ledger, recorded);
    RunTerminates(cfg, Initial(cfg, ledger, recorded), ticks);
  }

  /** If the loop ends, every job left over has a chain of dependencies to a job that failed in this
      run. */
  lemma ProgramComplete(cfg: Config, ledger: map<string, JobResult>, recorded: Option<string>, ticks: seq<Tick>,
                        n: string)
    returns (chain: seq<string>)
    requires GoodConfig(cfg) && Run(cfg, Initial(cfg, ledger, recorded), ticks).LoopDone?
    requires n in Run(cfg, Initial(cfg, ledger, recorded), ticks).st.pending
    ensures FailureChain(cfg, Run(cfg, Initial(cfg, ledger, recorded), ticks).st, chain) && chain[0] == n
  {
    GoodConfigUsable(cfg);
    InitialInv(cfg, ledger, recorded);
    RunExit(cfg, Initial(cfg, ledger, recorded), ticks);
    chain := LeftOverExplained(cfg, Run(cfg, Initial(cfg, ledger, recorded), ticks).st, n);
  }

  /** If the loop ends and the verdict is green, nothing was left over, and every job holds a pass with its
      current signature and an intact log, executed here or reused under the conditions of the reuse test. */
  lemma GreenRun(cfg: Config, ledger: map<string, JobResult>, recorded: Option<string>, ticks: seq<Tick>, w: World)
    requires GoodConfig(cfg)
    requires var r := Run(cfg, Initial(cfg, ledger, recorded), ticks);
      r.LoopDone? && Conclude(cfg, r.st, w).0.Green?
    ensures var st := Run(cfg, Initial(cfg, ledger, recorded), ticks).st;
      && st.pending == {} && st.active == map[]
      && (forall n :: n in cfg.context.jobs ==> Passed(st, n) && w.intact(st.results[n]))
      && (forall n :: n in cfg.context.jobs ==> n in st.signatures && Carries(st, n, st.signatures[n]))
      && (forall n :: n in cfg.context.jobs && n !in st.executed ==> ReusedRightly(cfg, st, n))
  {
    GoodConfigUsable(cfg);
    InitialInv(cfg, ledger, recorded);
    var st := Run(cfg, Initial(cfg, ledger, recorded), ticks).st;
    RunExit(cfg, Initial(cfg, ledger, recorded), ticks);
    VerdictExact(cfg, st, w);
    assert Holds(Results, cfg, st) && Holds(Signed, cfg, st);
    MarkedWithoutPending(cfg, st);
  }

  // ----- How a run ends -----

  /** The verdict of a run and the ledger it leaves. A checkout that changed before a new stage is
      rejected on the spot. */
  function Outcome(cfg: Config, phase: Phase, w: World): (Option<Verdict>, map<string, JobResult>) {
    match phase
    case Looping(st) => (None, st.results)
    case SourceChanged(st) => (Some(InputsChanged), Rejected(st, st.results))
    case LoopDone(st) => var (verdict, results) := Conclude(cfg, st, w); (Some(verdict), results)
  }

  lemma ExecutedHasResult(cfg: Config, st: State, n: string)
    requires Inv(cfg, st) && n in st.executed
    ensures n in st.results && n in cfg.context.jobs && n !in st.pending
  {
    assert Holds(Results, cfg, st);
    assert Explained(cfg, st, n);
  }

  /** What a rejection does with the result of job `n`. */
  ghost predicate Discarded(st: State, results: map<string, JobResult>, n: string) {
    && (n in st.executed ==> n in results && results[n].status == Fail)
    && (n !in st.executed && Passed(st, n) ==> n in results && results[n] == st.results[n])
  }

  lemma RejectedRight(cfg: Config, phase: Phase, w: World, n: string)
    requires Inv(cfg, phase.st) && Outcome(cfg, phase, w).0 == Some(InputsChanged)
    ensures Discarded(phase.st, Outcome(cfg, phase, w).1, n)
  {
    if n in phase.st.executed {
      ExecutedHasResult(cfg, phase.st, n);
    }
  }

  /** Of every run that ends with a rejection, before a new stage or behind the loop: nothing runs on, no
      job executed in this run holds a pass, so none of them can be reused, and every other pass stands. */
  lemma RejectionDiscards(cfg: Config, ledger: map<string, JobResult>, recorded: Option<string>, ticks: seq<Tick>,
                          w: World, n: string)
    requires GoodConfig(cfg)
    requires Outcome(cfg, Run(cfg, Initial(cfg, ledger, recorded), ticks), w).0 == Some(InputsChanged)
    ensures var phase := Run(cfg, Initial(cfg, ledger, recorded), ticks);
      phase.st.active == map[] && Discarded(phase.st, Outcome(cfg, phase, w).1, n)
  {
    GoodConfigUsable(cfg);
    InitialInv(cfg, ledger, recorded);
    RejectedRun(cfg, Initial(cfg, ledger, recorded), ticks, w, n);
  }

  lemma RejectedRun(cfg: Config, st: State, ticks: seq<Tick>, w: World, n: string)
    requires Usable(cfg) && Inv(cfg, st) && Outcome(cfg, Run(cfg, st, ticks), w).0 == Some(InputsChanged)
    ensures var phase := Run(cfg, st, ticks);
      phase.st.active == map[] && Discarded(phase.st, Outcome(cfg, phase, w).1, n)
  {
    RunSafe(cfg, st, ticks);
    if Run(cfg, st, ticks).LoopDone? {
      RunExit(cfg, st, ticks);
    }
    RejectedRight(cfg, Run(cfg, st, ticks), w, n);
  }
}

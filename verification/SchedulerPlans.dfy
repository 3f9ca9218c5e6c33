/** Runs whose surroundings follow a plan: the checkout never changes, the intact logs are fixed, and every wait
    returns one running job, which passes or fails as planned. Such a run always ends, and what it leaves is
    known; it shows what can happen in qualification/release/qualify.py, lines 516-652. */
module SchedulerPlans {
  import opened Basics
  import opened Matrix
  import opened Signatures
  import opened Scheduler
  import opened SchedulerSafety
  import opened SchedulerRuns
  import opened SchedulerLedger

  /** `installed` is the identity of the product behind a passed `build`. */
  datatype Plan = Plan(
    intact: JobResult -> bool, passes: string -> bool, log: string -> string, attempt: string -> nat, installed: string)

  function Unchanged(n: string): bool {
    true
  }

  function Ended(plan: Plan, n: string): Finish {
    Finish(n, plan.attempt(n), Returned(plan.passes(n), plan.log(n)), plan.installed)
  }

  ghost function PlannedDone(plan: Plan, active: map<string, string>): seq<Finish> {
    if active == map[] then []
    else
      var n :| n in active;
      [Ended(plan, n)]
  }

  ghost function PlannedScan(cfg: Config, st: State, plan: Plan): (r: Move)
    requires Aligned(cfg, st)
    ensures !r.Drift? ==> Aligned(cfg, r.scan.st)
  {
    ScanOver(cfg, FreshScan(cfg, st), cfg.listing, Unchanged, plan.intact)
  }

  ghost function PlannedTick(cfg: Config, st: State, plan: Plan): Tick
    requires Aligned(cfg, st)
  {
    var r := PlannedScan(cfg, st, plan);
    Tick(Unchanged, plan.intact, if r.Drift? then [] else PlannedDone(plan, r.scan.st.active))
  }

  /** At most `fuel` iterations from a state on. */
  ghost function Planned(cfg: Config, st: State, plan: Plan, fuel: nat): seq<Tick>
    requires Aligned(cfg, st)
    decreases fuel
  {
    if fuel == 0 then []
    else
      var tick := PlannedTick(cfg, st, plan);
      var phase := Iterate(cfg, st, tick);
      [tick] + if phase.Looping? then Planned(cfg, phase.st, plan, fuel - 1) else []
  }

  // ----- What a planned run keeps -----

  /** Job `n` is run, or was run, or will not be taken over from an earlier result. */
  ghost predicate Due(st: State, plan: Plan, n: string) {
    n in st.executed || n in st.active || (n in st.pending && (n in st.results ==> !plan.intact(st.results[n])))
  }

  /** A job executed in this run ended as planned. */
  ghost predicate EndedAsPlanned(st: State, plan: Plan, n: string) {
    n in st.executed ==> n in st.results && st.results[n].status == if plan.passes(n) then Pass else Fail
  }

  /** And it left the planned log. */
  ghost predicate LoggedAsPlanned(st: State, plan: Plan, n: string) {
    n in st.executed ==>
      n in st.results && st.results[n].log == Some(plan.log(n)) && st.results[n].attempt == plan.attempt(n)
  }

  /** A `build` executed in this run has installed the planned product. */
  ghost predicate BuiltAsPlanned(st: State, plan: Plan) {
    BUILD in st.executed && plan.passes(BUILD) ==> st.recorded == Some(plan.installed)
  }

  datatype Aspect = DueOnes | Ends | Logs | Builds

  /** Of the jobs in `due` and all jobs executed. */
  ghost predicate AspectKept(aspect: Aspect, st: State, plan: Plan, due: set<string>) {
    match aspect
    case DueOnes => forall n :: n in due ==> Due(st, plan, n)
    case Ends => forall n :: EndedAsPlanned(st, plan, n)
    case Logs => forall n :: n in due ==> LoggedAsPlanned(st, plan, n)
    case Builds => BUILD in due ==> BuiltAsPlanned(st, plan)
  }

  ghost predicate OnPlan(st: State, plan: Plan, due: set<string>) {
    forall aspect: Aspect :: AspectKept(aspect, st, plan, due)
  }

  lemma {:induction false} ScanKeepsDue(cfg: Config, s: Scan, names: seq<string>, plan: Plan, n: string)
    requires Aligned(cfg, s.st) && Known(cfg, names) && Due(s.st, plan, n)
    ensures var r := ScanOver(cfg, s, names, Unchanged, plan.intact);
      Due(if r.Drift? then r.st else r.scan.st, plan, n)
    decreases |names|
  {
    if names != [] && names[0] in s.st.pending && s.available != 0 {
      ConsiderKeepsDue(cfg, s, names[0], plan, n);
      var move := Consider(cfg, s, names[0], Unchanged, plan.intact);
      if move.Next? {
        ScanKeepsDue(cfg, move.scan, names[1..], plan, n);
      }
    } else if names != [] && names[0] !in s.st.pending {
      ScanKeepsDue(cfg, s, names[1..], plan, n);
    }
  }

  lemma ConsiderKeepsDue(cfg: Config, s: Scan, m: string, plan: Plan, n: string)
    requires Aligned(cfg, s.st) && m in cfg.context.jobs && Due(s.st, plan, n)
    ensures var move := Consider(cfg, s, m, Unchanged, plan.intact);
      Due(if move.Drift? then move.st else move.scan.st, plan, n)
  {
    StartKeepsDue(cfg, s, m, plan, n);
    StartKeepsDue(cfg, s.(st := s.st.(stage := Some(Stage(JobOf(cfg, m))))), m, plan, n);
  }

  lemma StartKeepsDue(cfg: Config, s: Scan, m: string, plan: Plan, n: string)
    requires Aligned(cfg, s.st) && m in cfg.context.jobs && Due(s.st, plan, n)
    ensures Due(Start(cfg, s, m).st, plan, n)
  {
  }

  /** A scan leaves results, executed jobs and the recorded identity alone. */
  lemma ScanOnPlan(cfg: Config, st: State, plan: Plan, due: set<string>)
    requires Aligned(cfg, st) && OnPlan(st, plan, due)
    ensures var r := PlannedScan(cfg, st, plan); !r.Drift? && OnPlan(r.scan.st, plan, due)
  {
    var tick := Tick(Unchanged, plan.intact, []);
    CleanNoDrift(cfg, FreshScan(cfg, st), cfg.listing, tick);
    var st1 := PlannedScan(cfg, st, plan).scan.st;
    ScanKeepsResults(cfg, FreshScan(cfg, st), cfg.listing, tick);
    ScanKeepsRecorded(cfg, FreshScan(cfg, st), cfg.listing, tick);
    forall aspect: Aspect
      ensures AspectKept(aspect, st1, plan, due)
    {
      assert AspectKept(aspect, st, plan, due);
      if aspect == Ends {
        forall n
          ensures EndedAsPlanned(st1, plan, n)
        {
          assert EndedAsPlanned(st, plan, n);
        }
      }
      if aspect == DueOnes {
        forall n | n in due
          ensures Due(st1, plan, n)
        {
          ScanKeepsDue(cfg, FreshScan(cfg, st), cfg.listing, plan, n);
        }
      }
    }
  }

  lemma EndOnPlan(cfg: Config, st: State, plan: Plan, due: set<string>, n: string)
    requires Aligned(cfg, st) && OnPlan(st, plan, due) && n in st.active
    ensures OnPlan(Finished(cfg, st, Ended(plan, n)), plan, due)
  {
    var st1 := Finished(cfg, st, Ended(plan, n));
    forall aspect: Aspect
      ensures AspectKept(aspect, st1, plan, due)
    {
      assert AspectKept(aspect, st, plan, due);
      if aspect == Ends {
        forall m
          ensures EndedAsPlanned(st1, plan, m)
        {
          assert EndedAsPlanned(st, plan, m);
        }
      }
    }
  }

  lemma DoneOnPlan(cfg: Config, st: State, plan: Plan, due: set<string>)
    requires Aligned(cfg, st) && OnPlan(st, plan, due)
    ensures OnPlan(FinishedAll(cfg, st, PlannedDone(plan, st.active)), plan, due)
  {
    var done := PlannedDone(plan, st.active);
    if done != [] {
      assert done[1..] == [];
      var n := done[0].name;
      EndOnPlan(cfg, st, plan, due, n);
      assert FinishedAll(cfg, st, done) == Finished(cfg, st, done[0]);
    }
  }

  /** One planned iteration never stops at a changed checkout, and keeps to the plan. */
  lemma IterateOnPlan(cfg: Config, st: State, plan: Plan, due: set<string>)
    requires Aligned(cfg, st) && OnPlan(st, plan, due)
    ensures var phase := Iterate(cfg, st, PlannedTick(cfg, st, plan));
      !phase.SourceChanged? && OnPlan(phase.st, plan, due)
  {
    var tick := PlannedTick(cfg, st, plan);
    ScanOnPlan(cfg, st, plan, due);
    assert WholeScan(cfg, st, tick) == PlannedScan(cfg, st, plan);
    var scan := PlannedScan(cfg, st, plan).scan;
    if scan.st.active != map[] {
      DoneOnPlan(cfg, scan.st, plan, due);
    }
  }

  lemma PlannedDelivers(cfg: Config, st: State, plan: Plan)
    requires Aligned(cfg, st)
    ensures Delivers(cfg, st, PlannedTick(cfg, st, plan))
  {
    assert WholeScan(cfg, st, PlannedTick(cfg, st, plan)) == PlannedScan(cfg, st, plan);
  }

  /** And it makes progress. */
  lemma IterateFalls(cfg: Config, st: State, plan: Plan)
    requires Usable(cfg) && Inv(cfg, st)
    ensures var phase := Iterate(cfg, st, PlannedTick(cfg, st, plan));
      Inv(cfg, phase.st) && (phase.Looping? ==> Measure(phase.st) < Measure(st))
  {
    PlannedDelivers(cfg, st, plan);
    IterateSafe(cfg, st, PlannedTick(cfg, st, plan));
  }

  datatype Part = Over | Kept | Idle | AsPlanned

  ghost predicate EndPart(part: Part, cfg: Config, phase: Phase, plan: Plan, due: set<string>) {
    match part
    case Over => phase.LoopDone?
    case Kept => Inv(cfg, phase.st)
    case Idle => Stuck(cfg, phase.st)
    case AsPlanned => OnPlan(phase.st, plan, due)
  }

  /** The run is over, with nothing running and nothing ready, and on plan. */
  ghost predicate PlanOver(cfg: Config, phase: Phase, plan: Plan, due: set<string>) {
    forall part: Part :: EndPart(part, cfg, phase, plan, due)
  }

  lemma LastIteration(cfg: Config, st: State, plan: Plan, due: set<string>)
    requires Usable(cfg) && Inv(cfg, st) && OnPlan(st, plan, due)
    ensures var phase := Iterate(cfg, st, PlannedTick(cfg, st, plan));
      !phase.Looping? ==> PlanOver(cfg, phase, plan, due)
  {
    var tick := PlannedTick(cfg, st, plan);
    var phase := Iterate(cfg, st, tick);
    IterateOnPlan(cfg, st, plan, due);
    IterateFalls(cfg, st, plan);
    if phase.LoopDone? {
      LoopExit(cfg, st, tick, phase);
    }
  }

  lemma PlannedUnfolds(cfg: Config, st: State, plan: Plan, fuel: nat)
    requires Aligned(cfg, st) && fuel > 0
    ensures var phase := Iterate(cfg, st, PlannedTick(cfg, st, plan));
      Run(cfg, st, Planned(cfg, st, plan, fuel))
      == if phase.Looping? then Run(cfg, phase.st, Planned(cfg, phase.st, plan, fuel - 1)) else phase
  {
    var tick, phase := PlannedTick(cfg, st, plan), Iterate(cfg, st, PlannedTick(cfg, st, plan));
    var rest := if phase.Looping? then Planned(cfg, phase.st, plan, fuel - 1) else [];
    assert Planned(cfg, st, plan, fuel) == [tick] + rest;
    RunUnfolds(cfg, st, tick, rest);
  }

  lemma RunUnfolds(cfg: Config, st: State, tick: Tick, rest: seq<Tick>)
    requires Aligned(cfg, st)
    ensures var phase := Iterate(cfg, st, tick);
      Run(cfg, st, [tick] + rest) == if phase.Looping? then Run(cfg, phase.st, rest) else phase
  {
    assert ([tick] + rest)[0] == tick && ([tick] + rest)[1..] == rest;
  }

  datatype Half = Defined | Reached

  ghost predicate EndHalf(half: Half, cfg: Config, st: State, plan: Plan, fuel: nat, phase: Phase) {
    match half
    case Defined => Aligned(cfg, st)
    case Reached => Aligned(cfg, st) && phase == Run(cfg, st, Planned(cfg, st, plan, fuel))
  }

  /** The planned run comes to this phase. */
  ghost predicate ComesTo(cfg: Config, st: State, plan: Plan, fuel: nat, phase: Phase) {
    forall half: Half :: EndHalf(half, cfg, st, plan, fuel, phase)
  }

  lemma ComesToIs(cfg: Config, st: State, plan: Plan, fuel: nat, phase: Phase)
    ensures ComesTo(cfg, st, plan, fuel, phase)
       <==> Aligned(cfg, st) && phase == Run(cfg, st, Planned(cfg, st, plan, fuel))
  {
    if ComesTo(cfg, st, plan, fuel, phase) {
      assert EndHalf(Reached, cfg, st, plan, fuel, phase);
    }
  }

  ghost predicate LeadHalf(half: Half, cfg: Config, st: State, plan: Plan, fuel: nat, next: State) {
    match half
    case Defined => Aligned(cfg, st) && fuel > 0
    case Reached =>
      Aligned(cfg, st) && fuel > 0 && var phase := Iterate(cfg, st, PlannedTick(cfg, st, plan));
      phase.Looping? && phase.st == next
  }

  /** The next iteration goes on with this state. */
  ghost predicate LeadsTo(cfg: Config, st: State, plan: Plan, fuel: nat, next: State) {
    forall half: Half :: LeadHalf(half, cfg, st, plan, fuel, next)
  }

  /** Where the rest of the run comes to, the run comes to. */
  lemma ComesToNext(cfg: Config, st: State, plan: Plan, fuel: nat, next: State, phase: Phase)
    requires LeadsTo(cfg, st, plan, fuel, next) && fuel > 0 && ComesTo(cfg, next, plan, fuel - 1, phase)
    ensures ComesTo(cfg, st, plan, fuel, phase)
  {
    assert LeadHalf(Reached, cfg, st, plan, fuel, next);
    PlannedUnfolds(cfg, st, plan, fuel);
    ComesToIs(cfg, next, plan, fuel - 1, phase);
    ComesToIs(cfg, st, plan, fuel, phase);
  }

  ghost predicate FitHalf(half: Half, cfg: Config, st: State, plan: Plan, due: set<string>) {
    match half
    case Defined => Usable(cfg)
    case Reached => Inv(cfg, st) && OnPlan(st, plan, due)
  }

  /** A state from which a planned run may go on. */
  ghost predicate Fit(cfg: Config, st: State, plan: Plan, due: set<string>) {
    forall half: Half :: FitHalf(half, cfg, st, plan, due)
  }

  lemma FitIs(cfg: Config, st: State, plan: Plan, due: set<string>)
    ensures Fit(cfg, st, plan, due) <==> Usable(cfg) && Inv(cfg, st) && OnPlan(st, plan, due)
  {
    if Fit(cfg, st, plan, due) {
      assert FitHalf(Defined, cfg, st, plan, due) && FitHalf(Reached, cfg, st, plan, due);
    }
  }

  /** What one iteration leaves to the rest of the run, or the end of the run. */
  lemma PlannedStep(cfg: Config, st: State, plan: Plan, due: set<string>, fuel: nat)
    returns (goOn: bool, phase: Phase)
    requires Fit(cfg, st, plan, due) && fuel > 0
    ensures !goOn ==> PlanOver(cfg, phase, plan, due) && ComesTo(cfg, st, plan, fuel, phase)
    ensures goOn ==> LeadsTo(cfg, st, plan, fuel, phase.st) && Fit(cfg, phase.st, plan, due)
    ensures goOn ==> Measure(phase.st) < Measure(st)
  {
    FitIs(cfg, st, plan, due);
    phase := Iterate(cfg, st, PlannedTick(cfg, st, plan));
    goOn := phase.Looping?;
    IterateOnPlan(cfg, st, plan, due);
    IterateFalls(cfg, st, plan);
    LastIteration(cfg, st, plan, due);
    FitIs(cfg, phase.st, plan, due);
    if !goOn {
      PlannedUnfolds(cfg, st, plan, fuel);
      ComesToIs(cfg, st, plan, fuel, phase);
    }
  }

  lemma {:induction false} PlannedEnd(cfg: Config, st: State, plan: Plan, due: set<string>, fuel: nat)
    returns (phase: Phase)
    requires Fit(cfg, st, plan, due) && fuel > Measure(st)
    ensures ComesTo(cfg, st, plan, fuel, phase) && PlanOver(cfg, phase, plan, due)
    decreases fuel
  {
    var goOn, first := PlannedStep(cfg, st, plan, due, fuel);
    phase := first;
    if goOn {
      phase := PlannedEnd(cfg, first.st, plan, due, fuel - 1);
      ComesToNext(cfg, st, plan, fuel, first.st, phase);
    }
  }

  /** A planned run of enough iterations comes to such an end. */
  lemma PlannedRun(cfg: Config, st: State, plan: Plan, due: set<string>, fuel: nat)
    requires Usable(cfg) && Inv(cfg, st) && OnPlan(st, plan, due) && fuel > Measure(st)
    ensures PlanOver(cfg, Run(cfg, st, Planned(cfg, st, plan, fuel)), plan, due)
  {
    FitIs(cfg, st, plan, due);
    var phase := PlannedEnd(cfg, st, plan, due, fuel);
    ComesToIs(cfg, st, plan, fuel, phase);
  }

  /** A tick with the planned answers. */
  ghost predicate Answers(tick: Tick, plan: Plan) {
    && tick.intact == plan.intact && tick.clean == Unchanged
    && forall i :: 0 <= i < |tick.done| ==> tick.done[i].installed == plan.installed
  }

  ghost predicate AllAnswer(ticks: seq<Tick>, plan: Plan) {
    forall k :: 0 <= k < |ticks| ==> Answers(ticks[k], plan)
  }

  lemma AnswerFirst(tick: Tick, rest: seq<Tick>, plan: Plan)
    requires Answers(tick, plan) && AllAnswer(rest, plan)
    ensures AllAnswer([tick] + rest, plan)
  {
  }

  lemma PlannedCons(cfg: Config, st: State, plan: Plan, fuel: nat)
    returns (tick: Tick, rest: seq<Tick>, next: Option<State>)
    requires Aligned(cfg, st) && fuel > 0
    ensures Planned(cfg, st, plan, fuel) == [tick] + rest && Answers(tick, plan)
    ensures next.Some? ==> Aligned(cfg, next.value) && rest == Planned(cfg, next.value, plan, fuel - 1)
    ensures next.None? ==> rest == []
  {
    tick := PlannedTick(cfg, st, plan);
    var phase := Iterate(cfg, st, tick);
    next := if phase.Looping? then Some(phase.st) else None;
    rest := if phase.Looping? then Planned(cfg, phase.st, plan, fuel - 1) else [];
  }

  /** Every tick of a planned run gives them. */
  lemma {:induction false} PlannedAnswers(cfg: Config, st: State, plan: Plan, fuel: nat) returns (ticks: seq<Tick>)
    requires Aligned(cfg, st)
    ensures ticks == Planned(cfg, st, plan, fuel) && AllAnswer(ticks, plan)
    decreases fuel
  {
    ticks := [];
    if fuel > 0 {
      var tick, rest, next := PlannedCons(cfg, st, plan, fuel);
      if next.Some? {
        rest := PlannedAnswers(cfg, next.value, plan, fuel - 1);
      }
      AnswerFirst(tick, rest, plan);
      ticks := [tick] + rest;
    }
  }

  lemma PlannedInstalls(cfg: Config, st: State, plan: Plan, fuel: nat, ok: string -> bool)
    requires Aligned(cfg, st) && ok(plan.installed)
    ensures forall k :: 0 <= k < |Planned(cfg, st, plan, fuel)| ==> Installs(Planned(cfg, st, plan, fuel)[k].done, ok)
  {
    var ticks := PlannedAnswers(cfg, st, plan, fuel);
    AnswersInstall(ticks, plan, ok);
  }

  lemma AnswersInstall(ticks: seq<Tick>, plan: Plan, ok: string -> bool)
    requires AllAnswer(ticks, plan) && ok(plan.installed)
    ensures forall k :: 0 <= k < |ticks| ==> Installs(ticks[k].done, ok)
  {
    forall k | 0 <= k < |ticks|
      ensures Installs(ticks[k].done, ok)
    {
      assert Answers(ticks[k], plan);
    }
  }

  // ----- What a planned run leaves -----

  lemma BelowFalls(cfg: Config, a: string, b: string, c: string)
    requires Below(cfg, a, b) && Below(cfg, b, c)
    ensures Below(cfg, a, c)
  {
  }

  /** Along a chain of dependencies the order falls. */
  lemma {:induction false} ChainFalls(cfg: Config, st: State, chain: seq<string>)
    requires Usable(cfg) && FailureChain(cfg, st, chain)
    ensures Below(cfg, chain[0], chain[|chain| - 1])
    decreases |chain|
  {
    assert Below(cfg, chain[0], chain[1]);
    if |chain| > 2 {
      var rest := chain[1..];
      assert forall i :: 0 <= i < |rest| ==> rest[i] == chain[i + 1];
      ChainFalls(cfg, st, rest);
      BelowFalls(cfg, chain[0], chain[1], chain[|chain| - 1]);
    }
  }

  /** No job below `n` is planned to fail. */
  ghost predicate Unhindered(cfg: Config, plan: Plan, n: string) {
    forall f :: f in cfg.context.jobs && !plan.passes(f) ==> !Below(cfg, n, f)
  }

  lemma PlanSays(cfg: Config, phase: Phase, plan: Plan, due: set<string>)
    requires PlanOver(cfg, phase, plan, due)
    ensures phase.LoopDone? && Inv(cfg, phase.st) && Stuck(cfg, phase.st) && OnPlan(phase.st, plan, due)
  {
    assert EndPart(Over, cfg, phase, plan, due) && EndPart(Kept, cfg, phase, plan, due);
    assert EndPart(Idle, cfg, phase, plan, due) && EndPart(AsPlanned, cfg, phase, plan, due);
  }

  lemma EndedSo(st: State, plan: Plan, due: set<string>, n: string)
    requires OnPlan(st, plan, due)
    ensures EndedAsPlanned(st, plan, n) && (n in due ==> Due(st, plan, n) && LoggedAsPlanned(st, plan, n))
    ensures BUILD in due ==> BuiltAsPlanned(st, plan)
  {
    assert AspectKept(DueOnes, st, plan, due) && AspectKept(Ends, st, plan, due);
    assert AspectKept(Logs, st, plan, due) && AspectKept(Builds, st, plan, due);
  }

  /** Such a job is not left over. */
  lemma UnhinderedIsTaken(cfg: Config, phase: Phase, plan: Plan, due: set<string>, n: string)
    requires Usable(cfg) && PlanOver(cfg, phase, plan, due) && n in cfg.context.jobs && Unhindered(cfg, plan, n)
    ensures n !in phase.st.pending
  {
    PlanSays(cfg, phase, plan, due);
    if n in phase.st.pending {
      var chain := LeftOverExplained(cfg, phase.st, n);
      var f := chain[|chain| - 1];
      ChainFalls(cfg, phase.st, chain);
      EndedSo(phase.st, plan, due, f);
    }
  }

  /** A due job that nothing hinders was executed, and left what was planned. */
  ghost predicate Left(cfg: Config, st: State, plan: Plan, n: string)
    requires n in cfg.context.jobs
  {
    && n in st.executed && n !in st.pending && n in st.results && n in st.signatures
    && st.results[n] == JobResult(if plan.passes(n) then Pass else Fail, cfg.head, Some(st.signatures[n]),
                                  Some(plan.log(n)), plan.attempt(n))
  }

  lemma DueIsLeft(cfg: Config, phase: Phase, plan: Plan, due: set<string>, n: string)
    requires Usable(cfg) && PlanOver(cfg, phase, plan, due) && n in cfg.context.jobs && Unhindered(cfg, plan, n)
    requires n in due
    ensures Left(cfg, phase.st, plan, n)
  {
    PlanSays(cfg, phase, plan, due);
    UnhinderedIsTaken(cfg, phase, plan, due, n);
    EndedSo(phase.st, plan, due, n);
    ExecutedLeft(cfg, phase.st, plan, n);
  }

  lemma ExecutedLeft(cfg: Config, st: State, plan: Plan, n: string)
    requires Inv(cfg, st) && n in st.executed && n in cfg.context.jobs
    requires n !in st.pending && n !in st.active && EndedAsPlanned(st, plan, n) && LoggedAsPlanned(st, plan, n)
    ensures Left(cfg, st, plan, n)
  {
    TakenCarries(cfg, st, n);
    assert Holds(Results, cfg, st) && Holds(Signed, cfg, st);
    assert Explained(cfg, st, n);
    assert st.results[n].head == cfg.head;
  }

  /** And after a due `build` that passes, the planned product is the recorded one. */
  lemma BuildIsLeft(cfg: Config, phase: Phase, plan: Plan, due: set<string>)
    requires Usable(cfg) && PlanOver(cfg, phase, plan, due) && BUILD in due && BUILD in cfg.context.jobs
    requires Unhindered(cfg, plan, BUILD) && plan.passes(BUILD)
    ensures Left(cfg, phase.st, plan, BUILD) && phase.st.recorded == Some(plan.installed)
    ensures phase.st.product == plan.installed && phase.st.signatures == cfg.sign(plan.installed)
  {
    PlanSays(cfg, phase, plan, due);
    DueIsLeft(cfg, phase, plan, due, BUILD);
    EndedSo(phase.st, plan, due, BUILD);
    assert Holds(Bound, cfg, phase.st) && Holds(Signed, cfg, phase.st);
  }

  lemma StartOnPlan(cfg: Config, ledger: map<string, JobResult>, recorded: Option<string>, plan: Plan, due: set<string>)
    requires GoodConfig(cfg) && due <= cfg.context.jobs.Keys
    requires forall n :: n in due && n in KeptLedger(cfg, ledger, recorded) ==>
      !plan.intact(KeptLedger(cfg, ledger, recorded)[n])
    ensures OnPlan(Initial(cfg, ledger, recorded), plan, due)
  {
    var st := Initial(cfg, ledger, recorded);
    forall aspect: Aspect
      ensures AspectKept(aspect, st, plan, due)
    {
    }
  }

  lemma ProgramInv(cfg: Config, ledger: map<string, JobResult>, recorded: Option<string>)
    requires GoodConfig(cfg)
    ensures Usable(cfg) && Inv(cfg, Initial(cfg, ledger, recorded))
  {
    GoodConfigUsable(cfg);
    InitialInv(cfg, ledger, recorded);
  }

  /** A planned run from the start of the program. */
  lemma ProgramPlanned(cfg: Config, ledger: map<string, JobResult>, recorded: Option<string>, plan: Plan,
                       due: set<string>, fuel: nat)
    requires GoodConfig(cfg) && due <= cfg.context.jobs.Keys && fuel > Measure(Initial(cfg, ledger, recorded))
    requires forall n :: n in due && n in KeptLedger(cfg, ledger, recorded) ==>
      !plan.intact(KeptLedger(cfg, ledger, recorded)[n])
    ensures Usable(cfg)
    ensures var st := Initial(cfg, ledger, recorded);
      PlanOver(cfg, Run(cfg, st, Planned(cfg, st, plan, fuel)), plan, due)
  {
    ProgramInv(cfg, ledger, recorded);
    StartOnPlan(cfg, ledger, recorded, plan, due);
    PlannedRun(cfg, Initial(cfg, ledger, recorded), plan, due, fuel);
  }

  /** In an empty run directory every job is due. */
  lemma FreshPlanned(cfg: Config, ledger: map<string, JobResult>, plan: Plan, due: set<string>, fuel: nat)
    requires GoodConfig(cfg) && due <= cfg.context.jobs.Keys && ledger == map[]
    requires fuel > Measure(Initial(cfg, ledger, None))
    ensures Usable(cfg)
    ensures var st := Initial(cfg, ledger, None); PlanOver(cfg, Run(cfg, st, Planned(cfg, st, plan, fuel)), plan, due)
  {
    ProgramPlanned(cfg, ledger, None, plan, due, fuel);
  }

  // ----- The condition on the log, over whole runs -----

  /** Every tick finds the log of `r` intact, or every tick finds it damaged. */
  ghost predicate Throughout(ticks: seq<Tick>, r: JobResult, intact: bool) {
    forall k :: 0 <= k < |ticks| ==> ticks[k].intact(r) == intact
  }

  function Same(installed: string): string -> bool {
    x => x == installed
  }

  /** Everything passes, the log of `r` is damaged, and the product is another one. */
  function RebuildPlan(r: JobResult, installed: string): Plan {
    Plan(x => x != r, n => true, n => "log", n => 1, installed)
  }

  lemma RebuildOnPlan(st: State, r: JobResult, installed: string)
    requires BUILD in st.pending && BUILD !in st.executed && (BUILD in st.results ==> st.results[BUILD] == r)
    requires forall n :: n in st.executed ==> Passed(st, n)
    ensures OnPlan(st, RebuildPlan(r, installed), {BUILD})
  {
    var plan := RebuildPlan(r, installed);
    forall aspect: Aspect
      ensures AspectKept(aspect, st, plan, {BUILD})
    {
    }
  }

  /** From any state in which nothing has failed yet: with the log of its earlier result damaged, a pending
      `build` can be built again, whatever the matrix, and whatever it installs is recorded. */
  lemma DamagedRebuilds(cfg: Config, st: State, r: JobResult, installed: string) returns (ticks: seq<Tick>)
    requires Usable(cfg) && Inv(cfg, st) && BUILD in cfg.context.jobs && BUILD in st.pending && BUILD !in st.executed
    requires (BUILD in st.results ==> st.results[BUILD] == r) && forall n :: n in st.executed ==> Passed(st, n)
    ensures Throughout(ticks, r, false) && Run(cfg, st, ticks).st.recorded == Some(installed)
    ensures forall k :: 0 <= k < |ticks| ==> Installs(ticks[k].done, Same(installed))
  {
    var plan := RebuildPlan(r, installed);
    var fuel := Measure(st) + 1;
    ticks := PlannedAnswers(cfg, st, plan, fuel);
    RebuildOnPlan(st, r, installed);
    PlannedRun(cfg, st, plan, {BUILD}, fuel);
    BuildIsLeft(cfg, Run(cfg, st, ticks), plan, {BUILD});
    AnswersInstall(ticks, plan, Same(installed));
    forall k | 0 <= k < |ticks|
      ensures ticks[k].intact(r) == false
    {
      assert Answers(ticks[k], plan);
    }
  }

  /** Over whole runs of every matrix: a trusted and pending `build` result keeps the recorded identity safe from
      everything that may happen if and only if its log stays intact. */
  lemma RunSafeIffIntact(cfg: Config, st: State, r: JobResult, intact: bool)
    requires Usable(cfg) && Inv(cfg, st) && BuildStands(cfg, st, r) && Trusted(cfg, st.signatures, r)
    requires BUILD in st.pending && forall n :: n in st.executed ==> Passed(st, n)
    ensures (forall ticks: seq<Tick> :: Throughout(ticks, r, intact) ==> Run(cfg, st, ticks).st.recorded == st.recorded)
       <==> intact
  {
    if intact {
      forall ticks: seq<Tick> | Throughout(ticks, r, intact)
        ensures Run(cfg, st, ticks).st.recorded == st.recorded
      {
        RunKeepsBuild(cfg, st, ticks, r);
      }
    } else {
      var other := if st.recorded == Some("") then "other" else "";
      var ticks := DamagedRebuilds(cfg, st, r, other);
      assert Throughout(ticks, r, intact) && Run(cfg, st, ticks).st.recorded != st.recorded;
    }
  }
}

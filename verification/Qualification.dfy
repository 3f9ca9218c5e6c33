/** The scheduling loop of `main` in its own form: an object whose fields the loop updates
    (qualification/release/qualify.py, lines 500-652). Each method is tied to the step function of
    `Scheduler`, whose runs `SchedulerSafety` and `SchedulerRuns` reason about. */
module Qualification {
  import opened Basics
  import opened Matrix
  import opened Signatures
  import opened Scheduler
  import opened SchedulerSafety
  import opened SchedulerRuns

  // ----- From a loaded matrix to a configuration -----

  function SlotTable(jobs: map<string, Job>, workers: int, memory: int): map<string, int>
    requires workers >= 1 && memory >= 1 && forall n :: n in jobs ==> GoodBudget(jobs[n])
  {
    map n | n in jobs ::
      assert GoodBudget(jobs[n]);
      Allocation(jobs[n], workers, memory)
  }

  function NeedTable(jobs: map<string, Job>, slots: map<string, int>): map<string, int>
    requires slots.Keys == jobs.Keys
  {
    map n | n in jobs :: slots[n] * MemoryPerSlot(jobs[n])
  }

  ghost function SignatureTable(c: Context): string -> map<string, string>
    requires Sound(c)
  {
    product => AllSignatures(WithProduct(c, product))
  }

  ghost function MatrixContext(jobs: seq<Job>, platform: string, order: seq<string>, treeId: string -> string,
                               product: string, baseline: string, hash: Hashing): Context
  {
    Context(ById(jobs), platform, RankOf(order), treeId, product, baseline, hash)
  }

  lemma MatrixContextSound(jobs: seq<Job>, platform: string, order: seq<string>, treeId: string -> string,
                           product: string, baseline: string, hash: Hashing)
    requires GoodMatrix(jobs, platform)
    requires Topological(ById(jobs), platform, order) && Ids(jobs) == (set n | n in order)
    ensures Sound(MatrixContext(jobs, platform, order, treeId, product, baseline, hash))
  {
    TopologicalIsRanked(ById(jobs), platform, order);
    forall n | n in ById(jobs)
      ensures platform in ById(jobs)[n].commands
    {
      MatrixRow(jobs, platform, n);
    }
  }

  lemma MatrixRow(jobs: seq<Job>, platform: string, n: string)
    requires GoodMatrix(jobs, platform) && n in ById(jobs)
    ensures GoodRow(ById(jobs), platform, ById(jobs)[n])
  {
    var i :| 0 <= i < |jobs| && jobs[i] == ById(jobs)[n];
  }

  lemma AllocationTables(jobs: map<string, Job>, workers: int, memory: int, n: string)
    requires workers >= 1 && memory >= 1 && n in jobs && forall m :: m in jobs ==> GoodBudget(jobs[m])
    requires GoodBudget(jobs[n]) && Allocation(jobs[n], workers, memory) >= 1
    ensures var slots := SlotTable(jobs, workers, memory);
      1 <= slots[n] <= workers && 1 <= NeedTable(jobs, slots)[n] <= memory
  {
    ProductMonotone(1, Allocation(jobs[n], workers, memory), MemoryPerSlot(jobs[n]));
  }

  /** What the argument checks of `main` add: positive budgets that fit one worker of every job. */
  ghost predicate Affordable(jobs: map<string, Job>, workers: int, memory: int) {
    && workers >= 1 && memory >= 1
    && forall n :: n in jobs ==> GoodBudget(jobs[n]) && Allocation(jobs[n], workers, memory) >= 1
  }

  /** The budgets of a job: as many slots as it asks for (one if it does not say), as both budgets allow, and no fewer;
      and for each of them its memory (512 if it does not say). */
  lemma BudgetsAre(jobs: map<string, Job>, workers: int, memory: int, n: string)
    requires Affordable(jobs, workers, memory) && n in jobs
    ensures var slots := SlotTable(jobs, workers, memory);
      var asked := if jobs[n].slots.Some? then jobs[n].slots.value else 1;
      var each := if jobs[n].memoryPerSlot.Some? then jobs[n].memoryPerSlot.value else 512;
      && 1 <= slots[n] && slots[n] <= asked && slots[n] <= workers
      && NeedTable(jobs, slots)[n] == slots[n] * each && slots[n] * each <= memory
      && forall k: int :: k <= asked && k <= workers && FitsIn(k, each, memory) ==> k <= slots[n]
  {
    assert GoodBudget(jobs[n]);
    var each := MemoryPerSlot(jobs[n]);
    forall k: int | k <= GetOr(jobs[n].slots, 1) && k <= workers && FitsIn(k, each, memory)
      ensures k <= Allocation(jobs[n], workers, memory)
    {
      AllocationGreatest(jobs[n], workers, memory, k);
    }
  }

  predicate FitsIn(k: int, each: int, memory: int) {
    k * each <= memory
  }

  ghost predicate Lists(names: seq<string>, ids: set<string>) {
    ids == (set n | n in names) && forall i, j :: 0 <= i < j < |names| ==> names[i] != names[j]
  }

  ghost function MakeConfig(c: Context, listing: seq<string>, workers: int, memory: int, head: string,
                            final: bool): Config
    requires Sound(c) && Affordable(c.jobs, workers, memory)
  {
    var slots := SlotTable(c.jobs, workers, memory);
    Config(c, SignatureTable(c), listing, slots, NeedTable(c.jobs, slots), workers, memory, head, final)
  }

  lemma ConfigJobGood(c: Context, listing: seq<string>, workers: int, memory: int, head: string, final: bool, n: string)
    requires Sound(c) && Affordable(c.jobs, workers, memory) && n in c.jobs
    requires NoLaterParent(c.jobs, c.platform, c.jobs[n])
    ensures GoodJob(MakeConfig(c, listing, workers, memory, head, final), n)
  {
    assert GoodBudget(c.jobs[n]);
    AllocationTables(c.jobs, workers, memory, n);
  }

  lemma ConfigSigns(c: Context, listing: seq<string>, workers: int, memory: int, head: string, final: bool,
                    product: string)
    requires Sound(c) && Affordable(c.jobs, workers, memory)
    ensures var cfg := MakeConfig(c, listing, workers, memory, head, final);
      SignsRight(cfg, product) && cfg.sign(product).Keys == c.jobs.Keys
  {
  }

  lemma ConfigGood(c: Context, listing: seq<string>, workers: int, memory: int, head: string, final: bool)
    requires Sound(c) && Affordable(c.jobs, workers, memory) && Lists(listing, c.jobs.Keys)
    requires forall n :: n in c.jobs ==> NoLaterParent(c.jobs, c.platform, c.jobs[n])
    ensures GoodConfig(MakeConfig(c, listing, workers, memory, head, final))
  {
    var cfg := MakeConfig(c, listing, workers, memory, head, final);
    forall n | n in cfg.context.jobs
      ensures GoodJob(cfg, n)
    {
      ConfigJobGood(c, listing, workers, memory, head, final, n);
    }
    forall product
      ensures SignsRight(cfg, product) && cfg.sign(product).Keys == c.jobs.Keys
    {
      ConfigSigns(c, listing, workers, memory, head, final, product);
    }
  }

  /** `load_matrix` and the argument checks establish everything the scheduler relies on. */
  lemma LoadedConfigIsGood(jobs: seq<Job>, c: Context, order: seq<string>, listing: seq<string>,
                           workers: int, memory: int, head: string, final: bool)
    requires GoodMatrix(jobs, c.platform) && Topological(ById(jobs), c.platform, order) && Lists(order, Ids(jobs))
    requires c.jobs == ById(jobs) && c.rank == RankOf(order)
    requires Affordable(c.jobs, workers, memory) && Lists(listing, Ids(jobs))
    ensures Sound(c) && GoodConfig(MakeConfig(c, listing, workers, memory, head, final))
  {
    MatrixContextSound(jobs, c.platform, order, c.treeId, c.product, c.baseline, c.hash);
    assert c == MatrixContext(jobs, c.platform, order, c.treeId, c.product, c.baseline, c.hash);
    forall n | n in c.jobs
      ensures NoLaterParent(c.jobs, c.platform, c.jobs[n])
    {
      MatrixRow(jobs, c.platform, n);
    }
    ConfigGood(c, listing, workers, memory, head, final);
  }

  // ----- The loop -----

  method SumOf(m: map<string, int>) returns (total: int)
    ensures total == Total(m)
  {
    total := 0;
    var rest := m;
    while rest != map[]
      invariant total + Total(rest) == Total(m)
      decreases rest.Keys
    {
      var n :| n in rest;
      TotalRemove(rest, n);
      total := total + rest[n];
      rest := rest - {n};
    }
  }

  /** When the loop ends by itself, nothing runs and no pending job is ready. */
  lemma RunEnds(cfg: Config, st: State, ticks: seq<Tick>)
    requires GoodConfig(cfg) && Inv(cfg, st) && SchedulerRuns.Run(cfg, st, ticks).LoopDone?
    ensures Stuck(cfg, SchedulerRuns.Run(cfg, st, ticks).st)
  {
    GoodConfigUsable(cfg);
    RunSafe(cfg, st, ticks);
    RunExit(cfg, st, ticks);
  }

  class Run {
    const cfg: Config
    var pending: set<string>
    var active: map<string, string>
    var allocations: map<string, int>
    var resources: set<string>
    var results: map<string, JobResult>
    var executed: set<string>
    var activeStage: Option<int>
    var product: string
    var recorded: Option<string>
    var signatures: map<string, string>

    ghost function Snapshot(): State
      reads this
    {
      State(pending, active, allocations, resources, results, executed, activeStage, product, recorded, signatures)
    }

    ghost predicate Valid()
      reads this
    {
      GoodConfig(cfg) && Inv(cfg, Snapshot())
    }

    constructor (cfg: Config, ledger: map<string, JobResult>, recorded: Option<string>,
                 signatures: map<string, string>)
      requires GoodConfig(cfg) && signatures == cfg.sign(cfg.context.product)
      ensures this.cfg == cfg && Snapshot() == Initial(cfg, ledger, recorded) && Valid()
    {
      this.cfg := cfg;
      pending, active, allocations, resources := cfg.context.jobs.Keys, map[], map[], {};
      results := if BUILD !in cfg.context.jobs || recorded == Some(cfg.context.product) then ledger
                 else ledger - {BUILD};
      executed, activeStage := {}, None;
      product, this.recorded, this.signatures := cfg.context.product, recorded, signatures;
      new;
      assert Snapshot() == Initial(cfg, ledger, recorded);
      InitialInv(cfg, ledger, recorded);
    }

    ghost function ScanState(available: int, memoryAvailable: int, reused: bool): Scheduler.Scan
      reads this
    {
      Scheduler.Scan(Snapshot(), available, memoryAvailable, reused)
    }

    /** The start of one job. */
    method Submit(n: string)
      requires Aligned(cfg, Snapshot()) && n in cfg.context.jobs
      modifies this`pending, this`active, this`allocations, this`resources
      ensures Snapshot() == Start(cfg, Scheduler.Scan(old(Snapshot()), 0, 0, false), n).st
    {
      active := active[n := signatures[n]];
      resources := resources + {ResourceKey(cfg, n)};
      allocations := allocations[n := cfg.slots[n]];
      pending := pending - {n};
    }

    /** The body of the `for` loop for one pending job. */
    method ConsiderJob(n: string, tick: Tick, available: int, memoryAvailable: int, reused: bool)
      returns (left: int, memoryLeft: int, reused': bool, stop: bool, drift: bool)
      requires Aligned(cfg, Snapshot()) && n in cfg.context.jobs
      modifies this`pending, this`active, this`allocations, this`resources, this`activeStage
      ensures var move := Consider(cfg, old(ScanState(available, memoryAvailable, reused)), n, tick.clean, tick.intact);
        && (drift ==> move == Drift(Snapshot()))
        && (!drift && stop ==> move == Stop(ScanState(left, memoryLeft, reused')))
        && (!drift && !stop ==> move == Next(ScanState(left, memoryLeft, reused')))
    {
      left, memoryLeft, reused', stop, drift := available, memoryAvailable, reused, false, false;
      var job := cfg.context.jobs[n];
      if !Ready(cfg, Capture(), n) {
        return;
      }
      if Reusable(cfg, Capture(), tick.intact, n) {
        pending := pending - {n};
        reused' := true;
        return;
      }
      if activeStage != Some(Stage(job)) {
        if !tick.clean(n) {
          drift := true;
          return;
        }
        activeStage := Some(Stage(job));
      }
      if !Fits(cfg, Scheduler.Scan(Capture(), left, memoryLeft, reused'), n) {
        return;
      }
      Submit(n);
      left, memoryLeft := left - cfg.slots[n], memoryLeft - cfg.needs[n];
      stop := job.exclusive;
    }

    /** The `for` loop over the pending jobs. `drift` reports a checkout changed before a new stage. */
    method Scan(tick: Tick) returns (reused: bool, drift: bool)
      requires Aligned(cfg, Snapshot())
      modifies this`pending, this`active, this`allocations, this`resources, this`activeStage
      ensures var r := WholeScan(cfg, old(Snapshot()), tick);
        if drift then r == Drift(Snapshot()) else !r.Drift? && r.scan.st == Snapshot() && r.scan.reused == reused
    {
      reused, drift := false, false;
      var used := SumOf(allocations);
      var usedMemory := SumOf(map n | n in allocations && n in cfg.needs :: cfg.needs[n]);
      var available, memoryAvailable := cfg.workers - used, cfg.memory - usedMemory;
      ghost var goal := WholeScan(cfg, Snapshot(), tick);
      var names := cfg.listing;
      while names != []
        invariant Aligned(cfg, Snapshot()) && Known(cfg, names)
        invariant !drift
        invariant goal == ScanOver(cfg, ScanState(available, memoryAvailable, reused), names, tick.clean, tick.intact)
        decreases |names|
      {
        var n := names[0];
        names := names[1..];
        if n !in pending {
          continue;
        }
        if available == 0 {
          break;
        }
        var stop;
        available, memoryAvailable, reused, stop, drift := ConsiderJob(n, tick, available, memoryAvailable, reused);
        if drift {
          return;
        }
        if stop {
          break;
        }
      }
    }

    method Settle(f: Scheduler.Finish) returns (status: Status)
      requires Aligned(cfg, Snapshot()) && f.name in active && f.name in cfg.context.jobs
      modifies this`active, this`allocations, this`resources, this`results, this`executed
      ensures Snapshot() == Settled(cfg, old(Snapshot()), f)
      ensures status == ResultOf(cfg, old(Snapshot()), f).status
    {
      var name := f.name;
      var result := ResultOf(cfg, Capture(), f);
      active := active - {name};
      allocations := allocations - {name};
      resources := resources - {ResourceKey(cfg, name)};
      results := results[name := result];
      executed := executed + {name};
      return result.status;
    }

    /** What `input_signatures` needs. */
    ghost predicate CanSign() {
      && Sound(cfg.context) && (forall product :: SignsRight(cfg, product))
      && cfg.context.jobs.Keys == set n | n in cfg.listing
    }

    method Recompute(installed: string)
      requires CanSign()
      modifies this`product, this`recorded, this`signatures
      ensures product == installed && recorded == Some(installed) && signatures == cfg.sign(installed)
    {
      assert SignsRight(cfg, installed);
      product := installed;
      recorded := Some(installed);
      signatures := InputSignatures(WithProduct(cfg.context, installed), cfg.listing);
    }

    /** One completed future. */
    method Finish(f: Scheduler.Finish)
      requires CanSign() && Aligned(cfg, Snapshot()) && f.name in active && f.name in cfg.context.jobs
      modifies this`active, this`allocations, this`resources, this`results, this`executed,
               this`product, this`recorded, this`signatures
      ensures Snapshot() == Finished(cfg, old(Snapshot()), f)
    {
      var status := Settle(f);
      if f.name == BUILD && status == Pass {
        Recompute(f.installed);
      }
    }

    method FinishAll(done: seq<Scheduler.Finish>)
      requires Valid()
      modifies this`active, this`allocations, this`resources, this`results, this`executed,
               this`product, this`recorded, this`signatures
      ensures Snapshot() == FinishedAll(cfg, old(Snapshot()), done) && Valid()
    {
      GoodConfigSteady(cfg);
      assert CanSign();
      ghost var goal := FinishedAll(cfg, Snapshot(), done);
      assert done[0..] == done;
      for i := 0 to |done|
        invariant Valid() && goal == FinishedAll(cfg, Snapshot(), done[i..])
      {
        assert done[i..][0] == done[i] && done[i..][1..] == done[i + 1..];
        FinishSafe(cfg, Snapshot(), done[i]);
        if done[i].name in active {
          Finish(done[i]);
        }
      }
    }

    function Capture(): (st: State)
      reads this
      ensures st == Snapshot()
    {
      State(pending, active, allocations, resources, results, executed, activeStage, product, recorded, signatures)
    }

    /** One iteration of the `while` loop; `phase` says whether and how the loop goes on. */
    method Step(tick: Tick) returns (phase: Phase)
      requires Valid()
      modifies this
      ensures phase == Iterate(cfg, old(Snapshot()), tick) && phase.st == Snapshot() && Valid()
    {
      ghost var before := Snapshot();
      GoodConfigUsable(cfg);
      IterateSafe(cfg, before, tick);
      if pending == {} && active == map[] {
        return LoopDone(Capture());
      }
      WholeScanSafe(cfg, before, tick);
      var reused, drift := Scan(tick);
      if drift {
        return SourceChanged(Capture());
      }
      if active == map[] {
        if reused && pending != {} {
          return Looping(Capture());
        }
        return LoopDone(Capture());
      }
      FinishAll(tick.done);
      return Looping(Capture());
    }

    /** The whole loop, fed with the answers of its surroundings. It keeps the invariant whatever they
        are, and when it ends by itself nothing runs and no pending job is ready. */
    method Loop(ticks: seq<Tick>) returns (phase: Phase)
      requires Valid()
      modifies this
      ensures phase == SchedulerRuns.Run(cfg, old(Snapshot()), ticks)
      ensures phase.st == Snapshot() && Valid()
      ensures phase.LoopDone? ==> Stuck(cfg, phase.st)
    {
      ghost var start, goal := Snapshot(), SchedulerRuns.Run(cfg, Snapshot(), ticks);
      phase := Looping(Capture());
      var rest := ticks;
      while rest != [] && phase.Looping?
        invariant Valid() && phase.st == Snapshot()
        invariant goal == if phase.Looping? then SchedulerRuns.Run(cfg, phase.st, rest) else phase
        decreases |rest|
      {
        phase := Step(rest[0]);
        rest := rest[1..];
      }
      if phase.LoopDone? {
        RunEnds(cfg, start, ticks);
      }
    }
  }
}

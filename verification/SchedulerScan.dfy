/** What one scan over the pending jobs takes and what it leaves (qualification/release/qualify.py, lines 519-571),
    told in terms of the jobs and the state, not of the steps of the scan: it wastes nothing, it takes over exactly
    what may be taken over, and it opens a stage or gives up only after looking at the checkout. */
module SchedulerScan {
  import opened Basics
  import opened Matrix
  import opened Signatures
  import opened Scheduler
  import opened SchedulerSafety
  import opened SchedulerRuns

  // ----- In terms of the jobs -----

  /** A parent of the job, by either of its two lists, or a job of an earlier stage. */
  ghost predicate Before(cfg: Config, n: string, p: string)
    requires n in cfg.context.jobs
  {
    && p in cfg.context.jobs
    && (HasParent(cfg.context.jobs[n], cfg.context.platform, p)
        || Stage(cfg.context.jobs[p]) < Stage(cfg.context.jobs[n]))
  }

  /** All of them are done and have passed. */
  ghost predicate Cleared(cfg: Config, st: State, n: string)
    requires n in cfg.context.jobs
  {
    forall p {:trigger Before(cfg, n, p)} :: Before(cfg, n, p) ==>
      p !in st.pending && p !in st.active && p in st.results && st.results[p].status == Pass
  }

  /** The earlier result of the job may stand: it has passed, need not be repeated, has the current signature and
      its log, and the current HEAD unless a discovery run may carry it over. */
  ghost predicate MayStand(cfg: Config, st: State, intact: JobResult -> bool, n: string)
    requires n in cfg.context.jobs && n in st.signatures
  {
    n in st.results &&
    var r := st.results[n];
    r.status == Pass && !cfg.context.jobs[n].alwaysRun && r.signature == Some(st.signatures[n]) && intact(r)
    && (r.head != cfg.head ==> !cfg.final && !cfg.context.jobs[n].headBound)
  }

  /** Something keeps the job from starting: its resource, the workers, the memory, or exclusivity. */
  ghost predicate Held(cfg: Config, st: State, available: int, memory: int, n: string)
    requires n in cfg.context.jobs && n in cfg.slots && n in cfg.needs
  {
    || GetOr(cfg.context.jobs[n].resource, n) in st.resources
    || cfg.slots[n] > available
    || cfg.needs[n] > memory
    || (cfg.context.jobs[n].exclusive && st.active != map[])
    || exists m :: m in st.active && m in cfg.context.jobs && cfg.context.jobs[m].exclusive
  }

  lemma BeforeIsDependency(cfg: Config, n: string, p: string)
    requires n in cfg.context.jobs
    ensures Before(cfg, n, p) <==> p in Deps(cfg, n)
  {
    ParentsAre(cfg.context.jobs[n], cfg.context.platform, p);
  }

  lemma ClearedIsReady(cfg: Config, st: State, n: string)
    requires n in cfg.context.jobs
    ensures Cleared(cfg, st, n) <==> Ready(cfg, st, n)
  {
    forall p
      ensures Before(cfg, n, p) <==> p in Deps(cfg, n)
    {
      BeforeIsDependency(cfg, n, p);
    }
  }

  lemma StandsIsReusable(cfg: Config, st: State, intact: JobResult -> bool, n: string)
    requires n in cfg.context.jobs && n in st.signatures
    ensures MayStand(cfg, st, intact, n) <==> Reusable(cfg, st, intact, n)
  {
  }

  // ----- What one considered job changes for another -----

  /** A state that one considered job can lead to. */
  ghost predicate Leads(cfg: Config, s: Scan, m: string, t: Scan)
    requires Aligned(cfg, s.st) && m in cfg.context.jobs
  {
    t == s || t == Opened(cfg, s, m) || t == Taken(s, m) || t == Start(cfg, Opened(cfg, s, m), m)
  }

  lemma ReadyStays(cfg: Config, s: Scan, m: string, t: Scan, n: string)
    requires Aligned(cfg, s.st) && m in cfg.context.jobs && m in s.st.pending && Leads(cfg, s, m, t)
    requires n in cfg.context.jobs && Ready(cfg, s.st, n)
    ensures Ready(cfg, t.st, n)
  {
  }

  lemma HeldStays(cfg: Config, s: Scan, m: string, t: Scan, n: string)
    requires Aligned(cfg, s.st) && m in cfg.context.jobs && Leads(cfg, s, m, t) && Demanding(cfg, m)
    requires n in cfg.context.jobs && Held(cfg, s.st, s.available, s.memory, n)
    ensures Held(cfg, t.st, t.available, t.memory, n)
  {
    var running := Start(cfg, Opened(cfg, s, m), m).st.active;
    assert m in running;
    if x :| x in s.st.active && x in cfg.context.jobs && cfg.context.jobs[x].exclusive {
      assert x in running;
    }
  }

  // ----- One job in a scan -----

  /** What becomes of a job that was pending in the state `st`: it is left pending, and if it was ready then
      something holds it; or it was taken when it was ready, and started exactly if no earlier result may stand. */
  ghost predicate Fate(cfg: Config, st: State, intact: JobResult -> bool, t: Scan, n: string)
    requires n in cfg.context.jobs && n in st.signatures && n in cfg.slots && n in cfg.needs
  {
    if n in t.st.pending then n !in t.st.active && (Ready(cfg, st, n) ==> Held(cfg, t.st, t.available, t.memory, n))
    else
      && Ready(cfg, t.st, n)
      && (n in t.st.active <==> !MayStand(cfg, st, intact, n))
      && (n in t.st.active ==> t.st.active[n] == st.signatures[n])
  }

  /** The scan that began in `st` has not come to the job yet. */
  ghost predicate Todo(cfg: Config, st: State, s: Scan, n: string)
    requires n in cfg.context.jobs
  {
    n in s.st.pending && n !in s.st.active && (Ready(cfg, st, n) ==> Ready(cfg, s.st, n))
  }

  predicate SameTables(st: State, s: Scan) {
    s.st.results == st.results && s.st.signatures == st.signatures
  }

  lemma FateStays(cfg: Config, st: State, intact: JobResult -> bool, s: Scan, m: string, t: Scan, n: string)
    requires Aligned(cfg, s.st) && m in cfg.context.jobs && m in s.st.pending
    requires Leads(cfg, s, m, t) && Demanding(cfg, m)
    requires n in cfg.context.jobs && n in st.signatures && m != n && Fate(cfg, st, intact, s, n)
    ensures Fate(cfg, st, intact, t, n)
  {
    if n !in s.st.pending {
      ReadyStays(cfg, s, m, t, n);
    } else if Ready(cfg, st, n) {
      HeldStays(cfg, s, m, t, n);
    }
  }

  lemma TodoStays(cfg: Config, st: State, s: Scan, m: string, t: Scan, n: string)
    requires Aligned(cfg, s.st) && m in cfg.context.jobs && m in s.st.pending && Leads(cfg, s, m, t)
    requires n in cfg.context.jobs && m != n && Todo(cfg, st, s, n)
    ensures Todo(cfg, st, t, n)
  {
    if Ready(cfg, s.st, n) {
      ReadyStays(cfg, s, m, t, n);
    }
  }

  /** The job that is considered. */
  lemma ConsideredFate(cfg: Config, st: State, s: Scan, n: string, clean: string -> bool, intact: JobResult -> bool)
    requires Aligned(cfg, s.st) && n in cfg.context.jobs && Todo(cfg, st, s, n) && SameTables(st, s)
    ensures var r := Consider(cfg, s, n, clean, intact);
      r.Drift? || Fate(cfg, st, intact, r.scan, n)
  {
    StandsIsReusable(cfg, s.st, intact, n);
    var r := Consider(cfg, s, n, clean, intact);
    if !r.Drift? && n !in r.scan.st.pending {
      ConsiderCases(cfg, s, n, clean, intact);
      ReadyStays(cfg, s, n, r.scan, n);
    }
  }

  /** A job started alone holds everything else. */
  lemma StoppedHolds(cfg: Config, s: Scan, m: string, clean: string -> bool, intact: JobResult -> bool, n: string)
    requires Aligned(cfg, s.st) && m in cfg.context.jobs && n in cfg.context.jobs
    requires Consider(cfg, s, m, clean, intact).Stop?
    ensures var t := Consider(cfg, s, m, clean, intact).scan; Held(cfg, t.st, t.available, t.memory, n)
  {
    assert m in Consider(cfg, s, m, clean, intact).scan.st.active;
  }

  lemma {:induction false} OverFate(cfg: Config, st: State, s: Scan, names: seq<string>, clean: string -> bool,
                                    intact: JobResult -> bool, n: string)
    requires Aligned(cfg, s.st) && AllDemanding(cfg) && Known(cfg, names) && SameTables(st, s)
    requires (forall i, j :: 0 <= i < j < |names| ==> names[i] != names[j]) && n in cfg.context.jobs
    requires if n in names then Todo(cfg, st, s, n) else Fate(cfg, st, intact, s, n)
    ensures var r := ScanOver(cfg, s, names, clean, intact); r.Drift? || Fate(cfg, st, intact, r.scan, n)
    decreases |names|
  {
    if names != [] {
      var m, rest := names[0], names[1..];
      assert n in names <==> n == m || n in rest;
      assert forall i :: 0 <= i < |rest| ==> rest[i] == names[i + 1];
      assert Demanding(cfg, m) && Demanding(cfg, n);
      if m !in s.st.pending {
        OverFate(cfg, st, s, rest, clean, intact, n);
      } else if s.available != 0 {
        OneFate(cfg, st, s, m, clean, intact, n, n in names);
        var move := Consider(cfg, s, m, clean, intact);
        if move.Next? {
          OverFate(cfg, st, move.scan, rest, clean, intact, n);
        }
      }
    }
  }

  /** One considered job in such a scan. */
  lemma OneFate(cfg: Config, st: State, s: Scan, m: string, clean: string -> bool, intact: JobResult -> bool,
                n: string, todo: bool)
    requires Aligned(cfg, s.st) && m in cfg.context.jobs && m in s.st.pending && Demanding(cfg, m) && SameTables(st, s)
    requires n in cfg.context.jobs && (n == m ==> todo)
    requires if todo then Todo(cfg, st, s, n) else Fate(cfg, st, intact, s, n)
    ensures var r := Consider(cfg, s, m, clean, intact);
      r.Drift? || (SameTables(st, r.scan)
                   && (if todo && n != m && r.Next? then Todo(cfg, st, r.scan, n)
                       else Fate(cfg, st, intact, r.scan, n)))
  {
    var r := Consider(cfg, s, m, clean, intact);
    if !r.Drift? {
      ConsiderCases(cfg, s, m, clean, intact);
      if n == m {
        ConsideredFate(cfg, st, s, n, clean, intact);
      } else if !todo {
        FateStays(cfg, st, intact, s, m, r.scan, n);
      } else {
        TodoStays(cfg, st, s, m, r.scan, n);
        if r.Stop? {
          StoppedHolds(cfg, s, m, clean, intact, n);
        }
      }
    }
  }

  // ----- The checkout -----

  /** A ready job without a standing result, whose stage is not the current one. */
  ghost predicate OpensStage(cfg: Config, st: State, intact: JobResult -> bool, n: string)
    requires n in cfg.context.jobs && n in st.signatures
  {
    && n in st.pending && Ready(cfg, st, n) && !MayStand(cfg, st, intact, n)
    && st.stage != Some(Stage(cfg.context.jobs[n]))
  }

  /** The scan gives up exactly when it comes to such a job and the checkout has changed. */
  lemma {:induction false} DriftWhy(cfg: Config, s: Scan, names: seq<string>, clean: string -> bool,
                                    intact: JobResult -> bool) returns (n: string)
    requires Aligned(cfg, s.st) && Known(cfg, names) && ScanOver(cfg, s, names, clean, intact).Drift?
    ensures var st := ScanOver(cfg, s, names, clean, intact).st;
      && n in cfg.context.jobs && n in st.signatures && n in s.st.pending && st.signatures == s.st.signatures
      && OpensStage(cfg, st, intact, n) && !clean(n)
    decreases |names|
  {
    if names[0] in s.st.pending {
      StandsIsReusable(cfg, s.st, intact, names[0]);
      var move := Consider(cfg, s, names[0], clean, intact);
      if move.Next? {
        ConsiderCases(cfg, s, names[0], clean, intact);
        n := DriftWhy(cfg, move.scan, names[1..], clean, intact);
      } else {
        n := names[0];
      }
    } else {
      n := DriftWhy(cfg, s, names[1..], clean, intact);
    }
  }

  /** And a stage is opened only for a pending job of that stage that has found the checkout clean. */
  ghost predicate CleanlyOpened(cfg: Config, st: State, clean: string -> bool, stage: Option<int>) {
    stage == st.stage
    || exists n :: n in st.pending && n in cfg.context.jobs && stage == Some(Stage(cfg.context.jobs[n])) && clean(n)
  }

  lemma StageStep(cfg: Config, s: Scan, n: string, clean: string -> bool, intact: JobResult -> bool)
    requires Aligned(cfg, s.st) && n in cfg.context.jobs
    ensures var r := Consider(cfg, s, n, clean, intact);
      r.Drift? || (r.scan.st.pending <= s.st.pending
                   && (r.scan.st.stage == s.st.stage
                       || (r.scan.st.stage == Some(Stage(cfg.context.jobs[n])) && clean(n))))
  {
  }

  lemma {:induction false} StageWhy(cfg: Config, st: State, s: Scan, names: seq<string>, clean: string -> bool,
                                    intact: JobResult -> bool)
    requires Aligned(cfg, s.st) && Known(cfg, names) && s.st.pending <= st.pending
    requires CleanlyOpened(cfg, st, clean, s.st.stage)
    ensures var r := ScanOver(cfg, s, names, clean, intact); r.Drift? || CleanlyOpened(cfg, st, clean, r.scan.st.stage)
    decreases |names|
  {
    if names != [] {
      var n := names[0];
      if n !in s.st.pending {
        StageWhy(cfg, st, s, names[1..], clean, intact);
      } else if s.available != 0 {
        StageStep(cfg, s, n, clean, intact);
        var move := Consider(cfg, s, n, clean, intact);
        if move.Next? {
          StageWhy(cfg, st, move.scan, names[1..], clean, intact);
        }
      }
    }
  }

  // ----- What else a scan reports -----

  /** Some job of `st` was taken over. */
  ghost predicate TakenOver(st: State, t: State) {
    exists n :: n in st.pending && n !in t.pending && n !in t.active
  }

  /** Everything but the pending jobs, the running ones, what they hold, and the stage. */
  predicate SameFrame(st: State, t: State) {
    && t.results == st.results && t.signatures == st.signatures && t.executed == st.executed
    && t.product == st.product && t.recorded == st.recorded && t.pending <= st.pending
    && (forall n :: n in st.active ==> n in t.active && t.active[n] == st.active[n])
    && (forall n :: n in t.active ==> n in st.active || (n in st.pending && n !in t.pending))
  }

  lemma FrameStep(cfg: Config, st: State, s: Scan, m: string, t: Scan)
    requires Aligned(cfg, s.st) && m in cfg.context.jobs && m in s.st.pending && m !in s.st.active
    requires Leads(cfg, s, m, t)
    requires SameFrame(st, s.st)
    ensures SameFrame(st, t.st)
  {
  }

  lemma ReportStep(cfg: Config, st: State, s: Scan, m: string, t: Scan)
    requires Aligned(cfg, s.st) && m in cfg.context.jobs && m in s.st.pending && m !in s.st.active
    requires Leads(cfg, s, m, t)
    requires m in st.pending && (s.reused <==> TakenOver(st, s.st))
    ensures t.reused <==> TakenOver(st, t.st)
  {
    if t == Taken(s, m) {
      assert m in st.pending && m !in t.st.pending && m !in t.st.active;
    } else if TakenOver(st, s.st) {
      var n :| n in st.pending && n !in s.st.pending && n !in s.st.active;
      assert n !in t.st.pending && n !in t.st.active;
    }
  }

  lemma {:induction false} OverFrame(cfg: Config, st: State, s: Scan, names: seq<string>, clean: string -> bool,
                                     intact: JobResult -> bool)
    requires Aligned(cfg, s.st) && Known(cfg, names) && SameFrame(st, s.st) && s.st.pending !! s.st.active.Keys
    requires s.reused <==> TakenOver(st, s.st)
    ensures var r := ScanOver(cfg, s, names, clean, intact);
      r.Drift? || (SameFrame(st, r.scan.st) && (r.scan.reused <==> TakenOver(st, r.scan.st)))
    decreases |names|
  {
    if names != [] {
      var n := names[0];
      if n !in s.st.pending {
        OverFrame(cfg, st, s, names[1..], clean, intact);
      } else if s.available != 0 {
        ConsiderCases(cfg, s, n, clean, intact);
        var move := Consider(cfg, s, n, clean, intact);
        if !move.Drift? {
          FrameStep(cfg, st, s, n, move.scan);
          ReportStep(cfg, st, s, n, move.scan);
          if move.Next? {
            OverFrame(cfg, st, move.scan, names[1..], clean, intact);
          }
        }
      }
    }
  }

  // ----- The whole scan -----

  lemma WholeFrame(cfg: Config, st: State, tick: Tick)
    requires Inv(cfg, st) && !WholeScan(cfg, st, tick).Drift?
    ensures var t := WholeScan(cfg, st, tick).scan;
      SameFrame(st, t.st) && (t.reused <==> TakenOver(st, t.st)) && CleanlyOpened(cfg, st, tick.clean, t.st.stage)
  {
    OverFrame(cfg, st, FreshScan(cfg, st), cfg.listing, tick.clean, tick.intact);
    StageWhy(cfg, st, FreshScan(cfg, st), cfg.listing, tick.clean, tick.intact);
  }

  lemma WholeFate(cfg: Config, st: State, tick: Tick, n: string)
    requires Usable(cfg) && Inv(cfg, st) && n in st.pending && n in cfg.context.jobs && !WholeScan(cfg, st, tick).Drift?
    requires forall i, j :: 0 <= i < j < |cfg.listing| ==> cfg.listing[i] != cfg.listing[j]
    ensures Fate(cfg, st, tick.intact, WholeScan(cfg, st, tick).scan, n)
  {
    OverFate(cfg, st, FreshScan(cfg, st), cfg.listing, tick.clean, tick.intact, n);
  }

  /** At its end the scan still knows what is left of the budgets. */
  lemma WholeTotals(cfg: Config, st: State, tick: Tick)
    requires Usable(cfg) && Inv(cfg, st) && !WholeScan(cfg, st, tick).Drift?
    ensures var t := WholeScan(cfg, st, tick).scan;
      && t.available == cfg.workers - Total(t.st.allocations)
      && t.memory == cfg.memory - Total(MemoryTable(cfg, t.st.allocations))
  {
    ScanSafe(cfg, FreshScan(cfg, st), cfg.listing, tick.clean, tick.intact);
  }

  /** A scan wastes nothing. Of every job that was pending: if it is left pending although all jobs before it had
      passed, then at the end its resource is taken, its slots or its memory exceed what is left of the budgets, it
      is exclusive and something runs, or an exclusive job runs. If it was taken, all jobs before it have passed,
      and it runs, with its signature, exactly if it has no result that may stand. */
  lemma ScanWastesNothing(cfg: Config, st: State, tick: Tick, n: string)
    requires GoodConfig(cfg) && Inv(cfg, st) && !WholeScan(cfg, st, tick).Drift? && n in st.pending
    ensures n in cfg.context.jobs && n in st.signatures
    ensures Told(cfg, st, tick.intact, WholeScan(cfg, st, tick).scan.st, n)
  {
    GoodConfigUsable(cfg);
    WholeFate(cfg, st, tick, n);
    WholeTotals(cfg, st, tick);
    FateIsTold(cfg, st, tick.intact, WholeScan(cfg, st, tick).scan, n);
  }

  ghost predicate Told(cfg: Config, st: State, intact: JobResult -> bool, t: State, n: string)
    requires n in cfg.context.jobs && n in st.signatures && n in cfg.slots && n in cfg.needs
  {
    if n in t.pending then
      Cleared(cfg, st, n) ==>
        Held(cfg, t, cfg.workers - Total(t.allocations), cfg.memory - Total(MemoryTable(cfg, t.allocations)), n)
    else
      && Cleared(cfg, t, n) && (n in t.active <==> !MayStand(cfg, st, intact, n))
      && (n in t.active ==> t.active[n] == st.signatures[n])
  }

  lemma FateIsTold(cfg: Config, st: State, intact: JobResult -> bool, t: Scan, n: string)
    requires n in cfg.context.jobs && n in st.signatures && n in cfg.slots && n in cfg.needs
    requires Fate(cfg, st, intact, t, n)
    requires t.available == cfg.workers - Total(t.st.allocations)
    requires t.memory == cfg.memory - Total(MemoryTable(cfg, t.st.allocations))
    ensures Told(cfg, st, intact, t.st, n)
  {
    ClearedIsReady(cfg, st, n);
    ClearedIsReady(cfg, t.st, n);
  }

  /** A scan that gives up has come to a pending job, all before it passed, without a result that may stand, whose
      stage would have to be opened, and the checkout had changed. */
  lemma ScanGivesUp(cfg: Config, st: State, tick: Tick) returns (n: string)
    requires GoodConfig(cfg) && Inv(cfg, st) && WholeScan(cfg, st, tick).Drift?
    ensures n in cfg.context.jobs && n in st.pending && !tick.clean(n)
    ensures var t := WholeScan(cfg, st, tick).st;
      && n in t.signatures && t.signatures == st.signatures && Cleared(cfg, t, n) && !MayStand(cfg, t, tick.intact, n)
      && t.stage != Some(Stage(cfg.context.jobs[n]))
  {
    n := DriftWhy(cfg, FreshScan(cfg, st), cfg.listing, tick.clean, tick.intact);
    ClearedIsReady(cfg, WholeScan(cfg, st, tick).st, n);
  }
}

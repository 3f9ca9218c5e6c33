/** What a run takes over from the ledger of earlier runs: results of jobs it does not execute, the `build`
    result it may rely on, and what a green verdict says of results that earlier runs produced
    (qualification/release/qualify.py, lines 459-466, 516-618 and 638-642). */
module SchedulerLedger {
  import opened Basics
  import opened Matrix
  import opened Signatures
  import opened Scheduler
  import opened SchedulerSafety
  import opened SchedulerRuns

  // ----- Results of jobs that are not executed -----

  /** A scan neither adds results nor executes anything. */
  lemma {:induction false} ScanKeepsResults(cfg: Config, s: Scan, names: seq<string>, tick: Tick)
    requires Aligned(cfg, s.st) && Known(cfg, names)
    ensures var r := ScanOver(cfg, s, names, tick.clean, tick.intact);
      var st := if r.Drift? then r.st else r.scan.st;
      st.results == s.st.results && st.executed == s.st.executed
    decreases |names|
  {
    if names != [] && names[0] in s.st.pending && s.available != 0 {
      var move := Consider(cfg, s, names[0], tick.clean, tick.intact);
      if move.Next? {
        ScanKeepsResults(cfg, move.scan, names[1..], tick);
      }
    } else if names != [] && names[0] !in s.st.pending {
      ScanKeepsResults(cfg, s, names[1..], tick);
    }
  }

  /** A job not executed has the result it had. */
  ghost predicate SameResult(st: State, st1: State, n: string) {
    && st.executed <= st1.executed
    && (n !in st1.executed ==>
         (n in st1.results <==> n in st.results) && (n in st.results ==> st1.results[n] == st.results[n]))
  }

  lemma {:induction false} FinishKeepsResult(cfg: Config, st: State, done: seq<Finish>, n: string)
    requires Aligned(cfg, st)
    ensures SameResult(st, FinishedAll(cfg, st, done), n)
    decreases |done|
  {
    if done != [] {
      FinishKeepsResult(cfg, Finished(cfg, st, done[0]), done[1..], n);
    }
  }

  lemma IterateKeepsResult(cfg: Config, st: State, tick: Tick, n: string)
    requires Aligned(cfg, st)
    ensures SameResult(st, Iterate(cfg, st, tick).st, n)
  {
    if st.pending != {} || st.active != map[] {
      ScanKeepsResults(cfg, FreshScan(cfg, st), cfg.listing, tick);
      var r := WholeScan(cfg, st, tick);
      if !r.Drift? && r.scan.st.active != map[] {
        FinishKeepsResult(cfg, r.scan.st, tick.done, n);
      }
    }
  }

  lemma {:induction false} RunKeepsResult(cfg: Config, st: State, ticks: seq<Tick>, n: string)
    requires Aligned(cfg, st)
    ensures SameResult(st, Run(cfg, st, ticks).st, n)
    decreases |ticks|
  {
    if ticks != [] {
      IterateKeepsResult(cfg, st, ticks[0], n);
      var phase := Iterate(cfg, st, ticks[0]);
      if phase.Looping? {
        RunKeepsResult(cfg, phase.st, ticks[1..], n);
      }
    }
  }

  // ----- A build that is relied on -----

  /** `build` stands on its earlier result `r`: it is not running and was not executed. */
  ghost predicate BuildStands(cfg: Config, st: State, r: JobResult) {
    && BUILD in cfg.context.jobs && BUILD !in st.active && BUILD !in st.executed
    && BUILD in st.results && st.results[BUILD] == r
  }

  /** What the check before the loop asks of the `build` result, its log aside. */
  predicate Trusted(cfg: Config, signatures: map<string, string>, r: JobResult) {
    && BUILD in cfg.context.jobs && BUILD in signatures
    && r.status == Pass && !JobOf(cfg, BUILD).alwaysRun && r.signature == Some(signatures[BUILD])
    && (r.head == cfg.head || (!cfg.final && !JobOf(cfg, BUILD).headBound))
  }

  /** The product and all that is computed from it are untouched. */
  ghost predicate SameProduct(st: State, st1: State) {
    st1.product == st.product && st1.recorded == st.recorded && st1.signatures == st.signatures
  }

  lemma StartKeepsBuild(cfg: Config, s: Scan, n: string, r: JobResult)
    requires Aligned(cfg, s.st) && n in cfg.context.jobs && n != BUILD && BuildStands(cfg, s.st, r)
    ensures BuildStands(cfg, Start(cfg, s, n).st, r) && SameProduct(s.st, Start(cfg, s, n).st)
  {
  }

  lemma ConsiderKeepsBuild(cfg: Config, s: Scan, n: string, tick: Tick, r: JobResult)
    requires Aligned(cfg, s.st) && n in cfg.context.jobs && BuildStands(cfg, s.st, r)
    requires Trusted(cfg, s.st.signatures, r) && tick.intact(r)
    ensures var move := Consider(cfg, s, n, tick.clean, tick.intact);
      var st := if move.Drift? then move.st else move.scan.st;
      BuildStands(cfg, st, r) && SameProduct(s.st, st)
  {
    if n == BUILD {
      assert Reusable(cfg, s.st, tick.intact, n);
    } else {
      StartKeepsBuild(cfg, s.(st := s.st.(stage := Some(Stage(JobOf(cfg, n))))), n, r);
    }
  }

  lemma {:induction false} ScanKeepsBuild(cfg: Config, s: Scan, names: seq<string>, tick: Tick, r: JobResult)
    requires Aligned(cfg, s.st) && Known(cfg, names) && BuildStands(cfg, s.st, r)
    requires Trusted(cfg, s.st.signatures, r) && tick.intact(r)
    ensures var move := ScanOver(cfg, s, names, tick.clean, tick.intact);
      var st := if move.Drift? then move.st else move.scan.st;
      BuildStands(cfg, st, r) && SameProduct(s.st, st)
    decreases |names|
  {
    if names != [] && names[0] in s.st.pending && s.available != 0 {
      ConsiderKeepsBuild(cfg, s, names[0], tick, r);
      var move := Consider(cfg, s, names[0], tick.clean, tick.intact);
      if move.Next? {
        ScanKeepsBuild(cfg, move.scan, names[1..], tick, r);
      }
    } else if names != [] && names[0] !in s.st.pending {
      ScanKeepsBuild(cfg, s, names[1..], tick, r);
    }
  }

  lemma {:induction false} FinishKeepsBuild(cfg: Config, st: State, done: seq<Finish>, r: JobResult)
    requires Aligned(cfg, st) && BuildStands(cfg, st, r)
    ensures BuildStands(cfg, FinishedAll(cfg, st, done), r) && SameProduct(st, FinishedAll(cfg, st, done))
    decreases |done|
  {
    if done != [] {
      FinishKeepsBuild(cfg, Finished(cfg, st, done[0]), done[1..], r);
    }
  }

  lemma IterateKeepsBuild(cfg: Config, st: State, tick: Tick, r: JobResult)
    requires Aligned(cfg, st) && BuildStands(cfg, st, r) && Trusted(cfg, st.signatures, r) && tick.intact(r)
    ensures BuildStands(cfg, Iterate(cfg, st, tick).st, r) && SameProduct(st, Iterate(cfg, st, tick).st)
  {
    if st.pending != {} || st.active != map[] {
      ScanKeepsBuild(cfg, FreshScan(cfg, st), cfg.listing, tick, r);
      var move := WholeScan(cfg, st, tick);
      if !move.Drift? && move.scan.st.active != map[] {
        FinishKeepsBuild(cfg, move.scan.st, tick.done, r);
      }
    }
  }

  /** A `build` result that passes the check before the loop, and whose log stays intact for every scan, is
      never built again: the product, the recorded identity and the signatures stay as they are in every
      run, whatever else its surroundings answer. */
  lemma {:induction false} RunKeepsBuild(cfg: Config, st: State, ticks: seq<Tick>, r: JobResult)
    requires Aligned(cfg, st) && BuildStands(cfg, st, r) && Trusted(cfg, st.signatures, r)
    requires forall k :: 0 <= k < |ticks| ==> ticks[k].intact(r)
    ensures BuildStands(cfg, Run(cfg, st, ticks).st, r) && SameProduct(st, Run(cfg, st, ticks).st)
    decreases |ticks|
  {
    if ticks != [] {
      IterateKeepsBuild(cfg, st, ticks[0], r);
      var phase := Iterate(cfg, st, ticks[0]);
      if phase.Looping? {
        RunKeepsBuild(cfg, phase.st, ticks[1..], r);
      }
    }
  }

  // ----- The condition on the log is exact -----

  /** Nothing runs, and `build` is the first job of the listing that a scan finds pending and ready. */
  ghost predicate BuildIsNext(cfg: Config, st: State, k: nat)
    requires Aligned(cfg, st)
  {
    && st.active == map[] && BUILD in cfg.context.jobs && BUILD in st.pending && Ready(cfg, st, BUILD)
    && k < |cfg.listing| && cfg.listing[k] == BUILD
    && forall j :: 0 <= j < k ==> PassedOver(cfg, st, cfg.listing[j])
  }

  /** A scan does nothing for such a job. */
  ghost predicate PassedOver(cfg: Config, st: State, n: string) {
    n in cfg.context.jobs ==> n !in st.pending || !Ready(cfg, st, n)
  }

  lemma {:induction false} SkipUnready(cfg: Config, s: Scan, names: seq<string>, k: nat, tick: Tick)
    requires Aligned(cfg, s.st) && Known(cfg, names) && k < |names| && s.available != 0
    requires forall j :: 0 <= j < k ==> PassedOver(cfg, s.st, names[j])
    ensures ScanOver(cfg, s, names, tick.clean, tick.intact) == ScanOver(cfg, s, names[k..], tick.clean, tick.intact)
    decreases k
  {
    if k > 0 {
      assert PassedOver(cfg, s.st, names[0]);
      SkipUnready(cfg, s, names[1..], k - 1, tick);
      assert names[1..][k - 1..] == names[k..];
    } else {
      assert names[0..] == names;
    }
  }

  /** An unchanged checkout never stops a scan. */
  lemma {:induction false} CleanNoDrift(cfg: Config, s: Scan, names: seq<string>, tick: Tick)
    requires Aligned(cfg, s.st) && Known(cfg, names) && forall n :: tick.clean(n)
    ensures !ScanOver(cfg, s, names, tick.clean, tick.intact).Drift?
    decreases |names|
  {
    if names != [] && names[0] in s.st.pending && s.available != 0 {
      var move := Consider(cfg, s, names[0], tick.clean, tick.intact);
      if move.Next? {
        CleanNoDrift(cfg, move.scan, names[1..], tick);
      }
    } else if names != [] && names[0] !in s.st.pending {
      CleanNoDrift(cfg, s, names[1..], tick);
    }
  }

  /** With nothing running, a ready `build` that cannot be reused is started when the scan considers it. */
  lemma ConsiderStarts(cfg: Config, s: Scan, tick: Tick)
    requires Usable(cfg) && ScanInv(cfg, s) && BUILD in cfg.context.jobs && BUILD in s.st.pending
    requires s.st.active == map[] && !s.reused && Ready(cfg, s.st, BUILD)
    requires !Reusable(cfg, s.st, tick.intact, BUILD) && tick.clean(BUILD)
    ensures var move := Consider(cfg, s, BUILD, tick.clean, tick.intact);
      !move.Drift? && ScanInv(cfg, move.scan) && BUILD in move.scan.st.active
  {
    IdleIsFree(cfg, s);
    assert Demanding(cfg, BUILD);
    IdleTakes(cfg, s, BUILD, tick.clean, tick.intact);
    ConsiderSafe(cfg, s, BUILD, tick.clean, tick.intact);
  }

  /** What the rest of a scan leaves running. */
  lemma RestKeepsActive(cfg: Config, s: Scan, names: seq<string>, tick: Tick)
    requires Usable(cfg) && ScanInv(cfg, s) && Known(cfg, names) && BUILD in s.st.active && forall n :: tick.clean(n)
    ensures var r := ScanOver(cfg, s, names, tick.clean, tick.intact); !r.Drift? && BUILD in r.scan.st.active
  {
    CleanNoDrift(cfg, s, names, tick);
    ScanSafe(cfg, s, names, tick.clean, tick.intact);
  }

  lemma ScanStarts(cfg: Config, s: Scan, names: seq<string>, tick: Tick)
    requires Usable(cfg) && ScanInv(cfg, s) && Known(cfg, names) && names != [] && names[0] == BUILD
    requires BUILD in s.st.pending && s.st.active == map[] && !s.reused && s.available != 0
    requires Ready(cfg, s.st, BUILD) && !Reusable(cfg, s.st, tick.intact, BUILD) && forall n :: tick.clean(n)
    ensures var r := ScanOver(cfg, s, names, tick.clean, tick.intact); !r.Drift? && BUILD in r.scan.st.active
  {
    ConsiderStarts(cfg, s, tick);
    var move := Consider(cfg, s, BUILD, tick.clean, tick.intact);
    if move.Next? {
      RestKeepsActive(cfg, move.scan, names[1..], tick);
    }
  }

  /** A `build` that cannot be reused is started by the scan that comes to it. */
  lemma UnusableIsStarted(cfg: Config, st: State, k: nat, tick: Tick)
    requires Usable(cfg) && Inv(cfg, st) && BuildIsNext(cfg, st, k)
    requires !Reusable(cfg, st, tick.intact, BUILD) && forall n :: tick.clean(n)
    ensures var move := WholeScan(cfg, st, tick); !move.Drift? && BUILD in move.scan.st.active
  {
    var s := FreshScan(cfg, st);
    IdleIsFree(cfg, s);
    SkipUnready(cfg, s, cfg.listing, k, tick);
    ScanStarts(cfg, s, cfg.listing[k..], tick);
  }

  /** And when it passes, the recorded identity is whatever is installed then. */
  lemma UnusableIsRebuilt(cfg: Config, st: State, k: nat, tick: Tick, f: Finish)
    requires Usable(cfg) && Inv(cfg, st) && BuildIsNext(cfg, st, k)
    requires !Reusable(cfg, st, tick.intact, BUILD) && (forall n :: tick.clean(n))
    requires tick.done == [f] && f.name == BUILD && f.ending.Returned? && f.ending.passed
    ensures Iterate(cfg, st, tick).Looping? && Iterate(cfg, st, tick).st.recorded == Some(f.installed)
  {
    UnusableIsStarted(cfg, st, k, tick);
    var st1 := WholeScan(cfg, st, tick).scan.st;
    assert tick.done[1..] == [];
    assert FinishedAll(cfg, st1, tick.done) == Finished(cfg, st1, tick.done[0]);
  }

  /** What may happen at a scan that finds the log of `r` damaged. */
  lemma DamagedCanChange(cfg: Config, st: State, k: nat, r: JobResult) returns (tick: Tick)
    requires Usable(cfg) && Inv(cfg, st) && BuildIsNext(cfg, st, k) && BuildStands(cfg, st, r)
    ensures !tick.intact(r) && Iterate(cfg, st, tick).st.recorded != st.recorded
  {
    var other := if st.recorded == Some("") then "other" else "";
    tick := Tick(n => true, x => x != r, [Finish(BUILD, 1, Returned(true, ""), other)]);
    UnusableIsRebuilt(cfg, st, k, tick, tick.done[0]);
  }

  /** The condition on the log is exact: at a scan that comes to `build`, the recorded identity is safe
      from everything that may happen if and only if the log is intact. */
  lemma SafeIffIntact(cfg: Config, st: State, k: nat, r: JobResult, intact: bool)
    requires Usable(cfg) && Inv(cfg, st) && BuildIsNext(cfg, st, k) && BuildStands(cfg, st, r)
    requires Trusted(cfg, st.signatures, r)
    ensures (forall tick: Tick :: tick.intact(r) == intact ==> Iterate(cfg, st, tick).st.recorded == st.recorded) <==>
      intact
  {
    if intact {
      forall tick: Tick | tick.intact(r) == intact
        ensures Iterate(cfg, st, tick).st.recorded == st.recorded
      {
        IterateKeepsBuild(cfg, st, tick, r);
      }
    } else {
      var tick := DamagedCanChange(cfg, st, k, r);
      assert tick.intact(r) == intact && Iterate(cfg, st, tick).st.recorded != st.recorded;
    }
  }

  // ----- A build that runs and passes -----

  /** Every `build` that passes here finds an installed product that meets `ok`. */
  ghost predicate Installs(done: seq<Finish>, ok: string -> bool) {
    forall k :: 0 <= k < |done| && done[k].name == BUILD && done[k].ending.Returned? && done[k].ending.passed ==>
      ok(done[k].installed)
  }

  ghost predicate Meets(recorded: Option<string>, ok: string -> bool) {
    recorded.Some? && ok(recorded.value)
  }

  lemma {:induction false} FinishKeepsRecorded(cfg: Config, st: State, done: seq<Finish>, ok: string -> bool)
    requires Aligned(cfg, st) && Installs(done, ok) && Meets(st.recorded, ok)
    ensures Meets(FinishedAll(cfg, st, done).recorded, ok)
    decreases |done|
  {
    if done != [] {
      assert forall k :: 0 <= k < |done[1..]| ==> done[1..][k] == done[k + 1];
      FinishKeepsRecorded(cfg, Finished(cfg, st, done[0]), done[1..], ok);
    }
  }

  lemma {:induction false} ScanKeepsRecorded(cfg: Config, s: Scan, names: seq<string>, tick: Tick)
    requires Aligned(cfg, s.st) && Known(cfg, names)
    ensures var r := ScanOver(cfg, s, names, tick.clean, tick.intact);
      (if r.Drift? then r.st else r.scan.st).recorded == s.st.recorded
    decreases |names|
  {
    if names != [] && names[0] in s.st.pending && s.available != 0 {
      var move := Consider(cfg, s, names[0], tick.clean, tick.intact);
      if move.Next? {
        ScanKeepsRecorded(cfg, move.scan, names[1..], tick);
      }
    } else if names != [] && names[0] !in s.st.pending {
      ScanKeepsRecorded(cfg, s, names[1..], tick);
    }
  }

  /** The recorded identity keeps a property that every installed product has. */
  lemma {:induction false} RunKeepsRecorded(cfg: Config, st: State, ticks: seq<Tick>, ok: string -> bool)
    requires Aligned(cfg, st) && Meets(st.recorded, ok)
    requires forall k :: 0 <= k < |ticks| ==> Installs(ticks[k].done, ok)
    ensures Meets(Run(cfg, st, ticks).st.recorded, ok)
    decreases |ticks|
  {
    if ticks != [] {
      var tick := ticks[0];
      if st.pending != {} || st.active != map[] {
        ScanKeepsRecorded(cfg, FreshScan(cfg, st), cfg.listing, tick);
        var move := WholeScan(cfg, st, tick);
        if !move.Drift? && move.scan.st.active != map[] {
          FinishKeepsRecorded(cfg, move.scan.st, tick.done, ok);
        }
      }
      var phase := Iterate(cfg, st, tick);
      if phase.Looping? {
        RunKeepsRecorded(cfg, phase.st, ticks[1..], ok);
      }
    }
  }

  // ----- A green verdict and the runs its results come from -----

  /** A run of this program in its own context. */
  datatype Origin = Origin(cfg: Config, ledger: map<string, JobResult>, recorded: Option<string>, ticks: seq<Tick>)

  ghost function EndOf(o: Origin): State
    requires GoodConfig(o.cfg)
  {
    Run(o.cfg, Initial(o.cfg, o.ledger, o.recorded), o.ticks).st
  }

  /** The context of a run with the product it ended with. */
  ghost function ContextOf(o: Origin): (c: Context)
    requires GoodConfig(o.cfg)
    ensures Sound(c)
  {
    WithProduct(o.cfg.context, EndOf(o).product)
  }

  /** The run executed job `n` and left the result `r`. */
  ghost predicate Produced(o: Origin, n: string, r: JobResult) {
    GoodConfig(o.cfg) && n in EndOf(o).executed && n in EndOf(o).results && EndOf(o).results[n] == r
  }

  /** A result carries the signature that the job has in the context of the run that produced it. */
  lemma ProducedCarries(o: Origin, n: string, r: JobResult)
    requires Produced(o, n, r)
    ensures n in ContextOf(o).jobs && r.signature == Some(Signature(ContextOf(o), n))
  {
    GoodConfigUsable(o.cfg);
    InitialInv(o.cfg, o.ledger, o.recorded);
    RunSafe(o.cfg, Initial(o.cfg, o.ledger, o.recorded), o.ticks);
    ExecutedHasResult(o.cfg, EndOf(o), n);
    ExecutedCarries(o.cfg, EndOf(o), n);
    SignatureIs(o.cfg, EndOf(o), n);
  }

  lemma ExecutedCarries(cfg: Config, st: State, n: string)
    requires Inv(cfg, st) && n in st.executed && n in cfg.context.jobs
    ensures n in st.results && n in st.signatures && st.results[n].signature == Some(st.signatures[n])
  {
    TakenCarries(cfg, st, n);
  }

  /** The inputs of a job in this run and in the run that produced its result can be compared: the same
      hash and platform, a product in both or in neither, and no collision among the records hashed. */
  ghost predicate CanCompare(now: Origin, then': Origin)
    requires GoodConfig(now.cfg) && GoodConfig(then'.cfg)
  {
    Comparable(ContextOf(now), ContextOf(then')) && NoCollision(ContextOf(now), ContextOf(then'))
  }

  /** A green verdict means that each job passed on the inputs it has now: it was executed in this run, or its
      result stood in the ledger as a pass, and whatever run `o` produced that gave it inputs that agree with
      the current ones, recursively over all its ancestors. */
  lemma GreenMeansAgreement(now: Origin, w: World, o: Origin, n: string)
    requires GoodConfig(now.cfg) && n in now.cfg.context.jobs
    requires Run(now.cfg, Initial(now.cfg, now.ledger, now.recorded), now.ticks).LoopDone?
    requires Conclude(now.cfg, EndOf(now), w).0.Green?
    ensures Passed(EndOf(now), n)
    ensures n !in EndOf(now).executed ==>
      && n in now.ledger && now.ledger[n] == EndOf(now).results[n]
      && (Produced(o, n, now.ledger[n]) && CanCompare(now, o) ==> Agree(ContextOf(now), ContextOf(o), n))
  {
    GreenRun(now.cfg, now.ledger, now.recorded, now.ticks, w);
    var st := EndOf(now);
    if n !in st.executed {
      RunKeepsResult(now.cfg, Initial(now.cfg, now.ledger, now.recorded), now.ticks, n);
      assert n in now.ledger && now.ledger[n] == st.results[n];
      ReusedCarries(now, n);
      if Produced(o, n, now.ledger[n]) && CanCompare(now, o) {
        ProducedCarries(o, n, st.results[n]);
        SignatureSound(ContextOf(now), ContextOf(o), n, n);
      }
    }
  }

  /** A job that was taken carries the signature of the current context. */
  lemma ReusedCarries(now: Origin, n: string)
    requires GoodConfig(now.cfg) && n in now.cfg.context.jobs && EndOf(now).pending == {} && EndOf(now).active == map[]
    ensures n in EndOf(now).results && EndOf(now).results[n].signature == Some(Signature(ContextOf(now), n))
  {
    GoodConfigUsable(now.cfg);
    InitialInv(now.cfg, now.ledger, now.recorded);
    RunSafe(now.cfg, Initial(now.cfg, now.ledger, now.recorded), now.ticks);
    TakenCarries(now.cfg, EndOf(now), n);
    SignatureIs(now.cfg, EndOf(now), n);
  }
}

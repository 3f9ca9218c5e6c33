/** The scheduling loop of `main` as functions on its state: one scan over the pending jobs, the
    arrival of finished jobs, a whole iteration, a whole run and the verdict
    (qualification/release/qualify.py, lines 500-652). */
module Scheduler {
  import opened Basics
  import opened Matrix
  import opened Signatures

  datatype Status = Pass | Fail | Blocked

  /** One entry of the result ledger; `attempt` numbers the execution, 0 if there was none. */
  datatype JobResult = JobResult(
    status: Status, head: string, signature: Option<string>, log: Option<string>, attempt: nat)

  /** What stays fixed during a run. `listing` holds every job id once, in the scanning order: the
      code sorts by stage and name, and what is proved here holds for every order. `slots` is
      `allocation` of every job and `needs` the memory those slots take. `sign` is `input_signatures`
      for a given product; the product of `context` is the one installed at the start. */
  datatype Config = Config(
    context: Context,
    sign: string -> map<string, string>,
    listing: seq<string>,
    slots: map<string, int>,
    needs: map<string, int>,
    workers: int,
    memory: int,
    head: string,
    final: bool)

  /** `active` maps a running job to the signature it was submitted with; `product` is what the
      signatures were computed from and `recorded` is the identity kept in the state file. */
  datatype State = State(
    pending: set<string>,
    active: map<string, string>,
    allocations: map<string, int>,
    resources: set<string>,
    results: map<string, JobResult>,
    executed: set<string>,
    stage: Option<int>,
    product: string,
    recorded: Option<string>,
    signatures: map<string, string>)

  /** The tables of a configuration and of a state all speak of the selected jobs. */
  ghost predicate Aligned(cfg: Config, st: State) {
    && st.signatures.Keys == cfg.context.jobs.Keys
    && cfg.slots.Keys == cfg.needs.Keys == cfg.context.jobs.Keys
    && (forall product :: cfg.sign(product).Keys == cfg.context.jobs.Keys)
    && Known(cfg, cfg.listing)
  }

  ghost predicate Known(cfg: Config, names: seq<string>) {
    forall n :: n in names ==> n in cfg.context.jobs
  }

  /** One worker of every job fits the budgets, and no job depends on a later stage. */
  ghost predicate GoodJob(cfg: Config, n: string)
    requires n in cfg.context.jobs && n in cfg.slots && n in cfg.needs
  {
    && NoLaterParent(cfg.context.jobs, cfg.context.platform, cfg.context.jobs[n])
    && 1 <= cfg.slots[n] <= cfg.workers
    && 1 <= cfg.needs[n] <= cfg.memory
  }

  ghost predicate SignsRight(cfg: Config, product: string)
    requires Sound(cfg.context)
  {
    cfg.sign(product) == AllSignatures(WithProduct(cfg.context, product))
  }

  /** What `load_matrix` and the argument checks leave behind. */
  ghost predicate GoodConfig(cfg: Config) {
    && Sound(cfg.context)
    && (forall product :: SignsRight(cfg, product))
    && (forall product :: cfg.sign(product).Keys == cfg.context.jobs.Keys)
    && 1 <= cfg.workers && 1 <= cfg.memory
    && cfg.slots.Keys == cfg.needs.Keys == cfg.context.jobs.Keys
    && (forall n {:trigger GoodJob(cfg, n)} :: n in cfg.context.jobs ==> GoodJob(cfg, n))
    && cfg.context.jobs.Keys == (set n | n in cfg.listing)
    && (forall i, j :: 0 <= i < j < |cfg.listing| ==> cfg.listing[i] != cfg.listing[j])
  }

  function JobOf(cfg: Config, n: string): Job
    requires n in cfg.context.jobs
  {
    cfg.context.jobs[n]
  }

  function Deps(cfg: Config, n: string): set<string>
    requires n in cfg.context.jobs
  {
    Dependencies(cfg.context.jobs, cfg.context.platform, n)
  }

  function ResourceKey(cfg: Config, n: string): string
    requires n in cfg.context.jobs
  {
    GetOr(JobOf(cfg, n).resource, n)
  }

  predicate Passed(st: State, n: string) {
    n in st.results && st.results[n].status == Pass
  }

  predicate Unresolved(st: State, n: string) {
    n in st.pending || n in st.active
  }

  predicate Ready(cfg: Config, st: State, n: string)
    requires n in cfg.context.jobs
  {
    forall p :: p in Deps(cfg, n) ==> !Unresolved(st, p) && Passed(st, p)
  }

  /** The reuse test of one earlier result. */
  predicate Reusable(cfg: Config, st: State, intact: JobResult -> bool, n: string)
    requires n in cfg.context.jobs && n in st.signatures
  {
    && Passed(st, n)
    && !JobOf(cfg, n).alwaysRun
    && st.results[n].signature == Some(st.signatures[n])
    && intact(st.results[n])
    && (st.results[n].head == cfg.head || (!cfg.final && !JobOf(cfg, n).headBound))
  }

  // ----- One scan -----

  /** The state of the `for` loop over the pending jobs. */
  datatype Scan = Scan(st: State, available: int, memory: int, reused: bool)

  datatype Move =
    | Next(scan: Scan)
    /** leaves the loop early */
    | Stop(scan: Scan)
    /** the checkout changed before a new stage */
    | Drift(st: State)

  function Start(cfg: Config, s: Scan, n: string): Scan
    requires Aligned(cfg, s.st) && n in cfg.context.jobs
  {
    Scan(s.st.(
           active := s.st.active[n := s.st.signatures[n]],
           resources := s.st.resources + {ResourceKey(cfg, n)},
           allocations := s.st.allocations[n := cfg.slots[n]],
           pending := s.st.pending - {n}),
         s.available - cfg.slots[n], s.memory - cfg.needs[n], s.reused)
  }

  predicate Fits(cfg: Config, s: Scan, n: string)
    requires n in cfg.context.jobs && n in cfg.slots && n in cfg.needs
  {
    && ResourceKey(cfg, n) !in s.st.resources
    && cfg.slots[n] <= s.available && cfg.needs[n] <= s.memory
    && !(JobOf(cfg, n).exclusive && s.st.active != map[])
    && forall m :: m in s.st.active && m in cfg.context.jobs ==> !JobOf(cfg, m).exclusive
  }

  /** One pass of the loop body for the pending job `n`. */
  function Consider(cfg: Config, s: Scan, n: string, clean: string -> bool, intact: JobResult -> bool): (r: Move)
    requires Aligned(cfg, s.st) && n in cfg.context.jobs
    ensures !r.Drift? ==> Aligned(cfg, r.scan.st)
  {
    var job := JobOf(cfg, n);
    if !Ready(cfg, s.st, n) then Next(s)
    else if Reusable(cfg, s.st, intact, n) then
      Next(s.(st := s.st.(pending := s.st.pending - {n}), reused := true))
    else if s.st.stage != Some(Stage(job)) && !clean(n) then Drift(s.st)
    else
      var s1 := s.(st := s.st.(stage := Some(Stage(job))));
      if !Fits(cfg, s1, n) then Next(s1)
      else if job.exclusive then Stop(Start(cfg, s1, n))
      else Next(Start(cfg, s1, n))
  }

  /** The scan over the names still to come. The code lists the pending jobs once, before the loop;
      a job leaves `pending` only when the loop reaches it, so testing membership on the way is the
      same. */
  function ScanOver(cfg: Config, s: Scan, names: seq<string>, clean: string -> bool,
                    intact: JobResult -> bool): (r: Move)
    requires Aligned(cfg, s.st) && Known(cfg, names)
    ensures !r.Drift? ==> Aligned(cfg, r.scan.st)
    decreases |names|
  {
    if names == [] then Stop(s)
    else if names[0] !in s.st.pending then ScanOver(cfg, s, names[1..], clean, intact)
    else if s.available == 0 then Stop(s)
    else
      var move := Consider(cfg, s, names[0], clean, intact);
      if move.Next? then ScanOver(cfg, move.scan, names[1..], clean, intact) else move
  }

  // ----- Finished jobs -----

  /** How a worker ended: with an exit status and a log, or by raising. */
  datatype Ending = Returned(passed: bool, log: string) | Raised

  /** One completed future of the execution numbered `attempt`; `installed` is the product identity read
      when a build has passed. */
  datatype Finish = Finish(name: string, attempt: nat, ending: Ending, installed: string)

  function ResultOf(cfg: Config, st: State, f: Finish): JobResult
    requires f.name in st.active && f.name in st.signatures
  {
    match f.ending
    case Returned(passed, log) =>
      JobResult(if passed then Pass else Fail, cfg.head, Some(st.active[f.name]), Some(log), f.attempt)
    case Raised => JobResult(Fail, cfg.head, Some(st.signatures[f.name]), None, f.attempt)
  }

  /** The job leaves the running ones, its result enters the ledger. */
  function Settled(cfg: Config, st: State, f: Finish): (r: State)
    requires Aligned(cfg, st) && f.name in st.active && f.name in cfg.context.jobs
    ensures Aligned(cfg, r)
  {
    st.(active := st.active - {f.name},
        allocations := st.allocations - {f.name},
        resources := st.resources - {ResourceKey(cfg, f.name)},
        results := st.results[f.name := ResultOf(cfg, st, f)],
        executed := st.executed + {f.name})
  }

  /** A future of a job that is not running does not exist; such an entry changes nothing. After a
      passing build the product is read again and all signatures are recomputed. */
  function Finished(cfg: Config, st: State, f: Finish): (r: State)
    requires Aligned(cfg, st)
    ensures Aligned(cfg, r)
  {
    if f.name !in st.active || f.name !in cfg.context.jobs then st
    else if f.name == BUILD && ResultOf(cfg, st, f).status == Pass then
      Settled(cfg, st, f).(product := f.installed, recorded := Some(f.installed), signatures := cfg.sign(f.installed))
    else Settled(cfg, st, f)
  }

  function FinishedAll(cfg: Config, st: State, done: seq<Finish>): (r: State)
    requires Aligned(cfg, st)
    ensures Aligned(cfg, r)
    decreases |done|
  {
    if done == [] then st else FinishedAll(cfg, Finished(cfg, st, done[0]), done[1..])
  }

  // ----- Iterations and runs -----

  /** Sum of a table of integers. */
  ghost function Total(m: map<string, int>): int
    decreases m.Keys
  {
    if m == map[] then 0
    else
      var n :| n in m;
      m[n] + Total(m - {n})
  }

  ghost function MemoryTable(cfg: Config, allocations: map<string, int>): map<string, int>
  {
    map n | n in allocations && n in cfg.needs :: cfg.needs[n]
  }

  ghost function FreshScan(cfg: Config, st: State): Scan {
    Scan(st, cfg.workers - Total(st.allocations), cfg.memory - Total(MemoryTable(cfg, st.allocations)), false)
  }

  /** What the surroundings answer during one iteration: whether the checkout is unchanged when a
      job is about to open a stage, which logs still match their identity, and which futures the
      wait returns (none on a timeout). */
  datatype Tick = Tick(clean: string -> bool, intact: JobResult -> bool, done: seq<Finish>)

  datatype Phase =
    | Looping(st: State)
    | LoopDone(st: State)
    | SourceChanged(st: State)

  ghost function WholeScan(cfg: Config, st: State, tick: Tick): (r: Move)
    requires Aligned(cfg, st)
    ensures !r.Drift? ==> Aligned(cfg, r.scan.st)
  {
    ScanOver(cfg, FreshScan(cfg, st), cfg.listing, tick.clean, tick.intact)
  }

  ghost function Iterate(cfg: Config, st: State, tick: Tick): (r: Phase)
    requires Aligned(cfg, st)
    ensures r.Looping? ==> Aligned(cfg, r.st)
  {
    if st.pending == {} && st.active == map[] then LoopDone(st)
    else
      var r := WholeScan(cfg, st, tick);
      if r.Drift? then SourceChanged(r.st) else AfterScan(cfg, r.scan, tick)
  }

  ghost function AfterScan(cfg: Config, scan: Scan, tick: Tick): (r: Phase)
    requires Aligned(cfg, scan.st)
    ensures r.Looping? ==> Aligned(cfg, r.st)
  {
    if scan.st.active == map[] then
      if scan.reused && scan.st.pending != {} then Looping(scan.st) else LoopDone(scan.st)
    else Looping(FinishedAll(cfg, scan.st, tick.done))
  }

  /** A build result says nothing about a product other than the recorded one. */
  function KeptLedger(cfg: Config, ledger: map<string, JobResult>, recorded: Option<string>): map<string, JobResult> {
    if BUILD !in cfg.context.jobs || recorded == Some(cfg.context.product) then ledger else ledger - {BUILD}
  }

  /** The state before the loop. */
  function Initial(cfg: Config, ledger: map<string, JobResult>, recorded: Option<string>): (st: State)
    requires GoodConfig(cfg)
    ensures Aligned(cfg, st)
  {
    assert forall n :: n in cfg.listing ==> n in (set m | m in cfg.listing);
    State(cfg.context.jobs.Keys, map[], map[], {}, KeptLedger(cfg, ledger, recorded), {}, None, cfg.context.product,
          recorded, cfg.sign(cfg.context.product))
  }
}

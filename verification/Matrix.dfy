/** The release matrix: jobs, their dependencies and the checks made when it is loaded
    (qualification/release/qualify.py, lines 28-41 and 56-108). */
module Matrix {
  import opened Basics

  datatype Level = Light | Medium | Full

  /** One matrix row after its source inputs were attached. An absent JSON key is `None`. */
  datatype Job = Job(
    id: string,
    mode: Level,
    stageOverride: Option<int>,
    platforms: set<string>,
    finalOnly: bool,
    needs: Option<seq<string>>,
    needsByPlatform: Option<map<string, seq<string>>>,
    commands: map<string, seq<string>>,
    cwd: Option<string>,
    expected: Option<string>,
    sourceInputs: seq<string>,
    timeout: int,
    slots: Option<int>,
    memoryPerSlot: Option<int>,
    resource: Option<string>,
    exclusive: bool,
    alwaysRun: bool,
    headBound: bool,
    baselineInput: bool)

  function LevelNumber(level: Level): int {
    match level
    case Light => 0
    case Medium => 1
    case Full => 2
  }

  function Stage(job: Job): int {
    GetOr(job.stageOverride, LevelNumber(job.mode))
  }

  /** An override counts; otherwise light jobs come first, then medium, then full ones. */
  lemma StageIs(job: Job)
    ensures job.stageOverride == Some(Stage(job))
         || (job.stageOverride.None?
             && (job.mode, Stage(job)) in {(Light, 0), (Medium, 1), (Full, 2)})
  {
  }

  function MemoryPerSlot(job: Job): int {
    GetOr(job.memoryPerSlot, 512)
  }

  /** Worker slots given to a job: what it asks for, cut to the budgets. */
  function Allocation(job: Job, workers: int, memory: int): (slots: int)
    requires workers >= 1 && memory >= 1 && GetOr(job.slots, 1) >= 1 && MemoryPerSlot(job) >= 1
    ensures 0 <= slots <= GetOr(job.slots, 1) && slots <= workers && slots * MemoryPerSlot(job) <= memory
    ensures slots == 0 <==> memory < MemoryPerSlot(job)
  {
    DivisionFits(memory, MemoryPerSlot(job));
    var whole := memory / MemoryPerSlot(job);
    var slots := Min(Min(GetOr(job.slots, 1), workers), whole);
    ProductMonotone(slots, whole, MemoryPerSlot(job));
    slots
  }

  lemma DivisionFits(a: int, b: int)
    requires a >= 1 && b >= 1
    ensures a / b * b <= a && 0 <= a / b
    ensures a / b == 0 <==> a < b
  {
  }

  /** It is the greatest number of slots that the job asks for and both budgets allow. */
  lemma AllocationGreatest(job: Job, workers: int, memory: int, k: int)
    requires workers >= 1 && memory >= 1 && GetOr(job.slots, 1) >= 1 && MemoryPerSlot(job) >= 1
    requires k <= GetOr(job.slots, 1) && k <= workers && k * MemoryPerSlot(job) <= memory
    ensures k <= Allocation(job, workers, memory)
  {
    DivisionGreatest(memory, MemoryPerSlot(job), k);
  }

  lemma DivisionGreatest(a: int, b: int, k: int)
    requires a >= 1 && b >= 1 && k * b <= a
    ensures k <= a / b
  {
    if k > a / b {
      ProductMonotone(a / b + 1, k, b);
    }
  }

  lemma ProductMonotone(a: int, b: int, c: int)
    requires a <= b && c >= 1
    ensures a * c <= b * c
  {
  }

  function Parents(job: Job, platform: string): seq<string> {
    GetOr(job.needs, []) +
    (match job.needsByPlatform
     case None => []
     case Some(m) => if platform in m then m[platform] else [])
  }

  /** A parent of the job by its list for all platforms or by that for this one. */
  predicate HasParent(job: Job, platform: string, p: string) {
    || (job.needs.Some? && p in job.needs.value)
    || (job.needsByPlatform.Some? && platform in job.needsByPlatform.value && p in job.needsByPlatform.value[platform])
  }

  lemma ParentsAre(job: Job, platform: string, p: string)
    ensures p in Parents(job, platform) <==> HasParent(job, platform, p)
  {
  }

  function Ids(jobs: seq<Job>): (ids: set<string>)
    ensures forall i :: 0 <= i < |jobs| ==> jobs[i].id in ids
  {
    set i | 0 <= i < |jobs| :: jobs[i].id
  }

  ghost predicate DistinctIds(jobs: seq<Job>) {
    forall i, j :: 0 <= i < j < |jobs| ==> jobs[i].id != jobs[j].id
  }

  /** `by_id`: a later row of the same id would win, but ids are distinct by then. */
  function ById(jobs: seq<Job>): (m: map<string, Job>)
    ensures m.Keys == Ids(jobs)
    ensures forall id :: id in m ==> m[id] in jobs && m[id].id == id
  {
    if jobs == [] then map[]
    else
      var m := ById(jobs[..|jobs| - 1]);
      assert jobs == jobs[..|jobs| - 1] + [jobs[|jobs| - 1]];
      m[jobs[|jobs| - 1].id := jobs[|jobs| - 1]]
  }

  // ----- Dependency graph -----

  /** `p` is a direct parent of `n`. */
  predicate Edge(jobs: map<string, Job>, platform: string, n: string, p: string) {
    n in jobs && p in Parents(jobs[n], platform)
  }

  /** Every step of the walk goes from a job to one of its parents. */
  ghost predicate Walk(jobs: map<string, Job>, platform: string, walk: seq<string>) {
    |walk| >= 1 && forall i :: 0 <= i < |walk| - 1 ==> Edge(jobs, platform, walk[i], walk[i + 1])
  }

  ghost predicate Cycle(jobs: map<string, Job>, platform: string, walk: seq<string>) {
    |walk| >= 2 && Walk(jobs, platform, walk) && walk[0] == walk[|walk| - 1]
  }

  ghost predicate Acyclic(jobs: map<string, Job>, platform: string) {
    forall walk: seq<string> :: !Cycle(jobs, platform, walk)
  }

  ghost predicate ParentsPresent(jobs: map<string, Job>, platform: string) {
    forall n, p :: Edge(jobs, platform, n, p) ==> p in jobs
  }

  /** A listing in which every parent stands before its child. */
  ghost predicate Topological(jobs: map<string, Job>, platform: string, order: seq<string>) {
    && (forall i, j :: 0 <= i < j < |order| ==> order[i] != order[j])
    && (forall i, p :: 0 <= i < |order| && Edge(jobs, platform, order[i], p) ==> p in order[..i])
  }

  /** A rank that falls along every parent edge. */
  ghost predicate Ranked(jobs: map<string, Job>, platform: string, rank: map<string, nat>) {
    && jobs.Keys == rank.Keys
    && forall n, p :: Edge(jobs, platform, n, p) ==> p in jobs && rank[p] < rank[n]
  }

  function IndexOf(order: seq<string>, n: string): (k: nat)
    requires n in order
    ensures k < |order| && order[k] == n && n !in order[..k]
  {
    if order[0] == n then 0
    else
      assert n in order[1..];
      var k := IndexOf(order[1..], n) + 1;
      assert order[..k] == [order[0]] + order[1..][..k - 1];
      k
  }

  function RankOf(order: seq<string>): (rank: map<string, nat>)
    ensures rank.Keys == set n | n in order
    ensures forall n :: n in rank ==> rank[n] < |order| && order[rank[n]] == n
  {
    map n | n in order :: IndexOf(order, n)
  }

  /** A job whose parents are listed may be listed next. */
  lemma TopologicalSnoc(jobs: map<string, Job>, platform: string, order: seq<string>, name: string)
    requires Topological(jobs, platform, order) && name in jobs && name !in order
    requires forall p :: Edge(jobs, platform, name, p) ==> p in order
    ensures Topological(jobs, platform, order + [name])
  {
    var longer := order + [name];
    forall i, p | 0 <= i < |longer| && Edge(jobs, platform, longer[i], p)
      ensures p in longer[..i]
    {
      if i == |order| {
        assert longer[..i] == order;
      } else {
        assert longer[..i] == order[..i] && longer[i] == order[i];
      }
    }
  }

  lemma TopologicalIsRanked(jobs: map<string, Job>, platform: string, order: seq<string>)
    requires Topological(jobs, platform, order) && jobs.Keys == set n | n in order
    ensures Ranked(jobs, platform, RankOf(order))
  {
    var rank := RankOf(order);
    forall n, p | Edge(jobs, platform, n, p)
      ensures p in jobs && rank[p] < rank[n]
    {
      var i := rank[n];
      assert p in order[..i];
      var k :| 0 <= k < i && order[k] == p;
      assert p in order;
    }
  }

  /** A ranked relation has no cycle: the rank falls at each step of a walk. */
  lemma {:induction false} RankFallsAlongWalk(jobs: map<string, Job>, platform: string, rank: map<string, nat>,
                                              walk: seq<string>)
    requires Ranked(jobs, platform, rank) && Walk(jobs, platform, walk) && |walk| >= 2
    ensures walk[0] in rank && walk[|walk| - 1] in rank && rank[walk[|walk| - 1]] < rank[walk[0]]
  {
    assert Edge(jobs, platform, walk[0], walk[1]);
    if |walk| > 2 {
      var rest := walk[1..];
      forall i | 0 <= i < |rest| - 1
        ensures Edge(jobs, platform, rest[i], rest[i + 1])
      {
        assert rest[i] == walk[i + 1] && rest[i + 1] == walk[i + 2];
      }
      RankFallsAlongWalk(jobs, platform, rank, rest);
    }
  }

  lemma RankedIsAcyclic(jobs: map<string, Job>, platform: string, rank: map<string, nat>)
    requires Ranked(jobs, platform, rank)
    ensures Acyclic(jobs, platform)
  {
    forall walk: seq<string>
      ensures !Cycle(jobs, platform, walk)
    {
      if Cycle(jobs, platform, walk) {
        RankFallsAlongWalk(jobs, platform, rank, walk);
      }
    }
  }

  // ----- Row checks -----

  datatype MatrixError =
    | DuplicateId
    | AbsentDependency(id: string)
    | InvalidTimeoutOrCommand(id: string)
    | InvalidSources(id: string)
    | InvalidBudget(id: string)
    | LaterStage(id: string)
    | DependencyCycle(id: string)

  datatype Loaded = Ok(order: seq<string>) | Err(error: MatrixError)

  ghost predicate NoAbsentParent(jobs: map<string, Job>, platform: string, job: Job) {
    forall p :: p in Parents(job, platform) ==> p in jobs
  }

  predicate GoodCommand(job: Job, platform: string) {
    job.timeout > 0 && platform in job.commands && job.commands[platform] != []
  }

  predicate GoodSources(job: Job) {
    job.sourceInputs != [] && forall s :: s in job.sourceInputs ==> s != ""
  }

  predicate GoodBudget(job: Job) {
    GetOr(job.slots, 1) >= 1 && MemoryPerSlot(job) >= 1
  }

  ghost predicate NoLaterParent(jobs: map<string, Job>, platform: string, job: Job) {
    forall p :: p in Parents(job, platform) && p in jobs ==> Stage(jobs[p]) <= Stage(job)
  }

  ghost predicate GoodRow(jobs: map<string, Job>, platform: string, job: Job) {
    && NoAbsentParent(jobs, platform, job)
    && GoodCommand(job, platform)
    && GoodSources(job)
    && GoodBudget(job)
    && NoLaterParent(jobs, platform, job)
  }

  ghost predicate GoodRows(jobs: seq<Job>, byId: map<string, Job>, platform: string) {
    forall i :: 0 <= i < |jobs| ==> GoodRow(byId, platform, jobs[i])
  }

  /** What a matrix must satisfy to be accepted. */
  ghost predicate GoodMatrix(jobs: seq<Job>, platform: string) {
    && DistinctIds(jobs)
    && GoodRows(jobs, ById(jobs), platform)
    && Acyclic(ById(jobs), platform)
  }

  /** A real dependency cycle passes through `name`. */
  ghost predicate OnCycle(jobs: map<string, Job>, platform: string, name: string) {
    exists walk :: Cycle(jobs, platform, walk) && walk[0] == name
  }

  /** The combined dependency relation of the scheduler: parents and every job of an earlier stage. */
  function Dependencies(jobs: map<string, Job>, platform: string, n: string): (deps: set<string>)
    requires n in jobs
  {
    set p | p in jobs && (p in Parents(jobs[n], platform) || Stage(jobs[p]) < Stage(jobs[n]))
  }

  /** The combined relation is well-founded: each dependency is smaller in stage, or equal in stage
      and smaller in rank. */
  lemma DependenciesFall(jobs: map<string, Job>, platform: string, rank: map<string, nat>, n: string, p: string)
    requires Ranked(jobs, platform, rank)
    requires n in jobs && NoLaterParent(jobs, platform, jobs[n])
    requires p in Dependencies(jobs, platform, n)
    ensures Stage(jobs[p]) < Stage(jobs[n]) || (Stage(jobs[p]) == Stage(jobs[n]) && rank[p] < rank[n])
  {
    assert p in Parents(jobs[n], platform) ==> Edge(jobs, platform, n, p);
  }

  // ----- Depth-first search -----

  class Search {
    const jobs: map<string, Job>
    const platform: string
    var visiting: set<string>
    var visited: set<string>
    /** Names in the order they were finished. */
    var order: seq<string>

    constructor (jobs: map<string, Job>, platform: string)
      ensures this.jobs == jobs && this.platform == platform
      ensures visiting == {} && Consistent()
    {
      this.jobs, this.platform := jobs, platform;
      visiting, visited, order := {}, {}, [];
    }

    /** Finished names are listed parents first. */
    ghost predicate Consistent()
      reads this
    {
      && Topological(jobs, platform, order)
      && visited == (set n | n in order)
      && visited <= jobs.Keys
      && visited !! visiting
    }

    /** `path` holds the names being visited, outermost first, and leads to `name`. */
    ghost predicate Leads(path: seq<string>, name: string)
      reads this
    {
      && visiting == (set n | n in path)
      && (path != [] ==> Walk(jobs, platform, path) && Edge(jobs, platform, path[|path| - 1], name))
    }

    method Visit(name: string, ghost path: seq<string>) returns (cycle: Option<string>, ghost proof: seq<string>)
      requires ParentsPresent(jobs, platform)
      requires name in jobs && Consistent() && Leads(path, name)
      modifies this`visiting, this`visited, this`order
      ensures cycle.None? ==> Consistent() && visiting == old(visiting) && old(visited) + {name} <= visited
      ensures cycle.Some? ==> Cycle(jobs, platform, proof) && cycle.value == proof[0]
      decreases jobs.Keys - visiting
    {
      if name in visiting {
        ghost var k: nat :| k < |path| && path[k] == name;
        proof := path[k..] + [name];
        return Some(name), proof;
      }
      if name in visited {
        return None, [];
      }
      visiting := visiting + {name};
      ghost var inner := path + [name];
      assert Walk(jobs, platform, inner);
      assert visiting == (set n | n in inner) by {
        assert forall n :: n in inner <==> n in path || n == name;
      }
      var parents := Parents(jobs[name], platform);
      for i := 0 to |parents|
        invariant Consistent() && visiting == old(visiting) + {name}
        invariant old(visited) <= visited
        invariant forall k :: 0 <= k < i ==> parents[k] in visited
      {
        assert Edge(jobs, platform, name, parents[i]);
        cycle, proof := Visit(parents[i], inner);
        if cycle.Some? {
          return;
        }
      }
      visiting := visiting - {name};
      visited := visited + {name};
      TopologicalSnoc(jobs, platform, order, name);
      order := order + [name];
      return None, [];
    }
  }

  /** The first check a row fails, in the order of the code. */
  function RowError(jobs: map<string, Job>, platform: string, row: Job): (e: Option<MatrixError>)
    ensures e.None? <==> GoodRow(jobs, platform, row)
  {
    var parents := Parents(row, platform);
    if exists k :: 0 <= k < |parents| && parents[k] !in jobs then Some(AbsentDependency(row.id))
    else if !GoodCommand(row, platform) then Some(InvalidTimeoutOrCommand(row.id))
    else if !GoodSources(row) then Some(InvalidSources(row.id))
    else if !GoodBudget(row) then Some(InvalidBudget(row.id))
    else if exists k :: 0 <= k < |parents| && Stage(jobs[parents[k]]) > Stage(row) then Some(LaterStage(row.id))
    else None
  }

  datatype RowFault = NoParent | NoCommand | NoSources | NoBudget | TooLate

  /** What each refusal of a row means; a missing number of slots counts 1, a missing memory need 512. */
  ghost predicate Faulty(jobs: map<string, Job>, platform: string, row: Job, f: RowFault) {
    match f
    case NoParent => exists p :: HasParent(row, platform, p) && p !in jobs
    case NoCommand => row.timeout <= 0 || platform !in row.commands || |row.commands[platform]| == 0
    case NoSources => |row.sourceInputs| == 0 || exists k :: 0 <= k < |row.sourceInputs| && |row.sourceInputs[k]| == 0
    case NoBudget =>
      (row.slots.Some? && row.slots.value < 1) || (row.memoryPerSlot.Some? && row.memoryPerSlot.value < 1)
    case TooLate => exists p :: HasParent(row, platform, p) && p in jobs && Stage(jobs[p]) > Stage(row)
  }

  function ErrorOf(f: RowFault, id: string): MatrixError {
    match f
    case NoParent => AbsentDependency(id)
    case NoCommand => InvalidTimeoutOrCommand(id)
    case NoSources => InvalidSources(id)
    case NoBudget => InvalidBudget(id)
    case TooLate => LaterStage(id)
  }

  lemma GoodRowFaults(jobs: map<string, Job>, platform: string, row: Job)
    ensures NoAbsentParent(jobs, platform, row) <==> !Faulty(jobs, platform, row, NoParent)
    ensures GoodCommand(row, platform) <==> !Faulty(jobs, platform, row, NoCommand)
    ensures GoodSources(row) <==> !Faulty(jobs, platform, row, NoSources)
    ensures GoodBudget(row) <==> !Faulty(jobs, platform, row, NoBudget)
    ensures NoLaterParent(jobs, platform, row) <==> !Faulty(jobs, platform, row, TooLate)
  {
    forall p
      ensures p in Parents(row, platform) <==> HasParent(row, platform, p)
    {
      ParentsAre(row, platform, p);
    }
    assert forall k :: 0 <= k < |row.sourceInputs| ==> row.sourceInputs[k] in row.sourceInputs;
  }

  /** A row is refused with its first fault, named after it, and passes if it has none. */
  lemma RowFaults(jobs: map<string, Job>, platform: string, row: Job)
    ensures RowError(jobs, platform, row)
         == if Faulty(jobs, platform, row, NoParent) then Some(ErrorOf(NoParent, row.id))
            else if Faulty(jobs, platform, row, NoCommand) then Some(ErrorOf(NoCommand, row.id))
            else if Faulty(jobs, platform, row, NoSources) then Some(ErrorOf(NoSources, row.id))
            else if Faulty(jobs, platform, row, NoBudget) then Some(ErrorOf(NoBudget, row.id))
            else if Faulty(jobs, platform, row, TooLate) then Some(ErrorOf(TooLate, row.id))
            else None
  {
    GoodRowFaults(jobs, platform, row);
    var parents := Parents(row, platform);
    assert (exists k :: 0 <= k < |parents| && parents[k] !in jobs) <==> exists p :: p in parents && p !in jobs;
    if !Faulty(jobs, platform, row, NoParent) {
      assert (exists k :: 0 <= k < |parents| && Stage(jobs[parents[k]]) > Stage(row)) <==>
        exists p :: p in parents && p in jobs && Stage(jobs[p]) > Stage(row);
    }
  }

  /** Each name in the walk is a job that has the next one as a parent, and the last is the first again. */
  ghost predicate RawCycle(jobs: map<string, Job>, platform: string, walk: seq<string>) {
    && |walk| >= 2 && walk[0] == walk[|walk| - 1]
    && forall i :: 0 <= i < |walk| - 1 ==> walk[i] in jobs && HasParent(jobs[walk[i]], platform, walk[i + 1])
  }

  lemma EdgeIs(jobs: map<string, Job>, platform: string, n: string, p: string)
    ensures Edge(jobs, platform, n, p) <==> n in jobs && HasParent(jobs[n], platform, p)
  {
    if n in jobs {
      ParentsAre(jobs[n], platform, p);
    }
  }

  lemma CycleIs(jobs: map<string, Job>, platform: string, walk: seq<string>)
    ensures Cycle(jobs, platform, walk) <==> RawCycle(jobs, platform, walk)
  {
    if Cycle(jobs, platform, walk) {
      forall i | 0 <= i < |walk| - 1
        ensures walk[i] in jobs && HasParent(jobs[walk[i]], platform, walk[i + 1])
      {
        assert Edge(jobs, platform, walk[i], walk[i + 1]);
        EdgeIs(jobs, platform, walk[i], walk[i + 1]);
      }
    }
    if RawCycle(jobs, platform, walk) {
      forall i | 0 <= i < |walk| - 1
        ensures Edge(jobs, platform, walk[i], walk[i + 1])
      {
        EdgeIs(jobs, platform, walk[i], walk[i + 1]);
      }
    }
  }

  ghost predicate Faultless(jobs: map<string, Job>, platform: string, row: Job) {
    forall f: RowFault :: !Faulty(jobs, platform, row, f)
  }

  lemma FaultlessIs(jobs: map<string, Job>, platform: string, row: Job)
    ensures GoodRow(jobs, platform, row) <==> Faultless(jobs, platform, row)
  {
    GoodRowFaults(jobs, platform, row);
    if GoodRow(jobs, platform, row) {
      forall f: RowFault
        ensures !Faulty(jobs, platform, row, f)
      {
        match f
        case NoParent =>
        case NoCommand =>
        case NoSources =>
        case NoBudget =>
        case TooLate =>
      }
    }
  }

  /** Told of the raw lists: a matrix is accepted exactly when no id occurs twice, no row has a fault, and no walk along
      the lists of parents comes back to where it started. */
  lemma GoodMatrixIs(jobs: seq<Job>, platform: string)
    ensures GoodMatrix(jobs, platform) <==>
      && (forall i, j :: 0 <= i < j < |jobs| ==> jobs[i].id != jobs[j].id)
      && (forall i :: 0 <= i < |jobs| ==> Faultless(ById(jobs), platform, jobs[i]))
      && forall walk: seq<string> :: !RawCycle(ById(jobs), platform, walk)
  {
    var byId := ById(jobs);
    forall i | 0 <= i < |jobs|
      ensures GoodRow(byId, platform, jobs[i]) <==> Faultless(byId, platform, jobs[i])
    {
      FaultlessIs(byId, platform, jobs[i]);
    }
    forall walk: seq<string>
      ensures Cycle(byId, platform, walk) <==> RawCycle(byId, platform, walk)
    {
      CycleIs(byId, platform, walk);
    }
  }

  /** `e` is the error of the first row that fails a check. */
  ghost predicate FirstBadRow(jobs: seq<Job>, byId: map<string, Job>, platform: string, e: MatrixError) {
    exists i :: 0 <= i < |jobs| && RowError(byId, platform, jobs[i]) == Some(e) && GoodRows(jobs[..i], byId, platform)
  }

  method CheckRows(jobs: seq<Job>, byId: map<string, Job>, platform: string) returns (e: Option<MatrixError>)
    ensures e.None? <==> GoodRows(jobs, byId, platform)
    ensures e.Some? ==> FirstBadRow(jobs, byId, platform, e.value)
  {
    for i := 0 to |jobs|
      invariant forall k :: 0 <= k < i ==> GoodRow(byId, platform, jobs[k])
    {
      e := RowError(byId, platform, jobs[i]);
      if e.Some? {
        assert GoodRows(jobs[..i], byId, platform);
        return;
      }
    }
    return None;
  }

  method SearchAll(jobs: seq<Job>, byId: map<string, Job>, platform: string)
    returns (cycle: Option<string>, order: seq<string>)
    requires byId.Keys == Ids(jobs) && ParentsPresent(byId, platform)
    ensures cycle.None? ==> Topological(byId, platform, order) && byId.Keys == (set n | n in order)
    ensures cycle.Some? ==> OnCycle(byId, platform, cycle.value) && !Acyclic(byId, platform)
  {
    var search := new Search(byId, platform);
    for i := 0 to |jobs|
      invariant search.jobs == byId && search.platform == platform
      invariant search.Consistent() && search.visiting == {}
      invariant forall k :: 0 <= k < i ==> jobs[k].id in search.visited
    {
      ghost var proof;
      cycle, proof := search.Visit(jobs[i].id, []);
      if cycle.Some? {
        return cycle, [];
      }
    }
    return None, search.order;
  }

  lemma RowsGiveParents(jobs: seq<Job>, byId: map<string, Job>, platform: string)
    requires GoodRows(jobs, byId, platform) && forall n :: n in byId ==> byId[n] in jobs
    ensures ParentsPresent(byId, platform)
  {
    forall n, p | Edge(byId, platform, n, p)
      ensures p in byId
    {
      var i :| 0 <= i < |jobs| && jobs[i] == byId[n];
      assert NoAbsentParent(byId, platform, jobs[i]);
    }
  }

  /** `ids` and the jobs have the same number. */
  method AllDistinct(jobs: seq<Job>) returns (distinct: bool)
    ensures distinct <==> DistinctIds(jobs)
  {
    for i := 0 to |jobs|
      invariant forall a, b :: 0 <= a < b < i ==> jobs[a].id != jobs[b].id
    {
      if exists k :: 0 <= k < i && jobs[k].id == jobs[i].id {
        return false;
      }
    }
    return true;
  }

  lemma OrderedIsAcyclic(byId: map<string, Job>, platform: string, order: seq<string>)
    requires Topological(byId, platform, order) && byId.Keys == (set n | n in order)
    ensures Acyclic(byId, platform)
  {
    TopologicalIsRanked(byId, platform, order);
    RankedIsAcyclic(byId, platform, RankOf(order));
  }

  /** The row checks and the search, for jobs with distinct ids. */
  method LoadRows(jobs: seq<Job>, byId: map<string, Job>, platform: string) returns (r: Loaded)
    requires byId.Keys == Ids(jobs) && forall n :: n in byId ==> byId[n] in jobs
    ensures r.Ok? <==> GoodRows(jobs, byId, platform) && Acyclic(byId, platform)
    ensures r.Ok? ==> Topological(byId, platform, r.order) && byId.Keys == (set n | n in r.order)
    ensures r.Err? ==>
      if GoodRows(jobs, byId, platform) then r.error.DependencyCycle? && OnCycle(byId, platform, r.error.id)
      else RowFailure(r.error) && FirstBadRow(jobs, byId, platform, r.error)
  {
    var e := CheckRows(jobs, byId, platform);
    if e.Some? {
      RowFailures(jobs, byId, platform, e.value);
      return Err(e.value);
    }
    RowsGiveParents(jobs, byId, platform);
    var cycle, order := SearchAll(jobs, byId, platform);
    if cycle.Some? {
      return Err(DependencyCycle(cycle.value));
    }
    OrderedIsAcyclic(byId, platform, order);
    return Ok(order);
  }

  /** An error of a row check. */
  predicate RowFailure(e: MatrixError) {
    !e.DuplicateId? && !e.DependencyCycle?
  }

  lemma RowFailures(jobs: seq<Job>, byId: map<string, Job>, platform: string, e: MatrixError)
    requires FirstBadRow(jobs, byId, platform, e)
    ensures RowFailure(e)
  {
  }

  /** The checks of `load_matrix` on the selected rows, in its order. It accepts exactly the good
      matrices, and then lists the jobs parents first; a refused row is the first bad one; a
      reported cycle is real and passes through the named job. */
  method LoadMatrix(jobs: seq<Job>, platform: string) returns (r: Loaded)
    ensures r.Ok? <==> GoodMatrix(jobs, platform)
    ensures r.Ok? ==> Topological(ById(jobs), platform, r.order) && Ids(jobs) == (set n | n in r.order)
    ensures r == Err(DuplicateId) <==> !DistinctIds(jobs)
    ensures r.Err? && r.error.DependencyCycle? ==> OnCycle(ById(jobs), platform, r.error.id)
    ensures r.Err? && RowFailure(r.error) ==> FirstBadRow(jobs, ById(jobs), platform, r.error)
  {
    var distinct := AllDistinct(jobs);
    if !distinct {
      return Err(DuplicateId);
    }
    r := LoadRows(jobs, ById(jobs), platform);
  }
}

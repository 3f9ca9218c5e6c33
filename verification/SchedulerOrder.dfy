/** The order of a scan (qualification/release/qualify.py, lines 519-571): no job is preferred to one that is listed
    before it. */
module SchedulerOrder {
  import opened Basics
  import opened Matrix
  import opened Scheduler
  import opened SchedulerSafety
  import opened SchedulerRuns
  import opened SchedulerScan

  function SlotsOf(cfg: Config, who: set<string>): map<string, int> {
    map m | m in who && m in cfg.slots :: cfg.slots[m]
  }

  function NeedsOf(cfg: Config, who: set<string>): map<string, int> {
    map m | m in who && m in cfg.needs :: cfg.needs[m]
  }

  /** These jobs keep `n` from starting: one has its resource, they leave too few slots or too little memory, `n` must
      run alone, or one of them must. */
  ghost predicate HeldBy(cfg: Config, who: set<string>, n: string)
    requires n in cfg.context.jobs && n in cfg.slots && n in cfg.needs
  {
    || (exists m :: m in who && m in cfg.context.jobs
                    && GetOr(cfg.context.jobs[m].resource, m) == GetOr(cfg.context.jobs[n].resource, n))
    || cfg.slots[n] > cfg.workers - Total(SlotsOf(cfg, who))
    || cfg.needs[n] > cfg.memory - Total(NeedsOf(cfg, who))
    || (cfg.context.jobs[n].exclusive && who != {})
    || exists m :: m in who && m in cfg.context.jobs && cfg.context.jobs[m].exclusive
  }

  /** What holds a job in a state of the scan is what runs then. */
  lemma HeldByRunning(cfg: Config, u: Scan, n: string)
    requires ScanInv(cfg, u) && n in cfg.context.jobs && Held(cfg, u.st, u.available, u.memory, n)
    ensures HeldBy(cfg, u.st.active.Keys, n)
  {
    assert Holds(Budget, cfg, u.st) && Holds(Resources, cfg, u.st);
    var who := u.st.active.Keys;
    assert u.st.allocations == SlotsOf(cfg, who);
    assert MemoryTable(cfg, u.st.allocations) == NeedsOf(cfg, who);
    if GetOr(cfg.context.jobs[n].resource, n) in u.st.resources {
      var m :| m in u.st.active && ResourceKey(cfg, m) == GetOr(cfg.context.jobs[n].resource, n);
      assert m in who;
    }
  }

  /** What a scan starts is listed. */
  lemma {:induction false} StartsListed(cfg: Config, s: Scan, names: seq<string>, clean: string -> bool,
                                        intact: JobResult -> bool)
    requires Aligned(cfg, s.st) && Known(cfg, names)
    ensures var r := ScanOver(cfg, s, names, clean, intact);
      r.Drift? || (r.scan.st.pending <= s.st.pending && s.st.active.Keys <= r.scan.st.active.Keys
                   && forall m :: m in r.scan.st.active ==> m in s.st.active || m in names)
    decreases |names|
  {
    if names != [] {
      if names[0] !in s.st.pending {
        StartsListed(cfg, s, names[1..], clean, intact);
      } else if s.available != 0 {
        ConsiderCases(cfg, s, names[0], clean, intact);
        var move := Consider(cfg, s, names[0], clean, intact);
        if move.Next? {
          StartsListed(cfg, move.scan, names[1..], clean, intact);
        }
      }
    }
  }

  datatype About = Itself | Earlier | Later

  /** In the state `u` the job `names[i]` is held, by what ran before and by what was started before its turn, and
      what is started afterwards stands behind it. */
  ghost predicate TurnPart(a: About, cfg: Config, s: Scan, names: seq<string>, i: nat, u: Scan, t: State)
    requires i < |names| && Known(cfg, names)
  {
    match a
    case Itself => ScanInv(cfg, u) && Held(cfg, u.st, u.available, u.memory, names[i])
    case Earlier =>
      && s.st.active.Keys <= u.st.active.Keys
      && forall m :: m in u.st.active ==> m in s.st.active || m in names[..i]
    case Later =>
      && u.st.active.Keys <= t.active.Keys
      && forall m :: m in t.active ==> m in u.st.active || m in names[i + 1..]
  }

  ghost predicate Turn(cfg: Config, s: Scan, names: seq<string>, i: nat, u: Scan, t: State)
    requires i < |names| && Known(cfg, names)
  {
    forall a: About :: TurnPart(a, cfg, s, names, i, u, t)
  }

  ghost predicate Distinct(names: seq<string>) {
    forall i, j :: 0 <= i < j < |names| ==> names[i] != names[j]
  }

  lemma TurnNow(cfg: Config, s: Scan, names: seq<string>, clean: string -> bool, intact: JobResult -> bool)
    returns (u: Scan)
    requires AllDemanding(cfg) && ScanInv(cfg, s) && Known(cfg, names) && Distinct(names) && names != []
    requires names[0] in s.st.pending && Ready(cfg, s.st, names[0]) && s.available != 0
    requires var r := ScanOver(cfg, s, names, clean, intact); !r.Drift? && names[0] in r.scan.st.pending
    ensures Turn(cfg, s, names, 0, u, ScanOver(cfg, s, names, clean, intact).scan.st)
  {
    var n := names[0];
    assert Demanding(cfg, n);
    ConsiderSafe(cfg, s, n, clean, intact);
    var move := Consider(cfg, s, n, clean, intact);
    if move.Next? {
      StartsListed(cfg, move.scan, names[1..], clean, intact);
    }
    assert n in move.scan.st.pending;
    u := move.scan;
    HeldAtTurn(cfg, s, n, clean, intact);
  }

  lemma HeldAtTurn(cfg: Config, s: Scan, n: string, clean: string -> bool, intact: JobResult -> bool)
    requires Aligned(cfg, s.st) && n in cfg.context.jobs && Ready(cfg, s.st, n)
    requires var r := Consider(cfg, s, n, clean, intact); !r.Drift? && n in r.scan.st.pending
    ensures var r := Consider(cfg, s, n, clean, intact);
      && r.Next? && r.scan.st.active == s.st.active
      && Held(cfg, r.scan.st, r.scan.available, r.scan.memory, n)
  {
  }

  lemma TurnShifts(cfg: Config, s: Scan, s1: Scan, names: seq<string>, i: nat, u: Scan, t: State)
    requires 1 <= i < |names| && Known(cfg, names) && Turn(cfg, s1, names[1..], i - 1, u, t)
    requires s.st.active.Keys <= s1.st.active.Keys
    requires forall m :: m in s1.st.active ==> m in s.st.active || m == names[0]
    ensures Turn(cfg, s, names, i, u, t)
  {
    assert names[1..][..i - 1] == names[1..i] && names[1..][i..] == names[i + 1..];
    assert names[..i] == [names[0]] + names[1..i];
    assert TurnPart(Itself, cfg, s1, names[1..], i - 1, u, t) && TurnPart(Earlier, cfg, s1, names[1..], i - 1, u, t);
    assert TurnPart(Later, cfg, s1, names[1..], i - 1, u, t);
  }

  lemma TurnExhausted(cfg: Config, s: Scan, names: seq<string>, i: nat)
    requires ScanInv(cfg, s) && Known(cfg, names) && i < |names| && s.available == 0
    requires AllDemanding(cfg)
    ensures Turn(cfg, s, names, i, s, s.st)
  {
    assert Demanding(cfg, names[i]);
  }

  lemma StopsAdding(cfg: Config, s: Scan, m: string, clean: string -> bool, intact: JobResult -> bool)
    requires Aligned(cfg, s.st) && m in cfg.context.jobs && Consider(cfg, s, m, clean, intact).Stop?
    ensures Consider(cfg, s, m, clean, intact).scan.st.active.Keys == s.st.active.Keys + {m}
  {
  }

  /** An exclusive job that is started ends the scan. */
  lemma TurnEnds(cfg: Config, s: Scan, names: seq<string>, i: nat, clean: string -> bool, intact: JobResult -> bool)
    requires AllDemanding(cfg) && ScanInv(cfg, s) && Known(cfg, names) && 0 < i < |names|
    requires names[0] in s.st.pending && Consider(cfg, s, names[0], clean, intact).Stop?
    ensures var u := Consider(cfg, s, names[0], clean, intact).scan; Turn(cfg, s, names, i, u, u.st)
  {
    var u := Consider(cfg, s, names[0], clean, intact).scan;
    assert Demanding(cfg, names[0]);
    ConsiderSafe(cfg, s, names[0], clean, intact);
    StoppedHolds(cfg, s, names[0], clean, intact, names[i]);
    StopsAdding(cfg, s, names[0], clean, intact);
    assert names[..i][0] == names[0];
    forall a: About
      ensures TurnPart(a, cfg, s, names, i, u, u.st)
    {
    }
  }

  /** A job that is passed leaves the others ready. */
  lemma TurnPasses(cfg: Config, s: Scan, m: string, clean: string -> bool, intact: JobResult -> bool, n: string)
    requires AllDemanding(cfg) && ScanInv(cfg, s) && m in s.st.pending && m in cfg.context.jobs && n in cfg.context.jobs
    requires Consider(cfg, s, m, clean, intact).Next? && m != n && n in s.st.pending && Ready(cfg, s.st, n)
    ensures var s1 := Consider(cfg, s, m, clean, intact).scan;
      && ScanInv(cfg, s1) && n in s1.st.pending && Ready(cfg, s1.st, n) && s.st.active.Keys <= s1.st.active.Keys
      && forall x :: x in s1.st.active ==> x in s.st.active || x == m
  {
    assert Demanding(cfg, m);
    ConsiderSafe(cfg, s, m, clean, intact);
    ConsiderCases(cfg, s, m, clean, intact);
    ReadyStays(cfg, s, m, Consider(cfg, s, m, clean, intact).scan, n);
  }

  datatype Asked = Ordered | Waiting

  /** What a scan of `names` in `s` needs to be asked about `names[i]`. */
  ghost predicate AskedPart(a: Asked, cfg: Config, s: Scan, names: seq<string>, i: nat)
    requires Aligned(cfg, s.st)
  {
    match a
    case Ordered => AllDemanding(cfg) && ScanInv(cfg, s) && Distinct(names)
    case Waiting =>
      i < |names| && names[i] in cfg.context.jobs && names[i] in s.st.pending && Ready(cfg, s.st, names[i])
  }

  ghost predicate Asks(cfg: Config, s: Scan, names: seq<string>, i: nat)
    requires Aligned(cfg, s.st)
  {
    forall a: Asked :: AskedPart(a, cfg, s, names, i)
  }

  lemma AsksNow(cfg: Config, s: Scan, names: seq<string>, i: nat, clean: string -> bool, intact: JobResult -> bool)
    returns (u: Scan)
    requires Aligned(cfg, s.st) && Known(cfg, names) && i < |names| && Asks(cfg, s, names, i)
    requires s.available == 0
          || (names[0] in s.st.pending && (i == 0 || !Consider(cfg, s, names[0], clean, intact).Next?))
    requires var r := ScanOver(cfg, s, names, clean, intact); !r.Drift? && names[i] in r.scan.st.pending
    requires names[0] in s.st.pending
    ensures Turn(cfg, s, names, i, u, ScanOver(cfg, s, names, clean, intact).scan.st)
  {
    assert AskedPart(Ordered, cfg, s, names, i) && AskedPart(Waiting, cfg, s, names, i);
    if s.available == 0 {
      u := s;
      TurnExhausted(cfg, s, names, i);
    } else if i == 0 {
      u := TurnNow(cfg, s, names, clean, intact);
    } else {
      u := Consider(cfg, s, names[0], clean, intact).scan;
      TurnEnds(cfg, s, names, i, clean, intact);
    }
  }

  lemma AsksOn(cfg: Config, s: Scan, names: seq<string>, i: nat, clean: string -> bool, intact: JobResult -> bool,
               s1: Scan)
    requires Aligned(cfg, s.st) && Known(cfg, names) && i < |names| && Asks(cfg, s, names, i)
    requires if names[0] !in s.st.pending then s1 == s
             else i > 0 && Consider(cfg, s, names[0], clean, intact) == Next(s1)
    ensures i > 0 && Aligned(cfg, s1.st) && Known(cfg, names[1..]) && Asks(cfg, s1, names[1..], i - 1)
    ensures s.st.active.Keys <= s1.st.active.Keys
    ensures forall m :: m in s1.st.active ==> m in s.st.active || m == names[0]
  {
    assert AskedPart(Ordered, cfg, s, names, i) && AskedPart(Waiting, cfg, s, names, i);
    assert forall k :: 0 <= k < |names| - 1 ==> names[1..][k] == names[k + 1];
    if names[0] in s.st.pending {
      TurnPasses(cfg, s, names[0], clean, intact, names[i]);
    }
    var rest, k := names[1..], i - 1;
    assert AskedPart(Ordered, cfg, s1, rest, k) && AskedPart(Waiting, cfg, s1, rest, k);
  }

  lemma {:induction false} TurnCame(cfg: Config, s: Scan, names: seq<string>, i: nat, clean: string -> bool,
                                    intact: JobResult -> bool) returns (u: Scan)
    requires Aligned(cfg, s.st) && Known(cfg, names) && i < |names| && Asks(cfg, s, names, i)
    requires var r := ScanOver(cfg, s, names, clean, intact); !r.Drift? && names[i] in r.scan.st.pending
    ensures Turn(cfg, s, names, i, u, ScanOver(cfg, s, names, clean, intact).scan.st)
    decreases |names|
  {
    var m := names[0];
    if m !in s.st.pending {
      AsksOn(cfg, s, names, i, clean, intact, s);
      u := TurnCame(cfg, s, names[1..], i - 1, clean, intact);
      TurnShifts(cfg, s, s, names, i, u, ScanOver(cfg, s, names, clean, intact).scan.st);
    } else if s.available == 0 || i == 0 || !Consider(cfg, s, m, clean, intact).Next? {
      u := AsksNow(cfg, s, names, i, clean, intact);
    } else {
      var s1 := Consider(cfg, s, m, clean, intact).scan;
      AsksOn(cfg, s, names, i, clean, intact, s1);
      u := TurnCame(cfg, s1, names[1..], i - 1, clean, intact);
      TurnShifts(cfg, s, s1, names, i, u, ScanOver(cfg, s, names, clean, intact).scan.st);
    }
  }

  /** The jobs that run in `t` and ran in `st` or are listed in front of `k`. */
  function Ahead(listing: seq<string>, k: nat, st: State, t: State): set<string>
    requires k <= |listing|
  {
    set m | m in t.active && (m in st.active || m in listing[..k])
  }

  lemma AheadIs(cfg: Config, st: State, s: Scan, k: nat, u: Scan, t: State)
    requires Known(cfg, cfg.listing) && Distinct(cfg.listing) && k < |cfg.listing| && s.st == st
    requires Turn(cfg, s, cfg.listing, k, u, t) && st.pending !! st.active.Keys
    ensures Ahead(cfg.listing, k, st, t) == u.st.active.Keys
  {
    assert TurnPart(Earlier, cfg, s, cfg.listing, k, u, t) && TurnPart(Later, cfg, s, cfg.listing, k, u, t);
    forall m | m in Ahead(cfg.listing, k, st, t)
      ensures m in u.st.active
    {
      if m in cfg.listing[..k] {
        assert m !in cfg.listing[k + 1..];
      }
    }
  }

  lemma ListedOnce(cfg: Config)
    requires GoodConfig(cfg)
    ensures Distinct(cfg.listing)
  {
  }

  lemma FreshAsks(cfg: Config, st: State, k: nat)
    requires Usable(cfg) && Distinct(cfg.listing) && Inv(cfg, st)
    requires k < |cfg.listing| && cfg.listing[k] in st.pending && Ready(cfg, st, cfg.listing[k])
    ensures Asks(cfg, FreshScan(cfg, st), cfg.listing, k)
  {
    var s := FreshScan(cfg, st);
    assert AskedPart(Ordered, cfg, s, cfg.listing, k) && AskedPart(Waiting, cfg, s, cfg.listing, k);
  }

  /** A ready job that a scan leaves pending is held by the jobs that ran before the scan and those that stand before
      it in the listing: nothing behind it is started in its place. */
  lemma ScanInTurn(cfg: Config, st: State, tick: Tick, k: nat)
    requires GoodConfig(cfg) && Inv(cfg, st) && !WholeScan(cfg, st, tick).Drift?
    requires k < |cfg.listing| && cfg.listing[k] in st.pending && cfg.listing[k] in cfg.context.jobs
    requires Cleared(cfg, st, cfg.listing[k]) && cfg.listing[k] in WholeScan(cfg, st, tick).scan.st.pending
    ensures HeldBy(cfg, Ahead(cfg.listing, k, st, WholeScan(cfg, st, tick).scan.st), cfg.listing[k])
  {
    GoodConfigUsable(cfg);
    ClearedIsReady(cfg, st, cfg.listing[k]);
    var s, t := FreshScan(cfg, st), WholeScan(cfg, st, tick).scan.st;
    ListedOnce(cfg);
    FreshAsks(cfg, st, k);
    var u := TurnCame(cfg, s, cfg.listing, k, tick.clean, tick.intact);
    assert TurnPart(Itself, cfg, s, cfg.listing, k, u, t);
    HeldByRunning(cfg, u, cfg.listing[k]);
    AheadIs(cfg, st, s, k, u, t);
  }
}

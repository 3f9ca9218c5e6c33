/** What the verdict of a run says, and what it leaves in the ledger (qualification/release/qualify.py, lines
    510-515 and 619-652), told of the state behind the loop and of what is found then. */
module SchedulerVerdict {
  import opened Basics
  import opened Signatures
  import opened Scheduler
  import opened SchedulerSafety
  import opened SchedulerRuns
  import opened SchedulerLedger

  /** A job of the full discovery has lost its result, its log, or the signature that the final product gives it. */
  ghost predicate DiscoveryLost(product: string, w: World, n: string) {
    && n in w.discoverySign(product)
    && (|| n !in w.discovery
        || w.discovery[n].signature != Some(w.discoverySign(product)[n])
        || !w.intact(w.discovery[n]))
  }

  /** What makes the program reject a run behind its loop: a changed checkout, another installed product than the
      recorded one, a changed baseline, or in a final run a discovery that no longer holds. */
  ghost predicate Rejecting(cfg: Config, st: State, w: World) {
    || !w.clean
    || (BUILD in cfg.context.jobs && st.recorded.Some? && st.recorded.value != "" && w.installed != st.recorded.value)
    || !w.baselineSame
    || (cfg.final && exists n :: DiscoveryLost(st.product, w, n))
  }

  lemma DiscoveryHeld(product: string, w: World)
    ensures DiscoveryHolds(product, w) <==> !exists n :: DiscoveryLost(product, w, n)
  {
    if DiscoveryHolds(product, w) {
      forall n
        ensures !DiscoveryLost(product, w, n)
      {
      }
    } else {
      var signatures := w.discoverySign(product);
      var n :| n in signatures &&
        !(n in w.discovery && w.discovery[n].signature == Some(signatures[n]) && w.intact(w.discovery[n]));
      assert DiscoveryLost(product, w, n);
    }
  }

  /** The three verdicts behind the loop of any run: rejected for one of those reasons; green if nothing executed
      has failed and every log is intact; findings otherwise. */
  lemma VerdictIs(cfg: Config, ledger: map<string, JobResult>, recorded: Option<string>, ticks: seq<Tick>, w: World)
    requires GoodConfig(cfg) && Run(cfg, Initial(cfg, ledger, recorded), ticks).LoopDone?
    ensures var st := Run(cfg, Initial(cfg, ledger, recorded), ticks).st;
      var verdict := Conclude(cfg, st, w).0;
      && (verdict.InputsChanged? <==> Rejecting(cfg, st, w))
      && (verdict.Green? <==> !Rejecting(cfg, st, w) && AllSound(cfg, st, w))
  {
    var start := Initial(cfg, ledger, recorded);
    GoodConfigUsable(cfg);
    InitialInv(cfg, ledger, recorded);
    RunExit(cfg, start, ticks);
    RejectedIff(cfg, Run(cfg, start, ticks).st, w);
    if !Conclude(cfg, Run(cfg, start, ticks).st, w).0.InputsChanged? {
      VerdictExact(cfg, Run(cfg, start, ticks).st, w);
    }
  }

  lemma RejectedIff(cfg: Config, st: State, w: World)
    ensures Conclude(cfg, st, w).0.InputsChanged? <==> Rejecting(cfg, st, w)
  {
    DiscoveryHeld(st.product, w);
  }

  // ----- Carried results -----

  lemma ExecutedHasHead(cfg: Config, st: State, n: string)
    requires Inv(cfg, st) && n in st.executed && n in cfg.context.jobs && n !in st.pending && n !in st.active
    ensures n in st.results && st.results[n].head == cfg.head
  {
    assert Holds(Results, cfg, st);
    assert Explained(cfg, st, n);
  }

  /** A green verdict is provisional exactly if some job was not executed in this run and its result in the ledger
      is bound to another HEAD. A final run is never provisional, and an unqualified verdict means that every
      pass is bound to this HEAD. */
  lemma CarriedExactly(cfg: Config, ledger: map<string, JobResult>, recorded: Option<string>, ticks: seq<Tick>,
                       w: World)
    requires GoodConfig(cfg)
    requires var r := Run(cfg, Initial(cfg, ledger, recorded), ticks);
      r.LoopDone? && Conclude(cfg, r.st, w).0.Green?
    ensures var st := Run(cfg, Initial(cfg, ledger, recorded), ticks).st;
      var carried := Conclude(cfg, st, w).0.carried;
      && (carried <==> exists n :: CarriedOver(cfg, ledger, st, n))
      && (cfg.final ==> !carried)
      && (!carried ==> forall n :: n in cfg.context.jobs ==> n in st.results && st.results[n].head == cfg.head)
  {
    var start := Initial(cfg, ledger, recorded);
    var st := Run(cfg, start, ticks).st;
    GoodConfigUsable(cfg);
    InitialInv(cfg, ledger, recorded);
    RunSafe(cfg, start, ticks);
    GreenRun(cfg, ledger, recorded, ticks, w);
    MarkedWithoutPending(cfg, st);
    forall n | n in cfg.context.jobs
      ensures n in st.results && (st.results[n].head != cfg.head <==> CarriedOver(cfg, ledger, st, n))
      ensures cfg.final ==> st.results[n].head == cfg.head
    {
      HeadOf(cfg, ledger, recorded, ticks, n);
      TakenCarries(cfg, st, n);
    }
    CarriedIs(cfg, st, w);
  }

  /** Job `n` was not executed, and its earlier result is bound to another HEAD. */
  ghost predicate CarriedOver(cfg: Config, ledger: map<string, JobResult>, st: State, n: string) {
    n in cfg.context.jobs && n !in st.executed && n in ledger && ledger[n].head != cfg.head
  }

  lemma HeadOf(cfg: Config, ledger: map<string, JobResult>, recorded: Option<string>, ticks: seq<Tick>, n: string)
    requires GoodConfig(cfg) && n in cfg.context.jobs
    requires var st := Run(cfg, Initial(cfg, ledger, recorded), ticks).st;
      Inv(cfg, st) && st.pending == {} && st.active == map[] && n in st.results
    ensures var st := Run(cfg, Initial(cfg, ledger, recorded), ticks).st;
      st.results[n].head != cfg.head <==> CarriedOver(cfg, ledger, st, n)
  {
    var start := Initial(cfg, ledger, recorded);
    RunKeepsResult(cfg, start, ticks, n);
    if n in Run(cfg, start, ticks).st.executed {
      ExecutedHasHead(cfg, Run(cfg, start, ticks).st, n);
    }
  }

  lemma CarriedIs(cfg: Config, st: State, w: World)
    requires Conclude(cfg, st, w).0.Green? && st.pending == {} && forall n :: n in cfg.context.jobs ==> n in st.results
    ensures Conclude(cfg, st, w).0.carried <==> exists n :: n in cfg.context.jobs && st.results[n].head != cfg.head
  {
    MarkedWithoutPending(cfg, st);
  }

  // ----- The ledger behind the verdict -----

  /** What the program leaves of job `n`: a job left over is blocked unless an older pass stands; after a rejection
      a job executed in this run has failed; everything else stays as it was. */
  ghost predicate LeftOf(cfg: Config, st: State, rejected: bool, results: map<string, JobResult>, n: string) {
    if n in st.pending && !(n in st.results && st.results[n].status == Pass) then
      && n in results
      && results[n] == JobResult(if rejected && n in st.executed then Fail else Blocked, cfg.head, None, None, 0)
    else if n in st.results then
      && n in results
      && (if rejected && n in st.executed then
            results[n].status == Fail && results[n].(status := st.results[n].status) == st.results[n]
          else results[n] == st.results[n])
    else n !in results
  }

  lemma LedgerIs(cfg: Config, st: State, w: World, n: string)
    ensures LeftOf(cfg, st, Rejecting(cfg, st, w), Conclude(cfg, st, w).1, n)
  {
    RejectedIff(cfg, st, w);
    DiscoveryHeld(st.product, w);
  }
}

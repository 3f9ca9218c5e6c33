/** Where the results in a state file of qualification/release/qualify.py come from, over all sequences of
    invocations, and what a green verdict says of them. */
module InvocationLedger {
  import opened Basics
  import opened PulseBinding
  import opened Invocations
  import opened InvocationTraces
  import G = Signatures
  import S = Scheduler
  import R = SchedulerRuns
  import L = SchedulerLedger

  /** The run of the jobs from a state file. */
  function RunOf(s: State, i: Invocation): L.Origin {
    L.Origin(i.cfg, LedgerOf(s, i.cfg.final), s.product, i.ticks)
  }

  /** The state file that an invocation starts from. */
  function StartOf(file: Option<State>, i: Invocation): State {
    GetOr(file, Created(i.completion))
  }

  /** The invocation was accepted and ran the jobs. */
  ghost predicate Ran(at: Layout, w: World, file: Option<State>, i: Invocation) {
    Proper(i) && i.action == Work && Invoke(at, w, file, i).Ok?
  }

  // ----- One invocation -----

  /** A pass behind a run stood there before the verdict: neither a rejection nor the marking makes one. */
  lemma OutcomePass(cfg: S.Config, phase: S.Phase, w: R.World, n: string)
    requires var results := R.Outcome(cfg, phase, w).1; n in results && results[n].status == S.Pass
    ensures n in phase.st.results && R.Outcome(cfg, phase, w).1[n] == phase.st.results[n]
  {
  }

  /** It was produced by the run, or stood in the ledger that the run started from. */
  lemma VerdictSource(s: State, i: Invocation, n: string)
    requires Proper(i) && n in Verdict(s, i).1 && Verdict(s, i).1[n].status == S.Pass
    ensures
      || L.Produced(RunOf(s, i), n, Verdict(s, i).1[n])
      || (n in LedgerOf(s, i.cfg.final) && LedgerOf(s, i.cfg.final)[n] == Verdict(s, i).1[n])
  {
    OutcomePass(i.cfg, End(s, i), Behind(s, i), n);
    L.RunKeepsResult(i.cfg, S.Initial(i.cfg, LedgerOf(s, i.cfg.final), s.product), i.ticks, n);
  }

  lemma AfterJobsSource(s: State, i: Invocation, final: bool, n: string)
    requires Proper(i)
    requires var ledger := LedgerOf(AfterJobs(s, i), final); n in ledger && ledger[n].status == S.Pass
    ensures var r := LedgerOf(AfterJobs(s, i), final)[n];
      || (i.cfg.final == final && L.Produced(RunOf(s, i), n, r))
      || (n in LedgerOf(s, final) && LedgerOf(s, final)[n] == r)
  {
    if i.cfg.final == final {
      VerdictSource(s, i, n);
    }
  }

  lemma RanIs(at: Layout, w: World, file: Option<State>, i: Invocation)
    requires Ran(at, w, file, i) && (file.Some? ==> Sound(file.value))
    ensures var b := Bind(at, w, StartOf(file, i), i.completion, Product(i));
      && b.Ok? && SameRest(StartOf(file, i), b.state) && Invoke(at, w, file, i) == Ok(AfterJobs(b.state, i))
  {
    if file.Some? {
      InvokeIs(at, w, file.value, i);
      BindKeeps(at, w, file.value, i.completion, Product(i));
    } else {
      InvokeNone(at, w, i);
      CreatedBinds(at, w, i.completion, Product(i));
      CreatedRuns(at, w, i);
    }
  }

  /** A pass in the file that an invocation leaves: it was there, or the jobs of this invocation produced it. */
  lemma StepSource(at: Layout, w: World, file: Option<State>, i: Invocation, f: Option<State>, final: bool, n: string)
    requires Step(at, w, file, i, f) && f.Some? && (file.Some? ==> Sound(file.value))
    requires n in LedgerOf(f.value, final) && LedgerOf(f.value, final)[n].status == S.Pass
    ensures var r := LedgerOf(f.value, final)[n];
      || (file.Some? && n in LedgerOf(file.value, final) && LedgerOf(file.value, final)[n] == r)
      || (Ran(at, w, file, i) && i.cfg.final == final && L.Produced(RunOf(StartOf(file, i), i), n, r))
  {
    StepIs(at, w, file, i, f);
    if Ran(at, w, file, i) {
      RanIs(at, w, file, i);
      var b := Bind(at, w, StartOf(file, i), i.completion, Product(i)).state;
      AfterJobsSource(b, i, final, n);
    } else if file.Some? {
      StillThere(at, w, file.value, i, f.value);
    } else {
      InvokeNone(at, w, i);
    }
  }

  lemma StillThere(at: Layout, w: World, s: State, i: Invocation, f: State)
    requires Step(at, w, Some(s), i, Some(f)) && !Ran(at, w, Some(s), i)
    ensures f == s
  {
    StepIs(at, w, Some(s), i, Some(f));
    if Invoke(at, w, Some(s), i).Ok? {
      InvokeIs(at, w, s, i);
    }
  }

  // ----- All sequences of invocations -----

  /** Invocation `j` of the phase ran, and its run produced the result `r` of job `n`. */
  ghost predicate Source(at: Layout, worlds: seq<World>, invocations: seq<Invocation>, files: seq<Option<State>>,
                         j: nat, final: bool, n: string, r: S.JobResult)
    requires j < |invocations| == |worlds| && |files| == |invocations| + 1
  {
    && Ran(at, worlds[j], files[j], invocations[j]) && invocations[j].cfg.final == final
    && L.Produced(RunOf(StartOf(files[j], invocations[j]), invocations[j]), n, r)
  }

  /** Every pass in every state file was produced by the run of an earlier invocation of the same phase. */
  lemma {:induction false} PassHasSource(at: Layout, worlds: seq<World>, invocations: seq<Invocation>,
                                         files: seq<Option<State>>, k: nat, final: bool, n: string) returns (j: nat)
    requires Trace(at, worlds, invocations, files) && k < |files| && files[k].Some?
    requires n in LedgerOf(files[k].value, final) && LedgerOf(files[k].value, final)[n].status == S.Pass
    ensures j < k && Source(at, worlds, invocations, files, j, final, n, LedgerOf(files[k].value, final)[n])
    decreases k
  {
    j := k - 1;
    TraceSound(at, worlds, invocations, files, j);
    StepSource(at, worlds[j], files[j], invocations[j], files[k], final, n);
    if files[j].Some? && n in LedgerOf(files[j].value, final)
       && LedgerOf(files[j].value, final)[n] == LedgerOf(files[k].value, final)[n]
    {
      j := PassHasSource(at, worlds, invocations, files, j, final, n);
    }
  }

  /** The run of invocation `k` of a trace, and its verdict. */
  ghost predicate Green(at: Layout, w: World, file: Option<State>, i: Invocation) {
    && Ran(at, w, file, i) && End(StartOf(file, i), i).LoopDone?
    && Verdict(StartOf(file, i), i).0.Some? && Verdict(StartOf(file, i), i).0.value.Green?
  }

  /** Over every sequence of invocations from an empty run directory: after a green verdict each job has passed
      on the inputs it has now. It was executed by this invocation, or an earlier one of the same phase executed
      it, and unless two of the hashed records collide its inputs agree with the current ones. */
  lemma GreenAgrees(at: Layout, worlds: seq<World>, invocations: seq<Invocation>, files: seq<Option<State>>,
                    k: nat, n: string) returns (j: nat)
    requires Trace(at, worlds, invocations, files) && k < |invocations|
    requires Green(at, worlds[k], files[k], invocations[k]) && n in invocations[k].cfg.context.jobs
    ensures j <= k
    ensures var r := L.EndOf(RunOf(StartOf(files[k], invocations[k]), invocations[k])).results;
      && n in r && r[n].status == S.Pass
      && Source(at, worlds, invocations, files, j, invocations[k].cfg.final, n, r[n])
    ensures var now := RunOf(StartOf(files[k], invocations[k]), invocations[k]);
      var then' := RunOf(StartOf(files[j], invocations[j]), invocations[j]);
      j < k && L.CanCompare(now, then') ==> G.Agree(L.ContextOf(now), L.ContextOf(then'), n)
  {
    var s, i := StartOf(files[k], invocations[k]), invocations[k];
    var now, w := RunOf(s, i), Behind(s, i);
    L.GreenMeansAgreement(now, w, now, n);
    if n in L.EndOf(now).executed {
      j := k;
    } else {
      assert files[k].Some?;
      j := PassHasSource(at, worlds, invocations, files, k, i.cfg.final, n);
      L.GreenMeansAgreement(now, w, RunOf(StartOf(files[j], invocations[j]), invocations[j]), n);
    }
  }
}

/** Invocations of qualification/release/qualify.py on one run directory (lines 345-652): the arguments, the
    binding of a completion, the check before the loop, the run of the jobs and the state file it leaves, over
    all sequences of invocations. */
module Invocations {
  import opened Basics
  import opened PulseBinding
  import G = Signatures
  import S = Scheduler
  import R = SchedulerRuns
  import L = SchedulerLedger
  import P = SchedulerPlans

  datatype Action = Init | Status | Work

  /** One invocation: its matrix, budgets and installed product are `cfg`; `ticks` is what the loop meets and
      `after` what is found behind it. */
  datatype Invocation = Invocation(
    action: Action, completion: Completion, cfg: S.Config, ticks: seq<S.Tick>, after: R.World)

  predicate IsDigest(s: string) {
    |s| == 64 && forall k :: 0 <= k < |s| ==> '0' <= s[k] <= '9' || 'a' <= s[k] <= 'f'
  }

  /** The checks of the completion arguments. */
  predicate WellFormed(c: Completion) {
    c.From? ==> c.path != "" && IsDigest(c.sha) && IsDigest(c.logs)
  }

  predicate Present(s: string) {
    s != ""
  }

  /** Every build that passes has installed something. */
  ghost predicate Installing(ticks: seq<S.Tick>) {
    forall k :: 0 <= k < |ticks| ==> L.Installs(ticks[k].done, Present)
  }

  /** The configuration is a loaded one, and without a job `build` no product is looked for. */
  ghost predicate Proper(i: Invocation) {
    S.GoodConfig(i.cfg) && (G.BUILD !in i.cfg.context.jobs ==> i.cfg.context.product == "") && Installing(i.ticks)
  }

  /** The identity of the installed product, "" without one. */
  function Product(i: Invocation): string {
    i.cfg.context.product
  }

  function Created(c: Completion): State {
    State(c, None, [], map[], map[], None, false)
  }

  /** The results that a run of the phase starts from. */
  function LedgerOf(s: State, final: bool): map<string, S.JobResult> {
    if final then s.finalResults else s.results
  }

  /** How the loop of the jobs ends. */
  ghost function End(s: State, i: Invocation): S.Phase
    requires Proper(i)
  {
    R.Run(i.cfg, S.Initial(i.cfg, LedgerOf(s, i.cfg.final), s.product), i.ticks)
  }

  /** What is found behind it; the full discovery is that of the state file. */
  function Behind(s: State, i: Invocation): R.World {
    i.after.(discovery := S.KeptLedger(i.cfg, s.results, s.product))
  }

  /** The verdict, and the results of the phase. */
  ghost function Verdict(s: State, i: Invocation): (Option<R.Verdict>, map<string, S.JobResult>)
    requires Proper(i)
  {
    R.Outcome(i.cfg, End(s, i), Behind(s, i))
  }

  /** The file that the run of the jobs leaves. */
  ghost function AfterJobs(s: State, i: Invocation): State
    requires Proper(i)
  {
    s.(results := if i.cfg.final then S.KeptLedger(i.cfg, s.results, s.product) else Verdict(s, i).1,
       finalResults := if i.cfg.final then Verdict(s, i).1 else S.KeptLedger(i.cfg, s.finalResults, s.product),
       product := End(s, i).st.recorded,
       final := s.final || i.cfg.final)
  }

  /** The check before the loop: with an origin, a discovery invocation goes on only if the `build` result
      meets every condition of reuse now. */
  predicate CanRely(w: World, s: State, i: Invocation) {
    && G.BUILD in s.results && Intact(w, s.results[G.BUILD])
    && L.Trusted(i.cfg, i.cfg.sign(Product(i)), s.results[G.BUILD])
  }

  /** What becomes of the file `s` once the binding has made `b` of it. */
  ghost function Bound(w: World, s: State, b: Result, i: Invocation): Result
    requires Proper(i)
  {
    if b.Refused? then b
    else if b.state.origin.Some? && G.BUILD in i.cfg.context.jobs && !i.cfg.final && !CanRely(w, b.state, i) then
      Refused(CannotRebuild)
    else if i.action == Status then Ok(s)
    else Ok(AfterJobs(b.state, i))
  }

  /** One invocation: the state file it leaves, or its refusal, which leaves the file as it was. */
  ghost function Invoke(at: Layout, w: World, file: Option<State>, i: Invocation): Result
    requires Proper(i)
  {
    if !WellFormed(i.completion) then Refused(BadArguments)
    else if i.action == Init then
      if file.Some? then Refused(Exists) else Ok(Created(i.completion))
    else if file.None? && i.action == Status then Refused(NoState)
    else
      var s := GetOr(file, Created(i.completion));
      Bound(w, s, Bind(at, w, s, i.completion, Product(i)), i)
  }

  // ----- What every invocation keeps -----

  /** What an accepted step keeps of the state it found. */
  ghost predicate Kept(at: Layout, w: World, s: State, s': State) {
    && Sound(s') && Extends(at, w, s, s')
    && (s.origin.Some? ==> s'.origin.Some?)
    && (Named(at, s) ==> Named(at, s'))
    && (Adrift(s) ==> Adrift(s') && s'.completion == s.completion)
  }

  lemma BindKept(at: Layout, w: World, s: State, c: Completion, product: string)
    requires Sound(s) && Bind(at, w, s, c, product).Ok?
    ensures Kept(at, w, s, Bind(at, w, s, c, product).state)
  {
    BindKeeps(at, w, s, c, product);
  }

  lemma EndMeets(s: State, i: Invocation)
    requires Proper(i) && L.Meets(s.product, Present)
    ensures L.Meets(End(s, i).st.recorded, Present)
  {
    L.RunKeepsRecorded(i.cfg, S.Initial(i.cfg, LedgerOf(s, i.cfg.final), s.product), i.ticks, Present);
  }

  lemma AfterJobsSound(s: State, i: Invocation)
    requires Proper(i) && Sound(s)
    ensures var s' := AfterJobs(s, i);
      Sound(s') && s'.origin == s.origin && s'.history == s.history && s'.completion == s.completion
  {
    assert Origins(AfterJobs(s, i)) == Origins(s);
    if s.origin.Some? {
      EndMeets(s, i);
    }
  }

  lemma SameOriginsKept(at: Layout, w: World, s: State, b: State, s': State)
    requires Kept(at, w, s, b) && Sound(s')
    requires s'.origin == b.origin && s'.history == b.history && s'.completion == b.completion
    ensures Kept(at, w, s, s')
  {
    assert Origins(s') == Origins(b);
  }

  lemma InvokeBinds(at: Layout, w: World, file: Option<State>, i: Invocation, b: Result)
    requires Proper(i) && WellFormed(i.completion) && i.action != Init && (file.None? ==> i.action == Work)
    requires b == Bind(at, w, GetOr(file, Created(i.completion)), i.completion, Product(i))
    ensures Invoke(at, w, file, i) == Bound(w, GetOr(file, Created(i.completion)), b, i)
  {
  }

  lemma BoundRuns(w: World, s: State, b: State, i: Invocation)
    requires Proper(i) && i.action == Work
    requires b.origin.Some? && G.BUILD in i.cfg.context.jobs && !i.cfg.final ==> CanRely(w, b, i)
    ensures Bound(w, s, Ok(b), i) == Ok(AfterJobs(b, i))
  {
  }

  /** The state behind the binding. */
  function Bindings(at: Layout, w: World, s: State, i: Invocation): Result {
    Bind(at, w, s, i.completion, Product(i))
  }

  /** An invocation that finds a state file: status leaves it, and the run of the jobs follows the binding. */
  lemma InvokeIs(at: Layout, w: World, s: State, i: Invocation)
    requires Proper(i) && Invoke(at, w, Some(s), i).Ok?
    ensures var b := Bindings(at, w, s, i);
      && b.Ok? && i.action != Init && WellFormed(i.completion)
      && Invoke(at, w, Some(s), i).state == (if i.action == Status then s else AfterJobs(b.state, i))
      && (b.state.origin.Some? && G.BUILD in i.cfg.context.jobs && !i.cfg.final ==> CanRely(w, b.state, i))
  {
  }

  /** What an accepted invocation keeps; with an origin, the product installed is the recorded one. */
  lemma InvokeKeeps(at: Layout, w: World, s: State, i: Invocation)
    requires Proper(i) && Sound(s) && Invoke(at, w, Some(s), i).Ok?
    ensures Kept(at, w, s, Invoke(at, w, Some(s), i).state)
    ensures s.origin.Some? ==> Some(Product(i)) == s.product
  {
    InvokeIs(at, w, s, i);
    var b := Bindings(at, w, s, i).state;
    BindKept(at, w, s, i.completion, Product(i));
    BindKeeps(at, w, s, i.completion, Product(i));
    AfterJobsSound(b, i);
    if i.action != Status {
      SameOriginsKept(at, w, s, b, AfterJobs(b, i));
    }
  }

  // ----- The product of an origin -----

  /** While a discovery run lasts the log of the `build` result stays intact, and in a final run `build`
      passes only if the installed product is the one found at the start. */
  ghost predicate Undisturbed(s: State, i: Invocation) {
    forall k :: 0 <= k < |i.ticks| ==>
      if i.cfg.final then L.Installs(i.ticks[k].done, P.Same(Product(i)))
      else G.BUILD in s.results ==> i.ticks[k].intact(s.results[G.BUILD])
  }

  /** With an origin, a run of the jobs that got past the check does not change the product. */
  lemma JobsKeepProduct(w: World, s: State, i: Invocation)
    requires Proper(i) && Undisturbed(s, i) && s.product == Some(Product(i))
    requires !i.cfg.final ==> CanRely(w, s, i)
    ensures AfterJobs(s, i).product == s.product
  {
    var st := S.Initial(i.cfg, LedgerOf(s, i.cfg.final), s.product);
    if i.cfg.final {
      L.RunKeepsRecorded(i.cfg, st, i.ticks, P.Same(Product(i)));
    } else {
      L.RunKeepsBuild(i.cfg, st, i.ticks, s.results[G.BUILD]);
    }
  }

  /** Once there is an origin, an accepted and undisturbed invocation has the recorded product installed and
      leaves its identity as it was: the jobs never build it again. */
  lemma ProductStays(at: Layout, w: World, s: State, i: Invocation)
    requires Proper(i) && Undisturbed(s, i) && Sound(s) && Invoke(at, w, Some(s), i).Ok?
    ensures var s' := Invoke(at, w, Some(s), i).state; s'.origin.Some? ==> s'.product == s.product
  {
    InvokeIs(at, w, s, i);
    BindKeeps(at, w, s, i.completion, Product(i));
    var b := Bindings(at, w, s, i).state;
    if b.origin.Some? && i.action == Work {
      JobsKeepProduct(w, b, i);
    }
  }

  // ----- The condition is exact -----

  /** The same invocation, whose loop meets other ticks. */
  function Meeting(i: Invocation, ticks: seq<S.Tick>): Invocation {
    i.(ticks := ticks)
  }

  /** Ticks that a run may meet, all of which find the log of `r` intact, or all of which find it damaged. */
  ghost predicate MayMeet(ticks: seq<S.Tick>, r: S.JobResult, intact: bool) {
    Installing(ticks) && P.Throughout(ticks, r, intact)
  }

  lemma RelyStands(w: World, s: State, i: Invocation)
    requires Proper(i) && s.product == Some(Product(i)) && G.BUILD in i.cfg.context.jobs && CanRely(w, s, i)
    requires !i.cfg.final
    ensures var st := S.Initial(i.cfg, s.results, s.product);
      && L.BuildStands(i.cfg, st, s.results[G.BUILD]) && L.Trusted(i.cfg, st.signatures, s.results[G.BUILD])
      && G.BUILD in st.pending && st.executed == {}
  {
  }

  /** When the log that was intact before the loop is damaged from the first scan on, `build` can be built again
      in every matrix, and whatever it installs is recorded. */
  lemma DisturbedRebuilds(w: World, s: State, i: Invocation, installed: string) returns (ticks: seq<S.Tick>)
    requires Proper(i) && !i.cfg.final && s.product == Some(Product(i)) && G.BUILD in i.cfg.context.jobs
    requires CanRely(w, s, i) && installed != ""
    ensures MayMeet(ticks, s.results[G.BUILD], false) && Proper(Meeting(i, ticks))
    ensures AfterJobs(s, Meeting(i, ticks)).product == Some(installed)
  {
    var st := S.Initial(i.cfg, s.results, s.product);
    RelyStands(w, s, i);
    P.ProgramInv(i.cfg, s.results, s.product);
    ticks := P.DamagedRebuilds(i.cfg, st, s.results[G.BUILD], installed);
    forall k | 0 <= k < |ticks|
      ensures L.Installs(ticks[k].done, Present)
    {
      assert L.Installs(ticks[k].done, P.Same(installed));
    }
  }

  /** The invocation is accepted and leaves the product. */
  ghost predicate Leaves(at: Layout, w: World, s: State, i: Invocation, product: Option<string>) {
    Proper(i) && Invoke(at, w, Some(s), i).Ok? && Invoke(at, w, Some(s), i).state.product == product
  }

  /** What is accepted does not depend on what the loop will meet. */
  lemma MeetingIs(at: Layout, w: World, s: State, i: Invocation, ticks: seq<S.Tick>)
    requires Proper(i) && Proper(Meeting(i, ticks)) && i.action == Work && Invoke(at, w, Some(s), i).Ok?
    ensures Bindings(at, w, s, i).Ok?
    ensures Invoke(at, w, Some(s), Meeting(i, ticks)) == Ok(AfterJobs(Bindings(at, w, s, i).state, Meeting(i, ticks)))
  {
    InvokeIs(at, w, s, i);
    var j, b := Meeting(i, ticks), Bindings(at, w, s, i).state;
    MeetingRelies(w, b, i, ticks);
    InvokeBinds(at, w, Some(s), j, Ok(b));
    BoundRuns(w, s, b, j);
  }

  lemma MeetingRelies(w: World, s: State, i: Invocation, ticks: seq<S.Tick>)
    ensures CanRely(w, s, Meeting(i, ticks)) <==> CanRely(w, s, i)
  {
  }

  /** With an origin behind the binding, the `build` result is relied on. */
  lemma OriginRelies(at: Layout, w: World, s: State, i: Invocation)
    requires Proper(i) && !i.cfg.final && Sound(s) && i.action == Work && Invoke(at, w, Some(s), i).Ok?
    requires Invoke(at, w, Some(s), i).state.origin.Some?
    ensures var b := Bindings(at, w, s, i);
      && b.Ok? && b.state.results == s.results && b.state.product == s.product == Some(Product(i))
      && G.BUILD in i.cfg.context.jobs && CanRely(w, b.state, i)
  {
    InvokeIs(at, w, s, i);
    BindKeeps(at, w, s, i.completion, Product(i));
  }

  /** Of the runs that one accepted discovery invocation with an origin may have, none changes the product if and
      only if the log of the `build` result stays intact: this holds in every matrix. */
  lemma ProductSafeIff(at: Layout, w: World, s: State, i: Invocation, intact: bool)
    requires Proper(i) && !i.cfg.final && Sound(s) && i.action == Work && Invoke(at, w, Some(s), i).Ok?
    requires Invoke(at, w, Some(s), i).state.origin.Some?
    ensures G.BUILD in s.results
    ensures (forall ticks :: MayMeet(ticks, s.results[G.BUILD], intact) ==>
               Leaves(at, w, s, Meeting(i, ticks), s.product))
       <==> intact
  {
    OriginRelies(at, w, s, i);
    var b, r := Bindings(at, w, s, i).state, s.results[G.BUILD];
    if intact {
      forall ticks | MayMeet(ticks, r, intact)
        ensures Leaves(at, w, s, Meeting(i, ticks), s.product)
      {
        MeetingIs(at, w, s, i, ticks);
        JobsKeepProduct(w, b, Meeting(i, ticks));
      }
    } else {
      var other := if s.product == Some("a") then "b" else "a";
      var ticks := DisturbedRebuilds(w, b, i, other);
      MeetingIs(at, w, s, i, ticks);
      assert MayMeet(ticks, r, intact) && !Leaves(at, w, s, Meeting(i, ticks), s.product);
    }
  }

  // ----- What an invocation accepts -----

  /** The `build` result stands: it has passed, need not be repeated, has the current signature, an intact log, and if
      the job asks for it the current HEAD. */
  ghost predicate BuildRelied(w: World, s: State, i: Invocation)
    requires Proper(i) && G.BUILD in i.cfg.context.jobs
  {
    && G.BUILD in s.results &&
    var r := s.results[G.BUILD];
    && r.status == S.Pass && !i.cfg.context.jobs[G.BUILD].alwaysRun
    && r.signature == Some(G.Signature(i.cfg.context, G.BUILD))
    && r.log.Some? && w.intact(r)
    && (i.cfg.context.jobs[G.BUILD].headBound ==> r.head == i.cfg.head)
  }

  lemma SignsBuild(i: Invocation)
    requires Proper(i) && G.BUILD in i.cfg.context.jobs
    ensures G.BUILD in i.cfg.sign(Product(i))
    ensures i.cfg.sign(Product(i))[G.BUILD] == G.Signature(i.cfg.context, G.BUILD)
  {
    assert S.SignsRight(i.cfg, Product(i));
    assert G.WithProduct(i.cfg.context, Product(i)) == i.cfg.context;
  }

  lemma RelyIff(w: World, s: State, i: Invocation)
    requires Proper(i) && G.BUILD in i.cfg.context.jobs && !i.cfg.final
    ensures CanRely(w, s, i) <==> BuildRelied(w, s, i)
  {
    SignsBuild(i);
  }

  lemma BoundIff(w: World, s: State, b: Result, i: Invocation)
    requires Proper(i)
    ensures Bound(w, s, b, i).Ok? <==>
      b.Ok? && (b.state.origin.Some? && G.BUILD in i.cfg.context.jobs && !i.cfg.final ==> BuildRelied(w, b.state, i))
  {
    if b.Ok? && G.BUILD in i.cfg.context.jobs && !i.cfg.final {
      RelyIff(w, b.state, i);
    }
  }

  predicate SixtyFourHexDigits(s: string) {
    |s| == 64 && forall k :: 0 <= k < 64 ==> s[k] in "0123456789abcdef"
  }

  /** The completion arguments: none, or a path and two digests. */
  predicate ArgumentsStand(c: Completion) {
    c == Nothing || (|c.path| > 0 && SixtyFourHexDigits(c.sha) && SixtyFourHexDigits(c.logs))
  }

  lemma HexIff(s: string)
    ensures IsDigest(s) <==> SixtyFourHexDigits(s)
  {
    forall c: char
      ensures c in "0123456789abcdef" <==> '0' <= c <= '9' || 'a' <= c <= 'f'
    {
    }
  }

  lemma ArgumentsIff(c: Completion)
    ensures WellFormed(c) <==> ArgumentsStand(c)
  {
    if c.From? {
      HexIff(c.sha);
      HexIff(c.logs);
    }
  }

  /** An invocation that finds a file is accepted exactly if it does not make one, its completion arguments stand, the
      binding accepts them, and a discovery run with an origin and a job `build` can rely on its result. */
  lemma InvokeIff(at: Layout, w: World, s: State, i: Invocation)
    requires Proper(i)
    ensures Invoke(at, w, Some(s), i).Ok? <==>
      && i.action != Init && ArgumentsStand(i.completion)
      && Bindings(at, w, s, i).Ok?
      && (Bindings(at, w, s, i).state.origin.Some? && G.BUILD in i.cfg.context.jobs && !i.cfg.final ==>
            BuildRelied(w, Bindings(at, w, s, i).state, i))
  {
    ArgumentsIff(i.completion);
    BoundIff(w, s, Bindings(at, w, s, i), i);
  }

  lemma CreatedAccepted(at: Layout, w: World, i: Invocation)
    requires Proper(i)
    ensures var s := Created(i.completion); Bound(w, s, Bindings(at, w, s, i), i).Ok?
  {
    var s := Created(i.completion);
    BindIff(at, w, s, i.completion, Product(i));
    BoundIff(w, s, Bindings(at, w, s, i), i);
  }

  /** One that finds none is accepted exactly if it asks for more than the status and its arguments stand. */
  lemma InvokeFirst(at: Layout, w: World, i: Invocation)
    requires Proper(i)
    ensures Invoke(at, w, None, i).Ok? <==> i.action != Status && ArgumentsStand(i.completion)
  {
    ArgumentsIff(i.completion);
    CreatedAccepted(at, w, i);
  }
}

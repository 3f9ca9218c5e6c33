/** `bind_pulse_completion` of qualification/release/qualify.py (lines 260-303): which failed Pulse attempt a run
    may complete, and with which product. */
module PulseBinding {
  import opened Basics
  import opened Scheduler

  const PULSE := "pulse_report"

  /** The completion arguments, given all or none. */
  datatype Completion = Nothing | From(path: string, sha: string, logs: string)

  /** The state file: the completion and the failed attempts it started from, the results of both phases, the
      recorded product, and whether a final run has begun. */
  datatype State = State(
    completion: Completion, origin: Option<JobResult>, history: seq<JobResult>,
    results: map<string, JobResult>, finalResults: map<string, JobResult>, product: Option<string>, final: bool)

  /** The first line of a log. */
  datatype Line = Command(args: seq<string>) | NoCommand

  /** What an invocation finds before the loop: whether the log of a result is as it was recorded, and the first
      line of a log. */
  datatype World = World(intact: JobResult -> bool, line: string -> Line)

  /** Where the output of an attempt lies in the run directory. */
  type Layout = nat -> string

  datatype Refusal =
    | OtherProduct | OriginChanged | NotFresh | CompletionChanged | NoFailure | OtherAttempt | NoCommandLine | NotNewer
    | CannotRebuild | NoState | Exists | BadArguments

  datatype Result = Ok(state: State) | Refused(refusal: Refusal)

  /** `evidence_intact`: a result without a log has no evidence. */
  predicate Intact(w: World, r: JobResult) {
    r.log.Some? && w.intact(r)
  }

  /** An intact failed attempt. */
  predicate Failed(w: World, r: JobResult) {
    r.status == Fail && Intact(w, r)
  }

  function FirstLine(w: World, r: JobResult): Line {
    w.line(GetOr(r.log, ""))
  }

  /** The result of the job `pulse_report` in the discovery phase. */
  function Pulse(s: State): Option<JobResult> {
    if PULSE in s.results then Some(s.results[PULSE]) else None
  }

  /** All recorded origins, the current one last. */
  function Origins(s: State): seq<JobResult> {
    s.history + (if s.origin.Some? then [s.origin.value] else [])
  }

  /** The failed attempt `r` becomes the origin. */
  function Adopt(s: State, c: Completion, r: JobResult): State {
    s.(history := Origins(s), origin := Some(r), completion := c)
  }

  /** `bind_pulse_completion`. */
  function Bind(at: Layout, w: World, s: State, c: Completion, product: string): Result {
    if s.origin.Some? && Some(product) != s.product then Refused(OtherProduct)
    else if exists r :: r in Origins(s) && !Intact(w, r) then Refused(OriginChanged)
    else if c == s.completion then Ok(s)
    else if s.completion != Nothing && c == Nothing && !s.final then
      if s.origin.None? || Pulse(s).None? || Pulse(s).value.attempt <= s.origin.value.attempt
         || !Failed(w, Pulse(s).value) then Refused(NotFresh)
      else Ok(s.(completion := Nothing))
    else if s.completion != Nothing || c == Nothing || s.final then Refused(CompletionChanged)
    else if Pulse(s).None? || !Failed(w, Pulse(s).value) then Refused(NoFailure)
    else BindTo(at, w, s, c, product, Pulse(s).value)
  }

  /** The completion of the intact failed attempt `r`. */
  function BindTo(at: Layout, w: World, s: State, c: Completion, product: string, r: JobResult): Result {
    if c.From? && c.path != at(r.attempt) then Refused(OtherAttempt)
    else if product == "" || Some(product) != s.product then Refused(OtherProduct)
    else if s.origin.Some? && FirstLine(w, r).NoCommand? then Refused(NoCommandLine)
    else if s.origin.Some? && (r.attempt <= s.origin.value.attempt || FirstLine(w, r).args == []
                               || "--complete-from" in FirstLine(w, r).args) then Refused(NotNewer)
    else Ok(Adopt(s, c, r))
  }

  /** The state dictionary that the function changes in place. */
  class Run {
    var state: State

    constructor (s: State)
      ensures state == s
    {
      state := s;
    }

    /** A refusal leaves the state as it was. */
    method BindPulseCompletion(at: Layout, w: World, c: Completion, product: string) returns (refusal: Option<Refusal>)
      modifies this
      ensures var r := Bind(at, w, old(state), c, product);
        && refusal == (if r.Ok? then None else Some(r.refusal))
        && state == if r.Ok? then r.state else old(state)
    {
      if state.origin.Some? && Some(product) != state.product {
        return Some(OtherProduct);
      }
      var origins := state.history + (if state.origin.Some? then [state.origin.value] else []);
      if exists r :: r in origins && !Intact(w, r) {
        return Some(OriginChanged);
      }
      var previous := state.completion;
      if c == previous {
        return None;
      }
      if previous != Nothing && c == Nothing && !state.final {
        var failed := Pulse(state);
        if state.origin.None? || failed.None? || failed.value.attempt <= state.origin.value.attempt
           || !Failed(w, failed.value) {
          return Some(NotFresh);
        }
        state := state.(completion := Nothing);
        return None;
      }
      if previous != Nothing || c == Nothing || state.final {
        return Some(CompletionChanged);
      }
      if PULSE !in state.results || !Failed(w, state.results[PULSE]) {
        return Some(NoFailure);
      }
      var source := state.results[PULSE];
      if c.path != at(source.attempt) {
        return Some(OtherAttempt);
      }
      if product == "" || Some(product) != state.product {
        return Some(OtherProduct);
      }
      if state.origin.Some? {
        var origin := state.origin.value;
        if FirstLine(w, source).NoCommand? {
          return Some(NoCommandLine);
        }
        var command := FirstLine(w, source).args;
        if source.attempt <= origin.attempt || command == [] || "--complete-from" in command {
          return Some(NotNewer);
        }
        state := state.(history := state.history + [origin]);
      }
      state := state.(origin := Some(source), completion := c);
      return None;
    }
  }

  // ----- What binding keeps -----

  ghost predicate Increasing(r: seq<JobResult>) {
    forall i, j :: 0 <= i < j < |r| ==> r[i].attempt < r[j].attempt
  }

  /** Origins are in order of their attempts, and there is a product for them. */
  ghost predicate Sound(s: State) {
    && Increasing(Origins(s)) && (s.origin.None? ==> s.history == [])
    && (s.origin.Some? ==> s.product.Some? && s.product.value != "")
  }

  /** An active completion names the recorded origin. */
  predicate Named(at: Layout, s: State) {
    s.completion != Nothing ==> s.origin.Some? && s.completion.path == at(s.origin.value.attempt)
  }

  /** A completion without an origin. */
  predicate Adrift(s: State) {
    s.completion != Nothing && s.origin.None?
  }

  /** The origins stay, or the intact failed attempt in the ledger becomes the newest one. */
  ghost predicate Extends(at: Layout, w: World, s: State, s': State) {
    || (Origins(s') == Origins(s) && s'.origin == s.origin)
    || (&& Pulse(s).Some? && Origins(s') == Origins(s) + [Pulse(s).value] && s'.origin == Pulse(s)
        && Failed(w, Pulse(s).value)
        && s'.completion.From? && s'.completion.path == at(Pulse(s).value.attempt)
        && (s.origin.Some? ==>
              && FirstLine(w, Pulse(s).value).Command?
              && "--complete-from" !in FirstLine(w, Pulse(s).value).args))
  }

  /** Nothing else in the file changes. */
  predicate SameRest(s: State, s': State) {
    s'.results == s.results && s'.finalResults == s.finalResults && s'.product == s.product && s'.final == s.final
  }

  lemma BindKeeps(at: Layout, w: World, s: State, c: Completion, product: string)
    requires Sound(s) && Bind(at, w, s, c, product).Ok?
    ensures var s' := Bind(at, w, s, c, product).state;
      && Sound(s') && Extends(at, w, s, s') && SameRest(s, s')
      && (s'.origin.Some? ==> Some(product) == s'.product)
      && (Named(at, s) ==> Named(at, s')) && (Adrift(s) ==> s' == s)
  {
    var s' := Bind(at, w, s, c, product).state;
    if s' != s && c != Nothing {
      var r := Pulse(s).value;
      assert s' == Adopt(s, c, r) && Origins(s') == Origins(s) + [r];
      forall i, j | 0 <= i < j < |Origins(s')|
        ensures Origins(s')[i].attempt < Origins(s')[j].attempt
      {
        if j == |Origins(s)| {
          OriginIsLast(s, i);
        }
      }
    }
  }

  /** The current origin is the newest. */
  lemma OriginIsLast(s: State, i: nat)
    requires Sound(s) && i < |Origins(s)|
    ensures s.origin.Some? && Origins(s)[i].attempt <= s.origin.value.attempt
  {
    assert s.origin.Some? ==> Origins(s)[|Origins(s)| - 1] == s.origin.value;
  }

  // ----- What binding accepts -----

  /** The result of the last Pulse job is an intact failure. */
  ghost predicate LastFailed(w: World, s: State) {
    && "pulse_report" in s.results && s.results["pulse_report"].status == Fail
    && s.results["pulse_report"].log.Some? && w.intact(s.results["pulse_report"])
  }

  /** The completion is given up for a fresh run. */
  ghost predicate Fresh(w: World, s: State, c: Completion) {
    && c == Nothing && s.completion != Nothing && !s.final && LastFailed(w, s)
    && s.origin.Some? && s.origin.value.attempt < s.results["pulse_report"].attempt
  }

  /** The last failure is to be completed: by its own output, with the recorded product, and if there was an origin
      before, it is a newer attempt whose command was no completion. */
  ghost predicate Newer(at: Layout, w: World, s: State, c: Completion, product: string) {
    && c.From? && s.completion == Nothing && !s.final && LastFailed(w, s)
    && c.path == at(s.results["pulse_report"].attempt)
    && product != "" && s.product == Some(product)
    && (s.origin.Some? ==>
          && s.origin.value.attempt < s.results["pulse_report"].attempt
          && exists args :: args != [] && "--complete-from" !in args
                            && w.line(s.results["pulse_report"].log.value) == Command(args))
  }

  /** The product of the origin is installed, and the logs of all origins are intact. */
  ghost predicate OriginsStand(w: World, s: State, product: string) {
    && (s.origin.Some? ==> s.product == Some(product))
    && (forall k :: 0 <= k < |s.history| ==> s.history[k].log.Some? && w.intact(s.history[k]))
    && (s.origin.Some? ==> s.origin.value.log.Some? && w.intact(s.origin.value))
  }

  lemma OriginsIntact(w: World, s: State)
    ensures (forall r :: r in Origins(s) ==> Intact(w, r)) <==>
      && (forall k :: 0 <= k < |s.history| ==> s.history[k].log.Some? && w.intact(s.history[k]))
      && (s.origin.Some? ==> s.origin.value.log.Some? && w.intact(s.origin.value))
  {
    var all := Origins(s);
    assert forall k :: 0 <= k < |s.history| ==> all[k] == s.history[k] && all[k] in all;
    if s.origin.Some? {
      assert all[|s.history|] == s.origin.value && all[|s.history|] in all;
    }
  }

  /** A binding is accepted exactly while the origins stand and the completion stays, is given up for a fresh run, or
      is that of a newer failure; it leaves the file alone, clears the completion, or makes the failure the origin. */
  lemma BindIff(at: Layout, w: World, s: State, c: Completion, product: string)
    ensures Bind(at, w, s, c, product).Ok? <==>
      OriginsStand(w, s, product) && (c == s.completion || Fresh(w, s, c) || Newer(at, w, s, c, product))
    ensures Bind(at, w, s, c, product).Ok? ==>
      Bind(at, w, s, c, product).state ==
        if c == s.completion then s
        else if c == Nothing then s.(completion := Nothing)
        else s.(completion := c, origin := Some(s.results["pulse_report"]),
                history := s.history + (if s.origin.Some? then [s.origin.value] else []))
  {
    OriginsIntact(w, s);
    if Newer(at, w, s, c, product) && s.origin.Some? {
      var args :| args != [] && "--complete-from" !in args
                  && w.line(s.results["pulse_report"].log.value) == Command(args);
      assert FirstLine(w, s.results["pulse_report"]).args == args;
    }
  }
}

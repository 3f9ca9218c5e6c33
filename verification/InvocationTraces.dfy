/** All sequences of invocations of qualification/release/qualify.py on one run directory: what becomes of the
    origins, of the active completion and of the recorded product. */
module InvocationTraces {
  import opened Basics
  import opened PulseBinding
  import opened Invocations

  /** The file after an invocation; a refused one leaves it. */
  ghost function Next(at: Layout, w: World, file: Option<State>, i: Invocation): Option<State>
    requires Proper(i)
  {
    var r := Invoke(at, w, file, i);
    if r.Ok? then Some(r.state) else file
  }

  datatype Part = Allowed | Follows

  ghost predicate StepPart(part: Part, at: Layout, w: World, file: Option<State>, i: Invocation, file': Option<State>) {
    match part
    case Allowed => Proper(i)
    case Follows => Proper(i) ==> file' == Next(at, w, file, i)
  }

  /** The invocation turns the one file into the other. */
  ghost predicate Step(at: Layout, w: World, file: Option<State>, i: Invocation, file': Option<State>) {
    forall part: Part :: StepPart(part, at, w, file, i, file')
  }

  lemma StepIs(at: Layout, w: World, file: Option<State>, i: Invocation, file': Option<State>)
    ensures Step(at, w, file, i, file') <==> Proper(i) && file' == Next(at, w, file, i)
  {
    if Step(at, w, file, i, file') {
      assert StepPart(Allowed, at, w, file, i, file') && StepPart(Follows, at, w, file, i, file');
    }
  }

  /** The state files that invocations leave one after the other, from no file on; `worlds[k]` is what
      invocation `k` finds. */
  ghost predicate Trace(at: Layout, worlds: seq<World>, invocations: seq<Invocation>, files: seq<Option<State>>) {
    && |worlds| == |invocations| && |files| == |invocations| + 1 && files[0] == None
    && forall k :: 0 <= k < |invocations| ==> Step(at, worlds[k], files[k], invocations[k], files[k + 1])
  }

  /** One invocation that finds a file. */
  lemma StepKeeps(at: Layout, w: World, s: State, i: Invocation, f: Option<State>)
    requires Step(at, w, Some(s), i, f) && Sound(s)
    ensures f.Some? && Sound(f.value) && Origins(s) <= Origins(f.value)
    ensures s.origin.Some? ==> f.value.origin.Some? && (Undisturbed(s, i) ==> f.value.product == s.product)
    ensures Named(at, s) ==> Named(at, f.value)
    ensures Adrift(s) ==> Adrift(f.value) && f.value.completion == s.completion
  {
    StepIs(at, w, Some(s), i, f);
    if Invoke(at, w, Some(s), i).Ok? {
      InvokeKeeps(at, w, s, i);
      if Undisturbed(s, i) {
        ProductStays(at, w, s, i);
      }
    }
  }

  lemma CreatedSound(c: Completion)
    ensures Sound(Created(c)) && Origins(Created(c)) == []
  {
    assert Origins(Created(c)) == [];
  }

  lemma CreatedBinds(at: Layout, w: World, c: Completion, product: string)
    ensures Bind(at, w, Created(c), c, product) == Ok(Created(c))
  {
    CreatedSound(c);
  }

  lemma CreatedRuns(at: Layout, w: World, i: Invocation)
    requires Proper(i) && WellFormed(i.completion) && i.action == Work
    ensures Invoke(at, w, None, i) == Ok(AfterJobs(Created(i.completion), i))
  {
    var s := Created(i.completion);
    CreatedBinds(at, w, i.completion, Product(i));
    InvokeBinds(at, w, None, i, Ok(s));
    BoundRuns(w, s, s, i);
  }

  /** An invocation that finds no file makes it, is refused or has none to show. */
  lemma InvokeNone(at: Layout, w: World, i: Invocation)
    requires Proper(i) && Invoke(at, w, None, i).Ok?
    ensures WellFormed(i.completion) && i.action != Status
    ensures i.action == Init ==> Invoke(at, w, None, i) == Ok(Created(i.completion))
  {
  }

  /** The invocation that makes the file leaves it as its completion arguments say. */
  lemma StepCreates(at: Layout, w: World, i: Invocation, f: Option<State>)
    requires Step(at, w, None, i, f) && f.Some?
    ensures Sound(f.value) && f.value.completion == i.completion && f.value.origin == None
    ensures Named(at, f.value) <==> i.completion == Nothing
    ensures Adrift(f.value) <==> i.completion != Nothing
  {
    StepIs(at, w, None, i, f);
    InvokeNone(at, w, i);
    CreatedSound(i.completion);
    if i.action == Work {
      CreatedRuns(at, w, i);
      AfterJobsSound(Created(i.completion), i);
    }
  }

  lemma {:induction false} TraceSound(at: Layout, worlds: seq<World>, invocations: seq<Invocation>,
                                      files: seq<Option<State>>, k: nat)
    requires Trace(at, worlds, invocations, files) && k < |files|
    ensures files[k].Some? ==> Sound(files[k].value)
  {
    if k > 0 {
      TraceSound(at, worlds, invocations, files, k - 1);
      assert Step(at, worlds[k - 1], files[k - 1], invocations[k - 1], files[k]);
      if files[k - 1].Some? {
        StepKeeps(at, worlds[k - 1], files[k - 1].value, invocations[k - 1], files[k]);
      } else if files[k].Some? {
        StepCreates(at, worlds[k - 1], invocations[k - 1], files[k]);
      }
    }
  }

  /** No invocation from `j` to `k` was disturbed. */
  ghost predicate CalmBetween(invocations: seq<Invocation>, files: seq<Option<State>>, j: nat, k: nat)
    requires k < |files| == |invocations| + 1
  {
    forall m :: j <= m < k && files[m].Some? ==> Undisturbed(files[m].value, invocations[m])
  }

  /** Over every sequence of invocations the origins only grow, and their attempts strictly increase. Once
      there is an origin the product stays the same, if no invocation in between was disturbed. */
  lemma {:induction false} HistoryGrows(at: Layout, worlds: seq<World>, invocations: seq<Invocation>,
                                        files: seq<Option<State>>, j: nat, k: nat)
    requires Trace(at, worlds, invocations, files) && j <= k < |files| && files[j].Some?
    ensures files[k].Some? && Increasing(Origins(files[k].value))
    ensures Origins(files[j].value) <= Origins(files[k].value)
    ensures files[j].value.origin.Some? ==> files[k].value.origin.Some?
    ensures files[j].value.origin.Some? && CalmBetween(invocations, files, j, k) ==>
      files[k].value.product == files[j].value.product
    decreases k - j
  {
    TraceSound(at, worlds, invocations, files, k);
    if j < k {
      HistoryGrows(at, worlds, invocations, files, j, k - 1);
      TraceSound(at, worlds, invocations, files, k - 1);
      StepKeeps(at, worlds[k - 1], files[k - 1].value, invocations[k - 1], files[k]);
    }
  }

  /** That an active completion always names the recorded origin is false: a run created with completion
      arguments has one without any origin, and never gets one. It holds, after every invocation, if and
      only if the invocation that created the file had no completion arguments. */
  lemma {:induction false} NamedIff(at: Layout, worlds: seq<World>, invocations: seq<Invocation>,
                                    files: seq<Option<State>>, j: nat, k: nat)
    requires Trace(at, worlds, invocations, files) && j < k < |files| && files[j].None? && files[j + 1].Some?
    ensures files[k].Some? && (Named(at, files[k].value) <==> invocations[j].completion == Nothing)
    ensures invocations[j].completion != Nothing ==> Adrift(files[k].value)
    decreases k
  {
    if k == j + 1 {
      StepCreates(at, worlds[j], invocations[j], files[k]);
    } else {
      NamedIff(at, worlds, invocations, files, j, k - 1);
      TraceSound(at, worlds, invocations, files, k - 1);
      StepKeeps(at, worlds[k - 1], files[k - 1].value, invocations[k - 1], files[k]);
    }
  }

  /** Such an invocation: `init` with completion arguments, whatever they are. */
  lemma CreatedAdrift(at: Layout, w: World, i: Invocation)
    requires Proper(i) && i.action == Init && WellFormed(i.completion) && i.completion != Nothing
    ensures Next(at, w, None, i).Some? && !Named(at, Next(at, w, None, i).value)
  {
  }
}

/** `resume_pairs` and the measuring loops of `complete` in qualification/release/pulse_completion.py: each
    missing pair is taken once, from its first clean observation. */
module PulseResume {
  import opened Basics
  import opened PulseRecords
  import opened PulseMerge

  /** One line of the journal in `directory`: the cases measured together, their repeat and their records. */
  datatype Stage = Stage(directory: string, members: seq<string>, repeat: int, records: seq<Record>)

  /** What a completion has to replace: `allowed` are the process contexts of the frozen plan; `metrics`
      tells whether the metrics of a record are those of its raw counters, `evidence` whether the logs and
      executables of a pair lie in the directory of its line and are unchanged. */
  datatype Job = Job(plan: Plan, allowed: set<(seq<string>, int)>, metrics: Record -> bool,
                     evidence: (Stage, seq<Record>) -> bool)

  type Replacement = map<Key, seq<Record>>

  const PREFLIGHT := ["original-preflight/calibration/asm-dependent-add"]

  /** Every missing pair has both records, is not clean and belongs to a case with fixed work. */
  ghost predicate GoodJob(job: Job) {
    forall k :: k in job.plan.missing ==>
      BothVariants(job.plan.missing[k]) && !AllValid(job.plan.missing[k]) && k.name in job.plan.fixed
  }

  lemma FrozenIsGood(raw: Raw, count: nat, job: Job)
    requires Frozen(raw, count, job.plan)
    ensures GoodJob(job)
  {
    forall k | k in job.plan.missing
      ensures BothVariants(job.plan.missing[k]) && !AllValid(job.plan.missing[k]) && k.name in job.plan.fixed
    {
      assert GoodRow(k.name, raw.rows[k.name], raw.phase, count);
    }
  }

  // ----- Resuming -----

  /** One member of a stage. */
  function ResumeMember(job: Job, name: string, stage: Stage, done: Replacement): Result<Replacement>
    requires GoodJob(job)
  {
    var key := Key(name, stage.repeat);
    if key !in job.plan.missing || key in done then Ok(done)
    else
      var pair, old' := Select(stage.records, name, stage.repeat), job.plan.missing[key];
      if |pair| != 2 then Refused(IncompletePair)
      else if pair[0].category != old'[0].category then Refused(CategoryDiffers)
      else if !job.metrics(pair[0]) then Refused(Untrusted)
      else if pair[1].category != old'[1].category then Refused(CategoryDiffers)
      else if !job.metrics(pair[1]) then Refused(Untrusted)
      else if !AllValid(pair) then Ok(done)
      else
        var r := ReplacementPair(name, stage.repeat, old', pair, job.plan.fixed[name]);
        if r.Refused? then Refused(r.refusal)
        else if !job.evidence(stage, pair) then Refused(Untrusted)
        else Ok(done[key := pair])
  }

  function ResumeMembers(job: Job, names: seq<string>, stage: Stage, done: Replacement): Result<Replacement>
    requires GoodJob(job)
  {
    if names == [] then Ok(done)
    else
      var r := ResumeMember(job, names[0], stage, done);
      if r.Refused? then r else ResumeMembers(job, names[1..], stage, r.value)
  }

  function ResumeStage(job: Job, stage: Stage, done: Replacement): Result<Replacement>
    requires GoodJob(job)
  {
    if stage.members == PREFLIGHT then Ok(done)
    else if (stage.members, stage.repeat) !in job.allowed then Refused(ContextChanged)
    else if |stage.records| != 2 * |stage.members| then Refused(IncompleteRecords)
    else ResumeMembers(job, stage.members, stage, done)
  }

  function ResumeStages(job: Job, stages: seq<Stage>, done: Replacement): Result<Replacement>
    requires GoodJob(job)
  {
    if stages == [] then Ok(done)
    else
      var r := ResumeStage(job, stages[0], done);
      if r.Refused? then r else ResumeStages(job, stages[1..], r.value)
  }

  /** The loops of `resume_pairs` over the complete lines of the accepted journals. */
  method ResumePairs(job: Job, stages: seq<Stage>) returns (r: Result<Replacement>)
    requires GoodJob(job)
    ensures r == ResumeStages(job, stages, map[])
  {
    var done: Replacement := map[];
    ghost var goal := ResumeStages(job, stages, map[]);
    for i := 0 to |stages|
      invariant goal == ResumeStages(job, stages[i..], done)
    {
      var stage := stages[i];
      assert stages[i..][0] == stage && stages[i..][1..] == stages[i + 1..];
      if stage.members != PREFLIGHT {
        if (stage.members, stage.repeat) !in job.allowed {
          return Refused(ContextChanged);
        }
        if |stage.records| != 2 * |stage.members| {
          return Refused(IncompleteRecords);
        }
        r := ResumeOne(job, stage, done);
        if r.Refused? {
          return;
        }
        done := r.value;
      }
    }
    return Ok(done);
  }

  method ResumeOne(job: Job, stage: Stage, start: Replacement) returns (r: Result<Replacement>)
    requires GoodJob(job)
    ensures r == ResumeMembers(job, stage.members, stage, start)
  {
    var done := start;
    for j := 0 to |stage.members|
      invariant ResumeMembers(job, stage.members, stage, start) == ResumeMembers(job, stage.members[j..], stage, done)
    {
      assert stage.members[j..][0] == stage.members[j] && stage.members[j..][1..] == stage.members[j + 1..];
      r := ResumeMember(job, stage.members[j], stage, done);
      if r.Refused? {
        return;
      }
      done := r.value;
    }
    return Ok(done);
  }

  // ----- The first clean observation -----

  /** A stage shows a clean pair for the key. */
  predicate CleanIn(stage: Stage, key: Key) {
    && stage.members != PREFLIGHT && key.name in stage.members && stage.repeat == key.repeat
    && |Select(stage.records, key.name, key.repeat)| == 2 && AllValid(Select(stage.records, key.name, key.repeat))
  }

  /** What `done` says of a key. */
  function Got(done: Replacement, key: Key): Option<seq<Record>> {
    if key in done then Some(done[key]) else None
  }

  lemma SelectAgain(s: seq<Record>, name: string, repeat: int)
    ensures Select(Select(s, name, repeat), name, repeat) == Select(s, name, repeat)
  {
    SelectAll(Select(s, name, repeat), name, repeat);
  }

  lemma {:induction false} SelectAll(s: seq<Record>, name: string, repeat: int)
    requires forall i :: 0 <= i < |s| ==> s[i].name == name && s[i].repeat == Whole(repeat)
    ensures Select(s, name, repeat) == s
  {
    if s != [] {
      SelectAll(s[1..], name, repeat);
    }
  }

  /** What one member does to what is known of a key. */
  lemma MemberGot(job: Job, name: string, stage: Stage, done: Replacement, key: Key)
    requires GoodJob(job) && stage.members != PREFLIGHT && name in stage.members
    requires ResumeMember(job, name, stage, done).Ok?
    ensures Got(ResumeMember(job, name, stage, done).value, key)
         == if key in job.plan.missing && key !in done && key.name == name && CleanIn(stage, key)
            then Some(Select(stage.records, key.name, key.repeat)) else Got(done, key)
  {
    SelectAgain(stage.records, name, stage.repeat);
  }

  lemma {:induction false} MembersGot(job: Job, names: seq<string>, stage: Stage, done: Replacement, key: Key)
    requires GoodJob(job) && stage.members != PREFLIGHT && (forall n :: n in names ==> n in stage.members)
    requires ResumeMembers(job, names, stage, done).Ok?
    ensures Got(ResumeMembers(job, names, stage, done).value, key)
         == if key in job.plan.missing && key !in done && key.name in names && CleanIn(stage, key)
            then Some(Select(stage.records, key.name, key.repeat)) else Got(done, key)
  {
    if names != [] {
      MemberGot(job, names[0], stage, done, key);
      MembersGot(job, names[1..], stage, ResumeMember(job, names[0], stage, done).value, key);
    }
  }

  /** The pair of the first stage that shows the key clean. */
  function FirstClean(stages: seq<Stage>, key: Key): Option<seq<Record>> {
    if stages == [] then None
    else if CleanIn(stages[0], key) then Some(Select(stages[0].records, key.name, key.repeat))
    else FirstClean(stages[1..], key)
  }

  /** `FirstClean` is what its name says. */
  lemma {:induction false} FirstCleanIsFirst(stages: seq<Stage>, key: Key)
    ensures FirstClean(stages, key).Some? <==> exists i :: 0 <= i < |stages| && CleanIn(stages[i], key)
    ensures forall i ::
      0 <= i < |stages| && CleanIn(stages[i], key) && (forall j :: 0 <= j < i ==> !CleanIn(stages[j], key)) ==>
      FirstClean(stages, key) == Some(Select(stages[i].records, key.name, key.repeat))
  {
    if stages != [] {
      FirstCleanIsFirst(stages[1..], key);
      assert forall i :: 1 <= i < |stages| ==> stages[i] == stages[1..][i - 1];
    }
  }

  lemma {:induction false} StagesGot(job: Job, stages: seq<Stage>, done: Replacement, key: Key)
    requires GoodJob(job) && ResumeStages(job, stages, done).Ok?
    ensures Got(ResumeStages(job, stages, done).value, key)
         == if key in done then Some(done[key]) else if key in job.plan.missing then FirstClean(stages, key) else None
  {
    if stages != [] {
      var next := ResumeStage(job, stages[0], done).value;
      if stages[0].members != PREFLIGHT {
        MembersGot(job, stages[0].members, stages[0], done, key);
      }
      StagesGot(job, stages[1..], next, key);
    }
  }

  /** Resuming takes exactly the missing pairs that some stage shows clean, each from the first such
      stage in journal order. */
  lemma FirstCleanWins(job: Job, stages: seq<Stage>, key: Key)
    requires GoodJob(job) && ResumeStages(job, stages, map[]).Ok?
    ensures Got(ResumeStages(job, stages, map[]).value, key) ==
      if key in job.plan.missing then FirstClean(stages, key) else None
  {
    StagesGot(job, stages, map[], key);
  }
}

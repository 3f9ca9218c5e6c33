/** Which journals and measurements a completion accepts (qualification/release/pulse_completion.py, lines 486-536
    and 639-679), line by line and unit by unit, and what is certain of every pair that it takes. */
module PulseAccepts {
  import opened Basics
  import opened PulseRecords
  import opened PulseMerge
  import opened PulseBatches
  import opened PulseResume
  import opened PulseComplete

  // ----- The two records of a pair -----

  predicate IsOf(x: Record, key: Key) {
    x.name == key.name && x.repeat == Whole(key.repeat)
  }

  /** The records `a` and `b`, in this order, are all that there are of the key. */
  ghost predicate TheTwo(s: seq<Record>, key: Key, a: nat, b: nat) {
    a < b < |s| && forall i :: 0 <= i < |s| ==> (IsOf(s[i], key) <==> i == a || i == b)
  }

  lemma {:induction false} SelectKeeps(s: seq<Record>, key: Key)
    ensures Select(s, key.name, key.repeat) == Keep(s, (x: Record) => IsOf(x, key))
  {
    if s != [] {
      SelectKeeps(s[1..], key);
    }
  }

  /** A pair is selected exactly when the line holds two records of the key, and then it is these. */
  lemma SelectTwo(s: seq<Record>, key: Key)
    ensures forall a: nat, b: nat :: TheTwo(s, key, a, b) ==> Select(s, key.name, key.repeat) == [s[a], s[b]]
    ensures |Select(s, key.name, key.repeat)| == 2 ==> exists a: nat, b: nat :: TheTwo(s, key, a, b)
  {
    var p := (x: Record) => IsOf(x, key);
    SelectKeeps(s, key);
    KeepTwo(s, p);
    forall a: nat, b: nat
      ensures TheTwo(s, key, a, b) <==> OnlyTwo(s, p, a, b)
    {
    }
  }

  // ----- Resuming -----

  /** The line shows a clean pair of the key. */
  ghost predicate Shows(stage: Stage, key: Key) {
    && stage.members != PREFLIGHT && key.name in stage.members && stage.repeat == key.repeat
    && exists a: nat, b: nat :: TheTwo(stage.records, key, a, b) && stage.records[a].valid && stage.records[b].valid
  }

  /** The line may speak of the key: two records of the same categories as before, with the metrics of their raw
      counters, and if both are valid, a clean replacement whose logs and executables are unchanged. */
  ghost predicate Trusted(job: Job, stage: Stage, key: Key)
    requires GoodJob(job) && key in job.plan.missing
  {
    exists a: nat, b: nat ::
      TheTwo(stage.records, key, a, b) && TrustedPair(job, stage, key, [stage.records[a], stage.records[b]])
  }

  ghost predicate TrustedPair(job: Job, stage: Stage, key: Key, pair: seq<Record>)
    requires GoodJob(job) && key in job.plan.missing && |pair| == 2
  {
    var old' := job.plan.missing[key];
    && pair[0].category == old'[0].category && pair[1].category == old'[1].category
    && job.metrics(pair[0]) && job.metrics(pair[1])
    && (pair[0].valid && pair[1].valid ==>
          CleanReplacement(key.name, key.repeat, old', pair, job.plan.fixed[key.name]) && job.evidence(stage, pair))
  }

  /** Line `i` is accepted: it is the preflight, or its context is allowed, it has two records for each member, and
      it may speak of every missing pair that no earlier line shows clean. */
  ghost predicate LineAccepted(job: Job, stages: seq<Stage>, i: nat)
    requires GoodJob(job) && i < |stages|
  {
    var stage := stages[i];
    stage.members == PREFLIGHT
    || (&& (stage.members, stage.repeat) in job.allowed && |stage.records| == 2 * |stage.members|
        && forall n :: n in stage.members && Key(n, stage.repeat) in job.plan.missing
             && (forall j :: 0 <= j < i ==> !Shows(stages[j], Key(n, stage.repeat)))
             ==> Trusted(job, stage, Key(n, stage.repeat)))
  }

  lemma ShowsIff(stage: Stage, key: Key)
    ensures Shows(stage, key) <==> CleanIn(stage, key)
  {
    SelectTwo(stage.records, key);
    var pair := Select(stage.records, key.name, key.repeat);
    assert |pair| == 2 ==> (AllValid(pair) <==> pair[0].valid && pair[1].valid);
  }

  lemma TrustedIff(job: Job, stage: Stage, key: Key)
    requires GoodJob(job) && key in job.plan.missing
    ensures Trusted(job, stage, key) <==>
      var pair := Select(stage.records, key.name, key.repeat); |pair| == 2 && TrustedPair(job, stage, key, pair)
  {
    SelectTwo(stage.records, key);
  }

  lemma PairAccepts(job: Job, stage: Stage, key: Key, pair: seq<Record>)
    requires GoodJob(job) && key in job.plan.missing && pair == Select(stage.records, key.name, key.repeat)
    ensures ReplacementPair(key.name, key.repeat, job.plan.missing[key], pair, job.plan.fixed[key.name]).Ok?
       <==> CleanReplacement(key.name, key.repeat, job.plan.missing[key], pair, job.plan.fixed[key.name])
  {
    SelectAgain(stage.records, key.name, key.repeat);
    ReplacementExact(key.name, key.repeat, job.plan.missing[key], pair, job.plan.fixed[key.name]);
  }

  lemma MemberAccepts(job: Job, name: string, stage: Stage, done: Replacement)
    requires GoodJob(job)
    ensures ResumeMember(job, name, stage, done).Ok? <==>
      (Wanted(job, done, Key(name, stage.repeat)) ==> Trusted(job, stage, Key(name, stage.repeat)))
  {
    var key := Key(name, stage.repeat);
    if Wanted(job, done, key) {
      TrustedIff(job, stage, key);
      var pair := Select(stage.records, name, stage.repeat);
      PairAccepts(job, stage, key, pair);
      assert |pair| == 2 ==> (AllValid(pair) <==> pair[0].valid && pair[1].valid);
    }
  }

  lemma MemberAdds(job: Job, name: string, stage: Stage, done: Replacement, key: Key)
    requires GoodJob(job) && ResumeMember(job, name, stage, done).Ok? && key != Key(name, stage.repeat)
    ensures Wanted(job, ResumeMember(job, name, stage, done).value, key) <==> Wanted(job, done, key)
  {
  }

  /** The members of a line: each that is wanted may be spoken of. */
  lemma {:induction false} MembersAccept(job: Job, names: seq<string>, stage: Stage, done: Replacement)
    requires GoodJob(job)
    ensures ResumeMembers(job, names, stage, done).Ok? <==>
      forall n :: n in names && Wanted(job, done, Key(n, stage.repeat)) ==> Trusted(job, stage, Key(n, stage.repeat))
  {
    if names != [] {
      MemberAccepts(job, names[0], stage, done);
      var r := ResumeMember(job, names[0], stage, done);
      if r.Ok? {
        MembersAccept(job, names[1..], stage, r.value);
        forall n | n in names && n != names[0]
          ensures Wanted(job, r.value, Key(n, stage.repeat)) <==> Wanted(job, done, Key(n, stage.repeat))
          ensures n in names[1..]
        {
          MemberAdds(job, names[0], stage, done, Key(n, stage.repeat));
        }
        assert Wanted(job, r.value, Key(names[0], stage.repeat)) ==> Wanted(job, done, Key(names[0], stage.repeat));
        assert forall n :: n in names[1..] ==> n in names;
      }
    }
  }

  /** What has been taken is what the lines before show clean. */
  ghost predicate Recorded(job: Job, before: seq<Stage>, done: Replacement) {
    forall k :: k in job.plan.missing ==> (k in done <==> exists j :: 0 <= j < |before| && Shows(before[j], k))
  }

  lemma RecordedNext(job: Job, before: seq<Stage>, stage: Stage, done: Replacement)
    requires GoodJob(job) && Recorded(job, before, done) && ResumeStage(job, stage, done).Ok?
    ensures Recorded(job, before + [stage], ResumeStage(job, stage, done).value)
  {
    var next, all := ResumeStage(job, stage, done).value, before + [stage];
    forall k | k in job.plan.missing
      ensures k in next <==> exists j :: 0 <= j < |all| && Shows(all[j], k)
    {
      assert all[|before|] == stage && forall j :: 0 <= j < |before| ==> all[j] == before[j];
      ShowsIff(stage, k);
      if stage.members != PREFLIGHT {
        MembersGot(job, stage.members, stage, done, k);
      }
      assert k in next <==> k in done || Shows(stage, k);
    }
  }

  lemma LineIff(job: Job, before: seq<Stage>, stage: Stage, after: seq<Stage>, done: Replacement)
    requires GoodJob(job) && Recorded(job, before, done)
    ensures ResumeStage(job, stage, done).Ok? <==> LineAccepted(job, before + [stage] + after, |before|)
  {
    var all := before + [stage] + after;
    assert all[|before|] == stage && forall j :: 0 <= j < |before| ==> all[j] == before[j];
    MembersAccept(job, stage.members, stage, done);
  }

  lemma {:induction false} LinesFrom(job: Job, before: seq<Stage>, rest: seq<Stage>, done: Replacement)
    requires GoodJob(job) && Recorded(job, before, done)
    ensures ResumeStages(job, rest, done).Ok? <==>
      forall i :: |before| <= i < |before + rest| ==> LineAccepted(job, before + rest, i)
    decreases rest
  {
    if rest != [] {
      assert before + [rest[0]] + rest[1..] == before + rest;
      LineIff(job, before, rest[0], rest[1..], done);
      var r := ResumeStage(job, rest[0], done);
      if r.Ok? {
        RecordedNext(job, before, rest[0], done);
        LinesFrom(job, before + [rest[0]], rest[1..], r.value);
      } else {
        assert !LineAccepted(job, before + rest, |before|);
      }
    }
  }

  /** Journals are accepted exactly when each of their lines is. */
  lemma ResumeAccepts(job: Job, stages: seq<Stage>)
    requires GoodJob(job)
    ensures ResumeStages(job, stages, map[]).Ok? <==> forall i :: 0 <= i < |stages| ==> LineAccepted(job, stages, i)
  {
    assert [] + stages == stages;
    LinesFrom(job, [], stages, map[]);
  }

  /** Line `i` is the first that shows the key clean, and `pair` is what it shows. */
  ghost predicate FirstShown(stages: seq<Stage>, i: nat, key: Key, pair: seq<Record>) {
    && i < |stages| && Shows(stages[i], key) && (forall j :: 0 <= j < i ==> !Shows(stages[j], key))
    && exists a: nat, b: nat :: TheTwo(stages[i].records, key, a, b)
                                && pair == [stages[i].records[a], stages[i].records[b]]
  }

  lemma {:induction false} FirstShownIs(stages: seq<Stage>, key: Key)
    ensures FirstClean(stages, key).Some? ==> exists i: nat :: FirstShown(stages, i, key, FirstClean(stages, key).value)
    ensures FirstClean(stages, key).None? ==> forall i :: 0 <= i < |stages| ==> !Shows(stages[i], key)
  {
    if stages != [] {
      ShowsIff(stages[0], key);
      assert forall i :: 1 <= i < |stages| ==> stages[i] == stages[1..][i - 1];
      if CleanIn(stages[0], key) {
        SelectTwo(stages[0].records, key);
        assert FirstShown(stages, 0, key, FirstClean(stages, key).value);
      } else {
        FirstShownIs(stages[1..], key);
        if FirstClean(stages, key).Some? {
          var i: nat :| FirstShown(stages[1..], i, key, FirstClean(stages, key).value);
          assert FirstShown(stages, i + 1, key, FirstClean(stages, key).value);
        }
      }
    }
  }

  /** Of accepted journals exactly the missing pairs that some line shows clean are taken, each from the first such
      line; it has the old categories and the metrics of its raw counters, replaces the old pair cleanly, and its
      logs and executables are unchanged. */
  lemma TakenIsTrusted(job: Job, stages: seq<Stage>, key: Key)
    requires GoodJob(job) && ResumeStages(job, stages, map[]).Ok?
    ensures var done := ResumeStages(job, stages, map[]).value;
      && (key in done <==> key in job.plan.missing && exists i :: 0 <= i < |stages| && Shows(stages[i], key))
      && (key in done ==> exists i: nat :: FirstShown(stages, i, key, done[key]) && |done[key]| == 2
                                           && TrustedPair(job, stages[i], key, done[key]))
  {
    var done := ResumeStages(job, stages, map[]).value;
    FirstCleanWins(job, stages, key);
    FirstShownIs(stages, key);
    if key in done {
      var i: nat :| FirstShown(stages, i, key, done[key]);
      ResumeAccepts(job, stages);
      assert LineAccepted(job, stages, i) && key == Key(key.name, stages[i].repeat);
      FirstIsTrusted(job, stages[i], key, done[key]);
    }
  }

  lemma FirstIsTrusted(job: Job, stage: Stage, key: Key, pair: seq<Record>)
    requires GoodJob(job) && key in job.plan.missing && Trusted(job, stage, key)
    requires exists a: nat, b: nat :: TheTwo(stage.records, key, a, b) && pair == [stage.records[a], stage.records[b]]
    ensures TrustedPair(job, stage, key, pair)
  {
    var a: nat, b: nat :| TheTwo(stage.records, key, a, b) && pair == [stage.records[a], stage.records[b]];
    var c: nat, d: nat :| TheTwo(stage.records, key, c, d)
                          && TrustedPair(job, stage, key, [stage.records[c], stage.records[d]]);
    SelectTwo(stage.records, key);
    assert pair == Select(stage.records, key.name, key.repeat) == [stage.records[c], stage.records[d]];
  }

  // ----- Refusals of a resume -----

  /** What is wrong with a pair of two records. */
  ghost predicate PairWrong(job: Job, stage: Stage, key: Key, pair: seq<Record>, e: Refusal)
    requires GoodJob(job) && key in job.plan.missing && |pair| == 2
  {
    var old' := job.plan.missing[key];
    if pair[0].category != old'[0].category then e == CategoryDiffers
    else if !job.metrics(pair[0]) then e == Untrusted
    else if pair[1].category != old'[1].category then e == CategoryDiffers
    else if !job.metrics(pair[1]) then e == Untrusted
    else
      && pair[0].valid && pair[1].valid
      && if CleanReplacement(key.name, key.repeat, old', pair, job.plan.fixed[key.name])
         then e == Untrusted && !job.evidence(stage, pair)
         else e in {NotOnePair, VariantOrder, DirtyOrChanged, ExecutableDiffers, AffinityDiffers, PhaseDiffers}
  }

  /** What is wrong with what a line says of a key. */
  ghost predicate KeyWrong(job: Job, stage: Stage, key: Key, e: Refusal)
    requires GoodJob(job)
  {
    key in job.plan.missing &&
    if forall a: nat, b: nat :: !TheTwo(stage.records, key, a, b) then e == IncompletePair
    else exists a: nat, b: nat ::
      TheTwo(stage.records, key, a, b) && PairWrong(job, stage, key, [stage.records[a], stage.records[b]], e)
  }

  /** What is wrong with line `i`. */
  ghost predicate LineWrong(job: Job, stages: seq<Stage>, i: nat, e: Refusal)
    requires GoodJob(job) && i < |stages|
  {
    var stage := stages[i];
    && stage.members != PREFLIGHT
    && if (stage.members, stage.repeat) !in job.allowed then e == ContextChanged
       else if |stage.records| != 2 * |stage.members| then e == IncompleteRecords
       else exists n :: n in stage.members && KeyWrong(job, stage, Key(n, stage.repeat), e)
                        && forall j :: 0 <= j < i ==> !Shows(stages[j], Key(n, stage.repeat))
  }

  lemma MemberRefuses(job: Job, name: string, stage: Stage, done: Replacement)
    requires GoodJob(job) && ResumeMember(job, name, stage, done).Refused?
    ensures Wanted(job, done, Key(name, stage.repeat))
    ensures KeyWrong(job, stage, Key(name, stage.repeat), ResumeMember(job, name, stage, done).refusal)
  {
    var key := Key(name, stage.repeat);
    var pair := Select(stage.records, name, stage.repeat);
    SelectTwo(stage.records, key);
    PairAccepts(job, stage, key, pair);
    if |pair| == 2 {
      assert AllValid(pair) <==> pair[0].valid && pair[1].valid;
      SelectAgain(stage.records, name, stage.repeat);
      assert PairWrong(job, stage, key, pair, ResumeMember(job, name, stage, done).refusal);
    }
  }

  lemma {:induction false} MembersRefuse(job: Job, names: seq<string>, stage: Stage, done: Replacement)
    requires GoodJob(job) && ResumeMembers(job, names, stage, done).Refused?
    ensures exists n :: n in names && Wanted(job, done, Key(n, stage.repeat))
                        && KeyWrong(job, stage, Key(n, stage.repeat), ResumeMembers(job, names, stage, done).refusal)
  {
    if names != [] {
      var r := ResumeMember(job, names[0], stage, done);
      if r.Refused? {
        MemberRefuses(job, names[0], stage, done);
      } else {
        MembersRefuse(job, names[1..], stage, r.value);
        var n :| n in names[1..] && Wanted(job, r.value, Key(n, stage.repeat))
                 && KeyWrong(job, stage, Key(n, stage.repeat), ResumeMembers(job, names, stage, done).refusal);
        assert n in names;
      }
    }
  }

  lemma LineRefuses(job: Job, before: seq<Stage>, stage: Stage, after: seq<Stage>, done: Replacement)
    requires GoodJob(job) && Recorded(job, before, done) && ResumeStage(job, stage, done).Refused?
    ensures LineWrong(job, before + [stage] + after, |before|, ResumeStage(job, stage, done).refusal)
  {
    var all := before + [stage] + after;
    assert all[|before|] == stage && forall j :: 0 <= j < |before| ==> all[j] == before[j];
    if (stage.members, stage.repeat) in job.allowed && |stage.records| == 2 * |stage.members| {
      MembersRefuse(job, stage.members, stage, done);
    }
  }

  lemma {:induction false} RefusesFrom(job: Job, before: seq<Stage>, rest: seq<Stage>, done: Replacement)
    requires GoodJob(job) && Recorded(job, before, done) && ResumeStages(job, rest, done).Refused?
    ensures exists i :: |before| <= i < |before + rest|
                        && LineWrong(job, before + rest, i, ResumeStages(job, rest, done).refusal)
                        && forall j :: |before| <= j < i ==> LineAccepted(job, before + rest, j)
    decreases rest
  {
    assert before + [rest[0]] + rest[1..] == before + rest;
    LineIff(job, before, rest[0], rest[1..], done);
    var r := ResumeStage(job, rest[0], done);
    if r.Ok? {
      RecordedNext(job, before, rest[0], done);
      RefusesFrom(job, before + [rest[0]], rest[1..], r.value);
    } else {
      LineRefuses(job, before, rest[0], rest[1..], done);
    }
  }

  /** A refusal says what is wrong with the first line that is not accepted. */
  lemma ResumeRefuses(job: Job, stages: seq<Stage>)
    requires GoodJob(job) && ResumeStages(job, stages, map[]).Refused?
    ensures exists i :: 0 <= i < |stages| && LineWrong(job, stages, i, ResumeStages(job, stages, map[]).refusal)
                        && forall j :: 0 <= j < i ==> LineAccepted(job, stages, j)
  {
    assert [] + stages == stages;
    RefusesFrom(job, [], stages, map[]);
  }

  // ----- Measuring -----

  /** The key is still wanted when unit `i` is reached. */
  ghost predicate Open(job: Job, units: seq<Unit>, resumed: Replacement, i: nat, key: Key)
    requires i < |units|
  {
    && key in job.plan.missing && key !in resumed
    && forall j :: 0 <= j < i ==> !(key.name in units[j].batch.members && key.repeat == units[j].batch.repeat)
  }

  /** The unit measured a clean replacement of the key. */
  ghost predicate Renews(job: Job, u: Unit, key: Key)
    requires GoodJob(job) && key in job.plan.missing
  {
    exists a: nat, b: nat :: TheTwo(u.measured, key, a, b) &&
      CleanReplacement(key.name, key.repeat, job.plan.missing[key], [u.measured[a], u.measured[b]],
                       job.plan.fixed[key.name])
  }

  /** Unit `i` is accepted: nothing in it is still wanted, or a batch kept its number of cases and every pair that is
      wanted has been replaced cleanly. */
  ghost predicate UnitAccepted(job: Job, units: seq<Unit>, resumed: Replacement, i: nat)
    requires GoodJob(job) && i < |units|
  {
    var u := units[i];
    forall n :: n in u.batch.members && Open(job, units, resumed, i, Key(n, u.batch.repeat)) ==>
      (u.single || |u.measured| == 2 * |u.batch.members|) && Renews(job, u, Key(n, u.batch.repeat))
  }

  lemma MeasuredPairAccepts(job: Job, u: Unit, key: Key)
    requires GoodJob(job) && key in job.plan.missing
    ensures Renews(job, u, key) <==>
      ReplacementPair(key.name, key.repeat, job.plan.missing[key],
                      ByName(u.measured, key.name), job.plan.fixed[key.name]).Ok?
  {
    SelectByName(u.measured, key.name, key.repeat);
    ReplacementExact(key.name, key.repeat, job.plan.missing[key], ByName(u.measured, key.name),
                     job.plan.fixed[key.name]);
    SelectTwo(u.measured, key);
  }

  lemma {:induction false} MeasuringAccepts(job: Job, names: seq<string>, u: Unit, done: Replacement)
    requires GoodJob(job)
    ensures MeasureMembers(job, names, u, done).Ok? <==>
      forall n :: n in names && Wanted(job, done, Key(n, u.batch.repeat)) ==> Renews(job, u, Key(n, u.batch.repeat))
  {
    if names != [] {
      var k := Key(names[0], u.batch.repeat);
      assert forall n :: n in names <==> n == names[0] || n in names[1..];
      if Wanted(job, done, k) {
        MeasuredPairAccepts(job, u, k);
        var r := ReplacementPair(k.name, k.repeat, job.plan.missing[k],
                                 ByName(u.measured, k.name), job.plan.fixed[k.name]);
        if r.Ok? {
          MeasuringAccepts(job, names[1..], u, done[k := r.value]);
        }
      } else {
        MeasuringAccepts(job, names[1..], u, done);
      }
    }
  }

  /** What is replaced is what was resumed or was wanted by a unit before. */
  ghost predicate Renewed(job: Job, before: seq<Unit>, resumed: Replacement, done: Replacement) {
    forall k :: k in job.plan.missing ==>
      (k in done <==> k in resumed || exists j :: 0 <= j < |before| && InBatch(before[j].batch, k))
  }

  lemma RenewedNext(job: Job, before: seq<Unit>, u: Unit, resumed: Replacement, done: Replacement)
    requires GoodJob(job) && Renewed(job, before, resumed, done) && MeasureUnit(job, u, done).Ok?
    ensures Renewed(job, before + [u], resumed, MeasureUnit(job, u, done).value)
  {
    var next, all := MeasureUnit(job, u, done).value, before + [u];
    forall k | k in job.plan.missing
      ensures k in next <==> k in resumed || exists j :: 0 <= j < |all| && InBatch(all[j].batch, k)
    {
      assert all[|before|] == u && forall j :: 0 <= j < |before| ==> all[j] == before[j];
      if SomeWanted(job, u, done) {
        MembersMeasured(job, u.batch.members, u, done, k);
      } else if InBatch(u.batch, k) {
        assert !Wanted(job, done, Key(k.name, u.batch.repeat));
      }
      assert k in next <==> k in done || InBatch(u.batch, k);
    }
  }

  lemma UnitIff(job: Job, before: seq<Unit>, u: Unit, after: seq<Unit>, resumed: Replacement, done: Replacement)
    requires GoodJob(job) && Renewed(job, before, resumed, done)
    ensures MeasureUnit(job, u, done).Ok? <==> UnitAccepted(job, before + [u] + after, resumed, |before|)
  {
    var all := before + [u] + after;
    assert all[|before|] == u && forall j :: 0 <= j < |before| ==> all[j] == before[j];
    MeasuringAccepts(job, u.batch.members, u, done);
    forall n
      ensures Open(job, all, resumed, |before|, Key(n, u.batch.repeat)) <==> Wanted(job, done, Key(n, u.batch.repeat))
    {
      var k := Key(n, u.batch.repeat);
      assert forall j :: 0 <= j < |before| ==>
        (InBatch(before[j].batch, k) <==> k.name in before[j].batch.members && k.repeat == before[j].batch.repeat);
    }
  }

  lemma {:induction false} UnitsFrom(job: Job, before: seq<Unit>, rest: seq<Unit>, resumed: Replacement,
                                     done: Replacement)
    requires GoodJob(job) && Renewed(job, before, resumed, done)
    ensures MeasureAll(job, rest, done).Ok? <==>
      forall i :: |before| <= i < |before + rest| ==> UnitAccepted(job, before + rest, resumed, i)
    decreases rest
  {
    if rest != [] {
      assert before + [rest[0]] + rest[1..] == before + rest;
      UnitIff(job, before, rest[0], rest[1..], resumed, done);
      var r := MeasureUnit(job, rest[0], done);
      if r.Ok? {
        RenewedNext(job, before, rest[0], resumed, done);
        UnitsFrom(job, before + [rest[0]], rest[1..], resumed, r.value);
      } else {
        assert !UnitAccepted(job, before + rest, resumed, |before|);
      }
    }
  }

  /** The measurements are accepted exactly when those of each unit are. */
  lemma MeasureAccepts(job: Job, units: seq<Unit>, resumed: Replacement)
    requires GoodJob(job)
    ensures MeasureAll(job, units, resumed).Ok? <==>
      forall i :: 0 <= i < |units| ==> UnitAccepted(job, units, resumed, i)
  {
    assert [] + units == units;
    UnitsFrom(job, [], units, resumed, resumed);
  }
}

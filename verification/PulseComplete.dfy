/** The measuring loops and the merge of `complete` in qualification/release/pulse_completion.py, and what
    a whole completion keeps. */
module PulseComplete {
  import opened Basics
  import opened PulseRecords
  import opened PulseMerge
  import opened PulseResume
  import opened PulseBatches

  /** Measuring again a batch or a single pair: the records that the runner returns for it. */
  datatype Unit = Unit(batch: Batch, single: bool, measured: seq<Record>)

  function ByName(s: seq<Record>, name: string): seq<Record> {
    if s == [] then [] else (if s[0].name == name then [s[0]] else []) + ByName(s[1..], name)
  }

  lemma {:induction false} SelectByName(s: seq<Record>, name: string, repeat: int)
    ensures Select(ByName(s, name), name, repeat) == Select(s, name, repeat)
  {
    if s != [] {
      SelectByName(s[1..], name, repeat);
      assert ByName(s, name) == if s[0].name == name then [s[0]] + ByName(s[1..], name) else ByName(s[1..], name);
      assert s[0].name == name ==> ByName(s, name)[1..] == ByName(s[1..], name);
    }
  }

  predicate Wanted(job: Job, done: Replacement, k: Key) {
    k in job.plan.missing && k !in done
  }

  /** The members of a batch that are wanted are replaced; the records of the others are only kept as
      context. */
  function MeasureMembers(job: Job, names: seq<string>, u: Unit, done: Replacement): Result<Replacement>
    requires GoodJob(job)
  {
    if names == [] then Ok(done)
    else
      var k := Key(names[0], u.batch.repeat);
      if !Wanted(job, done, k) then MeasureMembers(job, names[1..], u, done)
      else
        var r := ReplacementPair(k.name, k.repeat, job.plan.missing[k],
                                 ByName(u.measured, k.name), job.plan.fixed[k.name]);
        if r.Refused? then Refused(r.refusal) else MeasureMembers(job, names[1..], u, done[k := r.value])
  }

  predicate SomeWanted(job: Job, u: Unit, done: Replacement) {
    exists n :: n in u.batch.members && Wanted(job, done, Key(n, u.batch.repeat))
  }

  /** One unit. A batch none of whose pairs is wanted any more is not measured. */
  function MeasureUnit(job: Job, u: Unit, done: Replacement): Result<Replacement>
    requires GoodJob(job)
  {
    if !SomeWanted(job, u, done) then Ok(done)
    else if !u.single && |u.measured| != 2 * |u.batch.members| then Refused(CountChanged)
    else MeasureMembers(job, u.batch.members, u, done)
  }

  function MeasureAll(job: Job, units: seq<Unit>, done: Replacement): Result<Replacement>
    requires GoodJob(job)
  {
    if units == [] then Ok(done)
    else
      var r := MeasureUnit(job, units[0], done);
      if r.Refused? then r else MeasureAll(job, units[1..], r.value)
  }

  /** The loops over batches and individual pairs, and the check behind them. */
  method Measure(job: Job, units: seq<Unit>, resumed: Replacement) returns (r: Result<Replacement>)
    requires GoodJob(job)
    ensures var m := MeasureAll(job, units, resumed);
      r == if m.Ok? && m.value.Keys != job.plan.missing.Keys then Refused(NotReturned) else m
  {
    var done := resumed;
    ghost var goal := MeasureAll(job, units, resumed);
    for i := 0 to |units|
      invariant goal == MeasureAll(job, units[i..], done)
    {
      var u := units[i];
      assert units[i..][0] == u && units[i..][1..] == units[i + 1..];
      if SomeWanted(job, u, done) {
        if !u.single && |u.measured| != 2 * |u.batch.members| {
          return Refused(CountChanged);
        }
        r := MeasureOne(job, u, done);
        if r.Refused? {
          return;
        }
        done := r.value;
      }
    }
    if done.Keys != job.plan.missing.Keys {
      return Refused(NotReturned);
    }
    return Ok(done);
  }

  method MeasureOne(job: Job, u: Unit, start: Replacement) returns (r: Result<Replacement>)
    requires GoodJob(job)
    ensures r == MeasureMembers(job, u.batch.members, u, start)
  {
    var done := start;
    var names := u.batch.members;
    for j := 0 to |names|
      invariant MeasureMembers(job, names, u, start) == MeasureMembers(job, names[j..], u, done)
    {
      assert names[j..][0] == names[j] && names[j..][1..] == names[j + 1..];
      var k := Key(names[j], u.batch.repeat);
      if Wanted(job, done, k) {
        var pair := ReplacementPair(k.name, k.repeat, job.plan.missing[k],
                                    ByName(u.measured, k.name), job.plan.fixed[k.name]);
        if pair.Refused? {
          return Refused(pair.refusal);
        }
        done := done[k := pair.value];
      }
    }
    return Ok(done);
  }

  // ----- Each pair once -----

  /** What one unit does to what is known of a key. */
  lemma {:induction false} MembersMeasured(job: Job, names: seq<string>, u: Unit, done: Replacement, k: Key)
    requires GoodJob(job) && MeasureMembers(job, names, u, done).Ok?
    ensures Got(MeasureMembers(job, names, u, done).value, k)
         == if Wanted(job, done, k) && k.name in names && k.repeat == u.batch.repeat
            then Some(Select(u.measured, k.name, k.repeat)) else Got(done, k)
  {
    if names != [] {
      var q := Key(names[0], u.batch.repeat);
      if Wanted(job, done, q) {
        MemberMeasured(job, q, u, done);
        MembersMeasured(job, names[1..], u, done[q := Select(u.measured, q.name, q.repeat)], k);
      } else {
        MembersMeasured(job, names[1..], u, done, k);
      }
    }
  }

  lemma MemberMeasured(job: Job, q: Key, u: Unit, done: Replacement)
    requires GoodJob(job) && Wanted(job, done, q)
    ensures var r := ReplacementPair(q.name, q.repeat, job.plan.missing[q],
                                   ByName(u.measured, q.name), job.plan.fixed[q.name]);
      r.Ok? ==> r.value == Select(u.measured, q.name, q.repeat)
  {
    SelectByName(u.measured, q.name, q.repeat);
  }

  /** The records of the first unit that measures the key. */
  function FirstMeasured(units: seq<Unit>, k: Key): Option<seq<Record>> {
    if units == [] then None
    else if InBatch(units[0].batch, k) then Some(Select(units[0].measured, k.name, k.repeat))
    else FirstMeasured(units[1..], k)
  }

  lemma {:induction false} AllMeasured(job: Job, units: seq<Unit>, done: Replacement, k: Key)
    requires GoodJob(job) && MeasureAll(job, units, done).Ok?
    ensures Got(MeasureAll(job, units, done).value, k)
         == if Wanted(job, done, k) then FirstMeasured(units, k) else Got(done, k)
  {
    if units != [] {
      var u := units[0];
      if SomeWanted(job, u, done) {
        MembersMeasured(job, u.batch.members, u, done, k);
      }
      AllMeasured(job, units[1..], MeasureUnit(job, u, done).value, k);
    }
  }

  /** The units measure every missing pair. */
  ghost predicate Covers(job: Job, units: seq<Unit>) {
    forall k :: k in job.plan.missing ==> exists i :: 0 <= i < |units| && InBatch(units[i].batch, k)
  }

  lemma {:induction false} CoveredIsMeasured(units: seq<Unit>, k: Key)
    ensures FirstMeasured(units, k).Some? <==> exists i :: 0 <= i < |units| && InBatch(units[i].batch, k)
  {
    if units != [] {
      CoveredIsMeasured(units[1..], k);
      assert forall i :: 1 <= i < |units| ==> units[i] == units[1..][i - 1];
    }
  }

  /** The units of a frozen plan: its batches, then its individual pairs. */
  ghost predicate UnitsOf(parts: Parts, units: seq<Unit>) {
    && (forall b :: b in parts.batches ==> exists i :: 0 <= i < |units| && units[i].batch == b)
    && (forall k :: k in parts.individual ==>
         exists i :: 0 <= i < |units| && units[i].batch == Batch([k.name], k.repeat))
  }

  lemma PartitionCovers(job: Job, parts: Parts, units: seq<Unit>)
    requires Partition(job.plan.missing, parts) && UnitsOf(parts, units)
    ensures Covers(job, units)
  {
    forall k | k in job.plan.missing
      ensures exists i :: 0 <= i < |units| && InBatch(units[i].batch, k)
    {
      if k in parts.individual {
        var i :| 0 <= i < |units| && units[i].batch == Batch([k.name], k.repeat);
        assert InBatch(units[i].batch, k);
      } else {
        var j :| 0 <= j < |parts.batches| && InBatch(parts.batches[j], k);
        assert parts.batches[j] in parts.batches;
        var i :| 0 <= i < |units| && units[i].batch == parts.batches[j];
      }
    }
  }

  /** Over resuming and measuring: every missing pair is replaced exactly once, by its first clean
      observation in the journals or, if there is none, by its new measurement. */
  lemma EveryPairOnce(job: Job, stages: seq<Stage>, units: seq<Unit>, k: Key)
    requires GoodJob(job) && Covers(job, units) && ResumeStages(job, stages, map[]).Ok?
    requires MeasureAll(job, units, ResumeStages(job, stages, map[]).value).Ok?
    ensures var all := MeasureAll(job, units, ResumeStages(job, stages, map[]).value).value;
      && (k in all <==> k in job.plan.missing)
      && (k in all ==>
            Some(all[k]) == if FirstClean(stages, k).Some? then FirstClean(stages, k) else FirstMeasured(units, k))
  {
    FirstCleanWins(job, stages, k);
    AllMeasured(job, units, ResumeStages(job, stages, map[]).value, k);
    CoveredIsMeasured(units, k);
  }

  // ----- Every replacement is clean -----

  ghost predicate CleanFor(job: Job, k: Key, pair: seq<Record>) {
    && k in job.plan.missing && k.name in job.plan.fixed
    && CleanReplacement(k.name, k.repeat, job.plan.missing[k], pair, job.plan.fixed[k.name])
  }

  ghost predicate AllClean(job: Job, done: Replacement) {
    forall k :: k in done ==> CleanFor(job, k, done[k])
  }

  lemma AcceptedIsClean(job: Job, k: Key, measured: seq<Record>)
    requires GoodJob(job) && k in job.plan.missing
    requires ReplacementPair(k.name, k.repeat, job.plan.missing[k], measured, job.plan.fixed[k.name]).Ok?
    ensures CleanFor(job, k, ReplacementPair(k.name, k.repeat, job.plan.missing[k],
                                             measured, job.plan.fixed[k.name]).value)
  {
    ReplacementExact(k.name, k.repeat, job.plan.missing[k], measured, job.plan.fixed[k.name]);
  }

  lemma MemberClean(job: Job, name: string, stage: Stage, done: Replacement)
    requires GoodJob(job) && AllClean(job, done) && ResumeMember(job, name, stage, done).Ok?
    ensures AllClean(job, ResumeMember(job, name, stage, done).value)
  {
    var k := Key(name, stage.repeat);
    var pair := Select(stage.records, name, stage.repeat);
    SelectAgain(stage.records, name, stage.repeat);
    if Wanted(job, done, k) && AllValid(pair) {
      AcceptedIsClean(job, k, pair);
      ReplacementExact(k.name, k.repeat, job.plan.missing[k], pair, job.plan.fixed[k.name]);
    }
  }

  lemma {:induction false} ResumedMembersClean(job: Job, names: seq<string>, stage: Stage, done: Replacement)
    requires GoodJob(job) && AllClean(job, done) && ResumeMembers(job, names, stage, done).Ok?
    ensures AllClean(job, ResumeMembers(job, names, stage, done).value)
  {
    if names != [] {
      MemberClean(job, names[0], stage, done);
      ResumedMembersClean(job, names[1..], stage, ResumeMember(job, names[0], stage, done).value);
    }
  }

  lemma {:induction false} ResumedClean(job: Job, stages: seq<Stage>, done: Replacement)
    requires GoodJob(job) && AllClean(job, done) && ResumeStages(job, stages, done).Ok?
    ensures AllClean(job, ResumeStages(job, stages, done).value)
  {
    if stages != [] {
      if stages[0].members != PREFLIGHT {
        ResumedMembersClean(job, stages[0].members, stages[0], done);
      }
      ResumedClean(job, stages[1..], ResumeStage(job, stages[0], done).value);
    }
  }

  lemma {:induction false} MeasuredMembersClean(job: Job, names: seq<string>, u: Unit, done: Replacement)
    requires GoodJob(job) && AllClean(job, done) && MeasureMembers(job, names, u, done).Ok?
    ensures AllClean(job, MeasureMembers(job, names, u, done).value)
  {
    if names != [] {
      var k := Key(names[0], u.batch.repeat);
      if Wanted(job, done, k) {
        var measured := ByName(u.measured, k.name);
        AcceptedIsClean(job, k, measured);
        var pair := ReplacementPair(k.name, k.repeat, job.plan.missing[k], measured, job.plan.fixed[k.name]).value;
        MeasuredMembersClean(job, names[1..], u, done[k := pair]);
      } else {
        MeasuredMembersClean(job, names[1..], u, done);
      }
    }
  }

  lemma {:induction false} MeasuredClean(job: Job, units: seq<Unit>, done: Replacement)
    requires GoodJob(job) && AllClean(job, done) && MeasureAll(job, units, done).Ok?
    ensures AllClean(job, MeasureAll(job, units, done).value)
  {
    if units != [] {
      if SomeWanted(job, units[0], done) {
        MeasuredMembersClean(job, units[0].batch.members, units[0], done);
      }
      MeasuredClean(job, units[1..], MeasureUnit(job, units[0], done).value);
    }
  }

  // ----- The whole completion -----

  /** The replacements of one case: `relevant`. */
  function Relevant(all: Replacement, name: string): map<int, seq<Record>> {
    map k | k in all && k.name == name :: k.repeat := all[k]
  }

  lemma RelevantAre(raw: Raw, count: nat, job: Job, all: Replacement, name: string)
    requires Frozen(raw, count, job.plan) && name in raw.names && all.Keys == job.plan.missing.Keys
    requires AllClean(job, all)
    ensures Replacements(name, raw.rows[name], count, job.plan.fixed[name], Relevant(all, name))
  {
    var relevant := Relevant(all, name);
    forall r
      ensures r in relevant <==> r in Bad(raw.rows[name].records, count)
      ensures r in relevant ==>
        CleanReplacement(name, r, ByRepeat(raw.rows[name].records, r), relevant[r], job.plan.fixed[name])
    {
      var k := Key(name, r);
      assert k in job.plan.missing <==> r in Bad(raw.rows[name].records, count);
      assert k in all <==> r in relevant;
      if k in all {
        assert CleanFor(job, k, all[k]);
      }
    }
  }

  /** The merged case: no refusal, two records for each repeat, one of each variant and all valid; the
      records of the repeats that were valid stay as they are and in order. */
  ghost predicate Conserved(s: seq<Record>, count: nat, relevant: map<int, seq<Record>>) {
    var m := Merged(s, relevant, {});
    && Inserted(s, relevant) == relevant.Keys && |m| == 2 * count && PairGrid(m, count) && Bad(m, count) == {}
    && (forall r :: ByRepeat(m, r) == if r in relevant then relevant[r] else ByRepeat(s, r))
    && Others(m, relevant.Keys) == Others(s, relevant.Keys) && FirstSeen(m, {}) == FirstSeen(s, {})
  }

  lemma CaseConserved(raw: Raw, count: nat, job: Job, all: Replacement, name: string)
    requires Frozen(raw, count, job.plan) && name in raw.names && all.Keys == job.plan.missing.Keys
    requires AllClean(job, all)
    requires WholeRepeats(raw.rows[name], count)
    ensures Conserved(raw.rows[name].records, count, Relevant(all, name))
  {
    RelevantAre(raw, count, job, all, name);
    RowIsGood(raw, count, job.plan, name);
    MergeConserves(name, raw.rows[name], raw.phase, count, job.plan.fixed[name], Relevant(all, name));
  }

  lemma RowIsGood(raw: Raw, count: nat, plan: Plan, name: string)
    requires Frozen(raw, count, plan) && name in raw.names
    ensures GoodRow(name, raw.rows[name], raw.phase, count)
  {
  }

  /** No missing pair is left out, and every replacement is clean: the refusal behind the loops cannot
      fire. */
  lemma AllReturned(job: Job, parts: Parts, stages: seq<Stage>, units: seq<Unit>)
    requires GoodJob(job) && Partition(job.plan.missing, parts) && UnitsOf(parts, units)
    requires ResumeStages(job, stages, map[]).Ok? && MeasureAll(job, units, ResumeStages(job, stages, map[]).value).Ok?
    ensures var all := MeasureAll(job, units, ResumeStages(job, stages, map[]).value).value;
      all.Keys == job.plan.missing.Keys && AllClean(job, all)
  {
    var resumed := ResumeStages(job, stages, map[]).value;
    ResumedClean(job, stages, map[]);
    MeasuredClean(job, units, resumed);
    PartitionCovers(job, parts, units);
    forall k
      ensures k in MeasureAll(job, units, resumed).value <==> k in job.plan.missing
    {
      EveryPairOnce(job, stages, units, k);
    }
  }

  /** Of every completion whose journals and measurements are accepted: each case whose unclean records
      have whole repeat numbers keeps its evidence. */
  lemma CompletionConserves(raw: Raw, count: nat, job: Job, parts: Parts, stages: seq<Stage>, units: seq<Unit>,
                            name: string)
    requires Frozen(raw, count, job.plan) && Partition(job.plan.missing, parts) && UnitsOf(parts, units)
    requires ResumeStages(job, stages, map[]).Ok? && MeasureAll(job, units, ResumeStages(job, stages, map[]).value).Ok?
    requires name in raw.names && WholeRepeats(raw.rows[name], count)
    ensures Conserved(raw.rows[name].records, count,
                      Relevant(MeasureAll(job, units, ResumeStages(job, stages, map[]).value).value, name))
  {
    FrozenIsGood(raw, count, job);
    AllReturned(job, parts, stages, units);
    CaseConserved(raw, count, job, MeasureAll(job, units, ResumeStages(job, stages, map[]).value).value, name);
  }
}

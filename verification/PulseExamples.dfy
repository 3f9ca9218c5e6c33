/** Inputs on which two refusals of qualification/release/pulse_completion.py fire that look like internal
    errors: the last ones of the merge and of `move_batches`. */
module PulseExamples {
  import opened Basics
  import opened Decimals
  import opened PulseRecords
  import opened PulseBatches
  import opened PulseMerge

  // ----- A case of any number of pairs -----

  /** The pair of repeat `r`; that of repeat 0 is not clean, and with `odd` its repeat is a value, such as a
      string, that `int()` accepts and that is equal to no number. */
  function PairOf(name: string, prefix: string, odd: bool, r: nat): (p: seq<Record>)
    ensures |p| == 2
  {
    var x := Record(name, "single-cpu", if odd && r == 0 then Odd(r) else Whole(r), BASELINE, 0, 1, 1, true, true,
                    r != 0, "s", [0], LogOf(prefix, "baseline.log"));
    [x, x.(variant := CANDIDATE, log := LogOf(prefix, "candidate.log"))]
  }

  function LogOf(prefix: string, t: string): string {
    prefix + "-moon-" + t
  }

  function Grid(name: string, prefix: string, odd: bool, count: nat): (s: seq<Record>)
    ensures |s| == 2 * count
  {
    if count == 0 then [] else Grid(name, prefix, odd, count - 1) + PairOf(name, prefix, odd, count - 1)
  }

  function RowOf(name: string, prefix: string, odd: bool, count: nat): Row {
    Row(BeforeSlash(name), "single-cpu", Grid(name, prefix, odd, count), count - 1)
  }

  lemma {:induction false} GridAt(name: string, prefix: string, odd: bool, count: nat, r: int)
    ensures ByRepeat(Grid(name, prefix, odd, count), r) == if 0 <= r < count then PairOf(name, prefix, odd, r) else []
  {
    if count > 0 {
      GridAt(name, prefix, odd, count - 1, r);
      var pair := PairOf(name, prefix, odd, count - 1);
      ByRepeatJoin(Grid(name, prefix, odd, count - 1), pair, r);
      PairByRepeat(pair, count - 1, r);
    }
  }

  /** Every record belongs to the pair of some repeat. */
  lemma {:induction false} GridRecord(name: string, prefix: string, odd: bool, count: nat, x: Record)
    requires x in Grid(name, prefix, odd, count)
    ensures 0 <= x.repeat.n < count && x in PairOf(name, prefix, odd, x.repeat.n)
  {
    if x !in PairOf(name, prefix, odd, count - 1) {
      GridRecord(name, prefix, odd, count - 1, x);
    }
  }

  lemma GridFields(name: string, prefix: string, odd: bool, count: nat, i: nat)
    requires i < 2 * count
    ensures var x := Grid(name, prefix, odd, count)[i];
      && x.name == name && x.category == "single-cpu" && x.stackPhase == 0
      && x.iterations == x.duration == 1 && x.fixedWork && x.derived
      && (x.repeat.n == 0 ==> x.repeat == if odd then Odd(0) else Whole(0))
  {
    GridRecord(name, prefix, odd, count, Grid(name, prefix, odd, count)[i]);
  }

  lemma PairIsBoth(name: string, prefix: string, odd: bool, r: nat)
    ensures BothVariants(PairOf(name, prefix, odd, r)) && (AllValid(PairOf(name, prefix, odd, r)) <==> r != 0)
  {
    assert PairOf(name, prefix, odd, r)[0].valid == (r != 0);
  }

  lemma GridIsPaired(name: string, prefix: string, odd: bool, count: nat)
    requires count >= 1
    ensures PairGrid(Grid(name, prefix, odd, count), count) && Bad(Grid(name, prefix, odd, count), count) == {0}
  {
    var s := Grid(name, prefix, odd, count);
    forall r
      ensures if 0 <= r < count then BothVariants(ByRepeat(s, r)) else ByRepeat(s, r) == []
      ensures 0 <= r < count ==> (AllValid(ByRepeat(s, r)) <==> r != 0)
    {
      GridAt(name, prefix, odd, count, r);
      if 0 <= r < count {
        PairIsBoth(name, prefix, odd, r);
      }
    }
  }

  /** `freeze_missing` accepts the case and finds the pair of repeat 0 missing. */
  lemma RowIsGood(name: string, prefix: string, odd: bool, count: nat)
    requires count >= 1
    ensures var row := RowOf(name, prefix, odd, count);
      && GoodRow(name, row, Still, count) && Bad(row.records, count) == {0}
      && ByRepeat(row.records, 0) == PairOf(name, prefix, odd, 0)
  {
    var s := Grid(name, prefix, odd, count);
    GridAt(name, prefix, odd, count, 0);
    GridIsPaired(name, prefix, odd, count);
    forall i | 0 <= i < |s|
      ensures s[i].name == name && s[i].category == "single-cpu" && s[i].stackPhase == 0
      ensures s[i].iterations == s[i].duration == 1 && s[i].fixedWork && s[i].derived
    {
      GridFields(name, prefix, odd, count, i);
    }
    GoodByParts(name, RowOf(name, prefix, odd, count), count);
  }

  lemma GoodByParts(name: string, row: Row, count: nat)
    requires count >= 1 && |row.records| == 2 * count && row.validPairs == count - 1
    requires forall i :: 0 <= i < |row.records| ==>
      row.records[i].name == name && row.records[i].category == row.category
    requires forall i :: 0 <= i < |row.records| ==> row.records[i].stackPhase == 0
    requires forall i :: 0 <= i < |row.records| ==>
      row.records[i].iterations == row.records[i].duration == 1 && row.records[i].fixedWork && row.records[i].derived
    requires PairGrid(row.records, count) && Bad(row.records, count) == {0}
    ensures GoodRow(name, row, Still, count)
  {
  }

  /** One stack phase for every repeat. */
  function Still(r: int): int {
    0
  }

  lemma {:induction false} NoneAt(s: seq<Record>, r: int)
    requires forall i :: 0 <= i < |s| ==> s[i].repeat != Whole(r)
    ensures AtRepeat(s, r) == []
  {
    if s != [] {
      NoneAt(s[1..], r);
    }
  }

  lemma {:induction false} NoneOdd(s: seq<Record>, r: int)
    requires forall i :: 0 <= i < |s| ==> s[i].repeat != Odd(r)
    ensures OddAt(s, r) == []
  {
    if s != [] {
      NoneOdd(s[1..], r);
    }
  }

  lemma GridAtZero(name: string, prefix: string, odd: bool, count: nat)
    requires count >= 1
    ensures AtRepeat(Grid(name, prefix, odd, count), 0) == if odd then [] else PairOf(name, prefix, odd, 0)
  {
    var s := Grid(name, prefix, odd, count);
    forall i | 0 <= i < |s|
      ensures s[i].repeat.n == 0 ==> s[i].repeat == if odd then Odd(0) else Whole(0)
    {
      GridFields(name, prefix, odd, count, i);
    }
    if odd {
      NoneAt(s, 0);
    } else {
      NoneOdd(s, 0);
      SplitByRepeat(s, 0);
      GridAt(name, prefix, odd, count, 0);
    }
  }

  // ----- The refusal of the merge -----

  function CleanPair(name: string, prefix: string): (p: seq<Record>)
    ensures |p| == 2
  {
    var pair := PairOf(name, prefix, false, 0);
    [pair[0].(valid := true), pair[1].(valid := true)]
  }

  lemma CleanPairReplaces(name: string, prefix: string)
    ensures CleanReplacement(name, 0, PairOf(name, prefix, true, 0), CleanPair(name, prefix), (1, 1))
  {
  }

  /** For every number of pairs: a case that `freeze_missing` accepts, with clean replacements, whose merge is
      refused because the original repeat disappeared. */
  lemma DisappearedReachable(name: string, prefix: string, count: nat)
    returns (row: Row, relevant: map<int, seq<Record>>)
    requires count >= 1
    ensures GoodRow(name, row, Still, count) && Replacements(name, row, count, (1, 1), relevant)
    ensures Inserted(row.records, relevant) != relevant.Keys
  {
    row := RowOf(name, prefix, true, count);
    RowIsGood(name, prefix, true, count);
    GridAtZero(name, prefix, true, count);
    relevant := map[0 := CleanPair(name, prefix)];
    CleanPairReplaces(name, prefix);
    assert 0 in relevant && 0 in relevant.Keys;
    InsertedIff(row.records, relevant, 0);
  }

  // ----- The last refusal of the partition -----

  lemma {:induction false} CutAtSystem(p: string, t: string)
    requires 'n' !in p
    ensures Cut(p + "-moon-" + t) == p
  {
    var s := p + "-moon-" + t;
    if p == "" {
      assert "-moon-" <= s;
    } else {
      assert s[1..] == p[1..] + "-moon-" + t;
      assert s[4] != 'n';
      CutAtSystem(p[1..], t);
    }
  }

  lemma LogIsBatched(prefix: string, t: string)
    requires 'n' !in prefix && Contains(prefix, "-batch-")
    ensures Contains(LogOf(prefix, t), "-batch-") && Cut(LogOf(prefix, t)) == prefix
  {
    CutAtSystem(prefix, t);
    ContainsLonger(prefix, LogOf(prefix, t), "-batch-");
  }

  lemma PairIsBatched(name: string, prefix: string, odd: bool)
    requires "move/" <= name && 'n' !in prefix && Contains(prefix, "-batch-")
    ensures Batched(name, PairOf(name, prefix, odd, 0)) && OnePrefix(PairOf(name, prefix, odd, 0), prefix)
  {
    LogIsBatched(prefix, "baseline.log");
    LogIsBatched(prefix, "candidate.log");
    BatchedByLogs(name, PairOf(name, prefix, odd, 0), prefix);
  }

  lemma BatchedByLogs(name: string, pair: seq<Record>, prefix: string)
    requires "move/" <= name && |pair| == 2
    requires Contains(pair[0].log, "-batch-") && Contains(pair[1].log, "-batch-")
    requires Cut(pair[0].log) == prefix && Cut(pair[1].log) == prefix
    ensures Batched(name, pair) && OnePrefix(pair, prefix)
  {
  }

  /** Two cases measured in one batch; repeat 0 of the second carries values equal to no number. */
  function TwoCases(a: string, b: string, prefix: string, count: nat): Raw {
    Raw([a, b], map[a := RowOf(a, prefix, false, count), b := RowOf(b, prefix, true, count)], Still)
  }

  function TwoMissing(a: string, b: string, prefix: string): Plan {
    Plan(map[Key(a, 0) := PairOf(a, prefix, false, 0), Key(b, 0) := PairOf(b, prefix, true, 0)],
         map[a := (1, 1), b := (1, 1)])
  }

  lemma FirstRecord(name: string, prefix: string, odd: bool, count: nat)
    requires count >= 1
    ensures var x := Grid(name, prefix, odd, count)[0]; x.iterations == x.duration == 1
  {
    GridFields(name, prefix, odd, count, 0);
  }

  /** Two cases in each of which repeat 0 alone is missing. */
  lemma TwoPlanned(raw: Raw, count: nat, a: string, b: string, p: seq<Record>, q: seq<Record>)
    requires raw.names == [a, b] && a != b && a in raw.rows && b in raw.rows
    requires Bad(raw.rows[a].records, count) == {0} && Bad(raw.rows[b].records, count) == {0}
    requires ByRepeat(raw.rows[a].records, 0) == p && ByRepeat(raw.rows[b].records, 0) == q
    ensures IsMissing(raw, [a, b], count, map[Key(a, 0) := p, Key(b, 0) := q])
  {
    var missing := map[Key(a, 0) := p, Key(b, 0) := q];
    forall k: Key
      ensures k in missing <==> k.name in [a, b] && k.repeat in Bad(raw.rows[k.name].records, count)
      ensures k in missing ==> missing[k] == ByRepeat(raw.rows[k.name].records, k.repeat)
    {
      if k.name == a || k.name == b {
        assert k.repeat in Bad(raw.rows[k.name].records, count) <==> k.repeat == 0;
      }
    }
  }

  lemma TwoFrozen(raw: Raw, count: nat, a: string, b: string, p: seq<Record>, q: seq<Record>)
    requires raw.names == [a, b] && a != b && raw.rows.Keys == {a, b}
    requires GoodRow(a, raw.rows[a], raw.phase, count) && GoodRow(b, raw.rows[b], raw.phase, count)
    requires IsMissing(raw, [a, b], count, map[Key(a, 0) := p, Key(b, 0) := q])
    requires forall n :: n in raw.names ==>
      raw.rows[n].records != [] && raw.rows[n].records[0].iterations == raw.rows[n].records[0].duration == 1
    ensures Frozen(raw, count, Plan(map[Key(a, 0) := p, Key(b, 0) := q], map[a := (1, 1), b := (1, 1)]))
  {
  }

  lemma TwoCasesFrozen(a: string, b: string, prefix: string, count: nat)
    requires count >= 1 && a != b
    ensures Frozen(TwoCases(a, b, prefix, count), count, TwoMissing(a, b, prefix))
  {
    var raw, p, q := TwoCases(a, b, prefix, count), PairOf(a, prefix, false, 0), PairOf(b, prefix, true, 0);
    RowIsGood(a, prefix, false, count);
    RowIsGood(b, prefix, true, count);
    FirstRecord(a, prefix, false, count);
    FirstRecord(b, prefix, true, count);
    TwoPlanned(raw, count, a, b, p, q);
    TwoFrozen(raw, count, a, b, p, q);
  }

  lemma MembersOfTwo(raw: Raw, g: Group, a: string, b: string)
    requires raw.names == [a, b] && a in raw.rows && b in raw.rows && IsMember(raw, g, a) && !IsMember(raw, g, b)
    ensures Members(raw, g, raw.names) == [a]
  {
    assert raw.names[1..] == [b] && [b][1..] == [];
    assert Members(raw, g, [b]) == [] + Members(raw, g, []);
  }

  lemma MemberByPair(raw: Raw, g: Group, name: string, pair: seq<Record>)
    requires name in raw.rows && raw.rows[name].program == "move" && raw.rows[name].category == g.category
    requires AtRepeat(raw.rows[name].records, g.repeat) == pair && |pair| == 2 && OnePrefix(pair, g.prefix)
    ensures IsMember(raw, g, name)
  {
    assert pair[0] in pair && Cut(pair[0].log) == g.prefix;
  }

  lemma NoMember(raw: Raw, g: Group, name: string)
    requires name in raw.rows && AtRepeat(raw.rows[name].records, g.repeat) == []
    ensures !IsMember(raw, g, name)
  {
  }

  /** A group of one case. */
  lemma GoodOfOne(raw: Raw, digest: seq<string> -> string, g: Group, name: string, pair: seq<Record>)
    requires Cases(raw) && Members(raw, g, raw.names) == [name] && name in raw.rows && g.category == "single-cpu"
    requires AtRepeat(raw.rows[name].records, g.repeat) == pair && |pair| == 2 && OnePrefix(pair, g.prefix)
    requires g.prefix == BatchPrefix(digest, [AfterSlash(name)])
    ensures GoodGroup(raw, digest, g)
  {
    assert CaseNames([name]) == [AfterSlash(name)];
    assert OneOrder(raw, g, [name]);
    assert GroupRefusal(raw, digest, g, [name]).None?;
  }

  /** Of two cases only the first has records at the repeat, and they are those of its batch. */
  lemma GroupOfTwo(raw: Raw, digest: seq<string> -> string, g: Group, a: string, b: string, pair: seq<Record>)
    requires Cases(raw) && raw.names == [a, b] && a in raw.rows && b in raw.rows && g.category == "single-cpu"
    requires raw.rows[a].program == "move" && raw.rows[a].category == g.category
    requires AtRepeat(raw.rows[a].records, g.repeat) == pair && |pair| == 2 && OnePrefix(pair, g.prefix)
    requires AtRepeat(raw.rows[b].records, g.repeat) == [] && g.prefix == BatchPrefix(digest, [AfterSlash(a)])
    ensures GoodGroup(raw, digest, g)
  {
    MemberByPair(raw, g, a, pair);
    NoMember(raw, g, b);
    MembersOfTwo(raw, g, a, b);
    GoodOfOne(raw, digest, g, a, pair);
  }

  /** What the group of both pairs finds at repeat 0. */
  lemma TwoAtZero(a: string, b: string, prefix: string, count: nat)
    requires count >= 1 && a != b && BeforeSlash(a) == "move"
    ensures var raw := TwoCases(a, b, prefix, count);
      && Cases(raw) && raw.names == [a, b] && a in raw.rows && b in raw.rows
      && raw.rows[a].program == "move" && raw.rows[a].category == "single-cpu"
      && AtRepeat(raw.rows[a].records, 0) == PairOf(a, prefix, false, 0) && AtRepeat(raw.rows[b].records, 0) == []
  {
    GridAtZero(a, prefix, false, count);
    GridAtZero(b, prefix, true, count);
  }

  /** The group of both pairs has the first case as its one member. */
  lemma OneGroup(a: string, b: string, prefix: string, count: nat, digest: seq<string> -> string)
    requires count >= 1 && a != b && "move/" <= a && BeforeSlash(a) == "move"
    requires 'n' !in prefix && Contains(prefix, "-batch-") && prefix == BatchPrefix(digest, [AfterSlash(a)])
    ensures var raw := TwoCases(a, b, prefix, count);
      Cases(raw) && GoodGroup(raw, digest, Group("single-cpu", prefix, 0))
  {
    var raw, g := TwoCases(a, b, prefix, count), Group("single-cpu", prefix, 0);
    TwoAtZero(a, b, prefix, count);
    PairIsBatched(a, prefix, false);
    GroupOfTwo(raw, digest, g, a, b, PairOf(a, prefix, false, 0));
  }

  lemma TwoRecovered(raw: Raw, digest: seq<string> -> string, missing: Missing, a: string, b: string, g: Group)
    requires Cases(raw) && missing.Keys == {Key(a, 0), Key(b, 0)} && a in raw.rows && b in raw.rows
    requires |missing[Key(a, 0)]| == 2 && OnePrefix(missing[Key(a, 0)], g.prefix)
    requires |missing[Key(b, 0)]| == 2 && OnePrefix(missing[Key(b, 0)], g.prefix)
    requires raw.rows[a].category == raw.rows[b].category == g.category && g.repeat == 0 && GoodGroup(raw, digest, g)
    ensures (forall k :: k in missing ==> k.name in raw.rows && |missing[k]| == 2) && Recoverable(raw, digest, missing)
  {
    forall k | k in missing
      ensures k.name in raw.rows && |missing[k]| == 2 && Recovered(raw, digest, missing, k)
    {
      assert k == Key(a, 0) || k == Key(b, 0);
      assert GroupOf(raw, missing, k) == g;
    }
  }

  lemma SecondUnplaceable(a: string, b: string, prefix: string, count: nat)
    requires count >= 1 && a != b && BeforeSlash(a) == "move"
    requires Batched(b, PairOf(b, prefix, true, 0))
    ensures !AllPlaceable(TwoCases(a, b, prefix, count), TwoMissing(a, b, prefix).missing)
  {
    TwoAtZero(a, b, prefix, count);
    assert Unplaceable(TwoCases(a, b, prefix, count), TwoMissing(a, b, prefix).missing, Key(b, 0));
  }

  /** For every number of pairs, any two Move cases and the batch of the first alone: a plan that
      `freeze_missing` makes, in which the batch of every pair is recovered, and which is no partition. */
  lemma TwoCasesUnplaceable(a: string, b: string, prefix: string, count: nat, digest: seq<string> -> string)
    requires count >= 1 && a != b && "move/" <= a && "move/" <= b && BeforeSlash(a) == "move"
    requires 'n' !in prefix && Contains(prefix, "-batch-") && prefix == BatchPrefix(digest, [AfterSlash(a)])
    ensures var raw, missing := TwoCases(a, b, prefix, count), TwoMissing(a, b, prefix).missing;
      && Cases(raw) && (forall k :: k in missing ==> k.name in raw.rows && |missing[k]| == 2)
      && Recoverable(raw, digest, missing) && !AllPlaceable(raw, missing)
  {
    var raw, missing := TwoCases(a, b, prefix, count), TwoMissing(a, b, prefix).missing;
    OneGroup(a, b, prefix, count, digest);
    PairIsBatched(a, prefix, false);
    PairIsBatched(b, prefix, true);
    TwoRecovered(raw, digest, missing, a, b, Group("single-cpu", prefix, 0));
    SecondUnplaceable(a, b, prefix, count);
  }

  lemma MoveNames()
    ensures BeforeSlash("move/a") == BeforeSlash("move/b") == "move" && AfterSlash("move/a") == "a"
  {
  }

  lemma TwoNamesMatch(prefix: string, count: nat)
    ensures NamesMatch(TwoCases("move/a", "move/b", prefix, count))
  {
  }

  lemma BatchOfA(digest: seq<string> -> string)
    requires 'n' !in digest(["a"])
    ensures 'n' !in BatchPrefix(digest, ["a"])
  {
    assert Decimal(1) == "1";
    assert BatchPrefix(digest, ["a"]) == "move-batch-a-1-" + digest(["a"]);
  }

  /** Such a plan, with the batch of the one case `a` (`move-batch-a-1-ca978112` by its SHA-256): by its
      contract `move_batches` refuses it at the very end. A hexadecimal digest has no `n`. */
  method NoPartitionReached(digest: seq<string> -> string, count: nat) returns (raw: Raw, plan: Plan, r: Result<Parts>)
    requires count >= 1 && 'n' !in digest(["a"])
    ensures Frozen(raw, count, plan) && NamesMatch(raw) && r == Refused(NotAPartition)
  {
    var batch := BatchPrefix(digest, ["a"]);
    BatchOfA(digest);
    BatchLog(digest, ["a"]);
    MoveNames();
    TwoNamesMatch(batch, count);
    TwoCasesFrozen("move/a", "move/b", batch, count);
    TwoCasesUnplaceable("move/a", "move/b", batch, count, digest);
    raw, plan := TwoCases("move/a", "move/b", batch, count), TwoMissing("move/a", "move/b", batch);
    r := MoveBatches(raw, digest, count, plan);
  }
}

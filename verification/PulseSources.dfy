/** `freeze_missing` of qualification/release/pulse_completion.py told of the raw records: what each of its refusals
    means, and which records it freezes. */
module PulseSources {
  import opened Basics
  import opened PulseRecords

  /** The records `a` and `b`, in this order, are all that there are of the repeat. */
  ghost predicate PairOf(s: seq<Record>, r: int, a: nat, b: nat) {
    a < b < |s| && forall i :: 0 <= i < |s| ==> (s[i].repeat.n == r <==> i == a || i == b)
  }

  ghost predicate BaselineAndCandidate(s: seq<Record>, r: int) {
    exists a: nat, b: nat :: PairOf(s, r, a, b) &&
      ((s[a].variant == "moon-baseline" && s[b].variant == "moon-candidate")
       || (s[a].variant == "moon-candidate" && s[b].variant == "moon-baseline"))
  }

  ghost predicate Unclean(s: seq<Record>, r: int) {
    exists i :: 0 <= i < |s| && s[i].repeat.n == r && !s[i].valid
  }

  /** What each refusal of a case means. */
  ghost predicate Faulty(name: string, row: Row, phase: int -> int, count: nat, e: Refusal) {
    var s := row.records;
    match e
    case RecordCount => |s| != 2 * count
    case Foreign => exists i :: 0 <= i < |s| && (s[i].name != name || s[i].category != row.category)
    case Grid =>
      || (exists i :: 0 <= i < |s| && !(0 <= s[i].repeat.n < count))
      || exists r :: 0 <= r < count && !BaselineAndCandidate(s, r)
    case StackPhase => exists i :: 0 <= i < |s| && s[i].stackPhase != phase(s[i].repeat.n)
    case Work =>
      || |s| == 0
      || (exists i :: 0 <= i < |s| && (!s[i].fixedWork || !s[i].derived))
      || exists i, j :: 0 <= i < |s| && 0 <= j < |s|
                        && (s[i].iterations != s[j].iterations || s[i].duration != s[j].duration)
    case ValidityDisagrees => row.validPairs != count - |set r | 0 <= r < count && Unclean(s, r)|
    case _ => false
  }

  lemma {:induction false} ByRepeatKeeps(s: seq<Record>, r: int)
    ensures ByRepeat(s, r) == Keep(s, (x: Record) => x.repeat.n == r)
    ensures forall x :: x in ByRepeat(s, r) <==> x in s && x.repeat.n == r
  {
    if s != [] {
      ByRepeatKeeps(s[1..], r);
      assert s == [s[0]] + s[1..];
    }
  }

  lemma ByRepeatTwo(s: seq<Record>, r: int)
    ensures forall a: nat, b: nat :: PairOf(s, r, a, b) ==> ByRepeat(s, r) == [s[a], s[b]]
    ensures |ByRepeat(s, r)| == 2 ==> exists a: nat, b: nat :: PairOf(s, r, a, b)
  {
    var p := (x: Record) => x.repeat.n == r;
    ByRepeatKeeps(s, r);
    KeepTwo(s, p);
    forall a: nat, b: nat
      ensures PairOf(s, r, a, b) <==> OnlyTwo(s, p, a, b)
    {
    }
  }

  lemma VariantsIff(s: seq<Record>, r: int)
    ensures BothVariants(ByRepeat(s, r)) <==> BaselineAndCandidate(s, r)
  {
    ByRepeatTwo(s, r);
    var p := ByRepeat(s, r);
    if BothVariants(p) {
      assert BASELINE in {p[0].variant, p[1].variant} && CANDIDATE in {p[0].variant, p[1].variant};
    }
  }

  lemma UncleanIff(s: seq<Record>, r: int)
    ensures AllValid(ByRepeat(s, r)) <==> !Unclean(s, r)
  {
    ByRepeatKeeps(s, r);
    var p := ByRepeat(s, r);
    if i :| 0 <= i < |s| && s[i].repeat.n == r && !s[i].valid {
      assert s[i] in p;
    }
    if i :| 0 <= i < |p| && !p[i].valid {
      assert p[i] in p;
      var j :| 0 <= j < |s| && s[j] == p[i];
      assert s[j].repeat.n == r;
    }
  }

  lemma NoneOf(s: seq<Record>, r: int)
    ensures ByRepeat(s, r) == [] <==> forall i :: 0 <= i < |s| ==> s[i].repeat.n != r
  {
    ByRepeatKeeps(s, r);
    KeepNone(s, (x: Record) => x.repeat.n == r);
  }

  lemma GridFault(name: string, row: Row, phase: int -> int, count: nat)
    ensures PairGrid(row.records, count) <==> !Faulty(name, row, phase, count, Grid)
  {
    var s := row.records;
    forall r
      ensures BothVariants(ByRepeat(s, r)) <==> BaselineAndCandidate(s, r)
    {
      VariantsIff(s, r);
    }
    forall r
      ensures ByRepeat(s, r) == [] <==> forall i :: 0 <= i < |s| ==> s[i].repeat.n != r
    {
      NoneOf(s, r);
    }
    if PairGrid(s, count) {
      forall i | 0 <= i < |s|
        ensures 0 <= s[i].repeat.n < count
      {
        assert ByRepeat(s, s[i].repeat.n) != [];
      }
    }
  }

  lemma BadIs(s: seq<Record>, count: nat)
    ensures Bad(s, count) == set r | 0 <= r < count && Unclean(s, r)
  {
    forall r
      ensures AllValid(ByRepeat(s, r)) <==> !Unclean(s, r)
    {
      UncleanIff(s, r);
    }
  }

  lemma WorkFault(name: string, row: Row, phase: int -> int, count: nat)
    ensures row.records == [] || !SameWork(row.records) <==> Faulty(name, row, phase, count, Work)
  {
  }

  lemma PhaseFault(name: string, row: Row, phase: int -> int, count: nat)
    ensures !StackPhases(row.records, phase) <==> Faulty(name, row, phase, count, StackPhase)
  {
  }

  /** The first of six answers that is yes. */
  function FirstOf(faults: seq<bool>): Option<Refusal>
    requires |faults| == 6
  {
    if faults[0] then Some(RecordCount)
    else if faults[1] then Some(Foreign)
    else if faults[2] then Some(Grid)
    else if faults[3] then Some(StackPhase)
    else if faults[4] then Some(Work)
    else if faults[5] then Some(ValidityDisagrees)
    else None
  }

  ghost function Faults(name: string, row: Row, phase: int -> int, count: nat): (b: seq<bool>)
    ensures |b| == 6
  {
    [Faulty(name, row, phase, count, RecordCount), Faulty(name, row, phase, count, Foreign),
     Faulty(name, row, phase, count, Grid), Faulty(name, row, phase, count, StackPhase),
     Faulty(name, row, phase, count, Work), Faulty(name, row, phase, count, ValidityDisagrees)]
  }

  /** A case is refused with the first fault that it has, and passes if it has none. */
  lemma RowFaults(name: string, row: Row, phase: int -> int, count: nat)
    ensures RowRefusal(name, row, phase, count) == FirstOf(Faults(name, row, phase, count))
  {
    GridFault(name, row, phase, count);
    PhaseFault(name, row, phase, count);
    WorkFault(name, row, phase, count);
    BadIs(row.records, count);
  }

  /** An accepted source freezes exactly the pairs of which some record is not valid, each as its two records. */
  lemma FrozenPairs(raw: Raw, count: nat, plan: Plan, k: Key)
    requires Frozen(raw, count, plan)
    ensures k in plan.missing <==>
      k.name in raw.names && 0 <= k.repeat < count && Unclean(raw.rows[k.name].records, k.repeat)
    ensures k in plan.missing ==>
      var s := raw.rows[k.name].records;
      exists a: nat, b: nat :: PairOf(s, k.repeat, a, b) && plan.missing[k] == [s[a], s[b]]
  {
    if k.name in raw.names {
      var s := raw.rows[k.name].records;
      BadIs(s, count);
      ByRepeatTwo(s, k.repeat);
      assert GoodRow(k.name, raw.rows[k.name], raw.phase, count);
    }
  }
}

/** The measurement records of qualification/release/pulse_completion.py and `freeze_missing`, which
    finds the pairs to measure again. */
module PulseRecords {
  import opened Basics

  const BASELINE := "moon-baseline"
  const CANDIDATE := "moon-candidate"

  /** A repeat number as it stands in the JSON file: a number equal to `n`, or another value (such as a
      string or a fraction) that `int()` makes `n` and that is equal to no integer. */
  datatype Repeat = Whole(n: int) | Odd(n: int)

  /** `name` is `program + "/" + case`; `valid` is `derived.valid`. */
  datatype Record = Record(
    name: string, category: string, repeat: Repeat, variant: string, stackPhase: int, iterations: int,
    duration: int, fixedWork: bool, derived: bool, valid: bool, sha: string, affinity: seq<int>, log: string)

  datatype Row = Row(program: string, category: string, records: seq<Record>, validPairs: int)

  /** The cases in their order; `phase` is the stack phase fixed for a repeat. */
  datatype Raw = Raw(names: seq<string>, rows: map<string, Row>, phase: int -> int)

  datatype Key = Key(name: string, repeat: int)

  datatype Refusal =
    | RecordCount | Foreign | Grid | StackPhase | Work | ValidityDisagrees | NothingMissing
    | MixedProcesses | UnsupportedBatch | BatchNotRecovered | BatchName | BatchMember | BatchOrder | NotAPartition
    | ReplacesValid | NotOnePair | VariantOrder | DirtyOrChanged | ExecutableDiffers | AffinityDiffers | PhaseDiffers
    | ContextChanged | IncompleteRecords | IncompletePair | CategoryDiffers | Untrusted | CountChanged
    | NotReturned | Disappeared

  datatype Result<T> = Ok(value: T) | Refused(refusal: Refusal)

  /** The records of repeat `r` by `int()`. */
  function ByRepeat(s: seq<Record>, r: int): (p: seq<Record>)
    ensures |p| <= |s|
  {
    if s == [] then []
    else (if s[0].repeat.n == r then [s[0]] else []) + ByRepeat(s[1..], r)
  }

  /** The records whose repeat is equal to `r`. */
  function AtRepeat(s: seq<Record>, r: int): (p: seq<Record>)
    ensures |p| <= |s|
  {
    if s == [] then []
    else (if s[0].repeat == Whole(r) then [s[0]] else []) + AtRepeat(s[1..], r)
  }

  predicate AllValid(p: seq<Record>) {
    forall i :: 0 <= i < |p| ==> p[i].valid
  }

  /** One record of each variant. */
  predicate BothVariants(p: seq<Record>) {
    |p| == 2 && {p[0].variant, p[1].variant} == {BASELINE, CANDIDATE}
  }

  /** Exactly the repeats below `count`, each with one record of each variant. */
  ghost predicate PairGrid(s: seq<Record>, count: nat) {
    forall r :: if 0 <= r < count then BothVariants(ByRepeat(s, r)) else ByRepeat(s, r) == []
  }

  /** The repeats whose pair is not clean. */
  function Bad(s: seq<Record>, count: nat): set<int> {
    set r | 0 <= r < count && !AllValid(ByRepeat(s, r))
  }

  predicate SameWork(s: seq<Record>) {
    forall i :: 0 <= i < |s| ==>
      s[i].iterations == s[0].iterations && s[i].duration == s[0].duration && s[i].fixedWork && s[i].derived
  }

  /** The first check of `freeze_missing` that a row fails. */
  ghost function RowRefusal(name: string, row: Row, phase: int -> int, count: nat): Option<Refusal> {
    var s := row.records;
    if |s| != 2 * count then Some(RecordCount)
    else if exists i :: 0 <= i < |s| && (s[i].name != name || s[i].category != row.category) then Some(Foreign)
    else if !PairGrid(s, count) then Some(Grid)
    else if !StackPhases(s, phase) then Some(StackPhase)
    else if s == [] || !SameWork(s) then Some(Work)
    else if row.validPairs != count - |Bad(s, count)| then Some(ValidityDisagrees)
    else None
  }

  /** The unclean pairs of a row. */
  function RowMissing(name: string, row: Row, count: nat): map<Key, seq<Record>> {
    map r | r in Bad(row.records, count) :: Key(name, r) := ByRepeat(row.records, r)
  }

  /** A row that `freeze_missing` accepts. */
  ghost predicate GoodRow(name: string, row: Row, phase: int -> int, count: nat) {
    RowRefusal(name, row, phase, count).None?
  }

  function Range(n: nat): (r: set<int>)
    ensures forall q :: q in r <==> 0 <= q < n
  {
    if n == 0 then {} else Range(n - 1) + {n - 1}
  }

  ghost predicate TabledAt(s: seq<Record>, table: map<int, seq<Record>>, q: int) {
    (q in table <==> ByRepeat(s, q) != []) && (q in table ==> table[q] == ByRepeat(s, q))
  }

  /** The dictionary `by_repeat`. */
  ghost predicate Tabled(s: seq<Record>, table: map<int, seq<Record>>) {
    forall q :: TabledAt(s, table, q)
  }

  /** Files a record under its repeat. */
  method Append(ghost s: seq<Record>, table: map<int, seq<Record>>, x: Record) returns (table': map<int, seq<Record>>)
    requires Tabled(s, table)
    ensures Tabled(s + [x], table')
  {
    var q := x.repeat.n;
    assert TabledAt(s, table, q);
    table' := table[q := (if q in table then table[q] else []) + [x]];
    forall p
      ensures TabledAt(s + [x], table', p)
    {
      assert TabledAt(s, table, p);
      ByRepeatSnoc(s, x, p);
    }
  }

  predicate GridTable(table: map<int, seq<Record>>, count: nat) {
    table.Keys == Range(count) && forall q :: q in table ==> BothVariants(table[q])
  }

  lemma GridByTable(s: seq<Record>, table: map<int, seq<Record>>, count: nat)
    requires Tabled(s, table)
    ensures PairGrid(s, count) <==> GridTable(table, count)
  {
    if PairGrid(s, count) {
      forall q
        ensures q in table <==> 0 <= q < count
        ensures q in table ==> BothVariants(table[q])
      {
        assert TabledAt(s, table, q);
      }
    } else if table.Keys == Range(count) {
      var r :| !(if 0 <= r < count then BothVariants(ByRepeat(s, r)) else ByRepeat(s, r) == []);
      assert TabledAt(s, table, r);
      assert r in table.Keys <==> r in Range(count);
    }
  }

  function BadInTable(table: map<int, seq<Record>>): set<int> {
    set q | q in table && !AllValid(table[q])
  }

  function MissingInTable(name: string, table: map<int, seq<Record>>): map<Key, seq<Record>> {
    map q | q in BadInTable(table) :: Key(name, q) := table[q]
  }

  lemma BadByTable(name: string, row: Row, table: map<int, seq<Record>>, count: nat)
    requires Tabled(row.records, table) && PairGrid(row.records, count)
    ensures BadInTable(table) == Bad(row.records, count)
    ensures MissingInTable(name, table) == RowMissing(name, row, count)
  {
    forall q
      ensures q in table ==> table[q] == ByRepeat(row.records, q) && 0 <= q < count
      ensures 0 <= q < count ==> q in table
    {
      assert TabledAt(row.records, table, q);
    }
  }

  predicate StackPhases(s: seq<Record>, phase: int -> int) {
    forall i :: 0 <= i < |s| ==> s[i].stackPhase == phase(s[i].repeat.n)
  }

  /** The records by repeat, or nothing if one belongs to another case or category. */
  method TableOf(name: string, category: string, s: seq<Record>) returns (table: map<int, seq<Record>>, foreign: bool)
    ensures foreign <==> exists i :: 0 <= i < |s| && (s[i].name != name || s[i].category != category)
    ensures !foreign ==> Tabled(s, table)
  {
    table := map[];
    for i := 0 to |s|
      invariant forall k :: 0 <= k < i ==> s[k].name == name && s[k].category == category
      invariant Tabled(s[..i], table)
    {
      if s[i].name != name || s[i].category != category {
        return map[], true;
      }
      assert s[..i + 1] == s[..i] + [s[i]];
      table := Append(s[..i], table, s[i]);
    }
    assert s[..|s|] == s;
    foreign := false;
  }

  /** What `freeze_missing` does with one case. */
  method FreezeRow(name: string, row: Row, phase: int -> int, count: nat) returns (r: Result<map<Key, seq<Record>>>)
    ensures var e := RowRefusal(name, row, phase, count);
      r == if e.None? then Ok(RowMissing(name, row, count)) else Refused(e.value)
  {
    var s := row.records;
    if |s| != 2 * count {
      return Refused(RecordCount);
    }
    var byRepeat, foreign := TableOf(name, row.category, s);
    if foreign {
      return Refused(Foreign);
    }
    GridByTable(s, byRepeat, count);
    if !GridTable(byRepeat, count) {
      return Refused(Grid);
    }
    if !StackPhases(s, phase) {
      return Refused(StackPhase);
    }
    if s == [] || !SameWork(s) {
      return Refused(Work);
    }
    BadByTable(name, row, byRepeat, count);
    if row.validPairs != count - |BadInTable(byRepeat)| {
      return Refused(ValidityDisagrees);
    }
    return Ok(MissingInTable(name, byRepeat));
  }

  lemma {:induction false} ByRepeatSnoc(s: seq<Record>, x: Record, r: int)
    ensures ByRepeat(s + [x], r) == ByRepeat(s, r) + (if x.repeat.n == r then [x] else [])
  {
    if s == [] {
      assert s + [x] == [x];
      assert [x][1..] == [];
    } else {
      assert (s + [x])[1..] == s[1..] + [x];
      ByRepeatSnoc(s[1..], x, r);
    }
  }

  // ----- All cases -----

  /** The cases of a source are a dictionary in order. */
  ghost predicate Cases(raw: Raw) {
    && (forall i, j :: 0 <= i < j < |raw.names| ==> raw.names[i] != raw.names[j])
    && (forall n :: n in raw.rows <==> n in raw.names)
  }

  /** What is to be measured again, and the fixed work of each case: iterations and duration. */
  datatype Plan = Plan(missing: map<Key, seq<Record>>, fixed: map<string, (int, int)>)

  /** Exactly the unclean pairs of the cases named. */
  ghost predicate IsMissing(raw: Raw, names: seq<string>, count: nat, missing: map<Key, seq<Record>>)
    requires forall n :: n in names ==> n in raw.rows
  {
    forall k ::
      && (k in missing <==> k.name in names && k.repeat in Bad(raw.rows[k.name].records, count))
      && (k in missing ==> missing[k] == ByRepeat(raw.rows[k.name].records, k.repeat))
  }

  ghost predicate IsFixed(raw: Raw, names: seq<string>, fixed: map<string, (int, int)>)
    requires forall n :: n in names ==> n in raw.rows
  {
    && (forall n :: n in fixed <==> n in names)
    && forall n :: n in names ==>
         raw.rows[n].records != [] && fixed[n] == (raw.rows[n].records[0].iterations, raw.rows[n].records[0].duration)
  }

  ghost predicate AllGood(raw: Raw, names: seq<string>, count: nat)
    requires forall n :: n in names ==> n in raw.rows
  {
    forall n :: n in names ==> GoodRow(n, raw.rows[n], raw.phase, count)
  }

  /** What `freeze_missing` promises of an accepted source. */
  ghost predicate Frozen(raw: Raw, count: nat, plan: Plan) {
    && Cases(raw) && AllGood(raw, raw.names, count)
    && IsMissing(raw, raw.names, count, plan.missing) && IsFixed(raw, raw.names, plan.fixed)
  }

  lemma MissingGrows(raw: Raw, names: seq<string>, count: nat, missing: map<Key, seq<Record>>, name: string)
    requires Cases(raw) && (forall n :: n in names + [name] ==> n in raw.rows) && name !in names
    requires IsMissing(raw, names, count, missing)
    ensures IsMissing(raw, names + [name], count, missing + RowMissing(name, raw.rows[name], count))
  {
    var row := RowMissing(name, raw.rows[name], count);
    forall k
      ensures k in missing + row <==> k.name in names + [name] && k.repeat in Bad(raw.rows[k.name].records, count)
      ensures k in missing + row ==> (missing + row)[k] == ByRepeat(raw.rows[k.name].records, k.repeat)
    {
      assert k in row <==> k.name == name && k.repeat in Bad(raw.rows[name].records, count) by {
        if k.name == name && k.repeat in Bad(raw.rows[name].records, count) {
          assert Key(name, k.repeat) in row;
        }
      }
    }
  }

  /** `freeze_missing`: a source is accepted exactly when every case passes and some pair is unclean; the
      plan then has exactly the unclean pairs, each with both its records. */
  method FreezeMissing(raw: Raw, count: nat) returns (r: Result<Plan>)
    requires Cases(raw)
    ensures r.Ok? <==>
      AllGood(raw, raw.names, count) && exists n :: n in raw.names && Bad(raw.rows[n].records, count) != {}
    ensures r.Ok? ==> Frozen(raw, count, r.value)
    ensures r.Refused? && !AllGood(raw, raw.names, count) ==>
      exists i :: 0 <= i < |raw.names| && AllGood(raw, raw.names[..i], count)
        && RowRefusal(raw.names[i], raw.rows[raw.names[i]], raw.phase, count) == Some(r.refusal)
    ensures r.Refused? && AllGood(raw, raw.names, count) ==> r.refusal == NothingMissing
  {
    var missing, fixed := map[], map[];
    for i := 0 to |raw.names|
      invariant AllGood(raw, raw.names[..i], count)
      invariant IsMissing(raw, raw.names[..i], count, missing) && IsFixed(raw, raw.names[..i], fixed)
    {
      var name := raw.names[i];
      assert raw.names[..i + 1] == raw.names[..i] + [name];
      var row := FreezeRow(name, raw.rows[name], raw.phase, count);
      if row.Refused? {
        assert name in raw.names && !GoodRow(name, raw.rows[name], raw.phase, count);
        return Refused(row.refusal);
      }
      MissingGrows(raw, raw.names[..i], count, missing, name);
      missing := missing + row.value;
      fixed := fixed[name := (raw.rows[name].records[0].iterations, raw.rows[name].records[0].duration)];
    }
    assert raw.names[..|raw.names|] == raw.names;
    assert forall n, q :: n in raw.names && q in Bad(raw.rows[n].records, count) ==> Key(n, q) in missing;
    if missing == map[] {
      return Refused(NothingMissing);
    }
    var k :| k in missing;
    assert k.name in raw.names && Bad(raw.rows[k.name].records, count) != {};
    return Ok(Plan(missing, fixed));
  }
}

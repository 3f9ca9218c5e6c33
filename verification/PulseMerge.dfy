/** Replacing unclean pairs in qualification/release/pulse_completion.py: what `replacement_pair` accepts,
    the merge at the end of `complete`, and what the merge keeps. */
module PulseMerge {
  import opened Basics
  import opened PulseRecords

  // ----- Accepting a replacement -----

  /** The measured records of one case and repeat. */
  function Select(s: seq<Record>, name: string, repeat: int): (p: seq<Record>)
    ensures forall i :: 0 <= i < |p| ==> p[i].name == name && p[i].repeat == Whole(repeat)
  {
    if s == [] then []
    else (if s[0].name == name && s[0].repeat == Whole(repeat) then [s[0]] else []) + Select(s[1..], name, repeat)
  }

  /** `old_hashes`: the executable of a variant; the last record counts. */
  predicate SameExecutable(x: Record, old': seq<Record>) {
    exists i :: 0 <= i < |old'| && old'[i].variant == x.variant && old'[i].sha == x.sha
      && forall j :: i < j < |old'| ==> old'[j].variant != x.variant
  }

  /** `replacement_pair`. */
  function ReplacementPair(name: string, repeat: int, old': seq<Record>, measured: seq<Record>,
                           fixed: (int, int)): Result<seq<Record>>
  {
    if |old'| != 2 || AllValid(old') then Refused(ReplacesValid)
    else
      var pair := Select(measured, name, repeat);
      if !BothVariants(pair) then Refused(NotOnePair)
      else if pair[0].variant != old'[0].variant || pair[1].variant != old'[1].variant then Refused(VariantOrder)
      else if exists i :: 0 <= i < 2 && (!pair[i].valid || !pair[i].fixedWork
                                         || pair[i].iterations != fixed.0 || pair[i].duration != fixed.1) then
        Refused(DirtyOrChanged)
      else if !SameExecutable(pair[0], old') || !SameExecutable(pair[1], old') then Refused(ExecutableDiffers)
      else if pair[0].affinity != old'[0].affinity || pair[1].affinity != old'[1].affinity then Refused(AffinityDiffers)
      else if pair[0].stackPhase != old'[0].stackPhase || pair[1].stackPhase != old'[0].stackPhase then
        Refused(PhaseDiffers)
      else Ok(pair)
  }

  /** `pair` measures again what `old'` measured, cleanly: the same case, repeat, variants in order, fixed
      work, executables, processors and stack phase. */
  predicate CleanReplacement(name: string, repeat: int, old': seq<Record>, pair: seq<Record>, fixed: (int, int)) {
    && |old'| == 2 && |pair| == 2 && BothVariants(pair)
    && forall i :: 0 <= i < 2 ==>
      var x, o := pair[i], old'[i];
      && x.name == name && x.repeat == Whole(repeat) && x.variant == o.variant && x.valid && x.fixedWork
      && (x.iterations, x.duration) == fixed && x.sha == o.sha && x.affinity == o.affinity
      && x.stackPhase == old'[0].stackPhase
  }

  /** Of an unclean pair of both variants, `replacement_pair` accepts exactly the clean replacements. */
  lemma ReplacementExact(name: string, repeat: int, old': seq<Record>, measured: seq<Record>, fixed: (int, int))
    requires BothVariants(old') && !AllValid(old')
    ensures ReplacementPair(name, repeat, old', measured, fixed).Ok?
       <==> CleanReplacement(name, repeat, old', Select(measured, name, repeat), fixed)
    ensures ReplacementPair(name, repeat, old', measured, fixed).Ok? ==>
      ReplacementPair(name, repeat, old', measured, fixed).value == Select(measured, name, repeat)
  {
    var pair := Select(measured, name, repeat);
    if BothVariants(pair) && pair[0].variant == old'[0].variant && pair[1].variant == old'[1].variant {
      assert old'[0].variant != old'[1].variant;
      OwnExecutable(pair[0], old', 0);
      OwnExecutable(pair[1], old', 1);
    }
  }

  lemma OwnExecutable(x: Record, old': seq<Record>, i: nat)
    requires |old'| == 2 && old'[0].variant != old'[1].variant && i < 2 && x.variant == old'[i].variant
    ensures SameExecutable(x, old') <==> x.sha == old'[i].sha
  {
  }

  // ----- The merge -----

  predicate Replaced(x: Record, relevant: map<int, seq<Record>>) {
    x.repeat.Whole? && x.repeat.n in relevant
  }

  function Merged(s: seq<Record>, relevant: map<int, seq<Record>>, inserted: set<int>): seq<Record> {
    if s == [] then []
    else if !Replaced(s[0], relevant) then [s[0]] + Merged(s[1..], relevant, inserted)
    else if s[0].repeat.n in inserted then Merged(s[1..], relevant, inserted)
    else relevant[s[0].repeat.n] + Merged(s[1..], relevant, inserted + {s[0].repeat.n})
  }

  /** The repeats that the merge puts in. */
  function Inserted(s: seq<Record>, relevant: map<int, seq<Record>>): set<int> {
    set x | x in s && Replaced(x, relevant) :: x.repeat.n
  }

  datatype Fact = InRange | MakesGoal | Counted

  ghost predicate Known(f: Fact, goal: seq<Record>, s: seq<Record>, relevant: map<int, seq<Record>>, i: nat,
                        merged: seq<Record>, inserted: set<int>)
  {
    match f
    case InRange => i <= |s|
    case MakesGoal => i <= |s| ==> goal == merged + Merged(s[i..], relevant, inserted)
    case Counted => i <= |s| ==> inserted == Inserted(s[..i], relevant)
  }

  /** The merge so far and what the rest will add make the whole. */
  ghost predicate Underway(goal: seq<Record>, s: seq<Record>, relevant: map<int, seq<Record>>, i: nat,
                           merged: seq<Record>, inserted: set<int>)
  {
    forall f: Fact :: Known(f, goal, s, relevant, i, merged, inserted)
  }

  /** One turn of the merge. */
  lemma MergeStep(goal: seq<Record>, s: seq<Record>, relevant: map<int, seq<Record>>, i: nat, merged: seq<Record>,
                  inserted: set<int>)
    requires i < |s| && Underway(goal, s, relevant, i, merged, inserted)
    ensures !Replaced(s[i], relevant) ==> Underway(goal, s, relevant, i + 1, merged + [s[i]], inserted)
    ensures Replaced(s[i], relevant) && s[i].repeat.n in inserted ==>
      Underway(goal, s, relevant, i + 1, merged, inserted)
    ensures Replaced(s[i], relevant) && s[i].repeat.n !in inserted ==>
      Underway(goal, s, relevant, i + 1, merged + relevant[s[i].repeat.n], inserted + {s[i].repeat.n})
  {
    var x, rest := s[i], s[i + 1..];
    assert s[i..][0] == x && s[i..][1..] == rest && s[..i + 1] == s[..i] + [x];
    assert Known(MakesGoal, goal, s, relevant, i, merged, inserted);
    assert Known(Counted, goal, s, relevant, i, merged, inserted);
    InsertedSnoc(s[..i], x, relevant);
    if !Replaced(x, relevant) {
      Associate(merged, [x], Merged(rest, relevant, inserted));
    } else if x.repeat.n !in inserted {
      Associate(merged, relevant[x.repeat.n], Merged(rest, relevant, inserted + {x.repeat.n}));
    }
  }

  lemma MergeStart(s: seq<Record>, relevant: map<int, seq<Record>>)
    ensures Underway(Merged(s, relevant, {}), s, relevant, 0, [], {})
  {
    assert s[0..] == s && s[..0] == [];
  }

  lemma MergeEnd(goal: seq<Record>, s: seq<Record>, relevant: map<int, seq<Record>>, merged: seq<Record>,
                 inserted: set<int>)
    requires Underway(goal, s, relevant, |s|, merged, inserted)
    ensures merged == goal && inserted == Inserted(s, relevant)
  {
    assert s[|s|..] == [] && s[..|s|] == s;
    assert Known(MakesGoal, goal, s, relevant, |s|, merged, inserted);
    assert Known(Counted, goal, s, relevant, |s|, merged, inserted);
  }

  /** The merge loop of `complete` for one case. */
  method MergeCase(original: seq<Record>, relevant: map<int, seq<Record>>) returns (r: Result<seq<Record>>)
    ensures r == if Inserted(original, relevant) == relevant.Keys then Ok(Merged(original, relevant, {}))
                else Refused(Disappeared)
  {
    var merged: seq<Record>, inserted: set<int> := [], {};
    ghost var goal := Merged(original, relevant, {});
    MergeStart(original, relevant);
    for i := 0 to |original|
      invariant Underway(goal, original, relevant, i, merged, inserted)
    {
      MergeStep(goal, original, relevant, i, merged, inserted);
      var repeat := original[i].repeat;
      if !(repeat.Whole? && repeat.n in relevant) {
        merged := merged + [original[i]];
      } else if repeat.n !in inserted {
        merged := merged + relevant[repeat.n];
        inserted := inserted + {repeat.n};
      }
    }
    MergeEnd(goal, original, relevant, merged, inserted);
    if inserted != relevant.Keys {
      return Refused(Disappeared);
    }
    return Ok(merged);
  }

  lemma InsertedSnoc(s: seq<Record>, x: Record, relevant: map<int, seq<Record>>)
    ensures Inserted(s + [x], relevant) == Inserted(s, relevant) + (if Replaced(x, relevant) then {x.repeat.n} else {})
  {
    forall n | n in Inserted(s, relevant)
      ensures n in Inserted(s + [x], relevant)
    {
      var y :| y in s && Replaced(y, relevant) && y.repeat.n == n;
      assert y in s + [x];
    }
    assert x in s + [x];
  }

  // ----- What the merge keeps -----

  /** Each replacement is a pair of records of its repeat. */
  ghost predicate Pairs(relevant: map<int, seq<Record>>) {
    forall r :: r in relevant ==>
      |relevant[r]| == 2 && relevant[r][0].repeat == Whole(r) && relevant[r][1].repeat == Whole(r)
  }

  /** The records of repeat `r` that are not equal to it. */
  function OddAt(s: seq<Record>, r: int): seq<Record> {
    if s == [] then []
    else (if s[0].repeat == Odd(r) then [s[0]] else []) + OddAt(s[1..], r)
  }

  lemma {:induction false} ByRepeatJoin(a: seq<Record>, b: seq<Record>, r: int)
    ensures ByRepeat(a + b, r) == ByRepeat(a, r) + ByRepeat(b, r)
  {
    if a == [] {
      assert a + b == b;
    } else {
      assert (a + b)[1..] == a[1..] + b;
      ByRepeatJoin(a[1..], b, r);
      Associate(if a[0].repeat.n == r then [a[0]] else [], ByRepeat(a[1..], r), ByRepeat(b, r));
    }
  }

  lemma PairByRepeat(pair: seq<Record>, q: int, r: int)
    requires |pair| == 2 && pair[0].repeat.n == q && pair[1].repeat.n == q
    ensures ByRepeat(pair, r) == if q == r then pair else []
  {
    assert pair[1..][1..] == [];
    assert pair == [pair[0]] + [pair[1]];
  }

  lemma {:induction false} SplitByRepeat(s: seq<Record>, r: int)
    ensures |ByRepeat(s, r)| == |AtRepeat(s, r)| + |OddAt(s, r)|
    ensures OddAt(s, r) == [] ==> ByRepeat(s, r) == AtRepeat(s, r)
  {
    if s != [] {
      SplitByRepeat(s[1..], r);
    }
  }

  /** The records `m` that the merge gives repeat `r`. */
  predicate ByRepeatIs(s: seq<Record>, relevant: map<int, seq<Record>>, inserted: set<int>, r: int, m: seq<Record>) {
    if r !in relevant then m == ByRepeat(s, r)
    else
      && |m| == |OddAt(s, r)| + (if r in inserted || AtRepeat(s, r) == [] then 0 else 2)
      && (OddAt(s, r) == [] ==> m == if r in inserted || AtRepeat(s, r) == [] then [] else relevant[r])
  }

  /** A repeat that is not replaced keeps its records; a replaced one has its new pair where all its
      records are equal to the repeat, and otherwise keeps the others beside the new pair. */
  lemma {:induction false} MergedByRepeat(s: seq<Record>, relevant: map<int, seq<Record>>, inserted: set<int>, r: int)
    requires Pairs(relevant)
    ensures ByRepeatIs(s, relevant, inserted, r, ByRepeat(Merged(s, relevant, inserted), r))
    decreases |s|
  {
    if s != [] {
      var x := s[0];
      if !Replaced(x, relevant) {
        MergedByRepeat(s[1..], relevant, inserted, r);
        ByRepeatJoin([x], Merged(s[1..], relevant, inserted), r);
      } else if x.repeat.n in inserted {
        MergedByRepeat(s[1..], relevant, inserted, r);
      } else {
        var q := x.repeat.n;
        MergedByRepeat(s[1..], relevant, inserted + {q}, r);
        ByRepeatJoin(relevant[q], Merged(s[1..], relevant, inserted + {q}), r);
        PairByRepeat(relevant[q], q, r);
      }
    }
  }

  /** The repeats in the order in which they first occur. */
  function FirstSeen(s: seq<Record>, seen: set<int>): seq<int> {
    if s == [] then []
    else if s[0].repeat.n in seen then FirstSeen(s[1..], seen)
    else [s[0].repeat.n] + FirstSeen(s[1..], seen + {s[0].repeat.n})
  }

  lemma PairFirstSeen(pair: seq<Record>, rest: seq<Record>, q: int, seen: set<int>)
    requires |pair| == 2 && pair[0].repeat.n == q && pair[1].repeat.n == q
    ensures FirstSeen(pair + rest, seen) == if q in seen then FirstSeen(rest, seen)
      else [q] + FirstSeen(rest, seen + {q})
  {
    assert (pair + rest)[1..] == [pair[1]] + rest;
    assert ([pair[1]] + rest)[1..] == rest;
  }

  /** The merge keeps the order of the repeats. */
  lemma {:induction false} MergedOrder(s: seq<Record>, relevant: map<int, seq<Record>>, inserted: set<int>,
                                       seen: set<int>)
    requires Pairs(relevant) && inserted <= seen
    ensures FirstSeen(Merged(s, relevant, inserted), seen) == FirstSeen(s, seen)
    decreases |s|
  {
    if s != [] {
      var x := s[0];
      if !Replaced(x, relevant) {
        var rest := Merged(s[1..], relevant, inserted);
        assert ([x] + rest)[1..] == rest;
        MergedOrder(s[1..], relevant, inserted, if x.repeat.n in seen then seen else seen + {x.repeat.n});
      } else if x.repeat.n in inserted {
        MergedOrder(s[1..], relevant, inserted, seen);
      } else {
        var q := x.repeat.n;
        PairFirstSeen(relevant[q], Merged(s[1..], relevant, inserted + {q}), q, seen);
        if q in seen {
          assert inserted + {q} <= seen;
          MergedOrder(s[1..], relevant, inserted + {q}, seen);
        } else {
          MergedOrder(s[1..], relevant, inserted + {q}, seen + {q});
        }
      }
    }
  }

  /** The records of the repeats that are not replaced. */
  function Others(s: seq<Record>, repeats: set<int>): seq<Record> {
    if s == [] then []
    else (if s[0].repeat.n in repeats then [] else [s[0]]) + Others(s[1..], repeats)
  }

  lemma {:induction false} OthersJoin(a: seq<Record>, b: seq<Record>, repeats: set<int>)
    ensures Others(a + b, repeats) == Others(a, repeats) + Others(b, repeats)
  {
    if a == [] {
      assert a + b == b;
    } else {
      assert (a + b)[1..] == a[1..] + b;
      OthersJoin(a[1..], b, repeats);
    }
  }

  /** The other records stay as they are and in order. */
  lemma {:induction false} MergedOthers(s: seq<Record>, relevant: map<int, seq<Record>>, inserted: set<int>)
    requires Pairs(relevant)
    ensures Others(Merged(s, relevant, inserted), relevant.Keys) == Others(s, relevant.Keys)
    decreases |s|
  {
    if s != [] {
      var x := s[0];
      if !Replaced(x, relevant) {
        MergedOthers(s[1..], relevant, inserted);
        OthersJoin([x], Merged(s[1..], relevant, inserted), relevant.Keys);
      } else if x.repeat.n in inserted {
        MergedOthers(s[1..], relevant, inserted);
      } else {
        var q := x.repeat.n;
        MergedOthers(s[1..], relevant, inserted + {q});
        OthersJoin(relevant[q], Merged(s[1..], relevant, inserted + {q}), relevant.Keys);
        assert relevant[q][1..][1..] == [];
      }
    }
  }

  // ----- Counting -----

  function SumBelow(f: int -> nat, k: nat): nat {
    if k == 0 then 0 else SumBelow(f, k - 1) + f(k - 1)
  }

  lemma {:induction false} SumOneMore(f: int -> nat, g: int -> nat, k: nat, q: int)
    requires forall r :: f(r) == g(r) + (if r == q then 1 else 0)
    ensures SumBelow(f, k) == SumBelow(g, k) + (if 0 <= q < k then 1 else 0)
  {
    if k > 0 {
      SumOneMore(f, g, k - 1, q);
    }
  }

  lemma {:induction false} SumEqual(f: int -> nat, k: nat, n: nat)
    requires forall r :: 0 <= r < k ==> f(r) == n
    ensures SumBelow(f, k) == n * k
  {
    if k > 0 {
      SumEqual(f, k - 1, n);
    }
  }

  /** How many records each repeat has. */
  function Sizes(s: seq<Record>): int -> nat {
    r => |ByRepeat(s, r)|
  }

  lemma SizesCons(s: seq<Record>, r: int)
    requires s != []
    ensures Sizes(s)(r) == Sizes(s[1..])(r) + (if r == s[0].repeat.n then 1 else 0)
  {
  }

  lemma {:induction false} CountAll(s: seq<Record>, k: nat)
    requires forall i :: 0 <= i < |s| ==> 0 <= s[i].repeat.n < k
    ensures SumBelow(Sizes(s), k) == |s|
  {
    if s == [] {
      SumEqual(Sizes(s), k, 0);
    } else {
      forall r
        ensures Sizes(s)(r) == Sizes(s[1..])(r) + (if r == s[0].repeat.n then 1 else 0)
      {
        SizesCons(s, r);
      }
      SumOneMore(Sizes(s), Sizes(s[1..]), k, s[0].repeat.n);
      CountAll(s[1..], k);
    }
  }

  lemma {:induction false} RecordIsByRepeat(s: seq<Record>, i: nat)
    requires i < |s|
    ensures s[i] in ByRepeat(s, s[i].repeat.n)
  {
    if i > 0 {
      RecordIsByRepeat(s[1..], i - 1);
    }
  }

  /** A grid of pairs has two records for each repeat. */
  lemma GridCount(s: seq<Record>, count: nat)
    requires PairGrid(s, count)
    ensures |s| == 2 * count
  {
    forall i | 0 <= i < |s|
      ensures 0 <= s[i].repeat.n < count
    {
      RecordIsByRepeat(s, i);
    }
    CountAll(s, count);
    SumEqual(Sizes(s), count, 2);
  }

  // ----- Conservation -----

  /** The replacements of a case: a clean one for each of its unclean repeats. */
  ghost predicate Replacements(name: string, row: Row, count: nat, fixed: (int, int), relevant: map<int, seq<Record>>) {
    && relevant.Keys == Bad(row.records, count)
    && forall r :: r in relevant ==> CleanReplacement(name, r, ByRepeat(row.records, r), relevant[r], fixed)
  }

  /** Every record of an unclean repeat has a repeat equal to it. */
  ghost predicate WholeRepeats(row: Row, count: nat) {
    forall r :: r in Bad(row.records, count) ==> OddAt(row.records, r) == []
  }

  lemma ReplacementsArePairs(name: string, row: Row, count: nat, fixed: (int, int), relevant: map<int, seq<Record>>)
    requires Replacements(name, row, count, fixed, relevant)
    ensures Pairs(relevant)
  {
  }

  lemma {:induction false} InsertedIff(s: seq<Record>, relevant: map<int, seq<Record>>, r: int)
    ensures r in Inserted(s, relevant) <==> r in relevant && AtRepeat(s, r) != []
  {
    if s != [] {
      InsertedIff(s[1..], relevant, r);
      InsertedCons(s, relevant);
    } else {
      assert Inserted(s, relevant) == {};
    }
  }

  lemma InsertedCons(s: seq<Record>, relevant: map<int, seq<Record>>)
    requires s != []
    ensures Inserted(s, relevant) == (if Replaced(s[0], relevant) then {s[0].repeat.n} else {})
      + Inserted(s[1..], relevant)
  {
    forall n | n in Inserted(s[1..], relevant)
      ensures n in Inserted(s, relevant)
    {
      var y :| y in s[1..] && Replaced(y, relevant) && y.repeat.n == n;
      assert y in s;
    }
    forall n | n in Inserted(s, relevant)
      ensures n in (if Replaced(s[0], relevant) then {s[0].repeat.n} else {}) + Inserted(s[1..], relevant)
    {
      var y :| y in s && Replaced(y, relevant) && y.repeat.n == n;
      assert y == s[0] || y in s[1..];
    }
  }

  /** One repeat of the merged case. */
  lemma MergedRepeat(name: string, row: Row, phase: int -> int, count: nat, fixed: (int, int),
                     relevant: map<int, seq<Record>>, r: int)
    requires GoodRow(name, row, phase, count) && Replacements(name, row, count, fixed, relevant)
    requires WholeRepeats(row, count)
    ensures var m := ByRepeat(Merged(row.records, relevant, {}), r);
      && m == (if r in relevant then relevant[r] else ByRepeat(row.records, r))
      && (if 0 <= r < count then BothVariants(m) && AllValid(m) else m == [])
  {
    ReplacementsArePairs(name, row, count, fixed, relevant);
    MergedByRepeat(row.records, relevant, {}, r);
    SplitByRepeat(row.records, r);
  }

  /** The evidence is conserved: where the repeats are whole numbers, the merge is not refused, each valid
      repeat keeps its records, each unclean repeat has exactly its replacement, the case has two records
      for each repeat, one of each variant and all valid, the kept records and the repeats stay in order. */
  lemma MergeConserves(name: string, row: Row, phase: int -> int, count: nat, fixed: (int, int),
                       relevant: map<int, seq<Record>>)
    requires GoodRow(name, row, phase, count) && Replacements(name, row, count, fixed, relevant)
    requires WholeRepeats(row, count)
    ensures Inserted(row.records, relevant) == relevant.Keys
    ensures var m := Merged(row.records, relevant, {});
      && |m| == 2 * count && PairGrid(m, count) && Bad(m, count) == {}
      && (forall r :: ByRepeat(m, r) == if r in relevant then relevant[r] else ByRepeat(row.records, r))
      && Others(m, relevant.Keys) == Others(row.records, relevant.Keys)
      && FirstSeen(m, {}) == FirstSeen(row.records, {})
  {
    var m := Merged(row.records, relevant, {});
    ReplacementsArePairs(name, row, count, fixed, relevant);
    forall r
      ensures ByRepeat(m, r) == if r in relevant then relevant[r] else ByRepeat(row.records, r)
      ensures if 0 <= r < count then BothVariants(ByRepeat(m, r)) && AllValid(ByRepeat(m, r)) else ByRepeat(m, r) == []
    {
      MergedRepeat(name, row, phase, count, fixed, relevant, r);
    }
    GridCount(m, count);
    forall r | r in relevant
      ensures r in Inserted(row.records, relevant)
    {
      SplitByRepeat(row.records, r);
      InsertedIff(row.records, relevant, r);
    }
    MergedOthers(row.records, relevant, {});
    MergedOrder(row.records, relevant, {}, {});
  }

  /** A record of an unclean repeat that is not equal to it stays beside the new pair. */
  lemma OddStays(name: string, row: Row, count: nat, fixed: (int, int), relevant: map<int, seq<Record>>, r: int)
    requires Replacements(name, row, count, fixed, relevant) && r in Bad(row.records, count)
    requires OddAt(row.records, r) != []
    ensures r in Inserted(row.records, relevant) ==> |ByRepeat(Merged(row.records, relevant, {}), r)| > 2
    ensures Inserted(row.records, relevant) == relevant.Keys ==> !PairGrid(Merged(row.records, relevant, {}), count)
  {
    ReplacementsArePairs(name, row, count, fixed, relevant);
    MergedByRepeat(row.records, relevant, {}, r);
    InsertedIff(row.records, relevant, r);
    assert r in relevant.Keys;
  }

  /** The refusal of the merge: some unclean repeat has no record that is equal to it. */
  lemma RefusedIff(s: seq<Record>, relevant: map<int, seq<Record>>)
    ensures Inserted(s, relevant) == relevant.Keys <==> forall r :: r in relevant ==> AtRepeat(s, r) != []
  {
    forall r
      ensures r in Inserted(s, relevant) <==> r in relevant && AtRepeat(s, r) != []
    {
      InsertedIff(s, relevant, r);
    }
    if forall r :: r in relevant ==> AtRepeat(s, r) != [] {
      assert forall r :: r in relevant.Keys ==> r in Inserted(s, relevant);
      assert forall r :: r in Inserted(s, relevant) ==> r in relevant.Keys;
    } else {
      var r :| r in relevant && AtRepeat(s, r) == [];
      assert r in relevant.Keys && r !in Inserted(s, relevant);
    }
  }

  /** The condition is exact: the merge is accepted with two records for each repeat if and only if every
      record of an unclean repeat has a whole repeat number. */
  lemma MergeExact(name: string, row: Row, phase: int -> int, count: nat, fixed: (int, int),
                   relevant: map<int, seq<Record>>)
    requires GoodRow(name, row, phase, count) && Replacements(name, row, count, fixed, relevant)
    ensures Inserted(row.records, relevant) == relevant.Keys && PairGrid(Merged(row.records, relevant, {}), count)
       <==> WholeRepeats(row, count)
  {
    if WholeRepeats(row, count) {
      MergeConserves(name, row, phase, count, fixed, relevant);
    } else {
      var r :| r in Bad(row.records, count) && OddAt(row.records, r) != [];
      OddStays(name, row, count, fixed, relevant, r);
    }
  }
}

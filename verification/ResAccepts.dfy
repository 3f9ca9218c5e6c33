/** Which files the resource reader accepts (qualification/compiler-resource-paths/run_gate.py, lines 11-37): exactly
    those that are a row of good headers, one behind the other. */
module ResAccepts {
  import opened ResFormat

  /** The next record starts at the next multiple of four behind a body; behind the last body nothing needs to be. */
  predicate Follows(end: nat, length: nat, next: nat) {
    if end < length then next % 4 == 0 && end <= next < end + 4 else next == end
  }

  lemma FollowsIs(data: seq<Byte>, end: nat, next: nat)
    ensures Follows(end, |data|, next) <==> next == NextRecord(data, end)
  {
  }

  /** Records start at `starts`, the first at `pos`, and end with the file. */
  ghost predicate Chained(headers: nat -> Step, length: nat, pos: nat, starts: seq<nat>)
    decreases starts
  {
    if starts == [] then pos == length
    else
      && starts[0] == pos < length && headers(pos).Good?
      && exists next: nat ::
           Follows(headers(pos).entry.end, length, next) && Chained(headers, length, next, starts[1..])
  }

  /** A record that is kept, with its key. */
  predicate Keeps(headers: nat -> Step, start: nat, key: Key) {
    headers(start).Good? && headers(start).entry.key == key && key.kind != Number(0)
  }

  /** No two records are kept under one key, and none under a key that is taken. */
  ghost predicate Fresh(headers: nat -> Step, starts: seq<nat>, taken: set<Key>) {
    && (forall i, k :: 0 <= i < |starts| && Keeps(headers, starts[i], k) ==> k !in taken)
    && forall i, j, k :: 0 <= i < j < |starts| && Keeps(headers, starts[i], k) ==> !Keeps(headers, starts[j], k)
  }

  ghost predicate KeepsSome(headers: nat -> Step, starts: seq<nat>) {
    exists i, k :: 0 <= i < |starts| && Keeps(headers, starts[i], k)
  }

  ghost predicate Entered(headers: nat -> Step, length: nat, pos: nat, starts: seq<nat>, taken: set<Key>) {
    Chained(headers, length, pos, starts) && Fresh(headers, starts, taken)
    && (taken != {} || KeepsSome(headers, starts))
  }

  function With(taken: set<Key>, key: Key): set<Key> {
    if key.kind == Number(0) then taken else taken + {key}
  }

  lemma EnteredCons(headers: nat -> Step, length: nat, pos: nat, next: nat, rest: seq<nat>, taken: set<Key>)
    requires pos < length && headers(pos).Good? && Follows(headers(pos).entry.end, length, next)
    requires headers(pos).entry.key.kind != Number(0) ==> headers(pos).entry.key !in taken
    requires Entered(headers, length, next, rest, With(taken, headers(pos).entry.key))
    ensures Entered(headers, length, pos, [pos] + rest, taken)
  {
    var starts, key := [pos] + rest, headers(pos).entry.key;
    assert starts[1..] == rest;
    assert key.kind != Number(0) ==> Keeps(headers, starts[0], key);
    assert forall i :: 1 <= i < |starts| ==> starts[i] == rest[i - 1];
    if i, k :| 0 <= i < |rest| && Keeps(headers, rest[i], k) {
      assert Keeps(headers, starts[i + 1], k);
    }
  }

  lemma EnteredTail(headers: nat -> Step, length: nat, pos: nat, starts: seq<nat>, taken: set<Key>) returns (next: nat)
    requires Entered(headers, length, pos, starts, taken) && starts != []
    ensures pos < length && headers(pos).Good? && Follows(headers(pos).entry.end, length, next)
    ensures headers(pos).entry.key.kind != Number(0) ==> headers(pos).entry.key !in taken
    ensures Entered(headers, length, next, starts[1..], With(taken, headers(pos).entry.key))
  {
    next :| Follows(headers(pos).entry.end, length, next) && Chained(headers, length, next, starts[1..]);
    var rest, key := starts[1..], headers(pos).entry.key;
    assert key.kind != Number(0) ==> Keeps(headers, starts[0], key);
    assert forall i :: 0 <= i < |rest| ==> rest[i] == starts[i + 1];
    if taken == {} && key.kind == Number(0) {
      var i, k :| 0 <= i < |starts| && Keeps(headers, starts[i], k);
      assert Keeps(headers, rest[i - 1], k);
    }
  }

  lemma {:induction false} AcceptedIsChained(headers: nat -> Step, data: seq<Byte>, pos: nat, acc: map<Key, seq<Byte>>)
    returns (starts: seq<nat>)
    requires Advances(headers, |data|) && ReadFrom(headers, data, pos, acc).Ok?
    ensures Entered(headers, |data|, pos, starts, acc.Keys)
    decreases |data| - pos
  {
    if pos >= |data| {
      starts := [];
    } else {
      var e := headers(pos).entry;
      var next := NextRecord(data, e.end);
      FollowsIs(data, e.end, next);
      var acc' := if e.key.kind == Number(0) then acc else acc[e.key := data[e.start..e.end]];
      assert acc'.Keys == With(acc.Keys, e.key);
      var rest := AcceptedIsChained(headers, data, next, acc');
      EnteredCons(headers, |data|, pos, next, rest, acc.Keys);
      starts := [pos] + rest;
    }
  }

  lemma {:induction false} ChainedIsAccepted(headers: nat -> Step, data: seq<Byte>, pos: nat,
                                             acc: map<Key, seq<Byte>>, starts: seq<nat>)
    requires Advances(headers, |data|) && Entered(headers, |data|, pos, starts, acc.Keys)
    ensures ReadFrom(headers, data, pos, acc).Ok?
    decreases |data| - pos
  {
    if starts != [] {
      var next := EnteredTail(headers, |data|, pos, starts, acc.Keys);
      var e := headers(pos).entry;
      FollowsIs(data, e.end, next);
      var acc' := if e.key.kind == Number(0) then acc else acc[e.key := data[e.start..e.end]];
      assert acc'.Keys == With(acc.Keys, e.key);
      ChainedIsAccepted(headers, data, next, acc', starts[1..]);
    }
  }

  /** A file is accepted exactly when it is such a row of records, at least one of them is kept, and no two are kept
      under the same key. Behind the last body the padding may be left out. */
  lemma AcceptedIff(data: seq<Byte>)
    ensures ReadFile(data).Ok? <==> exists starts ::
      && Chained(Headers(data), |data|, 0, starts)
      && Fresh(Headers(data), starts, {}) && KeepsSome(Headers(data), starts)
  {
    var h, none := Headers(data), map[];
    assert none.Keys == {};
    if ReadFile(data).Ok? {
      var starts := AcceptedIsChained(h, data, 0, none);
      assert Chained(h, |data|, 0, starts);
    }
    if starts :| Chained(h, |data|, 0, starts) && Fresh(h, starts, {}) && KeepsSome(h, starts) {
      ChainedIsAccepted(h, data, 0, none, starts);
    }
  }
}

/** `move_batches` of qualification/release/pulse_completion.py: the missing pairs fall into process
    batches and individual pairs, without overlap and without loss. */
module PulseBatches {
  import opened Basics
  import opened Decimals
  import opened PulseRecords

  const PROCESS_BATCH_CASES := 32

  /** `log` is the name of the log file without its directory. The text before the first `-moon-`. */
  function Cut(s: string): (p: string)
    ensures p <= s
  {
    if s == "" || "-moon-" <= s then "" else [s[0]] + Cut(s[1..])
  }

  /** Nothing in front of the end of `Cut` starts with `-moon-`, and what follows it does. */
  lemma {:induction false} CutIs(s: string)
    ensures Cut(s) == s || "-moon-" <= s[|Cut(s)|..]
    ensures forall i :: 0 <= i < |Cut(s)| ==> !("-moon-" <= s[i..])
  {
    if s != "" && !("-moon-" <= s) {
      CutIs(s[1..]);
      assert forall i :: 1 <= i < |Cut(s)| ==> s[i..] == s[1..][i - 1..];
      assert s[0..] == s;
    }
  }

  predicate Contains(s: string, t: string) {
    exists i :: 0 <= i <= |s| && t <= s[i..]
  }

  lemma ContainsLonger(p: string, s: string, t: string)
    requires p <= s && Contains(p, t)
    ensures Contains(s, t)
  {
    var i :| 0 <= i <= |p| && t <= p[i..];
    assert t <= s[i..];
  }

  function BeforeSlash(name: string): (p: string)
    ensures '/' !in p
  {
    if name == "" || name[0] == '/' then "" else [name[0]] + BeforeSlash(name[1..])
  }

  function AfterSlash(name: string): string {
    if name == "" then "" else if name[0] == '/' then name[1..] else AfterSlash(name[1..])
  }

  /** What `case_descriptors` has checked: a case is named after its program. */
  ghost predicate NamesMatch(raw: Raw) {
    forall n :: n in raw.rows ==> '/' in n && raw.rows[n].program == BeforeSlash(n)
  }

  lemma MoveName(n: string)
    requires '/' in n
    ensures BeforeSlash(n) == "move" <==> "move/" <= n
  {
    var p := BeforeSlash(n);
    BeforeThenSlash(n);
    assert |p| > 4 ==> p[4] == n[4];
    if "move/" <= n {
      assert n[..4] == "move";
    }
    if p == "move" {
      assert n[..4] == "move";
    }
  }

  lemma {:induction false} BeforeThenSlash(n: string)
    requires '/' in n
    ensures |BeforeSlash(n)| < |n| && n[..|BeforeSlash(n)|] == BeforeSlash(n) && n[|BeforeSlash(n)|] == '/'
  {
    if n[0] != '/' {
      BeforeThenSlash(n[1..]);
    }
  }

  lemma {:induction false} SlashSplits(name: string)
    requires '/' in name
    ensures name == BeforeSlash(name) + "/" + AfterSlash(name)
  {
    if name[0] != '/' {
      SlashSplits(name[1..]);
    }
  }

  // ----- Groups -----

  /** A pair measured in a process of the Move batch program. */
  predicate Batched(name: string, pair: seq<Record>) {
    "move/" <= name && forall i :: 0 <= i < |pair| ==> Contains(pair[i].log, "-batch-")
  }

  datatype Group = Group(category: string, prefix: string, repeat: int)

  datatype Batch = Batch(members: seq<string>, repeat: int)

  predicate OnePrefix(pair: seq<Record>, prefix: string) {
    forall i :: 0 <= i < |pair| ==> Cut(pair[i].log) == prefix
  }

  predicate IsMember(raw: Raw, g: Group, name: string)
    requires name in raw.rows
  {
    var row := raw.rows[name];
    row.program == "move" && row.category == g.category
    && exists x :: x in AtRepeat(row.records, g.repeat) && Cut(x.log) == g.prefix
  }

  function Members(raw: Raw, g: Group, names: seq<string>): (m: seq<string>)
    requires forall n :: n in names ==> n in raw.rows
    ensures forall n :: n in m <==> n in names && IsMember(raw, g, n)
  {
    if names == [] then []
    else
      assert names == [names[0]] + names[1..];
      (if IsMember(raw, g, names[0]) then [names[0]] else []) + Members(raw, g, names[1..])
  }

  function CaseNames(members: seq<string>): (c: seq<string>)
    ensures |c| == |members|
  {
    seq(|members|, i requires 0 <= i < |members| => AfterSlash(members[i]))
  }

  function BatchPrefix(digest: seq<string> -> string, cases: seq<string>): string
    requires cases != []
  {
    "move-batch-" + cases[0] + "-" + Decimal(|cases|) + "-" + digest(cases)
  }

  function Variants(pair: seq<Record>): seq<string> {
    seq(|pair|, i requires 0 <= i < |pair| => pair[i].variant)
  }

  /** All members were measured with the variants in the same order. */
  predicate OneOrder(raw: Raw, g: Group, members: seq<string>)
    requires forall n :: n in members ==> n in raw.rows
  {
    forall i :: 0 <= i < |members| ==>
      Variants(AtRepeat(raw.rows[members[i]].records, g.repeat)) ==
        Variants(AtRepeat(raw.rows[members[0]].records, g.repeat))
  }

  /** Some member has not two records of the process that the group is named after. */
  predicate Incomplete(raw: Raw, g: Group, members: seq<string>)
    requires forall n :: n in members ==> n in raw.rows
  {
    exists n :: n in members && !(|AtRepeat(raw.rows[n].records, g.repeat)| == 2
                                  && OnePrefix(AtRepeat(raw.rows[n].records, g.repeat), g.prefix))
  }

  /** The first check of a group that fails. */
  function GroupRefusal(raw: Raw, digest: seq<string> -> string, g: Group, members: seq<string>): (e: Option<Refusal>)
    requires forall n :: n in members ==> n in raw.rows
    ensures e != Some(NotAPartition) && e != Some(MixedProcesses)
  {
    if g.category !in {"single-cpu", "memory-local"} then Some(UnsupportedBatch)
    else if members == [] || |members| > PROCESS_BATCH_CASES then Some(BatchNotRecovered)
    else if g.prefix != BatchPrefix(digest, CaseNames(members)) then Some(BatchName)
    else if Incomplete(raw, g, members) then Some(BatchMember)
    else if !OneOrder(raw, g, members) then Some(BatchOrder)
    else None
  }

  ghost predicate GoodGroup(raw: Raw, digest: seq<string> -> string, g: Group)
    requires Cases(raw)
  {
    GroupRefusal(raw, digest, g, Members(raw, g, raw.names)).None?
  }

  /** The records `a` and `b`, in this order, are all that there are of the repeat. */
  ghost predicate PairAt(s: seq<Record>, repeat: int, a: nat, b: nat) {
    a < b < |s| && forall i :: 0 <= i < |s| ==> (s[i].repeat == Whole(repeat) <==> i == a || i == b)
  }

  lemma {:induction false} AtRepeatKeeps(s: seq<Record>, repeat: int)
    ensures AtRepeat(s, repeat) == Keep(s, (x: Record) => x.repeat == Whole(repeat))
  {
    if s != [] {
      AtRepeatKeeps(s[1..], repeat);
    }
  }

  lemma AtRepeatTwo(s: seq<Record>, repeat: int)
    ensures forall a: nat, b: nat :: PairAt(s, repeat, a, b) ==> AtRepeat(s, repeat) == [s[a], s[b]]
    ensures |AtRepeat(s, repeat)| == 2 ==> exists a: nat, b: nat :: PairAt(s, repeat, a, b)
  {
    var p := (x: Record) => x.repeat == Whole(repeat);
    AtRepeatKeeps(s, repeat);
    KeepTwo(s, p);
    forall a: nat, b: nat
      ensures PairAt(s, repeat, a, b) <==> OnlyTwo(s, p, a, b)
    {
    }
  }

  /** A member has two records at the repeat, from the process that the group is named after. */
  ghost predicate WholeMember(s: seq<Record>, g: Group) {
    exists a: nat, b: nat :: PairAt(s, g.repeat, a, b) && Cut(s[a].log) == g.prefix && Cut(s[b].log) == g.prefix
  }

  /** Two members were measured with the variants in different orders. */
  ghost predicate OrdersDiffer(s: seq<Record>, t: seq<Record>, repeat: int) {
    exists a: nat, b: nat, c: nat, d: nat :: PairAt(s, repeat, a, b) && PairAt(t, repeat, c, d)
      && (s[a].variant != t[c].variant || s[b].variant != t[d].variant)
  }

  /** What each refusal of a group means. */
  ghost predicate Faulty(raw: Raw, digest: seq<string> -> string, g: Group, members: seq<string>, e: Refusal)
    requires forall n :: n in members ==> n in raw.rows
  {
    match e
    case UnsupportedBatch => g.category != "single-cpu" && g.category != "memory-local"
    case BatchNotRecovered => |members| == 0 || |members| > 32
    case BatchName =>
      var cases := seq(|members|, i requires 0 <= i < |members| => AfterSlash(members[i]));
      |members| > 0
      && g.prefix != "move-batch-" + AfterSlash(members[0]) + "-" + Decimal(|members|) + "-" + digest(cases)
    case BatchMember => exists n :: n in members && !WholeMember(raw.rows[n].records, g)
    case BatchOrder =>
      exists n, m :: n in members && m in members
                     && OrdersDiffer(raw.rows[n].records, raw.rows[m].records, g.repeat)
    case _ => false
  }

  lemma MemberWhole(s: seq<Record>, g: Group)
    ensures WholeMember(s, g) <==> |AtRepeat(s, g.repeat)| == 2 && OnePrefix(AtRepeat(s, g.repeat), g.prefix)
  {
    AtRepeatTwo(s, g.repeat);
    var pair := AtRepeat(s, g.repeat);
    if |pair| == 2 && OnePrefix(pair, g.prefix) {
      assert Cut(pair[0].log) == g.prefix && Cut(pair[1].log) == g.prefix;
    }
  }

  lemma OrdersIff(s: seq<Record>, t: seq<Record>, repeat: int)
    requires |AtRepeat(s, repeat)| == 2 && |AtRepeat(t, repeat)| == 2
    ensures OrdersDiffer(s, t, repeat) <==> Variants(AtRepeat(s, repeat)) != Variants(AtRepeat(t, repeat))
  {
    AtRepeatTwo(s, repeat);
    AtRepeatTwo(t, repeat);
    var p, q := AtRepeat(s, repeat), AtRepeat(t, repeat);
    assert Variants(p) == [p[0].variant, p[1].variant] && Variants(q) == [q[0].variant, q[1].variant];
  }

  lemma NameFault(raw: Raw, digest: seq<string> -> string, g: Group, members: seq<string>)
    requires (forall n :: n in members ==> n in raw.rows) && members != []
    ensures Faulty(raw, digest, g, members, BatchName) <==> g.prefix != BatchPrefix(digest, CaseNames(members))
  {
    assert CaseNames(members) == seq(|members|, i requires 0 <= i < |members| => AfterSlash(members[i]));
  }

  lemma MemberFault(raw: Raw, digest: seq<string> -> string, g: Group, members: seq<string>)
    requires forall n :: n in members ==> n in raw.rows
    ensures Faulty(raw, digest, g, members, BatchMember) <==> Incomplete(raw, g, members)
  {
    forall n | n in members
      ensures WholeMember(raw.rows[n].records, g) <==>
        |AtRepeat(raw.rows[n].records, g.repeat)| == 2
        && OnePrefix(AtRepeat(raw.rows[n].records, g.repeat), g.prefix)
    {
      MemberWhole(raw.rows[n].records, g);
    }
  }

  lemma OrderFault(raw: Raw, digest: seq<string> -> string, g: Group, members: seq<string>)
    requires forall n :: n in members ==> n in raw.rows && |AtRepeat(raw.rows[n].records, g.repeat)| == 2
    ensures Faulty(raw, digest, g, members, BatchOrder) <==> !OneOrder(raw, g, members)
  {
    forall n, m | n in members && m in members
      ensures OrdersDiffer(raw.rows[n].records, raw.rows[m].records, g.repeat) <==>
        Variants(AtRepeat(raw.rows[n].records, g.repeat)) != Variants(AtRepeat(raw.rows[m].records, g.repeat))
    {
      OrdersIff(raw.rows[n].records, raw.rows[m].records, g.repeat);
    }
  }

  /** The first of five answers that is yes. */
  function FirstOf(faults: seq<bool>): Option<Refusal>
    requires |faults| == 5
  {
    if faults[0] then Some(UnsupportedBatch)
    else if faults[1] then Some(BatchNotRecovered)
    else if faults[2] then Some(BatchName)
    else if faults[3] then Some(BatchMember)
    else if faults[4] then Some(BatchOrder)
    else None
  }

  /** The checks of a group as answers; a check is looked at only if none before it has failed. */
  function Answers(raw: Raw, digest: seq<string> -> string, g: Group, members: seq<string>): (b: seq<bool>)
    requires forall n :: n in members ==> n in raw.rows
    ensures |b| == 5
  {
    [g.category !in {"single-cpu", "memory-local"}, members == [] || |members| > PROCESS_BATCH_CASES,
     members != [] && g.prefix != BatchPrefix(digest, CaseNames(members)), Incomplete(raw, g, members),
     !OneOrder(raw, g, members)]
  }

  ghost function Faults(raw: Raw, digest: seq<string> -> string, g: Group, members: seq<string>): (b: seq<bool>)
    requires forall n :: n in members ==> n in raw.rows
    ensures |b| == 5
  {
    [Faulty(raw, digest, g, members, UnsupportedBatch), Faulty(raw, digest, g, members, BatchNotRecovered),
     Faulty(raw, digest, g, members, BatchName), Faulty(raw, digest, g, members, BatchMember),
     Faulty(raw, digest, g, members, BatchOrder)]
  }

  lemma RefusalAnswers(raw: Raw, digest: seq<string> -> string, g: Group, members: seq<string>)
    requires forall n :: n in members ==> n in raw.rows
    ensures GroupRefusal(raw, digest, g, members) == FirstOf(Answers(raw, digest, g, members))
  {
  }

  lemma EarlyFaults(raw: Raw, digest: seq<string> -> string, g: Group, members: seq<string>)
    requires forall n :: n in members ==> n in raw.rows
    ensures var a, f := Answers(raw, digest, g, members), Faults(raw, digest, g, members);
      a[0] == f[0] && a[1] == f[1]
  {
  }

  lemma NameAnswer(raw: Raw, digest: seq<string> -> string, g: Group, members: seq<string>)
    requires forall n :: n in members ==> n in raw.rows
    ensures Answers(raw, digest, g, members)[2] == Faults(raw, digest, g, members)[2]
  {
    if members != [] {
      NameFault(raw, digest, g, members);
    }
  }

  lemma MemberAnswer(raw: Raw, digest: seq<string> -> string, g: Group, members: seq<string>)
    requires forall n :: n in members ==> n in raw.rows
    ensures Answers(raw, digest, g, members)[3] == Faults(raw, digest, g, members)[3]
  {
    MemberFault(raw, digest, g, members);
  }

  lemma OrderAnswer(raw: Raw, digest: seq<string> -> string, g: Group, members: seq<string>)
    requires (forall n :: n in members ==> n in raw.rows) && !Incomplete(raw, g, members)
    ensures Answers(raw, digest, g, members)[4] == Faults(raw, digest, g, members)[4]
  {
    OrderFault(raw, digest, g, members);
  }

  lemma FirstSame(a: seq<bool>, f: seq<bool>)
    requires |a| == |f| == 5 && a[0] == f[0] && a[1] == f[1] && a[2] == f[2] && a[3] == f[3] && (!a[3] ==> a[4] == f[4])
    ensures FirstOf(a) == FirstOf(f)
  {
  }

  /** A group is refused with the first fault that it has, and accepted if it has none. */
  lemma GroupFaults(raw: Raw, digest: seq<string> -> string, g: Group, members: seq<string>)
    requires forall n :: n in members ==> n in raw.rows
    ensures GroupRefusal(raw, digest, g, members) == FirstOf(Faults(raw, digest, g, members))
  {
    RefusalAnswers(raw, digest, g, members);
    EarlyFaults(raw, digest, g, members);
    NameAnswer(raw, digest, g, members);
    MemberAnswer(raw, digest, g, members);
    if !Answers(raw, digest, g, members)[3] {
      OrderAnswer(raw, digest, g, members);
    }
    FirstSame(Answers(raw, digest, g, members), Faults(raw, digest, g, members));
  }

  /** The members are listed in the order of the cases. */
  lemma {:induction false} MembersInOrder(raw: Raw, g: Group, names: seq<string>, i: nat, j: nat)
    returns (a: nat, b: nat)
    requires (forall n :: n in names ==> n in raw.rows) && i < j < |Members(raw, g, names)|
    ensures a < b < |names| && Members(raw, g, names)[i] == names[a] && Members(raw, g, names)[j] == names[b]
  {
    var rest := names[1..];
    if !IsMember(raw, g, names[0]) {
      a, b := MembersInOrder(raw, g, rest, i, j);
      a, b := a + 1, b + 1;
    } else if i > 0 {
      a, b := MembersInOrder(raw, g, rest, i - 1, j - 1);
      a, b := a + 1, b + 1;
    } else {
      assert Members(raw, g, rest)[j - 1] in Members(raw, g, rest);
      var k :| 0 <= k < |rest| && rest[k] == Members(raw, g, rest)[j - 1];
      a, b := 0, k + 1;
    }
  }

  // ----- The partition -----

  type Missing = map<Key, seq<Record>>

  function GroupOf(raw: Raw, missing: Missing, k: Key): Group
    requires k in missing && k.name in raw.rows && |missing[k]| == 2
  {
    Group(raw.rows[k.name].category, Cut(missing[k][0].log), k.repeat)
  }

  /** Batches made of groups, one each. */
  ghost predicate MadeOf(raw: Raw, digest: seq<string> -> string, groups: seq<Group>, batches: seq<Batch>)
    requires Cases(raw)
  {
    && |groups| == |batches| && (forall i, j :: 0 <= i < j < |groups| ==> groups[i] != groups[j])
    && forall i :: 0 <= i < |groups| ==>
      GoodGroup(raw, digest, groups[i]) && batches[i] == Batch(Members(raw, groups[i], raw.names), groups[i].repeat)
  }

  predicate InBatch(b: Batch, k: Key) {
    k.name in b.members && k.repeat == b.repeat
  }

  /** No two batches measure the same pair. */
  ghost predicate Disjoint(batches: seq<Batch>) {
    forall i, j, k :: 0 <= i < j < |batches| && InBatch(batches[i], k) ==> !InBatch(batches[j], k)
  }

  lemma SameGroup(raw: Raw, digest: seq<string> -> string, g: Group, h: Group, k: Key)
    requires Cases(raw) && GoodGroup(raw, digest, g) && GoodGroup(raw, digest, h) && g.repeat == h.repeat == k.repeat
    requires k.name in Members(raw, g, raw.names) && k.name in Members(raw, h, raw.names)
    ensures g == h
  {
    var pair := AtRepeat(raw.rows[k.name].records, k.repeat);
    GroupPrefix(raw, digest, g, k.name);
    GroupPrefix(raw, digest, h, k.name);
    assert Cut(pair[0].log) == g.prefix && Cut(pair[0].log) == h.prefix;
  }

  lemma BatchesDisjoint(raw: Raw, digest: seq<string> -> string, groups: seq<Group>, batches: seq<Batch>)
    requires Cases(raw) && MadeOf(raw, digest, groups, batches)
    ensures Disjoint(batches)
  {
    forall i, j, k | 0 <= i < j < |batches| && InBatch(batches[i], k)
      ensures !InBatch(batches[j], k)
    {
      if InBatch(batches[j], k) {
        SameGroup(raw, digest, groups[i], groups[j], k);
      }
    }
  }

  lemma BatchLog(digest: seq<string> -> string, cases: seq<string>)
    requires cases != []
    ensures Contains(BatchPrefix(digest, cases), "-batch-")
  {
    var rest := cases[0] + "-" + Decimal(|cases|) + "-" + digest(cases);
    assert BatchPrefix(digest, cases) == "move-batch-" + rest;
    assert BatchPrefix(digest, cases)[4..] == "-batch-" + rest;
  }

  lemma {:induction false} AtIsByRepeat(s: seq<Record>, r: int)
    ensures |AtRepeat(s, r)| == |ByRepeat(s, r)| ==> AtRepeat(s, r) == ByRepeat(s, r)
    ensures |AtRepeat(s, r)| <= |ByRepeat(s, r)|
  {
    if s != [] {
      AtIsByRepeat(s[1..], r);
    }
  }

  /** The pair of an accepted group's member is a batched pair of that group. */
  lemma MemberIsBatched(raw: Raw, digest: seq<string> -> string, count: nat, plan: Plan, g: Group, k: Key)
    requires Frozen(raw, count, plan) && NamesMatch(raw) && GoodGroup(raw, digest, g)
    requires k in plan.missing && k.repeat == g.repeat && k.name in Members(raw, g, raw.names)
    ensures Batched(k.name, plan.missing[k])
  {
    GroupPrefix(raw, digest, g, k.name);
    MissingAt(raw, count, plan, k);
    NamedMove(raw, k.name);
    PrefixIsBatched(k.name, plan.missing[k], g.prefix);
  }

  lemma MissingAt(raw: Raw, count: nat, plan: Plan, k: Key)
    requires Frozen(raw, count, plan) && k in plan.missing && |AtRepeat(raw.rows[k.name].records, k.repeat)| == 2
    ensures plan.missing[k] == AtRepeat(raw.rows[k.name].records, k.repeat)
  {
    MissingIsPair(raw, count, plan, k);
    AtIsByRepeat(raw.rows[k.name].records, k.repeat);
  }

  lemma NamedMove(raw: Raw, name: string)
    requires NamesMatch(raw) && name in raw.rows
    ensures raw.rows[name].program == "move" <==> "move/" <= name
  {
    MoveName(name);
  }

  lemma PrefixIsBatched(name: string, pair: seq<Record>, prefix: string)
    requires "move/" <= name && OnePrefix(pair, prefix) && Contains(prefix, "-batch-")
    ensures Batched(name, pair)
  {
    forall i | 0 <= i < |pair|
      ensures Contains(pair[i].log, "-batch-")
    {
      ContainsLonger(prefix, pair[i].log, "-batch-");
    }
  }

  /** What the checks of a group say of a member. */
  lemma GroupPrefix(raw: Raw, digest: seq<string> -> string, g: Group, name: string)
    requires Cases(raw) && GoodGroup(raw, digest, g) && name in Members(raw, g, raw.names)
    ensures Contains(g.prefix, "-batch-") && raw.rows[name].program == "move"
    ensures |AtRepeat(raw.rows[name].records, g.repeat)| == 2
    ensures OnePrefix(AtRepeat(raw.rows[name].records, g.repeat), g.prefix)
  {
    BatchLog(digest, CaseNames(Members(raw, g, raw.names)));
  }

  lemma MissingIsPair(raw: Raw, count: nat, plan: Plan, k: Key)
    requires Frozen(raw, count, plan) && k in plan.missing
    ensures k.name in raw.names && |plan.missing[k]| == 2
    ensures plan.missing[k] == ByRepeat(raw.rows[k.name].records, k.repeat)
  {
    assert GoodRow(k.name, raw.rows[k.name], raw.phase, count);
  }

  lemma {:induction false} AtRepeatIn(s: seq<Record>, r: int)
    ensures forall x :: x in AtRepeat(s, r) ==> x in ByRepeat(s, r)
  {
    if s != [] {
      AtRepeatIn(s[1..], r);
    }
  }

  /** A batched missing pair that has a record equal to its repeat is found again by its group. */
  lemma BatchedIsMember(raw: Raw, count: nat, plan: Plan, k: Key)
    requires Frozen(raw, count, plan) && NamesMatch(raw) && k in plan.missing && |plan.missing[k]| == 2
    requires Batched(k.name, plan.missing[k]) && OnePrefix(plan.missing[k], Cut(plan.missing[k][0].log))
    requires AtRepeat(raw.rows[k.name].records, k.repeat) != []
    ensures k.name in Members(raw, GroupOf(raw, plan.missing, k), raw.names)
  {
    var s := raw.rows[k.name].records;
    MissingIsPair(raw, count, plan, k);
    MoveName(k.name);
    AtRepeatIn(s, k.repeat);
    var x := AtRepeat(s, k.repeat)[0];
    SamePrefix(plan.missing[k], Cut(plan.missing[k][0].log), x);
    assert IsMember(raw, GroupOf(raw, plan.missing, k), k.name);
  }

  lemma SamePrefix(pair: seq<Record>, prefix: string, x: Record)
    requires OnePrefix(pair, prefix) && x in pair
    ensures Cut(x.log) == prefix
  {
  }

  // ----- The method -----

  /** The frozen plan: batches, and the pairs measured one by one. */
  datatype Parts = Parts(batches: seq<Batch>, individual: set<Key>)

  /** Every missing pair belongs to exactly one batch or is an individual pair, and not both. */
  ghost predicate Partition(missing: Missing, parts: Parts) {
    && Disjoint(parts.batches) && parts.individual <= missing.Keys
    && forall k :: k in missing ==>
         (k in parts.individual <==> !exists i :: 0 <= i < |parts.batches| && InBatch(parts.batches[i], k))
  }

  predicate Included(batches: seq<Batch>, k: Key) {
    exists i :: 0 <= i < |batches| && InBatch(batches[i], k)
  }

  /** The final check of `move_batches`. */
  predicate Exact(missing: Missing, parts: Parts) {
    var included := set k | k in missing && Included(parts.batches, k);
    included + parts.individual == missing.Keys && included * parts.individual == {}
  }

  lemma ExactIsPartition(missing: Missing, parts: Parts)
    requires Disjoint(parts.batches) && parts.individual <= missing.Keys
    ensures Exact(missing, parts) <==> Partition(missing, parts)
  {
    var included := set k | k in missing && Included(parts.batches, k);
    if Exact(missing, parts) {
      forall k | k in missing
        ensures k in parts.individual <==> !exists i :: 0 <= i < |parts.batches| && InBatch(parts.batches[i], k)
      {
        assert k in included + parts.individual;
        assert !(k in included && k in parts.individual) by {
          assert k in included * parts.individual <==> k in included && k in parts.individual;
        }
      }
    }
  }

  /** When the checks before it have passed, the final check fails for no pair that has a record equal to
      its repeat. */
  lemma KeyPlaced(raw: Raw, digest: seq<string> -> string, count: nat, plan: Plan, groups: seq<Group>, parts: Parts,
                  k: Key)
    requires Frozen(raw, count, plan) && NamesMatch(raw) && MadeOf(raw, digest, groups, parts.batches)
    requires k in plan.missing && |plan.missing[k]| == 2
    requires k in parts.individual <==> !Batched(k.name, plan.missing[k])
    requires Batched(k.name, plan.missing[k]) ==>
      OnePrefix(plan.missing[k], Cut(plan.missing[k][0].log)) && GroupOf(raw, plan.missing, k) in groups
    ensures Included(parts.batches, k) ==> k !in parts.individual
    ensures k !in parts.individual && AtRepeat(raw.rows[k.name].records, k.repeat) != [] ==> Included(parts.batches, k)
    ensures AtRepeat(raw.rows[k.name].records, k.repeat) == [] ==> !Included(parts.batches, k)
  {
    if k !in parts.individual && AtRepeat(raw.rows[k.name].records, k.repeat) != [] {
      BatchedIsMember(raw, count, plan, k);
      var i :| 0 <= i < |groups| && groups[i] == GroupOf(raw, plan.missing, k);
      assert InBatch(parts.batches[i], k);
    }
    if Included(parts.batches, k) {
      var i :| 0 <= i < |parts.batches| && InBatch(parts.batches[i], k);
      MemberIsBatched(raw, digest, count, plan, groups[i], k);
      GroupPrefix(raw, digest, groups[i], k.name);
    }
  }

  /** A batched pair of which no record has a repeat equal to it. */
  ghost predicate Unplaceable(raw: Raw, missing: Missing, k: Key) {
    k in missing && k.name in raw.rows && Batched(k.name, missing[k])
    && AtRepeat(raw.rows[k.name].records, k.repeat) == []
  }

  /** The groups and individual pairs of the first loop. */
  ghost predicate Sorted(raw: Raw, missing: Missing, keys: set<Key>, groups: set<Group>, individual: set<Key>)
    requires Cases(raw) && keys <= missing.Keys && forall k :: k in missing ==> k.name in raw.rows && |missing[k]| == 2
  {
    forall k :: SortedAt(raw, missing, keys, groups, individual, k)
  }

  ghost predicate SortedAt(raw: Raw, missing: Missing, keys: set<Key>, groups: set<Group>, individual: set<Key>, k: Key)
    requires Cases(raw) && keys <= missing.Keys && forall k :: k in missing ==> k.name in raw.rows && |missing[k]| == 2
  {
    && (k in individual <==> k in keys && !Batched(k.name, missing[k]))
    && (k in keys && Batched(k.name, missing[k]) ==>
          OnePrefix(missing[k], Cut(missing[k][0].log)) && GroupOf(raw, missing, k) in groups)
  }

  /** Some batched missing pair belongs to the group. */
  ghost predicate FromPair(raw: Raw, missing: Missing, g: Group)
    requires Cases(raw) && forall k :: k in missing ==> k.name in raw.rows && |missing[k]| == 2
  {
    exists k :: k in missing && Batched(k.name, missing[k]) && GroupOf(raw, missing, k) == g
  }

  /** The pair is measured alone, or its process batch can be recovered. */
  ghost predicate Recovered(raw: Raw, digest: seq<string> -> string, missing: Missing, k: Key)
    requires Cases(raw) && k in missing && k.name in raw.rows && |missing[k]| == 2
  {
    Batched(k.name, missing[k]) ==>
      OnePrefix(missing[k], Cut(missing[k][0].log)) && GoodGroup(raw, digest, GroupOf(raw, missing, k))
  }

  /** The checks before the final one pass. */
  ghost predicate Recoverable(raw: Raw, digest: seq<string> -> string, missing: Missing)
    requires Cases(raw) && forall k :: k in missing ==> k.name in raw.rows && |missing[k]| == 2
  {
    forall k :: k in missing ==> Recovered(raw, digest, missing, k)
  }

  /** The first loop: sorting the missing pairs. */
  method SortPairs(raw: Raw, missing: Missing) returns (groups: set<Group>, individual: set<Key>, mixed: bool)
    requires Cases(raw) && forall k :: k in missing ==> k.name in raw.rows && |missing[k]| == 2
    ensures !mixed ==> Sorted(raw, missing, missing.Keys, groups, individual)
    ensures !mixed ==> forall g :: g in groups ==> FromPair(raw, missing, g)
    ensures mixed ==>
      exists k :: k in missing && Batched(k.name, missing[k]) && !OnePrefix(missing[k], Cut(missing[k][0].log))
  {
    groups, individual := {}, {};
    var todo := missing.Keys;
    while todo != {}
      invariant todo <= missing.Keys
      invariant Sorted(raw, missing, missing.Keys - todo, groups, individual)
      invariant forall g :: g in groups ==> FromPair(raw, missing, g)
      decreases |todo|
    {
      var k :| k in todo;
      ghost var before, gs, alone := missing.Keys - todo, groups, individual;
      if Batched(k.name, missing[k]) {
        if !OnePrefix(missing[k], Cut(missing[k][0].log)) {
          return groups, individual, true;
        }
        groups := groups + {GroupOf(raw, missing, k)};
      } else {
        individual := individual + {k};
      }
      todo := todo - {k};
      forall q
        ensures SortedAt(raw, missing, missing.Keys - todo, groups, individual, q)
      {
        assert SortedAt(raw, missing, before, gs, alone, q);
      }
    }
    assert missing.Keys - todo == missing.Keys;
    mixed := false;
  }

  /** The second loop: freezing the batches. */
  method FreezeBatches(raw: Raw, digest: seq<string> -> string, all: set<Group>)
    returns (r: Result<seq<Batch>>, ghost groups: seq<Group>)
    requires Cases(raw)
    ensures r.Ok? ==> MadeOf(raw, digest, groups, r.value) && forall g :: g in groups <==> g in all
    ensures r.Refused? ==>
      exists g :: g in all && GroupRefusal(raw, digest, g, Members(raw, g, raw.names)) == Some(r.refusal)
    ensures r.Refused? ==> r.refusal != NotAPartition
  {
    var batches: seq<Batch> := [];
    groups := [];
    var todo := all;
    while todo != {}
      invariant todo <= all && (forall g :: g in groups <==> g in all - todo)
      invariant MadeOf(raw, digest, groups, batches)
      decreases |todo|
    {
      var g :| g in todo;
      var members := Members(raw, g, raw.names);
      var e := GroupRefusal(raw, digest, g, members);
      if e.Some? {
        return Refused(e.value), [];
      }
      MadeMore(raw, digest, groups, batches, g);
      batches := batches + [Batch(members, g.repeat)];
      groups := groups + [g];
      todo := todo - {g};
    }
    r := Ok(batches);
  }

  lemma MadeMore(raw: Raw, digest: seq<string> -> string, groups: seq<Group>, batches: seq<Batch>, g: Group)
    requires Cases(raw) && MadeOf(raw, digest, groups, batches) && g !in groups && GoodGroup(raw, digest, g)
    ensures MadeOf(raw, digest, groups + [g], batches + [Batch(Members(raw, g, raw.names), g.repeat)])
  {
  }

  lemma MissingArePairs(raw: Raw, count: nat, plan: Plan)
    requires Frozen(raw, count, plan)
    ensures forall k :: k in plan.missing ==> k.name in raw.rows && |plan.missing[k]| == 2
  {
    forall k | k in plan.missing
      ensures k.name in raw.rows && |plan.missing[k]| == 2
    {
      MissingIsPair(raw, count, plan, k);
    }
  }

  /** The final check fails if and only if some pair is unplaceable. */
  lemma ExactIff(raw: Raw, digest: seq<string> -> string, count: nat, plan: Plan, groups: seq<Group>, all: set<Group>,
                 parts: Parts)
    requires Frozen(raw, count, plan) && NamesMatch(raw) && MadeOf(raw, digest, groups, parts.batches)
    requires forall k :: k in plan.missing ==> k.name in raw.rows && |plan.missing[k]| == 2
    requires Sorted(raw, plan.missing, plan.missing.Keys, all, parts.individual)
    requires forall g :: g in groups <==> g in all
    ensures parts.individual <= plan.missing.Keys
    ensures Partition(plan.missing, parts) <==> !exists k :: Unplaceable(raw, plan.missing, k)
  {
    BatchesDisjoint(raw, digest, groups, parts.batches);
    forall k
      ensures k in parts.individual ==> k in plan.missing
      ensures k in plan.missing && !Unplaceable(raw, plan.missing, k) ==>
        (k in parts.individual <==> !Included(parts.batches, k))
      ensures Unplaceable(raw, plan.missing, k) ==> k !in parts.individual && !Included(parts.batches, k)
    {
      assert SortedAt(raw, plan.missing, plan.missing.Keys, all, parts.individual, k);
      if k in plan.missing {
        KeyPlaced(raw, digest, count, plan, groups, parts, k);
      }
    }
    if k :| Unplaceable(raw, plan.missing, k) {
      assert k in plan.missing && k !in parts.individual && !Included(parts.batches, k);
    }
  }

  /** The text has `-batch-` in it. */
  ghost predicate Mentions(s: string) {
    exists x: string, y: string :: s == x + "-batch-" + y
  }

  /** Both records of a Move pair are logged in a process batch. */
  ghost predicate BatchLogs(name: string, pair: seq<Record>)
    requires |pair| == 2
  {
    "move/" <= name && Mentions(pair[0].log) && Mentions(pair[1].log)
  }

  lemma ContainsIff(s: string)
    ensures Contains(s, "-batch-") <==> Mentions(s)
  {
    if Contains(s, "-batch-") {
      var i :| 0 <= i <= |s| && "-batch-" <= s[i..];
      assert s == s[..i] + "-batch-" + s[i + 7..];
    }
    if x: string, y: string :| s == x + "-batch-" + y {
      assert s[|x|..] == "-batch-" + y;
    }
  }

  lemma BatchedIff(name: string, pair: seq<Record>)
    requires |pair| == 2
    ensures Batched(name, pair) <==> BatchLogs(name, pair)
  {
    ContainsIff(pair[0].log);
    ContainsIff(pair[1].log);
  }

  /** A member is a Move case of the category with a record of the process at the repeat. */
  lemma MembersAre(raw: Raw, g: Group, n: string)
    requires forall n :: n in raw.names ==> n in raw.rows
    ensures n in Members(raw, g, raw.names) <==>
      && n in raw.names && raw.rows[n].program == "move" && raw.rows[n].category == g.category
      && exists i :: 0 <= i < |raw.rows[n].records| && raw.rows[n].records[i].repeat == Whole(g.repeat)
                     && Cut(raw.rows[n].records[i].log) == g.prefix
  {
    if n in raw.names {
      AtRepeatHas(raw.rows[n].records, g.repeat);
    }
  }

  lemma {:induction false} AtRepeatHas(s: seq<Record>, r: int)
    ensures forall x :: x in AtRepeat(s, r) <==> x in s && x.repeat == Whole(r)
  {
    if s != [] {
      AtRepeatHas(s[1..], r);
      assert s == [s[0]] + s[1..];
    }
  }

  /** The pairs measured alone are those that are not logged in a batch, and the batches are made of the groups of the
      others, one of each. */
  ghost predicate Planned(raw: Raw, digest: seq<string> -> string, missing: Missing, parts: Parts)
    requires Cases(raw) && forall k :: k in missing ==> k.name in raw.rows && |missing[k]| == 2
  {
    && (forall k :: k in missing ==> (k in parts.individual <==> !BatchLogs(k.name, missing[k])))
    && exists groups :: MadeOf(raw, digest, groups, parts.batches) && ExactlyFrom(raw, missing, groups)
  }

  ghost predicate ExactlyFrom(raw: Raw, missing: Missing, groups: seq<Group>)
    requires Cases(raw) && forall k :: k in missing ==> k.name in raw.rows && |missing[k]| == 2
  {
    forall g :: g in groups <==> FromPair(raw, missing, g)
  }

  /** What a refusal means: two processes in one pair, a fault of the group of some pair, or no partition. */
  ghost predicate RefusedFor(raw: Raw, digest: seq<string> -> string, missing: Missing, e: Refusal)
    requires Cases(raw) && forall k :: k in missing ==> k.name in raw.rows && |missing[k]| == 2
  {
    if e == MixedProcesses then
      exists k :: k in missing && Batched(k.name, missing[k]) && !OnePrefix(missing[k], Cut(missing[k][0].log))
    else if e == NotAPartition then !AllPlaceable(raw, missing)
    else exists g :: FromPair(raw, missing, g) && GroupRefusal(raw, digest, g, Members(raw, g, raw.names)) == Some(e)
  }

  datatype Outcome = Accepted | Turned

  ghost predicate OutcomeIs(o: Outcome, raw: Raw, digest: seq<string> -> string, missing: Missing, r: Result<Parts>)
    requires Cases(raw) && forall k :: k in missing ==> k.name in raw.rows && |missing[k]| == 2
  {
    match o
    case Accepted => r.Ok? ==> Planned(raw, digest, missing, r.value)
    case Turned => r.Refused? ==> RefusedFor(raw, digest, missing, r.refusal)
  }

  /** An accepted plan is `Planned`, and a refusal is `RefusedFor` something. */
  ghost predicate Explained(raw: Raw, digest: seq<string> -> string, missing: Missing, r: Result<Parts>)
    requires Cases(raw) && forall k :: k in missing ==> k.name in raw.rows && |missing[k]| == 2
  {
    forall o: Outcome :: OutcomeIs(o, raw, digest, missing, r)
  }

  lemma RefusalExplained(raw: Raw, digest: seq<string> -> string, missing: Missing, e: Refusal)
    requires Cases(raw) && forall k :: k in missing ==> k.name in raw.rows && |missing[k]| == 2
    requires RefusedFor(raw, digest, missing, e)
    ensures Explained(raw, digest, missing, Refused(e))
  {
  }

  /** No group is refused for two processes in one pair. */
  lemma GroupExplained(raw: Raw, digest: seq<string> -> string, missing: Missing, e: Refusal)
    requires Cases(raw) && forall k :: k in missing ==> k.name in raw.rows && |missing[k]| == 2
    requires exists g ::
      FromPair(raw, missing, g) && GroupRefusal(raw, digest, g, Members(raw, g, raw.names)) == Some(e)
    ensures Explained(raw, digest, missing, Refused(e))
  {
    RefusalExplained(raw, digest, missing, e);
  }

  lemma PartsExplained(raw: Raw, digest: seq<string> -> string, missing: Missing, groups: seq<Group>, all: set<Group>,
                       parts: Parts)
    requires Cases(raw) && forall k :: k in missing ==> k.name in raw.rows && |missing[k]| == 2
    requires MadeOf(raw, digest, groups, parts.batches) && forall g :: g in groups <==> g in all
    requires Sorted(raw, missing, missing.Keys, all, parts.individual)
    requires forall g :: g in all <==> FromPair(raw, missing, g)
    ensures Explained(raw, digest, missing, Ok(parts))
  {
    PartsPlanned(raw, digest, missing, groups, all, parts);
  }

  lemma GroupsFrom(raw: Raw, missing: Missing, all: set<Group>, individual: set<Key>)
    requires Cases(raw) && forall k :: k in missing ==> k.name in raw.rows && |missing[k]| == 2
    requires Sorted(raw, missing, missing.Keys, all, individual)
    requires forall g :: g in all ==> FromPair(raw, missing, g)
    ensures forall g :: g in all <==> FromPair(raw, missing, g)
  {
    forall g | FromPair(raw, missing, g)
      ensures g in all
    {
      var k :| k in missing && Batched(k.name, missing[k]) && GroupOf(raw, missing, k) == g;
      assert SortedAt(raw, missing, missing.Keys, all, individual, k);
    }
  }

  lemma PartsPlanned(raw: Raw, digest: seq<string> -> string, missing: Missing, groups: seq<Group>, all: set<Group>,
                     parts: Parts)
    requires Cases(raw) && forall k :: k in missing ==> k.name in raw.rows && |missing[k]| == 2
    requires MadeOf(raw, digest, groups, parts.batches) && forall g :: g in groups <==> g in all
    requires Sorted(raw, missing, missing.Keys, all, parts.individual)
    requires forall g :: g in all <==> FromPair(raw, missing, g)
    ensures Planned(raw, digest, missing, parts)
  {
    forall k | k in missing
      ensures k in parts.individual <==> !BatchLogs(k.name, missing[k])
    {
      assert SortedAt(raw, missing, missing.Keys, all, parts.individual, k);
      BatchedIff(k.name, missing[k]);
    }
    assert ExactlyFrom(raw, missing, groups);
  }

  ghost predicate AllPlaceable(raw: Raw, missing: Missing) {
    forall k :: !Unplaceable(raw, missing, k)
  }

  lemma ExactDecides(raw: Raw, digest: seq<string> -> string, count: nat, plan: Plan, groups: seq<Group>,
                     all: set<Group>, parts: Parts)
    requires Frozen(raw, count, plan) && NamesMatch(raw) && MadeOf(raw, digest, groups, parts.batches)
    requires forall k :: k in plan.missing ==> k.name in raw.rows && |plan.missing[k]| == 2
    requires Sorted(raw, plan.missing, plan.missing.Keys, all, parts.individual)
    requires forall g :: g in groups <==> g in all
    ensures Exact(plan.missing, parts) <==> AllPlaceable(raw, plan.missing)
    ensures Exact(plan.missing, parts) <==> Partition(plan.missing, parts)
  {
    ExactIff(raw, digest, count, plan, groups, all, parts);
    BatchesDisjoint(raw, digest, groups, parts.batches);
    ExactIsPartition(plan.missing, parts);
  }

  /** The groups are those of the batched pairs, so all are good exactly when every pair is recovered. */
  lemma GroupsDecide(raw: Raw, digest: seq<string> -> string, missing: Missing, groups: set<Group>,
                     individual: set<Key>)
    requires Cases(raw) && forall k :: k in missing ==> k.name in raw.rows && |missing[k]| == 2
    requires Sorted(raw, missing, missing.Keys, groups, individual)
    requires forall g :: g in groups ==> FromPair(raw, missing, g)
    ensures Recoverable(raw, digest, missing) <==> forall g :: g in groups ==> GoodGroup(raw, digest, g)
  {
    forall k | k in missing
      ensures Batched(k.name, missing[k]) ==>
        OnePrefix(missing[k], Cut(missing[k][0].log)) && GroupOf(raw, missing, k) in groups
    {
      assert SortedAt(raw, missing, missing.Keys, groups, individual, k);
    }
    if Recoverable(raw, digest, missing) {
      forall g | g in groups
        ensures GoodGroup(raw, digest, g)
      {
        var k :| k in missing && Batched(k.name, missing[k]) && GroupOf(raw, missing, k) == g;
        assert Recovered(raw, digest, missing, k);
      }
    }
  }

  /** `move_batches`, as `complete` calls it. It accepts exactly the plans whose process batches can be
      recovered and in which every batched pair has a record equal to its repeat, and then partitions the
      missing pairs; its final refusal fires for exactly the plans that meet the first condition alone. */
  method MoveBatches(raw: Raw, digest: seq<string> -> string, ghost count: nat, plan: Plan) returns (r: Result<Parts>)
    requires Frozen(raw, count, plan) && NamesMatch(raw)
    ensures forall k :: k in plan.missing ==> k.name in raw.rows && |plan.missing[k]| == 2
    ensures r.Ok? <==> Recoverable(raw, digest, plan.missing) && AllPlaceable(raw, plan.missing)
    ensures r == Refused(NotAPartition) <==> Recoverable(raw, digest, plan.missing) && !AllPlaceable(raw, plan.missing)
    ensures r.Ok? ==> Partition(plan.missing, r.value)
    ensures Explained(raw, digest, plan.missing, r)
  {
    MissingArePairs(raw, count, plan);
    var all, individual, mixed := SortPairs(raw, plan.missing);
    if mixed {
      RefusalExplained(raw, digest, plan.missing, MixedProcesses);
      return Refused(MixedProcesses);
    }
    GroupsDecide(raw, digest, plan.missing, all, individual);
    GroupsFrom(raw, plan.missing, all, individual);
    var batches, groups := FreezeBatches(raw, digest, all);
    if batches.Refused? {
      GroupExplained(raw, digest, plan.missing, batches.refusal);
      return Refused(batches.refusal);
    }
    var parts := Parts(batches.value, individual);
    ExactDecides(raw, digest, count, plan, groups, all, parts);
    if !Exact(plan.missing, parts) {
      RefusalExplained(raw, digest, plan.missing, NotAPartition);
      return Refused(NotAPartition);
    }
    PartsExplained(raw, digest, plan.missing, groups, all, parts);
    return Ok(parts);
  }
}

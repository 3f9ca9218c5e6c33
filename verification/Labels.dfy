/** `object_payload` of qualification/build-driver/release_metadata_gate.py: private labels `.Ld<digits>`
    are renamed in the order of their first occurrence, so that two dumps can be compared whatever
    numbers the assembler gave. */
module Labels {
  import opened Basics
  import opened Decimals

  /** The character classes `\d` and `\w` of the regular expression. */
  datatype Classes = Classes(digit: char -> bool, word: char -> bool)

  ghost predicate Sound(cl: Classes) {
    && (forall c :: cl.digit(c) ==> cl.word(c))
    && (forall c :: '0' <= c <= '9' ==> cl.digit(c))
    && !cl.word('.')
  }

  // ----- Finding labels -----

  const PREFIX := ".Ld"

  /** The digits at the front. */
  function Run(cl: Classes, s: string): (n: nat)
    ensures n <= |s| && (n < |s| ==> !cl.digit(s[n]))
  {
    if s == "" || !cl.digit(s[0]) then 0 else 1 + Run(cl, s[1..])
  }

  /** The length of the label at the front: `\.Ld\d+\b`, or 0. */
  function LabelLength(cl: Classes, s: string): (n: nat)
    ensures n == 0 || 3 < n <= |s|
  {
    if !(PREFIX <= s) then 0
    else
      var n := Run(cl, s[3..]);
      if n > 0 && (3 + n < |s| ==> !cl.word(s[3 + n])) then 3 + n else 0
  }

  /** A label or any other character. */
  datatype Token = Label(name: string) | Other(c: char)

  /** The text as the substitution walks it, from left to right. */
  function Tokens(cl: Classes, s: string): seq<Token>
    decreases |s|
  {
    if s == "" then []
    else
      var n := LabelLength(cl, s);
      if n > 0 then [Label(s[..n])] + Tokens(cl, s[n..]) else [Other(s[0])] + Tokens(cl, s[1..])
  }

  function TokenText(t: Token): string {
    match t
    case Label(name) => name
    case Other(c) => [c]
  }

  function Text(ts: seq<Token>): string {
    if ts == [] then "" else TokenText(ts[0]) + Text(ts[1..])
  }

  // ----- Renaming -----

  function IndexOf(name: string, seen: seq<string>): (k: nat)
    requires name in seen
    ensures k < |seen| && seen[k] == name
  {
    if seen[0] == name then 0 else 1 + IndexOf(name, seen[1..])
  }

  function Seen(name: string, seen: seq<string>): (r: seq<string>)
    ensures name in r && seen <= r
  {
    if name in seen then seen else seen + [name]
  }

  function NewName(k: nat): string {
    PREFIX + Decimal(k)
  }

  /** Each label is named after the number of distinct labels before its first occurrence. */
  function Renamed(ts: seq<Token>, seen: seq<string>): (r: seq<Token>)
    ensures |r| == |ts|
  {
    if ts == [] then []
    else
      match ts[0]
      case Other(c) => [ts[0]] + Renamed(ts[1..], seen)
      case Label(name) => [Label(NewName(IndexOf(name, Seen(name, seen))))] + Renamed(ts[1..], Seen(name, seen))
  }

  /** `object_payload` of a dump. */
  function Payload(cl: Classes, s: string): string {
    Text(Renamed(Tokens(cl, s), []))
  }

  // ----- The substitution loop -----

  ghost predicate Distinct(seen: seq<string>) {
    forall i, j :: 0 <= i < j < |seen| ==> seen[i] != seen[j]
  }

  lemma IndexUnique(seen: seq<string>, k: nat)
    requires Distinct(seen) && k < |seen|
    ensures IndexOf(seen[k], seen) == k
  {
  }

  /** The dictionary has the first `k` labels seen under their new names, and nothing that was not seen. */
  ghost predicate HoldsFirst(labels: map<string, string>, seen: seq<string>, k: nat) {
    && Distinct(seen) && |labels| == |seen|
    && (forall j :: 0 <= j < k && j < |seen| ==> seen[j] in labels && labels[seen[j]] == NewName(j))
    && forall m :: m in labels ==> m in seen
  }

  /** The dictionary `labels` holds the labels seen, with their new names. */
  ghost predicate Holds(labels: map<string, string>, seen: seq<string>) {
    forall k: nat :: HoldsFirst(labels, seen, k)
  }

  lemma HoldsAll(labels: map<string, string>, seen: seq<string>)
    requires HoldsFirst(labels, seen, |seen|)
    ensures Holds(labels, seen)
  {
  }

  lemma LabelKnown(labels: map<string, string>, seen: seq<string>, m: string)
    requires HoldsFirst(labels, seen, |seen|) && m in labels
    ensures Seen(m, seen) == seen && labels[m] == NewName(IndexOf(m, seen))
  {
    IndexUnique(seen, IndexOf(m, seen));
  }

  lemma LabelAdded(labels: map<string, string>, seen: seq<string>, m: string)
    requires HoldsFirst(labels, seen, |seen|) && m !in labels
    ensures m !in seen && HoldsFirst(labels[m := NewName(|labels|)], seen + [m], |seen| + 1)
    ensures IndexOf(m, seen + [m]) == |labels|
  {
    IndexUnique(seen + [m], |seen|);
  }

  ghost predicate IsIndex(k: nat, m: string, seen: seq<string>) {
    m in Seen(m, seen) && k == IndexOf(m, Seen(m, seen))
  }

  /** `name` is the new name of `m` after the labels seen. */
  ghost predicate NameFor(name: string, m: string, seen: seq<string>) {
    forall k: nat :: IsIndex(k, m, seen) ==> name == NewName(k)
  }

  /** The new name of a label: the one it has, or the next free number. */
  method SetDefault(labels: map<string, string>, ghost seen: seq<string>, m: string)
    returns (labels': map<string, string>, name: string)
    requires Holds(labels, seen)
    ensures Holds(labels', Seen(m, seen)) && NameFor(name, m, seen)
  {
    assert HoldsFirst(labels, seen, |seen|);
    if m in labels {
      LabelKnown(labels, seen, m);
      labels' := labels;
    } else {
      LabelAdded(labels, seen, m);
      labels' := labels[m := NewName(|labels|)];
      HoldsAll(labels', seen + [m]);
    }
    name := labels'[m];
  }

  lemma TextCons(t: Token, ts: seq<Token>)
    ensures Text([t] + ts) == TokenText(t) + Text(ts)
  {
    assert ([t] + ts)[1..] == ts;
  }

  datatype Fact = InRange | MakesGoal

  ghost predicate Known(f: Fact, goal: string, cl: Classes, s: string, out: string, i: nat, seen: seq<string>) {
    match f
    case InRange => i <= |s|
    case MakesGoal => i <= |s| ==> goal == out + Text(Renamed(Tokens(cl, s[i..]), seen))
  }

  /** The output so far and what the rest of the dump will add make the whole. */
  ghost predicate Underway(goal: string, cl: Classes, s: string, out: string, i: nat, seen: seq<string>) {
    forall f: Fact :: Known(f, goal, cl, s, out, i, seen)
  }

  lemma LabelStep(goal: string, cl: Classes, s: string, out: string, i: nat, seen: seq<string>, n: nat, m: string,
                  name: string)
    requires i < |s| && n == LabelLength(cl, s[i..]) && n > 0 && i + n <= |s| && m == s[i..i + n]
    requires NameFor(name, m, seen) && Underway(goal, cl, s, out, i, seen)
    ensures Underway(goal, cl, s, out + name, i + n, Seen(m, seen))
  {
    var after := s[i + n..];
    assert IsIndex(IndexOf(m, Seen(m, seen)), m, seen);
    assert s[i..][..n] == m && s[i..][n..] == after;
    var t := Label(NewName(IndexOf(m, Seen(m, seen))));
    var rest := Renamed(Tokens(cl, after), Seen(m, seen));
    var ts := Tokens(cl, s[i..]);
    assert ts == [Label(m)] + Tokens(cl, after);
    assert ts[1..] == Tokens(cl, after);
    TextCons(t, rest);
    Associate(out, TokenText(t), Text(rest));
    assert Known(MakesGoal, goal, cl, s, out, i, seen);
  }

  lemma OtherStep(goal: string, cl: Classes, s: string, out: string, i: nat, seen: seq<string>)
    requires i < |s| && LabelLength(cl, s[i..]) == 0 && Underway(goal, cl, s, out, i, seen)
    ensures Underway(goal, cl, s, out + [s[i]], i + 1, seen)
  {
    var after := s[i + 1..];
    assert s[i..][1..] == after;
    var rest := Renamed(Tokens(cl, after), seen);
    var ts := Tokens(cl, s[i..]);
    assert ts == [Other(s[i])] + Tokens(cl, after);
    assert ts[1..] == Tokens(cl, after);
    TextCons(Other(s[i]), rest);
    Associate(out, [s[i]], Text(rest));
    assert Known(MakesGoal, goal, cl, s, out, i, seen);
  }

  lemma AtStart(cl: Classes, s: string)
    ensures Underway(Payload(cl, s), cl, s, "", 0, [])
  {
    assert s[0..] == s;
  }

  lemma AtEnd(goal: string, cl: Classes, s: string, out: string, seen: seq<string>)
    requires Underway(goal, cl, s, out, |s|, seen)
    ensures out == goal
  {
    assert s[|s|..] == "";
    assert Known(MakesGoal, goal, cl, s, out, |s|, seen);
  }

  /** One match, or one character between matches. */
  method Substitute(cl: Classes, s: string, i: nat, labels: map<string, string>, ghost seen: seq<string>, out: string,
                    ghost goal: string)
    returns (i': nat, labels': map<string, string>, ghost seen': seq<string>, out': string)
    requires i < |s| && Holds(labels, seen) && Underway(goal, cl, s, out, i, seen)
    ensures i < i' <= |s| && Holds(labels', seen') && Underway(goal, cl, s, out', i', seen')
  {
    var n := LabelLength(cl, s[i..]);
    if n > 0 {
      var m, name := s[i..i + n], "";
      labels', name := SetDefault(labels, seen, m);
      seen' := Seen(m, seen);
      LabelStep(goal, cl, s, out, i, seen, n, m, name);
      out', i' := out + name, i + n;
    } else {
      OtherStep(goal, cl, s, out, i, seen);
      labels', seen', out', i' := labels, seen, out + [s[i]], i + 1;
    }
  }

  lemma NoneHeld()
    ensures Holds(map[], [])
  {
  }

  /** `object_payload`: the text walked by `re.sub`, with the dictionary that `setdefault` grows. */
  method ObjectPayload(cl: Classes, s: string) returns (out: string)
    ensures out == Payload(cl, s)
  {
    out := "";
    var labels: map<string, string> := map[];
    var i: nat := 0;
    ghost var seen: seq<string>, goal := [], Payload(cl, s);
    AtStart(cl, s);
    NoneHeld();
    while i < |s|
      invariant i <= |s| && Holds(labels, seen) && Underway(goal, cl, s, out, i, seen)
      decreases |s| - i
    {
      i, labels, seen, out := Substitute(cl, s, i, labels, seen, out, goal);
    }
    AtEnd(goal, cl, s, out, seen);
  }
}

/** Comparing payloads decides whether two dumps differ only by a renaming of their labels. */
module LabelEquivalence {
  import opened Decimals
  import opened Labels

  // ----- Equality up to the names of labels -----

  /** The tokens agree position by position but for the names of labels. */
  predicate SameShape(a: seq<Token>, b: seq<Token>) {
    |a| == |b| && forall i :: 0 <= i < |a| ==> if a[i].Label? then b[i].Label? else a[i] == b[i]
  }

  /** The labels that stand at the same positions. */
  function Pairs(a: seq<Token>, b: seq<Token>): set<(string, string)> {
    set i | 0 <= i < |a| && i < |b| && a[i].Label? && b[i].Label? :: (a[i].name, b[i].name)
  }

  /** The relation is one to one: a bijection between the names on either side. */
  ghost predicate OneToOne(pairs: set<(string, string)>) {
    forall p, q :: p in pairs && q in pairs ==> (p.0 == q.0 <==> p.1 == q.1)
  }

  /** Equal up to the names of labels. */
  ghost predicate Equivalent(a: seq<Token>, b: seq<Token>) {
    SameShape(a, b) && OneToOne(Pairs(a, b))
  }

  function Zip(x: seq<string>, y: seq<string>): set<(string, string)>
    requires |x| == |y|
  {
    set k | 0 <= k < |x| :: (x[k], y[k])
  }

  lemma ZipSnoc(x: seq<string>, y: seq<string>, m: string, n: string)
    requires |x| == |y|
    ensures Zip(x + [m], y + [n]) == Zip(x, y) + {(m, n)}
  {
    var z := Zip(x + [m], y + [n]);
    forall p | p in z
      ensures p in Zip(x, y) + {(m, n)}
    {
      var k :| 0 <= k < |x + [m]| && p == ((x + [m])[k], (y + [n])[k]);
      if k < |x| {
        assert p == (x[k], y[k]);
      }
    }
    forall p | p in Zip(x, y) + {(m, n)}
      ensures p in z
    {
      if p in Zip(x, y) {
        var k :| 0 <= k < |x| && p == (x[k], y[k]);
        assert p == ((x + [m])[k], (y + [n])[k]);
      } else {
        assert p == ((x + [m])[|x|], (y + [n])[|x|]);
      }
    }
  }

  lemma PairsCons(a: seq<Token>, b: seq<Token>)
    requires a != [] && b != []
    ensures Pairs(a, b) == (if a[0].Label? && b[0].Label? then {(a[0].name, b[0].name)} else {}) + Pairs(a[1..], b[1..])
  {
    forall p | p in Pairs(a[1..], b[1..])
      ensures p in Pairs(a, b)
    {
      var i :| 0 <= i < |a[1..]| && i < |b[1..]| && a[1..][i].Label? && b[1..][i].Label?
                    && p == (a[1..][i].name, b[1..][i].name);
      assert a[i + 1] == a[1..][i] && b[i + 1] == b[1..][i];
    }
    forall p | p in Pairs(a, b)
      ensures p in (if a[0].Label? && b[0].Label? then {(a[0].name, b[0].name)} else {}) + Pairs(a[1..], b[1..])
    {
      var i :| 0 <= i < |a| && i < |b| && a[i].Label? && b[i].Label? && p == (a[i].name, b[i].name);
      if i > 0 {
        assert a[i] == a[1..][i - 1] && b[i] == b[1..][i - 1];
      }
    }
  }

  lemma ShapeCons(a: seq<Token>, b: seq<Token>)
    requires a != [] && b != []
    ensures SameShape(a, b) <==> (if a[0].Label? then b[0].Label? else a[0] == b[0]) && SameShape(a[1..], b[1..])
  {
    if SameShape(a[1..], b[1..]) {
      assert forall i :: 1 <= i < |a| ==> a[i] == a[1..][i - 1];
      assert forall i :: 1 <= i < |b| ==> b[i] == b[1..][i - 1];
    }
  }

  // ----- Renaming decides it -----

  lemma NewNameInjective(j: nat, k: nat)
    requires NewName(j) == NewName(k)
    ensures j == k
  {
    assert NewName(j)[3..] == Decimal(j) && NewName(k)[3..] == Decimal(k);
    DecimalInjective(j, k);
  }

  lemma SeenDistinct(m: string, seen: seq<string>)
    requires Distinct(seen)
    ensures Distinct(Seen(m, seen))
  {
  }

  /** Where two labels meet lists of seen labels: their new names agree exactly when the pair keeps the
      relation one to one, and then the lists grow together. */
  lemma MeetLabels(m: string, n: string, x: seq<string>, y: seq<string>)
    requires |x| == |y| && Distinct(x) && Distinct(y)
    ensures IndexOf(m, Seen(m, x)) == IndexOf(n, Seen(n, y)) ==>
      |Seen(m, x)| == |Seen(n, y)| && Zip(Seen(m, x), Seen(n, y)) == Zip(x, y) + {(m, n)}
    ensures IndexOf(m, Seen(m, x)) != IndexOf(n, Seen(n, y)) ==> !OneToOne(Zip(x, y) + {(m, n)})
  {
    var i, j := IndexOf(m, Seen(m, x)), IndexOf(n, Seen(n, y));
    if i == j {
      if m in x {
        assert (x[i], y[i]) in Zip(x, y);
      } else {
        assert i == |x|;
        ZipSnoc(x, y, m, n);
      }
    } else {
      var pairs := Zip(x, y) + {(m, n)};
      assert (m, n) in pairs;
      if m in x {
        assert (x[i], y[i]) in pairs;
      } else {
        assert n in y;
        assert (x[j], y[j]) in pairs;
      }
    }
  }

  lemma SubsetOneToOne(p: set<(string, string)>, q: set<(string, string)>)
    requires p <= q && OneToOne(q)
    ensures OneToOne(p)
  {
  }

  lemma RenamedHead(ts: seq<Token>, seen: seq<string>)
    requires ts != []
    ensures ts[0].Other? ==> Renamed(ts, seen)[0] == ts[0] && Renamed(ts, seen)[1..] == Renamed(ts[1..], seen)
    ensures ts[0].Label? ==> Renamed(ts, seen)[0] == Label(NewName(IndexOf(ts[0].name, Seen(ts[0].name, seen))))
    ensures ts[0].Label? ==> Renamed(ts, seen)[1..] == Renamed(ts[1..], Seen(ts[0].name, seen))
  {
  }

  lemma ConsEqual<T>(a: seq<T>, b: seq<T>)
    requires a != [] && b != []
    ensures a == b <==> a[0] == b[0] && a[1..] == b[1..]
  {
    if a[0] == b[0] && a[1..] == b[1..] {
      assert a == [a[0]] + a[1..] && b == [b[0]] + b[1..];
    }
  }

  /** Renamed token lists are equal if and only if the tokens have the same shape and their labels,
      with those seen before, are paired one to one. */
  lemma {:induction false} RenamedDecides(a: seq<Token>, b: seq<Token>, x: seq<string>, y: seq<string>)
    requires |x| == |y| && Distinct(x) && Distinct(y)
    ensures Renamed(a, x) == Renamed(b, y) <==> SameShape(a, b) && OneToOne(Zip(x, y) + Pairs(a, b))
    decreases |a|, 1
  {
    if a == [] || b == [] {
      DistinctZip(x, y);
      if a == b {
        assert Zip(x, y) + Pairs(a, b) == Zip(x, y);
      }
    } else {
      RenamedHead(a, x);
      RenamedHead(b, y);
      ConsEqual(Renamed(a, x), Renamed(b, y));
      PairsCons(a, b);
      ShapeCons(a, b);
      if a[0].Label? && b[0].Label? {
        LabelHeads(a, b, x, y);
      } else {
        RenamedDecides(a[1..], b[1..], x, y);
        assert Zip(x, y) + Pairs(a, b) == Zip(x, y) + Pairs(a[1..], b[1..]);
      }
    }
  }

  lemma {:induction false} LabelHeads(a: seq<Token>, b: seq<Token>, x: seq<string>, y: seq<string>)
    requires a != [] && b != [] && a[0].Label? && b[0].Label?
    requires |x| == |y| && Distinct(x) && Distinct(y)
    ensures Renamed(a, x) == Renamed(b, y) <==> SameShape(a, b) && OneToOne(Zip(x, y) + Pairs(a, b))
    decreases |a|, 0
  {
    var m, n := a[0].name, b[0].name;
    var x', y' := Seen(m, x), Seen(n, y);
    RenamedHead(a, x);
    RenamedHead(b, y);
    ConsEqual(Renamed(a, x), Renamed(b, y));
    PairsCons(a, b);
    ShapeCons(a, b);
    MeetLabels(m, n, x, y);
    var all := Zip(x, y) + Pairs(a, b);
    assert Zip(x, y) + {(m, n)} <= all;
    if IndexOf(m, x') != IndexOf(n, y') {
      if OneToOne(all) {
        SubsetOneToOne(Zip(x, y) + {(m, n)}, all);
      }
      if NewName(IndexOf(m, x')) == NewName(IndexOf(n, y')) {
        NewNameInjective(IndexOf(m, x'), IndexOf(n, y'));
      }
    } else {
      assert Zip(x', y') + Pairs(a[1..], b[1..]) == all;
      SeenDistinct(m, x);
      SeenDistinct(n, y);
      DistinctZip(x', y');
      RenamedDecides(a[1..], b[1..], x', y');
    }
  }

  lemma DistinctZip(x: seq<string>, y: seq<string>)
    requires |x| == |y| && Distinct(x) && Distinct(y)
    ensures OneToOne(Zip(x, y))
  {
  }

  // ----- Reading the renamed text again -----

  /** A label as the expression finds it: the prefix and at least one digit. */
  ghost predicate LabelName(cl: Classes, name: string) {
    PREFIX <= name && |name| > 3 && forall i :: 3 <= i < |name| ==> cl.digit(name[i])
  }

  ghost predicate LabelNames(cl: Classes, ts: seq<Token>) {
    forall i :: 0 <= i < |ts| && ts[i].Label? ==> LabelName(cl, ts[i].name)
  }

  lemma {:induction false} RunIsDigits(cl: Classes, s: string, i: nat)
    requires i < Run(cl, s)
    ensures cl.digit(s[i])
  {
    if i > 0 {
      RunIsDigits(cl, s[1..], i - 1);
    }
  }

  lemma {:induction false} RunBefore(cl: Classes, p: string, rest: string)
    requires rest == "" || !cl.digit(rest[0])
    ensures Run(cl, p + rest) == Run(cl, p)
  {
    if p == "" {
      assert p + rest == rest;
    } else {
      assert (p + rest)[1..] == p[1..] + rest;
      RunBefore(cl, p[1..], rest);
    }
  }

  lemma {:induction false} RunAll(cl: Classes, p: string)
    requires forall i :: 0 <= i < |p| ==> cl.digit(p[i])
    ensures Run(cl, p) == |p|
  {
    if p != "" {
      RunAll(cl, p[1..]);
    }
  }

  /** What is found is a label, and no word goes on behind it. */
  lemma LabelFound(cl: Classes, s: string)
    requires LabelLength(cl, s) > 0
    ensures var n := LabelLength(cl, s); LabelName(cl, s[..n]) && (n < |s| ==> !cl.word(s[n]))
  {
    var n := LabelLength(cl, s);
    forall i | 3 <= i < n
      ensures cl.digit(s[..n][i])
    {
      RunIsDigits(cl, s[3..], i - 3);
    }
  }

  /** A label is found where no word goes on behind it. */
  lemma LabelThere(cl: Classes, name: string, rest: string)
    requires Sound(cl) && LabelName(cl, name) && (rest == "" || !cl.word(rest[0]))
    ensures LabelLength(cl, name + rest) == |name|
  {
    RunAll(cl, name[3..]);
    RunBefore(cl, name[3..], rest);
    assert (name + rest)[3..] == name[3..] + rest;
  }

  /** Whether a label stands at the front does not depend on the next label. */
  lemma LabelLocal(cl: Classes, p: string, rest: string)
    requires Sound(cl) && p != "" && (rest == "" || rest[0] == '.')
    ensures LabelLength(cl, p + rest) == LabelLength(cl, p)
  {
    if |p| >= 3 {
      RunBefore(cl, p[3..], rest);
      assert (p + rest)[3..] == p[3..] + rest;
    } else if rest != "" {
      assert (p + rest)[|p|] == '.';
    } else {
      assert p + rest == p;
    }
  }

  /** The characters before the first label. */
  function Lead(ts: seq<Token>): string {
    if ts == [] || ts[0].Label? then "" else [ts[0].c] + Lead(ts[1..])
  }

  lemma {:induction false} LeadThenLabel(cl: Classes, ts: seq<Token>) returns (rest: string)
    requires LabelNames(cl, ts)
    ensures Text(ts) == Lead(ts) + rest && (rest == "" || rest[0] == '.')
  {
    if ts == [] {
      rest := "";
    } else if ts[0].Label? {
      rest := Text(ts);
      assert LabelName(cl, ts[0].name);
    } else {
      rest := LeadThenLabel(cl, ts[1..]);
    }
  }

  lemma {:induction false} SameLead(a: seq<Token>, b: seq<Token>)
    requires SameShape(a, b)
    ensures Lead(a) == Lead(b)
  {
    if a != [] {
      ShapeCons(a, b);
      SameLead(a[1..], b[1..]);
    }
  }

  /** The first token of a text and the tokens behind it. */
  lemma FirstToken(cl: Classes, s: string) returns (t: Token, n: nat)
    requires s != ""
    ensures 0 < n <= |s| && Tokens(cl, s) == [t] + Tokens(cl, s[n..])
    ensures t == (if LabelLength(cl, s) > 0 then Label(s[..n]) else Other(s[0]))
    ensures t.Label? ==> LabelName(cl, t.name)
    ensures t.Other? ==> n == 1
  {
    n := LabelLength(cl, s);
    if n > 0 {
      LabelFound(cl, s);
      t := Label(s[..n]);
    } else {
      t, n := Other(s[0]), 1;
    }
  }

  lemma {:induction false} TokensText(cl: Classes, s: string)
    ensures Text(Tokens(cl, s)) == s && LabelNames(cl, Tokens(cl, s))
    decreases |s|
  {
    if s != "" {
      var t, n := FirstToken(cl, s);
      TokensText(cl, s[n..]);
      TokenBefore(cl, t, Tokens(cl, s[n..]), s, n);
    }
  }

  lemma TokenBefore(cl: Classes, t: Token, ts: seq<Token>, s: string, n: nat)
    requires 0 < n <= |s| && Text(ts) == s[n..] && LabelNames(cl, ts)
    requires if t.Label? then t.name == s[..n] && LabelName(cl, t.name) else n == 1 && t == Other(s[0])
    ensures Text([t] + ts) == s && LabelNames(cl, [t] + ts)
  {
    TextCons(t, ts);
    NamesCons(cl, t, ts);
    assert s == s[..n] + s[n..];
  }

  lemma NamesCons(cl: Classes, t: Token, ts: seq<Token>)
    requires LabelNames(cl, ts) && (t.Label? ==> LabelName(cl, t.name))
    ensures LabelNames(cl, [t] + ts)
  {
  }

  /** A list of tokens that its own text is read as. */
  ghost predicate Stable(cl: Classes, ts: seq<Token>) {
    Tokens(cl, Text(ts)) == ts
  }

  lemma StableHead(cl: Classes, ts: seq<Token>)
    requires ts != [] && Stable(cl, ts) && LabelNames(cl, ts)
    ensures Stable(cl, ts[1..])
    ensures ts[0].Other? ==> LabelLength(cl, Text(ts)) == 0
    ensures ts[0].Label? ==> LabelLength(cl, Text(ts)) == |ts[0].name|
  {
    var s, n := Text(ts), LabelLength(cl, Text(ts));
    if n > 0 {
      assert ts[0] == Label(s[..n]);
      assert s[n..] == Text(ts[1..]);
      assert Tokens(cl, s)[1..] == Tokens(cl, s[n..]);
    } else {
      assert s[1..] == Text(ts[1..]);
      assert Tokens(cl, s)[1..] == Tokens(cl, s[1..]);
    }
  }

  lemma StableOther(cl: Classes, c: char, ts: seq<Token>)
    requires LabelLength(cl, Text([Other(c)] + ts)) == 0 && Stable(cl, ts)
    ensures Stable(cl, [Other(c)] + ts)
  {
    assert ([Other(c)] + ts)[1..] == ts;
    assert Text([Other(c)] + ts)[1..] == Text(ts);
  }

  lemma StableLabel(cl: Classes, name: string, ts: seq<Token>)
    requires LabelLength(cl, Text([Label(name)] + ts)) == |name| > 0 && Stable(cl, ts)
    ensures Stable(cl, [Label(name)] + ts)
  {
    assert ([Label(name)] + ts)[1..] == ts;
    assert Text([Label(name)] + ts)[|name|..] == Text(ts);
    assert Text([Label(name)] + ts)[..|name|] == name;
  }

  /** No word goes on at the front of a text. */
  ghost predicate Boundary(cl: Classes, s: string) {
    s == "" || !cl.word(s[0])
  }

  lemma SameBoundary(cl: Classes, a: seq<Token>, b: seq<Token>)
    requires Sound(cl) && SameShape(a, b) && LabelNames(cl, a) && LabelNames(cl, b) && Boundary(cl, Text(a))
    ensures Boundary(cl, Text(b))
  {
    if b != [] {
      assert a[0] == b[0] || a[0].Label?;
    }
  }

  /** Changing names of labels does not change how the text is read. */
  lemma {:induction false} ShapeStable(cl: Classes, a: seq<Token>, b: seq<Token>)
    requires Sound(cl) && SameShape(a, b) && LabelNames(cl, a) && LabelNames(cl, b) && Stable(cl, a)
    ensures Stable(cl, b)
  {
    if a != [] {
      ShapeCons(a, b);
      StableHead(cl, a);
      ShapeStable(cl, a[1..], b[1..]);
      assert b == [b[0]] + b[1..];
      if a[0].Other? {
        var r := LeadThenLabel(cl, a);
        var r' := LeadThenLabel(cl, b);
        SameLead(a, b);
        LabelLocal(cl, Lead(a), r);
        LabelLocal(cl, Lead(b), r');
        StableOther(cl, b[0].c, b[1..]);
      } else {
        LabelFound(cl, Text(a));
        assert Text(a)[|a[0].name|..] == Text(a[1..]);
        SameBoundary(cl, a[1..], b[1..]);
        LabelThere(cl, b[0].name, Text(b[1..]));
        StableLabel(cl, b[0].name, b[1..]);
      }
    }
  }

  lemma {:induction false} RenamedShape(cl: Classes, ts: seq<Token>, seen: seq<string>)
    requires Sound(cl)
    ensures SameShape(ts, Renamed(ts, seen)) && LabelNames(cl, Renamed(ts, seen))
  {
    if ts != [] {
      var r := Renamed(ts, seen);
      RenamedHead(ts, seen);
      ShapeCons(ts, r);
      RenamedShape(cl, ts[1..], if ts[0].Label? then Seen(ts[0].name, seen) else seen);
      assert r == [r[0]] + r[1..];
    }
  }

  /** The payload is read as the renamed tokens. */
  lemma PayloadTokens(cl: Classes, s: string)
    requires Sound(cl)
    ensures Tokens(cl, Payload(cl, s)) == Renamed(Tokens(cl, s), [])
  {
    var ts := Tokens(cl, s);
    TokensText(cl, s);
    RenamedShape(cl, ts, []);
    ShapeStable(cl, ts, Renamed(ts, []));
  }

  // ----- The comparison -----

  /** Two dumps have equal payloads if and only if they agree position by position but for the names of
      labels, and the names are paired one to one. */
  lemma PayloadDecides(cl: Classes, s: string, t: string)
    requires Sound(cl)
    ensures Payload(cl, s) == Payload(cl, t) <==> Equivalent(Tokens(cl, s), Tokens(cl, t))
  {
    PayloadTokens(cl, s);
    PayloadTokens(cl, t);
    var a, b := Tokens(cl, s), Tokens(cl, t);
    RenamedDecides(a, b, [], []);
    assert Zip([], []) + Pairs(a, b) == Pairs(a, b);
  }

  function NewNames(n: nat): (r: seq<string>)
    ensures |r| == n
  {
    seq(n, k requires 0 <= k < n => NewName(k))
  }

  lemma NewNamesDistinct(n: nat)
    ensures Distinct(NewNames(n))
  {
    forall i, j | 0 <= i < j < n
      ensures NewNames(n)[i] != NewNames(n)[j]
    {
      if NewName(i) == NewName(j) {
        NewNameInjective(i, j);
      }
    }
  }

  lemma {:induction false} RenamedPairs(ts: seq<Token>, seen: seq<string>)
    requires Distinct(seen)
    ensures OneToOne(Zip(NewNames(|seen|), seen) + Pairs(Renamed(ts, seen), ts))
  {
    var r, zip := Renamed(ts, seen), Zip(NewNames(|seen|), seen);
    if ts == [] {
      NewNamesDistinct(|seen|);
      DistinctZip(NewNames(|seen|), seen);
      assert zip + Pairs(r, ts) == zip;
    } else {
      RenamedHead(ts, seen);
      PairsCons(r, ts);
      if ts[0].Label? {
        var m := ts[0].name;
        SeenDistinct(m, seen);
        RenamedPairs(ts[1..], Seen(m, seen));
        SeenZip(m, seen);
        assert zip + Pairs(r, ts) == Zip(NewNames(|Seen(m, seen)|), Seen(m, seen)) + Pairs(r[1..], ts[1..]);
      } else {
        RenamedPairs(ts[1..], seen);
        assert zip + Pairs(r, ts) == zip + Pairs(r[1..], ts[1..]);
      }
    }
  }

  lemma SeenZip(m: string, seen: seq<string>)
    requires Distinct(seen)
    ensures var seen' := Seen(m, seen);
      Zip(NewNames(|seen'|), seen') == Zip(NewNames(|seen|), seen) + {(NewName(IndexOf(m, seen')), m)}
  {
    var i := IndexOf(m, Seen(m, seen));
    if m in seen {
      assert (NewNames(|seen|)[i], seen[i]) in Zip(NewNames(|seen|), seen);
    } else {
      IndexUnique(seen + [m], |seen|);
      assert NewNames(|seen| + 1) == NewNames(|seen|) + [NewName(|seen|)];
      ZipSnoc(NewNames(|seen|), seen, NewName(|seen|), m);
    }
  }

  /** A payload is its own payload. */
  lemma PayloadTwice(cl: Classes, s: string)
    requires Sound(cl)
    ensures Payload(cl, Payload(cl, s)) == Payload(cl, s)
  {
    var a := Tokens(cl, s);
    PayloadTokens(cl, s);
    RenamedShape(cl, a, []);
    RenamedPairs(a, []);
    var r := Renamed(a, []);
    assert Zip(NewNames(0), []) + Pairs(r, a) == Pairs(r, a);
    assert SameShape(r, a);
    PayloadDecides(cl, Payload(cl, s), s);
  }
}

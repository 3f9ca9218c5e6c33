/** What several modules use: optional values, the smaller of two numbers, regrouping of sequences, and which elements
    a filter keeps. */
module Basics {

  datatype Option<+T> = None | Some(value: T)

  function GetOr<T>(o: Option<T>, default: T): T {
    match o
    case None => default
    case Some(v) => v
  }

  function Min(a: int, b: int): (m: int)
    ensures m <= a && m <= b && (m == a || m == b)
  {
    if a < b then a else b
  }

  /** The elements of which `p` holds, in order. */
  function Keep<T>(s: seq<T>, p: T -> bool): seq<T> {
    if s == [] then [] else if p(s[0]) then [s[0]] + Keep(s[1..], p) else Keep(s[1..], p)
  }

  ghost predicate OnlyOne<T>(s: seq<T>, p: T -> bool, a: nat) {
    a < |s| && forall i :: 0 <= i < |s| ==> (p(s[i]) <==> i == a)
  }

  ghost predicate OnlyTwo<T>(s: seq<T>, p: T -> bool, a: nat, b: nat) {
    a < b < |s| && forall i :: 0 <= i < |s| ==> (p(s[i]) <==> i == a || i == b)
  }

  lemma {:induction false} KeepNone<T>(s: seq<T>, p: T -> bool)
    ensures Keep(s, p) == [] <==> forall i :: 0 <= i < |s| ==> !p(s[i])
  {
    if s != [] {
      KeepNone(s[1..], p);
      assert forall i :: 1 <= i < |s| ==> s[i] == s[1..][i - 1];
    }
  }

  lemma {:induction false} KeepOne<T>(s: seq<T>, p: T -> bool)
    ensures forall a: nat :: OnlyOne(s, p, a) ==> Keep(s, p) == [s[a]]
    ensures |Keep(s, p)| == 1 ==> exists a: nat :: OnlyOne(s, p, a)
  {
    if s != [] {
      var rest := s[1..];
      assert forall i :: 1 <= i < |s| ==> s[i] == rest[i - 1];
      KeepNone(rest, p);
      KeepOne(rest, p);
      if p(s[0]) {
        assert |Keep(s, p)| == 1 ==> OnlyOne(s, p, 0);
      } else {
        forall a: nat | OnlyOne(s, p, a)
          ensures Keep(s, p) == [s[a]]
        {
          assert OnlyOne(rest, p, a - 1);
        }
        if a: nat :| OnlyOne(rest, p, a) {
          assert OnlyOne(s, p, a + 1);
        }
      }
    }
  }

  /** Two elements are kept exactly when there are two, and then it is these. */
  lemma {:induction false} KeepTwo<T>(s: seq<T>, p: T -> bool)
    ensures forall a: nat, b: nat :: OnlyTwo(s, p, a, b) ==> Keep(s, p) == [s[a], s[b]]
    ensures |Keep(s, p)| == 2 ==> exists a: nat, b: nat :: OnlyTwo(s, p, a, b)
  {
    if s != [] {
      var rest := s[1..];
      assert forall i :: 1 <= i < |s| ==> s[i] == rest[i - 1];
      KeepOne(rest, p);
      KeepTwo(rest, p);
      if p(s[0]) {
        forall a: nat, b: nat | OnlyTwo(s, p, a, b)
          ensures Keep(s, p) == [s[a], s[b]]
        {
          assert OnlyOne(rest, p, b - 1);
        }
        if b: nat :| OnlyOne(rest, p, b) {
          assert OnlyTwo(s, p, 0, b + 1);
        }
      } else {
        forall a: nat, b: nat | OnlyTwo(s, p, a, b)
          ensures Keep(s, p) == [s[a], s[b]]
        {
          assert OnlyTwo(rest, p, a - 1, b - 1);
        }
        if a: nat, b: nat :| OnlyTwo(rest, p, a, b) {
          assert OnlyTwo(s, p, a + 1, b + 1);
        }
      }
    }
  }

  lemma Associate<T>(a: seq<T>, b: seq<T>, c: seq<T>)
    ensures a + (b + c) == a + b + c
  {
  }
}

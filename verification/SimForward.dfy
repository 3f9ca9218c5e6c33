/** The forward references: for each position where a run may start, the next position with the same
    two hash codes (utils/sim_pasc/hash.c, lines 59-77, 179-210, 238-281). */
module SimForward {
  import opened SimLanguage
  import opened SimCorpus

  /** The first hash code: any function of the window, below the size of the hash table. */
  datatype Hash = Hash(code: seq<Token> -> nat, size: nat)

  ghost predicate GoodHash(h: Hash) {
    forall w :: h.code(w) < h.size
  }

  /** A run of the minimum size may start here and stay within its text. */
  predicate Eligible(c: Corpus, i: nat)
    requires GoodCorpus(c)
  {
    1 <= i < |c.tokens| && MayBeStartOfRun(c.lang, c.tokens[i]) && i + c.minRun <= c.texts[TextOf(c, i)].limit
  }

  function Window(c: Corpus, i: nat): seq<Token>
    requires i + c.minRun <= |c.tokens|
  {
    c.tokens[i..i + c.minRun]
  }

  /** The second hash code: the first and the last token of the window. */
  function Ends(c: Corpus, i: nat): nat
    requires c.minRun >= 1 && i + c.minRun <= |c.tokens|
  {
    (c.tokens[i] as int) * 256 + c.tokens[i + c.minRun - 1] as int
  }

  /** Same first code, and if `both` also same second code. */
  predicate Same(c: Corpus, h: Hash, both: bool, i: nat, j: nat)
    requires c.minRun >= 1 && i + c.minRun <= |c.tokens| && j + c.minRun <= |c.tokens|
  {
    h.code(Window(c, i)) == h.code(Window(c, j)) && (both ==> Ends(c, i) == Ends(c, j))
  }

  /** An eligible position that agrees with `i`. */
  predicate Partner(c: Corpus, h: Hash, both: bool, i: nat, j: nat)
    requires GoodCorpus(c)
  {
    Eligible(c, i) && Eligible(c, j) &&
    i + c.minRun <= |c.tokens| && j + c.minRun <= |c.tokens| && Same(c, h, both, i, j)
  }

  /** `f` is the first partner of `i` behind it and below `bound`, or 0 if there is none. */
  ghost predicate NextBelow(c: Corpus, h: Hash, both: bool, i: nat, f: nat, bound: nat)
    requires GoodCorpus(c)
  {
    && (f != 0 ==> i < f < bound && Partner(c, h, both, i, f))
    && forall j: nat :: i < j < bound && (f != 0 ==> j < f) ==> !Partner(c, h, both, i, j)
  }

  /** What a complete table of forward references satisfies. */
  ghost predicate References(c: Corpus, h: Hash, both: bool, fr: seq<nat>)
    requires GoodCorpus(c)
  {
    |fr| == |c.tokens| && forall i :: 0 <= i < |fr| ==> NextBelow(c, h, both, i, fr[i], |c.tokens|)
  }

  /** `p` is the last eligible position below `bound` with code `v`, or 0 if there is none. */
  ghost predicate LastBelow(c: Corpus, h: Hash, v: nat, p: nat, bound: nat)
    requires GoodCorpus(c)
  {
    && (p != 0 ==> p < bound && Coded(c, h, v, p))
    && forall j: nat :: p < j < bound ==> !Coded(c, h, v, j)
  }

  predicate Coded(c: Corpus, h: Hash, v: nat, i: nat)
    requires GoodCorpus(c)
  {
    Eligible(c, i) && i + c.minRun <= |c.tokens| && h.code(Window(c, i)) == v
  }

  /** The state of the first pass when the positions below `bound` have been entered. */
  ghost predicate Entered(c: Corpus, h: Hash, fr: seq<nat>, last: seq<nat>, bound: nat)
    requires GoodCorpus(c)
  {
    && |fr| == |c.tokens| && |last| == h.size
    && (forall v: nat :: v < h.size ==> LastBelow(c, h, v, last[v], bound))
    && (forall i: nat :: i < |fr| ==> NextBelow(c, h, false, i, fr[i], bound))
    && (forall i: nat :: bound <= i < |fr| ==> fr[i] == 0)
  }

  lemma EnterNothing(c: Corpus, h: Hash, fr: seq<nat>, last: seq<nat>, bound: nat, bound': nat)
    requires GoodCorpus(c) && Entered(c, h, fr, last, bound) && bound <= bound'
    requires forall j: nat :: bound <= j < bound' ==> !Eligible(c, j)
    ensures Entered(c, h, fr, last, bound')
  {
  }

  lemma LastEnters(c: Corpus, h: Hash, u: nat, p: nat, j: nat, v: nat)
    requires GoodCorpus(c) && LastBelow(c, h, u, p, j) && Coded(c, h, v, j)
    ensures LastBelow(c, h, u, if u == v then j else p, j + 1)
  {
  }

  /** Only the last position with the new one's code changes its reference. */
  lemma NextEnters(c: Corpus, h: Hash, i: nat, f: nat, p: nat, j: nat, v: nat)
    requires GoodCorpus(c) && NextBelow(c, h, false, i, f, j)
    requires LastBelow(c, h, v, p, j) && Coded(c, h, v, j) && (j <= i ==> f == 0)
    ensures NextBelow(c, h, false, i, if i == p && p != 0 then j else f, j + 1)
  {
    if i < j && Partner(c, h, false, i, j) {
      assert Coded(c, h, v, i);
      assert i <= p;
      if i != p {
        assert Partner(c, h, false, i, p);
      }
    }
    if i == p && p != 0 {
      assert Partner(c, h, false, i, j);
      if f != 0 {
        assert Coded(c, h, v, f);
      }
    }
  }

  /** Entering an eligible position: the last one with its code now refers to it. */
  lemma EnterOne(c: Corpus, h: Hash, fr: seq<nat>, last: seq<nat>, j: nat, v: nat)
    requires GoodCorpus(c) && Entered(c, h, fr, last, j) && Coded(c, h, v, j) && v < h.size
    ensures last[v] < |fr|
    ensures Entered(c, h, if last[v] != 0 then fr[last[v] := j] else fr, last[v := j], j + 1)
  {
    var p := last[v];
    assert LastBelow(c, h, v, p, j);
    var fr' := if p != 0 then fr[p := j] else fr;
    var last' := last[v := j];
    forall u: nat | u < h.size
      ensures LastBelow(c, h, u, last'[u], j + 1)
    {
      LastEnters(c, h, u, last[u], j, v);
    }
    forall i: nat | i < |fr|
      ensures NextBelow(c, h, false, i, fr'[i], j + 1)
    {
      NextEnters(c, h, i, fr[i], p, j, v);
    }
  }

  method EnterPosition(c: Corpus, h: Hash, j: nat, fr: array<nat>, last: array<nat>)
    requires GoodCorpus(c) && GoodHash(h) && fr != last && Eligible(c, j) && j + c.minRun <= |c.tokens|
    requires Entered(c, h, fr[..], last[..], j)
    modifies fr, last
    ensures Entered(c, h, fr[..], last[..], j + 1)
  {
    ghost var fr0: seq<nat>, last0: seq<nat> := fr[..], last[..];
    var v := h.code(Window(c, j));
    EnterOne(c, h, fr0, last0, j, v);
    if last[v] != 0 {
      fr[last[v]] := j;
    }
    last[v] := j;
    assert fr[..] == if last0[v] != 0 then fr0[last0[v] := j] else fr0;
    assert last[..] == last0[v := j];
  }

  /** Entering the next position of a text, if a run may start there. */
  method EnterNext(c: Corpus, h: Hash, n: nat, j: nat, fr: array<nat>, last: array<nat>)
    requires GoodCorpus(c) && GoodHash(h) && n < |c.texts| && fr != last
    requires c.texts[n].start <= j && j + c.minRun - 1 < c.texts[n].limit && Entered(c, h, fr[..], last[..], j)
    modifies fr, last
    ensures Entered(c, h, fr[..], last[..], j + 1)
  {
    TextsOrdered(c, n, n);
    TextOfUnique(c, j, n);
    if MayBeStartOfRun(c.lang, c.tokens[j]) {
      EnterPosition(c, h, j, fr, last);
    } else {
      EnterNothing(c, h, fr[..], last[..], j, j + 1);
    }
  }

  /** Entering the positions of one text. */
  method EnterText(c: Corpus, h: Hash, n: nat, fr: array<nat>, last: array<nat>)
    requires GoodCorpus(c) && GoodHash(h) && n < |c.texts| && fr != last
    requires Entered(c, h, fr[..], last[..], c.texts[n].start)
    modifies fr, last
    ensures Entered(c, h, fr[..], last[..], c.texts[n].limit)
  {
    TextsOrdered(c, n, n);
    var j: nat := c.texts[n].start;
    while j + c.minRun - 1 < c.texts[n].limit
      invariant c.texts[n].start <= j <= c.texts[n].limit
      invariant Entered(c, h, fr[..], last[..], j)
    {
      EnterNext(c, h, n, j, fr, last);
      j := j + 1;
    }
    TailNotEligible(c, n, j);
    EnterNothing(c, h, fr[..], last[..], j, c.texts[n].limit);
  }

  /** `make_forward_references_hash1`. */
  method HashOnce(c: Corpus, h: Hash) returns (fr: array<nat>)
    requires GoodCorpus(c) && GoodHash(h)
    ensures fresh(fr) && References(c, h, false, fr[..])
  {
    fr := new nat[|c.tokens|](_ => 0);
    var last := new nat[h.size](_ => 0);
    StartEmpty(c, h, fr[..], last[..]);
    for n := 0 to |c.texts|
      invariant Entered(c, h, fr[..], last[..], if n == 0 then 1 else c.texts[n - 1].limit)
    {
      EnterText(c, h, n, fr, last);
    }
  }

  lemma StartEmpty(c: Corpus, h: Hash, fr: seq<nat>, last: seq<nat>)
    requires GoodCorpus(c) && |fr| == |c.tokens| && |last| == h.size
    requires (forall i :: 0 <= i < |fr| ==> fr[i] == 0) && (forall v :: 0 <= v < |last| ==> last[v] == 0)
    ensures Entered(c, h, fr, last, 1)
  {
  }

  lemma TailNotEligible(c: Corpus, n: nat, j: nat)
    requires GoodCorpus(c) && n < |c.texts| && c.texts[n].start <= j && c.texts[n].limit < j + c.minRun
    ensures forall i: nat :: j <= i < c.texts[n].limit ==> !Eligible(c, i)
  {
    forall i: nat | j <= i < c.texts[n].limit
      ensures !Eligible(c, i)
    {
      TextOfUnique(c, i, n);
    }
  }

  lemma PartnerWeaker(c: Corpus, h: Hash, i: nat, j: nat)
    requires GoodCorpus(c) && Partner(c, h, true, i, j)
    ensures Partner(c, h, false, i, j) && Ends(c, i) == Ends(c, j)
  {
  }

  lemma PartnerTransitive(c: Corpus, h: Hash, i: nat, f: nat, j: nat)
    requires GoodCorpus(c) && Partner(c, h, false, i, f) && Partner(c, h, true, i, j)
    ensures Partner(c, h, false, f, j)
  {
  }

  /** Every partner of `i` by both codes below the position `f` has been ruled out. */
  ghost predicate RuledOut(c: Corpus, h: Hash, i: nat, f: nat)
    requires GoodCorpus(c)
  {
    forall j: nat :: i < j < |c.tokens| && (f != 0 ==> j < f) ==> !Partner(c, h, true, i, j)
  }

  lemma RuleOutFirst(c: Corpus, h: Hash, i: nat, f: nat)
    requires GoodCorpus(c) && NextBelow(c, h, false, i, f, |c.tokens|)
    ensures RuledOut(c, h, i, f)
  {
    forall j: nat | i < j < |c.tokens| && (f != 0 ==> j < f)
      ensures !Partner(c, h, true, i, j)
    {
      if Partner(c, h, true, i, j) {
        PartnerWeaker(c, h, i, j);
      }
    }
  }

  lemma RuleOutMore(c: Corpus, h: Hash, i: nat, f: nat, g: nat)
    requires GoodCorpus(c) && RuledOut(c, h, i, f) && f != 0 && Partner(c, h, false, i, f)
    requires Ends(c, f) != Ends(c, i) && NextBelow(c, h, false, f, g, |c.tokens|)
    ensures RuledOut(c, h, i, g)
    ensures g != 0 ==> Partner(c, h, false, i, g)
  {
    forall j: nat | i < j < |c.tokens| && (g != 0 ==> j < g)
      ensures !Partner(c, h, true, i, j)
    {
      if Partner(c, h, true, i, j) {
        if j == f {
          PartnerWeaker(c, h, i, f);
        } else if f < j {
          PartnerTransitive(c, h, i, f, j);
        }
      }
    }
  }

  /** Following the references of the first pass from `i` up to the first position with the same
      second code, or to the end. */
  method FirstWithSameEnds(c: Corpus, h: Hash, fr: array<nat>, i: nat) returns (f: nat)
    requires GoodCorpus(c) && fr.Length == |c.tokens| && i + c.minRun < |c.tokens|
    requires forall k: nat :: i <= k < fr.Length ==> NextBelow(c, h, false, k, fr[k], |c.tokens|)
    ensures NextBelow(c, h, true, i, f, |c.tokens|)
  {
    f := fr[i];
    RuleOutFirst(c, h, i, f);
    while f != 0 && Ends(c, f) != Ends(c, i)
      invariant f != 0 ==> i < f < |c.tokens| && f + c.minRun <= |c.tokens| && Partner(c, h, false, i, f)
      invariant RuledOut(c, h, i, f)
      decreases if f == 0 then 0 else |c.tokens| - f
    {
      RuleOutMore(c, h, i, f, fr[f]);
      f := fr[f];
    }
  }

  /** `make_forward_references_hash2`. */
  method HashTwice(c: Corpus, h: Hash, fr: array<nat>)
    requires GoodCorpus(c) && References(c, h, false, fr[..])
    modifies fr
    ensures References(c, h, true, fr[..])
  {
    assert forall k: nat :: k < fr.Length ==> NextBelow(c, h, false, k, fr[..][k], |c.tokens|);
    var i := 0;
    while i + c.minRun < |c.tokens|
      invariant i <= |c.tokens|
      invariant forall k: nat :: k < i ==> NextBelow(c, h, true, k, fr[k], |c.tokens|)
      invariant forall k: nat :: i <= k < fr.Length ==> NextBelow(c, h, false, k, fr[k], |c.tokens|)
    {
      var f := FirstWithSameEnds(c, h, fr, i);
      fr[i] := f;
      i := i + 1;
    }
    forall k: nat | k < fr.Length
      ensures NextBelow(c, h, true, k, fr[k], |c.tokens|)
    {
      if k >= i {
        LastWindows(c, h, k, fr[k]);
      }
    }
  }

  /** Behind the last window no position has a partner. */
  lemma LastWindows(c: Corpus, h: Hash, k: nat, f: nat)
    requires GoodCorpus(c) && k + c.minRun >= |c.tokens| && NextBelow(c, h, false, k, f, |c.tokens|)
    ensures NextBelow(c, h, true, k, f, |c.tokens|)
  {
  }

  /** `MakeForwardReferences`: every position refers to the next one that may start the same run. */
  method MakeForwardReferences(c: Corpus, h: Hash) returns (fr: array<nat>)
    requires GoodCorpus(c) && GoodHash(h)
    ensures fresh(fr) && References(c, h, true, fr[..])
  {
    fr := HashOnce(c, h);
    HashTwice(c, h, fr);
  }
}

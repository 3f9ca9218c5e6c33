/** The token array with its texts, and what comparing two positions of it means
    (utils/sim_pasc/pass1.c, compare.c). */
module SimCorpus {
  import opened Basics
  import opened SimLanguage

  /** A text is the range `[start, limit)` of the token array. */
  datatype Text = Text(start: nat, limit: nat)

  /** `tokens[0]` is not used. */
  datatype Corpus = Corpus(tokens: seq<Token>, texts: seq<Text>, minRun: nat, lang: Language)

  /** The texts follow each other without gaps from position 1 to the end, as the first pass stores
      them; some may be empty. */
  ghost predicate GoodCorpus(c: Corpus) {
    && c.minRun >= 1 && GoodLanguage(c.lang) && c.texts != []
    && c.texts[0].start == 1 && c.texts[|c.texts| - 1].limit == |c.tokens|
    && (forall n :: 0 <= n < |c.texts| ==> c.texts[n].start <= c.texts[n].limit)
    && forall n :: 0 < n < |c.texts| ==> c.texts[n].start == c.texts[n - 1].limit
  }

  lemma {:induction false} TextsOrdered(c: Corpus, m: nat, n: nat)
    requires GoodCorpus(c) && m <= n < |c.texts|
    ensures 1 <= c.texts[m].start <= c.texts[n].start && c.texts[m].limit <= c.texts[n].limit <= |c.tokens|
    ensures m < n ==> c.texts[m].limit <= c.texts[n].start
    decreases n
  {
    TextsBelow(c, m);
    TextsUpTo(c, n);
    if m < n {
      TextsOrdered(c, m, n - 1);
    }
  }

  lemma {:induction false} TextsBelow(c: Corpus, n: nat)
    requires GoodCorpus(c) && n < |c.texts|
    ensures 1 <= c.texts[n].start
  {
    if n > 0 {
      TextsBelow(c, n - 1);
    }
  }

  lemma {:induction false} TextsUpTo(c: Corpus, n: nat)
    requires GoodCorpus(c) && n < |c.texts|
    ensures c.texts[n].limit <= |c.tokens|
    decreases |c.texts| - n
  {
    if n < |c.texts| - 1 {
      TextsUpTo(c, n + 1);
    }
  }

  /** The first text, from number `n` on, that ends after position `i`. */
  function TextFrom(c: Corpus, n: nat, i: nat): (t: nat)
    requires n < |c.texts| && i < c.texts[|c.texts| - 1].limit
    ensures n <= t < |c.texts| && i < c.texts[t].limit
    ensures forall m :: n <= m < t ==> c.texts[m].limit <= i
    decreases |c.texts| - n
  {
    if i < c.texts[n].limit then n else TextFrom(c, n + 1, i)
  }

  /** The text that holds position `i`. */
  function TextOf(c: Corpus, i: nat): (t: nat)
    requires GoodCorpus(c) && 1 <= i < |c.tokens|
    ensures t < |c.texts| && c.texts[t].start <= i < c.texts[t].limit
  {
    var t := TextFrom(c, 0, i);
    assert t > 0 ==> c.texts[t].start == c.texts[t - 1].limit;
    t
  }

  lemma TextOfUnique(c: Corpus, i: nat, t: nat)
    requires GoodCorpus(c) && t < |c.texts| && c.texts[t].start <= i < c.texts[t].limit
    ensures 1 <= i < |c.tokens| && TextOf(c, i) == t
  {
    TextsOrdered(c, t, t);
    var u := TextOf(c, i);
    if u < t {
      TextsOrdered(c, u, t);
    }
  }

  // ----- Runs -----

  /** How many tokens from `i0` and from `i1` on agree, at most `room`. */
  function Common(tokens: seq<Token>, i0: nat, i1: nat, room: nat): (n: nat)
    requires i0 + room <= |tokens| && i1 + room <= |tokens|
    ensures n <= room
    decreases room
  {
    if room == 0 || tokens[i0] != tokens[i1] then 0 else Common(tokens, i0 + 1, i1 + 1, room - 1) + 1
  }

  /** `Common` is the greatest number of agreeing tokens. */
  lemma {:induction false} CommonIsGreatest(tokens: seq<Token>, i0: nat, i1: nat, room: nat, n: nat)
    requires i0 + room <= |tokens| && i1 + room <= |tokens| && n <= room
    ensures n <= Common(tokens, i0, i1, room) <==> tokens[i0..i0 + n] == tokens[i1..i1 + n]
    decreases room
  {
    if n > 0 {
      var a, b := tokens[i0..i0 + n], tokens[i1..i1 + n];
      assert a == [tokens[i0]] + tokens[i0 + 1..i0 + n];
      assert b == [tokens[i1]] + tokens[i1 + 1..i1 + n];
      assert a == b <==> tokens[i0] == tokens[i1] && tokens[i0 + 1..i0 + n] == tokens[i1 + 1..i1 + n] by {
        assert a[0] == tokens[i0] && b[0] == tokens[i1];
        assert a[1..] == tokens[i0 + 1..i0 + n] && b[1..] == tokens[i1 + 1..i1 + n];
      }
      CommonIsGreatest(tokens, i0 + 1, i1 + 1, room - 1, n - 1);
    }
  }

  /** The room for a run from `i0` in its text `t0` and from `i1` in its own text, without the first
      reaching the second. */
  function Room(c: Corpus, t0: nat, i0: nat, i1: nat): (r: nat)
    requires GoodCorpus(c) && t0 < |c.texts| && c.texts[t0].start <= i0 <= c.texts[t0].limit
    requires i0 < i1 < |c.tokens|
    ensures i0 + r <= c.texts[t0].limit && i1 + r <= c.texts[TextOf(c, i1)].limit && i0 + r <= i1
    ensures i0 + r <= |c.tokens| && i1 + r <= |c.tokens|
  {
    TextsOrdered(c, t0, t0);
    TextsOrdered(c, TextOf(c, i1), TextOf(c, i1));
    Min(Min(c.texts[t0].limit - i0, c.texts[TextOf(c, i1)].limit - i1), i1 - i0)
  }

  /** The size of the run at `i0` and `i1`: the longest common one there is room for, as the language
      accepts it. */
  ghost function RunSize(c: Corpus, t0: nat, i0: nat, i1: nat): (size: nat)
    requires GoodCorpus(c) && t0 < |c.texts| && c.texts[t0].start <= i0 < c.texts[t0].limit
    requires i0 < i1 < |c.tokens|
    ensures size <= Common(c.tokens, i0, i1, Room(c, t0, i0, i1))
  {
    var n := Common(c.tokens, i0, i1, Room(c, t0, i0, i1));
    if MayBeStartOfRun(c.lang, c.tokens[i0]) then Accepted(c.lang, c.tokens[i0..i0 + n]) else 0
  }

  /** The run sizes of text `t0` as a table over both positions. */
  ghost function Sizes(c: Corpus, t0: nat): (nat, nat) -> nat
    requires GoodCorpus(c) && t0 < |c.texts|
  {
    (i0, i1) => if c.texts[t0].start <= i0 < c.texts[t0].limit && i0 < i1 < |c.tokens|
                  then RunSize(c, t0, i0, i1) else 0
  }

  /** A position for the second half of a run: behind the first and within the searched range. */
  predicate Opposite(i0: nat, first: nat, limit: nat, i1: nat) {
    i0 < i1 && first <= i1 < limit
  }

  ghost predicate NoRun(sizes: (nat, nat) -> nat, minRun: nat, i0: nat, first: nat, limit: nat) {
    forall i1: nat :: Opposite(i0, first, limit, i1) ==> sizes(i0, i1) < minRun
  }

  /** `size` is the greatest run size over all opposite positions and `at` the first to reach it. */
  ghost predicate BestRun(sizes: (nat, nat) -> nat, minRun: nat, i0: nat, first: nat, limit: nat, at: nat, size: nat) {
    && Opposite(i0, first, limit, at) && sizes(i0, at) == size && size >= minRun
    && (forall j: nat :: Opposite(i0, first, limit, j) ==> sizes(i0, j) <= size)
    && (forall j: nat :: Opposite(i0, first, limit, j) && j < at ==> sizes(i0, j) < size)
  }
}

/** The search for the longest run at a position and the comparison of whole texts
    (utils/sim_pasc/compare.c). */
module SimCompare {
  import opened SimLanguage
  import opened SimCorpus
  import opened SimForward

  /** The first position of a run and its text. */
  ghost predicate At(c: Corpus, t0: nat, i0: nat)
  {
    GoodCorpus(c) && t0 < |c.texts| && c.texts[t0].start <= i0 < c.texts[t0].limit
  }

  lemma AtBounds(c: Corpus, t0: nat, i0: nat)
    requires At(c, t0, i0)
    ensures 1 <= i0 < |c.tokens| && TextOf(c, i0) == t0
  {
    TextOfUnique(c, i0, t0);
  }

  // ----- What the forward references may skip -----

  /** A position whose run is long enough is a partner of `i0` under any hash code: the chain of
      forward references does not miss it. */
  lemma RunMeansPartner(c: Corpus, h: Hash, t0: nat, i0: nat, i1: nat)
    requires At(c, t0, i0) && i0 < i1 < |c.tokens| && RunSize(c, t0, i0, i1) >= c.minRun
    ensures Partner(c, h, true, i0, i1)
  {
    AtBounds(c, t0, i0);
    var room := Room(c, t0, i0, i1);
    CommonIsGreatest(c.tokens, i0, i1, room, c.minRun);
    TextsOrdered(c, TextOf(c, i1), TextOf(c, i1));
    TextsOrdered(c, t0, t0);
    assert Window(c, i0) == Window(c, i1);
    assert c.tokens[i0] == Window(c, i0)[0] && c.tokens[i1] == Window(c, i1)[0];
    assert c.tokens[i0 + c.minRun - 1] == Window(c, i0)[c.minRun - 1];
    assert c.tokens[i1 + c.minRun - 1] == Window(c, i1)[c.minRun - 1];
  }

  /** Partners of partners are partners. */
  lemma PartnerChain(c: Corpus, h: Hash, i0: nat, i1: nat, j: nat)
    requires GoodCorpus(c) && Partner(c, h, true, i0, j) && (i1 == i0 || Partner(c, h, true, i0, i1))
    ensures Partner(c, h, true, i1, j)
  {
  }

  // ----- One candidate -----

  /** The test from the back: are the `size` tokens from `i0` and from `i1` on the same? */
  method TailMatches(c: Corpus, i0: nat, i1: nat, size: nat) returns (same: bool)
    requires i0 + size <= |c.tokens| && i1 + size <= |c.tokens|
    ensures same <==> c.tokens[i0..i0 + size] == c.tokens[i1..i1 + size]
  {
    ghost var a, b := c.tokens[i0..i0 + size], c.tokens[i1..i1 + size];
    var cnt, j0, j1 := size, i0 + size - 1, i1 + size - 1;
    while cnt != 0 && c.tokens[j0] == c.tokens[j1]
      invariant 0 <= cnt <= size && j0 == i0 + cnt - 1 && j1 == i1 + cnt - 1
      invariant forall k :: cnt <= k < size ==> a[k] == b[k]
    {
      assert a[cnt - 1] == c.tokens[j0] && b[cnt - 1] == c.tokens[j1];
      cnt, j0, j1 := cnt - 1, j0 - 1, j1 - 1;
    }
    if cnt != 0 {
      assert a[cnt - 1] == c.tokens[j0] && b[cnt - 1] == c.tokens[j1];
    }
    same := cnt == 0;
  }

  /** One more token agrees exactly when the common stretch is longer. */
  lemma {:induction false} CommonNext(tokens: seq<Token>, i0: nat, i1: nat, room: nat, n: nat)
    requires i0 + room <= |tokens| && i1 + room <= |tokens| && n < room && n <= Common(tokens, i0, i1, room)
    ensures tokens[i0 + n] == tokens[i1 + n] <==> n < Common(tokens, i0, i1, room)
    decreases n
  {
    if n > 0 {
      CommonNext(tokens, i0 + 1, i1 + 1, room - 1, n - 1);
    }
  }

  /** The extension of a match of `min` tokens: the longest common run there is room for. */
  method Extend(c: Corpus, t0: nat, i0: nat, i1: nat, t1: nat, min: nat) returns (size: nat)
    requires At(c, t0, i0) && i0 < i1 < |c.tokens| && t1 == TextOf(c, i1)
    requires min <= Room(c, t0, i0, i1) && c.tokens[i0..i0 + min] == c.tokens[i1..i1 + min]
    ensures size == Common(c.tokens, i0, i1, Room(c, t0, i0, i1))
  {
    var limit0, limit1 := c.texts[t0].limit, c.texts[t1].limit;
    ghost var room := Room(c, t0, i0, i1);
    size := min;
    var j0, j1 := i0 + min, i1 + min;
    TextsOrdered(c, t0, t0);
    TextsOrdered(c, t1, t1);
    CommonIsGreatest(c.tokens, i0, i1, room, min);
    while j0 < limit0 && j1 < limit1 && j0 + size < j1 && c.tokens[j0] == c.tokens[j1]
      invariant j0 == i0 + size && j1 == i1 + size && size <= room
      invariant size <= Common(c.tokens, i0, i1, room)
      decreases room - size
    {
      CommonNext(c.tokens, i0, i1, room, size);
      j0, j1, size := j0 + 1, j1 + 1, size + 1;
    }
    if size < room {
      CommonNext(c.tokens, i0, i1, room, size);
    }
  }

  /** One candidate position: its run size, or 0 when the search can tell beforehand that it will not
      reach `min` tokens. */
  method TryAt(c: Corpus, t0: nat, i0: nat, i1: nat, t1: nat, min: nat) returns (size: nat)
    requires At(c, t0, i0) && i0 < i1 < |c.tokens| && t1 == TextOf(c, i1) && min >= 1
    ensures size == RunSize(c, t0, i0, i1) || (size == 0 && RunSize(c, t0, i0, i1) < min)
  {
    ghost var room := Room(c, t0, i0, i1);
    var j0, j1 := i0 + min - 1, i1 + min - 1;
    if !(j0 < c.texts[t0].limit && j1 < c.texts[t1].limit && j0 < j1 - min + 1) {
      assert room < min;
      return 0;
    }
    assert min <= room;
    var same := TailMatches(c, i0, i1, min);
    CommonIsGreatest(c.tokens, i0, i1, room, min);
    if !same {
      return 0;
    }
    var n := Extend(c, t0, i0, i1, t1, min);
    AtBounds(c, t0, i0);
    size := AcceptAt(c.lang, c.tokens, i0, n);
  }

  /** What the language accepts of a stretch of `n` equal tokens. */
  method AcceptAt(lang: Language, tokens: seq<Token>, i0: nat, n: nat) returns (size: nat)
    requires GoodLanguage(lang) && i0 < |tokens| && i0 + n <= |tokens|
    ensures size == if MayBeStartOfRun(lang, tokens[i0]) then Accepted(lang, tokens[i0..i0 + n]) else 0
  {
    if MayBeStartOfRun(lang, tokens[i0]) {
      size := CheckRun(lang, tokens[i0..i0 + n]);
    } else {
      size := 0;
    }
  }

  // ----- The search, told of the table of run sizes -----

  /** The run at `j` is no reason to give up the best one so far. */
  ghost predicate NotBetter(sizes: (nat, nat) -> nat, minRun: nat, i0: nat, j: nat, at: nat, size: nat) {
    sizes(i0, j) >= minRun ==> size != 0 && sizes(i0, j) <= size && (j < at ==> sizes(i0, j) < size)
  }

  /** The best run among the opposite positions up to `i1`. */
  ghost predicate BestSoFar(sizes: (nat, nat) -> nat, minRun: nat, i0: nat, first: nat, limit: nat, i1: nat, at: nat,
                            size: nat)
  {
    && (size != 0 ==> Opposite(i0, first, limit, at) && at <= i1 && sizes(i0, at) == size && size >= minRun)
    && forall j: nat :: Opposite(i0, first, limit, j) && j <= i1 ==> NotBetter(sizes, minRun, i0, j, at, size)
  }

  /** The outcome of the search. */
  ghost predicate BestOverall(sizes: (nat, nat) -> nat, minRun: nat, i0: nat, first: nat, limit: nat, at: nat,
                              size: nat)
  {
    if size == 0 then NoRun(sizes, minRun, i0, first, limit) else BestRun(sizes, minRun, i0, first, limit, at, size)
  }

  /** Between `i1` and `next` (up to the end if `next` is 0) there is no run. */
  ghost predicate Passed(sizes: (nat, nat) -> nat, minRun: nat, i0: nat, i1: nat, next: nat) {
    forall j: nat :: i1 < j && (next != 0 ==> j < next) ==> sizes(i0, j) < minRun
  }

  lemma PassOn(sizes: (nat, nat) -> nat, minRun: nat, i0: nat, first: nat, limit: nat, i1: nat, next: nat, at: nat,
               size: nat)
    requires BestSoFar(sizes, minRun, i0, first, limit, i1, at, size) && Passed(sizes, minRun, i0, i1, next)
    requires next != 0 ==> i1 < next
    ensures next != 0 ==> BestSoFar(sizes, minRun, i0, first, limit, next - 1, at, size)
    ensures next == 0 || next >= limit ==> BestOverall(sizes, minRun, i0, first, limit, at, size)
  {
    forall j: nat | Opposite(i0, first, limit, j) && (next == 0 || j < next)
      ensures NotBetter(sizes, minRun, i0, j, at, size)
    {
    }
  }

  /** Recording what was found at the next candidate. */
  lemma Record(sizes: (nat, nat) -> nat, minRun: nat, i0: nat, first: nat, limit: nat, i1: nat, at: nat, size: nat,
               found: nat)
    requires Opposite(i0, first, limit, i1) && BestSoFar(sizes, minRun, i0, first, limit, i1 - 1, at, size)
    requires found == sizes(i0, i1) || (found == 0 && sizes(i0, i1) < (if size != 0 then size + 1 else minRun))
    requires minRun >= 1
    ensures var better := found >= minRun && found > size;
      BestSoFar(sizes, minRun, i0, first, limit, i1, if better then i1 else at, if better then found else size)
  {
  }

  /** The chain of forward references passes no run: a run would make its position a partner. */
  lemma ChainPasses(c: Corpus, h: Hash, t0: nat, i0: nat, i1: nat, next: nat)
    requires At(c, t0, i0) && i0 <= i1 && (i1 == i0 || Partner(c, h, true, i0, i1))
    requires NextBelow(c, h, true, i1, next, |c.tokens|)
    ensures Passed(Sizes(c, t0), c.minRun, i0, i1, next)
    ensures next != 0 ==> Partner(c, h, true, i0, next)
  {
    forall j: nat | i1 < j && (next != 0 ==> j < next)
      ensures Sizes(c, t0)(i0, j) < c.minRun
    {
      if j < |c.tokens| && RunSize(c, t0, i0, j) >= c.minRun {
        RunMeansPartner(c, h, t0, i0, j);
        PartnerChain(c, h, i0, i1, j);
      }
    }
    if next != 0 {
      PartnerSymmetric(c, h, i0, i1, next);
    }
  }

  lemma PartnerSymmetric(c: Corpus, h: Hash, i0: nat, i1: nat, j: nat)
    requires GoodCorpus(c) && Partner(c, h, true, i1, j) && (i1 == i0 || Partner(c, h, true, i0, i1))
    ensures Partner(c, h, true, i0, j)
  {
  }

  /** `lcs`: the first longest run at `i0` over all positions behind it in the searched range. Neither
      the forward references nor the test from the back loses a run. */
  method LongestRun(c: Corpus, ghost h: Hash, fr: array<nat>, t0: nat, i0: nat, first: nat, limit: nat)
    returns (size: nat, t1: nat, at: nat)
    requires At(c, t0, i0) && limit <= |c.tokens| && References(c, h, true, fr[..])
    ensures BestOverall(Sizes(c, t0), c.minRun, i0, first, limit, at, size)
    ensures size != 0 ==> t1 == TextOf(c, at)
  {
    AtBounds(c, t0, i0);
    ghost var sizes := Sizes(c, t0);
    var i1: nat, txt: nat := i0, t0;
    size, t1, at := 0, t0, 0;
    while true
      invariant i0 <= i1 < |c.tokens| && (i1 == i0 || Partner(c, h, true, i0, i1))
      invariant txt < |c.texts| && c.texts[txt].start <= i1
      invariant BestSoFar(sizes, c.minRun, i0, first, limit, i1, at, size)
      invariant size != 0 ==> 1 <= at < |c.tokens| && t1 == TextOf(c, at)
      decreases |c.tokens| - i1
    {
      assert NextBelow(c, h, true, i1, fr[..][i1], |c.tokens|);
      var next := fr[i1];
      ChainPasses(c, h, t0, i0, i1, next);
      PassOn(sizes, c.minRun, i0, first, limit, i1, next, at, size);
      if next == 0 || next >= limit {
        return;
      }
      i1 := next;
      if i1 < first {
        continue;
      }
      txt := Bump(c, txt, i1);
      var found := TryAt(c, t0, i0, i1, txt, if size != 0 then size + 1 else c.minRun);
      Record(sizes, c.minRun, i0, first, limit, i1, at, size, found);
      if found >= c.minRun && found > size {
        size, t1, at := found, txt, i1;
      }
    }
  }

  /** Moving on to the text that holds `i1`; some texts may be skipped. */
  method Bump(c: Corpus, t: nat, i1: nat) returns (t1: nat)
    requires GoodCorpus(c) && t < |c.texts| && c.texts[t].start <= i1 < |c.tokens|
    ensures 1 <= i1 && t1 == TextOf(c, i1) && c.texts[t1].start <= i1
  {
    TextsOrdered(c, t, t);
    t1 := t;
    while i1 >= c.texts[t1].limit
      invariant t1 < |c.texts| && c.texts[t1].start <= i1
      decreases |c.texts| - t1
    {
      t1 := t1 + 1;
    }
    TextOfUnique(c, i1, t1);
  }

  // ----- What a run is -----

  /** A run of `n` tokens at `i0` and `i1` as the search is meant to find it: inside both texts, not
      reaching its own copy, token by token equal, starting and ending as the language allows and, with
      option `f`, with balanced parentheses. */
  ghost predicate Acceptable(c: Corpus, t0: nat, i0: nat, i1: nat, n: nat)
    requires At(c, t0, i0) && i0 < i1 < |c.tokens|
  {
    && i0 + n <= c.texts[t0].limit && i1 + n <= c.texts[TextOf(c, i1)].limit && i0 + n <= i1
    && i0 + n <= |c.tokens| && i1 + n <= |c.tokens| && c.tokens[i0..i0 + n] == c.tokens[i1..i1 + n]
    && MayBeStartOfRun(c.lang, c.tokens[i0])
    && (n == 0 || Final(c.lang, c.tokens[i0 + n - 1]))
    && (c.lang.functionsOnly ==> FunctionLike(c.lang, c.tokens[i0..i0 + n], n))
  }

  /** The languages whose accepted functions are balanced, and all languages without option `f`. */
  ghost predicate CutsSafely(lang: Language) {
    lang.functionsOnly ==> ProperTables(lang) && !CutsClosers(lang)
  }

  lemma FunctionLikePrefix(lang: Language, s: seq<Token>, t: seq<Token>, n: nat)
    requires n <= |s| && n <= |t| && s[..n] == t[..n] && FunctionLike(lang, s, n)
    ensures FunctionLike(lang, t, n)
  {
  }

  /** A run as tokens: it starts and ends as it should and, with option `f`, is balanced. */
  ghost predicate GoodEnd(lang: Language, run: seq<Token>) {
    && (run != [] ==> Final(lang, run[|run| - 1]))
    && (lang.functionsOnly ==> FunctionLike(lang, run, |run|))
  }

  /** No prefix of a stretch that is a good run is longer than the accepted one. */
  lemma AcceptedIsLongest(lang: Language, str: seq<Token>, n: nat)
    requires CutsSafely(lang) && n <= |str| && GoodEnd(lang, str[..n])
    ensures n <= Accepted(lang, str)
  {
    assert n != 0 ==> str[..n][n - 1] == str[n - 1];
    if lang.functionsOnly {
      FunctionLikePrefix(lang, str[..n], str, n);
      AcceptedFunctionIsGreatest(lang, str);
    } else {
      AcceptedIsGreatest(lang, str, n);
    }
  }

  lemma AcceptedIsGood(lang: Language, str: seq<Token>)
    requires CutsSafely(lang)
    ensures GoodEnd(lang, str[..Accepted(lang, str)])
  {
    var n := Accepted(lang, str);
    assert n != 0 ==> str[..n][n - 1] == str[n - 1];
    if lang.functionsOnly {
      AcceptedFunctionIsGreatest(lang, str);
      FunctionLikePrefix(lang, str, str[..n], n);
    }
  }

  lemma SlicePrefix(s: seq<Token>, i: nat, n: nat, m: nat)
    requires n <= m && i + m <= |s|
    ensures s[i..i + m][..n] == s[i..i + n]
    ensures n != 0 ==> s[i..i + n][n - 1] == s[i + n - 1]
  {
  }

  /** The slice that a run at `i0` is. */
  lemma RunIsGood(c: Corpus, t0: nat, i0: nat, i1: nat, n: nat)
    requires At(c, t0, i0) && i0 < i1 < |c.tokens| && Acceptable(c, t0, i0, i1, n)
    ensures i0 + n <= |c.tokens| && GoodEnd(c.lang, c.tokens[i0..i0 + n])
  {
    SlicePrefix(c.tokens, i0, n, n);
  }

  /** An acceptable run has room, and its tokens are a good run. */
  lemma AcceptableFits(c: Corpus, t0: nat, i0: nat, i1: nat, n: nat)
    requires At(c, t0, i0) && i0 < i1 < |c.tokens| && Acceptable(c, t0, i0, i1, n)
    ensures n <= Common(c.tokens, i0, i1, Room(c, t0, i0, i1)) && MayBeStartOfRun(c.lang, c.tokens[i0])
    ensures i0 + n <= |c.tokens| && GoodEnd(c.lang, c.tokens[i0..i0 + n])
  {
    CommonIsGreatest(c.tokens, i0, i1, Room(c, t0, i0, i1), n);
    RunIsGood(c, t0, i0, i1, n);
  }

  /** `RunSize` is the size of the greatest acceptable run. */
  lemma RunSizeIsGreatest(c: Corpus, t0: nat, i0: nat, i1: nat, n: nat)
    requires At(c, t0, i0) && i0 < i1 < |c.tokens| && CutsSafely(c.lang) && Acceptable(c, t0, i0, i1, n)
    ensures n <= RunSize(c, t0, i0, i1)
  {
    AcceptableFits(c, t0, i0, i1, n);
    AcceptedIsLonger(c.lang, c.tokens, i0, n, Common(c.tokens, i0, i1, Room(c, t0, i0, i1)));
  }

  lemma AcceptedIsLonger(lang: Language, tokens: seq<Token>, i0: nat, n: nat, m: nat)
    requires CutsSafely(lang) && n <= m && i0 + m <= |tokens| && GoodEnd(lang, tokens[i0..i0 + n])
    ensures n <= Accepted(lang, tokens[i0..i0 + m])
  {
    SlicePrefix(tokens, i0, n, m);
    AcceptedIsLongest(lang, tokens[i0..i0 + m], n);
  }

  /** A run that was found is acceptable. */
  lemma RunSizeIsAcceptable(c: Corpus, t0: nat, i0: nat, i1: nat)
    requires At(c, t0, i0) && i0 < i1 < |c.tokens| && CutsSafely(c.lang) && RunSize(c, t0, i0, i1) != 0
    ensures Acceptable(c, t0, i0, i1, RunSize(c, t0, i0, i1))
  {
    AtBounds(c, t0, i0);
    var n := RunSize(c, t0, i0, i1);
    RunInside(c, t0, i0, i1);
    FoundIsGood(c, t0, i0, i1, n);
    SlicePrefix(c.tokens, i0, n, n);
  }

  lemma FoundIsGood(c: Corpus, t0: nat, i0: nat, i1: nat, n: nat)
    requires At(c, t0, i0) && i0 < i1 < |c.tokens| && n == RunSize(c, t0, i0, i1) != 0 && CutsSafely(c.lang)
    ensures i0 + n <= |c.tokens| && GoodEnd(c.lang, c.tokens[i0..i0 + n]) && MayBeStartOfRun(c.lang, c.tokens[i0])
  {
    var m := Common(c.tokens, i0, i1, Room(c, t0, i0, i1));
    SlicePrefix(c.tokens, i0, n, m);
    AcceptedIsGood(c.lang, c.tokens[i0..i0 + m]);
  }

  /** The brute-force search of the source's own description: the outcome of the pruned search is an
      acceptable run of at least the minimum size, no acceptable run in the range is longer and none in
      front of it is as long; without an outcome every acceptable run is too short. */
  lemma SearchIsBruteForce(c: Corpus, t0: nat, i0: nat, first: nat, limit: nat, at: nat, size: nat, i1: nat, n: nat)
    requires At(c, t0, i0) && limit <= |c.tokens| && CutsSafely(c.lang)
    requires BestOverall(Sizes(c, t0), c.minRun, i0, first, limit, at, size)
    requires Opposite(i0, first, limit, i1) && Acceptable(c, t0, i0, i1, n)
    ensures size == 0 ==> n < c.minRun
    ensures size != 0 ==> n <= size && (i1 < at ==> n < size)
    ensures size != 0 ==> size >= c.minRun && i0 < at < |c.tokens| && Acceptable(c, t0, i0, at, size)
  {
    RunSizeIsGreatest(c, t0, i0, i1, n);
    assert Sizes(c, t0)(i0, i1) == RunSize(c, t0, i0, i1);
    if size != 0 {
      RunSizeIsAcceptable(c, t0, i0, at);
    }
  }

  /** Whatever the language, a found run has equal tokens, stays inside both texts and does not reach
      its own copy. */
  lemma RunInside(c: Corpus, t0: nat, i0: nat, i1: nat)
    requires At(c, t0, i0) && i0 < i1 < |c.tokens|
    ensures var n := RunSize(c, t0, i0, i1);
      && i0 + n <= c.texts[t0].limit && i1 + n <= c.texts[TextOf(c, i1)].limit && i0 + n <= i1
      && i0 + n <= |c.tokens| && i1 + n <= |c.tokens| && c.tokens[i0..i0 + n] == c.tokens[i1..i1 + n]
  {
    var room := Room(c, t0, i0, i1);
    CommonIsGreatest(c.tokens, i0, i1, room, RunSize(c, t0, i0, i1));
  }

  // ----- Comparing texts -----

  /** What `add_run` is told. */
  datatype Run = Run(text0: nat, i0: nat, text1: nat, i1: nat, size: nat)

  /** The comparison of one text that ends at `end` with the positions from `first` up to `limit`;
      `sizes` gives the run sizes of its positions. */
  datatype Task = Task(sizes: (nat, nat) -> nat, minRun: nat, text0: nat, end: nat, first: nat, limit: nat)

  /** The run reported at position `i0`: the first longest one. */
  ghost predicate HeadRun(t: Task, i0: nat, run: Run) {
    && run.text0 == t.text0 && run.i0 == i0 && run.size >= 1
    && BestRun(t.sizes, t.minRun, i0, t.first, t.limit, run.i1, run.size)
  }

  ghost predicate NoRunHere(t: Task, i0: nat) {
    NoRun(t.sizes, t.minRun, i0, t.first, t.limit)
  }

  /** The runs reported from position `i0` on: at each position the first longest run if there is one,
      going on behind it, otherwise going on at the next token. */
  ghost predicate Reported(t: Task, i0: nat, runs: seq<Run>)
    decreases t.end - i0
  {
    if i0 + t.minRun - 1 >= t.end || i0 >= t.end then runs == []
    else if runs != [] && runs[0].i0 == i0 then
      HeadRun(t, i0, runs[0]) && Reported(t, i0 + runs[0].size, runs[1..])
    else
      NoRunHere(t, i0) && Reported(t, i0 + 1, runs)
  }

  /** Each reported run is the first longest at its position, and they follow one another. */
  ghost predicate InOrder(t: Task, i0: nat, runs: seq<Run>) {
    && (forall k :: 0 <= k < |runs| ==> HeadRun(t, runs[k].i0, runs[k]) && i0 <= runs[k].i0 < t.end)
    && forall j, k :: 0 <= j < k < |runs| ==> runs[j].i0 + runs[j].size <= runs[k].i0
  }

  lemma InOrderCons(t: Task, run: Run, rest: seq<Run>)
    requires HeadRun(t, run.i0, run) && run.i0 < t.end && InOrder(t, run.i0 + run.size, rest)
    ensures InOrder(t, run.i0, [run] + rest)
  {
  }

  /** Reported runs are disjoint and in ascending order. */
  lemma {:induction false} ReportedInOrder(t: Task, i0: nat, runs: seq<Run>)
    requires Reported(t, i0, runs)
    ensures InOrder(t, i0, runs)
    decreases t.end - i0
  {
    if i0 + t.minRun - 1 < t.end && i0 < t.end {
      if runs != [] && runs[0].i0 == i0 {
        ReportedInOrder(t, i0 + runs[0].size, runs[1..]);
        InOrderCons(t, runs[0], runs[1..]);
        assert runs == [runs[0]] + runs[1..];
      } else {
        ReportedInOrder(t, i0 + 1, runs);
      }
    }
  }

  ghost predicate Covers(runs: seq<Run>, p: nat) {
    exists k :: 0 <= k < |runs| && runs[k].i0 <= p < runs[k].i0 + runs[k].size
  }

  /** A position of the text that no reported run covers, and where the minimum size still fits, has no
      run at all. */
  lemma {:induction false} UncoveredHasNoRun(t: Task, i0: nat, runs: seq<Run>, p: nat)
    requires Reported(t, i0, runs) && i0 <= p < t.end && p + t.minRun - 1 < t.end && !Covers(runs, p)
    ensures NoRunHere(t, p)
    decreases t.end - i0
  {
    if runs != [] && runs[0].i0 == i0 {
      var rest := runs[1..];
      assert forall k :: 0 <= k < |rest| ==> rest[k] == runs[k + 1];
      UncoveredHasNoRun(t, i0 + runs[0].size, rest, p);
    } else if p != i0 {
      UncoveredHasNoRun(t, i0 + 1, runs, p);
    }
  }

  /** How the runs reported so far, up to position `i0`, and those still to come make up all of them. */
  ghost predicate ReportedUpTo(t: Task, start: nat, i0: nat, runs: seq<Run>) {
    forall rest :: Reported(t, i0, rest) ==> Reported(t, start, runs + rest)
  }

  lemma ReportOne(t: Task, start: nat, i0: nat, runs: seq<Run>, run: Run)
    requires i0 + t.minRun - 1 < t.end && i0 < t.end && HeadRun(t, i0, run) && ReportedUpTo(t, start, i0, runs)
    ensures ReportedUpTo(t, start, i0 + run.size, runs + [run])
  {
    forall rest | Reported(t, i0 + run.size, rest)
      ensures Reported(t, start, runs + [run] + rest)
    {
      var more := [run] + rest;
      assert more[1..] == rest && more[0] == run;
      assert Reported(t, i0, more);
      assert runs + [run] + rest == runs + more;
    }
  }

  lemma ReportNone(t: Task, start: nat, i0: nat, runs: seq<Run>)
    requires i0 + t.minRun - 1 < t.end && i0 < t.end && NoRunHere(t, i0) && ReportedUpTo(t, start, i0, runs)
    ensures ReportedUpTo(t, start, i0 + 1, runs)
  {
    forall rest | Reported(t, i0 + 1, rest)
      ensures Reported(t, start, runs + rest)
    {
      ReportedInOrder(t, i0 + 1, rest);
      assert Reported(t, i0, rest);
    }
  }

  lemma ReportEnd(t: Task, start: nat, i0: nat, runs: seq<Run>)
    requires i0 + t.minRun - 1 >= t.end && ReportedUpTo(t, start, i0, runs)
    ensures Reported(t, start, runs)
  {
    assert Reported(t, i0, []);
    assert runs + [] == runs;
  }

  // ----- The same, of a corpus -----

  ghost function TaskOf(c: Corpus, t0: nat, first: nat, limit: nat): Task
    requires GoodCorpus(c) && t0 < |c.texts| && first < limit <= |c.texts|
  {
    Task(Sizes(c, t0), c.minRun, t0, c.texts[t0].limit, c.texts[first].start, c.texts[limit - 1].limit)
  }

  /** A run inside its text with an equal copy further on in the corpus, which stays inside one text. */
  ghost predicate Genuine(c: Corpus, run: Run)
    requires GoodCorpus(c)
  {
    && run.size >= c.minRun && run.text0 < |c.texts|
    && c.texts[run.text0].start <= run.i0 && run.i0 + run.size <= c.texts[run.text0].limit
    && run.i0 + run.size <= run.i1 && run.i1 + run.size <= |c.tokens| && run.i0 + run.size <= |c.tokens|
    && 1 <= run.i1 < |c.tokens| && run.i1 + run.size <= c.texts[TextOf(c, run.i1)].limit
    && c.tokens[run.i0..run.i0 + run.size] == c.tokens[run.i1..run.i1 + run.size]
  }

  /** What a search says of its outcome. */
  lemma HeadPlace(c: Corpus, t0: nat, first: nat, limit: nat, i0: nat, run: Run)
    requires At(c, t0, i0) && first < limit <= |c.texts| && HeadRun(TaskOf(c, t0, first, limit), i0, run)
    ensures run.text0 == t0 && run.i0 == i0 < run.i1 < |c.tokens| && run.size == RunSize(c, t0, i0, run.i1) >= c.minRun
  {
    TextsOrdered(c, limit - 1, limit - 1);
    assert Sizes(c, t0)(i0, run.i1) == RunSize(c, t0, i0, run.i1);
  }

  lemma HeadGenuine(c: Corpus, t0: nat, first: nat, limit: nat, i0: nat, run: Run)
    requires At(c, t0, i0) && first < limit <= |c.texts| && HeadRun(TaskOf(c, t0, first, limit), i0, run)
    ensures Genuine(c, run)
  {
    HeadPlace(c, t0, first, limit, i0, run);
    RunInside(c, t0, i0, run.i1);
  }

  /** Every run reported for a text is genuine, and ends before the next one starts. */
  lemma ReportedGenuine(c: Corpus, t0: nat, first: nat, limit: nat, runs: seq<Run>, k: nat)
    requires GoodCorpus(c) && t0 < |c.texts| && first < limit <= |c.texts|
    requires Reported(TaskOf(c, t0, first, limit), c.texts[t0].start, runs) && k < |runs|
    ensures Genuine(c, runs[k]) && runs[k].text0 == t0
    ensures forall j :: k < j < |runs| ==> runs[k].i0 + runs[k].size <= runs[j].i0
  {
    var t := TaskOf(c, t0, first, limit);
    ReportedInOrder(t, c.texts[t0].start, runs);
    HeadGenuine(c, t0, first, limit, runs[k].i0, runs[k]);
  }

  /** The second texts of the runs are those of the second positions. */
  ghost predicate NamesTexts(c: Corpus, runs: seq<Run>)
    requires GoodCorpus(c)
  {
    forall k :: 0 <= k < |runs| ==> 1 <= runs[k].i1 < |c.tokens| && runs[k].text1 == TextOf(c, runs[k].i1)
  }

  /** One position of `compare1text`. */
  method SearchAt(c: Corpus, ghost h: Hash, fr: array<nat>, t0: nat, i0: nat, first: nat, limit: nat)
    returns (size: nat, t1: nat, at: nat)
    requires At(c, t0, i0) && References(c, h, true, fr[..]) && first < limit <= |c.texts|
    ensures size == 0 ==> NoRunHere(TaskOf(c, t0, first, limit), i0)
    ensures size != 0 ==> HeadRun(TaskOf(c, t0, first, limit), i0, Run(t0, i0, t1, at, size))
    ensures size != 0 ==> 1 <= at < |c.tokens| && t1 == TextOf(c, at)
  {
    TextsOrdered(c, limit - 1, limit - 1);
    size, t1, at := LongestRun(c, h, fr, t0, i0, c.texts[first].start, c.texts[limit - 1].limit);
    AtBounds(c, t0, i0);
  }

  datatype Fact = Named | UpTo | Behind

  ghost predicate Known(f: Fact, c: Corpus, t: Task, start: nat, i0: nat, runs: seq<Run>)
    requires GoodCorpus(c)
  {
    match f
    case Named => NamesTexts(c, runs)
    case UpTo => ReportedUpTo(t, start, i0, runs)
    case Behind => start <= i0
  }

  /** The reports so far name their texts, and with those still to come they make up all of them. */
  ghost predicate Underway(c: Corpus, t: Task, start: nat, i0: nat, runs: seq<Run>)
    requires GoodCorpus(c)
  {
    forall f: Fact :: Known(f, c, t, start, i0, runs)
  }

  lemma UnderwayStart(c: Corpus, t: Task, start: nat)
    requires GoodCorpus(c)
    ensures Underway(c, t, start, start, [])
  {
    assert forall rest: seq<Run> :: [] + rest == rest;
  }

  lemma UnderwayFacts(c: Corpus, t: Task, start: nat, i0: nat, runs: seq<Run>)
    requires GoodCorpus(c) && Underway(c, t, start, i0, runs)
    ensures NamesTexts(c, runs) && ReportedUpTo(t, start, i0, runs) && start <= i0
  {
    assert Known(Named, c, t, start, i0, runs) && Known(UpTo, c, t, start, i0, runs);
    assert Known(Behind, c, t, start, i0, runs);
  }

  lemma UnderwayRun(c: Corpus, t: Task, start: nat, i0: nat, runs: seq<Run>, run: Run)
    requires GoodCorpus(c) && Underway(c, t, start, i0, runs) && i0 + t.minRun - 1 < t.end && i0 < t.end
    requires HeadRun(t, i0, run)
    requires 1 <= run.i1 < |c.tokens| && run.text1 == TextOf(c, run.i1)
    ensures Underway(c, t, start, i0 + run.size, runs + [run])
  {
    UnderwayFacts(c, t, start, i0, runs);
    ReportOne(t, start, i0, runs, run);
  }

  lemma UnderwayNone(c: Corpus, t: Task, start: nat, i0: nat, runs: seq<Run>)
    requires GoodCorpus(c) && Underway(c, t, start, i0, runs) && i0 + t.minRun - 1 < t.end && i0 < t.end
    requires NoRunHere(t, i0)
    ensures Underway(c, t, start, i0 + 1, runs)
  {
    UnderwayFacts(c, t, start, i0, runs);
    ReportNone(t, start, i0, runs);
  }

  /** One position of `compare1text`: a run is reported and skipped, or one token is passed. */
  method CompareAt(c: Corpus, ghost h: Hash, fr: array<nat>, t0: nat, i0: nat, first: nat, limit: nat, ghost t: Task,
                   ghost start: nat, runs: seq<Run>)
    returns (i0': nat, runs': seq<Run>)
    requires At(c, t0, i0) && References(c, h, true, fr[..]) && first < limit <= |c.texts|
    requires t == TaskOf(c, t0, first, limit)
    requires i0 + c.minRun - 1 < t.end && Underway(c, t, start, i0, runs)
    ensures i0 < i0' && Underway(c, t, start, i0', runs')
  {
    var size, t1, at := SearchAt(c, h, fr, t0, i0, first, limit);
    if size != 0 {
      UnderwayRun(c, t, start, i0, runs, Run(t0, i0, t1, at, size));
      return i0 + size, runs + [Run(t0, i0, t1, at, size)];
    }
    UnderwayNone(c, t, start, i0, runs);
    return i0 + 1, runs;
  }

  lemma TaskEnd(c: Corpus, t0: nat, first: nat, limit: nat, i0: nat)
    requires GoodCorpus(c) && t0 < |c.texts| && first < limit <= |c.texts|
    ensures TaskOf(c, t0, first, limit).end == c.texts[t0].limit && TaskOf(c, t0, first, limit).minRun == c.minRun
    ensures c.texts[t0].start <= i0 && i0 + c.minRun - 1 < c.texts[t0].limit ==> At(c, t0, i0)
  {
  }

  lemma UnderwayEnd(c: Corpus, t: Task, start: nat, i0: nat, runs: seq<Run>)
    requires GoodCorpus(c) && Underway(c, t, start, i0, runs) && i0 + t.minRun - 1 >= t.end
    ensures Reported(t, start, runs) && NamesTexts(c, runs)
  {
    UnderwayFacts(c, t, start, i0, runs);
    ReportEnd(t, start, i0, runs);
  }

  /** `compare1text`: the runs of text `t0` against the texts from `first` up to `limit`. */
  method CompareText(c: Corpus, ghost h: Hash, fr: array<nat>, t0: nat, first: nat, limit: nat) returns (runs: seq<Run>)
    requires GoodCorpus(c) && References(c, h, true, fr[..])
    requires t0 < |c.texts| && first < limit <= |c.texts|
    ensures Reported(TaskOf(c, t0, first, limit), c.texts[t0].start, runs) && NamesTexts(c, runs)
  {
    ghost var t, start := TaskOf(c, t0, first, limit), c.texts[t0].start;
    var i0, end := c.texts[t0].start, c.texts[t0].limit;
    runs := [];
    UnderwayStart(c, t, start);
    TaskEnd(c, t0, first, limit, i0);
    while i0 + c.minRun - 1 < end
      invariant start <= i0 && Underway(c, t, start, i0, runs)
      decreases end - i0
    {
      TaskEnd(c, t0, first, limit, i0);
      i0, runs := CompareAt(c, h, fr, t0, i0, first, limit, t, start, runs);
    }
    UnderwayEnd(c, t, start, i0, runs);
  }

  // ----- All texts -----

  /** The options of `Compare`: `S` compares with old texts only, `s` not with itself, `e` one text at a
      time. The first `newTexts` texts are new; behind them stands the separator. */
  datatype Options = Options(oldOnly: bool, notItself: bool, each: bool)

  /** The first text that text `n` is compared with. */
  function FirstText(o: Options, newTexts: nat, n: nat): nat {
    if o.oldOnly then newTexts + 1 else if o.notItself then n + 1 else n
  }

  /** The tasks of text `n` by their bounds, in order. */
  function Bounds(o: Options, texts: nat, first: nat): seq<(nat, nat)>
    decreases texts - first
  {
    if first >= texts then []
    else if o.each then [(first, first + 1)] + Bounds(o, texts, first + 1)
    else [(first, texts)]
  }

  /** Text `n` is compared with text `m`: with an old one under `S`, with a later one under `s`, else also with
      itself. */
  predicate IsCompared(o: Options, texts: nat, newTexts: nat, n: nat, m: nat) {
    m < texts && (o.oldOnly ==> newTexts < m) && (!o.oldOnly ==> n <= m && (o.notItself ==> n != m))
  }

  /** One of the ranges holds text `m`. */
  ghost predicate Held(bounds: seq<(nat, nat)>, m: nat) {
    exists k :: 0 <= k < |bounds| && bounds[k].0 <= m < bounds[k].1
  }

  ghost predicate Ascending(bounds: seq<(nat, nat)>, from: nat) {
    && (forall k :: 0 <= k < |bounds| ==> from <= bounds[k].0 < bounds[k].1)
    && forall k, l :: 0 <= k < l < |bounds| ==> bounds[k].1 <= bounds[l].0
  }

  lemma AscendingCons(m: nat, rest: seq<(nat, nat)>)
    requires Ascending(rest, m + 1)
    ensures Ascending([(m, m + 1)] + rest, m)
  {
  }

  lemma HeldCons(m: nat, rest: seq<(nat, nat)>, i: nat)
    ensures Held([(m, m + 1)] + rest, i) <==> i == m || Held(rest, i)
  {
    var b := [(m, m + 1)] + rest;
    if Held(rest, i) {
      var k :| 0 <= k < |rest| && rest[k].0 <= i < rest[k].1;
      assert b[k + 1] == rest[k];
    }
    if i == m {
      assert b[0].0 <= i < b[0].1;
    }
  }

  lemma {:induction false} BoundsFrom(o: Options, texts: nat, first: nat)
    ensures Ascending(Bounds(o, texts, first), first)
    ensures forall m: nat :: Held(Bounds(o, texts, first), m) <==> first <= m < texts
    decreases texts - first
  {
    if first < texts && o.each {
      var rest := Bounds(o, texts, first + 1);
      BoundsFrom(o, texts, first + 1);
      AscendingCons(first, rest);
      forall m: nat
        ensures Held(Bounds(o, texts, first), m) <==> first <= m < texts
      {
        HeldCons(first, rest, m);
      }
    } else if first < texts {
      forall m: nat
        ensures Held([(first, texts)], m) <==> first <= m < texts
      {
        assert first <= m < texts ==> [(first, texts)][0].0 <= m < [(first, texts)][0].1;
      }
    }
  }

  predicate Single(bound: (nat, nat)) {
    bound.1 == bound.0 + 1
  }

  lemma {:induction false} Widths(o: Options, texts: nat, first: nat)
    ensures !o.each ==> |Bounds(o, texts, first)| <= 1
    ensures o.each ==> forall b :: b in Bounds(o, texts, first) ==> Single(b)
    decreases texts - first
  {
    if first < texts && o.each {
      Widths(o, texts, first + 1);
    }
  }

  /** The ranges of a text are ascending and disjoint and hold exactly the texts it is compared with; each is a single
      text under `e`, and there is at most one range without it. */
  lemma RangesAre(o: Options, texts: nat, newTexts: nat, n: nat)
    ensures var b := Bounds(o, texts, FirstText(o, newTexts, n));
      && Ascending(b, 0)
      && (forall m: nat :: Held(b, m) <==> IsCompared(o, texts, newTexts, n, m))
      && (if o.each then forall x :: x in b ==> Single(x) else |b| <= 1)
  {
    BoundsFrom(o, texts, FirstText(o, newTexts, n));
    Widths(o, texts, FirstText(o, newTexts, n));
  }

  /** The reports of all tasks of one text, joined. */
  ghost predicate ReportedAll(c: Corpus, n: nat, bounds: seq<(nat, nat)>, reports: seq<seq<Run>>)
    requires GoodCorpus(c) && n < |c.texts|
  {
    && |reports| == |bounds|
    && forall k :: 0 <= k < |bounds| ==> ReportedFor(c, n, bounds[k], reports[k])
  }

  ghost predicate ReportedFor(c: Corpus, n: nat, bound: (nat, nat), runs: seq<Run>)
    requires GoodCorpus(c) && n < |c.texts|
  {
    bound.0 < bound.1 <= |c.texts| && Reported(TaskOf(c, n, bound.0, bound.1), c.texts[n].start, runs)
  }

  lemma ReportedSnoc(c: Corpus, n: nat, bounds: seq<(nat, nat)>, reports: seq<seq<Run>>, first: nat, limit: nat,
                     runs: seq<Run>)
    requires GoodCorpus(c) && n < |c.texts| && ReportedAll(c, n, bounds, reports)
    requires ReportedFor(c, n, (first, limit), runs)
    ensures ReportedAll(c, n, bounds + [(first, limit)], reports + [runs])
  {
  }

  lemma BoundsStep(o: Options, texts: nat, m: nat, done: seq<(nat, nat)>)
    requires m < texts && o.each
    ensures done + [(m, m + 1)] + Bounds(o, texts, m + 1) == done + Bounds(o, texts, m)
  {
  }

  /** One more task of option `e` is done. */
  lemma EachStep(c: Corpus, o: Options, n: nat, m: nat, all: seq<(nat, nat)>, done: seq<(nat, nat)>,
                 reports: seq<seq<Run>>, runs: seq<Run>)
    requires GoodCorpus(c) && n < |c.texts| && o.each && m < |c.texts|
    requires done + Bounds(o, |c.texts|, m) == all && ReportedAll(c, n, done, reports)
    requires ReportedFor(c, n, (m, m + 1), runs)
    ensures done + [(m, m + 1)] + Bounds(o, |c.texts|, m + 1) == all
    ensures ReportedAll(c, n, done + [(m, m + 1)], reports + [runs])
  {
    ReportedSnoc(c, n, done, reports, m, m + 1, runs);
    BoundsStep(o, |c.texts|, m, done);
  }

  method CompareEach(c: Corpus, ghost h: Hash, fr: array<nat>, o: Options, first: nat, n: nat)
    returns (reports: seq<seq<Run>>)
    requires GoodCorpus(c) && References(c, h, true, fr[..]) && n < |c.texts| && o.each
    ensures ReportedAll(c, n, Bounds(o, |c.texts|, first), reports)
  {
    reports := [];
    ghost var all, done: seq<(nat, nat)> := Bounds(o, |c.texts|, first), [];
    assert [] + all == all;
    var m := first;
    while m < |c.texts|
      invariant done + Bounds(o, |c.texts|, m) == all
      invariant ReportedAll(c, n, done, reports) && References(c, h, true, fr[..])
      decreases |c.texts| - m
    {
      var runs := CompareAgainst(c, h, fr, n, m, m + 1);
      EachStep(c, o, n, m, all, done, reports, runs);
      reports := reports + [runs];
      done := done + [(m, m + 1)];
      m := m + 1;
    }
    assert done + [] == done;
  }

  method CompareAgainst(c: Corpus, ghost h: Hash, fr: array<nat>, n: nat, first: nat, limit: nat)
    returns (runs: seq<Run>)
    requires GoodCorpus(c) && References(c, h, true, fr[..]) && n < |c.texts| && first < limit <= |c.texts|
    ensures ReportedFor(c, n, (first, limit), runs)
  {
    runs := CompareText(c, h, fr, n, first, limit);
  }

  method CompareOne(c: Corpus, ghost h: Hash, fr: array<nat>, o: Options, newTexts: nat, n: nat)
    returns (reports: seq<seq<Run>>)
    requires GoodCorpus(c) && References(c, h, true, fr[..]) && n < |c.texts|
    ensures ReportedAll(c, n, Bounds(o, |c.texts|, FirstText(o, newTexts, n)), reports)
  {
    var first := FirstText(o, newTexts, n);
    if o.each {
      reports := CompareEach(c, h, fr, o, first, n);
    } else if first < |c.texts| {
      var runs := CompareAgainst(c, h, fr, n, first, |c.texts|);
      reports := [runs];
    } else {
      reports := [];
    }
  }

  /** The whole comparison: forward references, then the reports of every new text. */
  method Compare(c: Corpus, h: Hash, o: Options, newTexts: nat) returns (reports: seq<seq<seq<Run>>>)
    requires GoodCorpus(c) && GoodHash(h) && newTexts <= |c.texts|
    ensures |reports| == newTexts
    ensures forall n :: 0 <= n < newTexts ==>
      ReportedAll(c, n, Bounds(o, |c.texts|, FirstText(o, newTexts, n)), reports[n])
  {
    var fr := MakeForwardReferences(c, h);
    reports := [];
    for n := 0 to newTexts
      invariant |reports| == n && References(c, h, true, fr[..])
      invariant forall k :: 0 <= k < n ==>
        ReportedAll(c, k, Bounds(o, |c.texts|, FirstText(o, newTexts, k)), reports[k])
    {
      var report := CompareOne(c, h, fr, o, newTexts, n);
      reports := reports + [report];
    }
  }
}

/** Acceptability of a run in an ALGOL-like language: the token tables, the longest function-like
    prefix and the cutting of a run's tail (utils/sim_pasc/algollike.c). */
module SimLanguage {

  type Token = t: int | 0 <= t < 256

  /** Kinds of parentheses are numbered from 1; `balance_count` has room for 254 of them, since its
      element 255 is never cleared. */
  const MAX_KINDS := 254

  /** The four token sets without their terminators, and option `f`. */
  datatype Language = Language(
    nonFinals: seq<Token>,
    nonInitials: seq<Token>,
    openers: seq<Token>,
    closers: seq<Token>,
    functionsOnly: bool)

  ghost predicate GoodLanguage(lang: Language) {
    |lang.openers| <= MAX_KINDS && |lang.closers| <= MAX_KINDS
  }

  /** Position of a token in its set, counted from 1, the last one if it is listed twice; 0 if absent. */
  function Kind(set0: seq<Token>, t: Token): (k: nat)
    ensures k <= |set0|
    ensures k != 0 ==> set0[k - 1] == t
    ensures forall j :: k <= j < |set0| ==> set0[j] != t
  {
    if set0 == [] then 0
    else if set0[|set0| - 1] == t then |set0|
    else Kind(set0[..|set0| - 1], t)
  }

  /** `cvt2bittable`: afterwards the table holds every token's kind. */
  method FillTable(list: seq<Token>, table: array<nat>)
    requires table.Length == 256 && forall t :: 0 <= t < 256 ==> table[t] == 0
    modifies table
    ensures forall t: Token :: table[t] == Kind(list, t)
  {
    var cnt := 1;
    for i := 0 to |list|
      invariant cnt == i + 1
      invariant forall t: Token :: table[t] == Kind(list[..i], t)
    {
      assert list[..i + 1][..i] == list[..i];
      table[list[i]] := cnt;
      cnt := cnt + 1;
    }
    assert list[..|list|] == list;
  }

  predicate Final(lang: Language, t: Token) {
    Kind(lang.nonFinals, t) == 0
  }

  predicate MayBeStartOfRun(lang: Language, t: Token) {
    Kind(lang.nonInitials, t) == 0
  }

  lemma KindIn(list: seq<Token>, t: Token)
    ensures Kind(list, t) != 0 <==> t in list
  {
  }

  /** A run may start with any token but the non-initials and end with any but the non-finals. */
  lemma StartsAndEnds(lang: Language, t: Token)
    ensures MayBeStartOfRun(lang, t) <==> t !in lang.nonInitials
    ensures Final(lang, t) <==> t !in lang.nonFinals
  {
    KindIn(lang.nonInitials, t);
    KindIn(lang.nonFinals, t);
  }

  // ----- Balance -----

  function Delta(lang: Language, t: Token, k: nat): int {
    (if Kind(lang.openers, t) == k then 1 else 0) - (if Kind(lang.closers, t) == k then 1 else 0)
  }

  /** Openers minus closers of kind `k`. */
  function Balance(lang: Language, s: seq<Token>, k: nat): int {
    if s == [] then 0 else Balance(lang, s[..|s| - 1], k) + Delta(lang, s[|s| - 1], k)
  }

  lemma BalanceSnoc(lang: Language, s: seq<Token>, t: Token, k: nat)
    ensures Balance(lang, s + [t], k) == Balance(lang, s, k) + Delta(lang, t, k)
  {
    assert (s + [t])[..|s|] == s;
  }

  /** Every parenthesis kind has as many closers as openers. */
  ghost predicate Balanced(lang: Language, s: seq<Token>) {
    forall k :: 1 <= k <= MAX_KINDS ==> Balance(lang, s, k) == 0
  }

  /** No prefix has more closers than openers of a kind. */
  ghost predicate NoExcess(lang: Language, s: seq<Token>) {
    forall m, k :: 0 <= m <= |s| && 1 <= k <= MAX_KINDS ==> Balance(lang, s[..m], k) >= 0
  }

  /** A prefix length that `largest_function` may return. */
  ghost predicate FunctionLike(lang: Language, s: seq<Token>, m: nat) {
    m <= |s| && NoExcess(lang, s[..m]) && Balanced(lang, s[..m])
  }

  /** Past an excess closer no prefix is function-like. */
  lemma ExcessStops(lang: Language, str: seq<Token>, end: nat, k: nat)
    requires end <= |str| && 1 <= k <= MAX_KINDS && Balance(lang, str[..end], k) < 0
    ensures forall m :: end <= m <= |str| ==> !FunctionLike(lang, str, m)
  {
    forall m | end <= m <= |str|
      ensures !NoExcess(lang, str[..m])
    {
      assert str[..m][..end] == str[..end];
    }
  }

  lemma NoExcessSnoc(lang: Language, s: seq<Token>, t: Token)
    requires NoExcess(lang, s)
    requires forall k :: 1 <= k <= MAX_KINDS ==> Balance(lang, s + [t], k) >= 0
    ensures NoExcess(lang, s + [t])
  {
    var next := s + [t];
    forall m, k | 0 <= m <= |next| && 1 <= k <= MAX_KINDS
      ensures Balance(lang, next[..m], k) >= 0
    {
      if m <= |s| {
        assert next[..m] == s[..m];
      } else {
        assert next[..m] == next;
      }
    }
  }

  /** The counters that are not zero. */
  function NonZero(counts: seq<int>): set<int> {
    set k | 1 <= k < |counts| && counts[k] != 0
  }

  lemma NonZeroUpdate(counts: seq<int>, k: nat, v: int)
    requires 1 <= k < |counts|
    ensures NonZero(counts[k := v]) == if v != 0 then NonZero(counts) + {k as int} else NonZero(counts) - {k as int}
    ensures |NonZero(counts[k := v])|
         == |NonZero(counts)| + (if counts[k] == 0 && v != 0 then 1 else if counts[k] != 0 && v == 0 then -1 else 0)
  {
    NonZeroRest(counts, k, v);
    WithoutOne(NonZero(counts), k);
    WithoutOne(NonZero(counts[k := v]), k);
  }

  lemma NonZeroRest(counts: seq<int>, k: nat, v: int)
    requires 1 <= k < |counts|
    ensures NonZero(counts[k := v]) - {k as int} == NonZero(counts) - {k as int}
    ensures (k in NonZero(counts) <==> counts[k] != 0) && (k in NonZero(counts[k := v]) <==> v != 0)
  {
  }

  lemma WithoutOne(s: set<int>, k: int)
    ensures |s| == |s - {k}| + (if k in s then 1 else 0)
    ensures s == if k in s then (s - {k}) + {k} else s - {k}
  {
    if k in s {
      assert s == (s - {k}) + {k};
    } else {
      assert s == s - {k};
    }
  }

  /** `counts` are the balances after `s`. */
  ghost predicate Counts(lang: Language, s: seq<Token>, counts: seq<int>) {
    |counts| == MAX_KINDS + 1 && forall k :: 1 <= k <= MAX_KINDS ==> counts[k] == Balance(lang, s, k)
  }

  /** How one token changes the counters. */
  function Counted(lang: Language, counts: seq<int>, t: Token): (r: seq<int>)
    requires GoodLanguage(lang) && |counts| == MAX_KINDS + 1
    ensures |r| == |counts|
  {
    Bumped(Bumped(counts, Kind(lang.openers, t), 1), Kind(lang.closers, t), -1)
  }

  /** A counter changed by `step`; kind 0 is no parenthesis. */
  function Bumped(counts: seq<int>, kind: nat, step: int): (r: seq<int>)
    requires kind < |counts|
    ensures |r| == |counts|
  {
    if kind == 0 then counts else counts[kind := counts[kind] + step]
  }

  lemma CountedRight(lang: Language, s: seq<Token>, counts: seq<int>, t: Token)
    requires GoodLanguage(lang) && Counts(lang, s, counts)
    ensures Counts(lang, s + [t], Counted(lang, counts, t))
  {
    forall k | 1 <= k <= MAX_KINDS
      ensures Counted(lang, counts, t)[k] == Balance(lang, s + [t], k)
    {
      BalanceSnoc(lang, s, t, k);
    }
  }

  /** An opener of kind `kind`: one more kind is out of balance if its counter was zero. */
  method CountOpener(balance: array<int>, imbalances: nat, kind: nat) returns (imbalances': nat)
    requires kind < balance.Length && imbalances == |NonZero(balance[..])|
    requires kind != 0 ==> balance[kind] >= 0
    modifies balance
    ensures balance[..] == Bumped(old(balance[..]), kind, 1) && imbalances' == |NonZero(balance[..])|
  {
    imbalances' := imbalances;
    if kind != 0 {
      if balance[kind] == 0 {
        imbalances' := imbalances' + 1;
      }
      NonZeroUpdate(balance[..], kind, balance[kind] + 1);
      balance[kind] := balance[kind] + 1;
      assert balance[..] == old(balance[..])[kind := old(balance[kind]) + 1];
    }
  }

  /** A closer of kind `kind`: one too many if its counter is zero, and one kind fewer out of balance if
      its counter becomes zero. */
  method CountCloser(balance: array<int>, imbalances: nat, kind: nat) returns (imbalances': int, excess: bool)
    requires kind < balance.Length && imbalances == |NonZero(balance[..])|
    requires kind != 0 ==> balance[kind] >= 0
    modifies balance
    ensures excess <==> kind != 0 && old(balance[kind]) == 0
    ensures !excess ==> balance[..] == Bumped(old(balance[..]), kind, -1) && imbalances' == |NonZero(balance[..])|
  {
    imbalances' := imbalances;
    if kind != 0 {
      if balance[kind] == 0 {
        return imbalances', true;
      }
      NonZeroUpdate(balance[..], kind, balance[kind] - 1);
      balance[kind] := balance[kind] - 1;
      assert balance[..] == old(balance[..])[kind := old(balance[kind]) - 1];
      if balance[kind] == 0 {
        imbalances' := imbalances' - 1;
      }
    }
    excess := false;
  }

  /** A counter falls below zero only at a closer whose counter was zero. */
  lemma BelowZero(lang: Language, counts: seq<int>, t: Token)
    requires GoodLanguage(lang) && |counts| == MAX_KINDS + 1 && forall k :: 1 <= k <= MAX_KINDS ==> counts[k] >= 0
    ensures var closes := Kind(lang.closers, t);
      (exists k :: 1 <= k <= MAX_KINDS && Counted(lang, counts, t)[k] < 0)
      <==> closes != 0 && Bumped(counts, Kind(lang.openers, t), 1)[closes] == 0
  {
    var closes := Kind(lang.closers, t);
    if closes != 0 && Bumped(counts, Kind(lang.openers, t), 1)[closes] == 0 {
      assert Counted(lang, counts, t)[closes] == -1;
    }
  }

  /** Counting one token: the array becomes the new balances and the counter stays the number of
      kinds out of balance, unless the token is a closer too many. */
  method CountToken(lang: Language, balance: array<int>, imbalances: nat, t: Token)
    returns (imbalances': int, excess: bool)
    requires GoodLanguage(lang) && balance.Length == MAX_KINDS + 1
    requires imbalances == |NonZero(balance[..])| && forall k :: 1 <= k <= MAX_KINDS ==> balance[k] >= 0
    modifies balance
    ensures excess <==> exists k :: 1 <= k <= MAX_KINDS && Counted(lang, old(balance[..]), t)[k] < 0
    ensures !excess ==> balance[..] == Counted(lang, old(balance[..]), t) && imbalances' == |NonZero(balance[..])|
  {
    BelowZero(lang, balance[..], t);
    var middle := CountOpener(balance, imbalances, Kind(lang.openers, t));
    assert forall k :: 0 <= k <= MAX_KINDS ==> balance[k] == balance[..][k];
    imbalances', excess := CountCloser(balance, middle, Kind(lang.closers, t));
  }

  /** No counter is off exactly when the sequence is balanced. */
  lemma BalancedCounts(lang: Language, s: seq<Token>, counts: seq<int>)
    requires Counts(lang, s, counts)
    ensures Balanced(lang, s) <==> |NonZero(counts)| == 0
  {
    if |NonZero(counts)| == 0 {
      forall k | 1 <= k <= MAX_KINDS
        ensures Balance(lang, s, k) == 0
      {
        assert (k as int) !in NonZero(counts);
      }
    } else {
      var k :| k in NonZero(counts);
      assert Balance(lang, s, k) != 0;
    }
  }

  datatype Fact = InRange | LikeSize | NoLonger | NoneTooMany | Counting

  ghost predicate Known(f: Fact, lang: Language, str: seq<Token>, pos: nat, size: nat, counts: seq<int>) {
    match f
    case InRange => size <= pos <= |str|
    case LikeSize => size <= |str| && FunctionLike(lang, str, size)
    case NoLonger => pos <= |str| && forall m :: size < m <= pos ==> !FunctionLike(lang, str, m)
    case NoneTooMany => pos <= |str| && NoExcess(lang, str[..pos])
    case Counting => pos <= |str| && Counts(lang, str[..pos], counts)
  }

  /** After `pos` tokens: `size` is the greatest function-like length so far, no closer was too many, and
      `counts` are the balances. */
  ghost predicate Progress(lang: Language, str: seq<Token>, pos: nat, size: nat, counts: seq<int>) {
    forall f: Fact :: Known(f, lang, str, pos, size, counts)
  }

  lemma ProgressStart(lang: Language, str: seq<Token>, counts: seq<int>)
    requires |counts| == MAX_KINDS + 1 && forall k :: 0 <= k < |counts| ==> counts[k] == 0
    ensures Progress(lang, str, 0, 0, counts) && NonZero(counts) == {}
  {
    assert str[..0] == [];
  }

  /** No counter is negative. */
  lemma ProgressCounts(lang: Language, str: seq<Token>, pos: nat, size: nat, counts: seq<int>)
    requires Progress(lang, str, pos, size, counts)
    ensures |counts| == MAX_KINDS + 1 && forall k :: 1 <= k <= MAX_KINDS ==> counts[k] >= 0
  {
    assert Known(NoneTooMany, lang, str, pos, size, counts) && Known(Counting, lang, str, pos, size, counts);
    assert str[..pos][..pos] == str[..pos];
  }

  lemma ProgressStep(lang: Language, str: seq<Token>, pos: nat, size: nat, counts: seq<int>, size': nat, f: Fact)
    requires GoodLanguage(lang) && pos < |str| && Progress(lang, str, pos, size, counts) && |counts| == MAX_KINDS + 1
    requires forall k :: 1 <= k <= MAX_KINDS ==> Counted(lang, counts, str[pos])[k] >= 0
    requires size' == if |NonZero(Counted(lang, counts, str[pos]))| == 0 then pos + 1 else size
    ensures Known(f, lang, str, pos + 1, size', Counted(lang, counts, str[pos]))
  {
    var s, t, counts' := str[..pos], str[pos], Counted(lang, counts, str[pos]);
    assert Known(InRange, lang, str, pos, size, counts) && Known(LikeSize, lang, str, pos, size, counts);
    assert Known(NoLonger, lang, str, pos, size, counts) && Known(NoneTooMany, lang, str, pos, size, counts);
    assert Known(Counting, lang, str, pos, size, counts);
    assert str[..pos + 1] == s + [t];
    CountedRight(lang, s, counts, t);
    NoExcessSnoc(lang, s, t);
    BalancedCounts(lang, s + [t], counts');
  }

  lemma ProgressKeeps(lang: Language, str: seq<Token>, pos: nat, size: nat, counts: seq<int>, next: nat, size': nat,
                      counts': seq<int>)
    requires GoodLanguage(lang) && pos < |str| && Progress(lang, str, pos, size, counts) && |counts| == MAX_KINDS + 1
    requires forall k :: 1 <= k <= MAX_KINDS ==> Counted(lang, counts, str[pos])[k] >= 0
    requires next == pos + 1 && counts' == Counted(lang, counts, str[pos])
    requires size' == if |NonZero(counts')| == 0 then next else size
    ensures Progress(lang, str, next, size', counts')
  {
    forall f: Fact
      ensures Known(f, lang, str, next, size', counts')
    {
      ProgressStep(lang, str, pos, size, counts, size', f);
    }
  }

  lemma ProgressExcess(lang: Language, str: seq<Token>, pos: nat, size: nat, counts: seq<int>, k: nat)
    requires GoodLanguage(lang) && pos < |str| && Progress(lang, str, pos, size, counts) && |counts| == MAX_KINDS + 1
    requires 1 <= k <= MAX_KINDS && Counted(lang, counts, str[pos])[k] < 0
    ensures Longest(lang, str, size)
  {
    assert Known(LikeSize, lang, str, pos, size, counts) && Known(NoLonger, lang, str, pos, size, counts);
    assert Known(Counting, lang, str, pos, size, counts);
    assert str[..pos + 1] == str[..pos] + [str[pos]];
    CountedRight(lang, str[..pos], counts, str[pos]);
    ExcessStops(lang, str, pos + 1, k);
  }

  lemma ProgressEnd(lang: Language, str: seq<Token>, size: nat, counts: seq<int>)
    requires Progress(lang, str, |str|, size, counts)
    ensures Longest(lang, str, size)
  {
    assert Known(LikeSize, lang, str, |str|, size, counts) && Known(NoLonger, lang, str, |str|, size, counts);
  }

  /** The greatest function-like length. */
  ghost predicate Longest(lang: Language, str: seq<Token>, size: nat) {
    FunctionLike(lang, str, size) && forall m :: size < m <= |str| ==> !FunctionLike(lang, str, m)
  }

  /** `largest_function`: the length of the longest balanced prefix before the first excess closer. */
  method LargestFunction(lang: Language, str: seq<Token>) returns (size: nat)
    requires GoodLanguage(lang)
    ensures Longest(lang, str, size)
  {
    size := 0;
    var balance := new int[MAX_KINDS + 1](_ => 0);
    var imbalances: nat := 0;
    ProgressStart(lang, str, balance[..]);
    for pos := 0 to |str|
      invariant Progress(lang, str, pos, size, balance[..]) && imbalances == |NonZero(balance[..])|
    {
      ghost var counts := balance[..];
      ProgressCounts(lang, str, pos, size, counts);
      assert forall k :: 0 <= k <= MAX_KINDS ==> balance[k] == counts[k];
      var left, excess := CountToken(lang, balance, imbalances, str[pos]);
      if excess {
        ghost var k: nat :| 1 <= k <= MAX_KINDS && Counted(lang, counts, str[pos])[k] < 0;
        ProgressExcess(lang, str, pos, size, counts, k);
        return;
      }
      imbalances := left;
      ghost var before := size;
      if imbalances == 0 {
        size := pos + 1;
      }
      ProgressKeeps(lang, str, pos, before, counts, pos + 1, size, balance[..]);
    }
    ProgressEnd(lang, str, size, balance[..]);
  }

  // ----- CheckRun -----

  /** The greatest function-like length up to `m`. */
  ghost function LargestUpTo(lang: Language, str: seq<Token>, m: nat): (r: nat)
    requires m <= |str|
    ensures r <= m && FunctionLike(lang, str, r)
    ensures forall j :: r < j <= m ==> !FunctionLike(lang, str, j)
  {
    if FunctionLike(lang, str, m) then m
    else
      assert m != 0 by {
        assert str[..0] == [];
      }
      LargestUpTo(lang, str, m - 1)
  }

  /** The greatest length up to `m` that is zero or does not end in a non-final. */
  function Trimmed(lang: Language, str: seq<Token>, m: nat): (r: nat)
    requires m <= |str|
    ensures r <= m && (r == 0 || Final(lang, str[r - 1]))
    ensures forall j :: r <= j < m ==> !Final(lang, str[j])
  {
    if m == 0 || Final(lang, str[m - 1]) then m else Trimmed(lang, str, m - 1)
  }

  /** The accepted length of a run. */
  ghost function Accepted(lang: Language, str: seq<Token>): (r: nat)
    ensures r <= |str|
  {
    Trimmed(lang, str, if lang.functionsOnly then LargestUpTo(lang, str, |str|) else |str|)
  }

  method CheckRun(lang: Language, str: seq<Token>) returns (size: nat)
    requires GoodLanguage(lang)
    ensures size == Accepted(lang, str)
  {
    size := |str|;
    if lang.functionsOnly {
      size := LargestFunction(lang, str);
      assert size == LargestUpTo(lang, str, |str|);
    }
    ghost var bound := size;
    while size != 0 && !Final(lang, str[size - 1])
      invariant size <= bound && Trimmed(lang, str, bound) == Trimmed(lang, str, size)
    {
      size := size - 1;
    }
  }

  /** Without option `f` the accepted length is the greatest one a run may be cut to. */
  lemma AcceptedIsGreatest(lang: Language, str: seq<Token>, m: nat)
    requires !lang.functionsOnly && m <= |str| && (m == 0 || Final(lang, str[m - 1]))
    ensures m <= Accepted(lang, str)
  {
  }

  // ----- Is an accepted function balanced? -----

  /** With option `f` a run is reduced to a function-like form and then cut: the cut can spoil it.
      Here the closer `2` of the opener `1` is a non-final, and `( x )` is cut to `( x`. */
  lemma CutCanUnbalance()
    ensures var lang := Language([2], [], [1], [2], true);
      GoodLanguage(lang) && Accepted(lang, [1, 3, 2]) == 2 && !Balanced(lang, [1, 3, 2][..2])
  {
    var lang := Language([2], [], [1], [2], true);
    var str: seq<Token> := [1, 3, 2];
    assert Kind([2], 2) == 1 && Kind([1], 1) == 1 && Kind([2], 1) == 0 && Kind([2], 3) == 0;
    OpenBodyClose(lang, 1, 3, 2, 1);
    assert Trimmed(lang, str, 3) == Trimmed(lang, str, 2) == 2;
  }

  /** A non-final that closes a kind some token opens. */
  ghost predicate CutsClosers(lang: Language) {
    exists c: Token, u: Token :: !Final(lang, c) && Kind(lang.closers, c) != 0
                                 && Kind(lang.openers, u) == Kind(lang.closers, c)
  }

  /** The tables of a proper language: no token both opens and closes, and some token that is no
      parenthesis may end a run. */
  ghost predicate ProperTables(lang: Language) {
    && GoodLanguage(lang)
    && (forall t: Token :: Kind(lang.openers, t) == 0 || Kind(lang.closers, t) == 0)
    && exists x: Token :: Neutral(lang, x)
  }

  predicate Neutral(lang: Language, x: Token) {
    Final(lang, x) && Kind(lang.openers, x) == 0 && Kind(lang.closers, x) == 0
  }

  ghost predicate AlwaysBalanced(lang: Language) {
    forall str: seq<Token> :: Balanced(lang, str[..Accepted(lang, str)])
  }

  lemma Prefixes3(a: Token, b: Token, c: Token)
    ensures [a, b, c][..0] == [] && [a, b, c][..1] == [a] && [a, b, c][..2] == [a, b] && [a, b, c][..3] == [a, b, c]
    ensures [a, b][..1] == [a] && [a][..0] == []
  {
  }

  lemma Balance3(lang: Language, a: Token, b: Token, c: Token, k: nat)
    ensures Balance(lang, [], k) == 0 && Balance(lang, [a], k) == Delta(lang, a, k)
    ensures Balance(lang, [a, b], k) == Delta(lang, a, k) + Delta(lang, b, k)
    ensures Balance(lang, [a, b, c], k) == Delta(lang, a, k) + Delta(lang, b, k) + Delta(lang, c, k)
  {
    BalanceSnoc(lang, [], a, k);
    BalanceSnoc(lang, [a], b, k);
    BalanceSnoc(lang, [a, b], c, k);
    assert [] + [a] == [a] && [a] + [b] == [a, b] && [a, b] + [c] == [a, b, c];
  }

  /** An opener, a neutral token and the closer of that opener: a function-like run, out of balance
      without its end. */
  lemma OpenBodyClose(lang: Language, u: Token, x: Token, c: Token, k: nat)
    requires 1 <= k <= MAX_KINDS
    requires Kind(lang.openers, u) == k && Kind(lang.closers, u) == 0
    requires Kind(lang.openers, x) == 0 && Kind(lang.closers, x) == 0
    requires Kind(lang.openers, c) == 0 && Kind(lang.closers, c) == k
    ensures FunctionLike(lang, [u, x, c], 3) && !Balanced(lang, [u, x, c][..2])
  {
    var str := [u, x, c];
    Prefixes3(u, x, c);
    forall j: nat
      ensures Balance(lang, [], j) == 0 && Balance(lang, str, j) == 0
      ensures j != 0 ==> Balance(lang, [u], j) >= 0 && Balance(lang, [u, x], j) == Balance(lang, [u], j)
    {
      Balance3(lang, u, x, c, j);
    }
    Balance3(lang, u, x, c, k);
    assert NoExcess(lang, str) by {
      forall m, j | 0 <= m <= 3 && 1 <= j <= MAX_KINDS
        ensures Balance(lang, str[..m], j) >= 0
      {
        assert m == 0 || m == 1 || m == 2 || m == 3;
      }
    }
  }

  lemma NoExcessInit(lang: Language, s: seq<Token>)
    requires s != [] && NoExcess(lang, s)
    ensures NoExcess(lang, s[..|s| - 1])
  {
    var init := s[..|s| - 1];
    forall m, k | 0 <= m <= |init| && 1 <= k <= MAX_KINDS
      ensures Balance(lang, init[..m], k) >= 0
    {
      assert init[..m] == s[..m];
    }
  }

  /** In a language that cuts no closers of opened kinds, a non-final at the end of a run without
      excess closes nothing. */
  lemma NonFinalClosesNothing(lang: Language, s: seq<Token>, k: nat)
    requires !CutsClosers(lang) && 1 <= k <= MAX_KINDS
    requires s != [] && NoExcess(lang, s) && !Final(lang, s[|s| - 1])
    ensures Delta(lang, s[|s| - 1], k) >= 0
  {
    var init, t := s[..|s| - 1], s[|s| - 1];
    assert s[..|s|] == s;
    assert Balance(lang, s, k) >= 0;
    if Kind(lang.closers, t) == k && Kind(lang.openers, t) != k {
      Unopened(lang, init, k);
    }
  }

  /** So a tail of non-finals at the end of a run without excess only adds openers. */
  lemma {:induction false} TailBalanced(lang: Language, s: seq<Token>, r: nat, k: nat)
    requires !CutsClosers(lang) && r <= |s| && 1 <= k <= MAX_KINDS
    requires NoExcess(lang, s) && forall j :: r <= j < |s| ==> !Final(lang, s[j])
    ensures 0 <= Balance(lang, s[..r], k) <= Balance(lang, s, k)
    decreases |s|
  {
    if r == |s| {
      assert s[..r] == s;
    } else {
      var init := s[..|s| - 1];
      assert init[..r] == s[..r];
      NoExcessInit(lang, s);
      TailBalanced(lang, init, r, k);
      NonFinalClosesNothing(lang, s, k);
    }
  }

  /** A kind that nothing opens never has a positive balance. */
  lemma {:induction false} Unopened(lang: Language, s: seq<Token>, k: nat)
    requires k != 0 && forall u: Token :: Kind(lang.openers, u) != k
    ensures Balance(lang, s, k) <= 0
  {
    if s != [] {
      Unopened(lang, s[..|s| - 1], k);
    }
  }

  /** Exactly when every accepted function is balanced: no non-final closes an opened kind. */
  lemma FunctionsBalancedIff(lang: Language)
    requires ProperTables(lang) && lang.functionsOnly
    ensures AlwaysBalanced(lang) <==> !CutsClosers(lang)
  {
    if CutsClosers(lang) {
      var c: Token, u: Token :| !Final(lang, c) && Kind(lang.closers, c) != 0
                               && Kind(lang.openers, u) == Kind(lang.closers, c);
      var x: Token :| Neutral(lang, x);
      CutSpoils(lang, u, x, c);
    } else {
      forall str: seq<Token>
        ensures Balanced(lang, str[..Accepted(lang, str)])
      {
        CutKeeps(lang, str);
      }
    }
  }

  lemma CutSpoils(lang: Language, u: Token, x: Token, c: Token)
    requires ProperTables(lang) && lang.functionsOnly && Neutral(lang, x)
    requires !Final(lang, c) && Kind(lang.closers, c) != 0 && Kind(lang.openers, u) == Kind(lang.closers, c)
    ensures !AlwaysBalanced(lang)
  {
    var str := [u, x, c];
    OpenBodyClose(lang, u, x, c, Kind(lang.closers, c));
    assert LargestUpTo(lang, str, |str|) == 3;
    assert Trimmed(lang, str, 3) == Trimmed(lang, str, 2) == 2;
    assert !Balanced(lang, str[..Accepted(lang, str)]);
  }

  lemma CutKeeps(lang: Language, str: seq<Token>)
    requires ProperTables(lang) && lang.functionsOnly && !CutsClosers(lang)
    ensures Balanced(lang, str[..Accepted(lang, str)])
  {
    var b, r := LargestUpTo(lang, str, |str|), Accepted(lang, str);
    var s := str[..b];
    assert s[..r] == str[..r];
    forall k | 1 <= k <= MAX_KINDS
      ensures Balance(lang, str[..r], k) == 0
    {
      TailBalanced(lang, s, r, k);
    }
  }

  /** Then an accepted function is the longest balanced prefix, without an excess closer, that may end
      a run. */
  lemma AcceptedFunctionIsGreatest(lang: Language, str: seq<Token>)
    requires ProperTables(lang) && lang.functionsOnly && !CutsClosers(lang)
    ensures FunctionLike(lang, str, Accepted(lang, str))
    ensures forall m :: Accepted(lang, str) < m <= |str| && FunctionLike(lang, str, m) ==> !Final(lang, str[m - 1])
  {
    var b, r := LargestUpTo(lang, str, |str|), Accepted(lang, str);
    CutKeeps(lang, str);
    forall m, k | 0 <= m <= r && 1 <= k <= MAX_KINDS
      ensures Balance(lang, str[..r][..m], k) >= 0
    {
      assert str[..r][..m] == str[..b][..m];
    }
  }
}

/** The token tables of the front ends that SIM ships (pascallang.l, clang.l, javalang.l, m2lang.l, miralang.l
    and lisplang.l in utils/sim_pasc, and textlang.l, which accepts everything): in none of them the cutting
    of a run's tail unbalances it, so for all of them the search equals brute force. */
module SimShipped {
  import opened SimLanguage
  import opened SimCorpus
  import opened SimCompare

  // ----- The composition of tokens -----

  type Ascii = c: char | 0 <= c as int < 128

  function Norm(c: Ascii): Token {
    c as int
  }

  function Ctrl(c: Ascii): Token {
    c as int % 32
  }

  function Meta(c: Ascii): Token {
    c as int + 128
  }

  function Mtct(c: Ascii): Token {
    c as int % 32 + 128
  }

  const IDF: Token := 64

  const BRACKETS_OPEN: seq<Token> := [Norm('{'), Norm('('), Norm('[')]
  const BRACKETS_CLOSE: seq<Token> := [Norm('}'), Norm(')'), Norm(']')]

  // ----- The tables -----

  /** Non-finals are listed in parts. */
  function Flat(parts: seq<seq<Token>>): seq<Token> {
    if parts == [] then [] else parts[0] + Flat(parts[1..])
  }

  const PASCAL_NON_FINALS: seq<seq<Token>> := [
    [IDF, Norm('{'), Norm('('), Norm('['), Norm('A'), Norm('c'), Meta('C'), Meta('c')],
    [Norm('C'), Norm('/'), Ctrl('E'), Norm('F'), Norm('f'), Norm('g'), Norm('i'), Ctrl('I')],
    [Norm('l'), Norm('O'), Norm('P'), Norm('p'), Meta('P'), Meta('p'), Ctrl('p'), Meta('R')],
    [Norm('r'), Norm('R'), Norm('s'), Norm('T'), Norm('v'), Norm('w'), Norm('W')]]

  const C_NON_FINALS: seq<seq<Token>> := [
    [IDF, Norm('{'), Norm('('), Norm('a'), Norm('b'), Norm('c'), Norm('C'), Ctrl('C'), Norm('d'), Norm('D')],
    [Ctrl('D'), Norm('E'), Ctrl('E'), Norm('f'), Norm('F'), Norm('g'), Norm('i'), Norm('I'), Norm('l'), Norm('r')],
    [Norm('s'), Ctrl('S'), Meta('s'), Meta('S'), Norm('t'), Norm('u'), Norm('U'), Norm('w')]]

  const JAVA_NON_FINALS: seq<seq<Token>> := [
    [IDF, Norm('{'), Norm('('), Norm('a'), Norm('b'), Norm('B'), Ctrl('B'), Norm('c'), Norm('C')],
    [Ctrl('C'), Meta('c'), Meta('C'), Norm('d'), Norm('D'), Ctrl('D'), Norm('e'), Norm('E'), Norm('f')],
    [Norm('F'), Ctrl('F'), Meta('f'), Norm('i'), Norm('I'), Ctrl('I'), Meta('i'), Meta('I'), Mtct('I')],
    [Norm('l'), Norm('n'), Norm('N'), Norm('p'), Norm('P'), Ctrl('P'), Meta('p'), Norm('r'), Norm('s')],
    [Norm('S'), Ctrl('S'), Meta('s'), Meta('S'), Norm('T'), Ctrl('T'), Norm('v'), Norm('V'), Norm('w')]]

  const MODULA2_NON_FINALS: seq<seq<Token>> := [
    [IDF, Norm('{'), Norm('('), Norm('['), Norm('A'), Norm('c'), Norm('C')],
    [Norm('E'), Norm('F'), Norm('i'), Norm('l'), Norm('p'), Norm('P'), Norm('r')],
    [Norm('R'), Ctrl('R'), Norm('s'), Norm('T'), Norm('v'), Norm('w'), Norm('W')]]

  function Pascal(functionsOnly: bool): Language {
    Language(
      Flat(PASCAL_NON_FINALS),
      [Norm(')'), Norm('}'), Norm(';')],
      BRACKETS_OPEN, BRACKETS_CLOSE, functionsOnly)
  }

  function C(functionsOnly: bool): Language {
    Language(
      Flat(C_NON_FINALS),
      [Norm(')'), Norm('}'), Norm(';')],
      BRACKETS_OPEN, BRACKETS_CLOSE, functionsOnly)
  }

  function Java(functionsOnly: bool): Language {
    Language(
      Flat(JAVA_NON_FINALS),
      [Norm(')'), Norm('}'), Norm(';')],
      BRACKETS_OPEN, BRACKETS_CLOSE, functionsOnly)
  }

  function Modula2(functionsOnly: bool): Language {
    Language(
      Flat(MODULA2_NON_FINALS),
      [Norm('}'), Norm(')'), Norm(']'), Norm(';')],
      BRACKETS_OPEN, BRACKETS_CLOSE, functionsOnly)
  }

  function Miranda(functionsOnly: bool): Language {
    Language(
      [Norm('('), Norm('['), Norm('=')],
      [Norm(')'), Norm(']')],
      [Norm('('), Norm('['), Norm('=')], [Norm(')'), Norm(']')], functionsOnly)
  }

  function Lisp(functionsOnly: bool): Language {
    Language(
      [Norm('('), Norm('[')],
      [Norm(')'), Norm(']')],
      [Norm('('), Norm('[')], [Norm(')'), Norm(']')], functionsOnly)
  }

  /** `textlang.l` has its own functions, which accept every run; empty tables do the same. */
  function Text(functionsOnly: bool): Language {
    Language([], [], [], [], functionsOnly)
  }

  // ----- None of them cuts a closer -----

  lemma KindIs(list: seq<Token>, t: Token)
    ensures Kind(list, t) == 0 <==> t !in list
  {
  }

  /** No token both opens and closes, no closer is a non-final, and some token is none of them. */
  predicate Apart(lang: Language, x: Token) {
    && |lang.openers| <= MAX_KINDS && |lang.closers| <= MAX_KINDS
    && (forall i :: 0 <= i < |lang.closers| ==> lang.closers[i] !in lang.openers && lang.closers[i] !in lang.nonFinals)
    && x !in lang.nonFinals && x !in lang.openers && x !in lang.closers
  }

  /** Such tables cut safely, with option `f` and without. */
  lemma ApartCutsSafely(lang: Language, x: Token)
    requires Apart(lang, x)
    ensures CutsSafely(lang)
  {
    forall t: Token
      ensures Kind(lang.openers, t) == 0 || Kind(lang.closers, t) == 0
      ensures !Final(lang, t) ==> Kind(lang.closers, t) == 0
    {
      KindIs(lang.openers, t);
      KindIs(lang.closers, t);
      KindIs(lang.nonFinals, t);
    }
    KindIs(lang.openers, x);
    KindIs(lang.closers, x);
    KindIs(lang.nonFinals, x);
    assert Neutral(lang, x);
  }

  /** No closing bracket and no semicolon. */
  predicate Free(list: seq<Token>) {
    Norm('}') !in list && Norm(')') !in list && Norm(']') !in list && Norm(';') !in list
  }

  lemma {:induction false} FlatFree(parts: seq<seq<Token>>)
    requires forall i :: 0 <= i < |parts| ==> Free(parts[i])
    ensures Free(Flat(parts))
  {
    if parts != [] {
      FlatFree(parts[1..]);
    }
  }

  lemma BracketsApart(lang: Language)
    requires lang.openers == BRACKETS_OPEN && lang.closers == BRACKETS_CLOSE && Free(lang.nonFinals)
    ensures Apart(lang, Norm(';'))
  {
  }

  lemma PascalCutsSafely(functionsOnly: bool)
    ensures CutsSafely(Pascal(functionsOnly))
  {
    FlatFree(PASCAL_NON_FINALS);
    BracketsApart(Pascal(functionsOnly));
    ApartCutsSafely(Pascal(functionsOnly), Norm(';'));
  }

  lemma CCutsSafely(functionsOnly: bool)
    ensures CutsSafely(C(functionsOnly))
  {
    FlatFree(C_NON_FINALS);
    BracketsApart(C(functionsOnly));
    ApartCutsSafely(C(functionsOnly), Norm(';'));
  }

  lemma JavaCutsSafely(functionsOnly: bool)
    ensures CutsSafely(Java(functionsOnly))
  {
    FlatFree(JAVA_NON_FINALS);
    BracketsApart(Java(functionsOnly));
    ApartCutsSafely(Java(functionsOnly), Norm(';'));
  }

  lemma Modula2CutsSafely(functionsOnly: bool)
    ensures CutsSafely(Modula2(functionsOnly))
  {
    FlatFree(MODULA2_NON_FINALS);
    BracketsApart(Modula2(functionsOnly));
    ApartCutsSafely(Modula2(functionsOnly), Norm(';'));
  }

  lemma MirandaCutsSafely(functionsOnly: bool)
    ensures CutsSafely(Miranda(functionsOnly))
  {
    assert Apart(Miranda(functionsOnly), Norm(';'));
    ApartCutsSafely(Miranda(functionsOnly), Norm(';'));
  }

  lemma LispCutsSafely(functionsOnly: bool)
    ensures CutsSafely(Lisp(functionsOnly))
  {
    assert Apart(Lisp(functionsOnly), Norm(';'));
    ApartCutsSafely(Lisp(functionsOnly), Norm(';'));
  }

  lemma {:induction false} TextBalance(functionsOnly: bool, s: seq<Token>, k: nat)
    requires k != 0
    ensures Balance(Text(functionsOnly), s, k) == 0
  {
    if s != [] {
      TextBalance(functionsOnly, s[..|s| - 1], k);
    }
  }

  lemma TextCutsSafely(functionsOnly: bool)
    ensures CutsSafely(Text(functionsOnly))
  {
    ApartCutsSafely(Text(functionsOnly), Norm(';'));
  }

  /** The front end for text accepts every run as it is. */
  lemma TextAcceptsAll(functionsOnly: bool, str: seq<Token>)
    ensures Accepted(Text(functionsOnly), str) == |str|
  {
    var lang := Text(functionsOnly);
    forall s: seq<Token>, k: nat | k != 0
      ensures Balance(lang, s, k) == 0
    {
      TextBalance(functionsOnly, s, k);
    }
    assert FunctionLike(lang, str, |str|);
  }

  // ----- What follows for the tool -----

  datatype FrontEnd = PascalText | CText | JavaText | Modula2Text | MirandaText | LispText | PlainText

  /** The language of a shipped front end. */
  function Shipped(front: FrontEnd, functionsOnly: bool): Language {
    match front
    case PascalText => Pascal(functionsOnly)
    case CText => C(functionsOnly)
    case JavaText => Java(functionsOnly)
    case Modula2Text => Modula2(functionsOnly)
    case MirandaText => Miranda(functionsOnly)
    case LispText => Lisp(functionsOnly)
    case PlainText => Text(functionsOnly)
  }

  lemma ShippedCutsSafely(front: FrontEnd, functionsOnly: bool)
    ensures CutsSafely(Shipped(front, functionsOnly))
  {
    match front
    case PascalText => PascalCutsSafely(functionsOnly);
    case CText => CCutsSafely(functionsOnly);
    case JavaText => JavaCutsSafely(functionsOnly);
    case Modula2Text => Modula2CutsSafely(functionsOnly);
    case MirandaText => MirandaCutsSafely(functionsOnly);
    case LispText => LispCutsSafely(functionsOnly);
    case PlainText => TextCutsSafely(functionsOnly);
  }

  /** With every shipped front end, with option `f` and without: a run that is accepted as a function is
      balanced, and the search is brute force. */
  lemma ShippedIsBruteForce(front: FrontEnd, c: Corpus, t0: nat, i0: nat, first: nat, limit: nat, at: nat, size: nat,
                            i1: nat, n: nat)
    requires c.lang == Shipped(front, c.lang.functionsOnly) && At(c, t0, i0) && limit <= |c.tokens|
    requires BestOverall(Sizes(c, t0), c.minRun, i0, first, limit, at, size)
    requires Opposite(i0, first, limit, i1) && Acceptable(c, t0, i0, i1, n)
    ensures size == 0 ==> n < c.minRun
    ensures size != 0 ==> n <= size && (i1 < at ==> n < size)
    ensures size != 0 ==> size >= c.minRun && i0 < at < |c.tokens| && Acceptable(c, t0, i0, at, size)
  {
    ShippedCutsSafely(front, c.lang.functionsOnly);
    SearchIsBruteForce(c, t0, i0, first, limit, at, size, i1, n);
  }

  /** And every function that is accepted is balanced. */
  lemma ShippedBalanced(front: FrontEnd, str: seq<Token>)
    ensures var lang := Shipped(front, true); Balanced(lang, str[..Accepted(lang, str)])
  {
    ShippedCutsSafely(front, true);
    CutKeeps(Shipped(front, true), str);
  }
}

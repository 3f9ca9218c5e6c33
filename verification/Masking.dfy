/** `mask_comments_and_strings` of RTL-test/surface/check_surface.py: the Pascal lexer that blanks
    comments and the contents of strings and leaves every character where it was. */
module Masking {
  import opened Basics

  datatype State = Code | LineComment | ParenComment | BraceComment | Quote

  // ----- The lexer -----

  /** The two characters `a`, `b` stand at the front. */
  predicate Opens(s: string, a: char, b: char) {
    |s| >= 2 && s[0] == a && s[1] == b
  }

  function Blank(c: char): char {
    if c == '\n' then '\n' else ' '
  }

  /** What one turn of the loop reads (one or two characters), what it appends and its next state. */
  function Turn(state: State, s: string): (t: (nat, string, State))
    requires s != ""
    ensures 1 <= t.0 <= |s| && |t.1| == t.0
  {
    match state
    case Code =>
      if Opens(s, '/', '/') then (2, "  ", LineComment)
      else if Opens(s, '(', '*') then (2, "  ", ParenComment)
      else if s[0] == '{' then (1, " ", BraceComment)
      else if s[0] == '\'' then (1, "'", Quote)
      else (1, [s[0]], Code)
    case LineComment => (1, [Blank(s[0])], if s[0] == '\n' then Code else LineComment)
    case ParenComment =>
      if Opens(s, '*', ')') then (2, "  ", Code) else (1, [Blank(s[0])], ParenComment)
    case BraceComment => (1, [Blank(s[0])], if s[0] == '}' then Code else BraceComment)
    case Quote =>
      if Opens(s, '\'', '\'') then (2, "  ", Quote)
      else if s[0] == '\'' then (1, "'", Code)
      else (1, [Blank(s[0])], Quote)
  }

  function Masked(state: State, s: string): (r: string)
    ensures |r| == |s|
    decreases |s|
  {
    if s == "" then ""
    else
      var t := Turn(state, s);
      t.1 + Masked(t.2, s[t.0..])
  }

  /** What the rest of the source will add. */
  ghost predicate Ahead(source: string, i: nat, state: State, rest: string) {
    i <= |source| && rest == Masked(state, source[i..])
  }

  /** The output so far and what the rest will add make the whole. */
  ghost predicate Underway(goal: string, source: string, out: string, i: nat, state: State) {
    forall rest: string :: Ahead(source, i, state, rest) ==> goal == out + rest
  }

  /** A turn keeps `Underway`. */
  lemma TurnKeeps(goal: string, source: string, out: string, i: nat, state: State, t: (nat, string, State))
    requires i < |source| && Underway(goal, source, out, i, state) && t == Turn(state, source[i..])
    ensures i + t.0 <= |source| && Underway(goal, source, out + t.1, i + t.0, t.2)
  {
    MaskedStep(source, i, state);
    Associate(out, t.1, Masked(t.2, source[i + t.0..]));
    assert Ahead(source, i, state, Masked(state, source[i..]));
  }

  /** The slice of at most two characters, compared with a pair. */
  lemma PairIs(source: string, i: nat, pair: string, a: char, b: char)
    requires i < |source| && pair == if i + 2 <= |source| then source[i..i + 2] else source[i..]
    ensures pair == [a, b] <==> Opens(source[i..], a, b)
  {
    if i + 2 <= |source| {
      assert pair == [source[i], source[i + 1]];
    }
  }

  /** One turn of the loop. */
  method TakeTurn(source: string, i: nat, state: State) returns (t: (nat, string, State))
    requires i < |source|
    ensures t == Turn(state, source[i..])
  {
    var c := source[i];
    var pair := if i + 2 <= |source| then source[i..i + 2] else source[i..];
    match state
    case Code =>
      PairIs(source, i, pair, '/', '/');
      PairIs(source, i, pair, '(', '*');
      if pair == ['/', '/'] {
        t := (2, "  ", LineComment);
      } else if pair == ['(', '*'] {
        t := (2, "  ", ParenComment);
      } else if c == '{' {
        t := (1, " ", BraceComment);
      } else if c == '\'' {
        t := (1, "'", Quote);
      } else {
        t := (1, [c], Code);
      }
    case LineComment =>
      t := (1, if c == '\n' then "\n" else " ", if c == '\n' then Code else LineComment);
    case ParenComment =>
      PairIs(source, i, pair, '*', ')');
      if pair == ['*', ')'] {
        t := (2, "  ", Code);
      } else {
        t := (1, if c == '\n' then "\n" else " ", ParenComment);
      }
    case BraceComment =>
      t := (1, if c == '\n' then "\n" else " ", if c == '}' then Code else BraceComment);
    case Quote =>
      PairIs(source, i, pair, '\'', '\'');
      if pair == ['\'', '\''] {
        t := (2, "  ", Quote);
      } else if c == '\'' {
        t := (1, "'", Code);
      } else {
        t := (1, if c == '\n' then "\n" else " ", Quote);
      }
  }

  lemma AtStart(source: string)
    ensures Underway(Masked(Code, source), source, "", 0, Code)
  {
    assert source[0..] == source;
  }

  lemma AtEnd(goal: string, source: string, out: string, state: State)
    requires Underway(goal, source, out, |source|, state)
    ensures out == goal
  {
    assert source[|source|..] == "";
    assert Ahead(source, |source|, state, "");
  }

  /** `mask_comments_and_strings`. */
  method MaskCommentsAndStrings(source: string) returns (out: string)
    ensures out == Masked(Code, source)
  {
    out := "";
    var i: nat, state := 0, Code;
    ghost var goal := Masked(Code, source);
    AtStart(source);
    while i < |source|
      invariant i <= |source| && Underway(goal, source, out, i, state)
      decreases |source| - i
    {
      var t := TakeTurn(source, i, state);
      TurnKeeps(goal, source, out, i, state, t);
      out, i, state := out + t.1, i + t.0, t.2;
    }
    AtEnd(goal, source, out, state);
  }

  lemma MaskedStep(source: string, i: nat, state: State)
    requires i < |source|
    ensures var t := Turn(state, source[i..]);
      Masked(state, source[i..]) == t.1 + Masked(t.2, source[i + t.0..])
  {
    var t := Turn(state, source[i..]);
    assert source[i..][t.0..] == source[i + t.0..];
  }

  // ----- Position by position -----

  /** Each character is kept or becomes a space; newlines stay exactly where they were. */
  ghost predicate Aligned(s: string, r: string) {
    && |r| == |s|
    && (forall i :: 0 <= i < |s| ==> r[i] == s[i] || r[i] == ' ')
    && forall i :: 0 <= i < |s| ==> (r[i] == '\n' <==> s[i] == '\n')
  }

  lemma AlignedJoin(s: string, k: nat, head: string, rest: string)
    requires k <= |s| && Aligned(s[..k], head) && Aligned(s[k..], rest)
    ensures Aligned(s, head + rest)
  {
    forall i | 0 <= i < |s|
      ensures ((head + rest)[i] == s[i] || (head + rest)[i] == ' ') && ((head + rest)[i] == '\n' <==> s[i] == '\n')
    {
      if i < k {
        assert s[i] == s[..k][i];
      } else {
        assert s[i] == s[k..][i - k] && (head + rest)[i] == rest[i - k];
      }
    }
  }

  lemma {:induction false} MaskAligned(state: State, s: string)
    ensures Aligned(s, Masked(state, s))
    decreases |s|
  {
    if s != "" {
      var t := Turn(state, s);
      MaskAligned(t.2, s[t.0..]);
      AlignedJoin(s, t.0, t.1, Masked(t.2, s[t.0..]));
    }
  }

  /** No comment opens at the front. */
  predicate NoComment(r: string) {
    r != "" ==> r[0] != '{' && !Opens(r, '/', '/') && !Opens(r, '(', '*')
  }

  /** The output opens no comment at any position. */
  lemma {:induction false} MaskOpensNothing(state: State, s: string, i: nat)
    requires i <= |s|
    ensures NoComment(Masked(state, s)[i..])
    decreases |s|
  {
    if i < |s| {
      var t := Turn(state, s);
      var rest := Masked(t.2, s[t.0..]);
      if i >= t.0 {
        MaskOpensNothing(t.2, s[t.0..], i - t.0);
        assert Masked(state, s)[i..] == rest[i - t.0..];
      } else {
        MaskAligned(state, s);
        var r := Masked(state, s);
        assert r[i] == t.1[i];
        assert |r[i..]| >= 2 ==> r[i..][1] == r[i + 1];
      }
    }
  }

  /** The state in which the output is read where the source is read in `state`: what was a comment is
      now blank code. */
  function Reread(state: State): State {
    if state == Quote then Quote else Code
  }

  lemma BlankTurn(state: State, r: string)
    requires r != "" && (r[0] == ' ' || r[0] == '\n') && (state == Code || state == Quote)
    ensures Turn(state, r) == (1, [r[0]], state)
  {
  }

  /** A turn that gives back what it reads, before text that is its own mask. */
  lemma JoinStays(state: State, head: string, next: State, rest: string)
    requires head + rest != "" && Turn(state, head + rest) == (|head|, head, next) && Masked(next, rest) == rest
    ensures Masked(state, head + rest) == head + rest
  {
    assert (head + rest)[|head|..] == rest;
  }

  lemma BlankStays(state: State, c: char, rest: string)
    requires (c == ' ' || c == '\n') && (state == Code || state == Quote) && Masked(state, rest) == rest
    ensures Masked(state, [c] + rest) == [c] + rest
  {
    BlankTurn(state, [c] + rest);
    JoinStays(state, [c], state, rest);
  }

  /** The output of a turn that is not blank is read as it is. */
  lemma SolidTurn(state: State, s: string)
    requires s != "" && Turn(state, s).1 != " " && Turn(state, s).1 != "\n" && Turn(state, s).1 != "  "
    ensures var t := Turn(state, s);
      Turn(Reread(state), Masked(state, s)) == (t.0, t.1, Reread(t.2))
  {
    var r := Masked(state, s);
    MaskAligned(state, s);
    MaskOpensNothing(state, s, 0);
    assert r[0..] == r;
    assert r[0] == Turn(state, s).1[0];
  }

  /** Masking is a fixed point: the output is its own mask. */
  lemma {:induction false} MaskFixed(state: State, s: string)
    ensures Masked(Reread(state), Masked(state, s)) == Masked(state, s)
    decreases |s|
  {
    if s != "" {
      var t := Turn(state, s);
      MaskFixed(t.2, s[t.0..]);
      OutputStays(state, t, s, Masked(t.2, s[t.0..]));
    }
  }

  /** A turn that appends blanks leaves the state in which the output is read. */
  lemma BlankTurnKeeps(state: State, s: string)
    requires s != "" && Turn(state, s).1 in [" ", "\n", "  "]
    ensures Reread(Turn(state, s).2) == Reread(state)
  {
  }

  lemma TwoBlanksStay(state: State, rest: string)
    requires (state == Code || state == Quote) && Masked(state, rest) == rest
    ensures Masked(state, "  " + rest) == "  " + rest
  {
    BlankStays(state, ' ', rest);
    BlankStays(state, ' ', [' '] + rest);
    assert "  " + rest == [' '] + ([' '] + rest);
  }

  lemma OutputStays(state: State, t: (nat, string, State), s: string, rest: string)
    requires s != "" && t == Turn(state, s) && rest == Masked(t.2, s[t.0..]) && Masked(Reread(t.2), rest) == rest
    ensures Masked(Reread(state), t.1 + rest) == t.1 + rest
  {
    if t.1 in [" ", "\n", "  "] {
      BlankTurnKeeps(state, s);
      if t.1 == "  " {
        TwoBlanksStay(Reread(state), rest);
      } else {
        BlankStays(Reread(state), t.1[0], rest);
      }
    } else {
      SolidTurn(state, s);
      JoinStays(Reread(state), t.1, Reread(t.2), rest);
    }
  }

  lemma MaskTwice(s: string)
    ensures Masked(Code, Masked(Code, s)) == Masked(Code, s)
  {
    MaskFixed(Code, s);
  }
}

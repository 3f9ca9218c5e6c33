/** What masking means: a source is a row of plain characters, comments and strings, and exactly the
    comments and the contents of the strings are blanked. */
module MaskingRegions {
  import opened Basics
  import opened Masking

  /** A region of Pascal source. A comment or string that the end of the file cuts off is not closed. */
  datatype Region =
    | Plain(c: char)
    | Line(body: string)
    | Brace(body: string, closed: bool)
    | Paren(body: string, closed: bool)
    | Quoted(body: string, closed: bool)

  function Text(r: Region): string {
    match r
    case Plain(c) => [c]
    case Line(body) => "//" + body
    case Brace(body, closed) => "{" + body + (if closed then "}" else "")
    case Paren(body, closed) => "(*" + body + (if closed then "*)" else "")
    case Quoted(body, closed) => "'" + body + (if closed then "'" else "")
  }

  function Blanks(s: string): (b: string)
    ensures |b| == |s|
  {
    if s == "" then "" else [Blank(s[0])] + Blanks(s[1..])
  }

  /** Comments blanked with their delimiters, strings but for their quotes. */
  function Hidden(r: Region): string {
    match r
    case Plain(c) => [c]
    case Line(_) => Blanks(Text(r))
    case Brace(_, _) => Blanks(Text(r))
    case Paren(_, _) => Blanks(Text(r))
    case Quoted(body, closed) => "'" + Blanks(body) + (if closed then "'" else "")
  }

  predicate StartsWith(s: string, c: char) {
    s != "" && s[0] == c
  }

  predicate NoClosing(body: string) {
    forall k :: 0 <= k < |body| - 1 && body[k] == '*' ==> body[k + 1] != ')'
  }

  /** Every quote within a string is doubled. */
  predicate Doubled(body: string) {
    if body == "" then true
    else if body[0] != '\'' then Doubled(body[1..])
    else Opens(body, '\'', '\'') && Doubled(body[2..])
  }

  /** `r` is the region that Pascal sees before the text `rest`. */
  predicate Fits(r: Region, rest: string) {
    match r
    case Plain(c) =>
      c != '{' && c != '\'' && !(c == '/' && StartsWith(rest, '/')) && !(c == '(' && StartsWith(rest, '*'))
    case Line(body) => '\n' !in body && (rest == "" || rest[0] == '\n')
    case Brace(body, closed) => '}' !in body && (closed || rest == "")
    case Paren(body, closed) => NoClosing(body) && (closed || rest == "")
    case Quoted(body, closed) => Doubled(body) && if closed then !StartsWith(rest, '\'') else rest == ""
  }

  function Source(rs: seq<Region>): string {
    if rs == [] then "" else Text(rs[0]) + Source(rs[1..])
  }

  function Visible(rs: seq<Region>): string {
    if rs == [] then "" else Hidden(rs[0]) + Visible(rs[1..])
  }

  predicate Regions(rs: seq<Region>) {
    rs == [] || (Fits(rs[0], Source(rs[1..])) && Regions(rs[1..]))
  }

  // ----- Masking a row of regions -----

  lemma TurnThen(state: State, s: string, head: string, rest: string, next: State, out: string)
    requires s == head + rest && s != "" && Turn(state, s) == (|head|, out, next)
    ensures Masked(state, s) == out + Masked(next, rest)
  {
    assert s[|head|..] == rest;
  }

  lemma {:induction false} LineMasked(body: string, rest: string)
    requires '\n' !in body && (rest == "" || rest[0] == '\n')
    ensures Masked(LineComment, body + rest) == Blanks(body) + Masked(Code, rest)
  {
    if body != "" {
      var s := body + rest;
      TurnThen(LineComment, s, [body[0]], body[1..] + rest, LineComment, [Blank(body[0])]);
      LineMasked(body[1..], rest);
    } else if rest == "" {
      assert body + rest == "";
    } else {
      assert body + rest == rest;
      TurnThen(LineComment, rest, [rest[0]], rest[1..], Code, [rest[0]]);
      TurnThen(Code, rest, [rest[0]], rest[1..], Code, [rest[0]]);
    }
  }

  lemma {:induction false} BraceMasked(body: string, closed: bool, rest: string)
    requires '}' !in body && (closed || rest == "")
    ensures Masked(BraceComment, body + (if closed then "}" else "") + rest)
         == Blanks(body + (if closed then "}" else "")) + Masked(Code, rest)
  {
    var tail := if closed then "}" else "";
    var s := body + tail + rest;
    if body != "" {
      assert (body + tail)[1..] == body[1..] + tail;
      TurnThen(BraceComment, s, [body[0]], body[1..] + tail + rest, BraceComment, [Blank(body[0])]);
      BraceMasked(body[1..], closed, rest);
    } else if closed {
      TurnThen(BraceComment, s, "}", rest, Code, " ");
    }
  }

  lemma {:induction false} ParenMasked(body: string, closed: bool, rest: string)
    requires NoClosing(body) && (closed || rest == "")
    ensures Masked(ParenComment, body + (if closed then "*)" else "") + rest)
         == Blanks(body + (if closed then "*)" else "")) + Masked(Code, rest)
  {
    var tail := if closed then "*)" else "";
    var s := body + tail + rest;
    if body != "" {
      assert (body + tail)[1..] == body[1..] + tail;
      assert s[0] == body[0] && (|body| > 1 ==> s[1] == body[1]) && (|body| == 1 && closed ==> s[1] == '*');
      TurnThen(ParenComment, s, [body[0]], body[1..] + tail + rest, ParenComment, [Blank(body[0])]);
      ParenMasked(body[1..], closed, rest);
    } else if closed {
      assert "*)"[1..] == ")";
      TurnThen(ParenComment, s, "*)", rest, Code, "  ");
    }
  }

  lemma DoubledQuote(body: string, rest: string)
    requires Opens(body, '\'', '\'')
    ensures Masked(Quote, body + rest) == "  " + Masked(Quote, body[2..] + rest)
    ensures Blanks(body) == "  " + Blanks(body[2..])
  {
    TurnThen(Quote, body + rest, body[..2], body[2..] + rest, Quote, "  ");
    assert body[1..][1..] == body[2..];
  }

  lemma PlainQuoted(body: string, rest: string)
    requires body != "" && body[0] != '\''
    ensures Masked(Quote, body + rest) == [Blank(body[0])] + Masked(Quote, body[1..] + rest)
  {
    TurnThen(Quote, body + rest, [body[0]], body[1..] + rest, Quote, [Blank(body[0])]);
  }

  lemma {:induction false} BodyMasked(body: string, rest: string)
    requires Doubled(body)
    ensures Masked(Quote, body + rest) == Blanks(body) + Masked(Quote, rest)
    decreases |body|
  {
    if body == "" {
      assert body + rest == rest;
    } else if body[0] == '\'' {
      DoubledQuote(body, rest);
      BodyMasked(body[2..], rest);
      Associate("  ", Blanks(body[2..]), Masked(Quote, rest));
    } else {
      PlainQuoted(body, rest);
      BodyMasked(body[1..], rest);
      Associate([Blank(body[0])], Blanks(body[1..]), Masked(Quote, rest));
    }
  }

  lemma QuotedMasked(body: string, closed: bool, rest: string)
    requires Doubled(body) && (if closed then !StartsWith(rest, '\'') else rest == "")
    ensures Masked(Quote, body + ((if closed then "'" else "") + rest))
         == Blanks(body) + ((if closed then "'" else "") + Masked(Code, rest))
  {
    if closed {
      BodyMasked(body, "'" + rest);
      TurnThen(Quote, "'" + rest, "'", rest, Code, "'");
    } else {
      BodyMasked(body, "");
    }
  }

  lemma LineRegion(body: string, rest: string)
    requires Fits(Line(body), rest)
    ensures Masked(Code, Text(Line(body)) + rest) == Hidden(Line(body)) + Masked(Code, rest)
  {
    Associate("//", body, rest);
    TurnThen(Code, "//" + (body + rest), "//", body + rest, LineComment, "  ");
    LineMasked(body, rest);
    BlanksJoin("//", body);
    Associate("  ", Blanks(body), Masked(Code, rest));
  }

  lemma BraceRegion(body: string, closed: bool, rest: string)
    requires Fits(Brace(body, closed), rest)
    ensures Masked(Code, Text(Brace(body, closed)) + rest) == Hidden(Brace(body, closed)) + Masked(Code, rest)
  {
    var tail := if closed then "}" else "";
    assert "{" + body + tail == "{" + (body + tail);
    TurnThen(Code, "{" + (body + tail) + rest, "{", body + tail + rest, BraceComment, " ");
    BraceMasked(body, closed, rest);
    BlanksJoin("{", body + tail);
  }

  lemma ParenRegion(body: string, closed: bool, rest: string)
    requires Fits(Paren(body, closed), rest)
    ensures Masked(Code, Text(Paren(body, closed)) + rest) == Hidden(Paren(body, closed)) + Masked(Code, rest)
  {
    var tail := if closed then "*)" else "";
    assert "(*" + body + tail == "(*" + (body + tail);
    TurnThen(Code, "(*" + (body + tail) + rest, "(*", body + tail + rest, ParenComment, "  ");
    ParenMasked(body, closed, rest);
    BlanksJoin("(*", body + tail);
  }

  lemma QuotedRegion(body: string, closed: bool, rest: string)
    requires Fits(Quoted(body, closed), rest)
    ensures Masked(Code, Text(Quoted(body, closed)) + rest) == Hidden(Quoted(body, closed)) + Masked(Code, rest)
  {
    var tail := if closed then "'" else "";
    var after := body + (tail + rest);
    Associate(body, tail, rest);
    Associate("'", body + tail, rest);
    Associate("'", body, tail);
    TurnThen(Code, "'" + after, "'", after, Quote, "'");
    QuotedMasked(body, closed, rest);
    Associate(Blanks(body), tail, Masked(Code, rest));
    Associate("'", Blanks(body) + tail, Masked(Code, rest));
    Associate("'", Blanks(body), tail);
  }

  /** A region is hidden as it should be, whatever follows. */
  lemma RegionMasked(r: Region, rest: string)
    requires Fits(r, rest)
    ensures Masked(Code, Text(r) + rest) == Hidden(r) + Masked(Code, rest)
  {
    match r
    case Plain(c) => TurnThen(Code, [c] + rest, [c], rest, Code, [c]);
    case Line(body) => LineRegion(body, rest);
    case Brace(body, closed) => BraceRegion(body, closed, rest);
    case Paren(body, closed) => ParenRegion(body, closed, rest);
    case Quoted(body, closed) => QuotedRegion(body, closed, rest);
  }

  lemma {:induction false} BlanksJoin(a: string, b: string)
    ensures Blanks(a + b) == Blanks(a) + Blanks(b)
    ensures Blanks("//") == "  " && Blanks("{") == " " && Blanks("(*") == "  "
  {
    if a == "" {
      assert a + b == b;
    } else {
      assert (a + b)[1..] == a[1..] + b;
      BlanksJoin(a[1..], b);
    }
    assert "//"[1..] == "/" && "(*"[1..] == "*";
  }

  /** Masking a source leaves its plain characters and the quotes of its strings, and blanks the rest. */
  lemma {:induction false} RegionsMasked(rs: seq<Region>)
    requires Regions(rs)
    ensures Masked(Code, Source(rs)) == Visible(rs)
  {
    if rs != [] {
      RegionMasked(rs[0], Source(rs[1..]));
      RegionsMasked(rs[1..]);
    }
  }

  // ----- Every source is a row of regions -----

  function Until(s: string, c: char): (k: nat)
    ensures k <= |s| && c !in s[..k] && (k < |s| ==> s[k] == c)
  {
    if s == "" || s[0] == c then 0
    else
      var k := Until(s[1..], c);
      assert s[..k + 1] == [s[0]] + s[1..][..k];
      k + 1
  }

  function UntilClosing(s: string): (k: nat)
    ensures k <= |s| && (forall j :: 0 <= j < k && s[j] == '*' && j + 1 < |s| ==> s[j + 1] != ')')
    ensures k < |s| ==> Opens(s[k..], '*', ')')
  {
    if s == "" || Opens(s, '*', ')') then 0
    else
      var k := UntilClosing(s[1..]);
      assert s[k + 1..] == s[1..][k..];
      assert forall j :: 1 <= j < |s| ==> s[j] == s[1..][j - 1];
      k + 1
  }

  function UntilQuote(s: string): (k: nat)
    ensures k <= |s| && Doubled(s[..k]) && (k < |s| ==> s[k] == '\'' && !StartsWith(s[k + 1..], '\''))
    decreases |s|
  {
    if s == "" then 0
    else if Opens(s, '\'', '\'') then
      var k := UntilQuote(s[2..]);
      assert s[..k + 2][2..] == s[2..][..k];
      assert s[2..][k..] == s[k + 2..];
      assert k < |s[2..]| ==> s[2..][k + 1..] == s[k + 3..];
      k + 2
    else if s[0] == '\'' then 0
    else
      var k := UntilQuote(s[1..]);
      assert s[..k + 1][1..] == s[1..][..k];
      assert k < |s[1..]| ==> s[1..][k + 1..] == s[k + 2..];
      k + 1
  }

  /** The region that a comment or string of the source makes, and the text behind it. */
  lemma LineAhead(s: string) returns (r: Region, rest: string)
    ensures "//" + s == Text(r) + rest && Text(r) != "" && Fits(r, rest)
  {
    var k := Until(s, '\n');
    r, rest := Line(s[..k]), s[k..];
    Associate("//", s[..k], s[k..]);
    assert s == s[..k] + s[k..];
  }

  lemma BraceAhead(s: string) returns (r: Region, rest: string)
    ensures "{" + s == Text(r) + rest && Text(r) != "" && Fits(r, rest)
  {
    var k := Until(s, '}');
    if k < |s| {
      r, rest := Brace(s[..k], true), s[k + 1..];
      assert s == s[..k] + "}" + rest;
    } else {
      r, rest := Brace(s, false), "";
    }
  }

  lemma ParenAhead(s: string) returns (r: Region, rest: string)
    ensures "(*" + s == Text(r) + rest && Text(r) != "" && Fits(r, rest)
  {
    var k := UntilClosing(s);
    if k < |s| {
      r, rest := Paren(s[..k], true), s[k + 2..];
      assert s == s[..k] + "*)" + rest by {
        assert s[k..][0] == '*' && s[k..][1] == ')';
      }
      Associate("(*", s[..k], "*)");
      Associate("(*", s[..k] + "*)", rest);
    } else {
      r, rest := Paren(s, false), "";
    }
  }

  lemma QuoteAhead(s: string) returns (r: Region, rest: string)
    ensures "'" + s == Text(r) + rest && Text(r) != "" && Fits(r, rest)
  {
    var k := UntilQuote(s);
    if k < |s| {
      r, rest := Quoted(s[..k], true), s[k + 1..];
      assert s == s[..k] + "'" + rest;
    } else {
      assert s[..k] == s;
      r, rest := Quoted(s, false), "";
    }
  }

  /** The first region of a source. */
  lemma FirstRegion(s: string) returns (r: Region, rest: string)
    requires s != ""
    ensures s == Text(r) + rest && Text(r) != "" && Fits(r, rest)
  {
    if Opens(s, '/', '/') {
      r, rest := LineAhead(s[2..]);
      assert s == "//" + s[2..];
    } else if Opens(s, '(', '*') {
      r, rest := ParenAhead(s[2..]);
      assert s == "(*" + s[2..];
    } else if s[0] == '{' {
      r, rest := BraceAhead(s[1..]);
      assert s == "{" + s[1..];
    } else if s[0] == '\'' {
      r, rest := QuoteAhead(s[1..]);
      assert s == "'" + s[1..];
    } else {
      r, rest := Plain(s[0]), s[1..];
    }
  }

  /** Every source is a row of regions, so `RegionsMasked` says what masking does to it. */
  lemma {:induction false} RegionsOf(s: string) returns (rs: seq<Region>)
    ensures Regions(rs) && Source(rs) == s && Masked(Code, s) == Visible(rs)
    decreases |s|
  {
    if s == "" {
      rs := [];
    } else {
      var r, rest := FirstRegion(s);
      var more := RegionsOf(rest);
      rs := [r] + more;
      assert rs[1..] == more;
      RegionsMasked(rs);
    }
  }
}

/** `digest_paths` of qualification/release/inputs.py: the identity of paths and contents. Byte strings are
    strings here, and names have no NUL. */
module Digests {
  import opened Basics
  import opened Decimals

  /** A file below a path: its name (its parts joined by `/`) and its bytes; `profile` marks the build
      profile. */
  datatype File = File(parts: seq<string>, bytes: string, profile: bool)

  /** A path: not there, a file, or a directory with its files in sorted order. */
  datatype Tree = Absent | Single(file: File) | Directory(files: seq<File>)

  datatype Result = Ok(digest: string) | NotFound | Empty

  /** SHA-256 has results of 32 bytes. */
  ghost predicate FixedLength(hash: string -> string) {
    forall x :: |hash(x)| == 32
  }

  /** No two of the given strings share a digest. */
  ghost predicate NoCollision(hash: string -> string, strings: set<string>) {
    forall x, y :: x in strings && y in strings && hash(x) == hash(y) ==> x == y
  }

  // ----- Contents -----

  const BUILT := "built_utc="

  /** The length of the first line with its end. */
  function LineLength(s: string): (n: nat)
    ensures n <= |s| && (s != "" ==> n > 0)
  {
    if s == "" then 0 else if s[0] == '\n' then 1 else 1 + LineLength(s[1..])
  }

  /** What is fed of the build profile: the lines that do not start with `built_utc=`. */
  function Kept(s: string): string
    decreases |s|
  {
    if s == "" then ""
    else
      var n := LineLength(s);
      (if BUILT <= s[..n] then "" else s[..n]) + Kept(s[n..])
  }

  function Content(f: File): string {
    if f.profile then Kept(f.bytes) else f.bytes
  }

  function Join(parts: seq<string>): string {
    if parts == [] then "" else if |parts| == 1 then parts[0] else parts[0] + "/" + Join(parts[1..])
  }

  predicate EndsWith(s: string, t: string) {
    |s| >= |t| && s[|s| - |t|..] == t
  }

  /** The suffix is `.pyc`; a name that is nothing else has no suffix. */
  predicate Compiled(name: string) {
    |name| > 4 && EndsWith(name, ".pyc")
  }

  /** Files that count: not below `__pycache__` or `.git`, and no `.pyc`. */
  predicate Counts(f: File) {
    "__pycache__" !in f.parts && ".git" !in f.parts && f.parts != [] && !Compiled(f.parts[|f.parts| - 1])
  }

  function Counted(files: seq<File>): seq<File> {
    if files == [] then [] else (if Counts(files[0]) then [files[0]] else []) + Counted(files[1..])
  }

  function FilesOf(t: Tree): seq<File>
    requires !t.Absent?
  {
    if t.Single? then [t.file] else Counted(t.files)
  }

  // ----- The stream -----

  /** One file as it is fed: the number of its path, its name and the digest of its content. */
  datatype Frame = Frame(index: nat, name: string, content: string)

  function Header(f: Frame): string {
    Decimal(f.index) + ":" + f.name + "\0"
  }

  function Stream(hash: string -> string, frames: seq<Frame>): string {
    if frames == [] then ""
    else Stream(hash, frames[..|frames| - 1]) + (Header(frames[|frames| - 1]) + hash(frames[|frames| - 1].content))
  }

  function FramesOf(index: nat, files: seq<File>): (r: seq<Frame>)
    ensures |r| == |files|
  {
    seq(|files|, i requires 0 <= i < |files| => Frame(index, Join(files[i].parts), Content(files[i])))
  }

  predicate Readable(paths: seq<Tree>) {
    forall i :: 0 <= i < |paths| ==> !paths[i].Absent? && FilesOf(paths[i]) != []
  }

  function Lists(paths: seq<Tree>): (r: seq<seq<File>>)
    requires Readable(paths)
    ensures |r| == |paths|
  {
    seq(|paths|, i requires 0 <= i < |paths| => FilesOf(paths[i]))
  }

  function FramesAll(lists: seq<seq<File>>): seq<Frame> {
    if lists == [] then []
    else FramesAll(lists[..|lists| - 1]) + FramesOf(|lists| - 1, lists[|lists| - 1])
  }

  function Frames(paths: seq<Tree>): seq<Frame>
    requires Readable(paths)
  {
    FramesAll(Lists(paths))
  }

  /** The digest of a readable list of paths. */
  function Digest(hash: string -> string, paths: seq<Tree>): string
    requires Readable(paths)
  {
    hash(Stream(hash, Frames(paths)))
  }

  /** What one file adds. */
  method FeedFile(hash: string -> string, index: nat, file: File) returns (fed: string)
    ensures fed == Header(Frame(index, Join(file.parts), Content(file))) + hash(Content(file))
  {
    var content := if file.profile then Kept(file.bytes) else file.bytes;
    fed := Decimal(index) + ":" + Join(file.parts) + "\0" + hash(content);
  }

  /** The files of one path. */
  method Feed(hash: string -> string, index: nat, files: seq<File>, start: string) returns (fed: string)
    ensures fed == start + Stream(hash, FramesOf(index, files))
  {
    fed := start;
    ghost var frames := FramesOf(index, files);
    for j := 0 to |files|
      invariant fed == start + Stream(hash, frames[..j])
    {
      StreamSnoc(hash, frames[..j], frames[j]);
      assert frames[..j + 1] == frames[..j] + [frames[j]];
      var more := FeedFile(hash, index, files[j]);
      Associate(start, Stream(hash, frames[..j]), more);
      fed := fed + more;
    }
    assert frames[..|files|] == frames;
  }

  datatype Fact = AllRead | AllFed

  ghost predicate Known(f: Fact, hash: string -> string, paths: seq<Tree>, fed: string) {
    match f
    case AllRead => Readable(paths)
    case AllFed => Readable(paths) ==> fed == Stream(hash, Frames(paths))
  }

  /** The paths are readable and their stream has been fed. */
  ghost predicate Fed(hash: string -> string, paths: seq<Tree>, fed: string) {
    forall f: Fact :: Known(f, hash, paths, fed)
  }

  lemma NothingFed(hash: string -> string)
    ensures Fed(hash, [], "")
  {
  }

  lemma FedIs(hash: string -> string, paths: seq<Tree>, fed: string)
    requires Fed(hash, paths, fed)
    ensures Readable(paths) && fed == Stream(hash, Frames(paths))
  {
    assert Known(AllRead, hash, paths, fed) && Known(AllFed, hash, paths, fed);
  }

  lemma FedMore(hash: string -> string, paths: seq<Tree>, fed: string, path: Tree, more: string)
    requires Fed(hash, paths, fed) && !path.Absent? && FilesOf(path) != []
    requires more == Stream(hash, FramesOf(|paths|, FilesOf(path)))
    ensures Fed(hash, paths + [path], fed + more)
  {
    FedIs(hash, paths, fed);
    FramesSnoc(paths, path);
    StreamJoin(hash, Frames(paths), FramesOf(|paths|, FilesOf(path)));
  }

  /** The first path that is missing or empty is `paths[i]`. */
  ghost predicate FailsAt(paths: seq<Tree>, i: nat) {
    i < |paths| && Readable(paths[..i]) && (paths[i].Absent? || FilesOf(paths[i]) == [])
  }

  /** `digest_paths`. */
  method DigestPaths(hash: string -> string, paths: seq<Tree>) returns (r: Result)
    ensures r.Ok? <==> Readable(paths)
    ensures r.Ok? ==> r.digest == Digest(hash, paths)
    ensures !r.Ok? ==> exists i: nat :: FailsAt(paths, i) && r == (if paths[i].Absent? then NotFound else Empty)
  {
    var fed := "";
    NothingFed(hash);
    for index := 0 to |paths|
      invariant Fed(hash, paths[..index], fed)
    {
      var path := paths[index];
      if path.Absent? {
        Failing(hash, paths, index, fed);
        return NotFound;
      }
      var files := FilesOf(path);
      if files == [] {
        Failing(hash, paths, index, fed);
        return Empty;
      }
      assert paths[..index + 1] == paths[..index] + [path];
      FedMore(hash, paths[..index], fed, path, Stream(hash, FramesOf(index, files)));
      fed := Feed(hash, index, files, fed);
    }
    assert paths[..|paths|] == paths;
    FedIs(hash, paths, fed);
    return Ok(hash(fed));
  }

  lemma Failing(hash: string -> string, paths: seq<Tree>, i: nat, fed: string)
    requires i < |paths| && Fed(hash, paths[..i], fed) && (paths[i].Absent? || FilesOf(paths[i]) == [])
    ensures FailsAt(paths, i) && !Readable(paths)
  {
    FedIs(hash, paths[..i], fed);
  }

  lemma {:induction false} StreamJoin(hash: string -> string, a: seq<Frame>, b: seq<Frame>)
    ensures Stream(hash, a + b) == Stream(hash, a) + Stream(hash, b)
  {
    if b == [] {
      assert a + b == a;
    } else {
      var init, last := b[..|b| - 1], b[|b| - 1];
      assert a + b == (a + init) + [last];
      StreamSnoc(hash, a + init, last);
      StreamJoin(hash, a, init);
      Associate(Stream(hash, a), Stream(hash, init), Header(last) + hash(last.content));
    }
  }

  lemma StreamSnoc(hash: string -> string, frames: seq<Frame>, f: Frame)
    ensures Stream(hash, frames + [f]) == Stream(hash, frames) + (Header(f) + hash(f.content))
  {
    assert (frames + [f])[..|frames|] == frames;
  }

  lemma FramesSnoc(paths: seq<Tree>, path: Tree)
    requires Readable(paths) && !path.Absent? && FilesOf(path) != []
    ensures Readable(paths + [path]) && Frames(paths + [path]) == Frames(paths) + FramesOf(|paths|, FilesOf(path))
  {
    ReadableSnoc(paths, path);
    assert Lists(paths + [path]) == Lists(paths) + [FilesOf(path)];
    FramesLast(Lists(paths), FilesOf(path));
  }

  lemma ReadableSnoc(paths: seq<Tree>, path: Tree)
    requires Readable(paths) && !path.Absent? && FilesOf(path) != []
    ensures Readable(paths + [path])
  {
  }

  lemma FramesLast(lists: seq<seq<File>>, files: seq<File>)
    ensures FramesAll(lists + [files]) == FramesAll(lists) + FramesOf(|lists|, files)
  {
    assert (lists + [files])[..|lists|] == lists;
  }

  // ----- The stream tells its frames -----

  function FirstIndex(s: string, c: char): (k: nat)
    ensures k <= |s|
  {
    if s == "" || s[0] == c then 0 else 1 + FirstIndex(s[1..], c)
  }

  lemma {:induction false} IndexBehind(s: string, c: char, x: string)
    requires c !in s
    ensures FirstIndex(s + [c] + x, c) == |s|
  {
    if s != "" {
      assert (s + [c] + x)[1..] == s[1..] + [c] + x;
      IndexBehind(s[1..], c, x);
    }
  }

  /** Text before a separator that does not occur in it is determined. */
  lemma SplitAt(s: string, t: string, c: char, x: string, y: string)
    requires s + [c] + x == t + [c] + y && c !in s && c !in t
    ensures s == t && x == y
  {
    IndexBehind(s, c, x);
    IndexBehind(t, c, y);
    var a, b := s + [c] + x, t + [c] + y;
    assert s == a[..|s|] && t == b[..|t|];
    assert x == a[|s| + 1..] && y == b[|t| + 1..];
  }

  predicate Named(frames: seq<Frame>) {
    forall i :: 0 <= i < |frames| ==> '\0' !in frames[i].name
  }

  function StreamFront(hash: string -> string, frames: seq<Frame>): string {
    if frames == [] then "" else Header(frames[0]) + hash(frames[0].content) + StreamFront(hash, frames[1..])
  }

  lemma {:induction false} FrontIsStream(hash: string -> string, frames: seq<Frame>)
    ensures StreamFront(hash, frames) == Stream(hash, frames)
  {
    if frames != [] {
      var init, last := frames[..|frames| - 1], frames[|frames| - 1];
      assert frames == init + [last];
      FrontIsStream(hash, init);
      FrontSnoc(hash, init, last);
    }
  }

  lemma {:induction false} FrontSnoc(hash: string -> string, frames: seq<Frame>, f: Frame)
    ensures StreamFront(hash, frames + [f]) == StreamFront(hash, frames) + (Header(f) + hash(f.content))
  {
    if frames == [] {
      assert [f][1..] == [];
      assert frames + [f] == [f];
    } else {
      assert (frames + [f])[1..] == frames[1..] + [f];
      FrontSnoc(hash, frames[1..], f);
    }
  }

  /** The front of a stream tells its first frame. */
  lemma HeadDecodes(f: Frame, g: Frame, h: string, k: string, x: string, y: string)
    requires Header(f) + h + x == Header(g) + k + y && |h| == |k| == 32 && '\0' !in f.name && '\0' !in g.name
    ensures f.index == g.index && f.name == g.name && h == k && x == y
  {
    var p, q := Decimal(f.index) + ":" + f.name, Decimal(g.index) + ":" + g.name;
    assert Header(f) + h + x == p + ['\0'] + (h + x) && Header(g) + k + y == q + ['\0'] + (k + y);
    SplitAt(p, q, '\0', h + x, k + y);
    assert h == (h + x)[..32] && k == (k + y)[..32] && x == (h + x)[32..] && y == (k + y)[32..];
    SplitAt(Decimal(f.index), Decimal(g.index), ':', f.name, g.name);
    DecimalInjective(f.index, g.index);
  }

  function Contents(frames: seq<Frame>): set<string> {
    set f | f in frames :: f.content
  }

  /** The framing of paths, names and contents is unambiguous, unless two of the contents collide. */
  lemma {:induction false} StreamDecodes(hash: string -> string, a: seq<Frame>, b: seq<Frame>)
    requires FixedLength(hash) && Named(a) && Named(b) && NoCollision(hash, Contents(a) + Contents(b))
    requires StreamFront(hash, a) == StreamFront(hash, b)
    ensures a == b
  {
    if a == [] || b == [] {
      assert a != [] ==> |StreamFront(hash, a)| > 0;
      assert b != [] ==> |StreamFront(hash, b)| > 0;
    } else {
      HeadDecodes(a[0], b[0], hash(a[0].content), hash(b[0].content),
                  StreamFront(hash, a[1..]), StreamFront(hash, b[1..]));
      assert a[0].content in Contents(a) && b[0].content in Contents(b);
      assert Contents(a[1..]) <= Contents(a) && Contents(b[1..]) <= Contents(b);
      StreamDecodes(hash, a[1..], b[1..]);
      assert a == [a[0]] + a[1..] && b == [b[0]] + b[1..];
    }
  }

  /** What is hashed for a list of paths: the contents of its files and the stream. */
  function Hashed(hash: string -> string, paths: seq<Tree>): set<string>
    requires Readable(paths)
  {
    Contents(Frames(paths)) + {Stream(hash, Frames(paths))}
  }

  /** Unless two of the strings hashed collide: two lists of paths have equal digests if and only if they
      have the same files, path by path, that is, the same names in the same order with the same contents,
      lines `built_utc=` of the build profile aside. */
  lemma DigestDecides(hash: string -> string, p: seq<Tree>, q: seq<Tree>)
    requires FixedLength(hash) && Readable(p) && Readable(q) && Named(Frames(p)) && Named(Frames(q))
    requires NoCollision(hash, Hashed(hash, p) + Hashed(hash, q))
    ensures Digest(hash, p) == Digest(hash, q) <==> Frames(p) == Frames(q)
  {
    FrontIsStream(hash, Frames(p));
    FrontIsStream(hash, Frames(q));
    if Digest(hash, p) == Digest(hash, q) {
      assert Stream(hash, Frames(p)) in Hashed(hash, p) && Stream(hash, Frames(q)) in Hashed(hash, q);
      StreamDecodes(hash, Frames(p), Frames(q));
    }
  }

  // ----- The build profile -----

  /** A whole line. */
  predicate IsLine(s: string) {
    s != "" && s[|s| - 1] == '\n' && '\n' !in s[..|s| - 1]
  }

  /** A line of a text with `rest` behind it: a whole one, or the last one without a newline. */
  predicate IsLineBefore(s: string, rest: string) {
    IsLine(s) || ('\n' !in s && rest == "")
  }

  lemma {:induction false} LineFirst(line: string, rest: string)
    requires IsLineBefore(line, rest)
    ensures LineLength(line + rest) == |line|
  {
    if line != "" && line[0] != '\n' {
      if IsLine(line) {
        assert IsLine(line[1..]) by { assert line[1..][..|line| - 2] == line[1..|line| - 1]; }
      }
      assert (line + rest)[1..] == line[1..] + rest;
      LineFirst(line[1..], rest);
    }
  }

  function Lines(lines: seq<string>): string {
    if lines == [] then "" else lines[0] + Lines(lines[1..])
  }

  /** What a line adds. */
  function Part(line: string): string {
    if BUILT <= line then "" else line
  }

  lemma KeptLine(line: string, rest: string)
    requires IsLineBefore(line, rest)
    ensures Kept(line + rest) == Part(line) + Kept(rest)
  {
    LineFirst(line, rest);
    assert (line + rest)[..|line|] == line && (line + rest)[|line|..] == rest;
  }

  /** `kept` takes a text line by line. */
  ghost predicate ByLines(kept: string -> string) {
    kept("") == "" && forall line, rest :: TakesLine(kept, line, rest)
  }

  ghost predicate TakesLine(kept: string -> string, line: string, rest: string) {
    IsLineBefore(line, rest) ==> kept(line + rest) == Part(line) + kept(rest)
  }

  lemma KeptByLines()
    ensures ByLines(Kept)
  {
    forall line, rest
      ensures TakesLine(Kept, line, rest)
    {
      if IsLineBefore(line, rest) {
        KeptLine(line, rest);
      }
    }
  }

  lemma {:induction false} KeptBehind(kept: string -> string, before: seq<string>, s: string)
    requires ByLines(kept) && forall i :: 0 <= i < |before| ==> IsLine(before[i])
    ensures kept(Lines(before) + s) == kept(Lines(before)) + kept(s)
  {
    if before == [] {
      assert "" + s == s;
    } else {
      var first, rest := before[0], Lines(before[1..]);
      KeptBehind(kept, before[1..], s);
      Associate(first, rest, s);
      assert TakesLine(kept, first, rest + s) && TakesLine(kept, first, rest);
      Associate(Part(first), kept(rest), kept(s));
    }
  }

  lemma PartAdds(line: string, x: string, y: string)
    ensures BUILT <= line ==> x + (Part(line) + y) == x + y
    ensures !(BUILT <= line) ==> x + (Part(line) + y) == x + (line + y)
  {
  }

  lemma LineBehind(kept: string -> string, before: seq<string>, line: string, after: string)
    requires ByLines(kept) && (forall i :: 0 <= i < |before| ==> IsLine(before[i])) && IsLineBefore(line, after)
    ensures kept(Lines(before) + (line + after)) == kept(Lines(before)) + (Part(line) + kept(after))
    ensures kept(Lines(before) + after) == kept(Lines(before)) + kept(after)
  {
    KeptBehind(kept, before, line + after);
    KeptBehind(kept, before, after);
    assert TakesLine(kept, line, after);
  }

  /** Behind any whole lines, a line that starts with `built_utc=` changes nothing, and any other line is
      kept as it is, also a last one without a newline: exactly the rebuild times are ignored. `Kept` is such
      a `kept`. */
  lemma OnlyBuiltIgnored(kept: string -> string, before: seq<string>, line: string, after: string)
    requires ByLines(kept) && (forall i :: 0 <= i < |before| ==> IsLine(before[i])) && IsLineBefore(line, after)
    ensures BUILT <= line ==> kept(Lines(before) + (line + after)) == kept(Lines(before) + after)
    ensures !(BUILT <= line) ==> kept(Lines(before) + (line + after)) == kept(Lines(before)) + (line + kept(after))
  {
    LineBehind(kept, before, line, after);
    PartAdds(line, kept(Lines(before)), kept(after));
  }

  /** Every text is a row of whole lines and a last line without a newline. */
  lemma {:induction false} LinesOf(s: string) returns (lines: seq<string>, last: string)
    ensures s == Lines(lines) + last && (forall i :: 0 <= i < |lines| ==> IsLine(lines[i])) && '\n' !in last
    decreases |s|
  {
    if '\n' !in s {
      lines, last := [], s;
    } else {
      var n := NewlineAt(s);
      var rest, end := LinesOf(s[n + 1..]);
      lines, last := [s[..n + 1]] + rest, end;
      assert s == s[..n + 1] + s[n + 1..];
      assert s[..n + 1][..n] == s[..n];
      Associate(s[..n + 1], Lines(rest), end);
    }
  }

  function NewlineAt(s: string): (n: nat)
    requires '\n' in s
    ensures n < |s| && s[n] == '\n' && '\n' !in s[..n]
  {
    if s[0] == '\n' then 0
    else
      assert s == [s[0]] + s[1..];
      var n := NewlineAt(s[1..]) + 1;
      assert s[..n] == [s[0]] + s[1..][..n - 1];
      n
  }

  function Parts(lines: seq<string>): string {
    if lines == [] then "" else Part(lines[0]) + Parts(lines[1..])
  }

  /** So this is what is fed of every text: its lines, without those that start with `built_utc=`. */
  lemma {:induction false} KeptIs(kept: string -> string, lines: seq<string>, last: string)
    requires ByLines(kept) && (forall i :: 0 <= i < |lines| ==> IsLine(lines[i])) && '\n' !in last
    ensures kept(Lines(lines) + last) == Parts(lines) + Part(last)
  {
    if lines == [] {
      assert TakesLine(kept, last, "");
      assert Lines(lines) + last == last && last + "" == last;
    } else {
      KeptIs(kept, lines[1..], last);
      Associate(lines[0], Lines(lines[1..]), last);
      assert TakesLine(kept, lines[0], Lines(lines[1..]) + last);
      Associate(Part(lines[0]), Parts(lines[1..]), Part(last));
    }
  }

  // ----- Which files count, and their names -----

  /** A file counts unless one of its parts is `__pycache__` or `.git`, or its name is some stem with `.pyc`. */
  lemma CountsIff(f: File)
    requires f.parts != []
    ensures Counts(f) <==>
      && (forall k :: 0 <= k < |f.parts| ==> f.parts[k] != "__pycache__" && f.parts[k] != ".git")
      && forall stem :: |stem| > 0 ==> f.parts[|f.parts| - 1] != stem + ".pyc"
  {
    var name := f.parts[|f.parts| - 1];
    assert forall k :: 0 <= k < |f.parts| ==> f.parts[k] in f.parts;
    if Compiled(name) {
      assert name == name[..|name| - 4] + ".pyc" && |name[..|name| - 4]| > 0;
    }
    forall stem: string | |stem| > 0 && name == stem + ".pyc"
      ensures Compiled(name)
    {
      assert name[|name| - 4..] == ".pyc";
    }
  }

  /** Of a directory exactly these files are fed, in their order. */
  lemma {:induction false} CountedSplit(a: seq<File>, f: File, b: seq<File>)
    ensures Counted(a + [f] + b) == Counted(a) + (if Counts(f) then [f] else []) + Counted(b)
  {
    if a == [] {
      assert a + [f] + b == [f] + b;
      assert ([f] + b)[1..] == b;
    } else {
      var all, head := a + [f] + b, if Counts(a[0]) then [a[0]] else [];
      assert all[1..] == a[1..] + [f] + b && all[0] == a[0];
      CountedSplit(a[1..], f, b);
      assert Counted(all) == head + Counted(all[1..]) && Counted(a) == head + Counted(a[1..]);
      Associate(head, Counted(a[1..]) + (if Counts(f) then [f] else []), Counted(b));
      Associate(head, Counted(a[1..]), if Counts(f) then [f] else []);
    }
  }

  /** Names are joined by slashes. */
  lemma {:induction false} JoinSnoc(parts: seq<string>, p: string)
    ensures Join([p]) == p && (parts != [] ==> Join(parts + [p]) == Join(parts) + "/" + p)
  {
    if |parts| > 1 {
      JoinSnoc(parts[1..], p);
      assert (parts + [p])[1..] == parts[1..] + [p];
    }
  }

  predicate Plain(parts: seq<string>) {
    parts != [] && forall k :: 0 <= k < |parts| ==> '/' !in parts[k]
  }

  lemma SlashJoin(parts: seq<string>)
    requires |parts| > 1
    ensures Join(parts) == parts[0] + ['/'] + Join(parts[1..]) && '/' in Join(parts)
  {
    assert "/" == ['/'];
    assert Join(parts)[|parts[0]|] == '/';
  }

  /** Names tell the parts: two files of a directory have one name only if they are the same file. */
  lemma {:induction false} JoinInjective(a: seq<string>, b: seq<string>)
    requires Plain(a) && Plain(b) && Join(a) == Join(b)
    ensures a == b
  {
    if |a| > 1 && |b| > 1 {
      SlashJoin(a);
      SlashJoin(b);
      SplitAt(a[0], b[0], '/', Join(a[1..]), Join(b[1..]));
      JoinInjective(a[1..], b[1..]);
      assert a == [a[0]] + a[1..] && b == [b[0]] + b[1..];
    } else if |a| > 1 {
      SlashJoin(a);
    } else if |b| > 1 {
      SlashJoin(b);
    }
  }
}

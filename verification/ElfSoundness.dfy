/** What an accepted pair of images means (qualification/build-driver/elf_link_bindings.py, lines 59-100), told of
    their bytes alone: which four-byte fields differ, which signed numbers they hold, and what those lead to. */
module ElfSoundness {
  import opened Basics
  import opened ElfBindings

  // ----- Signed numbers in four bytes -----

  predicate Signed32(v: int) {
    -0x8000_0000 <= v < 0x8000_0000
  }

  /** The little-endian two's complement of `v`. */
  function Encode32(v: int): (b: seq<Byte>)
    requires Signed32(v)
    ensures |b| == 4
  {
    [v % 256, v / 256 % 256, v / 0x1_0000 % 256, v / 0x100_0000 % 256]
  }

  /** The field at `at` holds `v`. */
  ghost predicate Holds32(b: seq<Byte>, at: nat, v: int) {
    Signed32(v) && at + 4 <= |b| && b[at..at + 4] == Encode32(v)
  }

  ghost function Digits(a: int, b: int, c: int, d: int): int {
    a + 256 * b + 0x1_0000 * c + 0x100_0000 * d
  }

  lemma UnsignedSplit(b: seq<Byte>)
    requires b != []
    ensures Unsigned(b) == (b[0] as int) + 256 * Unsigned(b[1..])
  {
  }

  lemma Unsigned4(b: seq<Byte>)
    requires |b| == 4
    ensures Unsigned(b) == Digits(b[0], b[1], b[2], b[3])
  {
    assert b[1..][1..] == b[2..] && b[2..][1..] == b[3..] && b[3..][1..] == [];
    UnsignedSplit(b);
    UnsignedSplit(b[1..]);
    UnsignedSplit(b[2..]);
    UnsignedSplit(b[3..]);
  }

  /** Digits to base 256 add up. */
  lemma FourDigits(v: int)
    requires Signed32(v)
    ensures Digits(v % 256, v / 256 % 256, v / 0x1_0000 % 256, v / 0x100_0000 % 256)
         == if v < 0 then v + 0x1_0000_0000 else v
  {
    var q1, q2, q3 := v / 256, v / 0x1_0000, v / 0x100_0000;
    assert q1 / 256 == q2 && q2 / 256 == q3;
    assert v == 256 * q1 + v % 256 && q1 == 256 * q2 + q1 % 256 && q2 == 256 * q3 + q2 % 256;
    assert -128 <= q3 < 128;
    assert q3 % 256 == if v < 0 then q3 + 256 else q3;
  }

  /** The four bytes of every signed number decode to it. */
  lemma Decodes(b: seq<Byte>, at: nat, v: int)
    requires Holds32(b, at, v)
    ensures I32(b, at) == v
  {
    Unsigned4(b[at..at + 4]);
    FourDigits(v);
  }

  /** And every four bytes are those of the number they decode to. */
  lemma Encodes(b: seq<Byte>, at: nat)
    requires at + 4 <= |b|
    ensures Holds32(b, at, I32(b, at))
  {
    var f, v := b[at..at + 4], I32(b, at);
    Unsigned4(f);
    FourDigits(v);
    Unsigned4(Encode32(v));
    SameUnsigned(f, Encode32(v));
  }

  lemma {:induction false} UnsignedBelow(b: seq<Byte>)
    ensures 0 <= Unsigned(b)
  {
    if b != [] {
      UnsignedBelow(b[1..]);
    }
  }

  /** As many bytes with the same value are the same bytes. */
  lemma {:induction false} SameUnsigned(a: seq<Byte>, b: seq<Byte>)
    requires |a| == |b|
    ensures Unsigned(a) == Unsigned(b) <==> a == b
  {
    if a != [] {
      UnsignedSplit(a);
      UnsignedSplit(b);
      SameUnsigned(a[1..], b[1..]);
      assert a == [a[0]] + a[1..] && b == [b[0]] + b[1..];
      if Unsigned(a) == Unsigned(b) {
        FirstDigit(a[0], Unsigned(a[1..]), b[0], Unsigned(b[1..]));
      }
    }
  }

  lemma FirstDigit(x: Byte, m: int, y: Byte, n: int)
    requires (x as int) + 256 * m == (y as int) + 256 * n
    ensures x == y && m == n
  {
  }

  // ----- What both images reach -----

  /** The displacements at `d` lead from `from` to PLT entries of the same name. */
  ghost predicate SamePlt(left: Image, right: Image, from: int, code: seq<Byte>, replacement: seq<Byte>, d: nat) {
    exists v, w :: Holds32(code, d, v) && Holds32(replacement, d, w) && PltNames(left, right, from + v, from + w)
  }

  predicate PltNames(left: Image, right: Image, a: int, b: int) {
    a in left.plt && b in right.plt && left.plt[a] == right.plt[b]
  }

  /** An aligned entry that lies in the GOT. */
  predicate GotEntry(got: Section, a: int) {
    got.base <= a && a + 8 <= got.base + |got.data| && a % 8 == 0
  }

  /** The displacements at `d` lead from `from` to GOT entries that are bound alike. */
  ghost predicate SameGot(left: Image, right: Image, from: int, code: seq<Byte>, replacement: seq<Byte>, d: nat) {
    exists v, w :: Holds32(code, d, v) && Holds32(replacement, d, w) && GotEntries(left, right, from + v, from + w)
  }

  /** Both entries have the same relocation, or neither has one and both store the same eight bytes. */
  predicate GotEntries(left: Image, right: Image, a: int, b: int) {
    && GotEntry(left.got, a) && GotEntry(right.got, b)
    && (a in left.relocations <==> b in right.relocations)
    && (if a in left.relocations then left.relocations[a] == right.relocations[b]
        else left.got.data[a - left.got.base..][..8] == right.got.data[b - right.got.base..][..8])
  }

  /** A displacement behind a ModRM byte of mode 0 and r/m 5. */
  ghost predicate Reaches(left: Image, right: Image, from: int, code: seq<Byte>, replacement: seq<Byte>, d: nat) {
    && 1 <= d && d + 4 <= |code| && code[d - 1] in [0x05, 0x0d, 0x15, 0x1d, 0x25, 0x2d, 0x35, 0x3d]
    && SameGot(left, right, from, code, replacement, d)
  }

  /** The displacement at `d` is what the instruction that ends at `from` may differ in: that of a call or jump, or
      the only one behind a ModRM byte. */
  ghost predicate Alike(left: Image, right: Image, from: int, i: Instruction, replacement: seq<Byte>, d: nat) {
    if |i.code| == 5 && i.code[0] in [0xe8, 0xe9] then d == 1 && SamePlt(left, right, from, i.code, replacement, d)
    else
      && i.rip && Reaches(left, right, from, i.code, replacement, d)
      && forall e: nat :: Reaches(left, right, from, i.code, replacement, e) ==> e == d
  }

  lemma PltAt(left: Image, right: Image, address: int, code: seq<Byte>, replacement: seq<Byte>, d: nat, v: int, w: int)
    requires d + 4 <= |code| == |replacement| && I32(code, d) == v && I32(replacement, d) == w
    ensures PltBound(left, right, address, code, replacement, d)
       <==> PltNames(left, right, address + |code| + v, address + |code| + w)
  {
  }

  lemma PltIff(left: Image, right: Image, address: int, code: seq<Byte>, replacement: seq<Byte>, d: nat)
    requires d + 4 <= |code| == |replacement|
    ensures PltBound(left, right, address, code, replacement, d)
       <==> SamePlt(left, right, address + |code|, code, replacement, d)
  {
    Encodes(code, d);
    Encodes(replacement, d);
    PltAt(left, right, address, code, replacement, d, I32(code, d), I32(replacement, d));
    if v, w :| Holds32(code, d, v) && Holds32(replacement, d, w)
               && PltNames(left, right, address + |code| + v, address + |code| + w) {
      Decodes(code, d, v);
      Decodes(replacement, d, w);
      PltAt(left, right, address, code, replacement, d, v, w);
    }
  }

  lemma EntriesIff(left: Image, right: Image, a: int, b: int)
    ensures GotEntries(left, right, a, b)
       <==> GotBinding(left, a).Some? && GotBinding(left, a) == GotBinding(right, b)
  {
    if GotEntry(left.got, a) && GotEntry(right.got, b) {
      var x, y := left.got.data[a - left.got.base..], right.got.data[b - right.got.base..];
      assert x[..8] == left.got.data[a - left.got.base..a - left.got.base + 8];
      assert y[..8] == right.got.data[b - right.got.base..b - right.got.base + 8];
      SameUnsigned(x[..8], y[..8]);
    }
  }

  lemma GotAt(left: Image, right: Image, address: int, code: seq<Byte>, replacement: seq<Byte>, d: nat, v: int, w: int)
    requires d + 4 <= |code| == |replacement| && I32(code, d) == v && I32(replacement, d) == w
    ensures GotBound(left, right, address, code, replacement, d)
       <==> GotEntries(left, right, address + |code| + v, address + |code| + w)
  {
    EntriesIff(left, right, address + |code| + v, address + |code| + w);
  }

  lemma GotIff(left: Image, right: Image, address: int, code: seq<Byte>, replacement: seq<Byte>, d: nat)
    requires d + 4 <= |code| == |replacement|
    ensures GotBound(left, right, address, code, replacement, d)
       <==> SameGot(left, right, address + |code|, code, replacement, d)
  {
    Encodes(code, d);
    Encodes(replacement, d);
    GotAt(left, right, address, code, replacement, d, I32(code, d), I32(replacement, d));
    if v, w :| Holds32(code, d, v) && Holds32(replacement, d, w)
               && GotEntries(left, right, address + |code| + v, address + |code| + w) {
      Decodes(code, d, v);
      Decodes(replacement, d, w);
      GotAt(left, right, address, code, replacement, d, v, w);
    }
  }

  lemma ReachesIff(left: Image, right: Image, address: int, code: seq<Byte>, replacement: seq<Byte>, d: nat)
    requires |code| == |replacement|
    ensures Candidate(left, right, address, code, replacement, d)
       <==> Reaches(left, right, address + |code|, code, replacement, d)
  {
    if 1 <= d && d + 4 <= |code| {
      GotIff(left, right, address, code, replacement, d);
      ModRm(code[d - 1]);
    }
  }

  lemma ModRm(b: Byte)
    ensures RipModRm(b) <==> b in [0x05, 0x0d, 0x15, 0x1d, 0x25, 0x2d, 0x35, 0x3d]
  {
  }

  lemma OnlyIff(left: Image, right: Image, address: int, from: int, code: seq<Byte>, replacement: seq<Byte>, d: nat)
    requires |code| == |replacement| && from == address + |code|
    ensures (forall e :: 1 <= e <= |code| - 4 && Candidate(left, right, address, code, replacement, e) ==> e == d)
       <==> forall e: nat :: Reaches(left, right, from, code, replacement, e) ==> e == d
  {
    if e: nat :| Reaches(left, right, from, code, replacement, e) && e != d {
      ReachesIff(left, right, address, code, replacement, e);
      assert 1 <= e <= |code| - 4;
    } else if e :| 1 <= e <= |code| - 4 && Candidate(left, right, address, code, replacement, e) && e != d {
      ReachesIff(left, right, address, code, replacement, e);
    }
  }

  /** The displacement that the check accepts is the one of the raw bytes. */
  lemma AlikeIff(left: Image, right: Image, address: int, i: Instruction, replacement: seq<Byte>, d: nat)
    requires |i.code| == |replacement|
    ensures Bound(left, right, address, i, replacement, d)
       <==> Alike(left, right, address + |i.code|, i, replacement, d)
  {
    if IsBranch(i.code) {
      PltIff(left, right, address, i.code, replacement, 1);
    } else {
      ReachesIff(left, right, address, i.code, replacement, d);
      OnlyIff(left, right, address, address + |i.code|, i.code, replacement, d);
    }
  }

  // ----- Sections -----

  /** The bytes of `i` stand where it is listed. */
  predicate Stands(s: Section, i: Instruction) {
    i.code == [] || (i.offset + |i.code| <= |s.data| && s.data[i.offset..i.offset + |i.code|] == i.code)
  }

  /** The new section has other bytes there, all of them in a field that leads to the same thing in both images. */
  ghost predicate Rebound(left: Image, right: Image, new': Section, i: Instruction, d: nat)
    requires i.offset + |i.code| <= |new'.data|
  {
    var replacement := new'.data[i.offset..i.offset + |i.code|];
    && Alike(left, right, new'.base + i.offset + |i.code|, i, replacement, d)
    && forall j :: 0 <= j < |i.code| && i.code[j] != replacement[j] ==> d <= j < d + 4
  }

  /** What one listed instruction must be. */
  ghost predicate Sound(left: Image, right: Image, old': Section, new': Section, i: Instruction) {
    && Stands(old', i)
    && (Stands(new', i)
        || (i.offset + |i.code| <= |new'.data| && exists d: nat :: Rebound(left, right, new', i, d)))
  }

  /** What a section must be. */
  ghost predicate Rewritten(left: Image, right: Image, old': Section, new': Section, listing: seq<Instruction>) {
    && old'.base == new'.base && |old'.data| == |new'.data|
    && (forall i :: i in listing ==> Sound(left, right, old', new', i))
    && forall k :: 0 <= k < |old'.data| && old'.data[k] != new'.data[k] ==>
         exists i :: i in listing && i.offset <= k < i.offset + |i.code|
  }

  lemma StandsIff(s: Section, i: Instruction)
    ensures Stands(s, i) <==> Slice(s.data, i.offset, |i.code|) == i.code
    ensures |Slice(s.data, i.offset, |i.code|)| == |i.code| <==> i.code == [] || i.offset + |i.code| <= |s.data|
    ensures i.offset + |i.code| <= |s.data| ==>
      Slice(s.data, i.offset, |i.code|) == s.data[i.offset..i.offset + |i.code|]
  {
  }

  lemma SameOutside(a: seq<Byte>, b: seq<Byte>, d: nat)
    requires |a| == |b| && d + 4 <= |a|
    ensures EqualBut(a, b, d) <==> forall j :: 0 <= j < |a| && a[j] != b[j] ==> d <= j < d + 4
  {
    if EqualBut(a, b, d) {
      forall j | 0 <= j < d
        ensures a[j] == b[j]
      {
        assert a[..d][j] == b[..d][j];
      }
      forall j | d + 4 <= j < |a|
        ensures a[j] == b[j]
      {
        assert a[d + 4..][j - d - 4] == b[d + 4..][j - d - 4];
      }
    }
  }

  lemma AlikeFits(left: Image, right: Image, from: int, i: Instruction, replacement: seq<Byte>, d: nat)
    requires Alike(left, right, from, i, replacement, d)
    ensures d + 4 <= |i.code|
  {
  }

  lemma ReboundIff(left: Image, right: Image, new': Section, i: Instruction, d: nat)
    requires i.offset + |i.code| <= |new'.data|
    ensures var replacement := new'.data[i.offset..i.offset + |i.code|];
      Rebound(left, right, new', i, d) <==>
        Bound(left, right, new'.base + i.offset, i, replacement, d) && EqualBut(i.code, replacement, d)
  {
    var replacement := new'.data[i.offset..i.offset + |i.code|];
    AlikeIff(left, right, new'.base + i.offset, i, replacement, d);
    if Alike(left, right, new'.base + i.offset + |i.code|, i, replacement, d) {
      AlikeFits(left, right, new'.base + i.offset + |i.code|, i, replacement, d);
      SameOutside(i.code, replacement, d);
    }
  }

  lemma AdjustedIff(left: Image, right: Image, new': Section, i: Instruction)
    requires i.offset + |i.code| <= |new'.data|
    ensures Adjusted(left, right, new'.base, i, new'.data[i.offset..i.offset + |i.code|])
       <==> exists d: nat :: Rebound(left, right, new', i, d)
  {
    var address, replacement := new'.base + i.offset, new'.data[i.offset..i.offset + |i.code|];
    if Adjusted(left, right, new'.base, i, replacement) {
      var d: nat :| d <= |i.code| && Bound(left, right, address, i, replacement, d)
                    && EqualBut(i.code, replacement, d);
      ReboundIff(left, right, new', i, d);
    }
    if d: nat :| Rebound(left, right, new', i, d) {
      ReboundIff(left, right, new', i, d);
      assert Bound(left, right, address, i, replacement, d);
    }
  }

  lemma SoundIff(left: Image, right: Image, old': Section, new': Section, i: Instruction)
    requires old'.base == new'.base
    ensures Checked(left, right, old', new', i) <==> Sound(left, right, old', new', i)
  {
    StandsIff(old', i);
    StandsIff(new', i);
    if i.offset + |i.code| <= |new'.data| {
      AdjustedIff(left, right, new', i);
    }
  }

  /** A section is accepted exactly when its bytes are those of the full one but for such fields. */
  lemma LinkedIff(left: Image, right: Image, old': Section, new': Section, listing: seq<Instruction>)
    ensures Linked(left, right, old', new', listing) <==> Rewritten(left, right, old', new', listing)
  {
    if old'.base == new'.base {
      forall i
        ensures Checked(left, right, old', new', i) <==> Sound(left, right, old', new', i)
      {
        SoundIff(left, right, old', new', i);
      }
      forall k: nat | k < |old'.data| == |new'.data| && old'.data[k] != new'.data[k]
        ensures (exists i :: 0 <= i < |listing| && Covers(listing[i], k))
           <==> exists i :: i in listing && i.offset <= k < i.offset + |i.code|
      {
        CoveredIff(listing, k);
      }
    }
  }

  lemma CoveredIff(listing: seq<Instruction>, k: nat)
    ensures (exists i :: 0 <= i < |listing| && Covers(listing[i], k))
       <==> exists i :: i in listing && i.offset <= k < i.offset + |i.code|
  {
    if i :| i in listing && i.offset <= k < i.offset + |i.code| {
      var x :| 0 <= x < |listing| && listing[x] == i;
      assert Covers(listing[x], k);
    }
  }

  // ----- The bytes that differ -----

  /** The field at `d` of `i` holds `v` in the full image and `w` in the compact one, and both lead to PLT entries
      of the same name or to GOT entries bound alike. */
  ghost predicate Field(left: Image, right: Image, old': Section, new': Section, i: Instruction, d: nat, v: int, w: int)
  {
    var from := old'.base + i.offset + |i.code|;
    && d + 4 <= |i.code|
    && Holds32(old'.data, i.offset + d, v) && Holds32(new'.data, i.offset + d, w)
    && (PltNames(left, right, from + v, from + w) || GotEntries(left, right, from + v, from + w))
  }

  lemma SliceOfSlice(s: seq<Byte>, from: nat, n: nat, d: nat)
    requires from + n <= |s| && d + 4 <= n
    ensures s[from..from + n][d..d + 4] == s[from + d..from + d + 4]
  {
    var t := s[from..from + n];
    assert t[d] == s[from + d] && t[d + 1] == s[from + d + 1];
    assert t[d + 2] == s[from + d + 2] && t[d + 3] == s[from + d + 3];
  }

  lemma SubField(s: seq<Byte>, from: nat, n: nat, d: nat, v: int)
    requires from + n <= |s| && Holds32(s[from..from + n], d, v)
    ensures Holds32(s, from + d, v)
  {
    SliceOfSlice(s, from, n, d);
  }

  lemma MakesField(left: Image, right: Image, old': Section, new': Section, i: Instruction, d: nat, v: int, w: int)
    requires old'.base == new'.base && |old'.data| == |new'.data| && i.offset + |i.code| <= |old'.data|
    requires Holds32(old'.data[i.offset..i.offset + |i.code|], d, v)
    requires Holds32(new'.data[i.offset..i.offset + |i.code|], d, w) && d + 4 <= |i.code|
    requires PltNames(left, right, old'.base + i.offset + |i.code| + v, old'.base + i.offset + |i.code| + w)
          || GotEntries(left, right, old'.base + i.offset + |i.code| + v, old'.base + i.offset + |i.code| + w)
    ensures Field(left, right, old', new', i, d, v, w)
  {
    SubField(old'.data, i.offset, |i.code|, d, v);
    SubField(new'.data, i.offset, |i.code|, d, w);
  }

  /** What the displacements at `d` lead to, in numbers. */
  lemma AlikeReaches(left: Image, right: Image, from: int, i: Instruction, replacement: seq<Byte>, d: nat)
    returns (v: int, w: int)
    requires Alike(left, right, from, i, replacement, d)
    ensures d + 4 <= |i.code| && Holds32(i.code, d, v) && Holds32(replacement, d, w)
    ensures PltNames(left, right, from + v, from + w) || GotEntries(left, right, from + v, from + w)
  {
    if SamePlt(left, right, from, i.code, replacement, d) {
      v, w :| Holds32(i.code, d, v) && Holds32(replacement, d, w) && PltNames(left, right, from + v, from + w);
    } else {
      v, w :| Holds32(i.code, d, v) && Holds32(replacement, d, w) && GotEntries(left, right, from + v, from + w);
    }
  }

  lemma NotStanding(new': Section, old': Section, i: Instruction, k: nat)
    requires Stands(old', i) && i.offset <= k < i.offset + |i.code|
    requires k < |old'.data| == |new'.data| && old'.data[k] != new'.data[k]
    ensures !Stands(new', i) && i.offset + |i.code| <= |old'.data|
    ensures i.code[k - i.offset] != new'.data[i.offset..i.offset + |i.code|][k - i.offset]
    ensures i.code == old'.data[i.offset..i.offset + |i.code|]
  {
    assert old'.data[k] == old'.data[i.offset..i.offset + |i.code|][k - i.offset];
    assert new'.data[k] == new'.data[i.offset..i.offset + |i.code|][k - i.offset];
  }

  lemma ReboundField(left: Image, right: Image, new': Section, i: Instruction, d: nat, k: nat)
    requires i.offset + |i.code| <= |new'.data| && Rebound(left, right, new', i, d)
    requires k < |i.code| && i.code[k] != new'.data[i.offset..i.offset + |i.code|][k]
    ensures Alike(left, right, new'.base + i.offset + |i.code|, i, new'.data[i.offset..i.offset + |i.code|], d)
    ensures d <= k < d + 4
  {
  }

  /** A byte that differs lies in the displacement field of the instruction that covers it. */
  lemma InstructionField(left: Image, right: Image, old': Section, new': Section, i: Instruction, k: nat)
    returns (d: nat, v: int, w: int)
    requires old'.base == new'.base && Sound(left, right, old', new', i)
    requires i.offset <= k < i.offset + |i.code| && k < |old'.data| == |new'.data| && old'.data[k] != new'.data[k]
    ensures Field(left, right, old', new', i, d, v, w) && i.offset + d <= k < i.offset + d + 4
  {
    NotStanding(new', old', i, k);
    d :| Rebound(left, right, new', i, d);
    ReboundField(left, right, new', i, d, k - i.offset);
    v, w := AlikeReaches(left, right, new'.base + i.offset + |i.code|, i,
                         new'.data[i.offset..i.offset + |i.code|], d);
    MakesField(left, right, old', new', i, d, v, w);
  }

  /** An accepted section is the full one with only displacement fields overwritten, each of which leads to
      the same binding in its own image. */
  lemma OnlyBindingsDiffer(left: Image, right: Image, old': Section, new': Section, listing: seq<Instruction>)
    requires Linked(left, right, old', new', listing)
    ensures old'.base == new'.base && |old'.data| == |new'.data|
    ensures forall k :: 0 <= k < |old'.data| && old'.data[k] != new'.data[k] ==>
      exists i, d: nat, v, w :: i in listing && Field(left, right, old', new', i, d, v, w)
                                && i.offset + d <= k < i.offset + d + 4
  {
    LinkedIff(left, right, old', new', listing);
    forall k | 0 <= k < |old'.data| && old'.data[k] != new'.data[k]
      ensures exists i, d: nat, v, w :: i in listing && Field(left, right, old', new', i, d, v, w)
                                        && i.offset + d <= k < i.offset + d + 4
    {
      var i :| i in listing && i.offset <= k < i.offset + |i.code|;
      var d, v, w := InstructionField(left, right, old', new', i, k);
    }
  }

  /** The listed instructions in whose bytes the sections differ. */
  ghost predicate Differs(old': Section, new': Section, i: Instruction)
    requires |old'.data| == |new'.data|
  {
    exists k :: 0 <= k < |old'.data| && i.offset <= k < i.offset + |i.code| && old'.data[k] != new'.data[k]
  }

  lemma DiffersIff(old': Section, new': Section, i: Instruction)
    requires |old'.data| == |new'.data| && Stands(old', i)
    ensures Differs(old', new', i) <==> Slice(new'.data, i.offset, |i.code|) != i.code
  {
    StandsIff(new', i);
    if i.code != [] {
      var n := |i.code|;
      var a, b := old'.data[i.offset..i.offset + n], new'.data[i.offset..i.offset + n];
      if a == b {
        forall k | i.offset <= k < i.offset + n
          ensures old'.data[k] == new'.data[k]
        {
          assert a[k - i.offset] == b[k - i.offset];
        }
      } else {
        var j :| 0 <= j < n && a[j] != b[j];
        assert old'.data[i.offset + j] != new'.data[i.offset + j];
      }
    }
  }

  ghost function DifferingBelow(old': Section, new': Section, listing: seq<Instruction>): set<nat>
    requires |old'.data| == |new'.data|
  {
    set n: nat | n < |listing| && Differs(old', new', listing[n])
  }

  lemma DifferingSnoc(old': Section, new': Section, front: seq<Instruction>, i: Instruction)
    requires |old'.data| == |new'.data|
    ensures |DifferingBelow(old', new', front + [i])|
         == |DifferingBelow(old', new', front)| + (if Differs(old', new', i) then 1 else 0)
  {
    var s, listing := DifferingBelow(old', new', front), front + [i];
    assert forall m: nat :: m < |front| ==> front[m] == listing[m];
    assert DifferingBelow(old', new', listing) == if Differs(old', new', i) then s + {|front|} else s;
  }

  /** The number returned counts exactly the instructions in whose bytes the sections differ. */
  lemma {:induction false} CountsDiffering(old': Section, new': Section, listing: seq<Instruction>)
    requires |old'.data| == |new'.data| && forall i :: i in listing ==> Stands(old', i)
    ensures ChangedCount(new', listing) == |DifferingBelow(old', new', listing)|
  {
    if listing == [] {
      assert DifferingBelow(old', new', listing) == {};
    } else {
      var n := |listing| - 1;
      var front, last := listing[..n], listing[n];
      CountsDiffering(old', new', front);
      DiffersIff(old', new', last);
      DifferingSnoc(old', new', front, last);
      ChangedSnoc(new', front, last);
      assert front + [last] == listing;
    }
  }
}

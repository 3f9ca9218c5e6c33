/** `check` and `got_bindings` of qualification/build-driver/elf_link_bindings.py: two linked images whose
    code differs only in displacements that are bound to the same thing. Instructions, PLT names and GOT
    relocations come as objdump and the relocation table give them. */
module ElfBindings {
  import opened Basics

  type Byte = b: int | 0 <= b < 256

  datatype Section = Section(base: int, data: seq<Byte>)

  datatype Relocation = Relocation(symbol: string, kind: int, addend: int)

  /** What a GOT entry is bound to. */
  datatype Binding = Dynamic(relocation: Relocation) | Local(value: int)

  datatype Image = Image(text: Section, start: Section, got: Section, plt: map<int, string>,
                         relocations: map<int, Relocation>)

  /** One line of the disassembly; the instruction lies `offset` bytes behind the start of its section.
      `rip` says that the assembly text mentions `%rip`. */
  datatype Instruction = Instruction(offset: nat, code: seq<Byte>, rip: bool)

  function Unsigned(b: seq<Byte>): int {
    if b == [] then 0 else (b[0] as int) + 256 * Unsigned(b[1..])
  }

  /** The signed 32-bit number at `at`. */
  function I32(b: seq<Byte>, at: nat): int
    requires at + 4 <= |b|
  {
    var u := Unsigned(b[at..at + 4]);
    if u >= 0x8000_0000 then u - 0x1_0000_0000 else u
  }

  /** `binding`: an address in the GOT is bound by its relocation or by the value stored there; any other
      address fails the assertion. */
  function GotBinding(image: Image, address: int): Option<Binding> {
    var got := image.got;
    if !(got.base <= address <= got.base + |got.data| - 8 && address % 8 == 0) then None
    else if address in image.relocations then Some(Dynamic(image.relocations[address]))
    else Some(Local(Unsigned(got.data[address - got.base..address - got.base + 8])))
  }

  predicate IsBranch(code: seq<Byte>) {
    |code| == 5 && (code[0] == 0xe8 || code[0] == 0xe9)
  }

  /** A ModRM byte that addresses relative to the instruction pointer: mode 0, any register, r/m 5. */
  predicate RipModRm(b: Byte) {
    b < 64 && b % 8 == 5
  }

  /** The displacement at `d` of the instruction at `address` leads to the same PLT entry in both images. */
  predicate PltBound(left: Image, right: Image, address: int, code: seq<Byte>, replacement: seq<Byte>, d: nat)
    requires d + 4 <= |code| == |replacement|
  {
    var old', new' := address + |code| + I32(code, d), address + |code| + I32(replacement, d);
    old' in left.plt && new' in right.plt && left.plt[old'] == right.plt[new']
  }

  /** The displacement at `d` leads to GOT entries with the same binding. */
  predicate GotBound(left: Image, right: Image, address: int, code: seq<Byte>, replacement: seq<Byte>, d: nat)
    requires d + 4 <= |code| == |replacement|
  {
    var old' := GotBinding(left, address + |code| + I32(code, d));
    var new' := GotBinding(right, address + |code| + I32(replacement, d));
    old'.Some? && old' == new'
  }

  /** A displacement that the scan of an instruction considers and finds bound alike. */
  predicate Candidate(left: Image, right: Image, address: int, code: seq<Byte>, replacement: seq<Byte>, d: nat) {
    |code| == |replacement| && 1 <= d <= |code| - 4 && RipModRm(code[d - 1])
    && GotBound(left, right, address, code, replacement, d)
  }

  /** The only displacement of a changed instruction through which both images may differ. */
  predicate Bound(left: Image, right: Image, address: int, i: Instruction, replacement: seq<Byte>, d: nat)
    requires |i.code| == |replacement|
  {
    if IsBranch(i.code) then d == 1 && PltBound(left, right, address, i.code, replacement, 1)
    else
      && i.rip && Candidate(left, right, address, i.code, replacement, d)
      && forall e :: 1 <= e <= |i.code| - 4 && Candidate(left, right, address, i.code, replacement, e) ==> e == d
  }

  /** Equal but for the four bytes at `d`. */
  predicate EqualBut(a: seq<Byte>, b: seq<Byte>, d: nat)
    requires |a| == |b|
  {
    d + 4 <= |a| && a[..d] == b[..d] && a[d + 4..] == b[d + 4..]
  }

  function Slice(b: seq<Byte>, from: nat, length: nat): (s: seq<Byte>)
    ensures |s| <= length
  {
    if from >= |b| then [] else if from + length <= |b| then b[from..from + length] else b[from..]
  }

  /** A changed instruction that `check` accepts. */
  predicate Adjusted(left: Image, right: Image, base: int, i: Instruction, replacement: seq<Byte>)
    requires |i.code| == |replacement|
  {
    exists d: nat :: d <= |i.code| &&
      Bound(left, right, base + i.offset, i, replacement, d) && EqualBut(i.code, replacement, d)
  }

  predicate Covers(i: Instruction, k: nat) {
    i.offset <= k < i.offset + |i.code|
  }

  /** What `check` asks of one section. */
  ghost predicate Linked(left: Image, right: Image, old': Section, new': Section, listing: seq<Instruction>) {
    && old'.base == new'.base && |old'.data| == |new'.data|
    && AllChecked(left, right, old', new', listing)
    && forall k :: 0 <= k < |old'.data| && old'.data[k] != new'.data[k] ==>
         exists i :: 0 <= i < |listing| && Covers(listing[i], k)
  }

  predicate Fine(left: Image, right: Image, old': Section, new': Section, i: Instruction) {
    var replacement := Slice(new'.data, i.offset, |i.code|);
    i.code == replacement || (|i.code| == |replacement| && Adjusted(left, right, old'.base, i, replacement))
  }

  // ----- The loops -----

  /** The scan of an instruction: `candidate(index + 1)` for each index below `limit`. */
  method Scan(limit: int, candidate: nat -> bool) returns (c: seq<nat>)
    ensures forall j :: 0 <= j < |c| ==> candidate(c[j]) && 1 <= c[j] <= limit
    ensures forall j, l :: 0 <= j < l < |c| ==> c[j] < c[l]
    ensures forall d: nat :: 1 <= d <= limit && candidate(d) ==> d in c
  {
    c := [];
    var index: nat := 0;
    while index < limit
      invariant forall j :: 0 <= j < |c| ==> candidate(c[j]) && 1 <= c[j] <= index <= limit
      invariant forall j, l :: 0 <= j < l < |c| ==> c[j] < c[l]
      invariant forall d: nat :: 1 <= d <= index && d <= limit && candidate(d) ==> d in c
    {
      if candidate(index + 1) {
        c := c + [index + 1];
      }
      index := index + 1;
    }
  }

  /** The displacement of a changed instruction, if exactly one is bound alike. */
  method Displacement(left: Image, right: Image, address: int, i: Instruction, replacement: seq<Byte>)
    returns (r: Option<nat>)
    requires |i.code| == |replacement|
    ensures r.Some? ==> r.value <= |i.code| && Bound(left, right, address, i, replacement, r.value)
    ensures r.None? ==> forall d: nat :: d <= |i.code| ==> !Bound(left, right, address, i, replacement, d)
  {
    if IsBranch(i.code) {
      return if PltBound(left, right, address, i.code, replacement, 1) then Some(1) else None;
    }
    if !i.rip {
      return None;
    }
    var candidate := (d: nat) => Candidate(left, right, address, i.code, replacement, d);
    var c := Scan(|i.code| - 4, candidate);
    assert forall d: nat :: Candidate(left, right, address, i.code, replacement, d) ==> candidate(d) && d in c;
    if |c| != 1 {
      if |c| > 1 {
        assert c[0] != c[1];
        assert Candidate(left, right, address, i.code, replacement, c[0]);
        assert Candidate(left, right, address, i.code, replacement, c[1]);
      }
      return None;
    }
    return Some(c[0]);
  }

  lemma OneDisplacement(left: Image, right: Image, address: int, i: Instruction, replacement: seq<Byte>, d: nat, e: nat)
    requires |i.code| == |replacement| && Bound(left, right, address, i, replacement, d)
    requires Bound(left, right, address, i, replacement, e)
    ensures d == e
  {
  }

  /** One changed instruction. */
  method CheckInstruction(left: Image, right: Image, base: int, i: Instruction, replacement: seq<Byte>)
    returns (ok: bool)
    requires |i.code| == |replacement|
    ensures ok <==> Adjusted(left, right, base, i, replacement)
  {
    var r := Displacement(left, right, base + i.offset, i, replacement);
    if r.None? {
      return false;
    }
    ok := EqualBut(i.code, replacement, r.value);
    if d: nat :| d <= |i.code| && Bound(left, right, base + i.offset, i, replacement, d)
                && EqualBut(i.code, replacement, d)
    {
      OneDisplacement(left, right, base + i.offset, i, replacement, d, r.value);
    }
  }

  /** The instructions that differ in the new section. */
  function ChangedCount(new': Section, listing: seq<Instruction>): nat {
    if listing == [] then 0
    else
      var last := listing[|listing| - 1];
      ChangedCount(new', listing[..|listing| - 1]) +
        (if Slice(new'.data, last.offset, |last.code|) != last.code then 1 else 0)
  }

  /** Records that an instruction takes these bytes. */
  method Mark(covered: array<bool>, from: nat, to: nat)
    requires from <= to <= covered.Length
    modifies covered
    ensures forall k :: 0 <= k < covered.Length ==> covered[k] == (old(covered[k]) || from <= k < to)
  {
    for b := from to to
      invariant forall k :: 0 <= k < covered.Length ==> covered[k] == (old(covered[k]) || from <= k < b)
    {
      covered[b] := true;
    }
  }

  /** The bytes that `covered` marks are those of the changed instructions. */
  ghost predicate Marks(covered: seq<bool>, new': Section, listing: seq<Instruction>) {
    forall b :: 0 <= b < |covered| ==> (covered[b] <==> exists i :: 0 <= i < |listing| && Changes(listing[i], new', b))
  }

  /** A changed instruction covers byte `b`. */
  predicate Changes(i: Instruction, new': Section, b: nat) {
    Covers(i, b) && Slice(new'.data, i.offset, |i.code|) != i.code
  }

  ghost predicate Checked(left: Image, right: Image, old': Section, new': Section, i: Instruction) {
    Slice(old'.data, i.offset, |i.code|) == i.code && Fine(left, right, old', new', i)
  }

  lemma MarksSnoc(covered: seq<bool>, covered': seq<bool>, new': Section, listing: seq<Instruction>, i: Instruction)
    requires Marks(covered, new', listing) && |covered'| == |covered|
    requires forall b :: 0 <= b < |covered| ==> (covered'[b] <==> covered[b] || Changes(i, new', b))
    ensures Marks(covered', new', listing + [i])
  {
    forall b | 0 <= b < |covered'|
      ensures covered'[b] <==> exists k :: 0 <= k < |listing + [i]| && Changes((listing + [i])[k], new', b)
    {
      if Changes(i, new', b) {
        assert Changes((listing + [i])[|listing|], new', b);
      }
      if covered[b] {
        var k :| 0 <= k < |listing| && Changes(listing[k], new', b);
        assert Changes((listing + [i])[k], new', b);
      }
    }
  }

  /** One listed instruction: whether it is adjusted, or nothing if an assertion fails. */
  method CheckListed(left: Image, right: Image, old': Section, new': Section, i: Instruction, covered: array<bool>)
    returns (changed: Option<bool>)
    requires covered.Length == |old'.data| == |new'.data|
    modifies covered
    ensures changed.Some? <==> Checked(left, right, old', new', i)
    ensures changed.Some? ==> changed.value == (Slice(new'.data, i.offset, |i.code|) != i.code)
    ensures changed.Some? ==> forall b :: 0 <= b < covered.Length ==>
      (covered[b] <==> old(covered[b]) || Changes(i, new', b))
  {
    if Slice(old'.data, i.offset, |i.code|) != i.code {
      return None;
    }
    var replacement := Slice(new'.data, i.offset, |i.code|);
    if i.code == replacement {
      return Some(false);
    }
    var ok := CheckInstruction(left, right, old'.base, i, replacement);
    if !ok {
      return None;
    }
    Mark(covered, i.offset, i.offset + |i.code|);
    return Some(true);
  }

  lemma ChangedSnoc(new': Section, listing: seq<Instruction>, i: Instruction)
    ensures ChangedCount(new', listing + [i])
         == ChangedCount(new', listing) + (if Slice(new'.data, i.offset, |i.code|) != i.code then 1 else 0)
  {
    assert (listing + [i])[..|listing|] == listing;
  }

  /** One section: the number of adjusted instructions, or nothing if an assertion fails. */
  method CheckSection(left: Image, right: Image, old': Section, new': Section, listing: seq<Instruction>)
    returns (changed: Option<nat>)
    ensures changed.Some? <==> Linked(left, right, old', new', listing)
    ensures changed.Some? ==> changed.value == ChangedCount(new', listing)
  {
    if old'.base != new'.base || |old'.data| != |new'.data| {
      return None;
    }
    var covered := new bool[|old'.data|](_ => false);
    var count: nat := 0;
    for k := 0 to |listing|
      invariant AllChecked(left, right, old', new', listing[..k])
      invariant Marks(covered[..], new', listing[..k])
      invariant count == ChangedCount(new', listing[..k])
    {
      ghost var before, done := covered[..], listing[..k];
      var r := CheckListed(left, right, old', new', listing[k], covered);
      assert listing[..k + 1] == done + [listing[k]];
      if r.None? {
        return None;
      }
      ChangedSnoc(new', done, listing[k]);
      MarksSnoc(before, covered[..], new', done, listing[k]);
      count := count + (if r.value then 1 else 0);
    }
    assert listing[..|listing|] == listing;
    MarkedIsCovered(left, right, old', new', listing, covered[..]);
    if exists k :: 0 <= k < |old'.data| && old'.data[k] != new'.data[k] && !covered[k] {
      return None;
    }
    return Some(count);
  }

  ghost predicate AllChecked(left: Image, right: Image, old': Section, new': Section, listing: seq<Instruction>) {
    forall i :: 0 <= i < |listing| ==> Checked(left, right, old', new', listing[i])
  }

  /** Of checked instructions, a byte that differs is covered by one exactly when it is marked. */
  lemma MarkedIsCovered(left: Image, right: Image, old': Section, new': Section, listing: seq<Instruction>,
                        covered: seq<bool>)
    requires |old'.data| == |new'.data| == |covered| && Marks(covered, new', listing)
    requires AllChecked(left, right, old', new', listing)
    ensures forall k :: 0 <= k < |covered| && old'.data[k] != new'.data[k] ==>
      (covered[k] <==> exists i :: 0 <= i < |listing| && Covers(listing[i], k))
  {
    forall k | 0 <= k < |covered| && old'.data[k] != new'.data[k]
      ensures covered[k] <==> exists i :: 0 <= i < |listing| && Covers(listing[i], k)
    {
      if i :| 0 <= i < |listing| && Covers(listing[i], k) {
        DiffersChanges(old', new', listing[i], k);
      }
    }
  }

  lemma DiffersChanges(old': Section, new': Section, x: Instruction, k: nat)
    requires Slice(old'.data, x.offset, |x.code|) == x.code && Covers(x, k)
    requires k < |old'.data| == |new'.data| && old'.data[k] != new'.data[k]
    ensures Changes(x, new', k) && |Slice(new'.data, x.offset, |x.code|)| == |x.code|
    ensures x.code[k - x.offset] != Slice(new'.data, x.offset, |x.code|)[k - x.offset]
  {
    assert old'.data[k] == Slice(old'.data, x.offset, |x.code|)[k - x.offset];
    assert new'.data[k] == Slice(new'.data, x.offset, |x.code|)[k - x.offset];
  }

  /** `check`: the number of adjusted instructions in `.text` and `.init`. */
  method Check(left: Image, right: Image, text: seq<Instruction>, start: seq<Instruction>)
    returns (changed: Option<nat>)
    ensures changed.Some? <==>
      Linked(left, right, left.text, right.text, text) && Linked(left, right, left.start, right.start, start)
    ensures changed.Some? ==> changed.value == ChangedCount(right.text, text) + ChangedCount(right.start, start)
  {
    var a := CheckSection(left, right, left.text, right.text, text);
    if a.None? {
      return None;
    }
    var b := CheckSection(left, right, left.start, right.start, start);
    if b.None? {
      return None;
    }
    return Some(a.value + b.value);
  }
}

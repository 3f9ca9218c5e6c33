/** Reading back what was written: exactly when the round trip is exact, and where the bodies of an
    accepted file lie. */
module ResRoundTrip {
  import opened ResFormat

  // ----- Bytes at a position -----

  ghost predicate Has(data: seq<Byte>, at: nat, b: seq<Byte>) {
    at + |b| <= |data| && data[at..at + |b|] == b
  }

  lemma HasSplit(data: seq<Byte>, at: nat, a: seq<Byte>, b: seq<Byte>)
    requires Has(data, at, a + b)
    ensures Has(data, at, a) && Has(data, at + |a|, b)
  {
    assert data[at..at + |a|] == (a + b)[..|a|];
    assert data[at + |a|..at + |a| + |b|] == (a + b)[|a|..];
  }

  lemma HasU16(data: seq<Byte>, at: nat, n: Unit)
    requires Has(data, at, Le16(n))
    ensures U16(data, at) == n
  {
    assert data[at] == data[at..at + 2][0] && data[at + 1] == data[at..at + 2][1];
  }

  /** The four bytes of a number make it up. */
  lemma Digits(n: nat)
    ensures n % 256 + 256 * (n / 256 % 256) + 0x1_0000 * (n / 0x1_0000 % 256) + 0x100_0000 * (n / 0x100_0000) == n
  {
    assert n / 0x1_0000 == n / 256 / 256 && n / 0x100_0000 == n / 0x1_0000 / 256;
  }

  lemma HasU32(data: seq<Byte>, at: nat, n: nat)
    requires n < 0x1_0000_0000 && Has(data, at, Le32(n))
    ensures U32(data, at) == n
  {
    var b := data[at..at + 4];
    assert data[at] == b[0] && data[at + 1] == b[1] && data[at + 2] == b[2] && data[at + 3] == b[3];
    Digits(n);
  }

  // ----- Identifiers -----

  /** An identifier the reader can tell from its bytes: a number, or a string without a zero unit that
      does not start with the escape. */
  predicate Clean(id: Ident) {
    id.Name? ==> 0 !in id.units && (id.units != [] ==> id.units[0] != ESCAPE)
  }

  /** Whatever is read is clean. */
  lemma ReadIsClean(data: seq<Byte>, at: nat)
    ensures ReadIdent(data, at).Got? ==> Clean(ReadIdent(data, at).value)
  {
    var r := ReadIdent(data, at);
    if r.Got? && r.value.Name? && r.value.units != [] {
      assert U16(data, at) == r.value.units[0];
    }
  }

  lemma {:induction false} UnitsReadBack(data: seq<Byte>, at: nat, u: seq<Unit>)
    requires Has(data, at, Units(u) + Le16(0))
    ensures ReadUnits(data, at).Got? && ReadUnits(data, at).next <= at + 2 * |u| + 2
    ensures 0 !in u ==> ReadUnits(data, at) == Got(u, at + 2 * |u| + 2)
    decreases |u|
  {
    if u == [] {
      assert Units(u) + Le16(0) == Le16(0);
      HasU16(data, at, 0);
    } else {
      assert Units(u) + Le16(0) == Le16(u[0]) + (Units(u[1..]) + Le16(0));
      HasSplit(data, at, Le16(u[0]), Units(u[1..]) + Le16(0));
      HasU16(data, at, u[0]);
      UnitsReadBack(data, at + 2, u[1..]);
      assert u == [u[0]] + u[1..];
    }
  }

  /** Reading an identifier stays within its bytes, and gives a clean one back. */
  lemma IdentReadBack(data: seq<Byte>, at: nat, id: Ident)
    requires Has(data, at, IdentBytes(id))
    ensures ReadIdent(data, at).Got? && ReadIdent(data, at).next <= at + |IdentBytes(id)|
    ensures Clean(id) ==> ReadIdent(data, at) == Got(id, at + |IdentBytes(id)|)
  {
    match id
    case Number(n) =>
      HasSplit(data, at, Le16(ESCAPE), Le16(n));
      HasU16(data, at, ESCAPE);
      HasU16(data, at + 2, n);
    case Name(u) =>
      UnitsReadBack(data, at, u);
      if u != [] {
        assert Units(u) + Le16(0) == Le16(u[0]) + (Units(u[1..]) + Le16(0));
        HasSplit(data, at, Le16(u[0]), Units(u[1..]) + Le16(0));
        HasU16(data, at, u[0]);
      } else {
        HasSplit(data, at, Units(u), Le16(0));
        HasU16(data, at, 0);
      }
  }

  // ----- Records -----

  /** A record whose key can be read back; of a kind-0 record only the kind matters. */
  predicate Readable(r: Record) {
    Clean(r.kind) && (r.kind != Number(0) ==> Clean(r.name))
  }

  lemma AssociateFive(a: seq<Byte>, b: seq<Byte>, c: seq<Byte>, d: seq<Byte>, e: seq<Byte>)
    ensures a + b + c + d + e == a + (b + (c + (d + e)))
  {
  }

  lemma HasFive(data: seq<Byte>, at: nat, a: seq<Byte>, b: seq<Byte>, c: seq<Byte>, d: seq<Byte>, e: seq<Byte>)
    requires Has(data, at, a + b + c + d + e)
    ensures Has(data, at, a) && Has(data, at + |a|, b) && Has(data, at + |a| + |b|, c)
    ensures Has(data, at + |a| + |b| + |c|, d) && Has(data, at + |a| + |b| + |c| + |d|, e)
  {
    AssociateFive(a, b, c, d, e);
    HasSplit(data, at, a, b + (c + (d + e)));
    HasSplit(data, at + |a|, b, c + (d + e));
    HasSplit(data, at + |a| + |b|, c, d + e);
    HasSplit(data, at + |a| + |b| + |c|, d, e);
  }

  /** The parts of a record's bytes. */
  lemma RecordParts(data: seq<Byte>, pos: nat, r: Record)
    requires Packable(r) && Has(data, pos, RecordBytes(r))
    ensures Has(data, pos, Le32(|r.data|)) && Has(data, pos + 4, Le32(HeaderSize(r)))
    ensures Has(data, pos + 8, Aligned(Idents(r)))
    ensures Has(data, pos + HeaderSize(r) - 16, Tail(r.kind, r.language))
    ensures Has(data, pos + HeaderSize(r), Aligned(r.data))
  {
    HasFive(data, pos, Le32(|r.data|), Le32(HeaderSize(r)), Aligned(Idents(r)), Tail(r.kind, r.language),
            Aligned(r.data));
  }

  lemma HasAligned(data: seq<Byte>, at: nat, b: seq<Byte>)
    requires Has(data, at, Aligned(b))
    ensures Has(data, at, b)
  {
    HasSplit(data, at, b, Zeros(Padding(|b|)));
  }

  /** The metadata as it stands in the file: no data version, the memory flags of a resource, the language, no version
      and no characteristics. */
  lemma MetadataWritten(data: seq<Byte>, at: nat, kind: Ident, language: Unit)
    requires Has(data, at, Tail(kind, language))
    ensures U32(data, at) == 0
    ensures U16(data, at + 4) == if kind == Number(0) || (kind.Name? && kind.units == []) then 0 else 4144
    ensures U16(data, at + 6) == language
    ensures U32(data, at + 8) == 0 && U32(data, at + 12) == 0
  {
    HasFive(data, at, Le32(0), Le16(Flags(kind)), Le16(language), Le32(0), Le32(0));
    HasU32(data, at, 0);
    HasU16(data, at + 4, Flags(kind));
    HasU16(data, at + 6, language);
    HasU32(data, at + 8, 0);
    HasU32(data, at + 12, 0);
  }

  lemma AlignShift(base: nat, n: nat)
    requires base % 4 == 0
    ensures AlignUp(base + n) == base + AlignUp(n)
  {
  }

  lemma AlignMonotone(a: nat, b: nat)
    requires a <= b
    ensures AlignUp(a) <= AlignUp(b)
  {
  }

  /** The two identifiers of a written record stay within their bytes, and clean ones are read back. */
  lemma IdentsReadBack(data: seq<Byte>, at: nat, r: Record)
    requires Clean(r.kind) && Has(data, at, Idents(r))
    ensures var kind := ReadIdent(data, at);
      && kind.Got? && kind.value == r.kind
      && var name := ReadIdent(data, kind.next);
      && name.Got? && name.next <= at + |Idents(r)|
      && (Clean(r.name) ==> name.value == r.name)
  {
    HasSplit(data, at, IdentBytes(r.kind), IdentBytes(r.name));
    IdentReadBack(data, at, r.kind);
    IdentReadBack(data, at + |IdentBytes(r.kind)|, r.name);
  }

  /** The reader's header from its parts. */
  lemma HeaderFrom(data: seq<Byte>, pos: nat, size: nat, header: nat)
    requires pos + 8 <= |data| && U32(data, pos) == size && U32(data, pos + 4) == header
    requires header >= 8 && pos + header + size <= |data|
    requires ReadIdent(data, pos + 8).Got? && ReadIdent(data, ReadIdent(data, pos + 8).next).Got?
    requires AlignUp(ReadIdent(data, ReadIdent(data, pos + 8).next).next) + 16 <= pos + header
    ensures var kind := ReadIdent(data, pos + 8);
      var name := ReadIdent(data, kind.next);
      ReadHeader(data, pos)
      == Good(Entry(Key(kind.value, name.value, U16(data, AlignUp(name.next) + 6)), pos + header, pos + header + size))
  {
  }

  lemma ExactName(data: seq<Byte>, at: nat, r: Record)
    requires Clean(r.kind) && Clean(r.name) && Has(data, at, Idents(r))
    ensures ReadIdent(data, at).Got? && ReadIdent(data, ReadIdent(data, at).next) == Got(r.name, at + |Idents(r)|)
  {
    HasSplit(data, at, IdentBytes(r.kind), IdentBytes(r.name));
    IdentReadBack(data, at, r.kind);
    IdentReadBack(data, at + |IdentBytes(r.kind)|, r.name);
  }

  /** A record stored at `pos`, field by field as the reader sees it. */
  ghost predicate Stored(data: seq<Byte>, pos: nat, r: Record) {
    && pos + HeaderSize(r) + AlignUp(|r.data|) <= |data|
    && U32(data, pos) == |r.data| && U32(data, pos + 4) == HeaderSize(r)
    && Has(data, pos + 8, Idents(r))
    && U16(data, pos + HeaderSize(r) - 10) == r.language
    && Has(data, pos + HeaderSize(r), r.data)
  }

  /** Written records are stored. */
  lemma WrittenIsStored(data: seq<Byte>, pos: nat, r: Record)
    requires Packable(r) && Has(data, pos, RecordBytes(r))
    ensures Stored(data, pos, r)
  {
    RecordParts(data, pos, r);
    HasU32(data, pos, |r.data|);
    HasU32(data, pos + 4, HeaderSize(r));
    HasAligned(data, pos + 8, Idents(r));
    HasAligned(data, pos + HeaderSize(r), r.data);
    MetadataWritten(data, pos + HeaderSize(r) - 16, r.kind, r.language);
  }

  /** What is read at a stored record. */
  ghost predicate ReadAs(step: Step, pos: nat, r: Record) {
    && step.Good?
    && step.entry.start == pos + HeaderSize(r) && step.entry.end == pos + HeaderSize(r) + |r.data|
    && step.entry.key.kind == r.kind
    && (Clean(r.name) ==> step.entry.key == Key(r.kind, r.name, r.language))
  }

  /** The metadata after a name that ends early enough fits in the header. */
  lemma MetadataFits(pos: nat, next: nat, r: Record)
    requires pos % 4 == 0 && next <= pos + 8 + |Idents(r)|
    ensures AlignUp(next) + 16 <= pos + HeaderSize(r)
    ensures next == pos + 8 + |Idents(r)| ==> AlignUp(next) + 16 == pos + HeaderSize(r)
  {
    AlignMonotone(next, pos + 8 + |Idents(r)|);
    AlignShift(pos + 8, |Idents(r)|);
  }

  /** The header of a stored record is read back: its body is where it was put, and a clean key is the
      one written. */
  lemma HeaderReadBack(data: seq<Byte>, pos: nat, r: Record)
    requires Clean(r.kind) && pos % 4 == 0 && Stored(data, pos, r)
    ensures ReadAs(ReadHeader(data, pos), pos, r)
  {
    IdentsReadBack(data, pos + 8, r);
    var name := ReadIdent(data, ReadIdent(data, pos + 8).next);
    if Clean(r.name) {
      ExactName(data, pos + 8, r);
    }
    MetadataFits(pos, name.next, r);
    HeaderFrom(data, pos, |r.data|, HeaderSize(r));
  }

  /** The next record is looked for where it was put. */
  lemma NextReadBack(data: seq<Byte>, pos: nat, r: Record)
    requires pos % 4 == 0 && pos + RecordSize(r) <= |data|
    ensures NextRecord(data, pos + HeaderSize(r) + |r.data|) == pos + RecordSize(r)
  {
    AlignShift(pos + HeaderSize(r), |r.data|);
  }

  // ----- Files -----

  function KeyOf(r: Record): Key {
    Key(r.kind, r.name, r.language)
  }

  /** The resources of a list of records: everything but kind 0. */
  function Resources(rs: seq<Record>): map<Key, seq<Byte>> {
    if rs == [] then map[]
    else
      var last := rs[|rs| - 1];
      var m := Resources(rs[..|rs| - 1]);
      if last.kind == Number(0) then m else m[KeyOf(last) := last.data]
  }

  ghost predicate AllReadable(rs: seq<Record>) {
    forall i :: 0 <= i < |rs| ==> Readable(rs[i])
  }

  /** The records can be entered one after the other without meeting a key twice. */
  predicate Enterable(rs: seq<Record>, keys: set<Key>) {
    if rs == [] then true
    else if rs[0].kind == Number(0) then Enterable(rs[1..], keys)
    else KeyOf(rs[0]) !in keys && Enterable(rs[1..], keys + {KeyOf(rs[0])})
  }

  /** The records entered on top of `acc`. */
  function Entered(rs: seq<Record>, acc: map<Key, seq<Byte>>): map<Key, seq<Byte>> {
    if rs == [] then acc
    else if rs[0].kind == Number(0) then Entered(rs[1..], acc)
    else Entered(rs[1..], acc[KeyOf(rs[0]) := rs[0].data])
  }

  /** What the reader makes of a record: an entry with its kind, its body and, unless it is of kind 0,
      its key. */
  ghost predicate EntryOf(data: seq<Byte>, e: Entry, r: Record) {
    && e.key.kind == r.kind && (r.kind != Number(0) ==> e.key == KeyOf(r))
    && e.start <= e.end <= |data| && data[e.start..e.end] == r.data
  }

  /** Records that the table of headers reads as they are, one behind the other up to the end. */
  ghost predicate FileAt(headers: nat -> Step, data: seq<Byte>, pos: nat, rs: seq<Record>)
    decreases |rs|
  {
    if rs == [] then pos == |data|
    else
      && pos < |data| && headers(pos).Good? && EntryOf(data, headers(pos).entry, rs[0])
      && FileAt(headers, data, NextRecord(data, headers(pos).entry.end), rs[1..])
  }

  /** The table of headers reads `r` at `pos` and leads to `next`. */
  ghost predicate Reads(headers: nat -> Step, data: seq<Byte>, pos: nat, r: Record, next: nat) {
    pos < |data| && headers(pos).Good? && EntryOf(data, headers(pos).entry, r)
    && NextRecord(data, headers(pos).entry.end) == next
  }

  lemma HeadIsEntry(data: seq<Byte>, pos: nat, r: Record)
    requires Readable(r) && pos % 4 == 0 && Stored(data, pos, r)
    ensures pos < |data| && ReadHeader(data, pos).Good? && EntryOf(data, ReadHeader(data, pos).entry, r)
    ensures ReadHeader(data, pos).entry.end == pos + HeaderSize(r) + |r.data|
  {
    HeaderReadBack(data, pos, r);
  }

  lemma StoredIsRead(data: seq<Byte>, pos: nat, r: Record)
    requires Readable(r) && pos % 4 == 0 && Stored(data, pos, r)
    ensures Reads(Headers(data), data, pos, r, pos + RecordSize(r))
  {
    HeadIsEntry(data, pos, r);
    NextReadBack(data, pos, r);
  }

  /** Wherever `part` lies, on a multiple of four, the record `r` is read and what follows is next. */
  ghost predicate ReadsBack(headers: nat -> Step, data: seq<Byte>, part: seq<Byte>, r: Record) {
    |part| % 4 == 0 && forall p: nat :: p % 4 == 0 && Has(data, p, part) ==> Reads(headers, data, p, r, p + |part|)
  }

  lemma RecordReadsBack(headers: nat -> Step, data: seq<Byte>, r: Record)
    requires Packable(r) && Readable(r) && headers == Headers(data)
    ensures ReadsBack(headers, data, RecordBytes(r), r)
  {
    forall p: nat | p % 4 == 0 && Has(data, p, RecordBytes(r))
      ensures Reads(headers, data, p, r, p + |RecordBytes(r)|)
    {
      WrittenIsStored(data, p, r);
      StoredIsRead(data, p, r);
    }
  }

  /** Records whose parts lie one behind the other are laid out as `FileAt` says. */
  lemma {:induction false} PartsRead(headers: nat -> Step, data: seq<Byte>, pos: nat, rs: seq<Record>,
                                     parts: seq<seq<Byte>>)
    requires |parts| == |rs| && pos % 4 == 0
    requires forall i :: 0 <= i < |rs| ==> ReadsBack(headers, data, parts[i], rs[i])
    requires Has(data, pos, Joined(parts)) && pos + |Joined(parts)| == |data|
    ensures FileAt(headers, data, pos, rs)
    decreases |rs|
  {
    if rs != [] {
      HasSplit(data, pos, parts[0], Joined(parts[1..]));
      PartsRead(headers, data, pos + |parts[0]|, rs[1..], parts[1..]);
    }
  }

  /** A written file is laid out as `FileAt` says. */
  lemma WrittenFile(data: seq<Byte>, rs: seq<Record>)
    requires AllPackable(rs) && AllReadable(rs) && data == FileBytes(rs)
    ensures FileAt(Headers(data), data, 0, rs)
  {
    var headers := Headers(data);
    var parts := seq(|rs|, i requires 0 <= i < |rs| => RecordBytes(rs[i]));
    forall i | 0 <= i < |rs|
      ensures ReadsBack(headers, data, parts[i], rs[i])
    {
      RecordReadsBack(headers, data, rs[i]);
    }
    assert data[0..0 + |data|] == data;
    PartsRead(headers, data, 0, rs, parts);
  }

  /** Reading a laid-out file when no key is met twice. */
  lemma {:induction false} EnterableReadBack(headers: nat -> Step, data: seq<Byte>, pos: nat, rs: seq<Record>,
                                             acc: map<Key, seq<Byte>>)
    requires Advances(headers, |data|) && FileAt(headers, data, pos, rs) && Enterable(rs, acc.Keys)
    ensures ReadFrom(headers, data, pos, acc) ==
      if Entered(rs, acc) == map[] then Err(EmptyOrTruncated) else Ok(Entered(rs, acc))
    decreases |rs|
  {
    if rs != [] {
      var r, next := rs[0], NextRecord(data, headers(pos).entry.end);
      if r.kind == Number(0) {
        EnterableReadBack(headers, data, next, rs[1..], acc);
      } else {
        var acc' := acc[KeyOf(r) := r.data];
        assert acc'.Keys == acc.Keys + {KeyOf(r)};
        EnterableReadBack(headers, data, next, rs[1..], acc');
      }
    }
  }

  /** Reading a laid-out file that meets a key twice. */
  lemma {:induction false} DuplicateReadBack(headers: nat -> Step, data: seq<Byte>, pos: nat, rs: seq<Record>,
                                             acc: map<Key, seq<Byte>>)
    requires Advances(headers, |data|) && FileAt(headers, data, pos, rs) && !Enterable(rs, acc.Keys)
    ensures ReadFrom(headers, data, pos, acc) == Err(Duplicate)
    decreases |rs|
  {
    var r, next := rs[0], NextRecord(data, headers(pos).entry.end);
    if r.kind == Number(0) {
      DuplicateReadBack(headers, data, next, rs[1..], acc);
    } else if KeyOf(r) !in acc {
      var acc' := acc[KeyOf(r) := r.data];
      assert acc'.Keys == acc.Keys + {KeyOf(r)};
      DuplicateReadBack(headers, data, next, rs[1..], acc');
    }
  }

  // ----- When the round trip is exact -----

  /** Not all records are of kind 0. */
  ghost predicate SomeResource(rs: seq<Record>) {
    exists i :: 0 <= i < |rs| && rs[i].kind != Number(0)
  }

  /** No two resources share kind and name. */
  ghost predicate DistinctKeys(rs: seq<Record>) {
    forall i, j :: 0 <= i < j < |rs| && rs[i].kind != Number(0) && rs[j].kind != Number(0) ==>
      KeyOf(rs[i]) != KeyOf(rs[j])
  }

  lemma {:induction false} EnterableIff(rs: seq<Record>, keys: set<Key>)
    ensures Enterable(rs, keys) <==>
      && DistinctKeys(rs)
      && (forall i :: 0 <= i < |rs| && rs[i].kind != Number(0) ==> KeyOf(rs[i]) !in keys)
  {
    if rs != [] {
      var rest := rs[1..];
      assert forall i :: 0 <= i < |rest| ==> rest[i] == rs[i + 1];
      assert forall i :: 1 <= i < |rs| ==> rs[i] == rest[i - 1];
      if rs[0].kind == Number(0) {
        EnterableIff(rest, keys);
      } else {
        EnterableIff(rest, keys + {KeyOf(rs[0])});
        if Enterable(rs, keys) {
          forall i | 1 <= i < |rs| && rs[i].kind != Number(0)
            ensures KeyOf(rs[i]) !in keys && KeyOf(rs[i]) != KeyOf(rs[0])
          {
            assert rest[i - 1] == rs[i];
          }
        }
      }
    }
  }

  lemma {:induction false} EnteredSnoc(rs: seq<Record>, r: Record, acc: map<Key, seq<Byte>>)
    ensures Entered(rs + [r], acc) ==
      if r.kind == Number(0) then Entered(rs, acc) else Entered(rs, acc)[KeyOf(r) := r.data]
    decreases |rs|
  {
    if rs == [] {
      assert rs + [r] == [r];
      assert [r][1..] == [];
    } else {
      assert (rs + [r])[1..] == rs[1..] + [r];
      if rs[0].kind == Number(0) {
        EnteredSnoc(rs[1..], r, acc);
      } else {
        EnteredSnoc(rs[1..], r, acc[KeyOf(rs[0]) := rs[0].data]);
      }
    }
  }

  lemma {:induction false} EnteredIsResources(rs: seq<Record>)
    ensures Entered(rs, map[]) == Resources(rs)
  {
    if rs != [] {
      var init, last := rs[..|rs| - 1], rs[|rs| - 1];
      assert rs == init + [last];
      EnteredSnoc(init, last, map[]);
      EnteredIsResources(init);
    }
  }

  lemma {:induction false} ResourcesKeys(rs: seq<Record>)
    ensures forall k :: k in Resources(rs) <==>
      exists i :: 0 <= i < |rs| && rs[i].kind != Number(0) && KeyOf(rs[i]) == k
  {
    if rs != [] {
      var init := rs[..|rs| - 1];
      ResourcesKeys(init);
      forall k
        ensures k in Resources(rs) <==> exists i :: 0 <= i < |rs| && rs[i].kind != Number(0) && KeyOf(rs[i]) == k
      {
        if k in Resources(init) {
          var i :| 0 <= i < |init| && init[i].kind != Number(0) && KeyOf(init[i]) == k;
          assert rs[i] == init[i];
        }
        if i :| 0 <= i < |rs| && rs[i].kind != Number(0) && KeyOf(rs[i]) == k {
          if i < |init| {
            assert init[i] == rs[i];
          }
        }
      }
    }
  }

  /** Every key of an accepted file is clean. */
  ghost predicate CleanKeys(m: map<Key, seq<Byte>>) {
    forall k :: k in m ==> Clean(k.kind) && Clean(k.name)
  }

  lemma HeaderKeyClean(data: seq<Byte>, pos: nat)
    ensures ReadHeader(data, pos).Good? ==>
      Clean(ReadHeader(data, pos).entry.key.kind) && Clean(ReadHeader(data, pos).entry.key.name)
  {
    ReadIsClean(data, pos + 8);
    if ReadIdent(data, pos + 8).Got? {
      ReadIsClean(data, ReadIdent(data, pos + 8).next);
    }
  }

  lemma {:induction false} ReadKeysClean(headers: nat -> Step, data: seq<Byte>, pos: nat, acc: map<Key, seq<Byte>>)
    requires Advances(headers, |data|) && CleanKeys(acc)
    requires forall p :: headers(p).Good? ==> Clean(headers(p).entry.key.kind) && Clean(headers(p).entry.key.name)
    ensures ReadFrom(headers, data, pos, acc).Ok? ==> CleanKeys(ReadFrom(headers, data, pos, acc).records)
    decreases |data| - pos
  {
    if pos < |data| {
      var step := headers(pos);
      if step.Good? {
        var e := step.entry;
        if e.key.kind == Number(0) {
          ReadKeysClean(headers, data, NextRecord(data, e.end), acc);
        } else if e.key !in acc {
          ReadKeysClean(headers, data, NextRecord(data, e.end), acc[e.key := data[e.start..e.end]]);
        }
      }
    }
  }

  /** Every resource has an identifier pair the reader can tell. */
  ghost predicate CleanResources(rs: seq<Record>) {
    forall i :: 0 <= i < |rs| && rs[i].kind != Number(0) ==> Clean(rs[i].kind) && Clean(rs[i].name)
  }

  lemma CleanRoundTrip(rs: seq<Record>)
    requires AllPackable(rs) && CleanResources(rs)
    ensures ReadFile(FileBytes(rs)) == Ok(Resources(rs)) <==> SomeResource(rs) && DistinctKeys(rs)
  {
    var data := FileBytes(rs);
    assert AllReadable(rs);
    WrittenFile(data, rs);
    var empty: map<Key, seq<Byte>> := map[];
    assert empty.Keys == {};
    EnterableIff(rs, {});
    if Enterable(rs, {}) {
      EnterableReadBack(Headers(data), data, 0, rs, empty);
      EnteredIsResources(rs);
      NoResourceMeansEmpty(rs);
    } else {
      DuplicateReadBack(Headers(data), data, 0, rs, empty);
    }
  }

  lemma UncleanNoRoundTrip(rs: seq<Record>, i: nat)
    requires AllPackable(rs) && i < |rs| && rs[i].kind != Number(0) && !(Clean(rs[i].kind) && Clean(rs[i].name))
    ensures ReadFile(FileBytes(rs)) != Ok(Resources(rs))
  {
    var data := FileBytes(rs);
    forall p: nat
      ensures Headers(data)(p).Good? ==>
        Clean(Headers(data)(p).entry.key.kind) && Clean(Headers(data)(p).entry.key.name)
    {
      HeaderKeyClean(data, p);
    }
    ReadKeysClean(Headers(data), data, 0, map[]);
    ResourcesKeys(rs);
    assert KeyOf(rs[i]) in Resources(rs);
  }

  /** Reading a written file gives exactly its resources if and only if there is at least one, their
      keys are distinct, and their kinds and names have no zero unit and do not start with the escape. */
  lemma RoundTrip(rs: seq<Record>)
    requires AllPackable(rs)
    ensures ReadFile(FileBytes(rs)) == Ok(Resources(rs))
       <==> SomeResource(rs) && DistinctKeys(rs) && CleanResources(rs)
  {
    if CleanResources(rs) {
      CleanRoundTrip(rs);
    } else {
      var i :| 0 <= i < |rs| && rs[i].kind != Number(0) && !(Clean(rs[i].kind) && Clean(rs[i].name));
      UncleanNoRoundTrip(rs, i);
    }
  }

  lemma NoResourceMeansEmpty(rs: seq<Record>)
    ensures SomeResource(rs) <==> Resources(rs) != map[]
  {
    ResourcesKeys(rs);
    if i :| 0 <= i < |rs| && rs[i].kind != Number(0) {
      assert KeyOf(rs[i]) in Resources(rs);
    }
    if Resources(rs) != map[] {
      var k :| k in Resources(rs);
    }
  }

  // ----- Accepted files -----

  /** The entries the reader passes from `pos` on. */
  function Entries(headers: nat -> Step, data: seq<Byte>, pos: nat): seq<Entry>
    requires Advances(headers, |data|)
    decreases |data| - pos
  {
    if pos >= |data| || headers(pos).Bad? then []
    else [headers(pos).entry] + Entries(headers, data, NextRecord(data, headers(pos).entry.end))
  }

  /** Bodies one behind the other, from `from` on, within `length` bytes. */
  ghost predicate Laid(entries: seq<Entry>, from: nat, length: nat) {
    && (forall i :: 0 <= i < |entries| ==> from <= entries[i].start <= entries[i].end <= length)
    && forall i, j :: 0 <= i < j < |entries| ==> entries[i].end <= entries[j].start
  }

  lemma LaidCons(e: Entry, rest: seq<Entry>, from: nat, next: nat, length: nat)
    requires from <= e.start <= e.end <= next && e.end <= length && Laid(rest, next, length)
    ensures Laid([e] + rest, from, length)
  {
  }

  /** The bodies lie within the file, one behind the other without overlap. */
  lemma {:induction false} BodiesLaid(headers: nat -> Step, data: seq<Byte>, pos: nat)
    requires Advances(headers, |data|)
    ensures Laid(Entries(headers, data, pos), pos, |data|)
    decreases |data| - pos
  {
    if pos < |data| && headers(pos).Good? {
      var e := headers(pos).entry;
      var next := NextRecord(data, e.end);
      BodiesLaid(headers, data, next);
      LaidCons(e, Entries(headers, data, next), pos, next, |data|);
    }
  }

  /** What the result holds already stays. */
  lemma {:induction false} RecordsStay(headers: nat -> Step, data: seq<Byte>, pos: nat, acc: map<Key, seq<Byte>>,
                                       k: Key)
    requires Advances(headers, |data|) && ReadFrom(headers, data, pos, acc).Ok? && k in acc
    ensures k in ReadFrom(headers, data, pos, acc).records && ReadFrom(headers, data, pos, acc).records[k] == acc[k]
    decreases |data| - pos
  {
    if pos < |data| {
      var e := headers(pos).entry;
      var acc' := if e.key.kind == Number(0) then acc else acc[e.key := data[e.start..e.end]];
      RecordsStay(headers, data, NextRecord(data, e.end), acc', k);
    }
  }

  /** Each entry that is not of kind 0 is in the result with its body, and its key was new. */
  lemma {:induction false} EntryRecorded(headers: nat -> Step, data: seq<Byte>, pos: nat, acc: map<Key, seq<Byte>>,
                                         i: nat)
    requires Advances(headers, |data|) && ReadFrom(headers, data, pos, acc).Ok? && i < |Entries(headers, data, pos)|
    requires Entries(headers, data, pos)[i].key.kind != Number(0)
    ensures var e, records := Entries(headers, data, pos)[i], ReadFrom(headers, data, pos, acc).records;
      && e.start <= e.end <= |data| && e.key in records && records[e.key] == data[e.start..e.end] && e.key !in acc
      && forall j :: 0 <= j < i ==> Entries(headers, data, pos)[j].key != e.key
    decreases |data| - pos
  {
    var e := headers(pos).entry;
    var next := NextRecord(data, e.end);
    var acc' := if e.key.kind == Number(0) then acc else acc[e.key := data[e.start..e.end]];
    if i == 0 {
      RecordsStay(headers, data, next, acc', e.key);
    } else {
      EntryRecorded(headers, data, next, acc', i - 1);
      assert forall j :: 1 <= j < i ==> Entries(headers, data, pos)[j] == Entries(headers, data, next)[j - 1];
    }
  }

  /** Nothing else is in the result. */
  lemma {:induction false} RecordHasEntry(headers: nat -> Step, data: seq<Byte>, pos: nat, acc: map<Key, seq<Byte>>,
                                          k: Key)
    returns (i: nat)
    requires Advances(headers, |data|) && ReadFrom(headers, data, pos, acc).Ok?
    requires k in ReadFrom(headers, data, pos, acc).records && k !in acc
    ensures i < |Entries(headers, data, pos)| && Entries(headers, data, pos)[i].key == k && k.kind != Number(0)
    decreases |data| - pos
  {
    var e := headers(pos).entry;
    var next := NextRecord(data, e.end);
    if e.key == k && k.kind != Number(0) {
      i := 0;
    } else {
      var acc' := if e.key.kind == Number(0) then acc else acc[e.key := data[e.start..e.end]];
      var j := RecordHasEntry(headers, data, next, acc', k);
      i := j + 1;
    }
  }

  /** Of every accepted file: the bodies lie within it, one behind the other without overlap, and the
      result holds exactly those of the records that are not of kind 0. */
  lemma AcceptedFile(data: seq<Byte>)
    requires ReadFile(data).Ok?
    ensures var entries, records := Entries(Headers(data), data, 0), ReadFile(data).records;
      && Laid(entries, 0, |data|)
      && (forall i :: 0 <= i < |entries| && entries[i].key.kind != Number(0) ==>
            entries[i].key in records && records[entries[i].key] == data[entries[i].start..entries[i].end])
      && (forall k :: k in records ==> exists i :: 0 <= i < |entries| && entries[i].key == k && k.kind != Number(0))
  {
    var headers := Headers(data);
    BodiesLaid(headers, data, 0);
    var entries, records := Entries(headers, data, 0), ReadFile(data).records;
    forall i | 0 <= i < |entries| && entries[i].key.kind != Number(0)
      ensures entries[i].key in records && records[entries[i].key] == data[entries[i].start..entries[i].end]
    {
      EntryRecorded(headers, data, 0, map[], i);
    }
    forall k | k in records
      ensures exists i :: 0 <= i < |entries| && entries[i].key == k && k.kind != Number(0)
    {
      var i := RecordHasEntry(headers, data, 0, map[], k);
    }
  }
}

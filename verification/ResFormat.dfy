/** Win32 resource files (the RESOURCEHEADER structure of Microsoft's "Resource File Formats"): the
    writer of qualification/compiler-resource-case/run_gate.py and the reader of
    qualification/compiler-resource-paths/run_gate.py. Names are sequences of 16-bit units. */
module ResFormat {

  type Byte = b: int | 0 <= b < 256

  type Unit = u: int | 0 <= u < 65536

  const ESCAPE: Unit := 0xffff

  /** A kind or a name: a number or a string. */
  datatype Ident = Number(n: Unit) | Name(units: seq<Unit>)

  /** The writer puts the language 0 into every record; any other is modelled alike. */
  datatype Record = Record(kind: Ident, name: Ident, language: Unit, data: seq<Byte>)

  datatype Key = Key(kind: Ident, name: Ident, language: Unit)

  // ----- Bytes -----

  function Le16(n: Unit): (b: seq<Byte>)
    ensures |b| == 2
  {
    [n % 256, n / 256]
  }

  function Le32(n: nat): (b: seq<Byte>)
    requires n < 0x1_0000_0000
    ensures |b| == 4
  {
    [n % 256, n / 256 % 256, n / 0x1_0000 % 256, n / 0x100_0000]
  }

  function Units(u: seq<Unit>): (b: seq<Byte>)
    ensures |b| == 2 * |u|
  {
    if u == [] then [] else Le16(u[0]) + Units(u[1..])
  }

  function Zeros(n: nat): (b: seq<Byte>)
    ensures |b| == n
  {
    seq(n, _ => 0)
  }

  /** Padding to a multiple of four. */
  function Padding(n: nat): (k: nat)
    ensures k < 4 && (n + k) % 4 == 0
  {
    (4 - n % 4) % 4
  }

  function AlignUp(n: nat): (m: nat)
    ensures m == n + Padding(n) && m % 4 == 0
  {
    (n + 3) / 4 * 4
  }

  // ----- The writer -----

  function IdentBytes(id: Ident): seq<Byte> {
    match id
    case Number(n) => Le16(ESCAPE) + Le16(n)
    case Name(u) => Units(u) + Le16(0)
  }

  function Aligned(b: seq<Byte>): (r: seq<Byte>)
    ensures |r| == AlignUp(|b|)
  {
    b + Zeros(Padding(|b|))
  }

  /** `0x1030 if kind else 0`: the number 0 and the empty string are false. */
  function Flags(kind: Ident): Unit {
    if kind == Number(0) || kind == Name([]) then 0 else 0x1030
  }

  /** What follows the two identifiers: data version, memory flags, language, version and
      characteristics. */
  function Tail(kind: Ident, language: Unit): (b: seq<Byte>)
    ensures |b| == 16
  {
    Le32(0) + Le16(Flags(kind)) + Le16(language) + Le32(0) + Le32(0)
  }

  function Idents(r: Record): seq<Byte> {
    IdentBytes(r.kind) + IdentBytes(r.name)
  }

  function HeaderSize(r: Record): (n: nat)
    ensures n % 4 == 0 && n >= 24
  {
    AlignUp(|Idents(r)|) + 24
  }

  function RecordSize(r: Record): (n: nat)
    ensures n % 4 == 0
  {
    HeaderSize(r) + AlignUp(|r.data|)
  }

  /** Both sizes fit their 32-bit fields; otherwise packing them fails. */
  predicate Packable(r: Record) {
    |r.data| < 0x1_0000_0000 && HeaderSize(r) < 0x1_0000_0000
  }

  function RecordBytes(r: Record): (b: seq<Byte>)
    requires Packable(r)
    ensures |b| == RecordSize(r)
  {
    var head, tail := Aligned(Idents(r)), Tail(r.kind, r.language);
    Le32(|r.data|) + Le32(HeaderSize(r)) + head + tail + Aligned(r.data)
  }

  ghost predicate AllPackable(rs: seq<Record>) {
    forall i :: 0 <= i < |rs| ==> Packable(rs[i])
  }

  function Joined(parts: seq<seq<Byte>>): seq<Byte> {
    if parts == [] then [] else parts[0] + Joined(parts[1..])
  }

  /** The concatenated outputs of `record`. */
  function FileBytes(rs: seq<Record>): (b: seq<Byte>)
    requires AllPackable(rs)
  {
    Joined(seq(|rs|, i requires 0 <= i < |rs| => RecordBytes(rs[i])))
  }

  // ----- The reader -----

  datatype ResError = Truncated | InvalidBounds | InvalidMetadata | Duplicate | EmptyOrTruncated

  datatype Read = Ok(records: map<Key, seq<Byte>>) | Err(error: ResError)

  /** An unsigned field; reading past the end raises. */
  function U16(data: seq<Byte>, at: nat): Unit
    requires at + 2 <= |data|
  {
    data[at] as int + 256 * (data[at + 1] as int)
  }

  function U32(data: seq<Byte>, at: nat): nat
    requires at + 4 <= |data|
  {
    data[at] as int + 256 * (data[at + 1] as int)
    + 0x1_0000 * (data[at + 2] as int) + 0x100_0000 * (data[at + 3] as int)
  }

  datatype Parsed<T> = Got(value: T, next: nat) | Failed

  /** The units up to a zero unit. */
  function ReadUnits(data: seq<Byte>, at: nat): (r: Parsed<seq<Unit>>)
    ensures r.Got? ==> at + 2 <= r.next <= |data| && 0 !in r.value
    decreases |data| - at
  {
    if at + 2 > |data| then Failed
    else if U16(data, at) == 0 then Got([], at + 2)
    else
      var rest := ReadUnits(data, at + 2);
      if rest.Got? then Got([U16(data, at)] + rest.value, rest.next) else Failed
  }

  function ReadIdent(data: seq<Byte>, at: nat): (r: Parsed<Ident>)
    ensures r.Got? ==> at + 2 <= r.next <= |data|
  {
    if at + 2 > |data| then Failed
    else if U16(data, at) == ESCAPE then
      if at + 4 > |data| then Failed else Got(Number(U16(data, at + 2)), at + 4)
    else
      var u := ReadUnits(data, at);
      if u.Got? then Got(Name(u.value), u.next) else Failed
  }

  /** One record as the reader sees it: its key and its body `[start, end)`. */
  datatype Entry = Entry(key: Key, start: nat, end: nat)

  datatype Step = Good(entry: Entry) | Bad(error: ResError)

  /** The header at `pos`. */
  function ReadHeader(data: seq<Byte>, pos: nat): (r: Step)
    ensures r.Good? ==> pos + 8 <= r.entry.start <= r.entry.end <= |data|
  {
    if pos + 8 > |data| then Bad(Truncated)
    else
      var size, header := U32(data, pos), U32(data, pos + 4);
      if !(header >= 8 && pos + header + size <= |data|) then Bad(InvalidBounds)
      else
        var kind := ReadIdent(data, pos + 8);
        if kind.Failed? then Bad(Truncated)
        else
          var name := ReadIdent(data, kind.next);
          if name.Failed? then Bad(Truncated)
          else
            var cursor := AlignUp(name.next);
            if cursor + 16 > pos + header then Bad(InvalidMetadata)
            else Good(Entry(Key(kind.value, name.value, U16(data, cursor + 6)), pos + header, pos + header + size))
  }

  /** Where the next record starts. */
  function NextRecord(data: seq<Byte>, end: nat): nat {
    if end < |data| then AlignUp(end) else end
  }

  /** Headers as a table over positions; a good one leads forward. */
  ghost predicate Advances(headers: nat -> Step, length: nat) {
    forall p: nat :: headers(p).Good? ==> p + 8 <= headers(p).entry.start <= headers(p).entry.end <= length
  }

  function Headers(data: seq<Byte>): (h: nat -> Step)
    ensures Advances(h, |data|)
  {
    (p: nat) => ReadHeader(data, p)
  }

  /** The loop of `read_res` from position `pos` on, told of the table of headers. */
  function ReadFrom(headers: nat -> Step, data: seq<Byte>, pos: nat, records: map<Key, seq<Byte>>): Read
    requires Advances(headers, |data|)
    decreases |data| - pos
  {
    if pos >= |data| then
      if pos == |data| && records != map[] then Ok(records) else Err(EmptyOrTruncated)
    else
      var step := headers(pos);
      if step.Bad? then Err(step.error)
      else
        var e := step.entry;
        if e.key.kind == Number(0) then ReadFrom(headers, data, NextRecord(data, e.end), records)
        else if e.key in records then Err(Duplicate)
        else ReadFrom(headers, data, NextRecord(data, e.end), records[e.key := data[e.start..e.end]])
  }

  /** `read_res` of a whole file. */
  function ReadFile(data: seq<Byte>): Read {
    ReadFrom(Headers(data), data, 0, map[])
  }

  /** `ident`: the scan for the zero unit. */
  method ScanIdent(data: seq<Byte>, offset: nat) returns (r: Parsed<Ident>)
    ensures r == ReadIdent(data, offset)
  {
    if offset + 2 > |data| {
      return Failed;
    }
    if U16(data, offset) == ESCAPE {
      if offset + 4 > |data| {
        return Failed;
      }
      return Got(Number(U16(data, offset + 2)), offset + 4);
    }
    var end := offset;
    var units: seq<Unit> := [];
    ghost var goal := ReadUnits(data, offset);
    while end + 2 <= |data| && U16(data, end) != 0
      invariant ReadUnits(data, end).Got? <==> goal.Got?
      invariant goal.Got? ==> goal.next == ReadUnits(data, end).next && goal.value == units + ReadUnits(data, end).value
      invariant offset <= end
      decreases |data| - end
    {
      units := units + [U16(data, end)];
      end := end + 2;
    }
    if end + 2 > |data| {
      return Failed;
    }
    assert units + [] == units;
    return Got(Name(units), end + 2);
  }

  /** The header at `pos`, field by field. */
  method ScanHeader(data: seq<Byte>, pos: nat) returns (r: Step)
    ensures r == ReadHeader(data, pos)
  {
    if pos + 8 > |data| {
      return Bad(Truncated);
    }
    var size, header := U32(data, pos), U32(data, pos + 4);
    if !(header >= 8 && pos + header + size <= |data|) {
      return Bad(InvalidBounds);
    }
    var kind := ScanIdent(data, pos + 8);
    if kind.Failed? {
      return Bad(Truncated);
    }
    var name := ScanIdent(data, kind.next);
    if name.Failed? {
      return Bad(Truncated);
    }
    var cursor := AlignUp(name.next);
    if cursor + 16 > pos + header {
      return Bad(InvalidMetadata);
    }
    var language := U16(data, cursor + 6);
    return Good(Entry(Key(kind.value, name.value, language), pos + header, pos + header + size));
  }

  /** `read_res`. */
  method ReadRes(data: seq<Byte>) returns (r: Read)
    ensures r == ReadFile(data)
  {
    var pos: nat := 0;
    var records := map[];
    ghost var goal := ReadFile(data);
    while pos < |data|
      invariant goal == ReadFrom(Headers(data), data, pos, records)
      decreases |data| - pos
    {
      var step := ScanHeader(data, pos);
      if step.Bad? {
        return Err(step.error);
      }
      var e := step.entry;
      if e.key.kind != Number(0) {
        if e.key in records {
          return Err(Duplicate);
        }
        records := records[e.key := data[e.start..e.end]];
      }
      pos := NextRecord(data, e.end);
    }
    if pos == |data| && records != map[] {
      return Ok(records);
    }
    return Err(EmptyOrTruncated);
  }
}

/** The writer of ZIP archives of stored entries (apps/server/src/wind-down-rehearsal.ts, lines
128-167), and a reader after PKWARE's APPNOTE.TXT, sections 4.3.7, 4.3.12, 4.3.16 and 4.4.4.

The writer fills fixed-size buffers field by field, as the source does.  A number that does not fit
its field is the source's range error.  The checksum is a parameter: any function of the bytes. */
module Zip {
  import opened Basics

  type uint32 = x: int | 0 <= x < 0x1_0000_0000

  datatype Entry = Entry(path: seq<byte>, bytes: seq<byte>)
  datatype Stored = Stored(path: seq<byte>, bytes: seq<byte>, crc: int)

  const U16_LIMIT := 0x1_0000
  const U32_LIMIT := 0x1_0000_0000

  const LOCAL_SIGNATURE := 0x04034b50
  const CENTRAL_SIGNATURE := 0x02014b50
  const END_SIGNATURE := 0x06054b50
  const VERSION := 20
  const UTF8_NAMES := 0x0800

  // ---------------------------------------------------------------- little-endian fields

  /** The `k`-th byte of a number, the lowest first. */
  function ByteOf(x: nat, k: nat): byte {
    if k == 0 then x % 256 else if k == 1 then x / 256 % 256
    else if k == 2 then x / 65536 % 256 else x / 16777216 % 256
  }

  function U16(b: seq<byte>, at: nat): nat
    requires at + 2 <= |b|
  {
    b[at] as int + 256 * b[at + 1] as int
  }

  function U32(b: seq<byte>, at: nat): nat
    requires at + 4 <= |b|
  {
    b[at] as int + 256 * b[at + 1] as int + 65536 * b[at + 2] as int + 16777216 * b[at + 3] as int
  }

  lemma BytesMakeU16(x: nat)
    requires x < U16_LIMIT
    ensures ByteOf(x, 0) as int + 256 * ByteOf(x, 1) as int == x
  {}

  lemma BytesMakeU32(x: nat)
    requires x < U32_LIMIT
    ensures ByteOf(x, 0) as int + 256 * ByteOf(x, 1) as int + 65536 * ByteOf(x, 2) as int +
            16777216 * ByteOf(x, 3) as int == x
  {
    assert x / 65536 == x / 256 / 256;
    assert x / 16777216 == x / 65536 / 256;
  }

  /** A field of a fixed-size record: its place, its width and its value. */
  datatype Field = Field(at: nat, width: nat, value: nat)

  predicate Covers(f: Field, i: nat) { f.at <= i < f.at + f.width }

  function Put(record: seq<byte>, f: Field): (r: seq<byte>)
    ensures |r| == |record|
  {
    seq(|record|, i requires 0 <= i < |record| => if Covers(f, i) then ByteOf(f.value, i - f.at) else record[i])
  }

  /** A zeroed record with some fields put in, one after another. */
  function Record(size: nat, fields: seq<Field>): (r: seq<byte>)
    ensures |r| == size
  {
    if fields == [] then seq(size, _ => 0)
    else Put(Record(size, fields[..|fields| - 1]), fields[|fields| - 1])
  }

  predicate Apart(f: Field, g: Field) {
    f.at + f.width <= g.at || g.at + g.width <= f.at
  }

  /** Fields of two or four bytes, inside the record, their values in range, none on another. */
  predicate Proper(size: nat, fields: seq<Field>) {
    && (forall k | 0 <= k < |fields| ::
          && (fields[k].width == 2 || fields[k].width == 4) && fields[k].at + fields[k].width <= size
          && fields[k].value < (if fields[k].width == 2 then U16_LIMIT else U32_LIMIT))
    && (forall j, k | 0 <= j < k < |fields| :: Apart(fields[j], fields[k]))
  }

  lemma {:induction false} FieldByte(size: nat, fields: seq<Field>, k: nat, i: nat)
    requires k < |fields| && Covers(fields[k], i) && i < size
    requires forall j | k < j < |fields| :: Apart(fields[k], fields[j])
    ensures Record(size, fields)[i] == ByteOf(fields[k].value, i - fields[k].at)
    decreases |fields|
  {
    if k < |fields| - 1 {
      FieldByte(size, fields[..|fields| - 1], k, i);
    }
  }

  /** Each field of a record reads back. */
  lemma FieldReads(size: nat, fields: seq<Field>, k: nat)
    requires Proper(size, fields) && k < |fields|
    ensures var f := fields[k];
      && (f.width == 2 ==> U16(Record(size, fields), f.at) == f.value)
      && (f.width == 4 ==> U32(Record(size, fields), f.at) == f.value)
  {
    var f := fields[k];
    FieldByte(size, fields, k, f.at);
    FieldByte(size, fields, k, f.at + 1);
    if f.width == 2 {
      BytesMakeU16(f.value);
    } else {
      FieldByte(size, fields, k, f.at + 2);
      FieldByte(size, fields, k, f.at + 3);
      BytesMakeU32(f.value);
    }
  }

  /** A place no field covers is zero. */
  lemma {:induction false} GapIsZero(size: nat, fields: seq<Field>, i: nat)
    requires i < size && forall k | 0 <= k < |fields| :: !Covers(fields[k], i)
    ensures Record(size, fields)[i] == 0
    decreases |fields|
  {
    if fields != [] { GapIsZero(size, fields[..|fields| - 1], i); }
  }

  // ---------------------------------------------------------------- the archive

  function LocalFields(crc: nat, size: nat, name: nat): seq<Field> {
    [Field(0, 4, LOCAL_SIGNATURE), Field(4, 2, VERSION), Field(6, 2, UTF8_NAMES), Field(14, 4, crc),
     Field(18, 4, size), Field(22, 4, size), Field(26, 2, name)]
  }

  function CentralFields(crc: nat, size: nat, name: nat, offset: nat): seq<Field> {
    [Field(0, 4, CENTRAL_SIGNATURE), Field(4, 2, VERSION), Field(6, 2, VERSION), Field(8, 2, UTF8_NAMES),
     Field(16, 4, crc), Field(20, 4, size), Field(24, 4, size), Field(28, 2, name), Field(42, 4, offset)]
  }

  function EndFields(count: nat, directory: nat, offset: nat): seq<Field> {
    [Field(0, 4, END_SIGNATURE), Field(8, 2, count), Field(10, 2, count), Field(12, 4, directory),
     Field(16, 4, offset)]
  }

  function Local(e: Entry, crc: seq<byte> -> uint32): seq<byte> {
    Record(30, LocalFields(crc(e.bytes), |e.bytes|, |e.path|)) + e.path + e.bytes
  }

  function Central(e: Entry, crc: seq<byte> -> uint32, offset: nat): seq<byte> {
    Record(46, CentralFields(crc(e.bytes), |e.bytes|, |e.path|, offset)) + e.path
  }

  /** `Buffer.concat`. */
  function Joined(pieces: seq<seq<byte>>): seq<byte> {
    if pieces == [] then [] else Joined(pieces[..|pieces| - 1]) + pieces[|pieces| - 1]
  }

  function Locals(es: seq<Entry>, crc: seq<byte> -> uint32): (pieces: seq<seq<byte>>)
    ensures |pieces| == |es|
  {
    seq(|es|, k requires 0 <= k < |es| => Local(es[k], crc))
  }

  /** Each central record names the place of its entry's local record. */
  function Centrals(es: seq<Entry>, crc: seq<byte> -> uint32): (pieces: seq<seq<byte>>)
    ensures |pieces| == |es|
  {
    seq(|es|, k requires 0 <= k < |es| => Central(es[k], crc, Offset(es, crc, k)))
  }

  function Offset(es: seq<Entry>, crc: seq<byte> -> uint32, k: nat): nat
    requires k <= |es|
  {
    |Joined(Locals(es, crc)[..k])|
  }

  function Archive(es: seq<Entry>, crc: seq<byte> -> uint32): seq<byte> {
    var locals, centrals := Joined(Locals(es, crc)), Joined(Centrals(es, crc));
    locals + centrals + Record(22, EndFields(|es|, |centrals|, |locals|))
  }

  predicate EntryFits(e: Entry, offset: nat) {
    |e.path| < U16_LIMIT && |e.bytes| < U32_LIMIT && offset < U32_LIMIT
  }

  predicate FitsAt(es: seq<Entry>, crc: seq<byte> -> uint32, k: nat)
    requires k < |es|
  {
    EntryFits(es[k], Offset(es, crc, k))
  }

  predicate FirstFit(es: seq<Entry>, crc: seq<byte> -> uint32, count: nat)
    requires count <= |es|
  {
    count == 0 || (FirstFit(es, crc, count - 1) && FitsAt(es, crc, count - 1))
  }

  lemma {:induction false} FirstFitEach(es: seq<Entry>, crc: seq<byte> -> uint32, count: nat)
    requires count <= |es|
    ensures FirstFit(es, crc, count) <==> forall k | 0 <= k < count :: FitsAt(es, crc, k)
  {
    if count > 0 {
      FirstFitEach(es, crc, count - 1);
      assert FirstFit(es, crc, count) ==> FitsAt(es, crc, count - 1);
    }
  }

  /** Every number fits its field. */
  predicate Fits(es: seq<Entry>, crc: seq<byte> -> uint32) {
    && FirstFit(es, crc, |es|)
    && |es| < U16_LIMIT && |Joined(Centrals(es, crc))| < U32_LIMIT && |Joined(Locals(es, crc))| < U32_LIMIT
  }

  // ---------------------------------------------------------------- the writer

  /** `writeUInt16LE` and `writeUInt32LE`: in place, or a range error. */
  method WriteField(buffer: array<byte>, f: Field) returns (ok: bool)
    requires (f.width == 2 || f.width == 4) && f.at + f.width <= buffer.Length
    modifies buffer
    ensures ok == (f.value < (if f.width == 2 then U16_LIMIT else U32_LIMIT))
    ensures buffer[..] == if ok then Put(old(buffer[..]), f) else old(buffer[..])
  {
    ok := f.value < (if f.width == 2 then U16_LIMIT else U32_LIMIT);
    if ok {
      buffer[f.at] := ByteOf(f.value, 0);
      buffer[f.at + 1] := ByteOf(f.value, 1);
      if f.width == 4 {
        buffer[f.at + 2] := ByteOf(f.value, 2);
        buffer[f.at + 3] := ByteOf(f.value, 3);
      }
    }
  }

  predicate InRange(fields: seq<Field>) {
    forall k | 0 <= k < |fields| :: fields[k].value < (if fields[k].width == 2 then U16_LIMIT else U32_LIMIT)
  }

  lemma OneMoreField(size: nat, fields: seq<Field>, k: nat)
    requires k < |fields|
    ensures Record(size, fields[..k + 1]) == Put(Record(size, fields[..k]), fields[k])
    ensures InRange(fields[..k + 1]) <==> InRange(fields[..k]) && InRange([fields[k]])
    ensures InRange(fields) ==> InRange(fields[..k + 1])
  {
    assert fields[..k + 1][..k] == fields[..k] && fields[..k + 1] == fields[..k] + [fields[k]];
  }

  /** A zeroed buffer, and its fields written one after another. */
  method WriteRecord(size: nat, fields: seq<Field>) returns (record: Option<seq<byte>>)
    requires forall k | 0 <= k < |fields| ::
      (fields[k].width == 2 || fields[k].width == 4) && fields[k].at + fields[k].width <= size
    ensures record.Some? == InRange(fields)
    ensures record.Some? ==> record.value == Record(size, fields)
  {
    var buffer := new byte[size](_ => 0);
    for k := 0 to |fields|
      invariant InRange(fields[..k])
      invariant buffer[..] == Record(size, fields[..k])
    {
      var ok := WriteField(buffer, fields[k]);
      OneMoreField(size, fields, k);
      if !ok { return None; }
    }
    assert fields[..|fields|] == fields;
    return Some(buffer[..]);
  }

  lemma FieldsInRange(e: Entry, crc: uint32, offset: nat)
    ensures (InRange(LocalFields(crc, |e.bytes|, |e.path|)) &&
             InRange(CentralFields(crc, |e.bytes|, |e.path|, offset))) <==> EntryFits(e, offset)
  {
    var c := CentralFields(crc, |e.bytes|, |e.path|, offset);
    assert c[5].value == |e.bytes| && c[7].value == |e.path| && c[8].value == offset;
  }

  lemma EndInRange(count: nat, directory: nat, offset: nat)
    ensures InRange(EndFields(count, directory, offset)) <==>
      count < U16_LIMIT && directory < U32_LIMIT && offset < U32_LIMIT
  {
    var f := EndFields(count, directory, offset);
    assert f[1].value == count && f[3].value == directory && f[4].value == offset;
  }

  /** One entry's local and central records, each with the name (and the local one with the bytes)
      after it. */
  method WriteEntry(es: seq<Entry>, k: nat, crc: seq<byte> -> uint32, offset: nat)
    returns (written: Option<(seq<byte>, seq<byte>)>)
    requires k < |es| && offset == Offset(es, crc, k)
    ensures written.Some? == EntryFits(es[k], offset)
    ensures written.Some? ==> written.value == (Locals(es, crc)[k], Centrals(es, crc)[k])
  {
    var e := es[k];
    FieldsInRange(e, crc(e.bytes), offset);
    var local := WriteRecord(30, LocalFields(crc(e.bytes), |e.bytes|, |e.path|));
    var central := WriteRecord(46, CentralFields(crc(e.bytes), |e.bytes|, |e.path|, offset));
    if local.None? || central.None? { return None; }
    return Some((local.value + e.path + e.bytes, central.value + e.path));
  }

  lemma JoinedMore(pieces: seq<seq<byte>>, k: nat)
    requires k < |pieces|
    ensures Joined(pieces[..k + 1]) == Joined(pieces[..k]) + pieces[k]
  {
    assert pieces[..k + 1][..k] == pieces[..k];
  }

  lemma JoinedAll(pieces: seq<seq<byte>>)
    ensures Joined(pieces[..|pieces|]) == Joined(pieces)
  {
    assert pieces[..|pieces|] == pieces;
  }

  /** What is written of the first `k` entries, and then of one more. */
  method AddEntry(es: seq<Entry>, k: nat, crc: seq<byte> -> uint32, locals: seq<byte>, centrals: seq<byte>, offset: nat)
    returns (added: Option<(seq<byte>, seq<byte>, nat)>)
    requires k < |es| && locals == Joined(Locals(es, crc)[..k]) && centrals == Joined(Centrals(es, crc)[..k])
    requires offset == |locals|
    ensures added.Some? == FitsAt(es, crc, k)
    ensures added.Some? ==> added.value.0 == Joined(Locals(es, crc)[..k + 1])
    ensures added.Some? ==> added.value.1 == Joined(Centrals(es, crc)[..k + 1]) && added.value.2 == |added.value.0|
  {
    var entry := WriteEntry(es, k, crc, offset);
    if entry.None? { return None; }
    JoinedMore(Locals(es, crc), k);
    JoinedMore(Centrals(es, crc), k);
    return Some((locals + entry.value.0, centrals + entry.value.1, offset + |entry.value.0|));
  }

  /** The local records of all entries, and the central ones. */
  method WriteEntries(es: seq<Entry>, crc: seq<byte> -> uint32)
    returns (written: Option<(seq<byte>, seq<byte>)>)
    ensures written.Some? == FirstFit(es, crc, |es|)
    ensures written.Some? ==> written.value == (Joined(Locals(es, crc)), Joined(Centrals(es, crc)))
  {
    var locals: seq<byte>, centrals: seq<byte> := [], [];
    var offset := 0;
    for k := 0 to |es|
      invariant locals == Joined(Locals(es, crc)[..k]) && centrals == Joined(Centrals(es, crc)[..k])
      invariant offset == |locals|
      invariant FirstFit(es, crc, k)
    {
      var added := AddEntry(es, k, crc, locals, centrals, offset);
      if added.None? {
        FirstFitEach(es, crc, |es|);
        return None;
      }
      locals, centrals, offset := added.value.0, added.value.1, added.value.2;
    }
    JoinedAll(Locals(es, crc));
    JoinedAll(Centrals(es, crc));
    return Some((locals, centrals));
  }

  /** The archive of some entries, or a range error. */
  method Write(es: seq<Entry>, crc: seq<byte> -> uint32) returns (archive: Option<seq<byte>>)
    ensures archive.Some? == Fits(es, crc)
    ensures archive.Some? ==> archive.value == Archive(es, crc)
  {
    var written := WriteEntries(es, crc);
    if written.None? { return None; }
    var (locals, centrals) := written.value;
    EndInRange(|es|, |centrals|, |locals|);
    var end := WriteRecord(22, EndFields(|es|, |centrals|, |locals|));
    if end.None? { return None; }
    return Some(locals + centrals + end.value);
  }

  // ---------------------------------------------------------------- a reader

  datatype EndHead = EndHead(count: nat, size: nat, start: nat)
  datatype CentralHead = CentralHead(crc: nat, packed: nat, size: nat, name: nat, extra: nat, comment: nat, offset: nat)
  datatype LocalHead = LocalHead(crc: nat, packed: nat, size: nat, name: nat, extra: nat)

  /** How the three kinds of header are read. */
  datatype Heads = Heads(end: seq<byte> -> Option<EndHead>, central: seq<byte> -> Option<CentralHead>,
                         local: seq<byte> -> Option<LocalHead>)

  /** Section 4.3.16: one disk, no comment. */
  function ReadEndHead(h: seq<byte>): Option<EndHead> {
    if |h| == 22 && U32(h, 0) == END_SIGNATURE && U16(h, 4) == 0 && U16(h, 6) == 0 &&
       U16(h, 8) == U16(h, 10) && U16(h, 20) == 0
    then Some(EndHead(U16(h, 10), U32(h, 12), U32(h, 16)))
    else None
  }

  /** Section 4.4.4: not encrypted (bit 0), the sizes in the header and not after the bytes (bit 3), and the
      name in UTF-8 (bit 11). */
  predicate Plain(flags: nat) {
    flags % 2 == 0 && flags / 8 % 2 == 0 && flags / 2048 % 2 == 1
  }

  /** Section 4.3.12: for a reader of version 2.0, stored, not compressed, on the first disk. */
  function ReadCentralHead(h: seq<byte>): Option<CentralHead> {
    if |h| == 46 && U32(h, 0) == CENTRAL_SIGNATURE && U16(h, 6) <= 20 && Plain(U16(h, 8)) && U16(h, 10) == 0 &&
       U16(h, 34) == 0
    then Some(CentralHead(U32(h, 16), U32(h, 20), U32(h, 24), U16(h, 28), U16(h, 30), U16(h, 32), U32(h, 42)))
    else None
  }

  /** Section 4.3.7: for a reader of version 2.0, stored, not compressed. */
  function ReadLocalHead(h: seq<byte>): Option<LocalHead> {
    if |h| == 30 && U32(h, 0) == LOCAL_SIGNATURE && U16(h, 4) <= 20 && Plain(U16(h, 6)) && U16(h, 8) == 0
    then Some(LocalHead(U32(h, 14), U32(h, 18), U32(h, 22), U16(h, 26), U16(h, 28)))
    else None
  }

  const HEADS := Heads(ReadEndHead, ReadCentralHead, ReadLocalHead)

  /** The entries of an archive. */
  function Read(b: seq<byte>): Option<seq<Stored>> {
    ReadWith(HEADS, b)
  }

  /** The end record is at the end, and the directory right before it. */
  function ReadWith(heads: Heads, b: seq<byte>): Option<seq<Stored>> {
    if |b| < 22 then None
    else
      var head := heads.end(b[|b| - 22..]);
      if head.None? || head.value.start + head.value.size != |b| - 22 then None
      else ReadAll((at: nat) => ReadCentral(heads, b, at, |b| - 22), head.value.start, |b| - 22, head.value.count)
  }

  /** So many records, one after another from `at`, and nothing else up to `end`. */
  function ReadAll(read: nat -> Option<(Stored, nat)>, at: nat, end: nat, count: nat): Option<seq<Stored>>
    decreases count
  {
    if count == 0 then (if at == end then Some([]) else None)
    else
      var one := read(at);
      if one.None? then None
      else
        var rest := ReadAll(read, one.value.1, end, count - 1);
        if rest.None? then None else Some([one.value.0] + rest.value)
  }

  /** One central record and the entry it names, and where the next central record is. */
  function ReadCentral(heads: Heads, b: seq<byte>, at: nat, end: int): Option<(Stored, nat)> {
    if at + 46 > end || end > |b| then None
    else
      var head := heads.central(b[at..at + 46]);
      if head.None? then None
      else
        var name := at + 46 + head.value.name;
        var next := name + head.value.extra + head.value.comment;
        if next > end then None
        else
          var entry := ReadLocal(heads, b, head.value, b[at + 46..name]);
          if entry.None? then None else Some((entry.value, next))
  }

  /** The local record that a central record names, which must agree with it; the name and the
      entry's bytes follow the header as they are. */
  function ReadLocal(heads: Heads, b: seq<byte>, central: CentralHead, name: seq<byte>): Option<Stored> {
    var at := central.offset + 30;
    if at > |b| then None
    else
      var head := heads.local(b[at - 30..at]);
      if head.None? then None
      else
        var middle := at + head.value.name;
        var start := middle + head.value.extra;
        if start + head.value.packed > |b| || head.value.packed != head.value.size ||
           head.value.packed != central.packed || head.value.size != central.size ||
           head.value.crc != central.crc || b[at..middle] != name
        then None
        else Some(Stored(name, b[start..start + head.value.packed], head.value.crc))
  }

  // ---------------------------------------------------------------- the round trip

  lemma ZeroAt(size: nat, fields: seq<Field>, place: nat)
    requires place + 2 <= size
    requires forall k | 0 <= k < |fields| :: !Covers(fields[k], place) && !Covers(fields[k], place + 1)
    ensures U16(Record(size, fields), place) == 0
  {
    GapIsZero(size, fields, place);
    GapIsZero(size, fields, place + 1);
  }

  lemma LocalProper(crc: uint32, size: nat, name: nat)
    requires size < U32_LIMIT && name < U16_LIMIT
    ensures Proper(30, LocalFields(crc, size, name))
  {}

  lemma LocalZeros(crc: uint32, size: nat, name: nat)
    ensures U16(Record(30, LocalFields(crc, size, name)), 8) == U16(Record(30, LocalFields(crc, size, name)), 28) == 0
  {
    ZeroAt(30, LocalFields(crc, size, name), 8);
    ZeroAt(30, LocalFields(crc, size, name), 28);
  }

  lemma LocalMarks(crc: uint32, size: nat, name: nat)
    requires size < U32_LIMIT && name < U16_LIMIT
    ensures var r := Record(30, LocalFields(crc, size, name));
      U32(r, 0) == LOCAL_SIGNATURE && U16(r, 4) == VERSION && U16(r, 6) == UTF8_NAMES
  {
    var f := LocalFields(crc, size, name);
    LocalProper(crc, size, name);
    FieldReads(30, f, 0);
    FieldReads(30, f, 1);
    FieldReads(30, f, 2);
  }

  lemma LocalNumbers(crc: uint32, size: nat, name: nat)
    requires size < U32_LIMIT && name < U16_LIMIT
    ensures var r := Record(30, LocalFields(crc, size, name));
      U32(r, 14) == crc && U32(r, 18) == U32(r, 22) == size && U16(r, 26) == name
  {
    var f := LocalFields(crc, size, name);
    LocalProper(crc, size, name);
    FieldReads(30, f, 3);
    FieldReads(30, f, 4);
    FieldReads(30, f, 5);
    FieldReads(30, f, 6);
  }

  lemma LocalHeadReads(crc: uint32, size: nat, name: nat)
    requires size < U32_LIMIT && name < U16_LIMIT
    ensures ReadLocalHead(Record(30, LocalFields(crc, size, name))) == Some(LocalHead(crc, size, size, name, 0))
  {
    LocalMarks(crc, size, name);
    LocalZeros(crc, size, name);
    LocalNumbers(crc, size, name);
  }

  lemma CentralProper(crc: uint32, size: nat, name: nat, offset: nat)
    requires size < U32_LIMIT && name < U16_LIMIT && offset < U32_LIMIT
    ensures Proper(46, CentralFields(crc, size, name, offset))
  {}

  lemma CentralZeros(crc: uint32, size: nat, name: nat, offset: nat)
    ensures var r := Record(46, CentralFields(crc, size, name, offset));
      U16(r, 10) == U16(r, 30) == U16(r, 32) == U16(r, 34) == 0
  {
    var f := CentralFields(crc, size, name, offset);
    ZeroAt(46, f, 10);
    ZeroAt(46, f, 30);
    ZeroAt(46, f, 32);
    ZeroAt(46, f, 34);
  }

  lemma CentralMarks(crc: uint32, size: nat, name: nat, offset: nat)
    requires size < U32_LIMIT && name < U16_LIMIT && offset < U32_LIMIT
    ensures var r := Record(46, CentralFields(crc, size, name, offset));
      U32(r, 0) == CENTRAL_SIGNATURE && U16(r, 6) == VERSION && U16(r, 8) == UTF8_NAMES
  {
    var f := CentralFields(crc, size, name, offset);
    CentralProper(crc, size, name, offset);
    FieldReads(46, f, 0);
    FieldReads(46, f, 2);
    FieldReads(46, f, 3);
  }

  lemma CentralNumbers(crc: uint32, size: nat, name: nat, offset: nat)
    requires size < U32_LIMIT && name < U16_LIMIT && offset < U32_LIMIT
    ensures var r := Record(46, CentralFields(crc, size, name, offset));
      U32(r, 16) == crc && U32(r, 20) == U32(r, 24) == size && U16(r, 28) == name && U32(r, 42) == offset
  {
    var f := CentralFields(crc, size, name, offset);
    CentralProper(crc, size, name, offset);
    FieldReads(46, f, 4);
    FieldReads(46, f, 5);
    FieldReads(46, f, 6);
    FieldReads(46, f, 7);
    FieldReads(46, f, 8);
  }

  lemma CentralHeadReads(crc: uint32, size: nat, name: nat, offset: nat)
    requires size < U32_LIMIT && name < U16_LIMIT && offset < U32_LIMIT
    ensures ReadCentralHead(Record(46, CentralFields(crc, size, name, offset))) ==
      Some(CentralHead(crc, size, size, name, 0, 0, offset))
  {
    CentralMarks(crc, size, name, offset);
    CentralZeros(crc, size, name, offset);
    CentralNumbers(crc, size, name, offset);
  }

  lemma EndHeadReads(count: nat, directory: nat, offset: nat)
    requires count < U16_LIMIT && directory < U32_LIMIT && offset < U32_LIMIT
    ensures ReadEndHead(Record(22, EndFields(count, directory, offset))) == Some(EndHead(count, directory, offset))
  {
    var f := EndFields(count, directory, offset);
    FieldReads(22, f, 0);
    FieldReads(22, f, 1);
    FieldReads(22, f, 2);
    FieldReads(22, f, 3);
    FieldReads(22, f, 4);
    ZeroAt(22, f, 4);
    ZeroAt(22, f, 6);
    ZeroAt(22, f, 20);
  }

  predicate Holds(b: seq<byte>, at: nat, piece: seq<byte>) {
    at + |piece| <= |b| && b[at..at + |piece|] == piece
  }

  lemma HoldsWithin(b: seq<byte>, at: nat, whole: seq<byte>, place: nat, piece: seq<byte>)
    requires Holds(b, at, whole) && Holds(whole, place, piece)
    ensures Holds(b, at + place, piece)
  {
    assert forall i | at <= i < at + |whole| :: b[i] == b[at..at + |whole|][i - at];
    assert forall i | place <= i < place + |piece| :: whole[i] == whole[place..place + |piece|][i - place];
  }

  lemma Parts(x: seq<byte>, y: seq<byte>, z: seq<byte>)
    ensures Holds(x + y + z, 0, x) && Holds(x + y + z, |x|, y) && (x + y + z)[|x| + |y|..] == z
  {}

  lemma HoldsParts(b: seq<byte>, at: nat, x: seq<byte>, y: seq<byte>, z: seq<byte>)
    requires Holds(b, at, x + y + z)
    ensures Holds(b, at, x) && Holds(b, at + |x|, y) && Holds(b, at + |x| + |y|, z)
  {
    Parts(x, y, z);
    HoldsWithin(b, at, x + y + z, 0, x);
    HoldsWithin(b, at, x + y + z, |x|, y);
    HoldsWithin(b, at, x + y + z, |x| + |y|, z);
  }

  /** A local record reads back, for the central record that agrees with it. */
  lemma LocalReads(heads: Heads, b: seq<byte>, at: nat, r: seq<byte>, e: Stored)
    requires |r| == 30 && Holds(b, at, r + e.path + e.bytes) && e.crc >= 0
    requires heads.local(r) == Some(LocalHead(e.crc, |e.bytes|, |e.bytes|, |e.path|, 0))
    ensures ReadLocal(heads, b, CentralHead(e.crc, |e.bytes|, |e.bytes|, |e.path|, 0, 0, at), e.path) == Some(e)
  {
    HoldsParts(b, at, r, e.path, e.bytes);
  }

  /** A central record reads back, and its entry with it. */
  lemma CentralReads(heads: Heads, b: seq<byte>, at: nat, end: nat, r: seq<byte>, head: CentralHead, e: Stored)
    requires at + 46 + |e.path| <= end <= |b| && |r| == 46 && Holds(b, at, r + e.path)
    requires heads.central(r) == Some(head) && head.name == |e.path| && head.extra == 0 && head.comment == 0
    requires ReadLocal(heads, b, head, e.path) == Some(e)
    ensures ReadCentral(heads, b, at, end) == Some((e, at + 46 + |e.path|))
  {
    assert r + e.path + [] == r + e.path;
    HoldsParts(b, at, r, e.path, []);
  }

  /** Where the `k`-th piece is among all of them. */
  lemma {:induction false} PieceOf(pieces: seq<seq<byte>>, k: nat)
    requires k < |pieces|
    ensures Holds(Joined(pieces), |Joined(pieces[..k])|, pieces[k])
    ensures |Joined(pieces[..k + 1])| == |Joined(pieces[..k])| + |pieces[k]| <= |Joined(pieces)|
    decreases |pieces|
  {
    JoinedMore(pieces, k);
    if k < |pieces| - 1 {
      var front := pieces[..|pieces| - 1];
      PieceOf(front, k);
      assert front[..k] == pieces[..k] && front[..k + 1] == pieces[..k + 1];
      assert Joined(pieces)[..|Joined(front)|] == Joined(front);
      HoldsWithin(Joined(pieces), 0, Joined(front), |Joined(front[..k])|, pieces[k]);
    }
  }

  lemma PieceIn(b: seq<byte>, start: nat, pieces: seq<seq<byte>>, k: nat)
    requires k < |pieces| && Holds(b, start, Joined(pieces))
    ensures Holds(b, start + |Joined(pieces[..k])|, pieces[k])
    ensures |Joined(pieces[..k + 1])| == |Joined(pieces[..k])| + |pieces[k]| <= |Joined(pieces)|
  {
    PieceOf(pieces, k);
    HoldsWithin(b, start, Joined(pieces), |Joined(pieces[..k])|, pieces[k]);
  }

  /** What a reader is to find. */
  function Kept(es: seq<Entry>, crc: seq<byte> -> uint32): seq<Stored> {
    seq(|es|, k requires 0 <= k < |es| => Stored(es[k].path, es[k].bytes, crc(es[k].bytes)))
  }

  /** A way of reading one record finds the `k`-th entry, and then the next place. */
  predicate Finds(read: nat -> Option<(Stored, nat)>, start: nat, pieces: seq<seq<byte>>, kept: seq<Stored>, k: nat)
    requires k < |pieces| == |kept|
  {
    var next: nat := start + |Joined(pieces[..k + 1])|;
    read(start + |Joined(pieces[..k])|) == Some((kept[k], next))
  }

  /** The two records of an entry, and that their headers say what they should. */
  ghost predicate Recorded(heads: Heads, e: Stored, offset: nat, local: seq<byte>, central: seq<byte>)
    requires e.crc >= 0
  {
    && 30 <= |local| && local == local[..30] + e.path + e.bytes
    && 46 <= |central| && central == central[..46] + e.path
    && heads.local(local[..30]) == Some(LocalHead(e.crc, |e.bytes|, |e.bytes|, |e.path|, 0))
    && heads.central(central[..46]) == Some(CentralHead(e.crc, |e.bytes|, |e.bytes|, |e.path|, 0, 0, offset))
  }

  ghost predicate RecordedAt(heads: Heads, kept: seq<Stored>, ls: seq<seq<byte>>, cs: seq<seq<byte>>, k: nat)
    requires k < |kept| == |ls| == |cs|
  {
    kept[k].crc >= 0 && Recorded(heads, kept[k], |Joined(ls[..k])|, ls[k], cs[k])
  }

  lemma EntryRecorded(e: Entry, crc: seq<byte> -> uint32, offset: nat)
    requires EntryFits(e, offset)
    ensures Recorded(HEADS, Stored(e.path, e.bytes, crc(e.bytes)), offset,
                     Local(e, crc), Central(e, crc, offset))
  {
    var c := crc(e.bytes);
    var local := Record(30, LocalFields(c, |e.bytes|, |e.path|));
    var central := Record(46, CentralFields(c, |e.bytes|, |e.path|, offset));
    CentralHeadReads(c, |e.bytes|, |e.path|, offset);
    LocalHeadReads(c, |e.bytes|, |e.path|);
    assert (local + e.path + e.bytes)[..30] == local && (central + e.path)[..46] == central;
  }

  lemma EntryReads(heads: Heads, b: seq<byte>, e: Stored, offset: nat, at: nat, local: seq<byte>, central: seq<byte>,
                   end: nat)
    requires e.crc >= 0 && Recorded(heads, e, offset, local, central)
    requires Holds(b, offset, local) && Holds(b, at, central) && at + |central| <= end <= |b|
    ensures ReadCentral(heads, b, at, end) == Some((e, at + |central|))
  {
    LocalReads(heads, b, offset, local[..30], e);
    CentralReads(heads, b, at, end, central[..46], CentralHead(e.crc, |e.bytes|, |e.bytes|, |e.path|, 0, 0, offset), e);
  }

  lemma EntryFound(heads: Heads, b: seq<byte>, local: seq<byte>, offset: nat, start: nat, cs: seq<seq<byte>>,
                   kept: seq<Stored>, end: nat, k: nat)
    requires k < |cs| == |kept| && kept[k].crc >= 0 && Recorded(heads, kept[k], offset, local, cs[k])
    requires Holds(b, offset, local) && Holds(b, start + |Joined(cs[..k])|, cs[k]) && end <= |b|
    requires start + |Joined(cs[..k + 1])| == start + |Joined(cs[..k])| + |cs[k]| <= end
    ensures Finds((at: nat) => ReadCentral(heads, b, at, end), start, cs, kept, k)
  {
    EntryReads(heads, b, kept[k], offset, start + |Joined(cs[..k])|, local, cs[k], end);
  }

  /** From the `k`-th record on, the rest of the entries are read. */
  lemma {:induction false} RestReads(read: nat -> Option<(Stored, nat)>, start: nat, pieces: seq<seq<byte>>,
                                     kept: seq<Stored>, k: nat)
    requires k <= |pieces| == |kept| && forall j | 0 <= j < |pieces| :: Finds(read, start, pieces, kept, j)
    ensures ReadAll(read, start + |Joined(pieces[..k])|, start + |Joined(pieces)|, |pieces| - k) == Some(kept[k..])
    decreases |pieces| - k
  {
    if k == |pieces| {
      assert pieces[..k] == pieces;
    } else {
      RestReads(read, start, pieces, kept, k + 1);
      assert Finds(read, start, pieces, kept, k);
      assert kept[k..] == [kept[k]] + kept[k + 1..];
    }
  }

  lemma DirectoryReads(heads: Heads, b: seq<byte>, ls: seq<seq<byte>>, cs: seq<seq<byte>>, kept: seq<Stored>, end: nat)
    requires Holds(b, 0, Joined(ls)) && Holds(b, |Joined(ls)|, Joined(cs)) && end == |Joined(ls)| + |Joined(cs)|
    requires |ls| == |cs| == |kept| && forall k | 0 <= k < |kept| :: RecordedAt(heads, kept, ls, cs, k)
    ensures ReadAll((at: nat) => ReadCentral(heads, b, at, end), |Joined(ls)|, end, |kept|) == Some(kept)
  {
    var read := (at: nat) => ReadCentral(heads, b, at, end);
    forall k: nat | k < |kept|
      ensures Finds(read, |Joined(ls)|, cs, kept, k)
    {
      assert RecordedAt(heads, kept, ls, cs, k);
      PieceIn(b, 0, ls, k);
      PieceIn(b, |Joined(ls)|, cs, k);
      EntryFound(heads, b, ls[k], |Joined(ls[..k])|, |Joined(ls)|, cs, kept, end, k);
    }
    RestReads(read, |Joined(ls)|, cs, kept, 0);
  }

  lemma ReadsAfterEnd(heads: Heads, b: seq<byte>, end: nat, head: EndHead)
    requires |b| == end + 22 && heads.end(b[end..]) == Some(head) && head.start + head.size == end
    ensures ReadWith(heads, b) ==
      ReadAll((at: nat) => ReadCentral(heads, b, at, end), head.start, end, head.count)
  {}

  lemma ArchiveReads(heads: Heads, ls: seq<seq<byte>>, cs: seq<seq<byte>>, end: seq<byte>, kept: seq<Stored>)
    requires |ls| == |cs| == |kept| && forall k | 0 <= k < |kept| :: RecordedAt(heads, kept, ls, cs, k)
    requires |end| == 22 && heads.end(end) == Some(EndHead(|kept|, |Joined(cs)|, |Joined(ls)|))
    ensures ReadWith(heads, Joined(ls) + Joined(cs) + end) == Some(kept)
  {
    var b := Joined(ls) + Joined(cs) + end;
    Parts(Joined(ls), Joined(cs), end);
    var place := |Joined(ls)| + |Joined(cs)|;
    DirectoryReads(heads, b, ls, cs, kept, place);
    ReadsAfterEnd(heads, b, place, EndHead(|kept|, |Joined(cs)|, |Joined(ls)|));
  }

  lemma AllRecorded(es: seq<Entry>, crc: seq<byte> -> uint32, k: nat)
    requires k < |es| && FitsAt(es, crc, k)
    ensures RecordedAt(HEADS, Kept(es, crc), Locals(es, crc), Centrals(es, crc), k)
  {
    EntryRecorded(es[k], crc, Offset(es, crc, k));
  }

  /** Every archive that is written reads back as its entries, in order, each with its checksum. */
  lemma RoundTrip(es: seq<Entry>, crc: seq<byte> -> uint32)
    requires Fits(es, crc)
    ensures Read(Archive(es, crc)) == Some(Kept(es, crc))
  {
    var ls, cs, kept := Locals(es, crc), Centrals(es, crc), Kept(es, crc);
    FirstFitEach(es, crc, |es|);
    forall k | 0 <= k < |kept|
      ensures RecordedAt(HEADS, kept, ls, cs, k)
    {
      AllRecorded(es, crc, k);
    }
    EndHeadReads(|es|, |Joined(cs)|, |Joined(ls)|);
    ArchiveReads(HEADS, ls, cs, Record(22, EndFields(|es|, |Joined(cs)|, |Joined(ls)|)), kept);
  }
}

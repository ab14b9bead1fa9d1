/** Framed binary records (orbit/base/recordio.h, orbit/base/recordio.cc). A record
    is a 4-byte magic number, two 8-byte sizes and the payload, all little-endian;
    the payload stands for the serialized protocol buffer. Compression is a pair of
    functions, because zlib is not part of this model. */
module RecordIO {
  import opened Common

  type byte = x: int | 0 <= x < 256

  const MAGIC := 0x3ed7230a
  const SIZE_LIMIT := 0x1_0000_0000_0000_0000
  const HEADER := 20

  datatype Codec = Codec(
    compress: seq<byte> -> seq<byte>,
    uncompress: (seq<byte>, nat) -> seq<byte>)

  datatype Record = Record(payload: seq<byte>, compressed: bool)

  // ---------------------------------------------------------------- integers

  function Little(n: nat, width: nat): (r: seq<byte>)
    ensures |r| == width
  {
    if width == 0 then [] else [n % 256] + Little(n / 256, width - 1)
  }

  function Value(bytes: seq<byte>): nat {
    if bytes == [] then 0 else bytes[0] + 256 * Value(bytes[1..])
  }

  function Pow256(n: nat): nat {
    if n == 0 then 1 else 256 * Pow256(n - 1)
  }

  lemma {:induction false} ValueOfLittle(n: nat, width: nat)
    requires n < Pow256(width)
    ensures Value(Little(n, width)) == n
  {
    if width > 0 {
      ValueOfLittle(n / 256, width - 1);
      assert Little(n, width)[1..] == Little(n / 256, width - 1);
    }
  }

  lemma Widths()
    ensures MAGIC < Pow256(4) && Pow256(8) == SIZE_LIMIT
  {
    assert Pow256(4) == 0x1_0000_0000;
    assert Pow256(6) == 0x1_0000_0000_0000;
  }

  // ---------------------------------------------------------------- framing

  predicate Fits(codec: Codec, r: Record) {
    |r.payload| < SIZE_LIMIT && |codec.compress(r.payload)| < SIZE_LIMIT
  }

  /** What WriteProtocolMessage writes: the stored size is that of the compressed
      text, or 0 when compression is off. */
  function Frame(codec: Codec, r: Record): seq<byte> {
    Concat4(Little(MAGIC, 4), Little(|r.payload|, 8), Little(StoredSize(codec, r), 8), Text(codec, r))
  }

  /** Eight bytes, the lowest first. */
  function Eight(n: nat): (r: seq<byte>)
    ensures |r| == 8
  {
    [n % 256, n / 256 % 256, n / 256 / 256 % 256, n / 256 / 256 / 256 % 256, n / 256 / 256 / 256 / 256 % 256,
     n / 256 / 256 / 256 / 256 / 256 % 256, n / 256 / 256 / 256 / 256 / 256 / 256 % 256,
     n / 256 / 256 / 256 / 256 / 256 / 256 / 256 % 256]
  }

  lemma LittleIsEight(n: nat)
    ensures Little(n, 8) == Eight(n)
  {
    hide Little;
    var a := n / 256 / 256 / 256 / 256;
    LittleStep(n, 8);
    LittleStep(n / 256, 7);
    LittleStep(n / 256 / 256, 6);
    LittleStep(n / 256 / 256 / 256, 5);
    LittleStep(a, 4);
    LittleStep(a / 256, 3);
    LittleStep(a / 256 / 256, 2);
    LittleStep(a / 256 / 256 / 256, 1);
    assert Little(a / 256 / 256 / 256 / 256, 0) == [];
  }

  lemma LittleStep(n: nat, width: nat)
    requires width > 0
    ensures Little(n, width) == [n % 256] + Little(n / 256, width - 1)
  {}

  /** The bytes of a frame: the magic number, the size of the payload, the size of the
      compressed text or 0, and the text. */
  lemma FrameBytes(codec: Codec, r: Record)
    ensures
      Frame(codec, r)
      == [0x0a, 0x23, 0xd7, 0x3e] + Eight(|r.payload|)
         + (if r.compressed then Eight(|codec.compress(r.payload)|) + codec.compress(r.payload)
            else Eight(0) + r.payload)
  {
    hide Eight;
    LittleIsEight(|r.payload|);
    LittleIsEight(StoredSize(codec, r));
    MagicBytes();
  }

  lemma MagicBytes()
    ensures Little(MAGIC, 4) == [0x0a, 0x23, 0xd7, 0x3e]
  {
    LittleStep(0x3ed7230a, 4);
    LittleStep(0x3ed723, 3);
    LittleStep(0x3ed7, 2);
    LittleStep(0x3e, 1);
    assert Little(0, 0) == [];
  }

  function Concat4(a: seq<byte>, b: seq<byte>, c: seq<byte>, d: seq<byte>): seq<byte> {
    a + b + c + d
  }

  function Text(codec: Codec, r: Record): seq<byte> {
    if r.compressed then codec.compress(r.payload) else r.payload
  }

  function StoredSize(codec: Codec, r: Record): nat {
    if r.compressed then |codec.compress(r.payload)| else 0
  }

  function Stream(codec: Codec, rs: seq<Record>): seq<byte> {
    if rs == [] then [] else Frame(codec, rs[0]) + Stream(codec, rs[1..])
  }

  /** One ReadProtocolMessage at pos: the payload and the next position, or None
      when it returns false. */
  function ReadAt(codec: Codec, bytes: seq<byte>, pos: nat): Option<(seq<byte>, nat)>
    requires pos <= |bytes|
  {
    if |bytes| - pos < HEADER then None
    else if Value(bytes[pos..pos + 4]) != MAGIC then None
    else
      var usize := Value(bytes[pos + 4..pos + 12]);
      var csize := Value(bytes[pos + 12..pos + HEADER]);
      var size := if csize != 0 then csize else usize;
      if |bytes| - pos - HEADER < size then None
      else
        var text := bytes[pos + HEADER..pos + HEADER + size];
        Some((if csize != 0 then codec.uncompress(text, usize) else text, pos + HEADER + size))
  }

  /** Reading until the first false. */
  function ReadAll(codec: Codec, bytes: seq<byte>, pos: nat): seq<seq<byte>>
    requires pos <= |bytes|
    decreases |bytes| - pos
  {
    var r := ReadAt(codec, bytes, pos);
    if r.None? then [] else [r.value.0] + ReadAll(codec, bytes, r.value.1)
  }

  /** How many of the records lie wholly inside the first n bytes. */
  function Whole(codec: Codec, rs: seq<Record>, n: nat): (k: nat)
    ensures k <= |rs|
  {
    if rs == [] || n < |Frame(codec, rs[0])| then 0
    else 1 + Whole(codec, rs[1..], n - |Frame(codec, rs[0])|)
  }

  function Payloads(rs: seq<Record>): seq<seq<byte>> {
    seq(|rs|, i requires 0 <= i < |rs| => rs[i].payload)
  }

  /** zlib's law on the records at hand: what was compressed comes back, and
      compressed text is never empty. */
  ghost predicate Lawful(codec: Codec, rs: seq<Record>) {
    forall r :: r in rs ==>
      && Fits(codec, r)
      && (r.compressed ==> codec.compress(r.payload) != [])
      && (r.compressed ==> codec.uncompress(codec.compress(r.payload), |r.payload|) == r.payload)
  }

  // ---------------------------------------------------------------- any bytes

  lemma LowByte(low: byte, rest: nat)
    ensures (low + 256 * rest) % 256 == low && (low + 256 * rest) / 256 == rest
  {}

  lemma {:induction false} LittleOfValue(bytes: seq<byte>)
    ensures Little(Value(bytes), |bytes|) == bytes
    decreases |bytes|
  {
    if bytes != [] {
      LittleOfValue(bytes[1..]);
      LowByte(bytes[0], Value(bytes[1..]));
      hide Little;
      LittleStep(Value(bytes), |bytes|);
      assert bytes == [bytes[0]] + bytes[1..];
    }
  }

  lemma MagicOnly(head: seq<byte>)
    requires |head| == 4
    ensures Value(head) == MAGIC <==> head == [0x0a, 0x23, 0xd7, 0x3e]
  {
    LittleOfValue(head);
    MagicBytes();
    Widths();
    ValueOfLittle(MAGIC, 4);
  }

  /** What any twenty bytes and the text behind them are read as: nothing without the magic
      number or with less text than the sizes say. */
  lemma ReadsBytes(codec: Codec, head: seq<byte>, usize: nat, csize: nat, text: seq<byte>)
    requires |head| == 4 && usize < SIZE_LIMIT && csize < SIZE_LIMIT
    ensures
      var size := if csize == 0 then usize else csize;
      ReadAt(codec, head + Eight(usize) + Eight(csize) + text, 0)
      == if head != [0x0a, 0x23, 0xd7, 0x3e] || |text| < size then None
         else Some((if csize == 0 then text[..size] else codec.uncompress(text[..size], usize), 20 + size))
  {
    hide Eight, Value;
    var bytes := head + Eight(usize) + Eight(csize) + text;
    assert bytes[0..4] == head;
    assert bytes[4..12] == Eight(usize);
    assert bytes[12..20] == Eight(csize);
    MagicOnly(head);
    LittleIsEight(usize);
    LittleIsEight(csize);
    Widths();
    ValueOfLittle(usize, 8);
    ValueOfLittle(csize, 8);
    var size := if csize == 0 then usize else csize;
    if |text| >= size {
      assert bytes[20..20 + size] == text[..size];
    }
  }

  /** With fewer bytes nothing is read. */
  lemma ReadsNothing(codec: Codec, bytes: seq<byte>)
    requires |bytes| < 20
    ensures ReadAt(codec, bytes, 0).None? && ReadAll(codec, bytes, 0) == []
  {}

  // ---------------------------------------------------------------- round trip

  lemma Slices(a: seq<byte>, b: seq<byte>, c: seq<byte>, d: seq<byte>, bytes: seq<byte>)
    requires |a| == 4 && |b| == 8 && |c| == 8 && Concat4(a, b, c, d) <= bytes
    ensures bytes[0..4] == a && bytes[4..12] == b && bytes[12..HEADER] == c
    ensures bytes[HEADER..HEADER + |d|] == d
  {
    var f := Concat4(a, b, c, d);
    assert bytes[..|f|] == f;
  }

  lemma HeaderFields(codec: Codec, r: Record, bytes: seq<byte>)
    requires Fits(codec, r) && Frame(codec, r) <= bytes
    ensures |Frame(codec, r)| == HEADER + |Text(codec, r)|
    ensures Value(bytes[0..4]) == MAGIC
    ensures Value(bytes[4..12]) == |r.payload|
    ensures Value(bytes[12..HEADER]) == StoredSize(codec, r)
    ensures bytes[HEADER..HEADER + |Text(codec, r)|] == Text(codec, r)
  {
    Widths();
    ValueOfLittle(MAGIC, 4);
    ValueOfLittle(|r.payload|, 8);
    ValueOfLittle(StoredSize(codec, r), 8);
    Slices(Little(MAGIC, 4), Little(|r.payload|, 8), Little(StoredSize(codec, r), 8), Text(codec, r), bytes);
  }

  /** A record that is wholly there is read back, whatever follows it. */
  lemma ReadFrame(codec: Codec, r: Record, bytes: seq<byte>)
    requires Lawful(codec, [r]) && Frame(codec, r) <= bytes
    ensures ReadAt(codec, bytes, 0) == Some((r.payload, |Frame(codec, r)|))
  {
    assert r in [r];
    HeaderFields(codec, r, bytes);
  }

  /** A record that is cut short is not read. */
  lemma ReadTruncated(codec: Codec, r: Record, bytes: seq<byte>)
    requires Lawful(codec, [r]) && bytes < Frame(codec, r)
    ensures ReadAt(codec, bytes, 0).None?
  {
    assert r in [r];
    if |bytes| >= HEADER {
      var f := Frame(codec, r);
      HeaderFields(codec, r, f);
      assert bytes == f[..|bytes|];
      assert bytes[4..12] == f[4..12];
      assert bytes[12..HEADER] == f[12..HEADER];
    }
  }

  /** Reading only looks ahead. */
  lemma ReadAtShift(codec: Codec, bytes: seq<byte>, skip: nat, pos: nat)
    requires skip + pos <= |bytes|
    ensures
      var a, b := ReadAt(codec, bytes, skip + pos), ReadAt(codec, bytes[skip..], pos);
      (a.None? <==> b.None?) && (a.Some? ==> a.value.0 == b.value.0 && a.value.1 == skip + b.value.1)
  {
    var tail := bytes[skip..];
    if |tail| - pos >= HEADER {
      assert tail[pos..pos + 4] == bytes[skip + pos..skip + pos + 4];
      assert tail[pos + 4..pos + 12] == bytes[skip + pos + 4..skip + pos + 12];
      assert tail[pos + 12..pos + HEADER] == bytes[skip + pos + 12..skip + pos + HEADER];
      var usize := Value(tail[pos + 4..pos + 12]);
      var csize := Value(tail[pos + 12..pos + HEADER]);
      var size := if csize != 0 then csize else usize;
      if |tail| - pos - HEADER >= size {
        assert tail[pos + HEADER..pos + HEADER + size] == bytes[skip + pos + HEADER..skip + pos + HEADER + size];
      }
    }
  }

  lemma {:induction false} ReadAllShift(codec: Codec, bytes: seq<byte>, skip: nat, pos: nat)
    requires skip + pos <= |bytes|
    ensures ReadAll(codec, bytes, skip + pos) == ReadAll(codec, bytes[skip..], pos)
    decreases |bytes| - pos
  {
    ReadAtShift(codec, bytes, skip, pos);
    var r := ReadAt(codec, bytes[skip..], pos);
    if r.Some? {
      ReadAllShift(codec, bytes, skip, r.value.1);
    }
  }

  lemma FirstRead(codec: Codec, r: Record, rest: seq<byte>)
    requires Lawful(codec, [r])
    ensures ReadAll(codec, Frame(codec, r) + rest, 0) == [r.payload] + ReadAll(codec, rest, 0)
  {
    var f := Frame(codec, r);
    var bytes := f + rest;
    ReadFrame(codec, r, bytes);
    ReadAllShift(codec, bytes, |f|, 0);
    assert bytes[|f|..] == rest;
  }

  lemma FirstPayload(rs: seq<Record>, k: nat)
    requires rs != [] && k < |rs|
    ensures Payloads(rs[..k + 1]) == [rs[0].payload] + Payloads(rs[1..][..k])
  {
    assert rs[..k + 1] == [rs[0]] + rs[1..][..k];
  }

  lemma PrefixStep(codec: Codec, rs: seq<Record>, n: nat)
    requires rs != [] && Lawful(codec, rs) && |Frame(codec, rs[0])| <= n <= |Stream(codec, rs)|
    requires
      var m := n - |Frame(codec, rs[0])|;
      ReadAll(codec, Stream(codec, rs[1..])[..m], 0) == Payloads(rs[1..][..Whole(codec, rs[1..], m)])
    ensures ReadAll(codec, Stream(codec, rs)[..n], 0) == Payloads(rs[..Whole(codec, rs, n)])
  {
    hide ReadAll, Payloads, Frame;
    var f, rest := Frame(codec, rs[0]), Stream(codec, rs[1..]);
    assert Lawful(codec, [rs[0]]) by { assert rs[0] in rs; }
    assert Stream(codec, rs)[..n] == f + rest[..n - |f|];
    FirstRead(codec, rs[0], rest[..n - |f|]);
    FirstPayload(rs, Whole(codec, rs[1..], n - |f|));
  }

  lemma PrefixWithin(codec: Codec, rs: seq<Record>, n: nat)
    requires Lawful(codec, rs) && n <= |Stream(codec, rs)|
    requires rs == [] || n < |Frame(codec, rs[0])|
    ensures ReadAll(codec, Stream(codec, rs)[..n], 0) == Payloads(rs[..Whole(codec, rs, n)])
  {
    hide Frame;
    var bytes := Stream(codec, rs)[..n];
    if rs == [] {
      assert bytes == [];
    } else {
      assert Lawful(codec, [rs[0]]) by { assert rs[0] in rs; }
      assert bytes == Frame(codec, rs[0])[..n];
      ReadTruncated(codec, rs[0], bytes);
    }
  }

  lemma StreamStep(codec: Codec, rs: seq<Record>)
    requires rs != [] && Lawful(codec, rs)
    ensures Lawful(codec, rs[1..]) && |Stream(codec, rs)| == |Frame(codec, rs[0])| + |Stream(codec, rs[1..])|
  {
    hide Frame;
    assert forall r :: r in rs[1..] ==> r in rs;
  }

  /** The main law: reading any prefix of a file of records, compressed or not in
      any mix, gives exactly the records wholly inside it. */
  lemma {:induction false} PrefixReadsWholeRecords(codec: Codec, rs: seq<Record>, n: nat)
    requires Lawful(codec, rs) && n <= |Stream(codec, rs)|
    ensures ReadAll(codec, Stream(codec, rs)[..n], 0) == Payloads(rs[..Whole(codec, rs, n)])
  {
    hide ReadAll, Payloads, Frame, Stream, Whole, Lawful;
    if rs == [] || n < |Frame(codec, rs[0])| {
      PrefixWithin(codec, rs, n);
    } else {
      StreamStep(codec, rs);
      PrefixReadsWholeRecords(codec, rs[1..], n - |Frame(codec, rs[0])|);
      PrefixStep(codec, rs, n);
    }
  }

  lemma {:induction false} AllWhole(codec: Codec, rs: seq<Record>)
    ensures Whole(codec, rs, |Stream(codec, rs)|) == |rs|
  {
    if rs != [] {
      AllWhole(codec, rs[1..]);
    }
  }

  /** Round trip of the whole file. */
  lemma RoundTrip(codec: Codec, rs: seq<Record>)
    requires Lawful(codec, rs)
    ensures ReadAll(codec, Stream(codec, rs), 0) == Payloads(rs)
  {
    var bytes := Stream(codec, rs);
    AllWhole(codec, rs);
    PrefixReadsWholeRecords(codec, rs, |bytes|);
    assert bytes[..|bytes|] == bytes && rs[..|rs|] == rs;
  }

  /** Why compressed text must not be empty: size 0 is the mark for "not compressed".
      A lone compressed record comes back exactly if its text is not empty (or the
      payload is). */
  lemma EmptyCompressedText(codec: Codec, payload: seq<byte>)
    requires Fits(codec, Record(payload, true))
    requires codec.uncompress(codec.compress(payload), |payload|) == payload
    ensures ReadAll(codec, Frame(codec, Record(payload, true)), 0) == [payload]
      <==> codec.compress(payload) != [] || payload == []
  {
    var r := Record(payload, true);
    var f := Frame(codec, r);
    HeaderFields(codec, r, f);
    if codec.compress(payload) != [] {
      assert Lawful(codec, [r]);
      assert Stream(codec, [r]) == f + Stream(codec, []) == f by { assert [r][1..] == []; }
      RoundTrip(codec, [r]);
      assert Payloads([r]) == [payload];
    } else if payload == [] {
      assert ReadAt(codec, f, 0) == Some(([], HEADER));
      assert ReadAt(codec, f, HEADER).None?;
      assert ReadAll(codec, f, HEADER) == [];
    } else {
      assert ReadAt(codec, f, 0).None?;
    }
  }

  // ---------------------------------------------------------------- the code

  /** A file with a position; it can hold only so many bytes, so writes may be short. */
  class File {
    var content: seq<byte>
    var pos: nat
    var capacity: nat

    ghost predicate Valid()
      reads this
    {
      pos <= |content| <= capacity
    }

    constructor (bytes: seq<byte>, limit: nat)
      requires |bytes| <= limit
      ensures Valid() && content == bytes && pos == 0 && capacity == limit
    {
      content, pos, capacity := bytes, 0, limit;
    }

    method Write(bytes: seq<byte>) returns (n: nat)
      requires Valid()
      modifies this`content
      ensures Valid() && n <= |bytes| && content == old(content) + bytes[..n]
      ensures n == |bytes| <==> |old(content)| + |bytes| <= capacity
    {
      n := if |bytes| <= capacity - |content| then |bytes| else capacity - |content|;
      content := content + bytes[..n];
    }

    method Read(size: nat) returns (bytes: seq<byte>)
      requires Valid()
      modifies this`pos
      ensures Valid()
      ensures pos == if size <= |content| - old(pos) then old(pos) + size else |content|
      ensures bytes == content[old(pos)..pos]
    {
      var end := if size <= |content| - pos then pos + size else |content|;
      bytes := content[pos..end];
      pos := end;
    }
  }

  class RecordWriter {
    const file: File
    const codec: Codec
    var useCompression: bool

    constructor (f: File, c: Codec)
      ensures file == f && codec == c && useCompression
    {
      file, codec, useCompression := f, c, true;
    }

    method SetUseCompression(b: bool)
      modifies this
      ensures useCompression == b
    {
      useCompression := b;
    }

    /** False leaves part of the record in the file. */
    method WriteProtocolMessage(payload: seq<byte>) returns (ok: bool)
      requires file.Valid()
      modifies file
      ensures file.Valid() && file.pos == old(file.pos) && file.capacity == old(file.capacity)
      ensures old(file.content) <= file.content <= old(file.content) + Frame(codec, Record(payload, useCompression))
      ensures ok <==> file.content == old(file.content) + Frame(codec, Record(payload, useCompression))
    {
      var compressed := if useCompression then codec.compress(payload) else [];
      var text := if useCompression then compressed else payload;
      ok := WriteParts(Little(MAGIC, 4), Little(|payload|, 8), Little(|compressed|, 8), text);
    }

    /** The four writes, each checked for being short. */
    method WriteParts(magic: seq<byte>, usize: seq<byte>, csize: seq<byte>, text: seq<byte>) returns (ok: bool)
      requires file.Valid()
      modifies file`content
      ensures file.Valid()
      ensures old(file.content) <= file.content <= old(file.content) + Concat4(magic, usize, csize, text)
      ensures ok <==> file.content == old(file.content) + Concat4(magic, usize, csize, text)
    {
      ghost var start := file.content;
      var n := file.Write(magic);
      Part(start, magic, usize + csize + text, n);
      if n != |magic| {
        return false;
      }
      n := file.Write(usize);
      Part(start + magic, usize, csize + text, n);
      if n != |usize| {
        return false;
      }
      n := file.Write(csize);
      Part(start + magic + usize, csize, text, n);
      if n != |csize| {
        return false;
      }
      n := file.Write(text);
      Part(start + magic + usize + csize, text, [], n);
      ok := n == |text|;
      assert file.content == start + magic + usize + csize + text[..n];
    }

    static lemma Part(pre: seq<byte>, part: seq<byte>, post: seq<byte>, n: nat)
      requires n <= |part|
      ensures pre + part[..n] <= pre + part + post
      ensures |part| == n ==> pre + part[..n] == pre + part
    {}
  }

  class RecordReader {
    const file: File
    const codec: Codec

    constructor (f: File, c: Codec)
      ensures file == f && codec == c
    {
      file, codec := f, c;
    }

    method ReadProtocolMessage() returns (payload: Option<seq<byte>>)
      requires file.Valid()
      modifies file`pos
      ensures file.Valid()
      ensures payload.None? <==> ReadAt(codec, file.content, old(file.pos)).None?
      ensures payload.Some? ==> (payload.value, file.pos) == ReadAt(codec, file.content, old(file.pos)).value
    {
      ghost var start := file.pos;
      var word := file.Read(4);
      if |word| != 4 {
        return None;
      }
      if Value(word) != MAGIC {
        return None;
      }
      var field := file.Read(8);
      if |field| != 8 {
        return None;
      }
      var usize := Value(field);
      field := file.Read(8);
      if |field| != 8 {
        return None;
      }
      var csize := Value(field);
      if csize != 0 {
        var text := file.Read(csize);
        if |text| != csize {
          return None;
        }
        payload := Some(codec.uncompress(text, usize));
      } else {
        var text := file.Read(usize);
        if |text| != usize {
          return None;
        }
        payload := Some(text);
      }
    }
  }
}

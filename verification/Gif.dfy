/**
 The GIF evidence walk: it accepts exactly a header and colour table followed by extensions and images, each
 with sub-blocks closed by an empty one, at least one of them an image, and a trailer byte as the last byte.
 */
module Gif {
  import opened Evidence
  import opened Wrappers

  const GIF87: seq<byte> := [0x47, 0x49, 0x46, 0x38, 0x37, 0x61]
  const GIF89: seq<byte> := [0x47, 0x49, 0x46, 0x38, 0x39, 0x61]
  const TRAILER: byte := 59
  const EXTENSION: byte := 33
  const IMAGE: byte := 44

  /** The size of the colour table a packed field announces. */
  function TableSize(packed: byte): nat {
    if packed < 128 then 0 else 3 * Power(packed as nat % 8 + 1)
  }

  function Power(n: nat): nat {
    if n == 0 then 1 else 2 * Power(n - 1)
  }

  // ---- The walk ----

  datatype Outcome = After(rest: seq<byte>, records: nat) | Malformed | TooMany

  /** Past the sub-blocks at the front, up to and with the empty one that closes them. */
  function SkipBlocks(data: seq<byte>, records: nat): (r: Outcome)
    ensures r.After? ==> |r.rest| < |data|
    decreases |data|
  {
    if data == [] then Malformed
    else if records >= MAX_RECORDS then TooMany
    else if data[0] == 0 then After(data[1..], records + 1)
    else if 1 + data[0] as nat > |data| then Malformed
    else SkipBlocks(data[1 + data[0] as nat..], records + 1)
  }

  predicate DescriptorOk(d: seq<byte>) {
    |d| == 9 && Short(d[4], d[5]) != 0 && Short(d[6], d[7]) != 0
  }

  /** Past the extension or image at the front. */
  function SkipTagged(data: seq<byte>, records: nat): (r: Outcome)
    requires data != []
    ensures r.After? ==> |r.rest| < |data|
  {
    if data[0] == EXTENSION then
      if |data| < 2 then Malformed else SkipBlocks(data[2..], records)
    else if data[0] == IMAGE then
      if |data| < 10 || !DescriptorOk(data[1..10]) then Malformed
      else
        var lzw := 10 + TableSize(data[9]);
        if lzw >= |data| || !(2 <= data[lzw] <= 8) then Malformed else SkipBlocks(data[lzw + 1..], records)
    else Malformed
  }

  function Walk(data: seq<byte>, records: nat, image: bool): Verdict
    decreases |data|
  {
    if data == [] then BadFormat
    else if data == [TRAILER] && image then Accepted
    else
      match SkipTagged(data, records)
      case After(rest, n) => Walk(rest, n, image || data[0] == IMAGE)
      case Malformed => BadFormat
      case TooMany => Unsupported
  }

  predicate HeaderOk(h: seq<byte>) {
    |h| == 13 && (h[..6] == GIF87 || h[..6] == GIF89) && Short(h[6], h[7]) != 0 && Short(h[8], h[9]) != 0
  }

  function Check(data: seq<byte>): Verdict {
    if |data| < 14 || !HeaderOk(data[..13]) || 13 + TableSize(data[10]) > |data| then BadFormat
    else Walk(data[13 + TableSize(data[10])..], 0, false)
  }

  // ---- The loops ----

  datatype Skip = Stop(offset: nat, records: nat) | Bad | Many

  function At(data: seq<byte>, s: Skip): Outcome {
    match s
    case Stop(offset, records) => if offset <= |data| then After(data[offset..], records) else Malformed
    case Bad => Malformed
    case Many => TooMany
  }

  method Blocks(data: seq<byte>, start0: nat, records0: nat) returns (r: Skip)
    requires start0 <= |data|
    ensures At(data, r) == SkipBlocks(data[start0..], records0)
    ensures r.Stop? ==> start0 < r.offset <= |data|
  {
    var start: nat, records: nat := start0, records0;
    while start < |data|
      invariant start0 <= start <= |data|
      invariant SkipBlocks(data[start0..], records0) == SkipBlocks(data[start..], records)
      decreases |data| - start
    {
      var size := data[start] as nat;
      start, records := start + 1, records + 1;
      if records > MAX_RECORDS {
        return Many;
      }
      if size == 0 {
        return Stop(start, records);
      }
      start := start + size;
      if start > |data| {
        return Bad;
      }
      assert data[start - 1 - size..][1 + size..] == data[start..];
    }
    r := Bad;
  }

  /** One turn of the loop past its trailer test: the extension or image at an offset. */
  method Tagged(data: seq<byte>, offset0: nat, records: nat) returns (r: Skip)
    requires offset0 < |data|
    ensures At(data, r) == SkipTagged(data[offset0..], records)
    ensures r.Stop? ==> offset0 < r.offset <= |data|
  {
    ghost var rest := data[offset0..];
    var tag, offset := data[offset0], offset0 + 1;
    if tag == EXTENSION {
      if offset >= |data| {
        return Bad;
      }
      assert rest[2..] == data[offset + 1..];
      r := Blocks(data, offset + 1, records);
    } else if tag == IMAGE {
      if offset + 9 > |data| {
        return Bad;
      }
      var descriptor := data[offset..offset + 9];
      assert rest[1..10] == descriptor;
      if !DescriptorOk(descriptor) {
        return Bad;
      }
      offset := offset + 9 + TableSize(descriptor[8]);
      if offset >= |data| || !(2 <= data[offset] <= 8) {
        return Bad;
      }
      assert rest[10 + TableSize(rest[9]) + 1..] == data[offset + 1..];
      r := Blocks(data, offset + 1, records);
    } else {
      r := Bad;
    }
  }

  method CheckGif(data: seq<byte>) returns (r: Verdict)
    ensures r == Check(data)
  {
    if |data| < 14 || !HeaderOk(data[..13]) {
      return BadFormat;
    }
    var offset: nat, records: nat, image := 13 + TableSize(data[10]), 0, false;
    while offset < |data|
      invariant offset <= |data| ==> Check(data) == Walk(data[offset..], records, image)
      invariant offset > |data| ==> Check(data) == BadFormat
      decreases |data| - offset
    {
      hide Check, SkipTagged;
      var tag := data[offset];
      if tag == TRAILER && image && offset + 1 == |data| {
        assert data[offset..] == [TRAILER];
        return Accepted;
      }
      var skip := Tagged(data, offset, records);
      match skip
      case Bad => return BadFormat;
      case Many => return Unsupported;
      case Stop(next, n) => offset, records, image := next, n, image || tag == IMAGE;
    }
    r := BadFormat;
  }

  // ---- Blocks and how they are written ----

  datatype Block =
    | Extension(kind: byte, parts: seq<seq<byte>>)
    | Image(descriptor: seq<byte>, table: seq<byte>, codeSize: byte, parts: seq<seq<byte>>)

  function Sized(part: seq<byte>): seq<byte> {
    [(|part| % 256) as byte] + part
  }

  /** Sub-blocks, each with its size before it, then the empty one that closes them, then what follows. */
  function WriteParts(parts: seq<seq<byte>>, rest: seq<byte>): seq<byte> {
    if parts == [] then [0] + rest else Sized(parts[0]) + WriteParts(parts[1..], rest)
  }

  function WriteImage(descriptor: seq<byte>, table: seq<byte>, codeSize: byte, rest: seq<byte>): seq<byte> {
    ([IMAGE] + descriptor) + (table + ([codeSize] + rest))
  }

  /** One block and what follows it. */
  function Write(b: Block, rest: seq<byte>): seq<byte> {
    match b
    case Extension(kind, parts) => [EXTENSION, kind] + WriteParts(parts, rest)
    case Image(descriptor, table, codeSize, parts) => WriteImage(descriptor, table, codeSize, WriteParts(parts, rest))
  }

  function WriteAll(blocks: seq<Block>): seq<byte> {
    if blocks == [] then [TRAILER] else Write(blocks[0], WriteAll(blocks[1..]))
  }

  predicate PartsOk(parts: seq<seq<byte>>) {
    forall i :: 0 <= i < |parts| ==> 1 <= |parts[i]| <= 255
  }

  predicate Good(b: Block) {
    && PartsOk(b.parts)
    && (b.Image? ==> DescriptorOk(b.descriptor) && |b.table| == TableSize(b.descriptor[8]) && 2 <= b.codeSize <= 8)
  }

  predicate AllGood(blocks: seq<Block>) {
    forall i :: 0 <= i < |blocks| ==> Good(blocks[i])
  }

  /** Sub-blocks of all blocks, the closing ones included. */
  function Count(blocks: seq<Block>): nat {
    if blocks == [] then 0 else |blocks[0].parts| + 1 + Count(blocks[1..])
  }

  predicate ShowsImage(blocks: seq<Block>) {
    exists i :: 0 <= i < |blocks| && blocks[i].Image?
  }

  lemma ShowsSplit(blocks: seq<Block>)
    requires blocks != []
    ensures ShowsImage(blocks) <==> blocks[0].Image? || ShowsImage(blocks[1..])
  {
    if i :| 0 <= i < |blocks| && blocks[i].Image? {
      assert i > 0 ==> blocks[1..][i - 1] == blocks[i];
    }
    if i :| 0 <= i < |blocks[1..]| && blocks[1..][i].Image? {
      assert blocks[i + 1] == blocks[1..][i];
    }
  }

  // ---- Where the pieces of what was written lie ----

  lemma SizedFront(part: seq<byte>, rest: seq<byte>)
    requires 1 <= |part| <= 255
    ensures var data := Sized(part) + rest;
      && |data| == 1 + |part| + |rest| && data[0] as nat == |part| && data[1..1 + |part|] == part && data[1 + |part|..] == rest
  {
  }

  lemma SizedBack(data: seq<byte>)
    requires data != [] && 1 + data[0] as nat <= |data|
    ensures data == Sized(data[1..1 + data[0] as nat]) + data[1 + data[0] as nat..]
  {
  }

  lemma ImageFront(descriptor: seq<byte>, table: seq<byte>, codeSize: byte, rest: seq<byte>)
    requires |descriptor| == 9
    ensures var (data, lzw) := (WriteImage(descriptor, table, codeSize, rest), 10 + |table|);
      && |data| == lzw + 1 + |rest| && data[0] == IMAGE && data[1..10] == descriptor && data[9] == descriptor[8]
      && data[10..lzw] == table && data[lzw] == codeSize && data[lzw + 1..] == rest
  {
    var head, tail := [IMAGE] + descriptor, [codeSize] + rest;
    assert (head + (table + tail))[10..] == table + tail;
    assert (table + tail)[|table|..] == tail;
  }

  lemma ImageBack(data: seq<byte>, lzw: nat)
    requires 10 <= lzw < |data| && data[0] == IMAGE
    ensures data == WriteImage(data[1..10], data[10..lzw], data[lzw], data[lzw + 1..])
  {
    assert data[..10] == [IMAGE] + data[1..10];
    assert data[lzw..] == [data[lzw]] + data[lzw + 1..];
    assert data[10..] == data[10..lzw] + data[lzw..];
  }

  // ---- The walk over what was written ----

  lemma {:induction false} SkipWritten(parts: seq<seq<byte>>, rest: seq<byte>, records: nat)
    requires PartsOk(parts) && records <= MAX_RECORDS
    ensures SkipBlocks(WriteParts(parts, rest), records) ==
      if records + |parts| + 1 > MAX_RECORDS then TooMany else After(rest, records + |parts| + 1)
    decreases |parts|
  {
    if parts == [] {
      assert ([0] + rest)[1..] == rest;
    } else {
      if records < MAX_RECORDS { SkipWritten(parts[1..], rest, records + 1); }
      hide Sized;
      SizedFront(parts[0], WriteParts(parts[1..], rest));
    }
  }

  /** The walk over one written block and what follows it. */
  lemma TaggedWritten(b: Block, rest: seq<byte>, records: nat)
    requires Good(b) && records <= MAX_RECORDS
    ensures |Write(b, rest)| >= 2 && Write(b, rest)[0] == (if b.Image? then IMAGE else EXTENSION)
    ensures SkipTagged(Write(b, rest), records) ==
      if records + |b.parts| + 1 > MAX_RECORDS then TooMany else After(rest, records + |b.parts| + 1)
  {
    var tail := WriteParts(b.parts, rest);
    SkipWritten(b.parts, rest, records);
    match b {
      case Extension(kind, parts) =>
        assert ([EXTENSION, kind] + tail)[2..] == tail;
      case Image(descriptor, table, codeSize, parts) =>
        hide WriteImage, SkipBlocks, WriteParts;
        ImageFront(descriptor, table, codeSize, tail);
        assert tail == WriteParts(b.parts, rest);
        TailNotEmpty(b.parts, rest);
    }
  }

  lemma TailNotEmpty(parts: seq<seq<byte>>, rest: seq<byte>)
    ensures |WriteParts(parts, rest)| >= 1
  {
  }

  /** The verdict on every well-formed sequence of blocks. */
  function Expected(blocks: seq<Block>, records: nat, image: bool): Verdict {
    if records + Count(blocks) > MAX_RECORDS then Unsupported
    else if image || ShowsImage(blocks) then Accepted else BadFormat
  }

  lemma {:induction false} WalkWritten(blocks: seq<Block>, records: nat, image: bool)
    requires AllGood(blocks) && records <= MAX_RECORDS
    ensures Walk(WriteAll(blocks), records, image) == Expected(blocks, records, image)
    decreases |blocks|
  {
    hide *;
    if blocks == [] {
      EmptyWritten(records, image);
    } else {
      FirstGood(blocks);
      ExpectedStep(blocks, records, image);
      var n := records + |blocks[0].parts| + 1;
      if n <= MAX_RECORDS { WalkWritten(blocks[1..], n, image || blocks[0].Image?); }
      WalkBlock(blocks[0], WriteAll(blocks[1..]), records, image);
    }
  }

  lemma EmptyWritten(records: nat, image: bool)
    requires records <= MAX_RECORDS
    ensures Walk(WriteAll([]), records, image) == Expected([], records, image)
  {
  }

  lemma FirstGood(blocks: seq<Block>)
    requires AllGood(blocks) && blocks != []
    ensures Good(blocks[0]) && AllGood(blocks[1..]) && WriteAll(blocks) == Write(blocks[0], WriteAll(blocks[1..]))
  {
  }

  lemma ExpectedStep(blocks: seq<Block>, records: nat, image: bool)
    requires blocks != [] && records <= MAX_RECORDS
    ensures var n := records + |blocks[0].parts| + 1;
      Expected(blocks, records, image) == if n > MAX_RECORDS then Unsupported else Expected(blocks[1..], n, image || blocks[0].Image?)
  {
    ShowsSplit(blocks);
  }

  lemma WalkBlock(b: Block, rest: seq<byte>, records: nat, image: bool)
    requires Good(b) && records <= MAX_RECORDS
    ensures Walk(Write(b, rest), records, image) ==
      if records + |b.parts| + 1 > MAX_RECORDS then Unsupported else Walk(rest, records + |b.parts| + 1, image || b.Image?)
  {
    hide SkipTagged, Good, Write;
    TaggedWritten(b, rest, records);
  }

  // ---- What is accepted ----

  lemma {:induction false} SkippedParses(data: seq<byte>, records: nat) returns (parts: seq<seq<byte>>)
    requires SkipBlocks(data, records).After?
    ensures PartsOk(parts) && data == WriteParts(parts, SkipBlocks(data, records).rest)
    ensures SkipBlocks(data, records).records == records + |parts| + 1 <= MAX_RECORDS
    decreases |data|
  {
    if data[0] == 0 {
      parts := [];
      assert data == [0] + data[1..];
    } else {
      SizedBack(data);
      var size := data[0] as nat;
      var rest := SkippedParses(data[1 + size..], records + 1);
      parts := [data[1..1 + size]] + rest;
      assert parts[1..] == rest;
    }
  }

  lemma TaggedParses(data: seq<byte>, records: nat) returns (b: Block)
    requires data != [] && SkipTagged(data, records).After?
    ensures Good(b) && data == Write(b, SkipTagged(data, records).rest) && (b.Image? <==> data[0] == IMAGE)
    ensures SkipTagged(data, records).records == records + |b.parts| + 1 <= MAX_RECORDS
  {
    if data[0] == EXTENSION {
      var parts := SkippedParses(data[2..], records);
      b := Extension(data[1], parts);
      assert data == [EXTENSION, data[1]] + data[2..];
    } else {
      var lzw := 10 + TableSize(data[9]);
      var parts := SkippedParses(data[lzw + 1..], records);
      b := Image(data[1..10], data[10..lzw], data[lzw], parts);
      hide WriteImage;
      ImageBack(data, lzw);
    }
  }

  lemma {:induction false} AcceptedParses(data: seq<byte>, records: nat, image: bool) returns (blocks: seq<Block>)
    requires Walk(data, records, image) == Accepted
    ensures AllGood(blocks) && WriteAll(blocks) == data
    decreases |data|
  {
    if data == [TRAILER] && image {
      blocks := [];
    } else {
      var b := TaggedParses(data, records);
      var after := SkipTagged(data, records);
      var rest := AcceptedParses(after.rest, after.records, image || data[0] == IMAGE);
      blocks := [b] + rest;
      assert blocks[1..] == rest;
    }
  }

  /** A header with a colour table of the announced size. */
  predicate HeadOk(header: seq<byte>, table: seq<byte>) {
    HeaderOk(header) && |table| == TableSize(header[10])
  }

  predicate Proper(header: seq<byte>, table: seq<byte>, blocks: seq<Block>) {
    HeadOk(header, table) && AllGood(blocks) && ShowsImage(blocks) && Count(blocks) <= MAX_RECORDS
  }

  function File(header: seq<byte>, table: seq<byte>, blocks: seq<Block>): seq<byte> {
    header + table + WriteAll(blocks)
  }

  lemma NeverEmpty(blocks: seq<Block>)
    requires AllGood(blocks)
    ensures |WriteAll(blocks)| >= 1
  {
    if blocks != [] { TaggedWritten(blocks[0], WriteAll(blocks[1..]), 0); }
  }

  /** The verdict on every well-formed file: accepted with an image and few enough sub-blocks, and otherwise why not. */
  lemma FileVerdict(header: seq<byte>, table: seq<byte>, blocks: seq<Block>)
    requires HeadOk(header, table) && AllGood(blocks)
    ensures Check(File(header, table, blocks)) == Expected(blocks, 0, false)
  {
    var data := File(header, table, blocks);
    NeverEmpty(blocks);
    WalkWritten(blocks, 0, false);
    assert data[..13] == header && data[10] == header[10] && data[13 + |table|..] == WriteAll(blocks);
  }

  lemma FileParses(data: seq<byte>) returns (header: seq<byte>, table: seq<byte>, blocks: seq<Block>)
    requires Check(data) == Accepted
    ensures Proper(header, table, blocks) && data == File(header, table, blocks)
  {
    var start := 13 + TableSize(data[10]);
    header, table := data[..13], data[13..start];
    hide Walk, TableSize, HeaderOk, WriteAll;
    blocks := AcceptedParses(data[start..], 0, false);
    WalkWritten(blocks, 0, false);
    assert data == header + table + data[start..];
  }

  /** Accepted are exactly the written files with an image and few enough sub-blocks. */
  lemma AcceptsExactly(data: seq<byte>)
    ensures Check(data) == Accepted <==>
      exists header, table, blocks :: Proper(header, table, blocks) && data == File(header, table, blocks)
  {
    hide Check, File;
    if Check(data) == Accepted {
      var header, table, blocks := FileParses(data);
    }
    forall header, table, blocks | Proper(header, table, blocks) && data == File(header, table, blocks)
      ensures Check(data) == Accepted
    {
      FileVerdict(header, table, blocks);
    }
  }

  // ---- Uniqueness ----

  /** Sub-blocks are determined by their bytes, whatever follows them. */
  lemma {:induction false} PartsUnique(a: seq<seq<byte>>, b: seq<seq<byte>>, restA: seq<byte>, restB: seq<byte>)
    requires PartsOk(a) && PartsOk(b) && WriteParts(a, restA) == WriteParts(b, restB)
    ensures a == b && restA == restB
    decreases |a|
  {
    PartsFront(a, restA);
    PartsFront(b, restB);
    if a != [] && b != [] {
      PartsUnique(a[1..], b[1..], restA, restB);
      assert a == [a[0]] + a[1..] && b == [b[0]] + b[1..];
    }
  }

  /** The first sub-block and the rest lie where the sizes say. */
  lemma PartsFront(parts: seq<seq<byte>>, rest: seq<byte>)
    requires PartsOk(parts)
    ensures var data := WriteParts(parts, rest);
      && data != [] && (parts == [] <==> data[0] == 0)
      && (parts == [] ==> data[1..] == rest)
      && (parts != [] ==> |data| > |parts[0]| && data[0] as nat == |parts[0]| && data[1..1 + |parts[0]|] == parts[0])
      && (parts != [] ==> data[1 + |parts[0]|..] == WriteParts(parts[1..], rest))
  {
    if parts != [] {
      SizedFront(parts[0], WriteParts(parts[1..], rest));
    }
  }

  lemma BlocksUnique(a: Block, b: Block, restA: seq<byte>, restB: seq<byte>)
    requires Good(a) && Good(b) && Write(a, restA) == Write(b, restB)
    ensures a == b && restA == restB
  {
    TaggedWritten(a, restA, 0);
    TaggedWritten(b, restB, 0);
    var (tailA, tailB) := (WriteParts(a.parts, restA), WriteParts(b.parts, restB));
    hide SkipTagged, WriteParts;
    if a.Image? {
      ImagesUnique(a.descriptor, a.table, a.codeSize, tailA, b.descriptor, b.table, b.codeSize, tailB);
    } else {
      assert ([EXTENSION, a.kind] + tailA)[1] == a.kind && ([EXTENSION, b.kind] + tailB)[1] == b.kind;
      assert ([EXTENSION, a.kind] + tailA)[2..] == tailA && ([EXTENSION, b.kind] + tailB)[2..] == tailB;
    }
    PartsUnique(a.parts, b.parts, restA, restB);
  }

  lemma ImagesUnique(descriptor: seq<byte>, table: seq<byte>, codeSize: byte, tail: seq<byte>,
                     descriptor': seq<byte>, table': seq<byte>, codeSize': byte, tail': seq<byte>)
    requires |descriptor| == 9 && |descriptor'| == 9
    requires |table| == TableSize(descriptor[8]) && |table'| == TableSize(descriptor'[8])
    requires WriteImage(descriptor, table, codeSize, tail) == WriteImage(descriptor', table', codeSize', tail')
    ensures descriptor == descriptor' && table == table' && codeSize == codeSize' && tail == tail'
  {
    hide WriteImage, TableSize;
    ImageFront(descriptor, table, codeSize, tail);
    ImageFront(descriptor', table', codeSize', tail');
  }

  lemma OnlyTrailer(blocks: seq<Block>)
    requires AllGood(blocks)
    ensures blocks == [] <==> WriteAll(blocks) == [TRAILER]
  {
    if blocks != [] { TaggedWritten(blocks[0], WriteAll(blocks[1..]), 0); }
  }

  /** Bytes determine their blocks: no two well-formed sequences of blocks are written alike. */
  lemma {:induction false} WritingsUnique(a: seq<Block>, b: seq<Block>)
    requires AllGood(a) && AllGood(b) && WriteAll(a) == WriteAll(b)
    ensures a == b
    decreases |a|
  {
    OnlyTrailer(a);
    OnlyTrailer(b);
    if a != [] && b != [] {
      BlocksUnique(a[0], b[0], WriteAll(a[1..]), WriteAll(b[1..]));
      WritingsUnique(a[1..], b[1..]);
      assert a == [a[0]] + a[1..] && b == [b[0]] + b[1..];
    }
  }
}

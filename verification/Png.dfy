/**
 The PNG evidence walk: it accepts exactly the signature followed by serialized chunks (section 5.3 of the
 W3C PNG Specification) that meet its header, data, end and count rules, and that chunk list is unique.
 The CRC-32 is a parameter.
 */
module Png {
  import opened Evidence
  import opened Wrappers

  const SIGNATURE: seq<byte> := [0x89, 0x50, 0x4E, 0x47, 0x0D, 0x0A, 0x1A, 0x0A]
  const IHDR: seq<byte> := [0x49, 0x48, 0x44, 0x52]
  const IDAT: seq<byte> := [0x49, 0x44, 0x41, 0x54]
  const IEND: seq<byte> := [0x49, 0x45, 0x4E, 0x44]

  type Crc = seq<byte> -> nat

  datatype Chunk = Chunk(kind: seq<byte>, payload: seq<byte>)

  predicate Letter(b: byte) {
    0x41 <= b <= 0x5A || 0x61 <= b <= 0x7A
  }

  predicate IsKind(kind: seq<byte>) {
    |kind| == 4 && forall i :: 0 <= i < 4 ==> Letter(kind[i])
  }

  predicate Depths(color: byte, bits: byte) {
    match color
    case 0 => bits in [1, 2, 4, 8, 16]
    case 2 => bits in [8, 16]
    case 3 => bits in [1, 2, 4, 8]
    case 4 => bits in [8, 16]
    case 6 => bits in [8, 16]
    case _ => false
  }

  predicate HeaderOk(payload: seq<byte>) {
    && |payload| == 13
    && 1 <= Number(payload[0..4]) <= 0x7FFF_FFFF && 1 <= Number(payload[4..8]) <= 0x7FFF_FFFF
    && Depths(payload[9], payload[8]) && payload[10] == 0 && payload[11] == 0 && payload[12] in [0, 1]
  }

  // ---- The walk ----

  predicate IsHeader(kind: seq<byte>) {
    kind == IHDR
  }

  predicate IsData(kind: seq<byte>) {
    kind == IDAT
  }

  predicate IsEnd(kind: seq<byte>) {
    kind == IEND
  }

  /** From the start of a chunk to the verdict on everything from there on. */
  function Walk(crc: Crc, data: seq<byte>, chunks: nat, image: bool): Verdict
    decreases |data|
  {
    if |data| < 12 then BadFormat
    else
      var length := Number(data[..4]);
      var end := 12 + length;
      if end > |data| || !IsKind(data[4..8]) then BadFormat
      else
        var kind, payload := data[4..8], data[8..end - 4];
        var judged := Judge(kind, payload, crc(data[4..end - 4]) == Number(data[end - 4..end]), chunks, Seen(kind, payload, image), end == |data|);
        if judged.Some? then judged.value else Walk(crc, data[end..], chunks + 1, Seen(kind, payload, image))
  }

  /** The verdict on one chunk, given its parts; None to go on with the next. */
  function Judge(kind: seq<byte>, payload: seq<byte>, genuine: bool, chunks: nat, image: bool, last: bool): Option<Verdict> {
    if !genuine then Some(BadFormat)
    else if chunks >= MAX_RECORDS then Some(Unsupported)
    else if chunks == 0 && (!IsHeader(kind) || !HeaderOk(payload)) then Some(BadFormat)
    else if chunks > 0 && IsHeader(kind) then Some(BadFormat)
    else if IsEnd(kind) then Some(if payload != [] || !image || !last then BadFormat else Accepted)
    else None
  }

  predicate Seen(kind: seq<byte>, payload: seq<byte>, image: bool) {
    image || (IsData(kind) && payload != [])
  }

  function Check(crc: Crc, data: seq<byte>): Verdict {
    if |data| < 8 || data[..8] != SIGNATURE then BadFormat else Walk(crc, data[8..], 0, false)
  }

  /** The rules one chunk must meet, counting it and noting image data as it goes by. */
  method JudgeChunk(kind: seq<byte>, payload: seq<byte>, genuine: bool, chunks0: nat, image0: bool, last: bool)
    returns (r: Option<Verdict>, chunks: nat, image: bool)
    ensures r == Judge(kind, payload, genuine, chunks0, Seen(kind, payload, image0), last)
    ensures r.None? ==> chunks == chunks0 + 1 && image == Seen(kind, payload, image0)
  {
    chunks, image := chunks0, image0;
    if !genuine {
      return Some(BadFormat), chunks, image;
    }
    chunks := chunks + 1;
    if chunks > MAX_RECORDS {
      return Some(Unsupported), chunks, image;
    }
    if chunks == 1 {
      if !IsHeader(kind) || !HeaderOk(payload) {
        return Some(BadFormat), chunks, image;
      }
    } else if IsHeader(kind) {
      return Some(BadFormat), chunks, image;
    }
    if IsData(kind) && |payload| > 0 {
      image := true;
    }
    if IsEnd(kind) {
      return Some(if |payload| > 0 || !image || !last then BadFormat else Accepted), chunks, image;
    }
    r := None;
  }

  /** One turn of the loop: the chunk at an offset decides the walk, or the walk goes on where it ends. */
  method CheckChunk(crc: Crc, data: seq<byte>, offset: nat, chunks0: nat, image0: bool)
    returns (r: Option<Verdict>, end: nat, chunks: nat, image: bool)
    requires offset + 12 <= |data|
    ensures r.Some? ==> Walk(crc, data[offset..], chunks0, image0) == r.value
    ensures r.None? ==> offset + 12 <= end <= |data|
    ensures r.None? ==> Walk(crc, data[offset..], chunks0, image0) == Walk(crc, data[end..], chunks, image)
  {
    hide Walk, HeaderOk, Number, IsKind, Seen, IsHeader, IsEnd, IsData, Judge;
    WalkStep(crc, data, offset, chunks0, image0);
    var length := Number(data[offset..offset + 4]);
    var kind := data[offset + 4..offset + 8];
    end, chunks, image := offset + 12 + length, chunks0, image0;
    if end > |data| || !IsKind(kind) {
      return Some(BadFormat), end, chunks, image;
    }
    var payload := data[offset + 8..end - 4];
    var genuine := crc(data[offset + 4..end - 4]) == Number(data[end - 4..end]);
    r, chunks, image := JudgeChunk(kind, payload, genuine, chunks0, image0, end == |data|);
  }

  method CheckPng(crc: Crc, data: seq<byte>) returns (r: Verdict)
    ensures r == Check(crc, data)
  {
    if |data| < 8 || data[..8] != SIGNATURE {
      return BadFormat;
    }
    var offset, chunks, image := 8, 0, false;
    assert Check(crc, data) == Walk(crc, data[offset..], chunks, image);
    hide Walk, Check;
    while offset + 12 <= |data|
      invariant 8 <= offset <= |data|
      invariant Check(crc, data) == Walk(crc, data[offset..], chunks, image)
      decreases |data| - offset
    {
      var judged;
      judged, offset, chunks, image := CheckChunk(crc, data, offset, chunks, image);
      if judged.Some? {
        return judged.value;
      }
    }
    WalkShort(crc, data, offset, chunks, image);
    return BadFormat;
  }

  /** One turn of the walk in terms of an offset into the whole file. */
  lemma WalkStep(crc: Crc, data: seq<byte>, offset: nat, chunks: nat, image: bool)
    requires offset + 12 <= |data|
    ensures var end := offset + 12 + Number(data[offset..offset + 4]);
      Walk(crc, data[offset..], chunks, image) ==
        if end > |data| || !IsKind(data[offset + 4..offset + 8]) then BadFormat
        else
          var kind, payload := data[offset + 4..offset + 8], data[offset + 8..end - 4];
          var genuine := crc(data[offset + 4..end - 4]) == Number(data[end - 4..end]);
          var judged := Judge(kind, payload, genuine, chunks, Seen(kind, payload, image), end == |data|);
          if judged.Some? then judged.value else Walk(crc, data[end..], chunks + 1, Seen(kind, payload, image))
  {
    hide HeaderOk, Number, IsKind, Seen, IsHeader, IsEnd, IsData, Judge;
    Shifted(data, offset);
    var n := 12 + Number(data[offset..offset + 4]);
    if offset + n <= |data| { ShiftedEnd(data, offset, n); }
  }

  lemma WalkShort(crc: Crc, data: seq<byte>, offset: nat, chunks: nat, image: bool)
    requires offset <= |data| < offset + 12
    ensures Walk(crc, data[offset..], chunks, image) == BadFormat
  {
  }

  /** Slices of the rest are slices of the whole. */
  lemma Shifted(data: seq<byte>, offset: nat)
    requires offset + 12 <= |data|
    ensures var rest := data[offset..];
      rest[..4] == data[offset..offset + 4] && rest[4..8] == data[offset + 4..offset + 8]
  {
  }

  lemma ShiftedEnd(data: seq<byte>, offset: nat, n: nat)
    requires 12 <= n && offset + n <= |data|
    ensures var (rest, end) := (data[offset..], offset + n);
      && rest[4..n - 4] == data[offset + 4..end - 4] && rest[8..n - 4] == data[offset + 8..end - 4]
      && rest[n - 4..n] == data[end - 4..end] && rest[n..] == data[end..]
  {
  }

  // ---- Serialized chunks ----

  function Serialize(crc: Crc, c: Chunk): seq<byte>
    requires |c.payload| < 0x1_0000_0000 && crc(c.kind + c.payload) < 0x1_0000_0000
  {
    Digits(|c.payload|) + c.kind + c.payload + Digits(crc(c.kind + c.payload))
  }

  predicate Writable(crc: Crc, c: Chunk) {
    IsKind(c.kind) && |c.payload| < 0x1_0000_0000 && crc(c.kind + c.payload) < 0x1_0000_0000
  }

  predicate AllWritable(crc: Crc, chunks: seq<Chunk>) {
    forall c :: c in chunks ==> Writable(crc, c)
  }

  function SerializeAll(crc: Crc, chunks: seq<Chunk>): seq<byte>
    requires AllWritable(crc, chunks)
  {
    if chunks == [] then []
    else
      assert Writable(crc, chunks[0]);
      Serialize(crc, chunks[0]) + SerializeAll(crc, chunks[1..])
  }

  /** The rules from chunk number `index` on, when image data has been seen or not. */
  predicate Follows(chunks: seq<Chunk>, index: nat, image: bool)
    decreases |chunks|
  {
    && chunks != [] && index < MAX_RECORDS
    && (index == 0 ==> chunks[0].kind == IHDR && HeaderOk(chunks[0].payload))
    && (index > 0 ==> chunks[0].kind != IHDR)
    && var seen := image || (chunks[0].kind == IDAT && chunks[0].payload != []);
       if chunks[0].kind == IEND then chunks[0].payload == [] && seen && |chunks| == 1
       else Follows(chunks[1..], index + 1, seen)
  }

  /** The rules as the specification reads them. */
  ghost predicate Proper(chunks: seq<Chunk>) {
    && 1 <= |chunks| <= MAX_RECORDS
    && chunks[0].kind == IHDR && HeaderOk(chunks[0].payload)
    && (forall i :: 1 <= i < |chunks| ==> chunks[i].kind != IHDR)
    && chunks[|chunks| - 1] == Chunk(IEND, [])
    && (forall i :: 0 <= i < |chunks| - 1 ==> chunks[i].kind != IEND)
    && (exists i :: 0 <= i < |chunks| && chunks[i].kind == IDAT && chunks[i].payload != [])
  }

  lemma {:induction false} FollowsMeaning(chunks: seq<Chunk>, index: nat, image: bool)
    ensures Follows(chunks, index, image) <==>
      && chunks != [] && index + |chunks| <= MAX_RECORDS
      && (index == 0 ==> chunks[0].kind == IHDR && HeaderOk(chunks[0].payload))
      && (forall i :: 0 <= i < |chunks| && index + i > 0 ==> chunks[i].kind != IHDR)
      && chunks[|chunks| - 1] == Chunk(IEND, [])
      && (forall i :: 0 <= i < |chunks| - 1 ==> chunks[i].kind != IEND)
      && (image || exists i :: 0 <= i < |chunks| && chunks[i].kind == IDAT && chunks[i].payload != [])
    decreases |chunks|
  {
    if |chunks| > 1 {
      var seen := image || (chunks[0].kind == IDAT && chunks[0].payload != []);
      FollowsMeaning(chunks[1..], index + 1, seen);
      var rest := chunks[1..];
      assert forall i :: 0 <= i < |rest| ==> rest[i] == chunks[i + 1];
      if i :| 0 <= i < |chunks| && chunks[i].kind == IDAT && chunks[i].payload != [] {
        assert i > 0 ==> rest[i - 1].kind == IDAT && rest[i - 1].payload != [];
      }
      forall i | 1 <= i < |chunks| ensures chunks[i] == rest[i - 1] {}
    }
  }

  lemma ProperFollows(chunks: seq<Chunk>)
    ensures Follows(chunks, 0, false) <==> Proper(chunks)
  {
    FollowsMeaning(chunks, 0, false);
  }

  // ---- Reading one chunk back ----

  /** The parts of a serialized chunk lie where the walk looks for them. */
  lemma SerializedParts(crc: Crc, c: Chunk, rest: seq<byte>)
    requires Writable(crc, c)
    ensures var data, end := Serialize(crc, c) + rest, 12 + |c.payload|;
      && |data| >= end && Number(data[..4]) == |c.payload| && data[4..8] == c.kind && data[8..end - 4] == c.payload
      && data[4..end - 4] == c.kind + c.payload && Number(data[end - 4..end]) == crc(c.kind + c.payload) && data[end..] == rest
  {
    var head, tail := Digits(|c.payload|), Digits(crc(c.kind + c.payload));
    var data, end := Serialize(crc, c) + rest, 12 + |c.payload|;
    assert data[..4] == head && data[end - 4..end] == tail;
    DigitsNumber(|c.payload|);
    DigitsNumber(crc(c.kind + c.payload));
  }

  /** And what the walk reads is the serialization of what it read. */
  lemma ReadChunk(crc: Crc, data: seq<byte>) returns (c: Chunk)
    requires |data| >= 12 && 12 + Number(data[..4]) <= |data| && IsKind(data[4..8])
    requires var end := 12 + Number(data[..4]); crc(data[4..end - 4]) == Number(data[end - 4..end])
    ensures var end := 12 + Number(data[..4]);
      c == Chunk(data[4..8], data[8..end - 4]) && Writable(crc, c) && data == Serialize(crc, c) + data[end..]
  {
    var end := 12 + Number(data[..4]);
    c := Chunk(data[4..8], data[8..end - 4]);
    assert c.kind + c.payload == data[4..end - 4];
    NumberDigits(data[..4]);
    NumberDigits(data[end - 4..end]);
    assert data == data[..4] + data[4..8] + data[8..end - 4] + data[end - 4..end] + data[end..];
  }

  /** The walk over one serialized chunk and what follows it. */
  lemma WalkChunk(crc: Crc, c: Chunk, rest: seq<byte>, index: nat, image: bool)
    requires Writable(crc, c)
    ensures var judged := Judge(c.kind, c.payload, true, index, Seen(c.kind, c.payload, image), rest == []);
      Walk(crc, Serialize(crc, c) + rest, index, image) ==
        if judged.Some? then judged.value else Walk(crc, rest, index + 1, Seen(c.kind, c.payload, image))
  {
    hide HeaderOk, Number, IsKind, Seen, IsHeader, IsEnd, IsData, Judge, Serialize;
    SerializedParts(crc, c, rest);
    Kinds(crc, c);
  }

  lemma Kinds(crc: Crc, c: Chunk)
    requires Writable(crc, c)
    ensures IsKind(c.kind)
  {
  }

  /** A chunk list that follows the rules is judged well, chunk by chunk. */
  lemma JudgeFollows(chunks: seq<Chunk>, index: nat, image: bool)
    requires Follows(chunks, index, image)
    ensures IsEnd(chunks[0].kind) ==> |chunks| == 1
    ensures Judge(chunks[0].kind, chunks[0].payload, true, index, Seen(chunks[0].kind, chunks[0].payload, image), |chunks| == 1)
      == if IsEnd(chunks[0].kind) then Some(Accepted) else None
  {
  }

  lemma RestFollows(chunks: seq<Chunk>, index: nat, image: bool)
    requires Follows(chunks, index, image) && !IsEnd(chunks[0].kind)
    ensures |chunks| > 1 && Follows(chunks[1..], index + 1, Seen(chunks[0].kind, chunks[0].payload, image))
  {
  }

  /** One chunk of a list that follows the rules: the walk accepts it as the end, or goes on with the rest. */
  lemma WalkFollows(crc: Crc, chunks: seq<Chunk>, index: nat, image: bool)
    requires AllWritable(crc, chunks) && Follows(chunks, index, image)
    ensures Walk(crc, SerializeAll(crc, chunks), index, image) ==
      if IsEnd(chunks[0].kind) then Accepted
      else Walk(crc, SerializeAll(crc, chunks[1..]), index + 1, Seen(chunks[0].kind, chunks[0].payload, image))
  {
    var c, rest := chunks[0], chunks[1..];
    JudgeFollows(chunks, index, image);
    RestWritable(crc, chunks);
    if |chunks| == 1 {
      assert SerializeAll(crc, rest) == [];
    } else {
      RestWritable(crc, rest);
      SerializedParts(crc, rest[0], SerializeAll(crc, rest[1..]));
    }
    hide Walk, HeaderOk, Number, IsKind, Seen, IsHeader, IsData, Judge, Serialize, Follows;
    WalkChunk(crc, c, SerializeAll(crc, rest), index, image);
  }

  lemma RestWritable(crc: Crc, chunks: seq<Chunk>)
    requires AllWritable(crc, chunks) && chunks != []
    ensures Writable(crc, chunks[0]) && AllWritable(crc, chunks[1..])
  {
  }

  lemma {:induction false} WalkAccepts(crc: Crc, chunks: seq<Chunk>, index: nat, image: bool)
    requires AllWritable(crc, chunks) && Follows(chunks, index, image)
    ensures Walk(crc, SerializeAll(crc, chunks), index, image) == Accepted
    decreases |chunks|
  {
    if !IsEnd(chunks[0].kind) {
      RestFollows(chunks, index, image);
      WalkAccepts(crc, chunks[1..], index + 1, Seen(chunks[0].kind, chunks[0].payload, image));
    }
    WalkFollows(crc, chunks, index, image);
  }

  lemma {:induction false} AcceptedParses(crc: Crc, data: seq<byte>, index: nat, image: bool) returns (chunks: seq<Chunk>)
    requires Walk(crc, data, index, image) == Accepted
    ensures AllWritable(crc, chunks) && Follows(chunks, index, image) && SerializeAll(crc, chunks) == data
    decreases |data|
  {
    var c := ReadChunk(crc, data);
    var end := 12 + Number(data[..4]);
    if c.kind == IEND {
      chunks := [c];
      assert data[end..] == [] && SerializeAll(crc, []) == [];
      assert SerializeAll(crc, [c]) == Serialize(crc, c) + SerializeAll(crc, [c][1..]);
    } else {
      var rest := AcceptedParses(crc, data[end..], index + 1, image || (c.kind == IDAT && |c.payload| > 0));
      chunks := [c] + rest;
      assert chunks[1..] == rest;
    }
  }

  /** Accepted are exactly the signature followed by serialized chunks that meet the rules. */
  lemma AcceptsExactly(crc: Crc, data: seq<byte>)
    ensures Check(crc, data) == Accepted <==>
      exists chunks :: AllWritable(crc, chunks) && Proper(chunks) && data == SIGNATURE + SerializeAll(crc, chunks)
  {
    if Check(crc, data) == Accepted {
      var chunks := AcceptedParses(crc, data[8..], 0, false);
      ProperFollows(chunks);
      assert data == data[..8] + data[8..];
    }
    forall chunks | AllWritable(crc, chunks) && Proper(chunks) && data == SIGNATURE + SerializeAll(crc, chunks)
      ensures Check(crc, data) == Accepted
    {
      ProperFollows(chunks);
      WalkAccepts(crc, chunks, 0, false);
      assert data[..8] == SIGNATURE && data[8..] == SerializeAll(crc, chunks);
    }
  }

  lemma NothingWritten(crc: Crc, chunks: seq<Chunk>)
    requires AllWritable(crc, chunks)
    ensures SerializeAll(crc, chunks) == [] <==> chunks == []
  {
    if chunks != [] { SerializedParts(crc, chunks[0], SerializeAll(crc, chunks[1..])); }
  }

  /** Bytes determine their chunks: no two chunk lists are written alike. */
  lemma {:induction false} ChunksUnique(crc: Crc, a: seq<Chunk>, b: seq<Chunk>)
    requires AllWritable(crc, a) && AllWritable(crc, b) && SerializeAll(crc, a) == SerializeAll(crc, b)
    ensures a == b
    decreases |a|
  {
    NothingWritten(crc, a);
    NothingWritten(crc, b);
    if a != [] && b != [] {
      SerializedParts(crc, a[0], SerializeAll(crc, a[1..]));
      SerializedParts(crc, b[0], SerializeAll(crc, b[1..]));
      ChunksUnique(crc, a[1..], b[1..]);
      assert a == [a[0]] + a[1..] && b == [b[0]] + b[1..];
    }
  }
}

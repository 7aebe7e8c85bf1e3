/**
 The WebP evidence walk: it accepts exactly the RIFF files (sections 2.3 and 2.4 of RFC 9649) whose chunks,
 those inside animation frames included, tile the file, meet the walk's content rules and number at most the
 bound; and no two chunk trees are written as the same bytes.
 */
module Webp {
  import opened Evidence
  import opened Wrappers

  const RIFF: seq<byte> := [0x52, 0x49, 0x46, 0x46]
  const WEBP: seq<byte> := [0x57, 0x45, 0x42, 0x50]
  const LOSSY: seq<byte> := [0x56, 0x50, 0x38, 0x20]
  const LOSSLESS: seq<byte> := [0x56, 0x50, 0x38, 0x4C]
  const EXTENDED: seq<byte> := [0x56, 0x50, 0x38, 0x58]
  const FRAME: seq<byte> := [0x41, 0x4E, 0x4D, 0x46]

  // ---- Content rules ----

  predicate LossyOk(p: seq<byte>) {
    |p| >= 10 && p[3..6] == [0x9D, 0x01, 0x2A] && Short(p[6], p[7]) % 0x4000 != 0 && Short(p[8], p[9]) % 0x4000 != 0
  }

  /** The signature byte, and the three version bits clear. */
  predicate LosslessOk(p: seq<byte>) {
    |p| >= 5 && p[0] == 0x2F && p[4] < 0x20
  }

  /** The reserved bits 0, 6 and 7 of the flags and the reserved bytes clear. */
  predicate ExtendedOk(p: seq<byte>) {
    |p| == 10 && p[0] < 0x40 && p[0] % 2 == 0 && p[1..4] == [0, 0, 0]
  }

  // ---- The walk ----

  datatype Outcome = Tiled(image: bool, records: nat) | Malformed | TooMany

  /** A stretch of chunks up to its end, counting every chunk seen so far and noting whether one shows an image. */
  function Walk(rest: seq<byte>, records: nat, image: bool, frame: bool): Outcome
    decreases |rest|
  {
    if |rest| < 8 then if rest == [] then Tiled(image, records) else Malformed
    else
      var size := Little(rest[4..8]);
      var whole := 8 + size + size % 2;
      if whole > |rest| || records >= MAX_RECORDS then if records < MAX_RECORDS then Malformed else TooMany
      else if size % 2 == 1 && rest[8 + size] != 0 then Malformed
      else
        var inside := Content(rest[..4], rest[8..8 + size], records + 1, image, frame);
        if inside.Tiled? then Walk(rest[whole..], inside.records, inside.image, frame) else inside
  }

  function Content(kind: seq<byte>, payload: seq<byte>, records: nat, image: bool, frame: bool): Outcome
    decreases |payload|
  {
    if kind == LOSSY then if LossyOk(payload) then Tiled(true, records) else Malformed
    else if kind == LOSSLESS then if LosslessOk(payload) then Tiled(true, records) else Malformed
    else if kind == EXTENDED then if frame || !ExtendedOk(payload) then Malformed else Tiled(image, records)
    else if kind == FRAME then
      if frame || |payload| < 24 then Malformed
      else
        var parts := Walk(payload[16..], records, false, true);
        if parts.Tiled? && !parts.image then Malformed else parts
    else Tiled(image, records)
  }

  function Check(data: seq<byte>): Verdict {
    if |data| < 20 || data[..4] != RIFF || data[8..12] != WEBP || Little(data[4..8]) != |data| - 8 then BadFormat
    else
      match Walk(data[12..], 0, false, false)
      case Tiled(image, _) => if image then Accepted else BadFormat
      case Malformed => BadFormat
      case TooMany => Unsupported
  }

  // ---- The loops ----

  /** The content of one chunk; a frame's parts are walked in turn. */
  method CheckContent(data: seq<byte>, kind: seq<byte>, payload: nat, end: nat, records: nat, image: bool, frame: bool)
    returns (r: Outcome)
    requires payload <= end <= |data|
    ensures r == Content(kind, data[payload..end], records, image, frame)
    decreases end - payload, 0
  {
    var size := end - payload;
    var p := data[payload..end];
    if kind == LOSSY {
      r := if LossyOk(p) then Tiled(true, records) else Malformed;
    } else if kind == LOSSLESS {
      r := if LosslessOk(p) then Tiled(true, records) else Malformed;
    } else if kind == EXTENDED {
      r := if frame || !ExtendedOk(p) then Malformed else Tiled(image, records);
    } else if kind == FRAME {
      if frame || size < 24 {
        return Malformed;
      }
      assert p[16..] == data[payload + 16..end];
      r := CheckChunks(data, payload + 16, end, records, true);
      if r.Tiled? && !r.image {
        r := Malformed;
      }
    } else {
      r := Tiled(image, records);
    }
  }

  /** One turn of the loop: the chunk at an offset decides the walk, or the walk goes on where it ends. */
  method CheckChunk(data: seq<byte>, start: nat, stop: nat, records0: nat, image0: bool, frame: bool)
    returns (r: Option<Outcome>, next: nat, records: nat, image: bool)
    requires start + 8 <= stop <= |data|
    ensures r.Some? ==> Walk(data[start..stop], records0, image0, frame) == r.value
    ensures r.None? ==> start + 8 <= next <= stop
    ensures r.None? ==> Walk(data[start..stop], records0, image0, frame) == Walk(data[next..stop], records, image, frame)
    decreases stop - start, 1
  {
    hide Walk, Content, Little;
    WalkStep(data, start, stop, records0, image0, frame);
    next, records, image := start, records0 + 1, image0;
    var kind := data[start..start + 4];
    var size := Little(data[start + 4..start + 8]);
    var payload, end := start + 8, start + 8 + size;
    if end + size % 2 > stop || records > MAX_RECORDS {
      return Some(if records <= MAX_RECORDS then Malformed else TooMany), next, records, image;
    }
    if size % 2 == 1 && data[end] != 0 {
      return Some(Malformed), next, records, image;
    }
    var inside := CheckContent(data, kind, payload, end, records, image, frame);
    if !inside.Tiled? {
      return Some(inside), next, records, image;
    }
    r, next, records, image := None, end + size % 2, inside.records, inside.image;
  }

  method CheckChunks(data: seq<byte>, start0: nat, stop: nat, records0: nat, frame: bool) returns (r: Outcome)
    requires start0 <= stop <= |data|
    ensures r == Walk(data[start0..stop], records0, false, frame)
    decreases stop - start0, 2
  {
    var start: nat, records: nat, image := start0, records0, false;
    while start + 8 <= stop
      invariant start0 <= start <= stop
      invariant Walk(data[start0..stop], records0, false, frame) == Walk(data[start..stop], records, image, frame)
      decreases stop - start
    {
      hide Walk;
      var decided;
      decided, start, records, image := CheckChunk(data, start, stop, records, image, frame);
      if decided.Some? {
        return decided.value;
      }
    }
    r := if start != stop then Malformed else Tiled(image, records);
  }

  method CheckWebp(data: seq<byte>) returns (r: Verdict)
    ensures r == Check(data)
  {
    if |data| < 20 || data[..4] != RIFF || data[8..12] != WEBP || Little(data[4..8]) != |data| - 8 {
      return BadFormat;
    }
    assert data[12..|data|] == data[12..];
    var read := CheckChunks(data, 12, |data|, 0, false);
    match read
    case Tiled(image, _) => r := if image then Accepted else BadFormat;
    case Malformed => r := BadFormat;
    case TooMany => r := Unsupported;
  }

  /** One turn of the walk in terms of offsets into the whole file. */
  lemma WalkStep(data: seq<byte>, start: nat, stop: nat, records: nat, image: bool, frame: bool)
    requires start + 8 <= stop <= |data|
    ensures var size := Little(data[start + 4..start + 8]);
      var end := start + 8 + size;
      Walk(data[start..stop], records, image, frame) ==
        if end + size % 2 > stop || records >= MAX_RECORDS then if records < MAX_RECORDS then Malformed else TooMany
        else if size % 2 == 1 && data[end] != 0 then Malformed
        else
          var inside := Content(data[start..start + 4], data[start + 8..end], records + 1, image, frame);
          if inside.Tiled? then Walk(data[end + size % 2..stop], inside.records, inside.image, frame) else inside
  {
    hide Content, Little;
    var rest := data[start..stop];
    SliceOfSlice(data, start, stop, 0, 4);
    SliceOfSlice(data, start, stop, 4, 8);
    var size := Little(data[start + 4..start + 8]);
    if 8 + size + size % 2 <= |rest| {
      SliceOfSlice(data, start, stop, 8, 8 + size);
      SliceOfSlice(data, start, stop, 8 + size + size % 2, |rest|);
    }
  }

  // ---- Chunk trees and how they are written ----

  /** A chunk with its payload, or an animation frame with its parameters and the chunks it holds. */
  datatype Chunk = Plain(kind: seq<byte>, payload: seq<byte>) | Animated(parameters: seq<byte>, parts: seq<Chunk>)

  function Kind(c: Chunk): seq<byte> {
    if c.Plain? then c.kind else FRAME
  }

  function Payload(c: Chunk): seq<byte>
    decreases c, 0
  {
    match c
    case Plain(_, payload) => payload
    case Animated(parameters, parts) => parameters + SerializeAll(parts)
  }

  /** Kind, little-endian size, payload, and a zero byte after an odd payload. */
  function Serialize(c: Chunk): seq<byte>
    decreases c, 1
  {
    var payload := Payload(c);
    if |payload| >= 0x1_0000_0000 then []
    else Kind(c) + LittleDigits(|payload|) + payload + if |payload| % 2 == 1 then [0] else []
  }

  function SerializeAll(chunks: seq<Chunk>): seq<byte>
    decreases chunks, 0
  {
    if chunks == [] then [] else Serialize(chunks[0]) + SerializeAll(chunks[1..])
  }

  predicate PlainOk(kind: seq<byte>, payload: seq<byte>, frame: bool) {
    && |kind| == 4 && kind != FRAME
    && (kind == LOSSY ==> LossyOk(payload))
    && (kind == LOSSLESS ==> LosslessOk(payload))
    && (kind == EXTENDED ==> !frame && ExtendedOk(payload))
  }

  /** What makes a chunk well formed, in the file itself or inside a frame. */
  predicate Good(c: Chunk, frame: bool)
    decreases c, 1
  {
    && |Payload(c)| < 0x1_0000_0000
    && match c
       case Plain(kind, payload) => PlainOk(kind, payload, frame)
       case Animated(parameters, parts) => !frame && |parameters| == 16 && AllGood(parts, true) && ShowsImage(parts)
  }

  predicate AllGood(chunks: seq<Chunk>, frame: bool)
    decreases chunks, 0
  {
    chunks == [] || (Good(chunks[0], frame) && AllGood(chunks[1..], frame))
  }

  predicate Shows(c: Chunk) {
    c.Animated? || c.kind == LOSSY || c.kind == LOSSLESS
  }

  predicate ShowsImage(chunks: seq<Chunk>) {
    exists i :: 0 <= i < |chunks| && Shows(chunks[i])
  }

  /** All chunks of a tree, frames and their parts alike. */
  function Count(c: Chunk): nat
    decreases c, 1
  {
    1 + if c.Animated? then CountAll(c.parts) else 0
  }

  function CountAll(chunks: seq<Chunk>): nat
    decreases chunks, 0
  {
    if chunks == [] then 0 else Count(chunks[0]) + CountAll(chunks[1..])
  }

  lemma ShowsSplit(chunks: seq<Chunk>)
    requires chunks != []
    ensures ShowsImage(chunks) <==> Shows(chunks[0]) || ShowsImage(chunks[1..])
  {
    if i :| 0 <= i < |chunks| && Shows(chunks[i]) {
      assert i > 0 ==> chunks[1..][i - 1] == chunks[i];
    }
    if i :| 0 <= i < |chunks[1..]| && Shows(chunks[1..][i]) {
      assert chunks[i + 1] == chunks[1..][i];
    }
  }

  // ---- Reading back what was written ----

  /** The parts of a written chunk lie where the walk looks for them. */
  lemma WrittenParts(c: Chunk, rest: seq<byte>)
    requires |Payload(c)| < 0x1_0000_0000 && |Kind(c)| == 4
    ensures var (data, size) := (Serialize(c) + rest, |Payload(c)|);
      && |data| == 8 + size + size % 2 + |rest| && Little(data[4..8]) == size
      && data[..4] == Kind(c) && data[8..8 + size] == Payload(c)
      && (size % 2 == 1 ==> data[8 + size] == 0) && data[8 + size + size % 2..] == rest
  {
    hide Payload, Kind, Little;
    var (size, digits) := (|Payload(c)|, LittleDigits(|Payload(c)|));
    var pad := if size % 2 == 1 then [0] else [];
    var head := Kind(c) + digits;
    assert Serialize(c) + rest == head + (Payload(c) + (pad + rest));
    assert head[..4] == Kind(c) && head[4..8] == digits;
    LittleDigitsNumber(|Payload(c)|);
  }

  lemma GoodKind(c: Chunk, frame: bool)
    requires Good(c, frame)
    ensures |Payload(c)| < 0x1_0000_0000 && |Kind(c)| == 4
  {
  }

  /** The walk over one written chunk and what follows it. */
  lemma WalkChunk(c: Chunk, rest: seq<byte>, records: nat, image: bool, frame: bool)
    requires |Payload(c)| < 0x1_0000_0000 && |Kind(c)| == 4
    ensures Walk(Serialize(c) + rest, records, image, frame) ==
      if records >= MAX_RECORDS then TooMany
      else
        var inside := Content(Kind(c), Payload(c), records + 1, image, frame);
        if inside.Tiled? then Walk(rest, inside.records, inside.image, frame) else inside
  {
    hide Payload, Kind, Little, Serialize, Content;
    WrittenParts(c, rest);
  }

  /** What the walk makes of a well-formed tree: it tiles, unless there are too many chunks. */
  function Expected(chunks: seq<Chunk>, records: nat, image: bool): Outcome {
    if records + CountAll(chunks) <= MAX_RECORDS then Tiled(image || ShowsImage(chunks), records + CountAll(chunks)) else TooMany
  }

  lemma {:induction false} WalkWritten(chunks: seq<Chunk>, records: nat, image: bool, frame: bool)
    requires AllGood(chunks, frame) && records <= MAX_RECORDS
    ensures Walk(SerializeAll(chunks), records, image, frame) == Expected(chunks, records, image)
    decreases chunks, 1
  {
    hide *;
    if chunks == [] {
      EmptyWritten(records, image, frame);
    } else {
      FirstGood(chunks, frame);
      if records + Count(chunks[0]) <= MAX_RECORDS {
        WalkWritten(chunks[1..], records + Count(chunks[0]), image || Shows(chunks[0]), frame);
      }
      ExpectedStep(chunks, records, image);
      StepWritten(chunks, records, image, frame);
    }
  }

  lemma FirstGood(chunks: seq<Chunk>, frame: bool)
    requires AllGood(chunks, frame) && chunks != []
    ensures Good(chunks[0], frame) && AllGood(chunks[1..], frame)
    ensures |Payload(chunks[0])| < 0x1_0000_0000 && |Kind(chunks[0])| == 4
    ensures SerializeAll(chunks) == Serialize(chunks[0]) + SerializeAll(chunks[1..])
  {
  }

  lemma EmptyWritten(records: nat, image: bool, frame: bool)
    requires records <= MAX_RECORDS
    ensures Walk(SerializeAll([]), records, image, frame) == Expected([], records, image)
  {
  }

  /** The first chunk of a well-formed list: the walk stops at the bound, or goes on with the rest. */
  lemma {:induction false} StepWritten(chunks: seq<Chunk>, records: nat, image: bool, frame: bool)
    requires AllGood(chunks, frame) && chunks != [] && records <= MAX_RECORDS
    ensures Walk(SerializeAll(chunks), records, image, frame) ==
      if records + Count(chunks[0]) > MAX_RECORDS then TooMany
      else Walk(SerializeAll(chunks[1..]), records + Count(chunks[0]), image || Shows(chunks[0]), frame)
    decreases chunks, 0
  {
    hide *;
    var c := chunks[0];
    FirstGood(chunks, frame);
    ExpectedStep(chunks, records, image);
    if records < MAX_RECORDS {
      ContentWritten(c, records + 1, image, frame);
    }
    WalkChunk(c, SerializeAll(chunks[1..]), records, image, frame);
  }

  lemma ExpectedStep(chunks: seq<Chunk>, records: nat, image: bool)
    requires chunks != [] && records <= MAX_RECORDS
    ensures Expected(chunks, records, image) ==
      if records + Count(chunks[0]) > MAX_RECORDS then TooMany
      else Expected(chunks[1..], records + Count(chunks[0]), image || Shows(chunks[0]))
    ensures Count(chunks[0]) >= 1
  {
    ShowsSplit(chunks);
  }

  lemma {:induction false} ContentWritten(c: Chunk, records: nat, image: bool, frame: bool)
    requires Good(c, frame) && 0 < records <= MAX_RECORDS
    ensures Content(Kind(c), Payload(c), records, image, frame) ==
      if records - 1 + Count(c) <= MAX_RECORDS then Tiled(image || Shows(c), records - 1 + Count(c)) else TooMany
    decreases c, 1
  {
    if c.Animated? {
      WalkWritten(c.parts, records, false, true);
      FrameLength(c.parts);
      assert Payload(c)[16..] == SerializeAll(c.parts);
    }
  }

  /** A frame that shows an image holds at least one chunk header. */
  lemma FrameLength(parts: seq<Chunk>)
    requires AllGood(parts, true) && parts != []
    ensures |SerializeAll(parts)| >= 8
  {
    GoodKind(parts[0], true);
    WrittenParts(parts[0], SerializeAll(parts[1..]));
  }

  /** Whatever the walk tiles is a written tree of well-formed chunks. */
  lemma {:induction false} TiledParses(data: seq<byte>, records: nat, image: bool, frame: bool) returns (chunks: seq<Chunk>)
    requires Walk(data, records, image, frame).Tiled? && records <= MAX_RECORDS
    ensures AllGood(chunks, frame) && SerializeAll(chunks) == data
    decreases |data|, 1
  {
    if data == [] {
      chunks := [];
    } else {
      var size := Little(data[4..8]);
      var inside := Content(data[..4], data[8..8 + size], records + 1, image, frame);
      var c := ContentParses(data[..4], data[8..8 + size], records + 1, image, frame);
      ContentBound(c, data[..4], data[8..8 + size], records + 1, image, frame);
      var rest := TiledParses(data[8 + size + size % 2..], inside.records, inside.image, frame);
      chunks := [c] + rest;
      assert chunks[1..] == rest;
      ReadBack(c, data);
    }
  }

  lemma {:induction false} ContentParses(kind: seq<byte>, payload: seq<byte>, records: nat, image: bool, frame: bool) returns (c: Chunk)
    requires Content(kind, payload, records, image, frame).Tiled? && records <= MAX_RECORDS
    requires |kind| == 4 && |payload| < 0x1_0000_0000
    ensures Good(c, frame) && Kind(c) == kind && Payload(c) == payload
    decreases |payload|, 2
  {
    if kind == FRAME {
      var parts := TiledParses(payload[16..], records, false, true);
      WalkWritten(parts, records, false, true);
      c := Animated(payload[..16], parts);
      assert payload == payload[..16] + payload[16..];
    } else {
      c := Plain(kind, payload);
    }
  }

  lemma ContentBound(c: Chunk, kind: seq<byte>, payload: seq<byte>, records: nat, image: bool, frame: bool)
    requires Good(c, frame) && Kind(c) == kind && Payload(c) == payload && 0 < records <= MAX_RECORDS
    requires Content(kind, payload, records, image, frame).Tiled?
    ensures Content(kind, payload, records, image, frame).records <= MAX_RECORDS
  {
    ContentWritten(c, records, image, frame);
  }

  /** What the walk read as one chunk is that chunk as written. */
  lemma ReadBack(c: Chunk, data: seq<byte>)
    requires |data| >= 8
    requires var size := Little(data[4..8]);
      && 8 + size + size % 2 <= |data| && (size % 2 == 1 ==> data[8 + size] == 0)
      && Kind(c) == data[..4] && Payload(c) == data[8..8 + size]
    ensures data == Serialize(c) + data[8 + Little(data[4..8]) + Little(data[4..8]) % 2..]
  {
    hide Kind, Payload, Little;
    var size := Little(data[4..8]);
    LittleNumberDigits(data[4..8]);
    var pad := if size % 2 == 1 then [0] else [];
    assert data[8 + size..8 + size + size % 2] == pad;
    assert data == data[..4] + data[4..8] + data[8..8 + size] + data[8 + size..8 + size + size % 2] + data[8 + size + size % 2..];
  }

  // ---- What is accepted ----

  function File(chunks: seq<Chunk>): seq<byte> {
    var body := SerializeAll(chunks);
    if 4 + |body| >= 0x1_0000_0000 then [] else RIFF + LittleDigits(4 + |body|) + WEBP + body
  }

  lemma FileParts(chunks: seq<Chunk>)
    requires 4 + |SerializeAll(chunks)| < 0x1_0000_0000
    ensures var data := File(chunks);
      && |data| == 12 + |SerializeAll(chunks)| && data[..4] == RIFF && data[8..12] == WEBP
      && Little(data[4..8]) == |data| - 8 && data[12..] == SerializeAll(chunks)
  {
    LittleDigitsNumber(4 + |SerializeAll(chunks)|);
    assert File(chunks)[4..8] == LittleDigits(4 + |SerializeAll(chunks)|);
  }

  /** The verdict on every well-formed file: accepted with an image and few enough chunks, and otherwise why not. */
  lemma FileVerdict(chunks: seq<Chunk>)
    requires AllGood(chunks, false) && chunks != [] && 4 + |SerializeAll(chunks)| < 0x1_0000_0000
    ensures Check(File(chunks)) ==
      if CountAll(chunks) > MAX_RECORDS then Unsupported else if ShowsImage(chunks) then Accepted else BadFormat
  {
    FileParts(chunks);
    GoodKind(chunks[0], false);
    WrittenParts(chunks[0], SerializeAll(chunks[1..]));
    WalkWritten(chunks, 0, false, false);
  }

  /** What a listing of chunks must meet to be accepted. */
  predicate Proper(chunks: seq<Chunk>) {
    && AllGood(chunks, false) && ShowsImage(chunks) && CountAll(chunks) <= MAX_RECORDS
    && 4 + |SerializeAll(chunks)| < 0x1_0000_0000
  }

  lemma AcceptedParses(data: seq<byte>) returns (chunks: seq<Chunk>)
    requires Check(data) == Accepted
    ensures Proper(chunks) && data == File(chunks)
  {
    chunks := TiledParses(data[12..], 0, false, false);
    WalkWritten(chunks, 0, false, false);
    LittleNumberDigits(data[4..8]);
    assert data == data[..4] + data[4..8] + data[8..12] + data[12..];
  }

  /** Accepted are exactly the written trees of well-formed chunks, few enough of them, that show an image. */
  lemma AcceptsExactly(data: seq<byte>)
    ensures Check(data) == Accepted <==> exists chunks :: Proper(chunks) && data == File(chunks)
  {
    if Check(data) == Accepted {
      var chunks := AcceptedParses(data);
    }
    forall chunks | Proper(chunks) && data == File(chunks) ensures Check(data) == Accepted {
      FileVerdict(chunks);
    }
  }

  lemma NothingWritten(chunks: seq<Chunk>, frame: bool)
    requires AllGood(chunks, frame)
    ensures SerializeAll(chunks) == [] <==> chunks == []
  {
    if chunks != [] {
      GoodKind(chunks[0], frame);
      WrittenParts(chunks[0], SerializeAll(chunks[1..]));
    }
  }

  /** Bytes determine their tree: no two well-formed trees are written alike. */
  lemma {:induction false} TreesUnique(a: seq<Chunk>, b: seq<Chunk>, frame: bool)
    requires AllGood(a, frame) && AllGood(b, frame) && SerializeAll(a) == SerializeAll(b)
    ensures a == b
    decreases a, 0
  {
    NothingWritten(a, frame);
    NothingWritten(b, frame);
    if a != [] && b != [] {
      GoodKind(a[0], frame);
      GoodKind(b[0], frame);
      WrittenParts(a[0], SerializeAll(a[1..]));
      WrittenParts(b[0], SerializeAll(b[1..]));
      ChunksUnique(a[0], b[0], frame);
      TreesUnique(a[1..], b[1..], frame);
      assert a == [a[0]] + a[1..] && b == [b[0]] + b[1..];
    }
  }

  lemma {:induction false} ChunksUnique(a: Chunk, b: Chunk, frame: bool)
    requires Good(a, frame) && Good(b, frame) && Kind(a) == Kind(b) && Payload(a) == Payload(b)
    ensures a == b
    decreases a, 1
  {
    if a.Animated? && b.Animated? {
      assert a.parameters == Payload(a)[..16] && b.parameters == Payload(b)[..16];
      assert SerializeAll(a.parts) == Payload(a)[16..] && SerializeAll(b.parts) == Payload(b)[16..];
      TreesUnique(a.parts, b.parts, true);
    }
  }
}

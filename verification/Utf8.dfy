/** UTF-8 as section 3 of RFC 3629 defines it: encoding, strict decoding, and decoding that skips what is malformed. */
module Utf8 {
  import opened Wrappers

  /** A Unicode scalar value: surrogates excluded. */
  newtype Scalar = x: int | 0 <= x < 0xD800 || 0xE000 <= x < 0x110000

  function EncodeOne(c: Scalar): (bytes: seq<byte>)
    ensures 1 <= |bytes| <= 4
  {
    var v := c as int;
    if v < 0x80 then [v as byte]
    else if v < 0x800 then [(0xC0 + v / 64) as byte, (0x80 + v % 64) as byte]
    else if v < 0x10000 then [(0xE0 + v / 4096) as byte, (0x80 + v / 64 % 64) as byte, (0x80 + v % 64) as byte]
    else [(0xF0 + v / 262144) as byte, (0x80 + v / 4096 % 64) as byte, (0x80 + v / 64 % 64) as byte, (0x80 + v % 64) as byte]
  }

  function Encode(s: seq<Scalar>): seq<byte> {
    if s == [] then [] else EncodeOne(s[0]) + Encode(s[1..])
  }

  predicate Continues(b: byte) {
    0x80 <= b < 0xC0
  }

  function Low(b: byte): int {
    b as int - 0x80
  }

  predicate IsScalar(v: int) {
    0 <= v < 0xD800 || 0xE000 <= v < 0x110000
  }

  /** How many bytes a leading byte announces; 0 for one that cannot lead. */
  function Announced(b: byte): nat {
    if b < 0x80 then 1 else if b < 0xC0 then 0 else if b < 0xE0 then 2 else if b < 0xF0 then 3 else if b < 0xF8 then 4 else 0
  }

  /** A spelled value counts only if it is a scalar value in its shortest form. */
  function Shortest(v: int, least: int): Option<Scalar> {
    if v < least || !IsScalar(v) then None else Some(v as Scalar)
  }

  /** The character the bytes begin with, if they begin with one. */
  function DecodeOne(b: seq<byte>): Option<Scalar> {
    if b == [] then None
    else
      match Announced(b[0])
      case 1 => Some(b[0] as Scalar)
      case 2 =>
        if |b| < 2 || !Continues(b[1]) then None
        else Shortest((b[0] as int - 0xC0) * 64 + Low(b[1]), 0x80)
      case 3 =>
        if |b| < 3 || !Continues(b[1]) || !Continues(b[2]) then None
        else Shortest((b[0] as int - 0xE0) * 4096 + Low(b[1]) * 64 + Low(b[2]), 0x800)
      case 4 =>
        if |b| < 4 || !Continues(b[1]) || !Continues(b[2]) || !Continues(b[3]) then None
        else Shortest((b[0] as int - 0xF0) * 262144 + Low(b[1]) * 4096 + Low(b[2]) * 64 + Low(b[3]), 0x10000)
      case _ => None
  }

  function Decode(b: seq<byte>): Option<seq<Scalar>>
    decreases |b|
  {
    if b == [] then Some([])
    else
      var c := DecodeOne(b);
      if c.None? then None
      else
        DecodedFits(b);
        var rest := Decode(b[|EncodeOne(c.value)|..]);
        if rest.None? then None else Some([c.value] + rest.value)
  }

  /** Malformed bytes are dropped, one at a time. */
  function DecodeIgnoring(b: seq<byte>): seq<Scalar>
    decreases |b|
  {
    if b == [] then []
    else
      var c := DecodeOne(b);
      if c.None? then DecodeIgnoring(b[1..])
      else
        DecodedFits(b);
        [c.value] + DecodeIgnoring(b[|EncodeOne(c.value)|..])
  }

  lemma DecodedFits(b: seq<byte>)
    requires DecodeOne(b).Some?
    ensures |EncodeOne(DecodeOne(b).value)| == Announced(b[0]) <= |b|
  {
  }

  // ---- Round trips ----

  lemma TwoDigits(v: int)
    requires 0 <= v
    ensures v == v / 64 * 64 + v % 64
  {
  }

  lemma ThreeDigits(v: int)
    requires 0 <= v
    ensures v == v / 4096 * 4096 + v / 64 % 64 * 64 + v % 64
  {
    assert v / 4096 == v / 64 / 64;
  }

  lemma FourDigits(v: int)
    requires 0 <= v
    ensures v == v / 262144 * 262144 + v / 4096 % 64 * 4096 + v / 64 % 64 * 64 + v % 64
  {
    ThreeDigits(v);
    assert v / 262144 == v / 4096 / 64;
  }

  lemma DecodeEncoded(c: Scalar, rest: seq<byte>)
    ensures DecodeOne(EncodeOne(c) + rest) == Some(c)
  {
    var v, e := c as int, EncodeOne(c);
    var b := e + rest;
    assert b[0] == e[0];
    if v < 0x80 {
    } else if v < 0x800 {
      TwoDigits(v);
      assert b[1] == e[1];
    } else if v < 0x10000 {
      ThreeDigits(v);
      assert b[1] == e[1] && b[2] == e[2];
    } else {
      FourDigits(v);
      assert b[1] == e[1] && b[2] == e[2] && b[3] == e[3];
    }
  }

  /** Decoding undoes encoding only one way: what decodes is the encoding of what it decodes to. */
  lemma EncodeDecoded(b: seq<byte>)
    requires DecodeOne(b).Some?
    ensures |EncodeOne(DecodeOne(b).value)| <= |b| && EncodeOne(DecodeOne(b).value) == b[..|EncodeOne(DecodeOne(b).value)|]
  {
    var c := DecodeOne(b).value;
    var v := c as int;
    DecodedFits(b);
    match Announced(b[0])
    case 1 =>
    case 2 => TwoPlaces(b[0] as int - 0xC0, Low(b[1])); assert EncodeOne(c) == b[..2];
    case 3 => ThreePlaces(b[0] as int - 0xE0, Low(b[1]), Low(b[2])); assert EncodeOne(c) == b[..3];
    case _ => FourPlaces(b[0] as int - 0xF0, Low(b[1]), Low(b[2]), Low(b[3])); assert EncodeOne(c) == b[..4];
  }

  lemma TwoPlaces(h: int, l: int)
    requires 0 <= h && 0 <= l < 64
    ensures var v := h * 64 + l; v / 64 == h && v % 64 == l
  {
  }

  lemma ThreePlaces(h: int, m: int, l: int)
    requires 0 <= h && 0 <= m < 64 && 0 <= l < 64
    ensures var v := h * 4096 + m * 64 + l; v / 4096 == h && v / 64 % 64 == m && v % 64 == l
  {
    TwoPlaces(h, m);
    TwoPlaces(h * 64 + m, l);
  }

  lemma FourPlaces(h: int, k: int, m: int, l: int)
    requires 0 <= h && 0 <= k < 64 && 0 <= m < 64 && 0 <= l < 64
    ensures var v := h * 262144 + k * 4096 + m * 64 + l;
      v / 262144 == h && v / 4096 % 64 == k && v / 64 % 64 == m && v % 64 == l
  {
    ThreePlaces(h * 64 + k, m, l);
    TwoPlaces(h, k);
  }

  lemma {:induction false} RoundTrip(s: seq<Scalar>)
    ensures Decode(Encode(s)) == Some(s)
  {
    if s != [] {
      DecodeEncoded(s[0], Encode(s[1..]));
      assert Encode(s)[|EncodeOne(s[0])|..] == Encode(s[1..]);
      RoundTrip(s[1..]);
      assert s == [s[0]] + s[1..];
    }
  }

  lemma {:induction false} DecodedEncodes(b: seq<byte>)
    requires Decode(b).Some?
    ensures Encode(Decode(b).value) == b
    decreases |b|
  {
    if b != [] {
      EncodeDecoded(b);
      var n := |EncodeOne(DecodeOne(b).value)|;
      DecodedEncodes(b[n..]);
      var s := Decode(b).value;
      assert s[0] == DecodeOne(b).value && s[1..] == Decode(b[n..]).value;
      assert b == b[..n] + b[n..];
    }
  }

  lemma {:induction false} EncodeAppend(s: seq<Scalar>, t: seq<Scalar>)
    ensures Encode(s + t) == Encode(s) + Encode(t)
  {
    if s == [] {
      assert s + t == t;
    } else {
      assert (s + t)[1..] == s[1..] + t;
      EncodeAppend(s[1..], t);
    }
  }

  // ---- Cut short ----

  /** A character cut short decodes to nothing and is skipped whole. */
  lemma CutShort(c: Scalar, k: nat)
    requires 0 < k < |EncodeOne(c)|
    ensures DecodeOne(EncodeOne(c)[..k]).None? && DecodeIgnoring(EncodeOne(c)[..k]) == []
  {
    var b := EncodeOne(c)[..k];
    assert Announced(b[0]) == |EncodeOne(c)|;
    forall i | 1 <= i < k ensures Continues(b[i]) { assert b[i] == EncodeOne(c)[i]; }
    OnlyContinuations(b[1..]);
  }

  lemma {:induction false} OnlyContinuations(b: seq<byte>)
    requires forall i :: 0 <= i < |b| ==> Continues(b[i])
    ensures DecodeIgnoring(b) == []
  {
    if b != [] { OnlyContinuations(b[1..]); }
  }

  /** How many whole characters fit into a number of bytes. */
  function Fit(s: seq<Scalar>, room: nat): (n: nat)
    ensures n <= |s| && |Encode(s[..n])| <= room
    ensures n < |s| ==> |Encode(s[..n + 1])| > room
  {
    if s == [] || |EncodeOne(s[0])| > room then
      assert s != [] ==> s[..1] == [s[0]] && s[..1][1..] == [];
      0
    else
      var m := Fit(s[1..], room - |EncodeOne(s[0])|);
      assert s[..m + 1] == [s[0]] + s[1..][..m];
      assert m + 1 < |s| ==> s[..m + 2] == [s[0]] + s[1..][..m + 1];
      m + 1
  }

  /** Skipping malformed bytes of a prefix keeps exactly the characters that fit. */
  lemma {:induction false} PrefixKeepsWhole(s: seq<Scalar>, room: nat)
    ensures DecodeIgnoring(Encode(s)[..Min(room, |Encode(s)|)]) == s[..Fit(s, room)]
    decreases |s|
  {
    if s != [] {
      var first, rest := EncodeOne(s[0]), Encode(s[1..]);
      if |first| > room {
        assert (first + rest)[..room] == first[..room];
        if room > 0 { CutShort(s[0], room); }
      } else {
        var cut := Min(room - |first|, |rest|);
        assert (first + rest)[..Min(room, |first + rest|)] == first + rest[..cut];
        KeepsFirst(s[0], rest[..cut]);
        PrefixKeepsWhole(s[1..], room - |first|);
        assert s[..Fit(s, room)] == [s[0]] + s[1..][..Fit(s[1..], room - |first|)];
      }
    }
  }

  lemma KeepsFirst(c: Scalar, rest: seq<byte>)
    ensures DecodeIgnoring(EncodeOne(c) + rest) == [c] + DecodeIgnoring(rest)
  {
    DecodeEncoded(c, rest);
    assert (EncodeOne(c) + rest)[|EncodeOne(c)|..] == rest;
  }

  /** A prefix of an encoding decodes exactly when it stops between characters. */
  lemma {:induction false} PrefixBoundary(s: seq<Scalar>, k: nat)
    requires k <= |Encode(s)|
    ensures Decode(Encode(s)[..k]).Some? <==> exists i :: 0 <= i <= |s| && |Encode(s[..i])| == k
    decreases |s|
  {
    if k == 0 {
      assert |Encode(s[..0])| == 0;
    } else {
      var first, rest := EncodeOne(s[0]), Encode(s[1..]);
      if k < |first| {
        assert (first + rest)[..k] == first[..k];
        CutShort(s[0], k);
        forall i | 0 <= i <= |s| ensures |Encode(s[..i])| != k {
          if i > 0 { assert s[..i][0] == s[0]; }
        }
      } else {
        assert (first + rest)[..k] == first + rest[..k - |first|];
        DecodeEncoded(s[0], rest[..k - |first|]);
        assert (first + rest[..k - |first|])[|first|..] == rest[..k - |first|];
        PrefixBoundary(s[1..], k - |first|);
        BoundaryShift(s, k);
      }
    }
  }

  lemma BoundaryShift(s: seq<Scalar>, k: nat)
    requires s != [] && k >= |EncodeOne(s[0])|
    ensures (exists i :: 0 <= i <= |s| && |Encode(s[..i])| == k) <==>
            (exists i :: 0 <= i <= |s[1..]| && |Encode(s[1..][..i])| == k - |EncodeOne(s[0])|)
  {
    forall i | 0 <= i < |s| ensures |Encode(s[..i + 1])| == |EncodeOne(s[0])| + |Encode(s[1..][..i])| {
      assert s[..i + 1] == [s[0]] + s[1..][..i];
    }
    if i :| 0 <= i <= |s| && |Encode(s[..i])| == k {
      assert i > 0;
      assert |Encode(s[1..][..i - 1])| == k - |EncodeOne(s[0])|;
    }
    if i :| 0 <= i <= |s[1..]| && |Encode(s[1..][..i])| == k - |EncodeOne(s[0])| {
      assert |Encode(s[..i + 1])| == k;
    }
  }
}

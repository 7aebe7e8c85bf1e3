/**
 The bounded pre-scan of JSON attachments: one pass that tracks quotes, escapes, depth and structural
 marks without parsing, against the grammar of sections 2 to 7 of RFC 8259.
 */
module JsonScanner {
  import opened Wrappers

  const MAX_MARKS: nat := 200_000
  const MAX_DEPTH: nat := 64

  // ---- The scanner ----

  datatype Scan = Scan(quoted: bool, escaped: bool, depth: int, marks: nat)

  const Begin := Scan(false, false, 0, 0)

  predicate Opens(c: char) {
    c == '[' || c == '{'
  }

  predicate Closes(c: char) {
    c == ']' || c == '}'
  }

  predicate Structural(c: char) {
    Opens(c) || Closes(c) || c == ':' || c == ','
  }

  function Advance(s: Scan, c: char): Scan {
    if s.quoted then
      if s.escaped then s.(escaped := false)
      else if c == '\\' then s.(escaped := true)
      else if c == '"' then s.(quoted := false)
      else s
    else if c == '"' then s.(quoted := true)
    else if Structural(c) then s.(marks := s.marks + 1, depth := s.depth + (if Opens(c) then 1 else if Closes(c) then -1 else 0))
    else s
  }

  predicate Exceeds(s: Scan) {
    s.marks > MAX_MARKS || s.depth > MAX_DEPTH
  }

  /** The scan with its two bounds, tested after every structural character; None is the rejection. */
  function Scanned(text: string): Option<Scan> {
    if text == [] then Some(Begin)
    else
      var s, c := Scanned(text[..|text| - 1]), text[|text| - 1];
      if s.None? then None
      else
        var next := Advance(s.value, c);
        if !s.value.quoted && Structural(c) && Exceeds(next) then None else Some(next)
  }

  method ScanText(text: string) returns (s: Option<Scan>)
    ensures s == Scanned(text)
  {
    var quoted, escaped, depth, marks := false, false, 0, 0;
    for i := 0 to |text|
      invariant Scanned(text[..i]) == Some(Scan(quoted, escaped, depth, marks))
    {
      TakeOneMore(text, i);
      var c := text[i];
      if quoted {
        if escaped {
          escaped := false;
        } else if c == '\\' {
          escaped := true;
        } else if c == '"' {
          quoted := false;
        }
      } else if c == '"' {
        quoted := true;
      } else if Structural(c) {
        marks := marks + 1;
        depth := depth + (if Opens(c) then 1 else if Closes(c) then -1 else 0);
        if marks > MAX_MARKS || depth > MAX_DEPTH {
          PrefixRejected(text, i + 1);
          return None;
        }
      }
    }
    assert text[..|text|] == text;
    return Some(Scan(quoted, escaped, depth, marks));
  }

  lemma {:induction false} PrefixRejected(text: string, n: nat)
    requires n <= |text| && Scanned(text[..n]).None?
    ensures Scanned(text).None?
    decreases |text| - n
  {
    if n < |text| {
      TakeOneMore(text, n);
      PrefixRejected(text, n + 1);
    } else {
      assert text[..n] == text;
    }
  }

  // ---- Documents ----

  /** One step of a string: a plain character, or a backslash and the character it escapes. */
  datatype Part = Plain(c: char) | Escaped(c: char)

  /** A value as written, with all its insignificant whitespace. */
  datatype Value =
    | Atom(text: string)
    | Text(parts: seq<Part>)
    | Array(lead: string, elements: Elements)
    | Object(lead: string, members: Members)

  /** Elements separated by commas. */
  datatype Elements = NoElements | OneElement(v: Value, trail: string) | MoreElements(v: Value, trail: string, lead: string, rest: Elements)

  datatype Members =
    | NoMembers
    | OneMember(key: seq<Part>, before: string, after: string, v: Value, trail: string)
    | MoreMembers(key: seq<Part>, before: string, after: string, v: Value, trail: string, lead: string, rest: Members)

  predicate IsSpace(s: string) {
    forall c :: c in s ==> c == ' ' || c == '\t' || c == '\n' || c == '\r'
  }

  /** Numbers and the literals true, false and null. */
  predicate IsAtom(s: string) {
    forall c :: c in s ==> c in "0123456789+-.eEtrufalsn"
  }

  predicate IsString(parts: seq<Part>) {
    forall p :: p in parts ==> (p.Plain? ==> p.c != '"' && p.c != '\\') && (p.Escaped? ==> p.c in "\"\\/bfnrtu")
  }

  predicate WellFormed(v: Value) {
    match v
    case Atom(text) => IsAtom(text)
    case Text(parts) => IsString(parts)
    case Array(lead, elements) => IsSpace(lead) && ElementsFormed(elements)
    case Object(lead, members) => IsSpace(lead) && MembersFormed(members)
  }

  predicate ElementsFormed(es: Elements) {
    match es
    case NoElements => true
    case OneElement(v, trail) => WellFormed(v) && IsSpace(trail)
    case MoreElements(v, trail, lead, rest) => WellFormed(v) && IsSpace(trail) && IsSpace(lead) && ElementsFormed(rest)
  }

  predicate MembersFormed(ms: Members) {
    match ms
    case NoMembers => true
    case OneMember(key, before, after, v, trail) =>
      IsString(key) && IsSpace(before) && IsSpace(after) && WellFormed(v) && IsSpace(trail)
    case MoreMembers(key, before, after, v, trail, lead, rest) =>
      IsString(key) && IsSpace(before) && IsSpace(after) && WellFormed(v) && IsSpace(trail) && IsSpace(lead) && MembersFormed(rest)
  }

  function WriteParts(parts: seq<Part>): string {
    if parts == [] then []
    else WriteParts(parts[..|parts| - 1]) + (if parts[|parts| - 1].Plain? then [parts[|parts| - 1].c] else ['\\', parts[|parts| - 1].c])
  }

  function WriteString(parts: seq<Part>): string {
    ['"'] + WriteParts(parts) + ['"']
  }

  function Write(v: Value): string
    decreases v, 0
  {
    match v
    case Atom(text) => text
    case Text(parts) => WriteString(parts)
    case Array(lead, elements) => ['['] + (lead + WriteElements(elements)) + [']']
    case Object(lead, members) => ['{'] + (lead + WriteMembers(members)) + ['}']
  }

  function WriteElements(es: Elements): string
    decreases es, 0
  {
    match es
    case NoElements => []
    case OneElement(v, trail) => Write(v) + trail
    case MoreElements(v, trail, lead, rest) => Write(v) + trail + ([','] + lead + WriteElements(rest))
  }

  function WriteMember(key: seq<Part>, before: string, after: string, v: Value, trail: string): string
    decreases v, 1
  {
    WriteString(key) + before + ([':'] + after + (Write(v) + trail))
  }

  function WriteMembers(ms: Members): string
    decreases ms, 0
  {
    match ms
    case NoMembers => []
    case OneMember(key, before, after, v, trail) => WriteMember(key, before, after, v, trail)
    case MoreMembers(key, before, after, v, trail, lead, rest) =>
      WriteMember(key, before, after, v, trail) + ([','] + lead + WriteMembers(rest))
  }

  /** How deeply containers nest. */
  function Nesting(v: Value): nat {
    match v
    case Atom(_) => 0
    case Text(_) => 0
    case Array(_, elements) => 1 + ElementsNesting(elements)
    case Object(_, members) => 1 + MembersNesting(members)
  }

  function ElementsNesting(es: Elements): nat {
    match es
    case NoElements => 0
    case OneElement(v, _) => Nesting(v)
    case MoreElements(v, _, _, rest) => Max(Nesting(v), ElementsNesting(rest))
  }

  function MembersNesting(ms: Members): nat {
    match ms
    case NoMembers => 0
    case OneMember(_, _, _, v, _) => Nesting(v)
    case MoreMembers(_, _, _, v, _, _, rest) => Max(Nesting(v), MembersNesting(rest))
  }

  /** How many structural characters the grammar puts into a value: its brackets, colons and commas. */
  function Punctuation(v: Value): nat {
    match v
    case Atom(_) => 0
    case Text(_) => 0
    case Array(_, elements) => 2 + ElementsPunctuation(elements)
    case Object(_, members) => 2 + MembersPunctuation(members)
  }

  function ElementsPunctuation(es: Elements): nat {
    match es
    case NoElements => 0
    case OneElement(v, _) => Punctuation(v)
    case MoreElements(v, _, _, rest) => Punctuation(v) + 1 + ElementsPunctuation(rest)
  }

  function MembersPunctuation(ms: Members): nat {
    match ms
    case NoMembers => 0
    case OneMember(_, _, _, v, _) => 1 + Punctuation(v)
    case MoreMembers(_, _, _, v, _, _, rest) => 1 + Punctuation(v) + 1 + MembersPunctuation(rest)
  }

  // ---- What a stretch of text does to the scan ----

  function Final(s: Scan, text: string): Scan {
    if text == [] then s else Advance(Final(s, text[..|text| - 1]), text[|text| - 1])
  }

  /** The greatest depth on the way. */
  function Peak(s: Scan, text: string): int {
    if text == [] then s.depth else Max(Peak(s, text[..|text| - 1]), Final(s, text).depth)
  }

  lemma {:induction false} FinalAppend(s: Scan, a: string, b: string)
    ensures Final(s, a + b) == Final(Final(s, a), b)
    ensures Peak(s, a + b) == Max(Peak(s, a), Peak(Final(s, a), b))
    decreases |b|
  {
    if b == [] {
      assert a + b == a;
      PeakAtLeast(s, a);
    } else {
      assert (a + b)[..|a + b| - 1] == a + b[..|b| - 1];
      FinalAppend(s, a, b[..|b| - 1]);
    }
  }

  lemma {:induction false} PeakAtLeast(s: Scan, text: string)
    ensures Peak(s, text) >= Final(s, text).depth && Peak(s, text) >= s.depth
  {
    if text != [] { PeakAtLeast(s, text[..|text| - 1]); }
  }

  function Outside(depth: int, marks: nat): Scan {
    Scan(false, false, depth, marks)
  }

  /** Outside strings, this text returns to the same depth after adding so many marks and rising by so much. */
  ghost predicate Adds(text: string, marks: nat, rise: nat) {
    forall d: int, m: nat :: Final(Outside(d, m), text) == Outside(d, m + marks) && Peak(Outside(d, m), text) == d + rise
  }

  lemma AddsAppend(a: string, b: string, ma: nat, ra: nat, mb: nat, rb: nat)
    requires Adds(a, ma, ra) && Adds(b, mb, rb)
    ensures Adds(a + b, ma + mb, Max(ra, rb))
  {
    forall d: int, m: nat ensures Final(Outside(d, m), a + b) == Outside(d, m + (ma + mb)) && Peak(Outside(d, m), a + b) == d + Max(ra, rb) {
      FinalAppend(Outside(d, m), a, b);
      assert Final(Outside(d, m + ma), b) == Outside(d, m + ma + mb);
    }
  }

  lemma OneChar(s: Scan, c: char)
    ensures Final(s, [c]) == Advance(s, c) && Peak(s, [c]) == Max(s.depth, Advance(s, c).depth)
  {
    assert [c][..0] == [];
    assert Final(s, [c]) == Advance(Final(s, []), c);
  }

  lemma {:induction false} QuietAdds(text: string)
    requires forall c :: c in text ==> c != '"' && !Structural(c)
    ensures Adds(text, 0, 0)
  {
    if text != [] {
      var init, last := text[..|text| - 1], text[|text| - 1];
      assert last in text;
      QuietAdds(init);
      forall d: int, m: nat ensures Final(Outside(d, m), text) == Outside(d, m) && Peak(Outside(d, m), text) == d {
        assert Final(Outside(d, m), init) == Outside(d, m + 0);
      }
    }
  }

  lemma SeparatorAdds(c: char)
    requires c == ',' || c == ':'
    ensures Adds([c], 1, 0)
  {
    forall d: int, m: nat ensures Final(Outside(d, m), [c]) == Outside(d, m + 1) && Peak(Outside(d, m), [c]) == d { OneChar(Outside(d, m), c); }
  }

  lemma BracketAdds(open: char, body: string, close: char, marks: nat, rise: nat)
    requires Opens(open) && Closes(close) && Adds(body, marks, rise)
    ensures Adds([open] + body + [close], 2 + marks, 1 + rise)
  {
    forall d: int, m: nat
      ensures Final(Outside(d, m), [open] + body + [close]) == Outside(d, m + (2 + marks))
      ensures Peak(Outside(d, m), [open] + body + [close]) == d + (1 + rise)
    {
      OneChar(Outside(d, m), open);
      FinalAppend(Outside(d, m), [open], body);
      assert Final(Outside(d + 1, m + 1), body) == Outside(d + 1, m + 1 + marks);
      OneChar(Outside(d + 1, m + 1 + marks), close);
      FinalAppend(Outside(d, m), [open] + body, [close]);
    }
  }

  /** Inside a string nothing counts, whatever it escapes. */
  lemma {:induction false} InsideString(parts: seq<Part>, depth: int, marks: nat)
    requires IsString(parts)
    ensures var s := Scan(true, false, depth, marks);
      Final(s, WriteParts(parts)) == s && Peak(s, WriteParts(parts)) == depth
  {
    if parts != [] {
      var init, last := parts[..|parts| - 1], parts[|parts| - 1];
      var s := Scan(true, false, depth, marks);
      assert last in parts;
      InsideString(init, depth, marks);
      if last.Plain? {
        OneChar(s, last.c);
        FinalAppend(s, WriteParts(init), [last.c]);
      } else {
        OneChar(s, '\\');
        OneChar(Advance(s, '\\'), last.c);
        FinalAppend(s, ['\\'], [last.c]);
        assert ['\\'] + [last.c] == ['\\', last.c];
        FinalAppend(s, WriteParts(init), ['\\', last.c]);
      }
    }
  }

  lemma StringAdds(parts: seq<Part>)
    requires IsString(parts)
    ensures Adds(WriteString(parts), 0, 0)
  {
    forall d: int, m: nat ensures Final(Outside(d, m), WriteString(parts)) == Outside(d, m) && Peak(Outside(d, m), WriteString(parts)) == d {
      var inside := Scan(true, false, d, m);
      OneChar(Outside(d, m), '"');
      InsideString(parts, d, m);
      OneChar(inside, '"');
      FinalAppend(Outside(d, m), ['"'], WriteParts(parts));
      FinalAppend(Outside(d, m), ['"'] + WriteParts(parts), ['"']);
    }
  }

  lemma SpaceAdds(s: string)
    requires IsSpace(s)
    ensures Adds(s, 0, 0)
  {
    QuietAdds(s);
  }

  lemma AtomAdds(text: string)
    requires IsAtom(text)
    ensures Adds(text, 0, 0)
  {
    QuietAdds(text);
  }

  lemma ContainerAdds(open: char, lead: string, body: string, close: char, marks: nat, rise: nat)
    requires Opens(open) && Closes(close) && IsSpace(lead) && Adds(body, marks, rise)
    ensures Adds([open] + (lead + body) + [close], 2 + marks, 1 + rise)
  {
    SpaceAdds(lead);
    AddsAppend(lead, body, 0, 0, marks, rise);
    BracketAdds(open, lead + body, close, marks, rise);
  }

  lemma {:induction false} ValueAdds(v: Value)
    requires WellFormed(v)
    ensures Adds(Write(v), Punctuation(v), Nesting(v))
    decreases v, 0
  {
    hide Adds, IsAtom, IsString, IsSpace;
    match v
    case Atom(text) => AtomAdds(text);
    case Text(parts) => StringAdds(parts);
    case Array(lead, elements) =>
      ElementsAdd(elements);
      ContainerAdds('[', lead, WriteElements(elements), ']', ElementsPunctuation(elements), ElementsNesting(elements));
    case Object(lead, members) =>
      MembersAdd(members);
      ContainerAdds('{', lead, WriteMembers(members), '}', MembersPunctuation(members), MembersNesting(members));
  }

  lemma TrailedAdds(v: string, trail: string, marks: nat, rise: nat)
    requires Adds(v, marks, rise) && IsSpace(trail)
    ensures Adds(v + trail, marks, rise)
  {
    SpaceAdds(trail);
    AddsAppend(v, trail, marks, rise, 0, 0);
  }

  /** A separator, whitespace, and what follows. */
  lemma SeparatedAdds(c: char, lead: string, rest: string, marks: nat, rise: nat)
    requires (c == ',' || c == ':') && IsSpace(lead) && Adds(rest, marks, rise)
    ensures Adds([c] + lead + rest, 1 + marks, rise)
  {
    SeparatorAdds(c);
    SpaceAdds(lead);
    AddsAppend([c], lead, 1, 0, 0, 0);
    AddsAppend([c] + lead, rest, 1, 0, marks, rise);
  }

  lemma {:induction false} ElementsAdd(es: Elements)
    requires ElementsFormed(es)
    ensures Adds(WriteElements(es), ElementsPunctuation(es), ElementsNesting(es))
    decreases es, 0
  {
    match es
    case NoElements => SpaceAdds([]);
    case OneElement(v, trail) =>
      ValueAdds(v);
      TrailedAdds(Write(v), trail, Punctuation(v), Nesting(v));
    case MoreElements(v, trail, lead, rest) =>
      ValueAdds(v);
      TrailedAdds(Write(v), trail, Punctuation(v), Nesting(v));
      ElementsAdd(rest);
      SeparatedAdds(',', lead, WriteElements(rest), ElementsPunctuation(rest), ElementsNesting(rest));
      AddsAppend(Write(v) + trail, [','] + lead + WriteElements(rest), Punctuation(v), Nesting(v), 1 + ElementsPunctuation(rest), ElementsNesting(rest));
  }

  lemma {:induction false} MemberAdds(key: seq<Part>, before: string, after: string, v: Value, trail: string)
    requires IsString(key) && IsSpace(before) && IsSpace(after) && WellFormed(v) && IsSpace(trail)
    ensures Adds(WriteMember(key, before, after, v, trail), 1 + Punctuation(v), Nesting(v))
    decreases v, 1
  {
    ValueAdds(v);
    StringAdds(key);
    TrailedAdds(WriteString(key), before, 0, 0);
    TrailedAdds(Write(v), trail, Punctuation(v), Nesting(v));
    SeparatedAdds(':', after, Write(v) + trail, Punctuation(v), Nesting(v));
    AddsAppend(WriteString(key) + before, [':'] + after + (Write(v) + trail), 0, 0, 1 + Punctuation(v), Nesting(v));
  }

  lemma {:induction false} MembersAdd(ms: Members)
    requires MembersFormed(ms)
    ensures Adds(WriteMembers(ms), MembersPunctuation(ms), MembersNesting(ms))
    decreases ms, 0
  {
    match ms
    case NoMembers => SpaceAdds([]);
    case OneMember(key, before, after, v, trail) => MemberAdds(key, before, after, v, trail);
    case MoreMembers(key, before, after, v, trail, lead, rest) =>
      MemberAdds(key, before, after, v, trail);
      MembersAdd(rest);
      SeparatedAdds(',', lead, WriteMembers(rest), MembersPunctuation(rest), MembersNesting(rest));
      AddsAppend(WriteMember(key, before, after, v, trail), [','] + lead + WriteMembers(rest),
                 1 + Punctuation(v), Nesting(v), 1 + MembersPunctuation(rest), MembersNesting(rest));
  }

  // ---- The two bounds ----

  /** The scan rejects a text exactly when its greatest depth or its marks pass a bound. */
  lemma {:induction false} RejectsByPeak(text: string)
    ensures Scanned(text).None? <==> Peak(Begin, text) > MAX_DEPTH || Final(Begin, text).marks > MAX_MARKS
    ensures Scanned(text).Some? ==> Scanned(text).value == Final(Begin, text)
  {
    if text != [] { RejectsByPeak(text[..|text| - 1]); }
  }

  /**
   For every JSON document, in whatever whitespace and escapes it is written, the scan ends outside any
   string at depth 0 having counted exactly its structural characters, and it rejects exactly the documents
   that nest deeper than 64 or have more than 200000 of them.
   */
  lemma ScanMeasuresDocuments(lead: string, v: Value, trail: string)
    requires IsSpace(lead) && WellFormed(v) && IsSpace(trail)
    ensures Scanned(lead + Write(v) + trail) ==
      if Punctuation(v) > MAX_MARKS || Nesting(v) > MAX_DEPTH then None else Some(Outside(0, Punctuation(v)))
  {
    ValueAdds(v);
    SpaceAdds(lead);
    AddsAppend(lead, Write(v), 0, 0, Punctuation(v), Nesting(v));
    TrailedAdds(lead + Write(v), trail, Punctuation(v), Nesting(v));
    assert Final(Outside(0, 0), lead + Write(v) + trail) == Outside(0, 0 + Punctuation(v));
    RejectsByPeak(lead + Write(v) + trail);
  }
}

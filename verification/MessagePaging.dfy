/** Reading a long message in pages of a byte budget, along the continuations each page advertises. */
module MessagePaging {
  import opened Wrappers
  import opened Utf8

  datatype PageError = OffsetBeyond | NotBoundary | BudgetTooSmall

  /** The next read a page advertises. */
  datatype Action = Action(offset: nat, maximum: nat)

  datatype Page = Page(text: seq<Scalar>, next: Option<nat>, action: Option<Action>)

  function ReadPage(content: seq<Scalar>, maximum: nat, offset: nat, reference: bool): Result<Page, PageError> {
    var raw := Encode(content);
    if offset > |raw| then Err(OffsetBeyond)
    else if Decode(raw[..offset]).None? then Err(NotBoundary)
    else
      var part := DecodeIgnoring(raw[offset..Min(offset + maximum, |raw|)]);
      if part == [] && offset < |raw| && !reference then Err(BudgetTooSmall)
      else
        var end := offset + |Encode(part)|;
        if end >= |raw| then Ok(Page(part, None, None))
        else
          var rest := Decode(raw[end..]);
          var needed := if rest.Some? && rest.value != [] then |EncodeOne(rest.value[0])| else 0;
          Ok(Page(part, Some(end), Some(Action(end, Max(maximum, needed)))))
  }

  /** The dictionary of one message, as the page function rewrites it. */
  class MessageData {
    var content: seq<Scalar>
    var nextOffset: Option<nat>

    constructor (content: seq<Scalar>)
      ensures this.content == content && nextOffset == None
    {
      this.content, nextOffset := content, None;
    }

    /** Replace the content by one page of it; refused requests leave the dictionary as it was. */
    method PageContent(maximum: nat, offset: nat, reference: bool) returns (r: Result<Option<Action>, PageError>)
      modifies this
      ensures match ReadPage(old(content), maximum, offset, reference)
        case Ok(page) => r == Ok(page.action) && content == page.text && nextOffset == page.next
        case Err(error) => r == Err(error) && content == old(content) && nextOffset == old(nextOffset)
    {
      hide Encode, Decode, DecodeIgnoring;
      var raw := Encode(content);
      if offset > |raw| {
        return Err(OffsetBeyond);
      }
      if Decode(raw[..offset]).None? {
        return Err(NotBoundary);
      }
      var part := DecodeIgnoring(raw[offset..Min(offset + maximum, |raw|)]);
      if part == [] && offset < |raw| && !reference {
        return Err(BudgetTooSmall);
      }
      var end := offset + |Encode(part)|;
      content := part;
      nextOffset := if end < |raw| then Some(end) else None;
      if nextOffset.None? {
        return Ok(None);
      }
      var rest := Decode(raw[end..]);
      var needed := if rest.Some? && rest.value != [] then |EncodeOne(rest.value[0])| else 0;
      r := Ok(Some(Action(end, Max(maximum, needed))));
    }
  }

  // ---- What a page holds ----

  /** The byte offset of the i-th character. */
  function At(content: seq<Scalar>, i: nat): nat
    requires i <= |content|
  {
    |Encode(content[..i])|
  }

  lemma SplitAt(content: seq<Scalar>, i: nat)
    requires i <= |content|
    ensures Encode(content) == Encode(content[..i]) + Encode(content[i..])
    ensures At(content, i) <= |Encode(content)|
    ensures Encode(content)[..At(content, i)] == Encode(content[..i]) && Encode(content)[At(content, i)..] == Encode(content[i..])
  {
    EncodeAppend(content[..i], content[i..]);
    assert content == content[..i] + content[i..];
  }

  lemma AtAdds(content: seq<Scalar>, i: nat, j: nat)
    requires i <= j <= |content|
    ensures At(content, j) == At(content, i) + |Encode(content[i..j])|
  {
    EncodeAppend(content[..i], content[i..j]);
    assert content[..j] == content[..i] + content[i..j];
  }

  lemma {:induction false} NothingShort(s: seq<Scalar>)
    ensures s != [] ==> Encode(s) != []
  {
  }

  /** Where the page from the i-th character stops. */
  function PageEnd(content: seq<Scalar>, maximum: nat, i: nat): (j: nat)
    requires i <= |content|
    ensures i <= j <= |content|
  {
    i + Fit(content[i..], maximum)
  }

  lemma SliceOfRest<T>(s: seq<T>, from: nat, room: nat)
    requires from <= |s|
    ensures s[from..Min(from + room, |s|)] == s[from..][..Min(room, |s| - from)]
  {
  }

  /** The bytes a page request cuts out decode to the characters that fit. */
  lemma CutPart(content: seq<Scalar>, maximum: nat, i: nat, raw: seq<byte>, offset: nat)
    requires i <= |content| && raw == Encode(content) && offset == At(content, i)
    ensures offset <= |raw|
    ensures DecodeIgnoring(raw[offset..Min(offset + maximum, |raw|)]) == content[i..PageEnd(content, maximum, i)]
  {
    hide Encode, Decode, DecodeIgnoring, Fit;
    var text := content[i..PageEnd(content, maximum, i)];
    SplitAt(content, i);
    PrefixKeepsWhole(content[i..], maximum);
    SliceThenTake(content, i, Fit(content[i..], maximum));
    DecodeSameSlice(raw, offset, maximum, Encode(content[i..]), text);
  }

  lemma DecodeSameSlice(raw: seq<byte>, offset: nat, room: nat, rest: seq<byte>, text: seq<Scalar>)
    requires offset <= |raw| && raw[offset..] == rest && DecodeIgnoring(rest[..Min(room, |rest|)]) == text
    ensures DecodeIgnoring(raw[offset..Min(offset + room, |raw|)]) == text
  {
    SliceOfRest(raw, offset, room);
    assert raw[offset..Min(offset + room, |raw|)] == rest[..Min(room, |rest|)];
  }

  lemma SliceThenTake<T>(s: seq<T>, i: nat, n: nat)
    requires i + n <= |s|
    ensures s[i..][..n] == s[i..i + n]
  {
  }

  /** What a request answers once its part, and what is left after it, are known. */
  lemma PageShape(content: seq<Scalar>, maximum: nat, offset: nat, reference: bool, part: seq<Scalar>, rest: seq<Scalar>)
    requires offset <= |Encode(content)| && Decode(Encode(content)[..offset]).Some?
    requires DecodeIgnoring(Encode(content)[offset..Min(offset + maximum, |Encode(content)|)]) == part
    requires offset + |Encode(part)| <= |Encode(content)|
    requires Decode(Encode(content)[offset + |Encode(part)|..]) == Some(rest) && (rest == [] <==> offset + |Encode(part)| == |Encode(content)|)
    ensures var end := offset + |Encode(part)|;
      ReadPage(content, maximum, offset, reference) ==
        if part == [] && offset < |Encode(content)| && !reference then Err(BudgetTooSmall)
        else if rest == [] then Ok(Page(part, None, None))
        else Ok(Page(part, Some(end), Some(Action(end, Max(maximum, |EncodeOne(rest[0])|)))))
  {
    hide Encode, Decode, DecodeIgnoring;
  }

  /** The page from the i-th to the j-th character, or the refusal when nothing fits. */
  function Served(content: seq<Scalar>, maximum: nat, i: nat, j: nat, reference: bool): Result<Page, PageError>
    requires i <= j <= |content|
  {
    if i == j && i < |content| && !reference then Err(BudgetTooSmall)
    else if j == |content| then Ok(Page(content[i..j], None, None))
    else Ok(Page(content[i..j], Some(At(content, j)), Some(Action(At(content, j), Max(maximum, |EncodeOne(content[j])|)))))
  }

  /**
   A page from a character boundary is the longest run of whole characters within the budget; it is refused
   only when the very next character does not fit. Its continuation starts where it ends and always has room.
   */
  lemma PageExact(content: seq<Scalar>, maximum: nat, i: nat, reference: bool)
    requires i <= |content|
    ensures ReadPage(content, maximum, At(content, i), reference) == Served(content, maximum, i, PageEnd(content, maximum, i), reference)
  {
    hide Encode, Decode, DecodeIgnoring;
    CutPart(content, maximum, i, Encode(content), At(content, i));
    ServedBetween(content, maximum, i, PageEnd(content, maximum, i), reference);
  }

  lemma ServedBetween(content: seq<Scalar>, maximum: nat, i: nat, j: nat, reference: bool)
    requires i <= j <= |content| && At(content, i) <= |Encode(content)|
    requires DecodeIgnoring(Encode(content)[At(content, i)..Min(At(content, i) + maximum, |Encode(content)|)]) == content[i..j]
    ensures ReadPage(content, maximum, At(content, i), reference) == Served(content, maximum, i, j, reference)
  {
    hide Encode, Decode, DecodeIgnoring;
    Boundary(content, i);
    Boundary(content, j);
    AtAdds(content, i, j);
    PageShape(content, maximum, At(content, i), reference, content[i..j], content[j..]);
  }

  lemma Boundary(content: seq<Scalar>, i: nat)
    requires i <= |content|
    ensures At(content, i) <= |Encode(content)|
    ensures Decode(Encode(content)[..At(content, i)]).Some? && Decode(Encode(content)[At(content, i)..]) == Some(content[i..])
    ensures At(content, i) == |Encode(content)| <==> i == |content|
  {
    SplitAt(content, i);
    RoundTrip(content[..i]);
    RoundTrip(content[i..]);
    NothingShort(content[i..]);
  }

  /** A request off a boundary is refused, and so is one beyond the end. */
  lemma OffBoundary(content: seq<Scalar>, maximum: nat, offset: nat, reference: bool)
    requires forall i :: 0 <= i <= |content| ==> At(content, i) != offset
    ensures ReadPage(content, maximum, offset, reference) == Err(if offset > |Encode(content)| then OffsetBeyond else NotBoundary)
  {
    if offset <= |Encode(content)| {
      PrefixBoundary(content, offset);
      forall i | 0 <= i <= |content| ensures |Encode(content[..i])| != offset { assert At(content, i) != offset; }
    }
  }

  /** Within the budget, and on a boundary at both ends. */
  lemma PageWithinBudget(content: seq<Scalar>, maximum: nat, offset: nat, reference: bool)
    requires ReadPage(content, maximum, offset, reference).Ok?
    ensures var page := ReadPage(content, maximum, offset, reference).value;
      && |Encode(page.text)| <= maximum
      && exists i, j :: 0 <= i <= j <= |content| && offset == At(content, i) && page.text == content[i..j]
           && page.next == if j == |content| then None else Some(At(content, j))
  {
    if forall i :: 0 <= i <= |content| ==> At(content, i) != offset {
      OffBoundary(content, maximum, offset, reference);
    } else {
      var i :| 0 <= i <= |content| && At(content, i) == offset;
      PageExact(content, maximum, i, reference);
      var j := PageEnd(content, maximum, i);
      assert content[i..][..Fit(content[i..], maximum)] == content[i..j];
    }
  }

  // ---- Following the continuations ----

  /** A continuation some page advertised: it starts at a character and has room for it. */
  ghost predicate Advertised(content: seq<Scalar>, action: Action, i: nat) {
    i < |content| && action.offset == At(content, i) && action.maximum >= |EncodeOne(content[i])|
  }

  /** Read page after page until one advertises no continuation. */
  function Follow(content: seq<Scalar>, action: Action): Result<seq<Page>, PageError>
    decreases Max(0, |Encode(content)| - action.offset)
  {
    var page := ReadPage(content, action.maximum, action.offset, false);
    if page.Err? then Err(page.error)
    else if page.value.action.None? then Ok([page.value])
    else if page.value.action.value.offset <= action.offset then Ok([page.value])
    else
      var rest := Follow(content, page.value.action.value);
      if rest.Err? then rest else Ok([page.value] + rest.value)
  }

  function Texts(pages: seq<Page>): seq<Scalar> {
    if pages == [] then [] else pages[0].text + Texts(pages[1..])
  }

  lemma FitsOne(content: seq<Scalar>, maximum: nat, i: nat)
    requires i < |content| && maximum >= |EncodeOne(content[i])|
    ensures PageEnd(content, maximum, i) > i
  {
  }

  /** A page and the characters it moves past. */
  lemma Progress(content: seq<Scalar>, action: Action, i: nat) returns (j: nat)
    requires Advertised(content, action, i)
    ensures i < j <= |content| && At(content, i) < At(content, j)
    ensures var page := ReadPage(content, action.maximum, action.offset, false);
      && page.Ok? && page.value.text == content[i..j]
      && (j == |content| <==> page.value.action.None?)
      && (page.value.action.Some? ==> Advertised(content, page.value.action.value, j) && page.value.action.value.maximum >= action.maximum)
  {
    j := PageEnd(content, action.maximum, i);
    FitsOne(content, action.maximum, i);
    PageExact(content, action.maximum, i, false);
    AtAdds(content, i, j);
    NothingShort(content[i..j]);
  }

  /**
   Following the advertised continuations from any character boundary never fails, ends, keeps every page
   within the budget it was asked for, and yields exactly the rest of the message.
   */
  lemma {:induction false} FollowedPagesTile(content: seq<Scalar>, action: Action, i: nat)
    requires Advertised(content, action, i)
    ensures Follow(content, action).Ok? && Texts(Follow(content, action).value) == content[i..]
    decreases |content| - i
  {
    hide Encode, Decode, DecodeIgnoring;
    var j := Progress(content, action, i);
    var page := ReadPage(content, action.maximum, action.offset, false).value;
    if j == |content| {
      assert Texts([page]) == page.text + Texts([page][1..]);
      assert content[i..j] + [] == content[i..];
    } else {
      FollowedPagesTile(content, page.action.value, j);
      var rest := Follow(content, page.action.value).value;
      assert ([page] + rest)[1..] == rest;
      assert content[i..j] + content[j..] == content[i..];
    }
  }

  lemma RestAfter(content: seq<Scalar>, i: nat, j: nat, action: Action)
    requires i <= j && Advertised(content, action, j)
    ensures Follow(content, action).Ok? && content[i..j] + Texts(Follow(content, action).value) == content[i..]
  {
    FollowedPagesTile(content, action, j);
    assert content[i..j] + content[j..] == content[i..];
  }

  /** A reader that starts anywhere on a boundary gets the whole rest: first page and all continuations together. */
  lemma WholeMessage(content: seq<Scalar>, maximum: nat, i: nat, reference: bool)
    requires i <= |content| && ReadPage(content, maximum, At(content, i), reference).Ok?
    ensures var first := ReadPage(content, maximum, At(content, i), reference).value;
      && (first.action.None? ==> first.text == content[i..])
      && (first.action.Some? ==>
            Follow(content, first.action.value).Ok? && first.text + Texts(Follow(content, first.action.value).value) == content[i..])
  {
    hide Encode, Decode, DecodeIgnoring;
    PageExact(content, maximum, i, reference);
    var j := PageEnd(content, maximum, i);
    if j < |content| {
      RestAfter(content, i, j, Action(At(content, j), Max(maximum, |EncodeOne(content[j])|)));
    }
  }

  // ---- The client's check of a body slice ----

  datatype SliceError = Incomplete | BadOffset | OffBoundary | Changed

  function BodySlice(page: Page, full: Page, offset: int): Result<seq<Scalar>, SliceError> {
    if full.next.Some? then Err(Incomplete)
    else
      var raw := Encode(full.text);
      if offset < 0 || offset > |raw| || (page.next.Some? && !(offset <= page.next.value <= |raw|)) then Err(BadOffset)
      else
        var end := if page.next.Some? then page.next.value else |raw|;
        var text := Decode(raw[offset..end]);
        if Decode(raw[..offset]).None? || text.None? then Err(SliceError.OffBoundary)
        else if text.value != page.text then Err(Changed)
        else Ok(text.value)
  }

  /** Every page the service serves of a body passes the client's check against the complete body. */
  lemma ServedPagesPass(content: seq<Scalar>, maximum: nat, offset: nat, reference: bool, full: Page)
    requires ReadPage(content, maximum, offset, reference).Ok? && full.text == content && full.next.None?
    ensures BodySlice(ReadPage(content, maximum, offset, reference).value, full, offset) == Ok(ReadPage(content, maximum, offset, reference).value.text)
  {
    var page := ReadPage(content, maximum, offset, reference).value;
    PageWithinBudget(content, maximum, offset, reference);
    var i, j :| 0 <= i <= j <= |content| && offset == At(content, i) && page.text == content[i..j]
      && page.next == if j == |content| then None else Some(At(content, j));
    SliceBetween(content, i, j);
    SplitAt(content, i);
    RoundTrip(content[..i]);
    RoundTrip(content[i..j]);
    assert j == |content| ==> content[..j] == content;
  }

  lemma SliceBetween(content: seq<Scalar>, i: nat, j: nat)
    requires i <= j <= |content|
    ensures At(content, i) <= At(content, j) <= |Encode(content)|
    ensures Encode(content)[At(content, i)..At(content, j)] == Encode(content[i..j])
  {
    SplitAt(content, j);
    EncodeAppend(content[..i], content[i..j]);
    assert content[..j] == content[..i] + content[i..j];
  }

  /** A stretch of the complete body between two boundaries. */
  ghost predicate Stretch(content: seq<Scalar>, offset: int, end: int, text: seq<Scalar>, i: nat, j: nat) {
    i <= j <= |content| && offset == At(content, i) && end == At(content, j) && text == content[i..j]
  }

  /** And nothing else passes: an accepted slice is exactly that stretch of the complete body. */
  lemma OnlyTheBodyPasses(page: Page, full: Page, offset: int)
    requires BodySlice(page, full, offset).Ok?
    ensures var end := if page.next.Some? then page.next.value else |Encode(full.text)|;
      exists i, j :: Stretch(full.text, offset, end, page.text, i, j)
  {
    hide Encode, Decode, DecodeIgnoring;
    var end := if page.next.Some? then page.next.value else |Encode(full.text)|;
    var i := BoundaryIndex(full.text, offset);
    SplitAt(full.text, i);
    SliceOfRest(Encode(full.text), offset, end - offset);
    var k := BoundaryIndex(full.text[i..], end - offset);
    assert full.text[i..][..k] == full.text[i..i + k];
    StretchFound(full.text, offset, end, page.text, i, i + k);
  }

  lemma BoundaryIndex(s: seq<Scalar>, k: nat) returns (i: nat)
    requires k <= |Encode(s)| && Decode(Encode(s)[..k]).Some?
    ensures i <= |s| && At(s, i) == k
  {
    PrefixBoundary(s, k);
    i :| 0 <= i <= |s| && |Encode(s[..i])| == k;
  }

  lemma StretchFound(content: seq<Scalar>, offset: int, end: int, text: seq<Scalar>, i: nat, j: nat)
    requires i <= j <= |content| && offset == At(content, i) && end - offset == |Encode(content[i..j])|
    requires offset <= end <= |Encode(content)| && Decode(Encode(content)[offset..end]) == Some(text)
    ensures Stretch(content, offset, end, text, i, j)
  {
    AtAdds(content, i, j);
    SliceBetween(content, i, j);
    RoundTrip(content[i..j]);
  }
}

/**
 Filtered listings read in pages: rows come in bounded batches in one strict order, a filter keeps some of
 them, and each page ends with a cursor at its last row. Ranks grow along the listing.
 */
module ListingPages {
  import opened Wrappers

  const BATCH: nat := 101

  datatype Entry<T> = Entry(rank: int, item: T)

  datatype Page<T> = Page(items: seq<Entry<T>>, next: Option<int>)

  predicate Ranked<T>(rows: seq<Entry<T>>) {
    forall i, j :: 0 <= i < j < |rows| ==> rows[i].rank < rows[j].rank
  }

  predicate Past<T>(e: Entry<T>, after: Option<int>) {
    after.None? || e.rank > after.value
  }

  /** The rows after a cursor. */
  function Beyond<T>(rows: seq<Entry<T>>, after: Option<int>): seq<Entry<T>> {
    if rows == [] then []
    else Beyond(rows[..|rows| - 1], after) + (if Past(rows[|rows| - 1], after) then [rows[|rows| - 1]] else [])
  }

  function Kept<T>(rows: seq<Entry<T>>, wanted: T -> bool): seq<Entry<T>> {
    if rows == [] then []
    else Kept(rows[..|rows| - 1], wanted) + (if wanted(rows[|rows| - 1].item) then [rows[|rows| - 1]] else [])
  }

  /** What a page is: the first wanted rows after the cursor, and a cursor only if there are more. */
  function PageOf<T>(rows: seq<Entry<T>>, wanted: T -> bool, after: Option<int>, limit: nat): Page<T>
    requires limit >= 1
  {
    var all := Kept(Beyond(rows, after), wanted);
    if |all| > limit then Page(all[..limit], Some(all[limit - 1].rank)) else Page(all, None)
  }

  /** One SQL batch. */
  function Fetch<T>(rows: seq<Entry<T>>, after: Option<int>): seq<Entry<T>> {
    var all := Beyond(rows, after);
    if |all| <= BATCH then all else all[..BATCH]
  }

  // ---- Lists split where a cursor stands ----

  lemma {:induction false} BeyondRest<T>(rows: seq<Entry<T>>, after: Option<int>) returns (n: nat)
    requires Ranked(rows)
    ensures n <= |rows| && Beyond(rows, after) == rows[n..]
    ensures forall i :: 0 <= i < |rows| ==> (Past(rows[i], after) <==> i >= n)
  {
    if rows == [] {
      n := 0;
    } else {
      n := BeyondRest(rows[..|rows| - 1], after);
      var last := rows[|rows| - 1];
      if Past(last, after) {
        assert rows[n..] == rows[..|rows| - 1][n..] + [last];
      } else {
        n := |rows|;
        forall i | 0 <= i < |rows| ensures !Past(rows[i], after) { assert i < |rows| - 1 ==> rows[i].rank < last.rank; }
        AllBehind(rows, after);
      }
    }
  }

  lemma {:induction false} AllBehind<T>(rows: seq<Entry<T>>, after: Option<int>)
    requires forall i :: 0 <= i < |rows| ==> !Past(rows[i], after)
    ensures Beyond(rows, after) == []
  {
    if rows != [] { AllBehind(rows[..|rows| - 1], after); }
  }

  lemma {:induction false} KeptAppend<T>(a: seq<Entry<T>>, b: seq<Entry<T>>, wanted: T -> bool)
    ensures Kept(a + b, wanted) == Kept(a, wanted) + Kept(b, wanted)
    decreases |b|
  {
    if b == [] {
      assert a + b == a;
    } else {
      assert (a + b)[..|a + b| - 1] == a + b[..|b| - 1];
      KeptAppend(a, b[..|b| - 1], wanted);
    }
  }

  /** A kept row splits the listing: the kept rows after its cursor are the kept rows after it. */
  lemma {:induction false} KeptSplits<T>(rows: seq<Entry<T>>, wanted: T -> bool, j: nat) returns (n: nat)
    requires j < |Kept(rows, wanted)|
    ensures n < |rows| && rows[n] == Kept(rows, wanted)[j]
    ensures Kept(rows[n + 1..], wanted) == Kept(rows, wanted)[j + 1..]
  {
    var init, last := rows[..|rows| - 1], rows[|rows| - 1];
    if j < |Kept(init, wanted)| {
      n := KeptSplits(init, wanted, j);
      SplitLonger(rows, wanted, n, j);
    } else {
      n := |rows| - 1;
      assert rows[n + 1..] == [] && Kept(rows, wanted)[j + 1..] == [];
    }
  }

  /** Adding a last row extends both sides of a split alike. */
  lemma SplitLonger<T>(rows: seq<Entry<T>>, wanted: T -> bool, n: nat, j: nat)
    requires rows != []
    requires var init := rows[..|rows| - 1];
      n < |init| && j < |Kept(init, wanted)| && init[n] == Kept(init, wanted)[j] && Kept(init[n + 1..], wanted) == Kept(init, wanted)[j + 1..]
    ensures j < |Kept(rows, wanted)| && rows[n] == Kept(rows, wanted)[j]
    ensures Kept(rows[n + 1..], wanted) == Kept(rows, wanted)[j + 1..]
  {
    var init, last := rows[..|rows| - 1], rows[|rows| - 1];
    var tail := rows[n + 1..];
    assert tail[..|tail| - 1] == init[n + 1..] && tail[|tail| - 1] == last;
    var more := if wanted(last.item) then [last] else [];
    assert Kept(tail, wanted) == Kept(init[n + 1..], wanted) + more;
    assert Kept(rows, wanted) == Kept(init, wanted) + more;
    assert (Kept(init, wanted) + more)[j + 1..] == Kept(init, wanted)[j + 1..] + more;
  }

  lemma CursorAt<T>(rows: seq<Entry<T>>, n: nat)
    requires Ranked(rows) && n < |rows|
    ensures Beyond(rows, Some(rows[n].rank)) == rows[n + 1..]
  {
    var k := BeyondRest(rows, Some(rows[n].rank));
    assert !Past(rows[n], Some(rows[n].rank));
    if n + 1 < |rows| { assert Past(rows[n + 1], Some(rows[n].rank)); }
  }

  lemma TailOfTail<T>(s: seq<T>, m: nat, n: nat)
    requires m + n < |s|
    ensures s[m..][n] == s[m + n] && s[m..][n + 1..] == s[m + n + 1..]
  {
  }

  /** Going on from the j-th kept row yields the kept rows after it. */
  lemma KeptFrom<T>(rows: seq<Entry<T>>, wanted: T -> bool, after: Option<int>, j: nat)
    requires Ranked(rows) && j < |Kept(Beyond(rows, after), wanted)|
    ensures var all := Kept(Beyond(rows, after), wanted);
      Kept(Beyond(rows, Some(all[j].rank)), wanted) == all[j + 1..]
  {
    hide Kept, Beyond;
    var m := BeyondRest(rows, after);
    var n := KeptSplits(rows[m..], wanted, j);
    TailOfTail(rows, m, n);
    CursorAt(rows, m + n);
  }

  // ---- The page loops ----

  /** How far a page in the making has come: some batches wholly read, part of the next. */
  ghost predicate Progress<T>(rows: seq<Entry<T>>, wanted: T -> bool, after0: Option<int>, after: Option<int>, got: seq<Entry<T>>) {
    Kept(Beyond(rows, after0), wanted) == got + Kept(Beyond(rows, after), wanted)
  }

  lemma OneMoreRow<T>(rows: seq<Entry<T>>, wanted: T -> bool, after: Option<int>, batch: seq<Entry<T>>, i: nat)
    requires Ranked(rows) && batch == Fetch(rows, after) && i < |batch|
    ensures Beyond(rows, if i == 0 then after else Some(batch[i - 1].rank)) == [batch[i]] + Beyond(rows, Some(batch[i].rank))
  {
    hide Beyond;
    var m := BeyondRest(rows, after);
    assert batch[i] == rows[m + i];
    CursorAt(rows, m + i);
    if i > 0 {
      assert batch[i - 1] == rows[m + i - 1];
      CursorAt(rows, m + i - 1);
    }
    assert rows[m + i..] == [rows[m + i]] + rows[m + i + 1..];
  }

  lemma KeptCons<T>(e: Entry<T>, rest: seq<Entry<T>>, wanted: T -> bool)
    ensures Kept([e] + rest, wanted) == (if wanted(e.item) then [e] else []) + Kept(rest, wanted)
  {
    KeptAppend([e], rest, wanted);
    assert [e][..0] == [];
    assert Kept([e], wanted) == Kept([], wanted) + (if wanted(e.item) then [e] else []);
  }

  lemma BatchEnds<T>(rows: seq<Entry<T>>, after: Option<int>, batch: seq<Entry<T>>)
    requires Ranked(rows) && batch == Fetch(rows, after) && |batch| < BATCH
    ensures Beyond(rows, if batch == [] then after else Some(batch[|batch| - 1].rank)) == []
  {
    var m := BeyondRest(rows, after);
    if batch != [] {
      assert batch[|batch| - 1] == rows[|rows| - 1];
      CursorAt(rows, |rows| - 1);
    }
  }

  lemma BatchShrinks<T>(rows: seq<Entry<T>>, after: Option<int>, batch: seq<Entry<T>>)
    requires Ranked(rows) && batch == Fetch(rows, after) && batch != []
    ensures |Beyond(rows, Some(batch[|batch| - 1].rank))| < |Beyond(rows, after)|
  {
    var m := BeyondRest(rows, after);
    assert batch[|batch| - 1] == rows[m + |batch| - 1];
    CursorAt(rows, m + |batch| - 1);
  }

  /** One batch of the notice loop: append wanted rows until the page is full and one more was seen. */
  method TakeBatch<T>(rows: seq<Entry<T>>, wanted: T -> bool, after0: Option<int>, after: Option<int>, items0: seq<Entry<T>>, batch: seq<Entry<T>>, limit: nat)
    returns (items: seq<Entry<T>>, position: Option<int>, more: bool)
    requires Ranked(rows) && batch == Fetch(rows, after) && |items0| <= limit && limit >= 1
    requires Progress(rows, wanted, after0, after, items0)
    ensures |items| <= limit
    ensures more ==> |items| == limit && |Kept(Beyond(rows, after0), wanted)| > limit && items == Kept(Beyond(rows, after0), wanted)[..limit]
    ensures !more ==>
      && position == (if batch == [] then after else Some(batch[|batch| - 1].rank))
      && Progress(rows, wanted, after0, position, items)
  {
    items, position, more := items0, after, false;
    for i := 0 to |batch|
      invariant |items| <= limit && position == if i == 0 then after else Some(batch[i - 1].rank)
      invariant Progress(rows, wanted, after0, position, items)
    {
      OneMoreRow(rows, wanted, after, batch, i);
      KeptCons(batch[i], Beyond(rows, Some(batch[i].rank)), wanted);
      position := Some(batch[i].rank);
      if wanted(batch[i].item) {
        if |items| == limit {
          more := true;
          return;
        }
        items := items + [batch[i]];
      }
    }
  }

  /** The notice listing's loop: batches in order, until the page is full with one more to come or the rows run out. */
  method ReadPage<T>(rows: seq<Entry<T>>, wanted: T -> bool, after0: Option<int>, limit: nat) returns (page: Page<T>)
    requires Ranked(rows) && limit >= 1
    ensures page == PageOf(rows, wanted, after0, limit)
  {
    var items, after, more := [], after0, false;
    while true
      invariant !more && |items| <= limit && Progress(rows, wanted, after0, after, items)
      decreases |Beyond(rows, after)|
    {
      var batch := Fetch(rows, after);
      var position;
      items, position, more := TakeBatch(rows, wanted, after0, after, items, batch, limit);
      if more {
        return Page(items, Some(items[limit - 1].rank));
      }
      if |batch| < BATCH {
        BatchEnds(rows, after, batch);
        assert items + [] == items;
        return Page(items, None);
      }
      BatchShrinks(rows, after, batch);
      after := position;
    }
  }

  /** One batch of the conversation loop: append wanted rows, stopping as soon as there is one more than the page holds. */
  method GatherBatch<T>(rows: seq<Entry<T>>, wanted: T -> bool, after0: Option<int>, after: Option<int>, selected0: seq<Entry<T>>, batch: seq<Entry<T>>, limit: nat)
    returns (selected: seq<Entry<T>>, before: Option<int>)
    requires Ranked(rows) && batch == Fetch(rows, after) && |selected0| <= limit
    requires Progress(rows, wanted, after0, after, selected0)
    ensures |selected| <= limit + 1
    ensures selected <= Kept(Beyond(rows, after0), wanted)
    ensures |selected| <= limit ==>
      && before == (if batch == [] then after else Some(batch[|batch| - 1].rank))
      && Progress(rows, wanted, after0, before, selected)
  {
    selected, before := selected0, after;
    for i := 0 to |batch|
      invariant |selected| <= limit && before == if i == 0 then after else Some(batch[i - 1].rank)
      invariant Progress(rows, wanted, after0, before, selected)
    {
      OneMoreRow(rows, wanted, after, batch, i);
      KeptCons(batch[i], Beyond(rows, Some(batch[i].rank)), wanted);
      before := Some(batch[i].rank);
      if wanted(batch[i].item) {
        selected := selected + [batch[i]];
        if |selected| > limit {
          return;
        }
      }
    }
  }

  /** The conversation listing's loop: gather one row more than the page holds, then cut. */
  method GatherPage<T>(rows: seq<Entry<T>>, wanted: T -> bool, after0: Option<int>, limit: nat) returns (page: Page<T>)
    requires Ranked(rows) && limit >= 1
    ensures page == PageOf(rows, wanted, after0, limit)
  {
    var selected, before := [], after0;
    while |selected| <= limit
      invariant |selected| <= limit + 1 && selected <= Kept(Beyond(rows, after0), wanted)
      invariant |selected| <= limit ==> Progress(rows, wanted, after0, before, selected)
      decreases |selected| <= limit, |Beyond(rows, before)|
    {
      var batch, position := Fetch(rows, before), before;
      selected, position := GatherBatch(rows, wanted, after0, before, selected, batch, limit);
      if |selected| > limit {
        break;
      }
      if |batch| < BATCH {
        BatchEnds(rows, before, batch);
        assert selected + [] == selected;
        return Page(selected, None);
      }
      BatchShrinks(rows, before, batch);
      before := position;
    }
    page := Page(selected[..limit], Some(selected[limit - 1].rank));
  }

  // ---- Pages over changing data ----

  /** One page request after another, each at the previous cursor, each on the listing as it then stands. */
  function Follow<T>(listings: seq<seq<Entry<T>>>, wanted: T -> bool, after: Option<int>, limit: nat): seq<Page<T>>
    requires limit >= 1
  {
    if listings == [] then []
    else
      var page := PageOf(listings[0], wanted, after, limit);
      [page] + (if page.next.None? then [] else Follow(listings[1..], wanted, page.next, limit))
  }

  function Items<T>(pages: seq<Page<T>>): seq<Entry<T>> {
    if pages == [] then [] else pages[0].items + Items(pages[1..])
  }

  /** As long as every request sees the same listing, the pages tile its wanted rows: no gap, no duplicate, in order. */
  lemma {:induction false} PagesTile<T>(listings: seq<seq<Entry<T>>>, rows: seq<Entry<T>>, wanted: T -> bool, after: Option<int>, limit: nat)
    requires Ranked(rows) && limit >= 1 && listings != [] && forall l :: l in listings ==> l == rows
    ensures var pages := Follow(listings, wanted, after, limit);
      var all := Kept(Beyond(rows, after), wanted);
      && pages != []
      && (pages[|pages| - 1].next.None? ==> Items(pages) == all)
      && (pages[|pages| - 1].next.Some? ==> |pages| == |listings| && Items(pages) <= all && |Items(pages)| == limit * |pages|)
    decreases |listings|
  {
    hide Kept, Beyond;
    assert listings[0] in listings;
    var page := PageOf(rows, wanted, after, limit);
    if page.next.None? || |listings| == 1 {
      OnePage(listings, wanted, after, limit, page);
    } else {
      KeptFrom(rows, wanted, after, limit - 1);
      forall l | l in listings[1..] ensures l == rows { assert l in listings; }
      PagesTile(listings[1..], rows, wanted, page.next, limit);
      MorePages(Kept(Beyond(rows, after), wanted), page, Follow(listings[1..], wanted, page.next, limit), limit);
    }
  }

  lemma OnePage<T>(listings: seq<seq<Entry<T>>>, wanted: T -> bool, after: Option<int>, limit: nat, page: Page<T>)
    requires limit >= 1 && listings != [] && page == PageOf(listings[0], wanted, after, limit) && (page.next.None? || |listings| == 1)
    ensures Follow(listings, wanted, after, limit) == [page] && Items([page]) == page.items
  {
    hide Kept, Beyond;
    if page.next.Some? { assert listings[1..] == []; }
    assert [page][1..] == [];
    assert page.items + [] == page.items;
  }

  lemma MorePages<T>(all: seq<Entry<T>>, page: Page<T>, rest: seq<Page<T>>, limit: nat)
    requires |all| > limit >= 1 && page.items == all[..limit] && rest != []
    ensures var pages := [page] + rest;
      && pages[|pages| - 1] == rest[|rest| - 1]
      && (Items(rest) == all[limit..] ==> Items(pages) == all)
      && (Items(rest) <= all[limit..] ==> Items(pages) <= all)
      && (|Items(rest)| == limit * |rest| ==> |Items(pages)| == limit * |pages|)
  {
    var pages := [page] + rest;
    assert pages[1..] == rest;
    assert all == all[..limit] + all[limit..];
    PrefixOfRest(all[..limit], Items(rest), all[limit..]);
    DistributeOverMinus(limit, |rest| + 1, 1);
  }

  lemma PrefixOfRest<T>(a: seq<T>, b: seq<T>, c: seq<T>)
    ensures b <= c ==> a + b <= a + c
  {
  }

  // ---- Revision sums ----

  /** A private row: its revision counts its writes, so an equal revision means an unchanged row. */
  datatype Versioned<V> = Versioned(revision: nat, value: V)

  function Total<V>(rows: seq<Versioned<V>>): nat {
    if rows == [] then 0 else Total(rows[..|rows| - 1]) + rows[|rows| - 1].revision
  }

  /** Later in time: rows are never removed, revisions never fall, a row changes only with its revision, new rows start above zero. */
  ghost predicate Later<V>(rows: seq<Versioned<V>>, later: seq<Versioned<V>>) {
    && |rows| <= |later|
    && (forall i :: 0 <= i < |rows| ==> rows[i].revision <= later[i].revision && (rows[i].revision == later[i].revision ==> rows[i] == later[i]))
    && (forall i :: |rows| <= i < |later| ==> later[i].revision >= 1)
  }

  lemma {:induction false} TotalGrows<V>(rows: seq<Versioned<V>>, later: seq<Versioned<V>>)
    requires Later(rows, later)
    ensures Total(rows) <= Total(later)
    decreases |later|
  {
    if |later| > |rows| {
      TotalGrows(rows, later[..|later| - 1]);
    } else if rows != [] {
      TotalGrows(rows[..|rows| - 1], later[..|later| - 1]);
    }
  }

  /** Equal sums of never-decreasing revisions: nothing changed at all. */
  lemma {:induction false} EqualTotalsUnchanged<V>(rows: seq<Versioned<V>>, later: seq<Versioned<V>>)
    requires Later(rows, later) && Total(rows) == Total(later)
    ensures rows == later
    decreases |later|
  {
    if |later| > |rows| {
      TotalGrows(rows, later[..|later| - 1]);
    } else if rows != [] {
      TotalGrows(rows[..|rows| - 1], later[..|later| - 1]);
      EqualTotalsUnchanged(rows[..|rows| - 1], later[..|later| - 1]);
      assert rows == rows[..|rows| - 1] + [rows[|rows| - 1]];
    }
  }
}

/** The notice listing: pages are served only while nothing about the recipient's notices has changed, so together they are one moment's list. */
module NoticePages {
  import opened Wrappers
  import opened ListingPages

  datatype Seen = Seen(sequence: int, seen: bool)

  /** One recipient's notices in sequence order, the version row of each, and the viewer's seen marks. */
  datatype World = World(sequences: seq<int>, versions: seq<Versioned<int>>, marks: seq<Versioned<Seen>>)

  /** What the page version digests: the count, the newest sequence, and the two revision sums. */
  datatype Version = Version(count: nat, newest: int, versions: nat, marks: nat)

  function VersionOf(w: World): Version {
    Version(|w.sequences|, if w.sequences == [] then 0 else w.sequences[|w.sequences| - 1], Total(w.versions), Total(w.marks))
  }

  predicate Ascending(s: seq<int>) {
    forall i, j :: 0 <= i < j < |s| ==> s[i] < s[j]
  }

  function Listing(sequences: seq<int>, high: int): seq<Entry<int>> {
    if sequences == [] then []
    else
      Listing(sequences[..|sequences| - 1], high)
      + (if sequences[|sequences| - 1] <= high then [Entry(sequences[|sequences| - 1], sequences[|sequences| - 1])] else [])
  }

  function IsSeen(marks: seq<Versioned<Seen>>, sequence: int): bool {
    marks != [] &&
    if marks[|marks| - 1].value.sequence == sequence then marks[|marks| - 1].value.seen else IsSeen(marks[..|marks| - 1], sequence)
  }

  function Wanted(w: World, seen: Option<bool>): int -> bool {
    (sequence: int) => seen.None? || IsSeen(w.marks, sequence) == seen.value
  }

  datatype Cursor = Cursor(high: int, after: Option<int>, version: Version)

  datatype PageError = NoticeStateChanged

  function First(w: World): Cursor {
    Cursor(if w.sequences == [] then 0 else w.sequences[|w.sequences| - 1], None, VersionOf(w))
  }

  function Serve(w: World, seen: Option<bool>, cursor: Cursor, limit: nat): Result<(Page<int>, Cursor), PageError>
    requires limit >= 1
  {
    if cursor.version != VersionOf(w) then Err(NoticeStateChanged)
    else
      var page := PageOf(Listing(w.sequences, cursor.high), Wanted(w, seen), cursor.after, limit);
      Ok((page, cursor.(after := page.next)))
  }

  /** Notices are appended in sequence order, version and seen rows only move forward. */
  ghost predicate Evolves(w: World, w': World) {
    w.sequences <= w'.sequences && Ascending(w'.sequences) && Later(w.versions, w'.versions) && Later(w.marks, w'.marks)
  }

  /** Equal versions mean an unchanged world. */
  lemma SameVersionSameWorld(w: World, w': World)
    requires Evolves(w, w') && VersionOf(w) == VersionOf(w')
    ensures w' == w
  {
    EqualTotalsUnchanged(w.versions, w'.versions);
    EqualTotalsUnchanged(w.marks, w'.marks);
  }

  lemma {:induction false} ListingRanked(sequences: seq<int>, high: int)
    requires Ascending(sequences)
    ensures Ranked(Listing(sequences, high))
    ensures forall e :: e in Listing(sequences, high) ==> e.rank == e.item && e.item in sequences && e.item <= high
    ensures forall s :: s in sequences && s <= high ==> Entry(s, s) in Listing(sequences, high)
    decreases |sequences|
  {
    if sequences != [] {
      var init, last := sequences[..|sequences| - 1], sequences[|sequences| - 1];
      ListingRanked(init, high);
      assert sequences == init + [last];
      var before := Listing(init, high);
      forall i | 0 <= i < |before| ensures before[i].rank < last {
        assert before[i] in before && before[i].item in init;
      }
    }
  }

  /** Page after page, each on the notices as they then are. */
  function Read(worlds: seq<World>, seen: Option<bool>, cursor: Cursor, limit: nat): Result<seq<Page<int>>, PageError>
    requires limit >= 1
  {
    if worlds == [] then Ok([])
    else
      var served := Serve(worlds[0], seen, cursor, limit);
      if served.Err? then Err(served.error)
      else
        var (page, next) := served.value;
        if page.next.None? then Ok([page])
        else
          var rest := Read(worlds[1..], seen, next, limit);
          if rest.Err? then rest else Ok([page] + rest.value)
  }

  lemma {:induction false} ReadIsFollow(w: World, worlds: seq<World>, seen: Option<bool>, cursor: Cursor, limit: nat)
    requires limit >= 1 && cursor.version == VersionOf(w) && forall v :: v in worlds ==> Evolves(w, v)
    requires Read(worlds, seen, cursor, limit).Ok?
    ensures Read(worlds, seen, cursor, limit).value
         == Follow(seq(|worlds|, i => Listing(w.sequences, cursor.high)), Wanted(w, seen), cursor.after, limit)
    decreases |worlds|
  {
    if worlds != [] {
      assert worlds[0] in worlds;
      SameVersionSameWorld(w, worlds[0]);
      var listings := seq(|worlds|, i => Listing(w.sequences, cursor.high));
      assert listings[1..] == seq(|worlds| - 1, i => Listing(w.sequences, cursor.high));
      var (page, next) := Serve(worlds[0], seen, cursor, limit).value;
      if page.next.Some? {
        forall v | v in worlds[1..] ensures Evolves(w, v) { assert v in worlds; }
        ReadIsFollow(w, worlds[1..], seen, next, limit);
      }
    }
  }

  /** A complete reading is exactly the filtered list of the first page's moment, in sequence order; any change in between is reported instead. */
  lemma ConcatenatedPages(w: World, worlds: seq<World>, seen: Option<bool>, limit: nat)
    requires limit >= 1 && worlds != [] && Ascending(w.sequences) && forall v :: v in worlds ==> Evolves(w, v)
    requires Read(worlds, seen, First(w), limit).Ok?
    requires var pages := Read(worlds, seen, First(w), limit).value; pages != [] && pages[|pages| - 1].next.None?
    ensures var rows := Listing(w.sequences, First(w).high);
      && Items(Read(worlds, seen, First(w), limit).value) == Kept(rows, Wanted(w, seen))
      && Ranked(rows) && forall s :: s in w.sequences ==> Entry(s, s) in rows
  {
    hide Kept, Beyond, Listing, Items;
    var rows := Listing(w.sequences, First(w).high);
    CoversAll(w);
    ReadIsFollow(w, worlds, seen, First(w), limit);
    assert seq(|worlds|, i => rows) == seq(|worlds|, i => Listing(w.sequences, First(w).high));
    PagesTile(seq(|worlds|, i => rows), rows, Wanted(w, seen), None, limit);
    Everything(rows);
  }

  /** The captured high water leaves no notice out. */
  lemma CoversAll(w: World)
    requires Ascending(w.sequences)
    ensures var rows := Listing(w.sequences, First(w).high);
      Ranked(rows) && forall s :: s in w.sequences ==> Entry(s, s) in rows
  {
    ListingRanked(w.sequences, First(w).high);
    forall s | s in w.sequences ensures s <= First(w).high {
      var i :| 0 <= i < |w.sequences| && w.sequences[i] == s;
      assert i < |w.sequences| - 1 ==> w.sequences[i] < w.sequences[|w.sequences| - 1];
    }
  }

  lemma {:induction false} Everything(rows: seq<Entry<int>>)
    ensures Beyond(rows, None) == rows
  {
    if rows != [] { Everything(rows[..|rows| - 1]); }
  }
}

/** The direct-pair conversation listing: one row per peer, newest first, frozen at a captured high water while messages go on arriving. */
module Conversations {
  import opened Wrappers
  import opened ListingPages

  datatype Message = Message(sequence: int, sender: string, recipient: string)

  /** Private state of the viewer: read marks and preferences, each row counting its own writes. */
  datatype Mark = Mark(peer: string, through: nat)
  datatype Preference = Preference(peer: string, archived: bool)

  datatype World = World(messages: seq<Message>, marks: seq<Versioned<Mark>>, preferences: seq<Versioned<Preference>>)

  predicate Mine(m: Message, address: string) {
    m.sender == address || m.recipient == address
  }

  function Peer(m: Message, address: string): string {
    if m.sender == address then m.recipient else m.sender
  }

  /** Rows of the grouped query, newest conversation first; rank is the negated last sequence. */
  function Pairs(messages: seq<Message>, address: string, high: int, seen: set<string>): seq<Entry<string>> {
    if messages == [] then []
    else
      var init, m := messages[..|messages| - 1], messages[|messages| - 1];
      if m.sequence > high || !Mine(m, address) || Peer(m, address) in seen then Pairs(init, address, high, seen)
      else [Entry(-m.sequence, Peer(m, address))] + Pairs(init, address, high, seen + {Peer(m, address)})
  }

  predicate InOrder(messages: seq<Message>) {
    forall i, j :: 0 <= i < j < |messages| ==> messages[i].sequence < messages[j].sequence
  }

  /** What grouping by peer means: exactly the peers written to or heard from up to the high water, each at its newest message. */
  ghost predicate Grouped(messages: seq<Message>, address: string, high: int, seen: set<string>, rows: seq<Entry<string>>) {
    && Ranked(rows)
    && (forall r :: r in rows ==> r.item !in seen && Newest(messages, address, high, r.item, -r.rank))
    && (forall i :: 0 <= i < |messages| ==> Covered(messages[i], address, high, seen, rows))
  }

  ghost predicate Covered(m: Message, address: string, high: int, seen: set<string>, rows: seq<Entry<string>>) {
    Mine(m, address) && m.sequence <= high && Peer(m, address) !in seen ==> exists r :: r in rows && r.item == Peer(m, address)
  }

  /** The greatest sequence of a message exchanged with this peer, up to the high water. */
  ghost predicate Newest(messages: seq<Message>, address: string, high: int, peer: string, sequence: int) {
    && (exists i :: 0 <= i < |messages| && Exchanged(messages[i], address, high, peer) && messages[i].sequence == sequence)
    && (forall i :: 0 <= i < |messages| && Exchanged(messages[i], address, high, peer) ==> messages[i].sequence <= sequence)
  }

  predicate Exchanged(m: Message, address: string, high: int, peer: string) {
    Mine(m, address) && Peer(m, address) == peer && m.sequence <= high
  }

  lemma NewestExtends(messages: seq<Message>, m: Message, address: string, high: int, peer: string, sequence: int)
    requires Newest(messages, address, high, peer, sequence) && !Exchanged(m, address, high, peer)
    ensures Newest(messages + [m], address, high, peer, sequence)
  {
    var i :| 0 <= i < |messages| && Exchanged(messages[i], address, high, peer) && messages[i].sequence == sequence;
    assert (messages + [m])[i] == messages[i];
  }

  lemma {:induction false} PairsBelow(messages: seq<Message>, address: string, high: int, seen: set<string>, bound: int)
    requires forall i :: 0 <= i < |messages| ==> messages[i].sequence < bound
    ensures forall r :: r in Pairs(messages, address, high, seen) ==> -r.rank < bound
    decreases |messages|
  {
    if messages != [] {
      var m := messages[|messages| - 1];
      PairsBelow(messages[..|messages| - 1], address, high, seen, bound);
      PairsBelow(messages[..|messages| - 1], address, high, seen + {Peer(m, address)}, bound);
    }
  }

  /** The grouped query, as computed, is grouping. */
  lemma {:induction false} PairsGrouped(messages: seq<Message>, address: string, high: int, seen: set<string>)
    requires InOrder(messages)
    ensures Grouped(messages, address, high, seen, Pairs(messages, address, high, seen))
    decreases |messages|
  {
    hide Grouped, Newest, Covered;
    if messages == [] {
      NoMessages(address, high, seen);
    } else {
      var init, m := messages[..|messages| - 1], messages[|messages| - 1];
      assert messages == init + [m];
      if m.sequence > high || !Mine(m, address) || Peer(m, address) in seen {
        PairsGrouped(init, address, high, seen);
        SkippedMessage(init, m, address, high, seen, Pairs(init, address, high, seen));
      } else {
        var peer := Peer(m, address);
        var rest := Pairs(init, address, high, seen + {peer});
        PairsGrouped(init, address, high, seen + {peer});
        PairsBelow(init, address, high, seen + {peer}, m.sequence);
        NewRow(init, m, address, high, seen, rest);
        assert Pairs(messages, address, high, seen) == [Entry(-m.sequence, peer)] + rest;
      }
    }
  }

  lemma NoMessages(address: string, high: int, seen: set<string>)
    ensures Grouped([], address, high, seen, Pairs([], address, high, seen))
  {
  }

  lemma SkippedMessage(init: seq<Message>, m: Message, address: string, high: int, seen: set<string>, rows: seq<Entry<string>>)
    requires Grouped(init, address, high, seen, rows)
    requires m.sequence > high || !Mine(m, address) || Peer(m, address) in seen
    ensures Grouped(init + [m], address, high, seen, rows)
  {
    forall r | r in rows ensures Newest(init + [m], address, high, r.item, -r.rank) {
      NewestExtends(init, m, address, high, r.item, -r.rank);
    }
    forall i | 0 <= i < |init + [m]| ensures Covered((init + [m])[i], address, high, seen, rows) {
      if i < |init| { assert Covered(init[i], address, high, seen, rows); }
    }
  }

  lemma NewRow(init: seq<Message>, m: Message, address: string, high: int, seen: set<string>, rest: seq<Entry<string>>)
    requires InOrder(init + [m]) && m.sequence <= high && Mine(m, address) && Peer(m, address) !in seen
    requires Grouped(init, address, high, seen + {Peer(m, address)}, rest) && forall r :: r in rest ==> -r.rank < m.sequence
    ensures Grouped(init + [m], address, high, seen, [Entry(-m.sequence, Peer(m, address))] + rest)
  {
    hide Newest, Covered;
    var row := Entry(-m.sequence, Peer(m, address));
    RankedCons(row, rest);
    RowsNewest(init, m, address, high, seen, rest);
    RowsCover(init, m, address, high, seen, rest);
  }

  lemma RowsNewest(init: seq<Message>, m: Message, address: string, high: int, seen: set<string>, rest: seq<Entry<string>>)
    requires InOrder(init + [m]) && m.sequence <= high && Mine(m, address) && Peer(m, address) !in seen
    requires forall r :: r in rest ==> r.item !in seen + {Peer(m, address)} && Newest(init, address, high, r.item, -r.rank)
    ensures forall r :: r in [Entry(-m.sequence, Peer(m, address))] + rest ==>
      r.item !in seen && Newest(init + [m], address, high, r.item, -r.rank)
  {
    hide Newest;
    LastIsNewest(init, m, address, high);
    forall r | r in rest ensures Newest(init + [m], address, high, r.item, -r.rank) {
      NewestExtends(init, m, address, high, r.item, -r.rank);
    }
  }

  lemma RowsCover(init: seq<Message>, m: Message, address: string, high: int, seen: set<string>, rest: seq<Entry<string>>)
    requires forall i :: 0 <= i < |init| ==> Covered(init[i], address, high, seen + {Peer(m, address)}, rest)
    ensures forall i :: 0 <= i < |init + [m]| ==> Covered((init + [m])[i], address, high, seen, [Entry(-m.sequence, Peer(m, address))] + rest)
  {
    var row := Entry(-m.sequence, Peer(m, address));
    forall i | 0 <= i < |init + [m]| ensures Covered((init + [m])[i], address, high, seen, [row] + rest) {
      if i < |init| {
        CoveredMore(init[i], address, high, seen, row, rest);
      } else {
        assert row in [row] + rest;
      }
    }
  }

  lemma CoveredMore(m: Message, address: string, high: int, seen: set<string>, row: Entry<string>, rest: seq<Entry<string>>)
    requires Covered(m, address, high, seen + {row.item}, rest)
    ensures Covered(m, address, high, seen, [row] + rest)
  {
    if Mine(m, address) && m.sequence <= high && Peer(m, address) !in seen {
      if Peer(m, address) == row.item {
        assert row in [row] + rest;
      } else {
        var r :| r in rest && r.item == Peer(m, address);
        assert r in [row] + rest;
      }
    }
  }

  lemma RankedCons(row: Entry<string>, rest: seq<Entry<string>>)
    requires Ranked(rest) && forall r :: r in rest ==> row.rank < r.rank
    ensures Ranked([row] + rest)
  {
  }

  lemma LastIsNewest(init: seq<Message>, m: Message, address: string, high: int)
    requires InOrder(init + [m]) && m.sequence <= high && Mine(m, address)
    ensures Newest(init + [m], address, high, Peer(m, address), m.sequence)
  {
    var messages := init + [m];
    assert messages[|init|] == m;
    forall i | 0 <= i < |init| ensures messages[i].sequence < m.sequence {}
  }

  /** Messages beyond the high water change nothing. */
  lemma {:induction false} PairsFrozen(messages: seq<Message>, more: seq<Message>, address: string, high: int, seen: set<string>)
    requires forall m :: m in more ==> m.sequence > high
    ensures Pairs(messages + more, address, high, seen) == Pairs(messages, address, high, seen)
    decreases |more|
  {
    if more == [] {
      assert messages + more == messages;
    } else {
      var last := more[|more| - 1];
      assert last in more && (messages + more)[..|messages + more| - 1] == messages + more[..|more| - 1];
      PairsFrozen(messages, more[..|more| - 1], address, high, seen);
    }
  }

  function Archived(preferences: seq<Versioned<Preference>>, peer: string): bool {
    preferences != [] &&
    if preferences[|preferences| - 1].value.peer == peer then preferences[|preferences| - 1].value.archived
    else Archived(preferences[..|preferences| - 1], peer)
  }

  function Wanted(w: World, includeArchived: bool): string -> bool {
    (peer: string) => includeArchived || !Archived(w.preferences, peer)
  }

  /** The state a cursor seals: the high water, where the page stopped, and the two revision sums. */
  datatype Cursor = Cursor(high: int, before: Option<int>, marks: nat, preferences: nat)

  datatype PageError = PersonalStateChanged

  function Highest(messages: seq<Message>, address: string): int {
    if messages == [] then 0
    else if Mine(messages[|messages| - 1], address) then Max(messages[|messages| - 1].sequence, Highest(messages[..|messages| - 1], address))
    else Highest(messages[..|messages| - 1], address)
  }

  function First(w: World, address: string): Cursor {
    Cursor(Highest(w.messages, address), None, Total(w.marks), Total(w.preferences))
  }

  function Serve(w: World, address: string, includeArchived: bool, cursor: Cursor, limit: nat): Result<(Page<string>, Cursor), PageError>
    requires limit >= 1
  {
    if cursor.marks != Total(w.marks) || cursor.preferences != Total(w.preferences) then Err(PersonalStateChanged)
    else
      var page := PageOf(Pairs(w.messages, address, cursor.high, {}), Wanted(w, includeArchived), cursor.before, limit);
      Ok((page, cursor.(before := page.next)))
  }

  /** One world follows another: messages are appended with later sequences, private rows only move forward. */
  ghost predicate Evolves(w: World, w': World, high: int) {
    && w.messages <= w'.messages && InOrder(w'.messages)
    && (forall i :: |w.messages| <= i < |w'.messages| ==> w'.messages[i].sequence > high)
    && Later(w.marks, w'.marks) && Later(w.preferences, w'.preferences)
  }

  /** A page that is served at all shows the listing of the first page's moment, whatever has arrived since. */
  lemma ServedAsCaptured(w: World, w': World, address: string, includeArchived: bool, cursor: Cursor, limit: nat)
    requires limit >= 1 && Evolves(w, w', cursor.high)
    requires cursor.marks == Total(w.marks) && cursor.preferences == Total(w.preferences)
    requires Serve(w', address, includeArchived, cursor, limit).Ok?
    ensures Serve(w', address, includeArchived, cursor, limit) == Serve(w, address, includeArchived, cursor, limit)
    ensures w'.marks == w.marks && w'.preferences == w.preferences
  {
    EqualTotalsUnchanged(w.marks, w'.marks);
    EqualTotalsUnchanged(w.preferences, w'.preferences);
    var more := w'.messages[|w.messages|..];
    assert w'.messages == w.messages + more;
    PairsFrozen(w.messages, more, address, cursor.high, {});
  }

  /** Page after page, each in the world as it then is, until a page has no cursor or is refused. */
  function Read(worlds: seq<World>, address: string, includeArchived: bool, cursor: Cursor, limit: nat): Result<seq<Page<string>>, PageError>
    requires limit >= 1
  {
    if worlds == [] then Ok([])
    else
      var served := Serve(worlds[0], address, includeArchived, cursor, limit);
      if served.Err? then Err(served.error)
      else
        var (page, next) := served.value;
        if page.next.None? then Ok([page])
        else
          var rest := Read(worlds[1..], address, includeArchived, next, limit);
          if rest.Err? then rest else Ok([page] + rest.value)
  }

  /** Pages that were all served are the pages of the captured listing. */
  lemma {:induction false} ReadIsFollow(w: World, worlds: seq<World>, address: string, includeArchived: bool, cursor: Cursor, limit: nat)
    requires limit >= 1 && (forall v :: v in worlds ==> Evolves(w, v, cursor.high))
    requires cursor.marks == Total(w.marks) && cursor.preferences == Total(w.preferences)
    requires Read(worlds, address, includeArchived, cursor, limit).Ok?
    ensures Read(worlds, address, includeArchived, cursor, limit).value
         == Follow(seq(|worlds|, i => Pairs(w.messages, address, cursor.high, {})), Wanted(w, includeArchived), cursor.before, limit)
    decreases |worlds|
  {
    if worlds != [] {
      assert worlds[0] in worlds;
      ServedAsCaptured(w, worlds[0], address, includeArchived, cursor, limit);
      var (page, next) := Serve(worlds[0], address, includeArchived, cursor, limit).value;
      var listings := seq(|worlds|, i => Pairs(w.messages, address, cursor.high, {}));
      assert listings[1..] == seq(|worlds| - 1, i => Pairs(w.messages, address, cursor.high, {}));
      if page.next.Some? {
        forall v | v in worlds[1..] ensures Evolves(w, v, cursor.high) { assert v in worlds; }
        ReadIsFollow(w, worlds[1..], address, includeArchived, next, limit);
      }
    }
  }

  /**
   A complete reading, however many messages arrive between its pages, is exactly the filtered listing below
   the captured high water: every wanted peer once, at its newest message, newest first. A change of private
   state in between is reported instead of being mixed in.
   */
  lemma ConcatenatedPages(w: World, worlds: seq<World>, address: string, includeArchived: bool, limit: nat)
    requires limit >= 1 && worlds != [] && InOrder(w.messages)
    requires forall v :: v in worlds ==> Evolves(w, v, Highest(w.messages, address))
    requires Read(worlds, address, includeArchived, First(w, address), limit).Ok?
    requires var pages := Read(worlds, address, includeArchived, First(w, address), limit).value;
      pages != [] && pages[|pages| - 1].next.None?
    ensures var rows := Pairs(w.messages, address, Highest(w.messages, address), {});
      && Items(Read(worlds, address, includeArchived, First(w, address), limit).value) == Kept(rows, Wanted(w, includeArchived))
      && Grouped(w.messages, address, Highest(w.messages, address), {}, rows)
  {
    var high, cursor := Highest(w.messages, address), First(w, address);
    var rows := Pairs(w.messages, address, high, {});
    var listings := seq(|worlds|, i => rows);
    ReadIsFollow(w, worlds, address, includeArchived, cursor, limit);
    assert listings == seq(|worlds|, i => Pairs(w.messages, address, cursor.high, {}));
    PairsGrouped(w.messages, address, high, {});
    PagesTile(listings, rows, Wanted(w, includeArchived), None, limit);
    EverythingBeyond(rows);
  }

  lemma {:induction false} EverythingBeyond(rows: seq<Entry<string>>)
    ensures Beyond(rows, None) == rows
  {
    if rows != [] { EverythingBeyond(rows[..|rows| - 1]); }
  }
}

/** Unread counts: the read mark is stored as a pair-local rank, messages are ordered by a global sequence, and the two always agree. */
module UnreadCounts {
  import opened Wrappers
  import PersonalState

  /** A message of one pair; incoming when the viewer is its recipient. */
  datatype Message = Message(sequence: int, incoming: bool)

  predicate InOrder(pair: seq<Message>) {
    forall i, j :: 0 <= i < j < |pair| ==> pair[i].sequence < pair[j].sequence
  }

  /** How many messages of the pair have a sequence up to this one: what a mark stores. */
  function Rank(pair: seq<Message>, sequence: int): nat {
    if pair == [] then 0
    else Rank(pair[..|pair| - 1], sequence) + (if pair[|pair| - 1].sequence <= sequence then 1 else 0)
  }

  /** The messages a view with this high water numbers. */
  function Visible(pair: seq<Message>, high: int): seq<Message> {
    if pair == [] then []
    else Visible(pair[..|pair| - 1], high) + (if pair[|pair| - 1].sequence <= high then [pair[|pair| - 1]] else [])
  }

  /** The view's count: incoming messages whose row number in the pair is beyond the stored rank. */
  function Unread(visible: seq<Message>, through: nat): nat {
    if visible == [] then 0
    else
      Unread(visible[..|visible| - 1], through)
      + (if visible[|visible| - 1].incoming && |visible| > through then 1 else 0)
  }

  /** Incoming messages strictly newer than a sequence, up to the high water. */
  function Newer(pair: seq<Message>, sequence: int, high: int): nat {
    if pair == [] then 0
    else
      Newer(pair[..|pair| - 1], sequence, high)
      + (if pair[|pair| - 1].incoming && sequence < pair[|pair| - 1].sequence <= high then 1 else 0)
  }

  /** The i-th message has rank i + 1. */
  lemma {:induction false} RankOfMessage(pair: seq<Message>, i: nat)
    requires InOrder(pair) && i < |pair|
    ensures Rank(pair, pair[i].sequence) == i + 1
    decreases |pair|
  {
    var init := pair[..|pair| - 1];
    if i < |init| {
      RankOfMessage(init, i);
    } else {
      RankAll(init, pair[i].sequence);
    }
  }

  lemma {:induction false} RankAll(pair: seq<Message>, sequence: int)
    requires forall i :: 0 <= i < |pair| ==> pair[i].sequence <= sequence
    ensures Rank(pair, sequence) == |pair|
  {
    if pair != [] { RankAll(pair[..|pair| - 1], sequence); }
  }

  /** Later messages do not disturb the rank of a marked one. */
  lemma {:induction false} RankStable(pair: seq<Message>, more: seq<Message>, sequence: int)
    requires forall m :: m in more ==> m.sequence > sequence
    ensures Rank(pair + more, sequence) == Rank(pair, sequence)
    decreases |more|
  {
    if more == [] {
      assert pair + more == pair;
    } else {
      var last := more[|more| - 1];
      assert last in more && (pair + more)[..|pair + more| - 1] == pair + more[..|more| - 1];
      RankStable(pair, more[..|more| - 1], sequence);
    }
  }

  /** The visible messages are a prefix of the pair. */
  lemma {:induction false} VisiblePrefix(pair: seq<Message>, high: int) returns (n: nat)
    requires InOrder(pair)
    ensures n <= |pair| && Visible(pair, high) == pair[..n]
    ensures forall i :: 0 <= i < |pair| ==> (pair[i].sequence <= high <==> i < n)
  {
    if pair == [] {
      n := 0;
    } else {
      var init, last := pair[..|pair| - 1], pair[|pair| - 1];
      n := VisiblePrefix(init, high);
      assert init + [last] == pair && forall i :: 0 <= i < |init| ==> init[i] == pair[i];
      if n < |init| {
        assert pair[n].sequence > high && pair[n].sequence < last.sequence;
        assert pair[..n] == init[..n];
      } else if last.sequence <= high {
        n := |pair|;
      }
    }
  }

  lemma {:induction false} NewerBeyondHigh(pair: seq<Message>, n: nat, sequence: int, high: int)
    requires n <= |pair| && forall i :: n <= i < |pair| ==> pair[i].sequence > high
    ensures Newer(pair, sequence, high) == Newer(pair[..n], sequence, high)
    decreases |pair|
  {
    if n < |pair| {
      NewerBeyondHigh(pair[..|pair| - 1], n, sequence, high);
      assert pair[..|pair| - 1][..n] == pair[..n];
    } else {
      assert pair[..n] == pair;
    }
  }

  /** Counting beyond a rank is counting newer messages: the rank of message k, or 0 for none marked yet. */
  lemma {:induction false} UnreadIsNewer(visible: seq<Message>, through: nat, sequence: int, high: int)
    requires forall i :: 0 <= i < |visible| ==> visible[i].sequence <= high && (visible[i].sequence > sequence <==> i + 1 > through)
    ensures Unread(visible, through) == Newer(visible, sequence, high)
    decreases |visible|
  {
    if visible != [] { UnreadIsNewer(visible[..|visible| - 1], through, sequence, high); }
  }

  /** A mark on some message of the pair, as it was when it was marked, or no mark. */
  ghost predicate MarkedAt(marked: seq<Message>, k: nat, through: nat) {
    k < |marked| && InOrder(marked) && through == Rank(marked, marked[k].sequence)
  }

  /**
   Before the manual override, a view's unread count is the number of incoming messages, up to its high
   water, newer than the furthest message ever marked, however many messages have arrived since the mark.
   */
  lemma UnreadSinceMark(marked: seq<Message>, k: nat, through: nat, more: seq<Message>, high: int)
    requires MarkedAt(marked, k, through) && InOrder(marked + more)
    ensures Unread(Visible(marked + more, high), through) == Newer(marked + more, marked[k].sequence, high)
  {
    var pair := marked + more;
    RankOfMessage(marked, k);
    assert pair[k] == marked[k];
    var n := VisiblePrefix(pair, high);
    NewerBeyondHigh(pair, n, marked[k].sequence, high);
    forall i | 0 <= i < n ensures pair[i].sequence > marked[k].sequence <==> i + 1 > through {
      if i < k { assert pair[i].sequence < pair[k].sequence; }
      if k < i { assert pair[k].sequence < pair[i].sequence; }
    }
    UnreadIsNewer(pair[..n], through, marked[k].sequence, high);
  }

  /** With nothing marked, every incoming message counts. */
  lemma UnreadUnmarked(pair: seq<Message>, high: int, before: int)
    requires InOrder(pair) && forall i :: 0 <= i < |pair| ==> pair[i].sequence > before
    ensures Unread(Visible(pair, high), 0) == Newer(pair, before, high)
  {
    var n := VisiblePrefix(pair, high);
    NewerBeyondHigh(pair, n, before, high);
    UnreadIsNewer(pair[..n], 0, before, high);
  }

  /** The further of two marks is the one on the newer message, so taking the greater rank keeps the furthest message. */
  lemma RanksOrderMessages(pair: seq<Message>, i: nat, j: nat)
    requires InOrder(pair) && i < |pair| && j < |pair|
    ensures Rank(pair, pair[i].sequence) < Rank(pair, pair[j].sequence) <==> pair[i].sequence < pair[j].sequence
    ensures Rank(pair, pair[i].sequence) == Rank(pair, pair[j].sequence) <==> i == j
  {
    RankOfMessage(pair, i);
    RankOfMessage(pair, j);
  }

  // ---- A conversation's life ----

  datatype Event = Arrive(m: Message) | MarkMessage(k: nat)

  /** The pair so far, the stored rank, and the sequence of the furthest message marked. */
  datatype Reading = Reading(pair: seq<Message>, through: nat, furthest: Option<int>)

  function Next(r: Reading, e: Event): Reading {
    match e
    case Arrive(m) => if r.pair == [] || r.pair[|r.pair| - 1].sequence < m.sequence then r.(pair := r.pair + [m]) else r
    case MarkMessage(k) =>
      if k >= |r.pair| then r
      else
        var sequence := r.pair[k].sequence;
        r.(through := Max(r.through, Rank(r.pair, sequence)),
           furthest := Some(if r.furthest.Some? then Max(r.furthest.value, sequence) else sequence))
  }

  function Live(r: Reading, events: seq<Event>): Reading
    decreases |events|
  {
    if events == [] then r else Live(Next(r, events[0]), events[1..])
  }

  /** The stored rank is the place of the furthest message marked. */
  ghost predicate Inv(r: Reading) {
    && InOrder(r.pair)
    && (r.furthest.None? ==> r.through == 0)
    && (r.furthest.Some? ==> exists k :: 0 <= k < |r.pair| && r.pair[k].sequence == r.furthest.value && r.through == k + 1)
  }

  lemma NextKeeps(r: Reading, e: Event)
    requires Inv(r)
    ensures Inv(Next(r, e))
  {
    var r' := Next(r, e);
    match e
    case Arrive(m) =>
      if r' != r && r.furthest.Some? {
        var k :| 0 <= k < |r.pair| && r.pair[k].sequence == r.furthest.value && r.through == k + 1;
        assert r'.pair[k].sequence == r.furthest.value;
      }
      if r' != r { assert forall i :: 0 <= i < |r.pair| ==> r'.pair[i] == r.pair[i] && r.pair[i].sequence <= r.pair[|r.pair| - 1].sequence; }
    case MarkMessage(k) =>
      if k < |r.pair| {
        RankOfMessage(r.pair, k);
        if r.furthest.Some? {
          var j :| 0 <= j < |r.pair| && r.pair[j].sequence == r.furthest.value && r.through == j + 1;
          var m := if j < k then k else j;
          assert r'.pair[m].sequence == r'.furthest.value && r'.through == m + 1;
        }
      }
  }

  lemma {:induction false} LiveKeeps(r: Reading, events: seq<Event>)
    requires Inv(r)
    ensures Inv(Live(r, events))
    decreases |events|
  {
    if events != [] {
      NextKeeps(r, events[0]);
      LiveKeeps(Next(r, events[0]), events[1..]);
    }
  }

  /** With a mark, the count is of what is newer than the marked message; without one, of everything. */
  ghost predicate CountsExactly(r: Reading, high: int) {
    && (r.furthest.Some? ==> Unread(Visible(r.pair, high), r.through) == Newer(r.pair, r.furthest.value, high))
    && (r.furthest.None? ==> forall before :: (forall i :: 0 <= i < |r.pair| ==> r.pair[i].sequence > before) ==>
          Unread(Visible(r.pair, high), r.through) == Newer(r.pair, before, high))
  }

  lemma FrontierExact(r: Reading, high: int)
    requires Inv(r)
    ensures CountsExactly(r, high)
  {
    if r.furthest.Some? {
      var k :| 0 <= k < |r.pair| && r.pair[k].sequence == r.furthest.value && r.through == k + 1;
      RankOfMessage(r.pair, k);
      assert r.pair + [] == r.pair;
      UnreadSinceMark(r.pair, k, r.through, [], high);
    } else {
      forall before | forall i :: 0 <= i < |r.pair| ==> r.pair[i].sequence > before
        ensures Unread(Visible(r.pair, high), r.through) == Newer(r.pair, before, high)
      {
        UnreadUnmarked(r.pair, high, before);
      }
    }
  }

  /** Whatever arrives and is marked in whatever order, a view counts exactly the incoming messages newer than the furthest one ever marked. */
  lemma UnreadExact(events: seq<Event>, high: int)
    ensures CountsExactly(Live(Reading([], 0, None), events), high)
  {
    LiveKeeps(Reading([], 0, None), events);
    FrontierExact(Live(Reading([], 0, None), events), high);
  }

  // ---- The stored mark is that rank ----

  /**
   A conversation together with the private rows of its reader: a message arrives, a message is marked by a
   write that names its rank, or some other private write happens.
   */
  datatype Moment =
    | Arrived(m: Message)
    | Marked(k: nat, handle: string, override: Option<bool>, expected: nat, request: string)
    | Elsewhere(op: PersonalState.Op)

  datatype Life = Life(reading: Reading, private: PersonalState.Store)

  /** The write a mark of message k turns into: the frontier it names is the message's rank. */
  function MarkOp(r: Reading, identity: PersonalState.Identity, e: Moment): PersonalState.Op
    requires e.Marked? && e.k < |r.pair|
  {
    PersonalState.Op(identity, PersonalState.MarkRead(e.handle, Rank(r.pair, r.pair[e.k].sequence), e.override), e.expected, e.request, true)
  }

  predicate MarksHere(op: PersonalState.Op, identity: PersonalState.Identity) {
    op.input.MarkRead? && op.identity == identity
  }

  /** Only an accepted mark moves the reading; refused and repeated ones do not. */
  function Happen(digest: PersonalState.Digest, identity: PersonalState.Identity, l: Life, e: Moment): Life {
    match e
    case Arrived(m) => l.(reading := Next(l.reading, Arrive(m)))
    case Marked(k, _, _, _, _) =>
      if k >= |l.reading.pair| then l
      else
        var op := MarkOp(l.reading, identity, e);
        Life(if PersonalState.AcceptedMark(digest, l.private, op, identity) then Next(l.reading, MarkMessage(k)) else l.reading,
             PersonalState.Step(digest, l.private, op))
    case Elsewhere(op) => if MarksHere(op, identity) then l else l.(private := PersonalState.Step(digest, l.private, op))
  }

  function Lived(digest: PersonalState.Digest, identity: PersonalState.Identity, l: Life, moments: seq<Moment>): Life
    decreases |moments|
  {
    if moments == [] then l else Lived(digest, identity, Happen(digest, identity, l, moments[0]), moments[1..])
  }

  const Unread0 := Reading([], 0, None)

  ghost predicate Matched(identity: PersonalState.Identity, l: Life) {
    Inv(l.reading) && PersonalState.Typed(l.private) && PersonalState.Through(l.private, identity) == l.reading.through
  }

  lemma HappenKeeps(digest: PersonalState.Digest, identity: PersonalState.Identity, l: Life, e: Moment)
    requires Matched(identity, l)
    ensures Matched(identity, Happen(digest, identity, l, e))
  {
    match e
    case Arrived(m) => NextKeeps(l.reading, Arrive(m));
    case Marked(k, _, _, _, _) => if k < |l.reading.pair| {
      var op := MarkOp(l.reading, identity, e);
      NextKeeps(l.reading, MarkMessage(k));
      PersonalState.TypedStep(digest, l.private, op);
      PersonalState.MarkMoves(digest, l.private, op, identity);
    }
    case Elsewhere(op) =>
      PersonalState.TypedStep(digest, l.private, op);
      PersonalState.MarkMoves(digest, l.private, op, identity);
  }

  lemma {:induction false} LivedKeeps(digest: PersonalState.Digest, identity: PersonalState.Identity, l: Life, moments: seq<Moment>)
    requires Matched(identity, l)
    ensures Matched(identity, Lived(digest, identity, l, moments))
    decreases |moments|
  {
    if moments != [] {
      HappenKeeps(digest, identity, l, moments[0]);
      LivedKeeps(digest, identity, Happen(digest, identity, l, moments[0]), moments[1..]);
    }
  }

  /**
   From the stored row to the view: over every run of arrivals and private writes, counting with the stored
   frontier gives exactly the incoming messages newer than the furthest one whose mark was accepted.
   */
  lemma StoredFrontierCounts(digest: PersonalState.Digest, identity: PersonalState.Identity, moments: seq<Moment>, high: int)
    ensures var l := Lived(digest, identity, Life(Unread0, PersonalState.Empty), moments);
      CountsExactly(l.reading.(through := PersonalState.Through(l.private, identity)), high)
  {
    LivedKeeps(digest, identity, Life(Unread0, PersonalState.Empty), moments);
    FrontierExact(Lived(digest, identity, Life(Unread0, PersonalState.Empty), moments).reading, high);
  }
}

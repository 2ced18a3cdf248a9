/**
 * Delivery of the commands of one agent over its session: a cursor that only says what was handed out,
 * a window of commands in flight, and a log that other callers change between any two steps.
 *
 * Reading a batch and handing out each of its commands are separate steps, so creations and
 * acknowledgements may fall anywhere between them.
 */
module CommandDelivery {
  import opened CommandLog

  const WINDOW := 16

  /** `fetched` is the batch read and not yet handed out; `base` is the log when the session began. */
  datatype Session = Session(
    log: Log,
    agent: string,
    cursor: nat,
    sent: seq<Command>,
    fetched: seq<Command>,
    inflight: set<string>,
    base: Log)

  datatype Event =
    | CreateBatch(batch: seq<Command>)
    | Finish(id: string, status: Status)
    | Fetch
    | HandOut
    | Release(id: string)
    | Reconnect

  function Connect(log: Log, agent: string): Session {
    Session(log, agent, 0, [], [], {}, log)
  }

  predicate Enabled(s: Session, e: Event) {
    match e
    case Finish(_, status) => status != Pending
    case Fetch => s.fetched == []
    case HandOut => s.fetched != []
    case _ => true
  }

  function Fetched(s: Session): seq<Command> {
    var capacity := WINDOW - |s.inflight|;
    if capacity <= 0 then [] else PendingAfter(s.log, s.agent, s.cursor, capacity)
  }

  function Next(s: Session, e: Event): Session
    requires Enabled(s, e)
  {
    match e
    case CreateBatch(batch) => s.(log := Create(s.log, batch).1)
    case Finish(id, status) => s.(log := Acknowledge(s.log, id, status))
    case Fetch => s.(fetched := Fetched(s))
    case HandOut =>
      var c := s.fetched[0];
      s.(cursor := c.number, sent := s.sent + [c], fetched := s.fetched[1..], inflight := s.inflight + {c.id})
    case Release(id) => s.(inflight := s.inflight - {id})
    case Reconnect => Connect(s.log, s.agent)
  }

  // ---- what every run keeps ----

  function Handed(s: Session): seq<Command> {
    s.sent + s.fetched
  }

  function Horizon(s: Session): nat {
    if s.fetched == [] then s.cursor else s.fetched[|s.fetched| - 1].number
  }

  /** Commands unfinished when the session began, or created since. */
  ghost predicate Owed(s: Session, c: Command) {
    c in QueueOf(s.base, s.agent) || c.number > s.base.next
  }

  predicate CursorValid(s: Session) {
    && s.cursor <= s.log.next
    && (forall k :: 0 <= k < |s.sent| ==> s.sent[k].number <= s.cursor)
    && (forall k :: 0 <= k < |s.fetched| ==> s.cursor < s.fetched[k].number <= s.log.next)
    && Sorted(Handed(s))
    && |s.inflight| + |s.fetched| <= WINDOW
  }

  ghost predicate OnlyOwed(s: Session) {
    && s.base.next <= s.log.next
    && (forall c :: c in QueueOf(s.log, s.agent) ==> Owed(s, c))
    && (forall c :: c in Handed(s) ==> c.agent == s.agent && Owed(s, c))
  }

  ghost predicate NoGaps(s: Session) {
    forall c :: c in QueueOf(s.log, s.agent) && c.number <= Horizon(s) ==> c in Handed(s)
  }

  ghost predicate Invariant(s: Session) {
    Valid(s.log) && CursorValid(s) && OnlyOwed(s) && NoGaps(s)
  }

  lemma ConnectInvariant(log: Log, agent: string)
    requires Valid(log)
    ensures Invariant(Connect(log, agent))
  {
    assert QueueValid(log, agent);
  }

  lemma CreateStep(s: Session, batch: seq<Command>)
    requires CursorValid(s) && OnlyOwed(s) && NoGaps(s)
    ensures var t := Next(s, CreateBatch(batch)); CursorValid(t) && OnlyOwed(t) && NoGaps(t)
  {
    var t := Next(s, CreateBatch(batch));
    assert forall c :: Owed(s, c) == Owed(t, c);
    if Create(s.log, batch).0.None? {
      CreateAppends(s.log, batch, s.agent);
    }
  }

  lemma FinishStep(s: Session, id: string, status: Status)
    requires Invariant(s) && status != Pending
    ensures Invariant(Next(s, Finish(id, status)))
  {
    AcknowledgeKeepsValid(s.log, id, status);
    if id in s.log.commands && s.log.commands[id].status == Pending {
      AcknowledgeCuts(s.log, id, status, s.agent);
    }
    ShrinkStep(s, Acknowledge(s.log, id, status));
  }

  /** A log in which the agent's queue only shrank. */
  lemma ShrinkStep(s: Session, log: Log)
    requires CursorValid(s) && OnlyOwed(s) && NoGaps(s) && log.next == s.log.next
    requires forall c :: c in QueueOf(log, s.agent) ==> c in QueueOf(s.log, s.agent)
    ensures var t := s.(log := log); CursorValid(t) && OnlyOwed(t) && NoGaps(t)
  {
    assert forall c :: Owed(s, c) == Owed(s.(log := log), c);
  }

  /** A fetched batch is a slice of the queue starting right after the cursor. */
  lemma FetchIsSlice(s: Session) returns (start: nat)
    requires QueueValid(s.log, s.agent)
    ensures var q := QueueOf(s.log, s.agent);
            && start + |Fetched(s)| <= |q|
            && Fetched(s) == q[start..start + |Fetched(s)|]
            && (forall k :: 0 <= k < |q| ==> (q[k].number > s.cursor <==> start <= k))
            && (|s.inflight| < WINDOW ==> |Fetched(s)| == Min(WINDOW - |s.inflight|, |q| - start))
            && |Fetched(s)| <= if |s.inflight| < WINDOW then WINDOW - |s.inflight| else 0
  {
    start := PageMeans(s.log, s.agent, s.cursor, WINDOW - |s.inflight|);
  }

  function Min(a: int, b: int): int {
    if a < b then a else b
  }

  lemma FetchKeepsCursor(s: Session)
    requires QueueValid(s.log, s.agent) && CursorValid(s) && s.fetched == []
    ensures CursorValid(Next(s, Fetch))
  {
    var t := Next(s, Fetch);
    var q := QueueOf(s.log, s.agent);
    var start := FetchIsSlice(s);
    assert forall k :: 0 <= k < |t.fetched| ==> t.fetched[k] == q[start + k];
    assert Handed(s) == s.sent;
  }

  lemma FetchKeepsOwed(s: Session)
    requires QueueValid(s.log, s.agent) && OnlyOwed(s) && s.fetched == []
    ensures OnlyOwed(Next(s, Fetch))
  {
    var t := Next(s, Fetch);
    var q := QueueOf(s.log, s.agent);
    var start := FetchIsSlice(s);
    forall c | c in Handed(t) ensures c.agent == t.agent && Owed(t, c) {
      if c in s.sent {
        assert c in Handed(s) && Owed(s, c);
      } else {
        var k :| start <= k < |q| && q[k] == c;
        assert c in q && Owed(s, c);
      }
    }
    assert forall c :: c in q ==> Owed(s, c) && Owed(t, c);
  }

  lemma FetchLeavesNoGaps(s: Session)
    requires QueueValid(s.log, s.agent) && NoGaps(s) && s.fetched == []
    ensures NoGaps(Next(s, Fetch))
  {
    var t := Next(s, Fetch);
    var q := QueueOf(s.log, s.agent);
    var start := FetchIsSlice(s);
    forall c | c in q && c.number <= Horizon(t) ensures c in Handed(t) {
      if c.number > s.cursor {
        var k :| 0 <= k < |q| && q[k] == c;
        assert t.fetched[k - start] == c;
      } else {
        assert c in Handed(s);
      }
    }
  }

  lemma FetchStep(s: Session)
    requires Invariant(s) && s.fetched == []
    ensures Invariant(Next(s, Fetch))
  {
    assert QueueValid(s.log, s.agent);
    FetchKeepsCursor(s);
    FetchKeepsOwed(s);
    FetchLeavesNoGaps(s);
  }

  lemma HandOutKeepsHanded(s: Session)
    requires s.fetched != []
    ensures Handed(Next(s, HandOut)) == Handed(s)
    ensures Horizon(Next(s, HandOut)) == Horizon(s)
  {
  }

  lemma HandOutKeepsCursor(s: Session)
    requires CursorValid(s) && s.fetched != []
    ensures CursorValid(Next(s, HandOut))
  {
    HandOutKeepsHanded(s);
    forall k | 0 < k < |s.fetched| ensures s.fetched[0].number < s.fetched[k].number {
      assert s.fetched[0] == Handed(s)[|s.sent|] && s.fetched[k] == Handed(s)[|s.sent| + k];
    }
  }

  lemma HandOutStep(s: Session)
    requires OnlyOwed(s) && NoGaps(s) && s.fetched != []
    ensures OnlyOwed(Next(s, HandOut)) && NoGaps(Next(s, HandOut))
  {
    var t := Next(s, HandOut);
    HandOutKeepsHanded(s);
    assert forall c :: Owed(s, c) == Owed(t, c);
  }

  lemma ReleaseStep(s: Session, id: string)
    requires CursorValid(s) && OnlyOwed(s) && NoGaps(s)
    ensures var t := Next(s, Release(id)); CursorValid(t) && OnlyOwed(t) && NoGaps(t)
  {
    assert forall c :: Owed(s, c) == Owed(Next(s, Release(id)), c);
  }

  ghost predicate Steps(s: Session, e: Event, t: Session) {
    Enabled(s, e) && t == Next(s, e)
  }

  lemma StepKeepsInvariant(s: Session, e: Event, t: Session)
    requires Invariant(s) && Steps(s, e, t)
    ensures Invariant(t)
  {
    match e
    case CreateBatch(batch) =>
      CreateKeepsValid(s.log, batch);
      CreateStep(s, batch);
    case Finish(id, status) => FinishStep(s, id, status);
    case Fetch => FetchStep(s);
    case HandOut =>
      HandOutKeepsCursor(s);
      HandOutStep(s);
    case Release(id) => ReleaseStep(s, id);
    case Reconnect => ConnectInvariant(s.log, s.agent);
  }

  ghost predicate Behaviour(states: seq<Session>, events: seq<Event>) {
    && |states| == |events| + 1
    && Valid(states[0].log) && states[0] == Connect(states[0].log, states[0].agent)
    && forall i :: 0 <= i < |events| ==> Steps(states[i], events[i], states[i + 1])
  }

  lemma {:induction false} RunsKeepInvariant(states: seq<Session>, events: seq<Event>, i: nat)
    requires Behaviour(states, events) && i < |states|
    ensures Invariant(states[i])
  {
    if i == 0 {
      ConnectInvariant(states[0].log, states[0].agent);
    } else {
      RunsKeepInvariant(states, events, i - 1);
      StepKeepsInvariant(states[i - 1], events[i - 1], states[i]);
    }
  }

  // ---- the promises ----

  /**
   * At every moment of every run: each unfinished command up to the cursor was handed out in this
   * session, commands go out in strictly increasing order (so none twice), only unfinished or new
   * commands go out, and the window is respected.
   */
  lemma DeliveredWithoutGaps(states: seq<Session>, events: seq<Event>, i: nat)
    requires Behaviour(states, events) && i < |states|
    ensures var s := states[i];
            && (forall c :: c in QueueOf(s.log, s.agent) && c.number <= s.cursor ==> c in s.sent)
            && Sorted(s.sent)
            && (forall c :: c in s.sent ==> c.agent == s.agent && Owed(s, c))
            && |s.inflight| <= WINDOW
  {
    RunsKeepInvariant(states, events, i);
    SentUpToCursor(states[i]);
  }

  lemma SentUpToCursor(s: Session)
    requires Invariant(s)
    ensures forall c :: c in QueueOf(s.log, s.agent) && c.number <= s.cursor ==> c in s.sent
    ensures Sorted(s.sent)
  {
    forall c | c in QueueOf(s.log, s.agent) && c.number <= s.cursor ensures c in s.sent {
      assert c in Handed(s);
    }
    assert forall k :: 0 <= k < |s.sent| ==> s.sent[k] == Handed(s)[k];
  }

  /** In every run a command handed out counts against the window until it is released or the session ends. */
  lemma {:induction false} HandedOutIsInFlight(states: seq<Session>, events: seq<Event>, i: nat, j: nat, id: string)
    requires Behaviour(states, events) && i < j < |states|
    requires events[i] == HandOut && states[i].fetched != [] && states[i].fetched[0].id == id
    requires forall k :: i < k < j ==> events[k] != Release(id) && events[k] != Reconnect
    ensures id in states[j].inflight
    decreases j
  {
    assert Steps(states[j - 1], events[j - 1], states[j]);
    if i + 1 < j {
      HandedOutIsInFlight(states, events, i, j - 1, id);
    }
  }

  /** Nothing else does: what is in flight was handed out in this session and has not been released. */
  lemma {:induction false} InFlightWasHandedOut(states: seq<Session>, events: seq<Event>, i: nat, id: string)
    requires Behaviour(states, events) && i < |states| && id in states[i].inflight
    ensures exists c :: c in states[i].sent && c.id == id
  {
    if i > 0 {
      assert Steps(states[i - 1], events[i - 1], states[i]);
      if id in states[i - 1].inflight {
        InFlightWasHandedOut(states, events, i - 1, id);
        var c :| c in states[i - 1].sent && c.id == id;
        assert events[i - 1] != Reconnect ==> c in states[i].sent;
      } else {
        assert states[i].sent[|states[i].sent| - 1].id == id;
      }
    }
  }

  /** When a fetch with room in the window comes back empty, every unfinished command has been handed out. */
  lemma CaughtUp(s: Session)
    requires Invariant(s) && s.fetched == [] && |s.inflight| < WINDOW && Fetched(s) == []
    ensures forall c :: c in QueueOf(s.log, s.agent) ==> c in s.sent
  {
    assert QueueValid(s.log, s.agent);
    var start := FetchIsSlice(s);
    SentUpToCursor(s);
  }

  lemma {:induction false} SortedUnique(a: seq<Command>, b: seq<Command>)
    requires Sorted(a) && Sorted(b) && forall c :: c in a <==> c in b
    ensures a == b
    decreases |a|
  {
    if b != [] {
      assert b[0] in b;
    }
    if a != [] {
      assert a[0] in a && b != [];
      assert b[0] in a && a[0] in b;
      assert a[0] == b[0];
      assert a == [a[0]] + a[1..] && b == [a[0]] + b[1..];
      assert forall c :: c in a[1..] <==> c in a && c != a[0];
      assert forall c :: c in b[1..] <==> c in b && c != a[0];
      SortedUnique(a[1..], b[1..]);
    }
  }

  /** The commands of a list that are in a queue. */
  function Kept(cs: seq<Command>, q: seq<Command>): seq<Command> {
    if cs == [] then [] else Kept(cs[..|cs| - 1], q) + if cs[|cs| - 1] in q then [cs[|cs| - 1]] else []
  }

  lemma {:induction false} KeptMembers(cs: seq<Command>, q: seq<Command>, c: Command)
    ensures c in Kept(cs, q) <==> c in cs && c in q
    decreases |cs|
  {
    if cs != [] {
      var n := |cs| - 1;
      KeptMembers(cs[..n], q, c);
      assert cs == cs[..n] + [cs[n]];
    }
  }

  lemma {:induction false} KeptSorted(cs: seq<Command>, q: seq<Command>)
    requires Sorted(cs)
    ensures Sorted(Kept(cs, q))
    decreases |cs|
  {
    if cs != [] {
      var n := |cs| - 1;
      KeptSorted(cs[..n], q);
      forall k | 0 <= k < |Kept(cs[..n], q)| ensures Kept(cs[..n], q)[k].number < cs[n].number {
        KeptMembers(cs[..n], q, Kept(cs[..n], q)[k]);
        assert Kept(cs[..n], q)[k] in cs[..n];
      }
    }
  }

  /**
   * A session that has caught up, whatever was created and finished meanwhile: of what it handed out,
   * the part still unfinished is exactly the agent's queue, in order, and everything it handed out was
   * unfinished when it began or came later. On an unchanged log that is exactly the unfinished commands.
   */
  lemma ReconnectResendsUnfinished(s: Session)
    requires Invariant(s) && s.fetched == [] && |s.inflight| < WINDOW && Fetched(s) == []
    ensures Kept(s.sent, QueueOf(s.log, s.agent)) == QueueOf(s.log, s.agent)
    ensures forall c :: c in s.sent ==> Owed(s, c)
    ensures s.log == s.base ==> s.sent == QueueOf(s.base, s.agent)
  {
    var q := QueueOf(s.log, s.agent);
    CaughtUp(s);
    SentUpToCursor(s);
    assert QueueValid(s.log, s.agent);
    KeptSorted(s.sent, q);
    forall c ensures c in Kept(s.sent, q) <==> c in q {
      KeptMembers(s.sent, q, c);
    }
    SortedUnique(Kept(s.sent, q), q);
    assert forall c :: c in s.sent ==> c in Handed(s);
    if s.log == s.base {
      QuietSession(s);
    }
  }

  lemma QuietSession(s: Session)
    requires CursorValid(s) && OnlyOwed(s) && Sorted(s.sent) && s.log == s.base && QueueValid(s.log, s.agent)
    requires forall c :: c in QueueOf(s.log, s.agent) ==> c in s.sent
    ensures s.sent == QueueOf(s.base, s.agent)
  {
    forall c | c in s.sent ensures c in QueueOf(s.base, s.agent) {
      assert c in Handed(s) && c.number <= s.log.next;
    }
    SortedUnique(s.sent, QueueOf(s.base, s.agent));
  }
}

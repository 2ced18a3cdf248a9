/**
 * Closing a connection from two sides: an active Close and the transport's passive onClose race for one
 * flag, and two callbacks may be registered, replaced or removed at any moment around that. A
 * callback is chosen under the lock and called after the lock is released.
 */
module Lifecycle {
  import opened Values

  /** Where the closer that won the flag stands. */
  datatype Closer = Nobody | ActiveWon | ActiveMarked | PassiveWon | PassiveTold | ActiveDone | PassiveDone

  type Callback = nat

  /** One lifecycle event and its callback: `owed` was chosen under the lock, `ran` has been called. */
  datatype Notice = Notice(occurred: bool, delivered: bool, callback: Option<Callback>, owed: seq<Callback>, ran: seq<Callback>)

  datatype Connection = Connection(isClosed: bool, intentional: bool, wins: nat, closer: Closer, closed: Notice, disconnect: Notice)

  datatype Event =
    | ActiveClose | PassiveClose
    | MarkIntentional | TellDisconnected | TellClosed
    | SetOnClosed(callback: Option<Callback>) | SetOnDisconnect(callback: Option<Callback>)
    | CallClosed | CallDisconnect

  const SILENT := Notice(false, false, None, [], [])

  function Start(): Connection {
    Connection(false, false, 0, Nobody, SILENT, SILENT)
  }

  function Choose(n: Notice): Notice {
    if n.callback.Some? && n.occurred && !n.delivered then n.(delivered := true, owed := n.owed + [n.callback.value]) else n
  }

  function Publish(n: Notice): Notice {
    Choose(n.(occurred := true))
  }

  function SetCallback(n: Notice, callback: Option<Callback>): Notice {
    Choose(n.(callback := callback))
  }

  function Call(n: Notice): Notice
    requires n.owed != []
  {
    n.(owed := n.owed[1..], ran := n.ran + [n.owed[0]])
  }

  predicate Enabled(s: Connection, e: Event) {
    match e
    case MarkIntentional => s.closer == ActiveWon
    case TellDisconnected => s.closer == PassiveWon
    case TellClosed => s.closer == ActiveMarked || s.closer == PassiveTold
    case CallClosed => s.closed.owed != []
    case CallDisconnect => s.disconnect.owed != []
    case _ => true
  }

  function Next(s: Connection, e: Event): Connection
    requires Enabled(s, e)
  {
    match e
    case ActiveClose => if s.isClosed then s else s.(isClosed := true, wins := s.wins + 1, closer := ActiveWon)
    case PassiveClose => if s.isClosed then s else s.(isClosed := true, wins := s.wins + 1, closer := PassiveWon)
    case MarkIntentional => s.(intentional := true, closer := ActiveMarked)
    case TellDisconnected => s.(closer := PassiveTold, disconnect := if s.intentional then s.disconnect else Publish(s.disconnect))
    case TellClosed => s.(closer := if s.closer == ActiveMarked then ActiveDone else PassiveDone, closed := Publish(s.closed))
    case SetOnClosed(callback) => s.(closed := SetCallback(s.closed, callback))
    case SetOnDisconnect(callback) => s.(disconnect := SetCallback(s.disconnect, callback))
    case CallClosed => s.(closed := Call(s.closed))
    case CallDisconnect => s.(disconnect := Call(s.disconnect))
  }

  // ---- what every run keeps ----

  /** Delivery is decided exactly once, and at once when both the event and a callback are there. */
  ghost predicate NoticeValid(n: Notice) {
    && |n.owed| + |n.ran| == (if n.delivered then 1 else 0)
    && (n.delivered ==> n.occurred)
    && (n.occurred && n.callback.Some? ==> n.delivered)
  }

  ghost predicate Invariant(s: Connection) {
    && NoticeValid(s.closed) && NoticeValid(s.disconnect)
    && (s.isClosed <==> s.closer != Nobody)
    && s.wins == (if s.isClosed then 1 else 0)
    && (s.intentional ==> s.closer in {ActiveMarked, ActiveDone})
    && (s.closed.occurred <==> s.closer in {ActiveDone, PassiveDone})
    && (s.disconnect.occurred <==> s.closer in {PassiveTold, PassiveDone})
  }

  lemma NoticeSteps(n: Notice, callback: Option<Callback>)
    requires NoticeValid(n)
    ensures NoticeValid(Publish(n)) && NoticeValid(SetCallback(n, callback))
    ensures n.owed != [] ==> NoticeValid(Call(n))
  {
  }

  lemma StepKeepsInvariant(s: Connection, e: Event)
    requires Invariant(s) && Enabled(s, e)
    ensures Invariant(Next(s, e))
  {
    NoticeSteps(s.closed, if e.SetOnClosed? then e.callback else None);
    NoticeSteps(s.disconnect, if e.SetOnDisconnect? then e.callback else None);
  }

  ghost predicate Steps(s: Connection, e: Event, t: Connection) {
    Enabled(s, e) && t == Next(s, e)
  }

  ghost predicate Behaviour(states: seq<Connection>, events: seq<Event>) {
    && |states| == |events| + 1
    && states[0] == Start()
    && forall i :: 0 <= i < |events| ==> Steps(states[i], events[i], states[i + 1])
  }

  lemma {:induction false} RunsKeepInvariant(states: seq<Connection>, events: seq<Event>, i: nat)
    requires Behaviour(states, events) && i < |states|
    ensures Invariant(states[i])
  {
    if i > 0 {
      RunsKeepInvariant(states, events, i - 1);
      assert Steps(states[i - 1], events[i - 1], states[i]);
      StepKeepsInvariant(states[i - 1], events[i - 1]);
    }
  }

  // ---- the promises ----

  predicate Passive(c: Closer) {
    c == PassiveWon || c == PassiveTold || c == PassiveDone
  }

  predicate Active(c: Closer) {
    c == ActiveWon || c == ActiveMarked || c == ActiveDone
  }

  /** However often and in whatever order both sides close, at most one wins, and the winner stays the winner. */
  lemma {:induction false} OneCloserWins(states: seq<Connection>, events: seq<Event>, i: nat, j: nat)
    requires Behaviour(states, events) && i <= j < |states|
    ensures states[j].wins <= 1
    ensures Passive(states[i].closer) ==> Passive(states[j].closer)
    ensures Active(states[i].closer) ==> Active(states[j].closer)
    decreases j
  {
    RunsKeepInvariant(states, events, j);
    if i < j {
      OneCloserWins(states, events, i, j - 1);
      RunsKeepInvariant(states, events, j - 1);
      assert Steps(states[j - 1], events[j - 1], states[j]);
    }
  }

  /**
   * The closed callback: never more than once; decided as soon as the closer is done and a callback is
   * set; and once it is decided and called, it has run exactly once for good.
   */
  lemma ClosedCallbackRunsOnce(states: seq<Connection>, events: seq<Event>, i: nat)
    requires Behaviour(states, events) && i < |states|
    ensures var s := states[i];
            && |s.closed.ran| <= 1
            && (s.closer in {ActiveDone, PassiveDone} && s.closed.callback.Some? ==> |s.closed.owed| + |s.closed.ran| == 1)
            && (s.closer in {ActiveDone, PassiveDone} && s.closed.callback.Some? && s.closed.owed == [] ==> |s.closed.ran| == 1)
            && (s.closer !in {ActiveDone, PassiveDone} ==> s.closed.ran == [])
  {
    RunsKeepInvariant(states, events, i);
  }

  /** The disconnect callback runs at most once and only if the passive side won; if it won and a callback is set, it is due. */
  lemma DisconnectOnlyWhenPassive(states: seq<Connection>, events: seq<Event>, i: nat)
    requires Behaviour(states, events) && i < |states|
    ensures var s := states[i];
            && |s.disconnect.ran| <= 1
            && (s.disconnect.ran != [] ==> Passive(s.closer))
            && (s.closer == PassiveDone && s.disconnect.callback.Some? && s.disconnect.owed == [] ==> |s.disconnect.ran| == 1)
  {
    RunsKeepInvariant(states, events, i);
  }

  /** The callback is fixed when its delivery is decided, to the one set at that moment; setting one later starts nothing. */
  ghost predicate Decides(a: Notice, b: Notice) {
    && (b.delivered && !a.delivered ==> b.callback.Some? && b.owed == a.owed + [b.callback.value] && b.ran == a.ran)
    && (b.delivered == a.delivered ==> b.owed == a.owed && b.ran == a.ran)
  }

  /** What a step does to a notice: a setting, a call, or the event itself. */
  lemma StepMeans(s: Connection, e: Event)
    requires Invariant(s) && Enabled(s, e)
    ensures var t := Next(s, e);
            && (t.closed.callback == if e.SetOnClosed? then e.callback else s.closed.callback)
            && (t.disconnect.callback == if e.SetOnDisconnect? then e.callback else s.disconnect.callback)
            && (e == CallClosed ==> s.closed.owed == [s.closed.owed[0]] && t.closed.owed == [] && t.closed.ran == s.closed.ran + s.closed.owed)
            && (e == CallDisconnect ==>
                  s.disconnect.owed == [s.disconnect.owed[0]] && t.disconnect.owed == [] && t.disconnect.ran == s.disconnect.ran + s.disconnect.owed)
            && (e != CallClosed ==> Decides(s.closed, t.closed))
            && (e != CallDisconnect ==> Decides(s.disconnect, t.disconnect))
  {
  }

  /** Either side that finds the connection open wins, and can then always take its next step to the end. */
  lemma CloserGetsThrough(s: Connection)
    requires Invariant(s)
    ensures !s.isClosed ==> Next(s, ActiveClose).closer == ActiveWon && Next(s, PassiveClose).closer == PassiveWon
    ensures s.isClosed ==> Next(s, ActiveClose) == s && Next(s, PassiveClose) == s
    ensures s.closer == ActiveWon ==> Enabled(s, MarkIntentional) && Next(s, MarkIntentional).closer == ActiveMarked
    ensures s.closer == ActiveMarked ==> Enabled(s, TellClosed) && Next(s, TellClosed).closer == ActiveDone
    ensures s.closer == PassiveWon ==> Enabled(s, TellDisconnected) && Next(s, TellDisconnected).closer == PassiveTold
    ensures s.closer == PassiveTold ==> Enabled(s, TellClosed) && Next(s, TellClosed).closer == PassiveDone
  {
  }

  /** What has run, or is due, stays: nothing is called a second time later. */
  lemma {:induction false} CallsAreFinal(states: seq<Connection>, events: seq<Event>, i: nat, j: nat)
    requires Behaviour(states, events) && i <= j < |states|
    ensures states[i].closed.ran != [] ==> states[j].closed.ran == states[i].closed.ran
    ensures states[i].disconnect.ran != [] ==> states[j].disconnect.ran == states[i].disconnect.ran
    decreases j
  {
    if i < j {
      CallsAreFinal(states, events, i, j - 1);
      RunsKeepInvariant(states, events, j - 1);
      assert Steps(states[j - 1], events[j - 1], states[j]);
    }
  }
}

/**
 * The cumulative collector and its report windows under concurrency. A recorder holds the shared lock
 * while it makes its additions one by one, first to the cumulative collector, then to the current
 * window; closing a window and resetting take the lock alone.
 */
module MetricsWindows {
  import opened Values
  import opened MetricsRecord

  /** The additions a recorder still has to make; one with none left has released the lock. */
  datatype Recorder = Recorder(toCumulative: seq<Add>, toWindow: seq<Add>)

  /** `history` is what was begun since the last reset. */
  datatype Monitor = Monitor(
    cumulative: Counters,
    window: Counters,
    closed: seq<Counters>,
    recorders: seq<Recorder>,
    history: seq<Event>)

  /**
   * A record reads each collector's Apdex threshold once per request, and other threads may change
   * either in between. Its additions may be any that come to what it is worth.
   */
  datatype Event =
    | Record(r: ActionRecord, track: bool, thresholds: seq<int>, windowThresholds: seq<int>, adds: seq<Add>, windowAdds: seq<Add>)
    | CancelPending(name: string)
    | Transfer(send: int, received: int)
    | Start(name: string)
    | Advance(recorder: nat)
    | Report
    | Reset

  function Fresh(): Monitor {
    Monitor(map[], map[], [], [], [])
  }

  predicate Idle(r: Recorder) {
    r.toCumulative == [] && r.toWindow == []
  }

  predicate Unlocked(s: Monitor) {
    forall i :: 0 <= i < |s.recorders| ==> Idle(s.recorders[i])
  }

  predicate Measured(e: Event) {
    e.Record? ==> |e.r.requests| == |e.thresholds| == |e.windowThresholds|
  }

  ghost predicate Enabled(s: Monitor, e: Event) {
    match e
    case Record(r, track, t, u, adds, windowAdds) => Measured(e) && AmountsTo(adds, r, t, track) && AmountsTo(windowAdds, r, u, false)
    case Advance(i) => i < |s.recorders| && !Idle(s.recorders[i])
    case Report => Unlocked(s)
    case Reset => Unlocked(s)
    case _ => true
  }

  function Begin(s: Monitor, e: Event, adds: seq<Add>, windowAdds: seq<Add>): Monitor {
    s.(recorders := s.recorders + [Recorder(adds, windowAdds)], history := s.history + [e])
  }

  function TransferAdds(send: int, received: int): seq<Add> {
    (if send > 0 then [Add(Whole(TotalSend), send)] else []) + if received > 0 then [Add(Whole(TotalReceived), received)] else []
  }

  ghost function Next(s: Monitor, e: Event): Monitor
    requires Enabled(s, e)
  {
    match e
    case Record(_, _, _, _, adds, windowAdds) => Begin(s, e, adds, windowAdds)
    case CancelPending(name) => Begin(s, e, [Add(Of(name, Canceled), 1)], [Add(Of(name, Canceled), 1)])
    case Transfer(send, received) => Begin(s, e, TransferAdds(send, received), TransferAdds(send, received))
    case Start(name) => s.(cumulative := Bump(s.cumulative, Add(Of(name, Executing), 1)), history := s.history + [e])
    case Advance(i) =>
      var r := s.recorders[i];
      if r.toCumulative != []
      then s.(cumulative := Bump(s.cumulative, r.toCumulative[0]), recorders := s.recorders[i := r.(toCumulative := r.toCumulative[1..])])
      else s.(window := Bump(s.window, r.toWindow[0]), recorders := s.recorders[i := r.(toWindow := r.toWindow[1..])])
    case Report => s.(closed := s.closed + [s.window], window := map[])
    case Reset => Fresh()
  }

  // ---- what a history is worth ----

  /** What an event is worth to the cumulative collector. */
  function Worth(e: Event, k: Key): int
    requires Measured(e)
  {
    match e
    case Record(r, track, t, _, _, _) => ActionWorth(r, t, track, k)
    case CancelPending(name) => One(k == Of(name, Canceled))
    case Transfer(send, received) =>
      if k == Whole(TotalSend) then AtLeastZero(send) else if k == Whole(TotalReceived) then AtLeastZero(received) else 0
    case Start(name) => One(k == Of(name, Executing))
    case _ => 0
  }

  /** What an event is worth to its window: the running count is none of it. */
  function WindowWorth(e: Event, k: Key): int
    requires Measured(e)
  {
    match e
    case Record(r, _, _, u, _, _) => ActionWorth(r, u, false, k)
    case Start(_) => 0
    case _ => Worth(e, k)
  }

  /** What an event makes the windows gain over the total: requests that the two thresholds rate differently. */
  function Drift(e: Event, k: Key): int
    requires Measured(e)
  {
    if !e.Record? then 0
    else if k == Of(e.r.name, Satisfied) then
      RatedCount(e.r.requests, e.windowThresholds, Content) - RatedCount(e.r.requests, e.thresholds, Content)
    else if k == Of(e.r.name, Tolerating) then
      RatedCount(e.r.requests, e.windowThresholds, Patient) - RatedCount(e.r.requests, e.thresholds, Patient)
    else 0
  }

  predicate AllMeasured(h: seq<Event>) {
    forall i :: 0 <= i < |h| ==> Measured(h[i])
  }

  function TotalWorth(h: seq<Event>, k: Key): int
    requires AllMeasured(h)
  {
    if h == [] then 0 else TotalWorth(h[..|h| - 1], k) + Worth(h[|h| - 1], k)
  }

  function TotalWindowWorth(h: seq<Event>, k: Key): int
    requires AllMeasured(h)
  {
    if h == [] then 0 else TotalWindowWorth(h[..|h| - 1], k) + WindowWorth(h[|h| - 1], k)
  }

  function TotalDrift(h: seq<Event>, k: Key): int
    requires AllMeasured(h)
  {
    if h == [] then 0 else TotalDrift(h[..|h| - 1], k) + Drift(h[|h| - 1], k)
  }

  lemma WindowDrifts(e: Event, k: Key)
    requires Measured(e)
    ensures k.field != Executing ==> WindowWorth(e, k) == Worth(e, k) + Drift(e, k)
    ensures k.field == Executing ==> WindowWorth(e, k) == 0
  {
  }

  lemma {:induction false} WindowsDrift(h: seq<Event>, k: Key)
    requires AllMeasured(h)
    ensures k.field != Executing ==> TotalWindowWorth(h, k) == TotalWorth(h, k) + TotalDrift(h, k)
    ensures k.field == Executing ==> TotalWindowWorth(h, k) == 0
    decreases |h|
  {
    if h != [] {
      WindowsDrift(h[..|h| - 1], k);
      WindowDrifts(h[|h| - 1], k);
    }
  }

  /** Records whose requests both thresholds rate alike drift on no counter. */
  lemma {:induction false} AlikeDoesNotDrift(h: seq<Event>, k: Key)
    requires AllMeasured(h)
    requires forall i :: 0 <= i < |h| && h[i].Record? ==> RatedAlike(h[i].r.requests, h[i].thresholds, h[i].windowThresholds)
    ensures TotalDrift(h, k) == 0
    decreases |h|
  {
    if h != [] {
      var e := h[|h| - 1];
      AlikeDoesNotDrift(h[..|h| - 1], k);
      if e.Record? {
        AlikeCounts(e.r.requests, e.thresholds, e.windowThresholds, Content);
        AlikeCounts(e.r.requests, e.thresholds, e.windowThresholds, Patient);
      }
    }
  }

  // ---- what is still owed ----

  function Owed(rs: seq<Recorder>, k: Key): int {
    if rs == [] then 0 else Owed(rs[..|rs| - 1], k) + Total(rs[|rs| - 1].toCumulative, k)
  }

  function OwedWindow(rs: seq<Recorder>, k: Key): int {
    if rs == [] then 0 else OwedWindow(rs[..|rs| - 1], k) + Total(rs[|rs| - 1].toWindow, k)
  }

  /** The sum of all closed windows. */
  function Closed(ws: seq<Counters>, k: Key): int {
    if ws == [] then 0 else Closed(ws[..|ws| - 1], k) + At(ws[|ws| - 1], k)
  }

  lemma {:induction false} OwedUpdate(rs: seq<Recorder>, i: nat, r: Recorder, k: Key)
    requires i < |rs|
    ensures Owed(rs[i := r], k) == Owed(rs, k) - Total(rs[i].toCumulative, k) + Total(r.toCumulative, k)
    ensures OwedWindow(rs[i := r], k) == OwedWindow(rs, k) - Total(rs[i].toWindow, k) + Total(r.toWindow, k)
    decreases |rs|
  {
    var n := |rs| - 1;
    if i == n {
      assert rs[i := r][..n] == rs[..n];
    } else {
      assert rs[i := r][..n] == rs[..n][i := r];
      OwedUpdate(rs[..n], i, r, k);
    }
  }

  lemma {:induction false} NothingOwed(rs: seq<Recorder>, k: Key)
    requires forall i :: 0 <= i < |rs| ==> Idle(rs[i])
    ensures Owed(rs, k) == 0 && OwedWindow(rs, k) == 0
    decreases |rs|
  {
    if rs != [] {
      NothingOwed(rs[..|rs| - 1], k);
    }
  }

  // ---- the invariant ----

  /** What is counted plus what is still owed is what was begun, in total and over the windows. */
  ghost predicate Balanced(s: Monitor, k: Key) {
    && AllMeasured(s.history)
    && At(s.cumulative, k) + Owed(s.recorders, k) == TotalWorth(s.history, k)
    && Closed(s.closed, k) + At(s.window, k) + OwedWindow(s.recorders, k) == TotalWindowWorth(s.history, k)
  }

  lemma BeginBalanced(s: Monitor, e: Event, adds: seq<Add>, windowAdds: seq<Add>, k: Key)
    requires Balanced(s, k) && Measured(e) && Total(adds, k) == Worth(e, k) && Total(windowAdds, k) == WindowWorth(e, k)
    ensures Balanced(Begin(s, e, adds, windowAdds), k)
  {
    var t := Begin(s, e, adds, windowAdds);
    assert t.recorders[..|s.recorders|] == s.recorders && t.history[..|s.history|] == s.history;
  }

  lemma TransferTotal(send: int, received: int, k: Key)
    ensures Total(TransferAdds(send, received), k) == Worth(Transfer(send, received), k)
  {
    var a := if send > 0 then [Add(Whole(TotalSend), send)] else [];
    var b := if received > 0 then [Add(Whole(TotalReceived), received)] else [];
    TotalAppend(a, b, k);
  }

  lemma CumulativeAdvance(s: Monitor, i: nat, k: Key)
    requires i < |s.recorders| && s.recorders[i].toCumulative != [] && Balanced(s, k)
    ensures var r := s.recorders[i];
            Balanced(s.(cumulative := Bump(s.cumulative, r.toCumulative[0]), recorders := s.recorders[i := r.(toCumulative := r.toCumulative[1..])]), k)
  {
    var r := s.recorders[i];
    OwedUpdate(s.recorders, i, r.(toCumulative := r.toCumulative[1..]), k);
  }

  lemma WindowAdvance(s: Monitor, i: nat, k: Key)
    requires i < |s.recorders| && s.recorders[i].toWindow != [] && Balanced(s, k)
    ensures var r := s.recorders[i];
            Balanced(s.(window := Bump(s.window, r.toWindow[0]), recorders := s.recorders[i := r.(toWindow := r.toWindow[1..])]), k)
  {
    var r := s.recorders[i];
    OwedUpdate(s.recorders, i, r.(toWindow := r.toWindow[1..]), k);
  }

  lemma CancelBalanced(s: Monitor, name: string, k: Key)
    requires Balanced(s, k)
    ensures Balanced(Begin(s, CancelPending(name), [Add(Of(name, Canceled), 1)], [Add(Of(name, Canceled), 1)]), k)
  {
    TotalCons(Add(Of(name, Canceled), 1), [], k);
    assert [Add(Of(name, Canceled), 1)] + [] == [Add(Of(name, Canceled), 1)];
    BeginBalanced(s, CancelPending(name), [Add(Of(name, Canceled), 1)], [Add(Of(name, Canceled), 1)], k);
  }

  lemma StartBalanced(s: Monitor, name: string, k: Key)
    requires Balanced(s, k)
    ensures Balanced(s.(cumulative := Bump(s.cumulative, Add(Of(name, Executing), 1)), history := s.history + [Start(name)]), k)
  {
    assert (s.history + [Start(name)])[..|s.history|] == s.history;
  }

  lemma ReportBalanced(s: Monitor, k: Key)
    requires Balanced(s, k)
    ensures Balanced(s.(closed := s.closed + [s.window], window := map[]), k)
  {
    assert (s.closed + [s.window])[..|s.closed|] == s.closed;
  }

  lemma StepBalanced(s: Monitor, e: Event, k: Key)
    requires Enabled(s, e) && Balanced(s, k)
    ensures Balanced(Next(s, e), k)
  {
    match e
    case Record(r, track, t, u, adds, windowAdds) =>
      assert Total(adds, k) == ActionWorth(r, t, track, k) && Total(windowAdds, k) == ActionWorth(r, u, false, k);
      BeginBalanced(s, e, adds, windowAdds, k);
    case CancelPending(name) => CancelBalanced(s, name, k);
    case Transfer(send, received) =>
      TransferTotal(send, received, k);
      BeginBalanced(s, e, TransferAdds(send, received), TransferAdds(send, received), k);
    case Start(name) => StartBalanced(s, name, k);
    case Advance(i) =>
      if s.recorders[i].toCumulative != [] {
        CumulativeAdvance(s, i, k);
      } else {
        WindowAdvance(s, i, k);
      }
    case Report => ReportBalanced(s, k);
    case Reset =>
  }

  // ---- runs ----

  ghost predicate Steps(s: Monitor, e: Event, t: Monitor) {
    Enabled(s, e) && t == Next(s, e)
  }

  ghost predicate Behaviour(states: seq<Monitor>, events: seq<Event>) {
    && |states| == |events| + 1
    && states[0] == Fresh()
    && forall i :: 0 <= i < |events| ==> Steps(states[i], events[i], states[i + 1])
  }

  lemma {:induction false} RunsStayBalanced(states: seq<Monitor>, events: seq<Event>, i: nat, k: Key)
    requires Behaviour(states, events) && i < |states|
    ensures Balanced(states[i], k)
  {
    if i > 0 {
      RunsStayBalanced(states, events, i - 1, k);
      assert Steps(states[i - 1], events[i - 1], states[i]);
      StepBalanced(states[i - 1], events[i - 1], k);
    }
  }

  lemma HistoryMeasured(states: seq<Monitor>, events: seq<Event>, i: nat)
    requires Behaviour(states, events) && i < |states|
    ensures AllMeasured(states[i].history)
  {
    RunsStayBalanced(states, events, i, Whole(TotalActions));
  }

  /**
   * After every report of every run, each cumulative count is what was begun since the last reset; the
   * closed windows together hold that plus the drift, so they agree exactly where nothing drifted. The
   * windows' own running counts are zero.
   */
  lemma ReportsAddUp(states: seq<Monitor>, events: seq<Event>, i: nat, k: Key)
    requires Behaviour(states, events) && i < |events| && events[i] == Report
    ensures AllMeasured(states[i + 1].history)
    ensures var s := states[i + 1];
            && At(s.cumulative, k) == TotalWorth(s.history, k)
            && (k.field != Executing ==> Closed(s.closed, k) == At(s.cumulative, k) + TotalDrift(s.history, k))
            && (k.field != Executing ==> (Closed(s.closed, k) == At(s.cumulative, k) <==> TotalDrift(s.history, k) == 0))
            && (k.field == Executing ==> Closed(s.closed, k) == 0)
  {
    RunsStayBalanced(states, events, i + 1, k);
    assert Steps(states[i], events[i], states[i + 1]);
    NothingOwed(states[i + 1].recorders, k);
    WindowsDrift(states[i + 1].history, k);
  }

  /** Every count but the two Apdex ones agrees at every report, whatever the thresholds did. */
  lemma OnlyApdexDrifts(states: seq<Monitor>, events: seq<Event>, i: nat, k: Key)
    requires Behaviour(states, events) && i < |events| && events[i] == Report
    requires k.field != Executing && k.field != Satisfied && k.field != Tolerating
    ensures Closed(states[i + 1].closed, k) == At(states[i + 1].cumulative, k)
  {
    ReportsAddUp(states, events, i, k);
    NoDrift(states[i + 1].history, k);
  }

  lemma {:induction false} NoDrift(h: seq<Event>, k: Key)
    requires AllMeasured(h) && k.field != Satisfied && k.field != Tolerating
    ensures TotalDrift(h, k) == 0
    decreases |h|
  {
    if h != [] {
      NoDrift(h[..|h| - 1], k);
    }
  }

  /** Until the next reset a closed window is never touched again. */
  lemma {:induction false} ClosedWindowsStay(states: seq<Monitor>, events: seq<Event>, i: nat, j: nat)
    requires Behaviour(states, events) && i <= j < |states|
    requires forall n :: i <= n < j ==> events[n] != Reset
    ensures states[i].closed <= states[j].closed
    decreases j
  {
    if i < j {
      ClosedWindowsStay(states, events, i, j - 1);
      assert Steps(states[j - 1], events[j - 1], states[j]);
      assert events[j - 1] != Reset;
    }
  }

  // ---- what a report says about its history ----

  function Records(h: seq<Event>, name: string, outcome: Outcome): nat {
    if h == [] then 0
    else Records(h[..|h| - 1], name, outcome) + One(h[|h| - 1].Record? && h[|h| - 1].r.name == name && h[|h| - 1].r.outcome == outcome)
  }

  function Cancellations(h: seq<Event>, name: string): nat {
    if h == [] then 0 else Cancellations(h[..|h| - 1], name) + One(h[|h| - 1] == CancelPending(name))
  }

  /** Records of any name that were not canceled. */
  function FinishedRecords(h: seq<Event>): nat {
    if h == [] then 0 else FinishedRecords(h[..|h| - 1]) + One(h[|h| - 1].Record? && h[|h| - 1].r.outcome != WasCanceled)
  }

  function MeasuredRequests(h: seq<Event>, name: string): nat {
    if h == [] then 0
    else MeasuredRequests(h[..|h| - 1], name) + if h[|h| - 1].Record? && h[|h| - 1].r.name == name then AcceptedCount(h[|h| - 1].r.requests) else 0
  }

  /** Bytes sent, or received, by the records of a name. */
  function RecordedBytes(h: seq<Event>, name: string, sent: bool): nat {
    if h == [] then 0
    else
      RecordedBytes(h[..|h| - 1], name, sent)
      + if h[|h| - 1].Record? && h[|h| - 1].r.name == name
        then AtLeastZero(if sent then h[|h| - 1].r.sendBytes else h[|h| - 1].r.receivedBytes) else 0
  }

  /** Durations refused for being negative. */
  function RefusedDurations(h: seq<Event>, name: string): nat {
    if h == [] then 0
    else
      RefusedDurations(h[..|h| - 1], name)
      + One(h[|h| - 1].Record? && h[|h| - 1].r.name == name && Sampled(h[|h| - 1].r) && h[|h| - 1].r.wallClock < 0)
  }

  lemma {:induction false} VerdictsCount(h: seq<Event>, name: string)
    requires AllMeasured(h)
    ensures TotalWorth(h, Of(name, Success)) == Records(h, name, Succeeded)
    ensures TotalWorth(h, Of(name, Failure)) == Records(h, name, Failed)
    ensures TotalWorth(h, Of(name, Timeout)) == Records(h, name, TimedOut)
    ensures TotalWorth(h, Of(name, Canceled)) == Records(h, name, WasCanceled) + Cancellations(h, name)
    ensures TotalWorth(h, Whole(TotalActions)) == FinishedRecords(h)
    decreases |h|
  {
    if h != [] {
      VerdictsCount(h[..|h| - 1], name);
    }
  }

  lemma {:induction false} SamplesCount(h: seq<Event>, name: string)
    requires AllMeasured(h)
    ensures TotalWorth(h, Of(name, RttSamples)) == MeasuredRequests(h, name)
    ensures TotalWorth(h, Of(name, Satisfied)) + TotalWorth(h, Of(name, Tolerating)) <= TotalWorth(h, Of(name, RttSamples))
    decreases |h|
  {
    if h != [] {
      var e := h[|h| - 1];
      SamplesCount(h[..|h| - 1], name);
      if e.Record? {
        RatedShares(e.r.requests, e.thresholds);
      }
    }
  }

  lemma {:induction false} DurationsCount(h: seq<Event>, name: string)
    requires AllMeasured(h)
    ensures TotalWorth(h, Of(name, ClientCosts)) == TotalWorth(h, Of(name, Durations)) + RefusedDurations(h, name)
    decreases |h|
  {
    if h != [] {
      DurationsCount(h[..|h| - 1], name);
    }
  }

  lemma {:induction false} BytesCount(h: seq<Event>, name: string)
    requires AllMeasured(h)
    ensures TotalWorth(h, Of(name, SendBytes)) == RecordedBytes(h, name, true)
    ensures TotalWorth(h, Of(name, ReceivedBytes)) == RecordedBytes(h, name, false)
    decreases |h|
  {
    if h != [] {
      BytesCount(h[..|h| - 1], name);
    }
  }

  /**
   * What a report's cumulative numbers mean: verdicts count the records with that outcome, their total
   * counts the finished ones, round trips and bytes are those of the records, and no more requests are
   * satisfied or tolerating than were measured.
   */
  lemma ReportMeans(states: seq<Monitor>, events: seq<Event>, i: nat, name: string)
    requires Behaviour(states, events) && i < |events| && events[i] == Report
    ensures var h, c := states[i + 1].history, states[i + 1].cumulative;
            && At(c, Of(name, Success)) == Records(h, name, Succeeded) && At(c, Of(name, Failure)) == Records(h, name, Failed)
            && At(c, Of(name, Timeout)) == Records(h, name, TimedOut)
            && At(c, Of(name, Canceled)) == Records(h, name, WasCanceled) + Cancellations(h, name)
            && At(c, Whole(TotalActions)) == FinishedRecords(h)
            && At(c, Of(name, RttSamples)) == MeasuredRequests(h, name)
            && At(c, Of(name, Satisfied)) + At(c, Of(name, Tolerating)) <= At(c, Of(name, RttSamples))
            && At(c, Of(name, ClientCosts)) == At(c, Of(name, Durations)) + RefusedDurations(h, name)
            && At(c, Of(name, SendBytes)) == RecordedBytes(h, name, true) && At(c, Of(name, ReceivedBytes)) == RecordedBytes(h, name, false)
  {
    var h := states[i + 1].history;
    HistoryMeasured(states, events, i + 1);
    forall f ensures At(states[i + 1].cumulative, Of(name, f)) == TotalWorth(h, Of(name, f)) {
      ReportsAddUp(states, events, i, Of(name, f));
    }
    ReportsAddUp(states, events, i, Whole(TotalActions));
    VerdictsCount(h, name);
    SamplesCount(h, name);
    DurationsCount(h, name);
    BytesCount(h, name);
  }

  // ---- a report whose windows disagree ----

  /** From any state, recorder i can make all its remaining additions. */
  lemma {:induction false} FinishRecorder(s: Monitor, i: nat) returns (states: seq<Monitor>, events: seq<Event>)
    requires i < |s.recorders|
    ensures |states| == |events| + 1 && states[0] == s
    ensures forall j :: 0 <= j < |events| ==> Steps(states[j], events[j], states[j + 1])
    ensures var t := states[|events|];
            t.recorders == s.recorders[i := Recorder([], [])] && t.history == s.history && t.closed == s.closed
    decreases |s.recorders[i].toCumulative| + |s.recorders[i].toWindow|
  {
    if Idle(s.recorders[i]) {
      states, events := [s], [];
      assert s.recorders[i := Recorder([], [])] == s.recorders;
    } else {
      var t := Next(s, Advance(i));
      states, events := FinishRecorder(t, i);
      assert Steps(s, Advance(i), t);
      states, events := [s] + states, [Advance(i)] + events;
    }
  }

  /** A canceled action with one measured round trip of 50. */
  function OneTrip(name: string): ActionRecord {
    ActionRecord(name, WasCanceled, 0, [Sample(true, 50)], 0, [], 0, 0, [], 0, 0, None)
  }

  lemma OneTripWorth(name: string, t: int, k: Key)
    ensures ActionWorth(OneTrip(name), [t], false, k)
         == One(k == Of(name, RttSamples)) + One(k == Of(name, Satisfied) && 50 < t) + One(k == Of(name, Tolerating) && t <= 50 < 4 * t)
            + One(k == Of(name, ByteSamples)) + One(k == Of(name, Canceled))
  {
    var s := Sample(true, 50);
    CountedOne(s);
    RatedOne(s, t, Content);
    RatedOne(s, t, Patient);
  }

  lemma OneTripAmounts(name: string)
    ensures AmountsTo([Add(Of(name, RttSamples), 1)] + ([Add(Of(name, Satisfied), 1)] + [Add(Of(name, ByteSamples), 1), Add(Of(name, Canceled), 1)]),
                      OneTrip(name), [100], false)
    ensures AmountsTo([Add(Of(name, RttSamples), 1)] + [Add(Of(name, ByteSamples), 1), Add(Of(name, Canceled), 1)], OneTrip(name), [10], false)
  {
    var last := [Add(Of(name, ByteSamples), 1), Add(Of(name, Canceled), 1)];
    forall k
      ensures Total([Add(Of(name, RttSamples), 1)] + ([Add(Of(name, Satisfied), 1)] + last), k) == ActionWorth(OneTrip(name), [100], false, k)
      ensures Total([Add(Of(name, RttSamples), 1)] + last, k) == ActionWorth(OneTrip(name), [10], false, k)
    {
      OneTripWorth(name, 100, k);
      OneTripWorth(name, 10, k);
      assert last == [Add(Of(name, ByteSamples), 1)] + ([Add(Of(name, Canceled), 1)] + []);
      TotalCons(Add(Of(name, Canceled), 1), [], k);
      TotalCons(Add(Of(name, ByteSamples), 1), [Add(Of(name, Canceled), 1)] + [], k);
      TotalCons(Add(Of(name, Satisfied), 1), last, k);
      TotalCons(Add(Of(name, RttSamples), 1), [Add(Of(name, Satisfied), 1)] + last, k);
      TotalCons(Add(Of(name, RttSamples), 1), last, k);
    }
  }

  /** The threshold falls from 100 to 10 while one request is recorded: satisfied in total, in no window. */
  lemma ReportCanDisagree(name: string) returns (states: seq<Monitor>, events: seq<Event>)
    ensures Behaviour(states, events) && events != [] && events[|events| - 1] == Report
    ensures var s, k := states[|events|], Of(name, Satisfied);
            At(s.cumulative, k) == 1 && Closed(s.closed, k) == 0
  {
    var last := [Add(Of(name, ByteSamples), 1), Add(Of(name, Canceled), 1)];
    var adds, windowAdds := [Add(Of(name, RttSamples), 1)] + ([Add(Of(name, Satisfied), 1)] + last), [Add(Of(name, RttSamples), 1)] + last;
    var e := Record(OneTrip(name), false, [100], [10], adds, windowAdds);
    OneTripAmounts(name);
    var s1 := Next(Fresh(), e);
    var a, x := FinishRecorder(s1, 0);
    var t := a[|x|];
    var u := Next(t, Report);
    states, events := [Fresh()] + a + [u], [e] + x + [Report];
    forall i | 0 <= i < |events| ensures Steps(states[i], events[i], states[i + 1]) {
      if i == 0 {
        assert Steps(Fresh(), e, s1);
      } else if i < |events| - 1 {
        assert Steps(a[i - 1], x[i - 1], a[i]);
      } else {
        assert Steps(t, Report, u);
      }
    }
    OneTripReport(states, events, name, e);
  }

  lemma OneTripReport(states: seq<Monitor>, events: seq<Event>, name: string, e: Event)
    requires Behaviour(states, events) && events != [] && events[|events| - 1] == Report
    requires e.Record? && e.r == OneTrip(name) && e.thresholds == [100] && e.windowThresholds == [10] && states[|events|].history == [e]
    ensures At(states[|events|].cumulative, Of(name, Satisfied)) == 1 && Closed(states[|events|].closed, Of(name, Satisfied)) == 0
  {
    ReportsAddUp(states, events, |events| - 1, Of(name, Satisfied));
    assert [e][..0] == [];
    RatedOne(Sample(true, 50), 100, Content);
    RatedOne(Sample(true, 50), 10, Content);
  }
}

/**
 * What the counters of a collector stand for: each field's share of a record told from the record
 * itself, the counts as sizes of sets, and which events a report's history holds.
 */
module MetricsMeaning {
  import opened Values
  import opened MetricsRecord
  import opened MetricsWindows

  // ---- counts and sums ----

  /** A request satisfies below the threshold, frustrates from four thresholds on, and is tolerated between. */
  lemma RateMeans(cost: int, threshold: int)
    requires threshold > 0
    ensures Rate(cost, threshold) == Content <==> cost < threshold
    ensures Rate(cost, threshold) == Patient <==> threshold <= cost < threshold + threshold + threshold + threshold
    ensures Rate(cost, threshold) == Frustrated <==> cost >= threshold + threshold + threshold + threshold
  {
  }

  lemma OneMore<T>(s: set<T>, t: set<T>, x: T, b: bool)
    requires x !in s && t == (if b then s + {x} else s)
    ensures |t| == |s| + One(b)
  {
  }

  /** A sample counts if it was measured and not negative; a measurement of nothing counts only if it was taken. */
  function CountedIn(ss: seq<Sample>): set<nat> {
    set i: nat | i < |ss| && (ss[i].cost > 0 || (ss[i].cost == 0 && ss[i].observed))
  }

  function NegativeIn(ss: seq<Sample>): set<nat> {
    set i: nat | i < |ss| && ss[i].cost < 0
  }

  lemma CountedGrows(ss: seq<Sample>, n: nat)
    requires |ss| == n + 1
    ensures CountedIn(ss) == if Accepted(ss[n]) then CountedIn(ss[..n]) + {n} else CountedIn(ss[..n])
  {
    forall i: nat ensures i in CountedIn(ss) <==> i in CountedIn(ss[..n]) || (i == n && Accepted(ss[n])) {
      assert i < n ==> ss[..n][i] == ss[i];
    }
  }

  lemma {:induction false} CountedIsSize(ss: seq<Sample>)
    ensures AcceptedCount(ss) == |CountedIn(ss)|
    decreases |ss|
  {
    if |ss| > 0 {
      var n := |ss| - 1;
      CountedIsSize(ss[..n]);
      CountedGrows(ss, n);
      OneMore(CountedIn(ss[..n]), CountedIn(ss), n, Accepted(ss[n]));
    }
  }

  lemma NegativeGrows(ss: seq<Sample>, n: nat)
    requires |ss| == n + 1
    ensures NegativeIn(ss) == if ss[n].cost < 0 then NegativeIn(ss[..n]) + {n} else NegativeIn(ss[..n])
  {
    forall i: nat ensures i in NegativeIn(ss) <==> i in NegativeIn(ss[..n]) || (i == n && ss[n].cost < 0) {
      assert i < n ==> ss[..n][i] == ss[i];
    }
  }

  lemma {:induction false} NegativeIsSize(ss: seq<Sample>)
    ensures RefusedCount(ss) == |NegativeIn(ss)|
    decreases |ss|
  {
    if |ss| > 0 {
      var n := |ss| - 1;
      NegativeIsSize(ss[..n]);
      NegativeGrows(ss, n);
      OneMore(NegativeIn(ss[..n]), NegativeIn(ss), n, ss[n].cost < 0);
    }
  }

  function PositiveIn(xs: seq<int>): set<nat> {
    set i: nat | i < |xs| && xs[i] > 0
  }

  lemma {:induction false} PositiveIsSize(xs: seq<int>)
    ensures PositiveCount(xs) == |PositiveIn(xs)|
    decreases |xs|
  {
    if |xs| > 0 {
      var n := |xs| - 1;
      PositiveIsSize(xs[..n]);
      forall i: nat ensures i in PositiveIn(xs) <==> i in PositiveIn(xs[..n]) || (i == n && xs[n] > 0) {
        assert i < n ==> xs[..n][i] == xs[i];
      }
      OneMore(PositiveIn(xs[..n]), PositiveIn(xs), n, xs[n] > 0);
    }
  }

  /** The counted requests that the threshold read for each puts into a class. */
  function RatedIn(ss: seq<Sample>, t: seq<int>, c: Class): set<nat>
    requires |ss| == |t|
  {
    set i: nat | i in CountedIn(ss) && Rate(ss[i].cost, t[i]) == c
  }

  lemma RatedGrows(ss: seq<Sample>, t: seq<int>, c: Class, n: nat)
    requires |ss| == |t| == n + 1
    ensures RatedIn(ss, t, c) == if Accepted(ss[n]) && Rate(ss[n].cost, t[n]) == c then RatedIn(ss[..n], t[..n], c) + {n} else RatedIn(ss[..n], t[..n], c)
  {
    CountedGrows(ss, n);
    forall i: nat
      ensures i in RatedIn(ss, t, c) <==> i in RatedIn(ss[..n], t[..n], c) || (i == n && Accepted(ss[n]) && Rate(ss[n].cost, t[n]) == c)
    {
      assert i < n ==> ss[..n][i] == ss[i] && t[..n][i] == t[i];
    }
  }

  lemma {:induction false} RatedIsSize(ss: seq<Sample>, t: seq<int>, c: Class)
    requires |ss| == |t|
    ensures RatedCount(ss, t, c) == |RatedIn(ss, t, c)|
    decreases |ss|
  {
    if |ss| > 0 {
      var n := |ss| - 1;
      RatedIsSize(ss[..n], t[..n], c);
      RatedGrows(ss, t, c, n);
      OneMore(RatedIn(ss[..n], t[..n], c), RatedIn(ss, t, c), n, Accepted(ss[n]) && Rate(ss[n].cost, t[n]) == c);
    }
  }

  /** Round trips add up; negative ones are left out. */
  lemma {:induction false} RttAddsUp(a: seq<Sample>, b: seq<Sample>)
    ensures WireRtt(a + b) == WireRtt(a) + WireRtt(b)
    ensures |b| == 1 ==> WireRtt(b) == if b[0].cost >= 0 then b[0].cost else 0
    decreases |b|
  {
    if |b| == 0 {
      assert a + b == a;
    } else {
      var n := |b| - 1;
      assert (a + b)[..|a| + n] == a + b[..n];
      RttAddsUp(a, b[..n]);
    }
  }

  // ---- every field of a record ----

  function Positive(x: int): nat {
    if x < 0 then 0 else x
  }

  /** Only a cancellation of an action that never ran leaves no durations. */
  predicate Ran(r: ActionRecord) {
    r.outcome == Succeeded || r.outcome == Failed || r.outcome == TimedOut || r.wallClock > 0
  }

  /** Verdicts: one each, finished ones in the total as well. */
  lemma VerdictFields(r: ActionRecord, t: seq<int>, track: bool)
    requires |r.requests| == |t|
    ensures ActionWorth(r, t, track, Of(r.name, Success)) == if r.outcome == Succeeded then 1 else 0
    ensures ActionWorth(r, t, track, Of(r.name, Failure)) == if r.outcome == Failed then 1 else 0
    ensures ActionWorth(r, t, track, Of(r.name, Timeout)) == if r.outcome == TimedOut then 1 else 0
    ensures ActionWorth(r, t, track, Of(r.name, Canceled)) == if r.outcome == WasCanceled then 1 else 0
    ensures ActionWorth(r, t, track, Of(r.name, Executing)) == if track then -1 else 0
    ensures ActionWorth(r, t, track, Whole(TotalActions)) == if r.outcome == WasCanceled then 0 else 1
  {
  }

  /** A code counts only with a failure or a timeout; a timeout adds its time. */
  lemma ErrorFields(r: ActionRecord, t: seq<int>, track: bool, code: nat)
    requires |r.requests| == |t|
    ensures ActionWorth(r, t, track, Of(r.name, Errors(code)))
         == if r.errorCode == Some(code) && (r.outcome == Failed || r.outcome == TimedOut) then 1 else 0
    ensures ActionWorth(r, t, track, Of(r.name, TimeoutNs)) == if r.outcome == TimedOut then Positive(r.wallClock) else 0
  {
  }

  /** The client's share of a duration is the wall clock without the round trips, never below zero. */
  lemma ClientFields(r: ActionRecord, t: seq<int>, track: bool)
    requires |r.requests| == |t|
    ensures ActionWorth(r, t, track, Of(r.name, ClientCostNs)) == if Ran(r) then Positive(r.wallClock - WireRtt(r.requests)) else 0
    ensures ActionWorth(r, t, track, Of(r.name, ClientCosts)) == if Ran(r) then 1 else 0
    ensures ActionWorth(r, t, track, Of(r.name, Durations)) == if Ran(r) && r.wallClock >= 0 then 1 else 0
  {
  }

  lemma StageFields(r: ActionRecord, t: seq<int>, track: bool, i: nat)
    requires |r.requests| == |t|
    ensures ActionWorth(r, t, track, Of(r.name, StageNs(i))) == if Ran(r) && i < |r.stages| then Positive(r.stages[i].cost) else 0
    ensures ActionWorth(r, t, track, Of(r.name, StageCount(i))) == if Ran(r) && i in CountedIn(r.stages) then 1 else 0
  {
  }

  /** Negative samples are counted, once each, instead of entering any sum. */
  lemma InvalidField(r: ActionRecord, t: seq<int>, track: bool)
    requires |r.requests| == |t|
    ensures ActionWorth(r, t, track, Whole(InvalidSamples))
         == |NegativeIn(r.requests)| + if Ran(r) then |NegativeIn(r.stages)| + (if r.wallClock < 0 then 1 else 0) else 0
  {
    assert Ran(r) <==> Sampled(r);
    NegativeIsSize(r.requests);
    NegativeIsSize(r.stages);
  }

  lemma RequestFields(r: ActionRecord, t: seq<int>, track: bool)
    requires |r.requests| == |t|
    ensures ActionWorth(r, t, track, Of(r.name, RttSamples)) == |CountedIn(r.requests)|
    ensures ActionWorth(r, t, track, Of(r.name, Satisfied)) == |RatedIn(r.requests, t, Content)|
    ensures ActionWorth(r, t, track, Of(r.name, Tolerating)) == |RatedIn(r.requests, t, Patient)|
  {
    CountedIsSize(r.requests);
    RatedIsSize(r.requests, t, Content);
    RatedIsSize(r.requests, t, Patient);
  }

  /** Failed requests, listens and bytes; a quantity that is not positive adds nothing. */
  lemma TrafficFields(r: ActionRecord, t: seq<int>, track: bool)
    requires |r.requests| == |t|
    ensures ActionWorth(r, t, track, Of(r.name, RttFailed)) == Positive(r.failedRequests)
    ensures ActionWorth(r, t, track, Of(r.name, ListenWaits)) == |PositiveIn(r.listenWaits)|
    ensures ActionWorth(r, t, track, Of(r.name, ListenReady)) == Positive(r.listenReady)
    ensures ActionWorth(r, t, track, Of(r.name, ListenTimeouts)) == Positive(r.listenTimeouts)
    ensures ActionWorth(r, t, track, Of(r.name, SendBytes)) == Positive(r.sendBytes)
    ensures ActionWorth(r, t, track, Of(r.name, ReceivedBytes)) == Positive(r.receivedBytes)
    ensures ActionWorth(r, t, track, Of(r.name, ByteSamples)) == 1
  {
    PositiveIsSize(r.listenWaits);
  }

  /** A record touches no other action, and of the collector's own fields only two. */
  lemma OtherFields(r: ActionRecord, t: seq<int>, track: bool, k: Key)
    requires |r.requests| == |t|
    requires if k.action.Some? then k.action.value != r.name || k.field in {TotalActions, TotalSend, TotalReceived, InvalidSamples}
             else k.field != TotalActions && k.field != InvalidSamples
    ensures ActionWorth(r, t, track, k) == 0
  {
  }

  // ---- other events, and the history of a report ----

  /** What the events that are not records count. */
  lemma OtherEvents(name: string, send: int, received: int, k: Key)
    ensures Worth(CancelPending(name), k) == (if k == Of(name, Canceled) then 1 else 0) == WindowWorth(CancelPending(name), k)
    ensures Worth(Transfer(send, received), k) == WindowWorth(Transfer(send, received), k)
         == if k == Whole(TotalSend) then Positive(send) else if k == Whole(TotalReceived) then Positive(received) else 0
    ensures Worth(MetricsWindows.Start(name), k) == (if k == Of(name, Executing) then 1 else 0) && WindowWorth(MetricsWindows.Start(name), k) == 0
  {
  }

  /** What was begun since the last reset. */
  function Begun(events: seq<Event>, n: nat): seq<Event>
    requires n <= |events|
  {
    if n == 0 then []
    else
      match events[n - 1]
      case Reset => []
      case Advance(_) => Begun(events, n - 1)
      case Report => Begun(events, n - 1)
      case _ => Begun(events, n - 1) + [events[n - 1]]
  }

  lemma {:induction false} HistoryMeans(states: seq<Monitor>, events: seq<Event>, n: nat)
    requires Behaviour(states, events) && n < |states|
    ensures states[n].history == Begun(events, n)
    decreases n
  {
    if n > 0 {
      HistoryMeans(states, events, n - 1);
      assert Steps(states[n - 1], events[n - 1], states[n]);
    }
  }

  /** What a history is worth is the sum over its events. */
  lemma {:induction false} WorthAddsUp(h: seq<Event>, more: seq<Event>, k: Key)
    requires AllMeasured(h + more) && AllMeasured(h) && AllMeasured(more)
    ensures TotalWorth(h + more, k) == TotalWorth(h, k) + TotalWorth(more, k)
    ensures |more| == 1 ==> TotalWorth(more, k) == Worth(more[0], k)
    decreases |more|
  {
    if |more| == 0 {
      assert h + more == h;
    } else {
      var n := |more| - 1;
      assert (h + more)[..|h| + n] == h + more[..n];
      WorthAddsUp(h, more[..n], k);
    }
  }

  /** A reset starts over; a report hands its window over and begins a new one. */
  lemma ResetAndReport(s: Monitor, k: Key)
    ensures Enabled(s, Reset) ==>
              var t := Next(s, Reset); At(t.cumulative, k) == 0 && At(t.window, k) == 0 && |t.closed| == 0 && |t.history| == 0
    ensures Enabled(s, Report) ==>
              var t := Next(s, Report);
              && At(t.cumulative, k) == At(s.cumulative, k) && At(t.window, k) == 0
              && t.closed == s.closed + [s.window] && t.history == s.history
  {
  }

  /** Nothing is reported or reset while a recorder still has something to add, and it can always add it. */
  lemma RecordersGetThrough(s: Monitor, i: nat)
    requires i < |s.recorders| && !Idle(s.recorders[i])
    ensures !Enabled(s, Report) && !Enabled(s, Reset) && Enabled(s, Advance(i))
    ensures var r, t := s.recorders[i], Next(s, Advance(i)).recorders[i];
            |t.toCumulative| + |t.toWindow| < |r.toCumulative| + |r.toWindow|
  {
  }
}

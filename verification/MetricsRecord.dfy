/**
 * What recording one action adds to a collector: the counters as a map from keys to totals, what a
 * record is worth to each of them, and the collector that adds it up one atomic addition at a time.
 */
module MetricsRecord {
  import opened Values

  datatype Field =
    | TotalActions | TotalSend | TotalReceived | InvalidSamples
    | Executing
    | Success | Failure | Timeout | TimeoutNs | Canceled | Errors(code: nat)
    | ClientCostNs | ClientCosts | Durations
    | StageNs(stage: nat) | StageCount(stage: nat)
    | RttSamples | Satisfied | Tolerating | RttFailed
    | ListenWaits | ListenReady | ListenTimeouts
    | SendBytes | ReceivedBytes | ByteSamples

  /** A field of the collector itself, or of one action. */
  datatype Key = Key(action: Option<string>, field: Field)

  datatype Add = Add(key: Key, amount: int)

  type Counters = map<Key, int>

  function At(c: Counters, k: Key): int {
    if k in c then c[k] else 0
  }

  function Bump(c: Counters, a: Add): Counters {
    c[a.key := At(c, a.key) + a.amount]
  }

  /** What a list of additions is worth to one key. */
  function Total(adds: seq<Add>, k: Key): int {
    if adds == [] then 0 else (if adds[0].key == k then adds[0].amount else 0) + Total(adds[1..], k)
  }

  lemma {:induction false} TotalAppend(a: seq<Add>, b: seq<Add>, k: Key)
    ensures Total(a + b, k) == Total(a, k) + Total(b, k)
  {
    if a == [] {
      assert a + b == b;
    } else {
      assert (a + b)[0] == a[0] && (a + b)[1..] == a[1..] + b;
      TotalAppend(a[1..], b, k);
    }
  }

  lemma TotalCons(a: Add, rest: seq<Add>, k: Key)
    ensures Total([a] + rest, k) == (if a.key == k then a.amount else 0) + Total(rest, k)
  {
    assert ([a] + rest)[1..] == rest;
  }

  // ---- one record ----

  datatype Outcome = Succeeded | Failed | TimedOut | WasCanceled

  /** A measured duration, or one that was never taken. */
  datatype Sample = Sample(observed: bool, cost: int)

  datatype ActionRecord = ActionRecord(
    name: string,
    outcome: Outcome,
    wallClock: int,
    requests: seq<Sample>,
    failedRequests: int,
    listenWaits: seq<int>,
    listenReady: int,
    listenTimeouts: int,
    stages: seq<Sample>,
    sendBytes: int,
    receivedBytes: int,
    errorCode: Option<nat>)

  function Of(name: string, f: Field): Key {
    Key(Some(name), f)
  }

  function Whole(f: Field): Key {
    Key(None, f)
  }

  // ---- what a record is worth ----

  /** The sum of the round trips that were measured. */
  function WireRtt(requests: seq<Sample>): nat {
    if requests == [] then 0 else WireRtt(requests[..|requests| - 1]) + AtLeastZero(requests[|requests| - 1].cost)
  }

  /** A sample that is counted; one never taken is passed over, a negative one is refused. */
  predicate Accepted(s: Sample) {
    s.cost >= 0 && (s.observed || s.cost != 0)
  }

  function AcceptedCount(ss: seq<Sample>): nat {
    if ss == [] then 0 else AcceptedCount(ss[..|ss| - 1]) + One(Accepted(ss[|ss| - 1]))
  }

  function RefusedCount(ss: seq<Sample>): nat {
    if ss == [] then 0 else RefusedCount(ss[..|ss| - 1]) + One(ss[|ss| - 1].cost < 0)
  }

  function PositiveCount(xs: seq<int>): nat {
    if xs == [] then 0 else PositiveCount(xs[..|xs| - 1]) + One(xs[|xs| - 1] > 0)
  }

  /** The Apdex class of a round trip. */
  datatype Class = Content | Patient | Frustrated

  function Rate(cost: int, threshold: int): Class {
    if cost < threshold then Content else if cost < 4 * threshold then Patient else Frustrated
  }

  /** The accepted requests that fall into a class. */
  function RatedCount(requests: seq<Sample>, thresholds: seq<int>, class_: Class): nat
    requires |requests| == |thresholds|
  {
    if requests == [] then 0
    else
      var i := |requests| - 1;
      RatedCount(requests[..i], thresholds[..i], class_) + One(Accepted(requests[i]) && Rate(requests[i].cost, thresholds[i]) == class_)
  }

  function One(b: bool): nat {
    if b then 1 else 0
  }

  function AtLeastZero(x: int): nat {
    if x > 0 then x else 0
  }

  /** Whether a record leaves duration samples: a cancellation booked for an action that never ran does not. */
  predicate Sampled(r: ActionRecord) {
    r.outcome != WasCanceled || r.wallClock > 0
  }

  /** What a record is worth to each counter, without regard to how it is recorded. */
  function ActionWorth(r: ActionRecord, thresholds: seq<int>, trackExecuting: bool, k: Key): int
    requires |r.requests| == |thresholds|
  {
    match k.action
    case None => WholeWorth(r, k.field)
    case Some(name) =>
      if name != r.name then 0
      else
        match k.field
        case Executing => if trackExecuting then -1 else 0
        case RttSamples => AcceptedCount(r.requests)
        case Satisfied => RatedCount(r.requests, thresholds, Content)
        case Tolerating => RatedCount(r.requests, thresholds, Patient)
        case _ => OwnWorth(r, k.field)
  }

  /** Fields of the collector itself. */
  function WholeWorth(r: ActionRecord, f: Field): nat {
    match f
    case TotalActions => One(r.outcome != WasCanceled)
    case InvalidSamples => RefusedCount(r.requests) + if Sampled(r) then RefusedCount(r.stages) + One(r.wallClock < 0) else 0
    case _ => 0
  }

  /** Fields of the action that depend on neither thresholds nor the running count. */
  function OwnWorth(r: ActionRecord, f: Field): nat {
    match f
    case Success => One(r.outcome == Succeeded)
    case Failure => One(r.outcome == Failed)
    case Timeout => One(r.outcome == TimedOut)
    case Canceled => One(r.outcome == WasCanceled)
    case TimeoutNs => if r.outcome == TimedOut then AtLeastZero(r.wallClock) else 0
    case Errors(code) => One((r.outcome == Failed || r.outcome == TimedOut) && r.errorCode == Some(code))
    case ClientCostNs => if Sampled(r) then AtLeastZero(r.wallClock - WireRtt(r.requests)) else 0
    case ClientCosts => One(Sampled(r))
    case Durations => One(Sampled(r) && r.wallClock >= 0)
    case StageNs(i) => if Sampled(r) && i < |r.stages| then AtLeastZero(r.stages[i].cost) else 0
    case StageCount(i) => One(Sampled(r) && i < |r.stages| && Accepted(r.stages[i]))
    case RttFailed => AtLeastZero(r.failedRequests)
    case ListenWaits => PositiveCount(r.listenWaits)
    case ListenReady => AtLeastZero(r.listenReady)
    case ListenTimeouts => AtLeastZero(r.listenTimeouts)
    case SendBytes => AtLeastZero(r.sendBytes)
    case ReceivedBytes => AtLeastZero(r.receivedBytes)
    case ByteSamples => 1
    case _ => 0
  }

  // ---- part by part ----

  function HeadWorth(r: ActionRecord, trackExecuting: bool, k: Key): int {
    if k == Whole(TotalActions) then One(r.outcome != WasCanceled)
    else if k == Of(r.name, Executing) && trackExecuting then -1
    else 0
  }

  function StageWorth(name: string, stages: seq<Sample>, k: Key): nat {
    if k == Whole(InvalidSamples) then RefusedCount(stages)
    else if k.action != Some(name) then 0
    else
      match k.field
      case StageNs(i) => if i < |stages| then AtLeastZero(stages[i].cost) else 0
      case StageCount(i) => One(i < |stages| && Accepted(stages[i]))
      case _ => 0
  }

  function ClientWorth(r: ActionRecord, k: Key): nat {
    if !Sampled(r) then 0
    else
      StageWorth(r.name, r.stages, k)
      + if k == Whole(InvalidSamples) then One(r.wallClock < 0)
        else if k == Of(r.name, ClientCostNs) then AtLeastZero(r.wallClock - WireRtt(r.requests))
        else if k == Of(r.name, ClientCosts) then 1
        else if k == Of(r.name, Durations) then One(r.wallClock >= 0)
        else 0
  }

  function RequestWorth(name: string, requests: seq<Sample>, thresholds: seq<int>, k: Key): nat
    requires |requests| == |thresholds|
  {
    if k == Whole(InvalidSamples) then RefusedCount(requests)
    else if k == Of(name, RttSamples) then AcceptedCount(requests)
    else if k == Of(name, Satisfied) then RatedCount(requests, thresholds, Content)
    else if k == Of(name, Tolerating) then RatedCount(requests, thresholds, Patient)
    else 0
  }

  function WaitWorth(name: string, waits: seq<int>, k: Key): nat {
    if k == Of(name, ListenWaits) then PositiveCount(waits) else 0
  }

  function ListenWorth(r: ActionRecord, k: Key): nat {
    if k.action != Some(r.name) then 0
    else
      match k.field
      case RttFailed => AtLeastZero(r.failedRequests)
      case ListenWaits => PositiveCount(r.listenWaits)
      case ListenReady => AtLeastZero(r.listenReady)
      case ListenTimeouts => AtLeastZero(r.listenTimeouts)
      case _ => 0
  }

  function ByteWorth(r: ActionRecord, k: Key): nat {
    if k.action != Some(r.name) then 0
    else
      match k.field
      case SendBytes => AtLeastZero(r.sendBytes)
      case ReceivedBytes => AtLeastZero(r.receivedBytes)
      case ByteSamples => 1
      case _ => 0
  }

  function OutcomeWorth(r: ActionRecord, k: Key): nat {
    if k.action != Some(r.name) then 0
    else
      match k.field
      case Success => One(r.outcome == Succeeded)
      case Failure => One(r.outcome == Failed)
      case Timeout => One(r.outcome == TimedOut)
      case Canceled => One(r.outcome == WasCanceled)
      case TimeoutNs => if r.outcome == TimedOut then AtLeastZero(r.wallClock) else 0
      case Errors(code) => One((r.outcome == Failed || r.outcome == TimedOut) && r.errorCode == Some(code))
      case _ => 0
  }

  lemma PartsAddUp(r: ActionRecord, t: seq<int>, track: bool, k: Key)
    requires |r.requests| == |t|
    ensures ActionWorth(r, t, track, k)
         == HeadWorth(r, track, k) + ClientWorth(r, k) + RequestWorth(r.name, r.requests, t, k)
            + ListenWorth(r, k) + ByteWorth(r, k) + OutcomeWorth(r, k)
  {
  }

  // ---- what every record balances ----

  /** Every record counts its action under exactly one verdict, finished ones in the total as well. */
  lemma OneVerdict(r: ActionRecord, t: seq<int>, track: bool)
    requires |r.requests| == |t|
    ensures ActionWorth(r, t, track, Of(r.name, Success)) + ActionWorth(r, t, track, Of(r.name, Failure))
            + ActionWorth(r, t, track, Of(r.name, Timeout)) == ActionWorth(r, t, track, Whole(TotalActions))
    ensures ActionWorth(r, t, track, Whole(TotalActions)) + ActionWorth(r, t, track, Of(r.name, Canceled)) == 1
    ensures ActionWorth(r, t, track, Of(r.name, ClientCosts)) == ActionWorth(r, t, track, Of(r.name, Durations)) + One(Sampled(r) && r.wallClock < 0)
  {
  }

  /** The three classes share out the accepted requests. */
  lemma {:induction false} RatedShares(requests: seq<Sample>, t: seq<int>)
    requires |requests| == |t|
    ensures RatedCount(requests, t, Content) + RatedCount(requests, t, Patient) + RatedCount(requests, t, Frustrated) == AcceptedCount(requests)
    decreases |requests|
  {
    if requests != [] {
      RatedShares(requests[..|requests| - 1], t[..|t| - 1]);
    }
  }

  lemma CountedOne(s: Sample)
    ensures AcceptedCount([s]) == One(Accepted(s)) && RefusedCount([s]) == One(s.cost < 0)
  {
    assert [s][..0] == [];
  }

  lemma RatedOne(s: Sample, t: int, c: Class)
    ensures RatedCount([s], [t], c) == One(Accepted(s) && Rate(s.cost, t) == c)
  {
    assert [s][..0] == [] && [t][..0] == [];
  }

  /** Two thresholds add the same to both Apdex counts exactly when the request is not counted or they rate it alike. */
  lemma SameClassExactly(s: Sample, t: int, u: int)
    ensures RatedCount([s], [t], Content) == RatedCount([s], [u], Content) && RatedCount([s], [t], Patient) == RatedCount([s], [u], Patient)
       <==> !Accepted(s) || Rate(s.cost, t) == Rate(s.cost, u)
  {
    RatedOne(s, t, Content);
    RatedOne(s, u, Content);
    RatedOne(s, t, Patient);
    RatedOne(s, u, Patient);
  }

  predicate RatedAlike(requests: seq<Sample>, t: seq<int>, u: seq<int>)
    requires |requests| == |t| == |u|
  {
    forall i :: 0 <= i < |requests| ==> !Accepted(requests[i]) || Rate(requests[i].cost, t[i]) == Rate(requests[i].cost, u[i])
  }

  lemma {:induction false} AlikeCounts(requests: seq<Sample>, t: seq<int>, u: seq<int>, c: Class)
    requires |requests| == |t| == |u| && RatedAlike(requests, t, u)
    ensures RatedCount(requests, t, c) == RatedCount(requests, u, c)
    decreases |requests|
  {
    if requests != [] {
      var i := |requests| - 1;
      AlikeCounts(requests[..i], t[..i], u[..i], c);
    }
  }

  // ---- the collector ----

  class Collector {
    var counters: Counters

    /** The atomic additions made so far. */
    ghost var trace: seq<Add>

    ghost predicate Valid()
      reads this
    {
      forall k :: At(counters, k) == Total(trace, k)
    }

    constructor ()
      ensures Valid() && counters == map[] && trace == []
    {
      counters, trace := map[], [];
      new;
      assert forall k :: Total(trace, k) == 0;
    }

    method Increase(k: Key, amount: int)
      requires Valid()
      modifies this
      ensures Valid() && trace == old(trace) + [Add(k, amount)] && counters == Bump(old(counters), Add(k, amount))
    {
      forall x ensures Total(trace + [Add(k, amount)], x) == Total(trace, x) + if x == k then amount else 0 {
        TotalAppend(trace, [Add(k, amount)], x);
        assert [Add(k, amount)][1..] == [];
      }
      counters := Bump(counters, Add(k, amount));
      trace := trace + [Add(k, amount)];
    }

    method IncreaseIfPositive(k: Key, amount: int)
      requires Valid()
      modifies this
      ensures Valid() && old(trace) <= trace
      ensures forall x :: At(counters, x) == At(old(counters), x) + if x == k then AtLeastZero(amount) else 0
    {
      if amount > 0 {
        Increase(k, amount);
      }
    }

    method RecordStage(name: string, stage: nat, s: Sample)
      requires Valid()
      modifies this
      ensures Valid() && old(trace) <= trace
      ensures forall k :: At(counters, k) == At(old(counters), k)
                          + if k == Whole(InvalidSamples) then One(s.cost < 0)
                            else if k == Of(name, StageNs(stage)) then AtLeastZero(s.cost)
                            else if k == Of(name, StageCount(stage)) then One(Accepted(s)) else 0
    {
      if !s.observed && s.cost == 0 {
        return;
      }
      if s.cost < 0 {
        Increase(Whole(InvalidSamples), 1);
        return;
      }
      IncreaseIfPositive(Of(name, StageNs(stage)), s.cost);
      Increase(Of(name, StageCount(stage)), 1);
    }

    method RecordStages(name: string, stages: seq<Sample>)
      requires Valid()
      modifies this
      ensures Valid() && old(trace) <= trace
      ensures forall k :: At(counters, k) == At(old(counters), k) + StageWorth(name, stages, k)
    {
      for i := 0 to |stages|
        invariant Valid() && old(trace) <= trace
        invariant forall k :: At(counters, k) == At(old(counters), k) + StageWorth(name, stages[..i], k)
      {
        assert stages[..i + 1][..i] == stages[..i];
        RecordStage(name, i, stages[i]);
      }
      assert stages[..|stages|] == stages;
    }

    method RecordRequest(name: string, s: Sample, threshold: int)
      requires Valid()
      modifies this
      ensures Valid() && old(trace) <= trace
      ensures forall k :: At(counters, k) == At(old(counters), k)
                          + if k == Whole(InvalidSamples) then One(s.cost < 0)
                            else if k == Of(name, RttSamples) then One(Accepted(s))
                            else if k == Of(name, Satisfied) then One(Accepted(s) && Rate(s.cost, threshold) == Content)
                            else if k == Of(name, Tolerating) then One(Accepted(s) && Rate(s.cost, threshold) == Patient) else 0
    {
      if !s.observed && s.cost == 0 {
        return;
      }
      if s.cost < 0 {
        Increase(Whole(InvalidSamples), 1);
        return;
      }
      Increase(Of(name, RttSamples), 1);
      if s.cost < threshold {
        Increase(Of(name, Satisfied), 1);
      } else if s.cost < 4 * threshold {
        Increase(Of(name, Tolerating), 1);
      }
    }

    /** thresholds[i] is the Apdex threshold read while request i is recorded. */
    method RecordRequests(name: string, requests: seq<Sample>, thresholds: seq<int>)
      requires Valid() && |requests| == |thresholds|
      modifies this
      ensures Valid() && old(trace) <= trace
      ensures forall k :: At(counters, k) == At(old(counters), k) + RequestWorth(name, requests, thresholds, k)
    {
      for i := 0 to |requests|
        invariant Valid() && old(trace) <= trace
        invariant forall k :: At(counters, k) == At(old(counters), k) + RequestWorth(name, requests[..i], thresholds[..i], k)
      {
        assert requests[..i + 1][..i] == requests[..i] && thresholds[..i + 1][..i] == thresholds[..i];
        RecordRequest(name, requests[i], thresholds[i]);
      }
      assert requests[..|requests|] == requests && thresholds[..|requests|] == thresholds;
    }

    method RecordWaits(name: string, waits: seq<int>)
      requires Valid()
      modifies this
      ensures Valid() && old(trace) <= trace
      ensures forall k :: At(counters, k) == At(old(counters), k) + WaitWorth(name, waits, k)
    {
      for i := 0 to |waits|
        invariant Valid() && old(trace) <= trace
        invariant forall k :: At(counters, k) == At(old(counters), k) + WaitWorth(name, waits[..i], k)
      {
        assert waits[..i + 1][..i] == waits[..i];
        if waits[i] > 0 {
          Increase(Of(name, ListenWaits), 1);
        }
      }
      assert waits[..|waits|] == waits;
    }

    method RecordClient(r: ActionRecord)
      requires Valid()
      modifies this
      ensures Valid() && old(trace) <= trace
      ensures forall k :: At(counters, k) == At(old(counters), k) + ClientWorth(r, k)
    {
      if r.outcome == WasCanceled && r.wallClock <= 0 {
        return;
      }
      var rtt := SumRtt(r.requests);
      IncreaseIfPositive(Of(r.name, ClientCostNs), r.wallClock - rtt);
      Increase(Of(r.name, ClientCosts), 1);
      if r.wallClock < 0 {
        Increase(Whole(InvalidSamples), 1);
      } else {
        Increase(Of(r.name, Durations), 1);
      }
      RecordStages(r.name, r.stages);
    }

    method RecordListens(r: ActionRecord)
      requires Valid()
      modifies this
      ensures Valid() && old(trace) <= trace
      ensures forall k :: At(counters, k) == At(old(counters), k) + ListenWorth(r, k)
    {
      IncreaseIfPositive(Of(r.name, RttFailed), r.failedRequests);
      RecordWaits(r.name, r.listenWaits);
      IncreaseIfPositive(Of(r.name, ListenReady), r.listenReady);
      IncreaseIfPositive(Of(r.name, ListenTimeouts), r.listenTimeouts);
    }

    method RecordBytes(r: ActionRecord)
      requires Valid()
      modifies this
      ensures Valid() && old(trace) <= trace
      ensures forall k :: At(counters, k) == At(old(counters), k) + ByteWorth(r, k)
    {
      IncreaseIfPositive(Of(r.name, SendBytes), r.sendBytes);
      IncreaseIfPositive(Of(r.name, ReceivedBytes), r.receivedBytes);
      Increase(Of(r.name, ByteSamples), 1);
    }

    method RecordError(name: string, code: Option<nat>)
      requires Valid()
      modifies this
      ensures Valid() && old(trace) <= trace
      ensures forall k :: At(counters, k) == At(old(counters), k) + One(code.Some? && k == Of(name, Errors(code.value)))
    {
      if code.Some? {
        Increase(Of(name, Errors(code.value)), 1);
      }
    }

    method RecordOutcome(r: ActionRecord)
      requires Valid()
      modifies this
      ensures Valid() && old(trace) <= trace
      ensures forall k :: At(counters, k) == At(old(counters), k) + OutcomeWorth(r, k)
    {
      match r.outcome
      case Succeeded =>
        Increase(Of(r.name, Success), 1);
      case Failed =>
        Increase(Of(r.name, Failure), 1);
        RecordError(r.name, r.errorCode);
      case TimedOut =>
        Increase(Of(r.name, Timeout), 1);
        IncreaseIfPositive(Of(r.name, TimeoutNs), r.wallClock);
        RecordError(r.name, r.errorCode);
      case WasCanceled =>
        Increase(Of(r.name, Canceled), 1);
    }

    method RecordHead(r: ActionRecord, trackExecuting: bool)
      requires Valid()
      modifies this
      ensures Valid() && old(trace) <= trace
      ensures forall k :: At(counters, k) == At(old(counters), k) + HeadWorth(r, trackExecuting, k)
    {
      if r.outcome != WasCanceled {
        Increase(Whole(TotalActions), 1);
      }
      if trackExecuting {
        Increase(Of(r.name, Executing), -1);
      }
    }

    /** Adds to every counter exactly what the record is worth, by single additions. */
    method RecordAction(r: ActionRecord, thresholds: seq<int>, trackExecuting: bool)
      requires Valid() && |r.requests| == |thresholds|
      modifies this
      ensures Valid() && old(trace) <= trace
      ensures forall k :: At(counters, k) == At(old(counters), k) + ActionWorth(r, thresholds, trackExecuting, k)
      ensures AmountsTo(trace[|old(trace)|..], r, thresholds, trackExecuting)
    {
      RecordHead(r, trackExecuting);
      RecordClient(r);
      RecordRequests(r.name, r.requests, thresholds);
      RecordListens(r);
      RecordBytes(r);
      RecordOutcome(r);
      forall k
        ensures At(counters, k) == At(old(counters), k) + ActionWorth(r, thresholds, trackExecuting, k)
        ensures Total(trace[|old(trace)|..], k) == ActionWorth(r, thresholds, trackExecuting, k)
      {
        PartsAddUp(r, thresholds, trackExecuting, k);
        assert trace == old(trace) + trace[|old(trace)|..];
        TotalAppend(old(trace), trace[|old(trace)|..], k);
      }
    }
  }

  /** A list of additions that comes to what a record is worth. */
  ghost predicate AmountsTo(adds: seq<Add>, r: ActionRecord, thresholds: seq<int>, trackExecuting: bool)
    requires |r.requests| == |thresholds|
  {
    forall k :: Total(adds, k) == ActionWorth(r, thresholds, trackExecuting, k)
  }

  method SumRtt(requests: seq<Sample>) returns (total: nat)
    ensures total == WireRtt(requests)
  {
    total := 0;
    for i := 0 to |requests|
      invariant total == WireRtt(requests[..i])
    {
      assert requests[..i + 1][..i] == requests[..i];
      if requests[i].cost > 0 {
        total := total + requests[i].cost;
      }
    }
    assert requests[..|requests|] == requests;
  }
}

/**
 * One-shot response channels of a connection: requests register a channel under their route, the
 * inbound pump sends to it under the connection's lock, and closing a request first unregisters it
 * under the lock and then closes the channel. Senders, closers and the pump interleave freely.
 */
module ResponseChannels {
  import opened Values

  datatype Message = Message(number: nat, route: string)

  /** Where Close of a request stands; sync.Once lets it run once. */
  datatype Phase = Open | Unregistered | Closed

  datatype Request = Request(route: string, slot: Option<Message>, phase: Phase, closes: nat)

  datatype Consumer = Waiter(request: nat) | Listener

  datatype Delivery = Delivery(message: nat, consumer: Consumer)

  /** `fault` is the panic of a send on a closed channel; `arrived` counts inbound messages. */
  datatype Connection = Connection(
    isClosed: bool,
    routes: map<string, nat>,
    listens: set<string>,
    requests: seq<Request>,
    pump: Option<Message>,
    arrived: nat,
    delivered: seq<Delivery>,
    fault: bool)

  /** A sender checks the closed flag before it registers, so a close may fall in between; one that sees the flag does nothing. */
  datatype Event =
    | Send(route: string)
    | Listen(route: string)
    | Arrive(route: string)
    | Dispatch
    | Receive(request: nat)
    | Unregister(request: nat)
    | CloseChannel(request: nat)
    | CloseAgain(request: nat)
    | CloseConnection

  function Start(): Connection {
    Connection(false, map[], {}, [], None, 0, [], false)
  }

  predicate Enabled(s: Connection, e: Event) {
    match e
    case Arrive(_) => s.pump.None?
    case Dispatch => s.pump.Some?
    case Receive(i) => i < |s.requests| && s.requests[i].slot.Some?
    case Unregister(i) => i < |s.requests| && s.requests[i].phase == Open
    case CloseChannel(i) => i < |s.requests| && s.requests[i].phase == Unregistered
    case CloseAgain(i) => i < |s.requests| && s.requests[i].phase != Open
    case _ => true
  }

  /** The pump's locked section: a waiting request, else a listener, else nobody. */
  function Deliver(s: Connection, m: Message): Connection {
    var t := s.(pump := None);
    if m.route in s.routes && s.routes[m.route] < |s.requests| then
      var i := s.routes[m.route];
      var r := s.requests[i];
      if r.phase == Closed then t.(fault := true)
      else if r.slot.Some? then t
      else t.(requests := s.requests[i := r.(slot := Some(m))], delivered := s.delivered + [Delivery(m.number, Waiter(i))])
    else if m.route in s.listens then t.(delivered := s.delivered + [Delivery(m.number, Listener)])
    else t
  }

  function Next(s: Connection, e: Event): Connection
    requires Enabled(s, e)
  {
    match e
    case Send(route) =>
      s.(routes := s.routes[route := |s.requests|], requests := s.requests + [Request(route, None, Open, 0)])
    case Listen(route) => s.(listens := s.listens + {route})
    case Arrive(route) =>
      s.(arrived := s.arrived + 1, pump := if s.isClosed then None else Some(Message(s.arrived, route)))
    case Dispatch => Deliver(s, s.pump.value)
    case Receive(i) => s.(requests := s.requests[i := s.requests[i].(slot := None)])
    case Unregister(i) =>
      var r := s.requests[i];
      s.(requests := s.requests[i := r.(phase := Unregistered)],
         routes := if r.route in s.routes && s.routes[r.route] == i then s.routes - {r.route} else s.routes)
    case CloseChannel(i) =>
      var r := s.requests[i];
      s.(requests := s.requests[i := r.(phase := Closed, closes := r.closes + 1)])
    case CloseAgain(_) => s
    case CloseConnection => s.(isClosed := true)
  }

  // ---- what every run keeps ----

  predicate Registered(s: Connection, route: string, i: nat) {
    route in s.routes && s.routes[route] == i
  }

  ghost predicate Invariant(s: Connection) {
    && !s.fault
    && (forall route :: route in s.routes ==>
          s.routes[route] < |s.requests| && s.requests[s.routes[route]].phase == Open && s.requests[s.routes[route]].route == route)
    && (forall i :: 0 <= i < |s.requests| ==> s.requests[i].closes == if s.requests[i].phase == Closed then 1 else 0)
    && (s.pump.Some? ==> s.pump.value.number < s.arrived)
  }

  /** Messages are consumed at most once, and the one at the pump not yet. */
  ghost predicate ConsumedOnce(s: Connection) {
    && (forall i, j :: 0 <= i < j < |s.delivered| ==> s.delivered[i].message != s.delivered[j].message)
    && (forall i :: 0 <= i < |s.delivered| ==> s.delivered[i].message < s.arrived)
    && (s.pump.Some? ==> s.pump.value.number < s.arrived && forall i :: 0 <= i < |s.delivered| ==> s.delivered[i].message != s.pump.value.number)
  }

  lemma DispatchKeepsChannels(s: Connection)
    requires Invariant(s) && s.pump.Some?
    ensures Invariant(Deliver(s, s.pump.value))
  {
  }

  lemma StepKeepsChannels(s: Connection, e: Event)
    requires Invariant(s) && Enabled(s, e)
    ensures Invariant(Next(s, e))
  {
    if e == Dispatch {
      DispatchKeepsChannels(s);
    }
  }

  lemma StepKeepsInvariant(s: Connection, e: Event)
    requires Invariant(s) && ConsumedOnce(s) && Enabled(s, e)
    ensures Invariant(Next(s, e)) && ConsumedOnce(Next(s, e))
  {
    StepKeepsChannels(s, e);
  }

  ghost predicate Steps(s: Connection, e: Event, t: Connection) {
    Enabled(s, e) && t == Next(s, e)
  }

  ghost predicate Behaviour(states: seq<Connection>, events: seq<Event>) {
    && |states| == |events| + 1
    && states[0] == Start()
    && forall i :: 0 <= i < |events| ==> Steps(states[i], events[i], states[i + 1])
  }

  lemma {:induction false} RunsKeepInvariant(states: seq<Connection>, events: seq<Event>, i: nat)
    requires Behaviour(states, events) && i < |states|
    ensures Invariant(states[i]) && ConsumedOnce(states[i])
  {
    if i > 0 {
      RunsKeepInvariant(states, events, i - 1);
      assert Steps(states[i - 1], events[i - 1], states[i]);
      StepKeepsInvariant(states[i - 1], events[i - 1]);
    }
  }

  // ---- the promises ----

  /** In every interleaving: no send on a closed channel, no channel closed twice, no message with two consumers. */
  lemma ChannelsAreSafe(states: seq<Connection>, events: seq<Event>, i: nat)
    requires Behaviour(states, events) && i < |states|
    ensures !states[i].fault
    ensures forall r :: 0 <= r < |states[i].requests| ==> states[i].requests[r].closes <= 1
    ensures forall a, b :: 0 <= a < b < |states[i].delivered| ==> states[i].delivered[a].message != states[i].delivered[b].message
  {
    RunsKeepInvariant(states, events, i);
  }

  /** A registration lasts until its own request is closed or the route is registered anew, whatever other requests do. */
  lemma {:induction false} RegistrationLasts(states: seq<Connection>, events: seq<Event>, i: nat, j: nat, route: string, request: nat)
    requires Behaviour(states, events) && i <= j < |states| && Registered(states[i], route, request)
    requires forall k :: i <= k < j ==> events[k] != Unregister(request) && events[k] != Send(route)
    ensures Registered(states[j], route, request)
    decreases j
  {
    if i < j {
      RegistrationLasts(states, events, i, j - 1, route, request);
      RunsKeepInvariant(states, events, j - 1);
      assert Steps(states[j - 1], events[j - 1], states[j]);
      assert events[j - 1] != Unregister(request) && events[j - 1] != Send(route);
    }
  }

  /** While it lasts, a message on the route that reaches the pump goes to that request and to no other consumer. */
  lemma ResponseReachesTheLatest(states: seq<Connection>, events: seq<Event>, i: nat, j: nat, route: string, request: nat)
    requires Behaviour(states, events) && i <= j < |events| && Registered(states[i], route, request)
    requires forall k :: i <= k < j ==> events[k] != Unregister(request) && events[k] != Send(route)
    requires events[j] == Dispatch && states[j].pump.Some? && states[j].pump.value.route == route
    requires request < |states[j].requests| && states[j].requests[request].slot.None?
    ensures states[j + 1].delivered == states[j].delivered + [Delivery(states[j].pump.value.number, Waiter(request))]
    ensures request < |states[j + 1].requests| && states[j + 1].requests[request].slot == states[j].pump
  {
    RegistrationLasts(states, events, i, j, route, request);
    RunsKeepInvariant(states, events, j);
    assert Steps(states[j], events[j], states[j + 1]);
  }

  // ---- what each step does ----

  /** A request takes over its route, whoever held it; nothing else changes. */
  lemma SendMeans(s: Connection, route: string)
    requires Invariant(s)
    ensures var n, t := |s.requests|, Next(s, Send(route));
            && Registered(t, route, n)
            && t.requests == s.requests + [Request(route, None, Open, 0)]
            && (forall other :: other != route ==> (other in t.routes <==> other in s.routes))
            && (forall other :: other != route && other in s.routes ==> t.routes[other] == s.routes[other])
            && t.pump == s.pump && t.arrived == s.arrived && t.delivered == s.delivered && t.listens == s.listens && t.isClosed == s.isClosed
  {
  }

  /** Only the slot of request i may differ. */
  predicate OnlySlot(s: Connection, t: Connection, i: nat) {
    && |t.requests| == |s.requests|
    && (forall k :: 0 <= k < |s.requests| && k != i ==> t.requests[k] == s.requests[k])
    && (i < |s.requests| ==> t.requests[i].phase == s.requests[i].phase && t.requests[i].route == s.requests[i].route)
    && t.routes == s.routes && t.listens == s.listens && t.isClosed == s.isClosed && t.arrived == s.arrived
  }

  /** A message at the pump: to the waiting request if its slot is free, lost if it is not; without one to the listener, or to nobody. */
  lemma DispatchMeans(s: Connection)
    requires Invariant(s) && s.pump.Some?
    ensures var m, t := s.pump.value, Next(s, Dispatch);
            && t.pump.None?
            && (m.route in s.routes ==>
                  var i := s.routes[m.route];
                  && i < |s.requests| && OnlySlot(s, t, i)
                  && (s.requests[i].slot.None? ==>
                        t.requests[i].slot == Some(m) && t.delivered == s.delivered + [Delivery(m.number, Waiter(i))])
                  && (s.requests[i].slot.Some? ==> t.requests == s.requests && t.delivered == s.delivered))
            && (m.route !in s.routes ==>
                  && t.requests == s.requests && t.routes == s.routes
                  && t.delivered == s.delivered + if m.route in s.listens then [Delivery(m.number, Listener)] else [])
  {
  }

  /** Receiving empties the slot; what came in before a close can still be received after it. */
  lemma ReceiveMeans(s: Connection, i: nat)
    requires i < |s.requests|
    ensures Enabled(s, Receive(i)) <==> s.requests[i].slot.Some?
    ensures s.requests[i].slot.Some? ==>
              var t := Next(s, Receive(i));
              OnlySlot(s, t, i) && t.requests[i].slot.None? && t.pump == s.pump && t.delivered == s.delivered
  {
  }

  /** Closing a request frees its route if it still holds it, leaves every other route, and closes its channel. */
  lemma CloseMeans(s: Connection, i: nat)
    requires Invariant(s) && i < |s.requests| && s.requests[i].phase == Open
    ensures Enabled(s, Unregister(i)) && Enabled(Next(s, Unregister(i)), CloseChannel(i))
    ensures var t := Next(Next(s, Unregister(i)), CloseChannel(i));
            && t.routes.Keys == s.routes.Keys - (if Registered(s, s.requests[i].route, i) then {s.requests[i].route} else {})
            && (forall route :: route in t.routes ==> t.routes[route] == s.routes[route])
            && |t.requests| == |s.requests| && t.requests[i].phase == Closed && t.requests[i].closes == 1
            && t.requests[i].slot == s.requests[i].slot
            && (forall k :: 0 <= k < |s.requests| && k != i ==> t.requests[k] == s.requests[k])
            && t.pump == s.pump && t.delivered == s.delivered
  {
  }

  /** Whatever waits in a slot came by the route of its request and is recorded as delivered to it. */
  ghost predicate SlotsAnswer(s: Connection) {
    forall i :: 0 <= i < |s.requests| && s.requests[i].slot.Some? ==> Answers(s, i, s.requests[i].slot.value)
  }

  ghost predicate Answers(s: Connection, i: nat, m: Message)
    requires i < |s.requests|
  {
    m.route == s.requests[i].route && Delivery(m.number, Waiter(i)) in s.delivered
  }

  lemma SlotsKeepAnswering(s: Connection, e: Event)
    requires Invariant(s) && SlotsAnswer(s) && Enabled(s, e)
    ensures SlotsAnswer(Next(s, e))
  {
    var t := Next(s, e);
    if e == Dispatch {
      DispatchMeans(s);
    }
    assert |t.requests| >= |s.requests| && forall d :: d in s.delivered ==> d in t.delivered;
    forall i | 0 <= i < |t.requests| && t.requests[i].slot.Some? ensures Answers(t, i, t.requests[i].slot.value) {
      if i < |s.requests| && s.requests[i].slot.Some? {
        assert Answers(s, i, s.requests[i].slot.value);
      }
    }
  }

  /** In every interleaving: what a request receives was dispatched to it alone, on its own route. */
  lemma {:induction false} ReceivedWasAnswered(states: seq<Connection>, events: seq<Event>, i: nat)
    requires Behaviour(states, events) && i < |states|
    ensures SlotsAnswer(states[i])
  {
    if i > 0 {
      ReceivedWasAnswered(states, events, i - 1);
      RunsKeepInvariant(states, events, i - 1);
      assert Steps(states[i - 1], events[i - 1], states[i]);
      SlotsKeepAnswering(states[i - 1], events[i - 1]);
    }
  }

  /** Once closed, a connection takes in no more messages. */
  lemma {:induction false} ClosedTakesNothing(states: seq<Connection>, events: seq<Event>, i: nat, j: nat)
    requires Behaviour(states, events) && i <= j < |states| && states[i].isClosed
    ensures states[j].isClosed
    ensures states[i].pump.None? ==> states[j].pump.None? && states[j].delivered == states[i].delivered
    decreases j
  {
    if i < j {
      ClosedTakesNothing(states, events, i, j - 1);
      assert Steps(states[j - 1], events[j - 1], states[j]);
    }
  }
}

/**
 * The bounded listen queue, its one-slot wake token, and the owner that parks on it.
 *
 * `Queue` is the queue as a value: a drop-oldest FIFO with a token and with its history counted.
 * `ListenQueue` is the ring buffer that refines it. `System` interleaves the network side with the
 * owner's wait loop, one atomic step at a time.
 */
module ListenQueue {
  import opened Values

  // ---- the queue as a value ----

  // `log` is every message ever pushed; the three counters say where the missing ones went.
  datatype Queue<M> = Queue(
    capacity: nat,
    contents: seq<M>,
    token: bool,
    log: seq<M>,
    popped: nat,
    dropped: nat,
    cleared: nat)
  {
    /** Nothing is lost unaccounted for, the newest messages are kept, and the token never lies. */
    ghost predicate Valid() {
      && capacity >= 1
      && |contents| <= capacity
      && |log| == popped + dropped + cleared + |contents|
      && contents == log[|log| - |contents|..]
      && (token ==> contents != [])
    }

    function Push(m: M): Queue<M>
      requires capacity >= 1
    {
      if |contents| < capacity then
        this.(contents := contents + [m], token := true, log := log + [m])
      else
        this.(contents := contents[1..] + [m], token := true, log := log + [m], dropped := dropped + 1)
    }

    function Pop(): Queue<M>
      requires contents != []
    {
      this.(contents := contents[1..], token := token && |contents| > 1, popped := popped + 1)
    }

    function Clear(): Queue<M> {
      this.(contents := [], token := false, cleared := cleared + |contents|)
    }

    function TakeToken(): Queue<M>
      requires token
    {
      this.(token := false)
    }
  }

  function Empty<M>(capacity: nat): Queue<M> {
    Queue(capacity, [], false, [], 0, 0, 0)
  }

  lemma PushKeepsValid<M>(q: Queue<M>, m: M)
    requires q.Valid()
    ensures q.Push(m).Valid() && q.Push(m).token
    ensures q.Push(m).contents[|q.Push(m).contents| - 1] == m
  {
    var r := q.Push(m);
    assert r.contents == r.log[|r.log| - |r.contents|..];
  }

  /** What a push does to the log, the messages and the counters: only a full queue loses one, and then its oldest. */
  lemma PushMeans<M>(q: Queue<M>, m: M)
    requires q.Valid()
    ensures var r := q.Push(m);
            && r.log == q.log + [m] && r.token
            && r.capacity == q.capacity && r.popped == q.popped && r.cleared == q.cleared
            && r.dropped == q.dropped + (if |q.contents| == q.capacity then 1 else 0)
            && r.contents == (if |q.contents| == q.capacity then q.contents[1..] else q.contents) + [m]
  {
  }

  /** Taking a message or clearing loses nothing to fullness: each has its own counter. */
  lemma TakingMeans<M>(q: Queue<M>)
    requires q.Valid()
    ensures q.contents != [] ==>
              var r := q.Pop();
              && [q.contents[0]] + r.contents == q.contents && r.popped == q.popped + 1
              && (r.token <==> q.token && r.contents != [])
              && r.log == q.log && r.capacity == q.capacity && r.dropped == q.dropped && r.cleared == q.cleared
    ensures var r := q.Clear();
            && r.contents == [] && r.cleared == q.cleared + |q.contents| && !r.token
            && r.log == q.log && r.capacity == q.capacity && r.dropped == q.dropped && r.popped == q.popped
    ensures q.token ==>
              var r := q.TakeToken();
              && !r.token && r.contents == q.contents && r.log == q.log && r.capacity == q.capacity
              && r.dropped == q.dropped && r.popped == q.popped && r.cleared == q.cleared
  {
  }

  lemma PopKeepsValid<M>(q: Queue<M>)
    requires q.Valid() && q.contents != []
    ensures q.Pop().Valid()
  {
  }

  /** A message leaves the queue in the order it came: what is popped is the oldest one not yet gone. */
  lemma PopIsFifo<M>(q: Queue<M>)
    requires q.Valid() && q.contents != []
    ensures q.contents[0] == q.log[q.popped + q.dropped + q.cleared]
  {
  }

  // ---- the ring buffer ----

  /** The slot of the k-th oldest message in a ring of n slots. */
  function Slot(head: nat, k: nat, n: nat): nat {
    if head + k < n then head + k else head + k - n
  }

  ghost predicate Holds<M>(b: seq<M>, head: nat, contents: seq<M>) {
    && head < |b| && |contents| <= |b|
    && forall k :: 0 <= k < |contents| ==> contents[k] == b[Slot(head, k, |b|)]
  }

  lemma SlotIsMod(head: nat, k: nat, n: nat)
    requires head < n && k <= n
    ensures (head + k) % n == Slot(head, k, n) < n
  {
    ModSmall(head + k, n);
  }

  lemma ModSmall(a: nat, n: nat)
    requires 0 < n && a < 2 * n
    ensures a % n == if a < n then a else a - n
  {
    if a >= n {
      assert a == n + (a - n);
    }
  }

  method Wrapped(head: nat, k: nat, n: nat) returns (slot: nat)
    requires head < n && k <= n
    ensures slot == Slot(head, k, n) < n
  {
    SlotIsMod(head, k, n);
    slot := (head + k) % n;
  }

  lemma HoldsPush<M>(b: seq<M>, head: nat, contents: seq<M>, m: M)
    requires Holds(b, head, contents) && |contents| < |b|
    ensures Slot(head, |contents|, |b|) < |b|
    ensures Holds(b[Slot(head, |contents|, |b|) := m], head, contents + [m])
  {
  }

  lemma HoldsOverwrite<M>(b: seq<M>, head: nat, contents: seq<M>, m: M)
    requires Holds(b, head, contents) && |contents| == |b|
    ensures Holds(b[head := m], Slot(head, 1, |b|), contents[1..] + [m])
  {
  }

  lemma OverwriteStep<M>(b: seq<M>, head: nat, q: Queue<M>, m: M)
    requires q.Valid() && Holds(b, head, q.contents) && |q.contents| == q.capacity == |b|
    ensures var p := q.Push(m);
            && p.Valid() && p.capacity == q.capacity && p.token && p.dropped == q.dropped + 1 && |p.contents| == q.capacity
            && Holds(b[head := m], Slot(head, 1, |b|), p.contents)
  {
    HoldsOverwrite(b, head, q.contents, m);
    PushKeepsValid(q, m);
  }

  lemma HoldsPop<M>(b: seq<M>, head: nat, contents: seq<M>)
    requires Holds(b, head, contents) && contents != []
    ensures contents[0] == b[head] && Holds(b, Slot(head, 1, |b|), contents[1..])
  {
  }

  class RingQueue<M(0)> {
    const capacity: nat
    const buf: array<M>
    var head: nat
    var size: nat
    var dropped: nat
    var notify: bool
    ghost var model: Queue<M>

    ghost predicate Valid()
      reads this, buf
    {
      && capacity >= 1 && buf.Length == capacity
      && head < capacity && size <= capacity
      && model.Valid()
      && model.capacity == capacity && model.token == notify && model.dropped == dropped
      && |model.contents| == size
      && Holds(buf[..], head, model.contents)
    }

    /** The messages in the ring, the oldest first. */
    ghost function Contents(): (s: seq<M>)
      requires Valid()
      reads this, buf
      ensures s == model.contents
    {
      var b, h, n := buf[..], head, size;
      seq(n, k requires 0 <= k < n => b[Slot(h, k, |b|)])
    }

    constructor (capacity: nat)
      requires capacity >= 1
      ensures Valid() && model == Empty(capacity) && fresh(buf)
    {
      this.capacity := capacity;
      buf := new M[capacity];
      head, size, dropped, notify := 0, 0, 0, false;
      model := Empty(capacity);
    }

    method Append(m: M)
      requires Valid() && size < capacity
      modifies this, buf
      ensures Valid() && model == old(model).Push(m)
    {
      ghost var b := buf[..];
      HoldsPush(b, head, model.contents, m);
      PushKeepsValid(model, m);
      var at := Wrapped(head, size, capacity);
      buf[at] := m;
      assert buf[..] == b[Slot(head, size, capacity) := m];
      size := size + 1;
      notify := true;
      model := model.Push(m);
    }

    method Overwrite(m: M)
      requires Valid() && size == capacity
      modifies this, buf
      ensures Valid() && model == old(model).Push(m)
    {
      ghost var b := buf[..];
      OverwriteStep(b, head, model, m);
      buf[head] := m;
      assert buf[..] == b[head := m];
      head := Wrapped(head, 1, capacity);
      dropped := dropped + 1;
      notify := true;
      model := model.Push(m);
    }

    /** Queues a message; a full queue gives up its oldest one. */
    method Push(m: M) returns (overwrote: bool)
      requires Valid()
      modifies this, buf
      ensures Valid() && model == old(model).Push(m) && notify
      ensures overwrote <==> old(size) == capacity
      ensures !overwrote ==> Contents() == old(Contents()) + [m] && dropped == old(dropped)
      ensures overwrote ==> Contents() == old(Contents())[1..] + [m] && dropped == old(dropped) + 1
      ensures model.log == old(model).log + [m] && model.popped == old(model).popped && model.cleared == old(model).cleared
    {
      PushMeans(model, m);
      overwrote := size == capacity;
      if overwrote {
        Overwrite(m);
      } else {
        Append(m);
      }
    }

    method Pop() returns (r: Option<M>)
      requires Valid()
      modifies this
      ensures Valid()
      ensures r.None? <==> old(size) == 0
      ensures r.None? ==> model == old(model)
      ensures r.Some? ==> old(Contents()) == [r.value] + Contents() && (notify <==> old(notify) && size > 0)
      ensures r.Some? ==> model == old(model).Pop() && model.popped == old(model).popped + 1
      ensures model.log == old(model).log && dropped == old(dropped) && model.cleared == old(model).cleared
    {
      if size == 0 { return None; }
      ghost var was := Contents();
      HoldsPop(buf[..], head, model.contents);
      PopKeepsValid(model);
      r := Some(buf[head]);
      head := Wrapped(head, 1, capacity);
      size := size - 1;
      if size == 0 {
        notify := false;
      }
      model := model.Pop();
      assert Contents() == was[1..];
    }

    method Clear()
      requires Valid()
      modifies this
      ensures Valid() && model == old(model).Clear()
      ensures Contents() == [] && !notify && model.cleared == old(model).cleared + old(size)
      ensures model.log == old(model).log && dropped == old(dropped) && model.popped == old(model).popped
    {
      head, size := 0, 0;
      notify := false;
      model := model.Clear();
    }
  }

  // ---- the owner's wait loop against the network ----

  // Where a wait is: about to check, blocked in the select, or running a task in place.
  datatype Pc = Top | Select | Exec

  // One activation of the wait loop. `queue` is the queue its check pops, if it has a check;
  // `wakes` says whether its wake channel is that queue's token.
  datatype Frame = Frame(queue: Option<nat>, wakes: bool, pc: Pc)

  // The queues, those of closed connections, and the owner's nested waits, the innermost last.
  datatype System<M> = System(queues: map<nat, Queue<M>>, closed: set<nat>, stack: seq<Frame>)
  {
    predicate Running() {
      stack == [] || stack[|stack| - 1].pc == Exec
    }

    predicate TopAt(pc: Pc) {
      stack != [] && stack[|stack| - 1].pc == pc
    }

    function TopFrame(): Frame
      requires stack != []
    {
      stack[|stack| - 1]
    }

    function Goto(pc: Pc): System<M>
      requires stack != []
    {
      this.(stack := stack[..|stack| - 1] + [TopFrame().(pc := pc)])
    }

    function Return(): System<M>
      requires stack != []
    {
      this.(stack := stack[..|stack| - 1])
    }
  }

  datatype Event<M> =
    | NetPush(q: nat, m: M)       // the network side queues a message
    | NetClear(q: nat)            // the queue is emptied
    | NetClose(q: nat)            // the queue's connection closes: no check finds a message any more
    | StartWait(frame: Frame)     // the owner, while running, enters a wait
    | OwnerPop(q: nat)            // the owner, while running, takes a message directly
    | ReturnCanceled              // top of loop: canceled
    | CheckHit                    // top of loop: the check found a message, the wait returns it
    | CheckMiss                   // top of loop: nothing found, block
    | ReturnExpired               // top of loop: nothing found and the deadline is over
    | Wake                        // the select takes the token
    | StartTask                   // the select takes a task
    | EndTask                     // its work is done, back to the top
    | Timer                       // the timer fires
    | SelectCanceled              // the select sees a cancellation

  predicate Misses<M>(s: System<M>) {
    s.TopAt(Top) &&
    match s.TopFrame().queue
    case None => true
    case Some(q) => q in s.queues && (q in s.closed || s.queues[q].contents == [])
  }

  predicate Enabled<M>(s: System<M>, e: Event<M>) {
    match e
    case NetPush(q, _) => q in s.queues && s.queues[q].capacity >= 1
    case NetClear(q) => q in s.queues
    case NetClose(q) => q in s.queues
    case StartWait(f) => s.Running() && f.pc == Top && (f.wakes ==> f.queue.Some?)
    case OwnerPop(q) => s.Running() && q in s.queues && q !in s.closed && s.queues[q].contents != []
    case ReturnCanceled => s.TopAt(Top)
    case CheckHit =>
      && s.TopAt(Top) && s.TopFrame().queue.Some? && s.TopFrame().queue.value in s.queues
      && s.TopFrame().queue.value !in s.closed && s.queues[s.TopFrame().queue.value].contents != []
    case CheckMiss => Misses(s)
    case ReturnExpired => Misses(s)
    case Wake =>
      && s.TopAt(Select) && s.TopFrame().wakes && s.TopFrame().queue.Some?
      && s.TopFrame().queue.value in s.queues && s.queues[s.TopFrame().queue.value].token
    case StartTask => s.TopAt(Select)
    case EndTask => s.TopAt(Exec)
    case Timer => s.TopAt(Select)
    case SelectCanceled => s.TopAt(Select)
  }

  function Next<M>(s: System<M>, e: Event<M>): System<M>
    requires Enabled(s, e)
  {
    match e
    case NetPush(q, m) => s.(queues := s.queues[q := s.queues[q].Push(m)])
    case NetClear(q) => s.(queues := s.queues[q := s.queues[q].Clear()])
    case NetClose(q) => s.(closed := s.closed + {q})
    case StartWait(f) => s.(stack := s.stack + [f])
    case OwnerPop(q) => s.(queues := s.queues[q := s.queues[q].Pop()])
    case ReturnCanceled => s.Return()
    case CheckHit =>
      var q := s.TopFrame().queue.value;
      s.(queues := s.queues[q := s.queues[q].Pop()]).Return()
    case CheckMiss => s.Goto(Select)
    case ReturnExpired => s.Return()
    case Wake =>
      var q := s.TopFrame().queue.value;
      s.(queues := s.queues[q := s.queues[q].TakeToken()]).Goto(Top)
    case StartTask => s.Goto(Exec)
    case EndTask => s.Goto(Top)
    case Timer => s.Goto(Top)
    case SelectCanceled => s.Return()
  }

  /** While the connection is open, a wait blocked on a queue's token cannot overlook a message in that queue. */
  ghost predicate NotOverlooked<M>(s: System<M>) {
    s.TopAt(Select) && s.TopFrame().wakes && s.TopFrame().queue.Some? ==>
      var q := s.TopFrame().queue.value;
      q in s.queues && (q !in s.closed && s.queues[q].contents != [] ==> s.queues[q].token)
  }

  ghost predicate Invariant<M>(s: System<M>) {
    && (forall q :: q in s.queues ==> s.queues[q].Valid())
    && (forall k :: 0 <= k < |s.stack| - 1 ==> s.stack[k].pc == Exec)
    && NotOverlooked(s)
  }

  /** What a step can do to one queue. */
  ghost predicate Changed<M>(q: Queue<M>, e: Event<M>, r: Queue<M>) {
    || r == q
    || (e.NetPush? && q.capacity >= 1 && r == q.Push(e.m))
    || r == q.Clear()
    || (q.contents != [] && r == q.Pop())
    || (q.token && r == q.TakeToken())
  }

  lemma ChangedKeepsValid<M>(q: Queue<M>, e: Event<M>, r: Queue<M>)
    requires q.Valid() && Changed(q, e, r)
    ensures r.Valid()
  {
    if e.NetPush? {
      PushKeepsValid(q, e.m);
    }
    if q.contents != [] {
      PopKeepsValid(q);
    }
  }

  lemma StepChanges<M>(s: System<M>, e: Event<M>)
    requires Enabled(s, e)
    ensures Next(s, e).queues.Keys == s.queues.Keys
    ensures forall q :: q in s.queues ==> Changed(s.queues[q], e, Next(s, e).queues[q])
  {
  }

  lemma StepKeepsQueues<M>(s: System<M>, e: Event<M>)
    requires Invariant(s) && Enabled(s, e)
    ensures forall q :: q in Next(s, e).queues ==> Next(s, e).queues[q].Valid()
  {
    StepChanges(s, e);
    forall q | q in Next(s, e).queues ensures Next(s, e).queues[q].Valid() {
      ChangedKeepsValid(s.queues[q], e, Next(s, e).queues[q]);
    }
  }

  lemma StepKeepsStack<M>(s: System<M>, e: Event<M>)
    requires Invariant(s) && Enabled(s, e)
    ensures forall k :: 0 <= k < |Next(s, e).stack| - 1 ==> Next(s, e).stack[k].pc == Exec
  {
  }

  lemma StepKeepsWatch<M>(s: System<M>, e: Event<M>)
    requires Invariant(s) && Enabled(s, e)
    ensures NotOverlooked(Next(s, e))
  {
    match e
    case NetPush(q, m) => PushKeepsValid(s.queues[q], m);
    case _ =>
  }

  lemma StepKeepsInvariant<M>(s: System<M>, e: Event<M>)
    requires Invariant(s) && Enabled(s, e)
    ensures Invariant(Next(s, e))
  {
    StepKeepsQueues(s, e);
    StepKeepsStack(s, e);
    StepKeepsWatch(s, e);
  }

  ghost predicate Initial<M>(s: System<M>) {
    s.stack == [] && s.closed == {} && forall q :: q in s.queues ==> s.queues[q].capacity >= 1 && s.queues[q] == Empty(s.queues[q].capacity)
  }

  ghost predicate Steps<M>(s: System<M>, e: Event<M>, t: System<M>) {
    Enabled(s, e) && t == Next(s, e)
  }

  /** The states of a schedule, from an initial one on. */
  ghost predicate Behaviour<M>(states: seq<System<M>>, events: seq<Event<M>>) {
    && |states| == |events| + 1
    && Initial(states[0])
    && forall i :: 0 <= i < |events| ==> Steps(states[i], events[i], states[i + 1])
  }

  lemma InitialInvariant<M>(s: System<M>)
    requires Initial(s)
    ensures Invariant(s)
  {
    forall q | q in s.queues ensures s.queues[q].Valid() {
      EmptyIsValid(s.queues[q]);
    }
  }

  lemma EmptyIsValid<M>(q: Queue<M>)
    requires q.capacity >= 1 && |q.contents| == 0 && |q.log| == 0 && !q.token && q.popped == 0 && q.dropped == 0 && q.cleared == 0
    ensures q.Valid()
  {
  }

  lemma StepInvariant<M>(s: System<M>, e: Event<M>, t: System<M>)
    requires Invariant(s) && Steps(s, e, t)
    ensures Invariant(t)
  {
    StepKeepsInvariant(s, e);
  }

  lemma {:induction false} RunsKeepInvariant<M>(states: seq<System<M>>, events: seq<Event<M>>, i: nat)
    requires Behaviour(states, events) && i < |states|
    ensures Invariant(states[i])
    decreases i
  {
    if i == 0 {
      InitialInvariant(states[0]);
    } else {
      RunsKeepInvariant(states, events, i - 1);
      StepInvariant(states[i - 1], events[i - 1], states[i]);
    }
  }

  // ---- where every message goes ----

  predicate Pushes<M>(e: Event<M>, q: nat) {
    e.NetPush? && e.q == q
  }

  /** The owner takes a message out of queue q. */
  predicate Takes<M>(s: System<M>, e: Event<M>, q: nat) {
    (e.OwnerPop? && e.q == q) || (e.CheckHit? && s.TopAt(Top) && s.TopFrame().queue == Some(q))
  }

  /** The wake of the wait on queue q uses up its token. */
  predicate Uses<M>(s: System<M>, e: Event<M>, q: nat) {
    e.Wake? && s.TopAt(Select) && s.TopFrame().queue == Some(q)
  }

  /** Where the messages of one queue are: its counters tell what was lost to fullness, taken and cleared. */
  ghost predicate Accounts<M>(s: System<M>, e: Event<M>, t: System<M>, q: nat)
    requires q in s.queues && q in t.queues
  {
    var a, b := s.queues[q], t.queues[q];
    && b.capacity == a.capacity
    && b.log == a.log + (if Pushes(e, q) then [e.m] else [])
    && b.dropped == a.dropped + (if Pushes(e, q) && |a.contents| == a.capacity then 1 else 0)
    && b.popped == a.popped + (if Takes(s, e, q) then 1 else 0)
    && b.cleared == a.cleared + (if e == NetClear(q) then |a.contents| else 0)
    && (b.token <==> if Pushes(e, q) then true else a.token && e != NetClear(q) && !Uses(s, e, q) && !(Takes(s, e, q) && |a.contents| == 1))
  }

  lemma StepDoes<M>(s: System<M>, e: Event<M>, q: nat)
    requires Invariant(s) && Enabled(s, e) && q in s.queues
    ensures q in Next(s, e).queues && (Takes(s, e, q) ==> s.queues[q].contents != []) && (Uses(s, e, q) ==> s.queues[q].token)
    ensures Next(s, e).queues[q] == var a := s.queues[q];
                                    if Pushes(e, q) then a.Push(e.m)
                                    else if Takes(s, e, q) then a.Pop()
                                    else if Uses(s, e, q) then a.TakeToken()
                                    else if e == NetClear(q) then a.Clear()
                                    else a
  {
  }

  lemma StepAccounts<M>(s: System<M>, e: Event<M>, t: System<M>, q: nat)
    requires Invariant(s) && Steps(s, e, t) && q in s.queues
    ensures q in t.queues && Accounts(s, e, t, q)
  {
    StepDoes(s, e, q);
    TakingMeans(s.queues[q]);
    if e.NetPush? {
      PushMeans(s.queues[q], e.m);
    }
  }

  /** The messages pushed to queue q by the first n events. */
  function Pushed<M>(events: seq<Event<M>>, n: nat, q: nat): seq<M>
    requires n <= |events|
  {
    if n == 0 then [] else Pushed(events, n - 1, q) + if Pushes(events[n - 1], q) then [events[n - 1].m] else []
  }

  /** How many of the first n events pushed to queue q while it was full. */
  function Overflows<M>(states: seq<System<M>>, events: seq<Event<M>>, n: nat, q: nat): nat
    requires n <= |events| < |states| && forall i :: 0 <= i < |states| ==> q in states[i].queues
  {
    if n == 0 then 0
    else
      var s := states[n - 1].queues[q];
      Overflows(states, events, n - 1, q) + if Pushes(events[n - 1], q) && |s.contents| == s.capacity then 1 else 0
  }

  /** How many of the first n events took a message from queue q. */
  function Taken<M>(states: seq<System<M>>, events: seq<Event<M>>, n: nat, q: nat): nat
    requires n <= |events| < |states|
  {
    if n == 0 then 0 else Taken(states, events, n - 1, q) + if Takes(states[n - 1], events[n - 1], q) then 1 else 0
  }

  lemma {:induction false} RunsKeepQueues<M>(states: seq<System<M>>, events: seq<Event<M>>, q: nat)
    requires Behaviour(states, events) && q in states[0].queues
    ensures forall i :: 0 <= i < |states| ==> q in states[i].queues
  {
    for i := 0 to |events|
      invariant forall j :: 0 <= j <= i ==> q in states[j].queues
    {
      RunsKeepInvariant(states, events, i);
      assert Steps(states[i], events[i], states[i + 1]);
      StepAccounts(states[i], events[i], states[i + 1], q);
    }
  }

  ghost predicate Accounted<M>(states: seq<System<M>>, events: seq<Event<M>>, n: nat, q: nat)
    requires n <= |events| < |states| && forall i :: 0 <= i < |states| ==> q in states[i].queues
  {
    var r := states[n].queues[q];
    && r.log == Pushed(events, n, q)
    && r.dropped == Overflows(states, events, n, q)
    && r.popped == Taken(states, events, n, q)
  }

  lemma StartIsAccounted<M>(states: seq<System<M>>, events: seq<Event<M>>, q: nat)
    requires Behaviour(states, events) && forall i :: 0 <= i < |states| ==> q in states[i].queues
    ensures Accounted(states, events, 0, q)
  {
    assert states[0].queues[q] == Empty(states[0].queues[q].capacity);
  }

  /** In every run a queue has lost to fullness exactly as many messages as were pushed while it was full. */
  lemma {:induction false} RunsAccount<M>(states: seq<System<M>>, events: seq<Event<M>>, n: nat, q: nat)
    requires Behaviour(states, events) && n < |states| && forall i :: 0 <= i < |states| ==> q in states[i].queues
    ensures Accounted(states, events, n, q)
    decreases n
  {
    if n == 0 {
      StartIsAccounted(states, events, q);
    } else {
      RunsAccount(states, events, n - 1, q);
      OneStep(states, events, n - 1, q);
      OneMoreAccounted(states, events, n, q);
    }
  }

  lemma OneMoreAccounted<M>(states: seq<System<M>>, events: seq<Event<M>>, n: nat, q: nat)
    requires 0 < n <= |events| < |states| && forall i :: 0 <= i < |states| ==> q in states[i].queues
    requires Accounted(states, events, n - 1, q) && Accounts(states[n - 1], events[n - 1], states[n], q)
    ensures Accounted(states, events, n, q)
  {
  }

  function Gone<M>(q: Queue<M>): nat {
    q.popped + q.dropped + q.cleared
  }

  lemma {:induction false} GoneGrows<M>(states: seq<System<M>>, events: seq<Event<M>>, i: nat, j: nat, q: nat)
    requires Behaviour(states, events) && i <= j < |states| && forall k :: 0 <= k < |states| ==> q in states[k].queues
    ensures Gone(states[i].queues[q]) <= Gone(states[j].queues[q])
    decreases j
  {
    if i < j {
      GoneGrows(states, events, i, j - 1, q);
      OneStep(states, events, j - 1, q);
    }
  }

  lemma OneStep<M>(states: seq<System<M>>, events: seq<Event<M>>, i: nat, q: nat)
    requires Behaviour(states, events) && i < |events| && q in states[i].queues && q in states[i + 1].queues
    ensures Accounts(states[i], events[i], states[i + 1], q)
  {
    RunsKeepInvariant(states, events, i);
    assert Steps(states[i], events[i], states[i + 1]);
    StepAccounts(states[i], events[i], states[i + 1], q);
  }

  lemma TakenIsOldest<M>(states: seq<System<M>>, events: seq<Event<M>>, i: nat, q: nat)
    requires Behaviour(states, events) && i < |events| && forall k :: 0 <= k < |states| ==> q in states[k].queues
    requires Takes(states[i], events[i], q)
    ensures var s := states[i].queues[q];
            s.contents != [] && Gone(s) < |Pushed(events, i, q)| && s.contents[0] == Pushed(events, i, q)[Gone(s)]
  {
    RunsKeepInvariant(states, events, i);
    assert Steps(states[i], events[i], states[i + 1]);
    RunsAccount(states, events, i, q);
    PopIsFifo(states[i].queues[q]);
  }

  /** In every run a message taken later was pushed later: the owner gets messages in order and none twice. */
  lemma TakenInOrder<M>(states: seq<System<M>>, events: seq<Event<M>>, i: nat, j: nat, q: nat)
    requires Behaviour(states, events) && i < j < |events| && forall k :: 0 <= k < |states| ==> q in states[k].queues
    requires Takes(states[i], events[i], q) && Takes(states[j], events[j], q)
    ensures var a, b := states[i].queues[q], states[j].queues[q];
            && a.contents != [] && b.contents != []
            && Gone(a) < Gone(b) < |Pushed(events, j, q)|
            && Gone(a) < |Pushed(events, i, q)| && a.contents[0] == Pushed(events, i, q)[Gone(a)]
            && b.contents[0] == Pushed(events, j, q)[Gone(b)]
  {
    TakenIsOldest(states, events, i, q);
    TakenIsOldest(states, events, j, q);
    OneStep(states, events, i, q);
    GoneGrows(states, events, i + 1, j, q);
  }

  /**
   * No lost wake-up: in every interleaving, an owner blocked on a queue's token while the queue holds
   * a message can be woken and its next check then returns the oldest message, exactly while the
   * connection is open.
   */
  lemma NoLostWakeUp<M>(states: seq<System<M>>, events: seq<Event<M>>, i: nat, q: nat)
    requires Behaviour(states, events) && i < |states|
    requires var t := states[i];
             t.TopAt(Select) && t.TopFrame().wakes && t.TopFrame().queue == Some(q)
    requires q in states[i].queues && states[i].queues[q].contents != []
    ensures var t := states[i];
            && (Enabled(t, Wake) && Enabled(Next(t, Wake), CheckHit) <==> q !in t.closed)
            && (q !in t.closed ==>
                  && Next(Next(t, Wake), CheckHit).queues[q].contents == t.queues[q].contents[1..]
                  && Next(Next(t, Wake), CheckHit).stack == t.stack[..|t.stack| - 1])
  {
    RunsKeepInvariant(states, events, i);
  }

  /** One queue, one wait on its token. */
  function Waiting<M>(q: Queue<M>, closed: set<nat>, pc: Pc): System<M> {
    System(map[0 := q], closed, [Frame(Some(0), true, pc)])
  }

  lemma WaitingMisses<M>(q: Queue<M>, closed: set<nat>)
    requires q.contents == [] || 0 in closed
    ensures Steps(Waiting(q, closed, Top), CheckMiss, Waiting(q, closed, Select))
  {
    assert Waiting(q, closed, Top).Goto(Select).stack == Waiting(q, closed, Select).stack;
  }

  lemma WaitingGets<M>(q: Queue<M>, closed: set<nat>, m: M)
    requires q.capacity >= 1
    ensures Steps(Waiting(q, closed, Select), NetPush(0, m), Waiting(q.Push(m), closed, Select))
  {
    assert map[0 := q][0 := q.Push(m)] == map[0 := q.Push(m)];
  }

  lemma WaitingWakes<M>(q: Queue<M>, closed: set<nat>)
    requires q.token
    ensures Steps(Waiting(q, closed, Select), Wake, Waiting(q.TakeToken(), closed, Top))
  {
    assert map[0 := q][0 := q.TakeToken()] == map[0 := q.TakeToken()];
    assert Waiting(q.TakeToken(), closed, Select).Goto(Top).stack == Waiting(q, closed, Top).stack;
  }

  /** After a close the owner can indeed be left blocked on a queue with a message and no token. */
  lemma CloseStrandsAMessage<M>(m: M) returns (states: seq<System<M>>, events: seq<Event<M>>)
    ensures Behaviour(states, events)
    ensures var t := states[|events|];
            t.TopAt(Select) && t.TopFrame() == Frame(Some(0), true, Select) && 0 in t.queues && t.queues[0].contents == [m] && !t.queues[0].token
  {
    var none: Queue<M> := Empty(1);
    var full := none.Push(m);
    var start := System(map[0 := none], {}, []);
    var wait: Event<M> := StartWait(Frame(Some(0), true, Top));
    assert Steps(start, wait, Waiting(none, {}, Top));
    WaitingMisses(none, {});
    WaitingGets(none, {}, m);
    assert Steps(Waiting(full, {}, Select), NetClose(0), Waiting(full, {0}, Select));
    WaitingWakes(full, {0});
    WaitingMisses(full.TakeToken(), {0});
    states := [start, Waiting(none, {}, Top), Waiting(none, {}, Select), Waiting(full, {}, Select), Waiting(full, {0}, Select),
      Waiting(full.TakeToken(), {0}, Top), Waiting(full.TakeToken(), {0}, Select)];
    events := [wait, CheckMiss, NetPush(0, m), NetClose(0), Wake, CheckMiss];
  }
}

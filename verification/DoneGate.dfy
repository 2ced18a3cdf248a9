/**
 * The gate that closes the manager's done channel, at the granularity of single atomic operations: a
 * creator that adds robots, resets stages and ends creation, one callback per robot that checks the
 * generation, decrements, reads the flag and closes, and an outside stop.
 *
 * A robot belongs to the generation it was created in. A reset raises the generation, then zeroes the
 * count, while callbacks of older robots are still on their way.
 */
module DoneGate {
  /**
   * Where a robot and its callback stand: Checked is between the generation check and the decrement,
   * Hit(last) between the decrement and the flag read.
   */
  datatype Phase = Registered | Alive | Checked | Hit(last: bool) | Closing | Done

  datatype Robot = Robot(generation: nat, phase: Phase)

  /** Where the creating goroutine stands; after a failed start it only ends creation. */
  datatype Creator = Creating | Starting | Resetting | Ending | FlagSet | ClosingGate | Finished

  datatype Gate = Gate(
    generation: nat,
    active: int,
    creationDone: bool,
    closes: nat,
    stopped: bool,
    creator: Creator,
    robots: seq<Robot>)

  datatype Event =
    | Add | Launch | StartFails
    | RaiseGeneration | ZeroActive
    | EndCreation | CheckActive | CreatorCloses
    | Check(robot: nat) | Decrement(robot: nat) | ReadFlag(robot: nat) | RobotCloses(robot: nat)
    | Stop

  function Start(): Gate {
    Gate(0, 0, false, 0, false, Creating, [])
  }

  /** Closing through sync.Once: only the first attempt closes. */
  function CloseOnce(s: Gate): Gate {
    if s.closes == 0 then s.(closes := 1) else s
  }

  predicate At(s: Gate, i: nat, p: Phase) {
    i < |s.robots| && s.robots[i].phase == p
  }

  predicate Enabled(s: Gate, e: Event) {
    match e
    case Add => s.creator == Creating
    case Launch => s.creator == Starting && |s.robots| > 0
    case StartFails => s.creator == Starting && |s.robots| > 0
    case RaiseGeneration => s.creator == Creating
    case ZeroActive => s.creator == Resetting
    case EndCreation => s.creator == Creating || s.creator == Ending
    case CheckActive => s.creator == FlagSet
    case CreatorCloses => s.creator == ClosingGate
    case Check(i) => At(s, i, Alive)
    case Decrement(i) => At(s, i, Checked)
    case ReadFlag(i) => i < |s.robots| && s.robots[i].phase.Hit?
    case RobotCloses(i) => At(s, i, Closing)
    case Stop => true
  }

  function Move(s: Gate, i: nat, p: Phase): Gate
    requires i < |s.robots|
  {
    s.(robots := s.robots[i := s.robots[i].(phase := p)])
  }

  function Next(s: Gate, e: Event): Gate
    requires Enabled(s, e)
  {
    match e
    case Add => s.(active := s.active + 1, creator := Starting, robots := s.robots + [Robot(s.generation, Registered)])
    case Launch => Move(s, |s.robots| - 1, Alive).(creator := Creating)
    case StartFails => Move(s, |s.robots| - 1, Done).(active := s.active - 1, creator := Ending)
    case RaiseGeneration => s.(generation := s.generation + 1, creator := Resetting)
    case ZeroActive => s.(active := 0, creator := Creating)
    case EndCreation => s.(creationDone := true, creator := FlagSet)
    case CheckActive => s.(creator := if s.active == 0 then ClosingGate else Finished)
    case CreatorCloses => CloseOnce(s).(creator := Finished)
    case Check(i) => Move(s, i, if s.robots[i].generation == s.generation then Checked else Done)
    case Decrement(i) => Move(s, i, Hit(s.active - 1 == 0)).(active := s.active - 1)
    case ReadFlag(i) => Move(s, i, if s.robots[i].phase.last && s.creationDone then Closing else Done)
    case RobotCloses(i) => CloseOnce(Move(s, i, Done))
    case Stop => CloseOnce(s).(stopped := true)
  }

  // ---- the living of a generation ----

  function Weight(r: Robot, generation: nat): nat {
    if r.generation == generation && (r.phase == Registered || r.phase == Alive || r.phase == Checked) then 1 else 0
  }

  /** The robots of a generation whose callbacks have not yet decremented. */
  function Living(robots: seq<Robot>, generation: nat): nat {
    if robots == [] then 0 else Living(robots[..|robots| - 1], generation) + Weight(robots[|robots| - 1], generation)
  }

  lemma {:induction false} LivingUpdate(robots: seq<Robot>, i: nat, r: Robot, generation: nat)
    requires i < |robots|
    ensures Living(robots[i := r], generation) == Living(robots, generation) - Weight(robots[i], generation) + Weight(r, generation)
    decreases |robots|
  {
    var n := |robots| - 1;
    if i == n {
      assert robots[i := r][..n] == robots[..n];
    } else {
      assert robots[i := r][..n] == robots[..n][i := r];
      LivingUpdate(robots[..n], i, r, generation);
    }
  }

  lemma {:induction false} LivingNone(robots: seq<Robot>, generation: nat)
    requires forall i :: 0 <= i < |robots| ==> Weight(robots[i], generation) == 0
    ensures Living(robots, generation) == 0
    decreases |robots|
  {
    if robots != [] {
      LivingNone(robots[..|robots| - 1], generation);
    }
  }

  lemma {:induction false} LivingSome(robots: seq<Robot>, generation: nat, i: nat)
    requires i < |robots| && Weight(robots[i], generation) == 1
    ensures Living(robots, generation) > 0
    decreases |robots|
  {
    if i < |robots| - 1 {
      LivingSome(robots[..|robots| - 1], generation, i);
    }
  }

  // ---- what every run keeps ----

  /** Somebody saw the count fall to zero and has not yet closed the gate. */
  ghost predicate Responsible(s: Gate) {
    exists i :: 0 <= i < |s.robots| && ToClose(s.robots[i])
  }

  predicate ToClose(r: Robot) {
    r.phase == Hit(true) || r.phase == Closing
  }

  ghost predicate CurrentResponsible(s: Gate) {
    exists i :: 0 <= i < |s.robots| && ToClose(s.robots[i]) && s.robots[i].generation == s.generation
  }

  /** A callback of an older generation stands between its check and its decrement. */
  ghost predicate Stale(s: Gate) {
    exists i :: 0 <= i < |s.robots| && IsStale(s, i)
  }

  predicate IsStale(s: Gate, i: nat) {
    At(s, i, Checked) && s.robots[i].generation < s.generation
  }

  /** The creator, the flag and the phases fit together; this holds whatever happens. */
  ghost predicate Shaped(s: Gate) {
    && (forall i :: 0 <= i < |s.robots| ==> s.robots[i].generation <= s.generation)
    && (s.creator == Starting <==> (|s.robots| > 0 && s.robots[|s.robots| - 1].phase == Registered))
    && (forall i :: 0 <= i < |s.robots| - 1 ==> s.robots[i].phase != Registered)
    && (s.creator == Starting ==> s.robots[|s.robots| - 1].generation == s.generation)
    && (s.creator == Resetting ==> forall i :: 0 <= i < |s.robots| ==> s.robots[i].generation < s.generation)
    && (s.creationDone <==> s.creator in {FlagSet, ClosingGate, Finished})
    && (forall i :: 0 <= i < |s.robots| && s.robots[i].phase == Closing ==> s.creationDone)
    && s.closes <= 1
  }

  /** The count is that of the current generation. */
  ghost predicate Counted(s: Gate) {
    s.creator != Resetting ==> !Stale(s) && s.active == Living(s.robots, s.generation)
  }

  ghost predicate Completing(s: Gate) {
    && (s.creator == ClosingGate ==> s.active == 0)
    && (s.creator == Finished && s.active == 0 ==> s.closes == 1 || CurrentResponsible(s))
  }

  ghost predicate Sound(s: Gate) {
    Shaped(s) && Counted(s) && Completing(s)
  }

  lemma MoveLiving(s: Gate, i: nat, p: Phase)
    requires i < |s.robots|
    ensures var r := s.robots[i];
            Living(Move(s, i, p).robots, s.generation)
            == Living(s.robots, s.generation) - Weight(r, s.generation) + Weight(r.(phase := p), s.generation)
  {
    LivingUpdate(s.robots, i, s.robots[i].(phase := p), s.generation);
  }

  lemma ShapedStep(s: Gate, e: Event)
    requires Shaped(s) && Enabled(s, e)
    ensures Shaped(Next(s, e))
  {
  }

  /** The reset's store does not fall between an older callback's check and its decrement. */
  ghost predicate ZeroCareful(s: Gate, e: Event) {
    e == ZeroActive ==> !Stale(s)
  }

  /** Only a reset makes a callback stale. */
  lemma StaleBefore(s: Gate, e: Event)
    requires Shaped(s) && Enabled(s, e)
    ensures e != RaiseGeneration && Stale(Next(s, e)) ==> Stale(s)
  {
    var t := Next(s, e);
    if e != RaiseGeneration && Stale(t) {
      var i :| 0 <= i < |t.robots| && IsStale(t, i);
      assert IsStale(s, i);
    }
  }

  lemma CreatorCounted(s: Gate, e: Event)
    requires Shaped(s) && Counted(s) && Enabled(s, e) && ZeroCareful(s, e) && !(e.Check? || e.Decrement? || e.ReadFlag? || e.RobotCloses?)
    ensures Counted(Next(s, e))
  {
    StaleBefore(s, e);
    if e == Add {
      assert Next(s, e).robots[..|s.robots|] == s.robots;
    } else if e == Launch {
      MoveLiving(s, |s.robots| - 1, Alive);
    } else if e == StartFails {
      MoveLiving(s, |s.robots| - 1, Done);
    } else if e == ZeroActive {
      LivingNone(s.robots, s.generation);
    }
  }

  lemma CallbackCounted(s: Gate, e: Event)
    requires Shaped(s) && Counted(s) && Enabled(s, e) && (e.Check? || e.Decrement? || e.ReadFlag? || e.RobotCloses?)
    ensures Counted(Next(s, e))
  {
    var t := Next(s, e);
    var i := e.robot;
    MoveLiving(s, i, t.robots[i].phase);
    StaleBefore(s, e);
    if e.Decrement? && s.creator != Resetting {
      assert !IsStale(s, i);
    }
  }

  lemma CountedStep(s: Gate, e: Event)
    requires Shaped(s) && Counted(s) && Enabled(s, e) && ZeroCareful(s, e)
    ensures Counted(Next(s, e))
  {
    if e.Check? || e.Decrement? || e.ReadFlag? || e.RobotCloses? {
      CallbackCounted(s, e);
    } else {
      CreatorCounted(s, e);
    }
  }

  /** While creation is over, a callback that decrements belongs to the current generation and was counted. */
  lemma DecrementIsCounted(s: Gate, i: nat)
    requires Shaped(s) && Counted(s) && s.creator != Resetting && At(s, i, Checked)
    ensures s.robots[i].generation == s.generation && s.active > 0
  {
    assert !IsStale(s, i);
    LivingSome(s.robots, s.generation, i);
  }

  lemma CompletingStep(s: Gate, e: Event)
    requires Sound(s) && Enabled(s, e)
    ensures Completing(Next(s, e))
  {
    var t := Next(s, e);
    if e.Decrement? && s.creator != Resetting {
      DecrementIsCounted(s, e.robot);
      assert t.robots[e.robot] == Robot(s.generation, Hit(s.active - 1 == 0));
    }
    if CurrentResponsible(s) && t.closes == 0 && s.creator == Finished {
      var i :| 0 <= i < |s.robots| && ToClose(s.robots[i]) && s.robots[i].generation == s.generation;
      assert ToClose(t.robots[i]) && t.robots[i].generation == t.generation;
    }
  }

  lemma SoundStep(s: Gate, e: Event)
    requires Sound(s) && Enabled(s, e) && ZeroCareful(s, e)
    ensures Sound(Next(s, e))
  {
    ShapedStep(s, e);
    CountedStep(s, e);
    CompletingStep(s, e);
  }

  ghost predicate Steps(s: Gate, e: Event, t: Gate) {
    Enabled(s, e) && t == Next(s, e)
  }

  ghost predicate Run(states: seq<Gate>, events: seq<Event>) {
    && |states| == |events| + 1
    && forall i :: 0 <= i < |events| ==> Steps(states[i], events[i], states[i + 1])
  }

  ghost predicate Behaviour(states: seq<Gate>, events: seq<Event>) {
    Run(states, events) && states[0] == Start()
  }

  lemma {:induction false} RunsStaySound(states: seq<Gate>, events: seq<Event>, i: nat)
    requires Run(states, events) && Sound(states[0]) && i < |states|
    requires forall j :: 0 <= j < |events| ==> ZeroCareful(states[j], events[j])
    ensures Sound(states[i])
  {
    if i > 0 {
      RunsStaySound(states, events, i - 1);
      assert Steps(states[i - 1], events[i - 1], states[i]) && ZeroCareful(states[i - 1], events[i - 1]);
      SoundStep(states[i - 1], events[i - 1]);
    }
  }

  /**
   * No missed completion: with creation over and every callback of the current generation through, the
   * gate was closed exactly once, start failures included and whatever older robots still do. Runs
   * without a reset meet the condition by having no such store.
   */
  lemma CompletionIsNeverMissed(states: seq<Gate>, events: seq<Event>, i: nat)
    requires Behaviour(states, events) && i < |states|
    requires forall j :: 0 <= j < |events| ==> ZeroCareful(states[j], events[j])
    requires AllThrough(states[i])
    ensures states[i].closes == 1
  {
    RunsStaySound(states, events, i);
    LivingNone(states[i].robots, states[i].generation);
  }

  predicate AllThrough(s: Gate) {
    s.creator == Finished && forall r :: 0 <= r < |s.robots| && s.robots[r].generation == s.generation ==> s.robots[r].phase == Done
  }

  // ---- who closes, and that callbacks get through ----

  predicate Closes(e: Event) {
    e == Stop || e == CreatorCloses || e.RobotCloses?
  }

  lemma StepCloses(s: Gate, e: Event)
    requires Enabled(s, e) && s.closes <= 1
    ensures Next(s, e).closes == if Closes(e) then 1 else s.closes
    ensures Next(s, e).stopped <==> s.stopped || e == Stop
  {
  }

  /** In every run the gate is closed, once, from the first stop or close attempt on and not before. */
  lemma {:induction false} ClosedExactly(states: seq<Gate>, events: seq<Event>, i: nat)
    requires Behaviour(states, events) && i < |states|
    ensures states[i].closes <= 1
    ensures states[i].closes == 1 <==> exists j :: 0 <= j < i && Closes(events[j])
    ensures states[i].stopped <==> exists j :: 0 <= j < i && events[j] == Stop
  {
    if i > 0 {
      var e := events[i - 1];
      ClosedExactly(states, events, i - 1);
      assert Steps(states[i - 1], e, states[i]);
      StepCloses(states[i - 1], e);
    }
  }

  /** How many steps a callback has ahead of it at most. */
  function Ahead(p: Phase): nat {
    match p
    case Registered => 5
    case Alive => 4
    case Checked => 3
    case Hit(_) => 2
    case Closing => 1
    case Done => 0
  }

  function CallbackStep(p: Phase, i: nat): Event
    requires p != Registered && p != Done
  {
    match p
    case Alive => Check(i)
    case Checked => Decrement(i)
    case Hit(_) => ReadFlag(i)
    case Closing => RobotCloses(i)
  }

  /** A callback can always take its next step, which brings it closer to its end and moves no other: older generations stop at the check, the last one after creation closes. */
  lemma CallbacksGetThrough(s: Gate, i: nat)
    requires i < |s.robots| && s.robots[i].phase != Registered && s.robots[i].phase != Done
    ensures var e := CallbackStep(s.robots[i].phase, i);
            && Enabled(s, e)
            && Next(s, e) == s.(robots := Next(s, e).robots, active := Next(s, e).active, closes := Next(s, e).closes)
            && |Next(s, e).robots| == |s.robots|
            && Ahead(Next(s, e).robots[i].phase) < Ahead(s.robots[i].phase)
            && Next(s, e).robots[i].generation == s.robots[i].generation
            && (forall j :: 0 <= j < |s.robots| && j != i ==> Next(s, e).robots[j] == s.robots[j])
            && Next(s, e).active == s.active - (if s.robots[i].phase == Checked then 1 else 0)
            && (s.robots[i].phase == Alive ==> (Next(s, e).robots[i].phase == Done <==> s.robots[i].generation != s.generation))
            && (s.robots[i].phase == Checked ==> Next(s, e).robots[i].phase == Hit(s.active == 1))
            && (s.robots[i].phase.Hit? ==> (Next(s, e).robots[i].phase == Closing <==> s.robots[i].phase.last && s.creationDone))
  {
  }

  /** A failed start gives back what the addition took and leaves the creator nothing but to end creation. */
  lemma FailedStartEnds(s: Gate)
    requires s.creator == Creating
    ensures Enabled(s, Add) && Enabled(Next(s, Add), StartFails)
    ensures var t := Next(Next(s, Add), StartFails);
            && t.active == s.active && |t.robots| == |s.robots| + 1 && t.robots[|s.robots|].phase == Done
            && Enabled(t, EndCreation) && !Enabled(t, Add) && !Enabled(t, RaiseGeneration) && !Enabled(t, Launch)
            && Next(t, EndCreation).creationDone
  {
  }

  // ---- closing too early ----

  /** Early: closed, by nobody's stop, while a robot of the current generation lives. */
  ghost predicate ClosedEarly(s: Gate) {
    s.closes == 1 && !s.stopped && exists r :: 0 <= r < |s.robots| && LivesNow(s, s.robots[r])
  }

  predicate LivesNow(s: Gate, r: Robot) {
    r.generation == s.generation && (r.phase == Registered || r.phase == Alive)
  }

  /** Nobody is about to close on the strength of a zero that is no longer true. */
  ghost predicate Safe(s: Gate) {
    && (s.creator == Resetting || s.active == 0 || !Responsible(s))
    && (s.closes == 1 && !s.stopped ==> s.creationDone && s.active == 0)
  }

  /** A robot is added, or the count zeroed, only while no callback is in the gap that this would deceive. */
  ghost predicate Careful(s: Gate, e: Event) {
    (e == Add ==> !Responsible(s)) && ZeroCareful(s, e)
  }

  /** Only a decrement to zero makes a callback responsible. */
  lemma ResponsibleBefore(s: Gate, e: Event)
    requires Enabled(s, e)
    ensures Next(s, e).active != 0 && Responsible(Next(s, e)) ==> Responsible(s)
  {
    var t := Next(s, e);
    if t.active != 0 && Responsible(t) {
      var i :| 0 <= i < |t.robots| && ToClose(t.robots[i]);
      assert ToClose(s.robots[i]);
    }
  }

  lemma SafeStep(s: Gate, e: Event)
    requires Sound(s) && Safe(s) && Enabled(s, e) && Careful(s, e)
    ensures Safe(Next(s, e))
  {
    ResponsibleBefore(s, e);
    if e.Decrement? && s.creator != Resetting {
      DecrementIsCounted(s, e.robot);
    }
    if e.RobotCloses? {
      assert ToClose(s.robots[e.robot]);
    }
  }

  lemma {:induction false} CarefulRunsStaySafe(states: seq<Gate>, events: seq<Event>, i: nat)
    requires Run(states, events) && Sound(states[0]) && Safe(states[0]) && i < |states|
    requires forall j :: 0 <= j < |events| ==> Careful(states[j], events[j])
    ensures Sound(states[i]) && Safe(states[i]) && !ClosedEarly(states[i])
  {
    if i > 0 {
      CarefulRunsStaySafe(states, events, i - 1);
      assert Steps(states[i - 1], events[i - 1], states[i]) && Careful(states[i - 1], events[i - 1]);
      SoundStep(states[i - 1], events[i - 1]);
      SafeStep(states[i - 1], events[i - 1]);
    }
    SafeIsNotEarly(states[i]);
  }

  lemma SafeIsNotEarly(s: Gate)
    requires Sound(s) && Safe(s)
    ensures !ClosedEarly(s)
  {
    forall r | 0 <= r < |s.robots| && s.closes == 1 && !s.stopped ensures !LivesNow(s, s.robots[r]) {
      if Weight(s.robots[r], s.generation) == 1 {
        LivingSome(s.robots, s.generation, r);
      }
    }
  }

  /** In careful runs, across any resets: while a robot of the current generation lives, only a stop has closed the gate. */
  lemma OnlyStopClosesOnTheLiving(states: seq<Gate>, events: seq<Event>, i: nat, r: nat)
    requires Behaviour(states, events) && i < |states| && states[i].closes > 0
    requires forall j :: 0 <= j < |events| ==> Careful(states[j], events[j])
    requires r < |states[i].robots| && LivesNow(states[i], states[i].robots[r])
    ensures states[i].stopped
  {
    CarefulRunsStaySafe(states, events, i);
  }

  /** Callbacks that run without anything in between make every run careful. */
  lemma UninterruptedCallbacksAreCareful(s: Gate, e: Event)
    requires forall i :: 0 <= i < |s.robots| ==> s.robots[i].phase in {Registered, Alive, Done}
    ensures Careful(s, e)
  {
  }

  // ---- the conditions are exact ----

  lemma RunAppend(a: seq<Gate>, x: seq<Event>, b: seq<Gate>, y: seq<Event>)
    requires Run(a, x) && Run(b, y) && a[|x|] == b[0]
    ensures Run(a + b[1..], x + y) && (a + b[1..])[|x| + |y|] == b[|y|]
  {
    var c, z := a + b[1..], x + y;
    forall i | 0 <= i < |z| ensures Steps(c[i], z[i], c[i + 1]) {
      if i < |x| {
        assert Steps(a[i], x[i], a[i + 1]);
      } else {
        assert Steps(b[i - |x|], y[i - |x|], b[i - |x| + 1]);
      }
    }
  }

  /** A run from s that starts with e and is careful from then on. */
  ghost predicate RunAfter(s: Gate, e: Event, states: seq<Gate>, events: seq<Event>) {
    && Run(states, events) && events != [] && states[0] == s && events[0] == e
    && forall j :: 1 <= j < |events| ==> Careful(states[j], events[j])
  }

  /** Lost: creation over, the current generation through, not closed, and nobody on the way to close. */
  ghost predicate Lost(s: Gate) {
    AllThrough(s) && s.closes == 0 && s.active < 0 && !Responsible(s)
  }

  /** A lost gate stays lost until somebody stops it. */
  lemma LostForGood(s: Gate, e: Event)
    requires Lost(s) && Enabled(s, e) && e != Stop
    ensures Lost(Next(s, e))
  {
    ResponsibleBefore(s, e);
    assert forall i :: 0 <= i < |s.robots| ==> !ToClose(s.robots[i]);
  }

  /** While the flag is down, every callback that saw zero can be let through without closing. */
  lemma {:induction false} Settle(s: Gate, k: nat) returns (states: seq<Gate>, events: seq<Event>)
    requires k <= |s.robots| && !s.creationDone && forall j :: 0 <= j < k ==> s.robots[j].phase != Hit(true)
    ensures Run(states, events) && states[0] == s
    ensures forall j :: 0 <= j < |events| ==> events[j].ReadFlag?
    ensures var t := states[|events|];
            && t == s.(robots := t.robots) && |t.robots| == |s.robots|
            && forall j :: 0 <= j < |s.robots| ==>
                             t.robots[j] == if s.robots[j].phase == Hit(true) then s.robots[j].(phase := Done) else s.robots[j]
    decreases |s.robots| - k
  {
    if k == |s.robots| {
      states, events := [s], [];
    } else if s.robots[k].phase == Hit(true) {
      var t := Next(s, ReadFlag(k));
      states, events := Settle(t, k + 1);
      assert Steps(s, ReadFlag(k), t);
      states, events := [s] + states, [ReadFlag(k)] + events;
    } else {
      states, events := Settle(s, k + 1);
    }
  }

  /** After the store, with everybody who saw zero let through: the stale callback is still to decrement. */
  lemma ZeroThenSettle(s: Gate, i: nat) returns (states: seq<Gate>, events: seq<Event>)
    requires Shaped(s) && s.creator == Resetting && IsStale(s, i) && s.closes == 0
    ensures RunAfter(s, ZeroActive, states, events)
    ensures var t := states[|events|];
            && t.creator == Creating && t.active == 0 && t.closes == 0 && t.stopped == s.stopped && !t.creationDone
            && t.generation == s.generation && !Responsible(t) && IsStale(t, i)
            && forall r :: 0 <= r < |t.robots| ==> t.robots[r].generation < t.generation && t.robots[r].phase != Registered
  {
    var z := Next(s, ZeroActive);
    var a, x := Settle(z, 0);
    assert Steps(s, ZeroActive, z);
    states, events := [s] + a, [ZeroActive] + x;
    assert forall j :: 1 <= j < |events| ==> events[j].ReadFlag?;
    var t := states[|events|];
    assert t == a[|x|];
    assert forall r :: 0 <= r < |t.robots| ==> !ToClose(t.robots[r]);
  }

  lemma StaleCanLose(s: Gate, i: nat) returns (states: seq<Gate>, events: seq<Event>)
    requires Shaped(s) && s.creator == Resetting && IsStale(s, i) && s.closes == 0
    ensures RunAfter(s, ZeroActive, states, events) && Lost(states[|events|])
  {
    var a, x := ZeroThenSettle(s, i);
    var t := a[|x|];
    var t1 := Next(t, Decrement(i));
    var t2 := Next(t1, EndCreation);
    var t3 := Next(t2, CheckActive);
    var b, y := [t, t1, t2, t3], [Decrement(i), EndCreation, CheckActive];
    assert Steps(t, Decrement(i), t1) && Steps(t1, EndCreation, t2) && Steps(t2, CheckActive, t3);
    ResponsibleBefore(t, Decrement(i));
    assert t3.robots == t1.robots;
    RunAppend(a, x, b, y);
    states, events := a + b[1..], x + y;
  }

  /** A newcomer and a stale decrement: the count falls to zero while the newcomer lives. */
  lemma NewcomerClosedOn(t: Gate, i: nat) returns (states: seq<Gate>, events: seq<Event>)
    requires t.creator == Creating && t.active == 0 && t.closes == 0 && !t.stopped && IsStale(t, i)
    ensures Run(states, events) && states[0] == t && ClosedEarly(states[|events|])
    ensures events == [Add, Launch, Decrement(i), EndCreation, ReadFlag(i), RobotCloses(i)]
  {
    var n := |t.robots|;
    var t1 := Next(t, Add);
    var t2 := Next(t1, Launch);
    var t3 := Next(t2, Decrement(i));
    var t4 := Next(t3, EndCreation);
    var t5 := Next(t4, ReadFlag(i));
    var t6 := Next(t5, RobotCloses(i));
    states := [t, t1, t2, t3, t4, t5, t6];
    events := [Add, Launch, Decrement(i), EndCreation, ReadFlag(i), RobotCloses(i)];
    assert Steps(t, Add, t1) && Steps(t1, Launch, t2) && Steps(t2, Decrement(i), t3);
    assert Steps(t3, EndCreation, t4) && Steps(t4, ReadFlag(i), t5) && Steps(t5, RobotCloses(i), t6);
    assert LivesNow(t6, t6.robots[n]);
  }

  lemma StaleCanCloseEarly(s: Gate, i: nat) returns (states: seq<Gate>, events: seq<Event>)
    requires Shaped(s) && s.creator == Resetting && IsStale(s, i) && s.closes == 0 && !s.stopped
    ensures RunAfter(s, ZeroActive, states, events) && ClosedEarly(states[|events|])
  {
    var a, x := ZeroThenSettle(s, i);
    var b, y := NewcomerClosedOn(a[|x|], i);
    RunAppend(a, x, b, y);
    states, events := a + b[1..], x + y;
  }

  lemma AddCanCloseEarly(s: Gate, i: nat) returns (states: seq<Gate>, events: seq<Event>)
    requires Shaped(s) && s.creator == Creating && i < |s.robots| && ToClose(s.robots[i]) && s.closes == 0 && !s.stopped
    ensures RunAfter(s, Add, states, events) && ClosedEarly(states[|events|])
    ensures events == [Add, Launch, EndCreation, ReadFlag(i), RobotCloses(i)]
  {
    var n := |s.robots|;
    var t1 := Next(s, Add);
    var t2 := Next(t1, Launch);
    var t3 := Next(t2, EndCreation);
    var t4 := Next(t3, ReadFlag(i));
    var t5 := Next(t4, RobotCloses(i));
    states, events := [s, t1, t2, t3, t4, t5], [Add, Launch, EndCreation, ReadFlag(i), RobotCloses(i)];
    assert Steps(s, Add, t1) && Steps(t1, Launch, t2) && Steps(t2, EndCreation, t3);
    assert Steps(t3, ReadFlag(i), t4) && Steps(t4, RobotCloses(i), t5);
    assert LivesNow(t5, t5.robots[n]);
  }

  /** Adding a robot can end in an early close exactly when some callback that saw zero has not yet closed or read the flag. */
  lemma AddIsSafeExactly(s: Gate)
    requires Sound(s) && Safe(s) && s.creator == Creating && s.closes == 0 && !s.stopped
    ensures (exists states, events :: RunAfter(s, Add, states, events) && ClosedEarly(states[|events|])) <==> Responsible(s)
  {
    if Responsible(s) {
      var i :| 0 <= i < |s.robots| && ToClose(s.robots[i]);
      var states, events := AddCanCloseEarly(s, i);
    } else {
      forall states, events | RunAfter(s, Add, states, events) ensures !ClosedEarly(states[|events|]) {
        assert forall j :: 0 <= j < |events| ==> Careful(states[j], events[j]);
        CarefulRunsStaySafe(states, events, |events|);
      }
    }
  }

  /** Zeroing the count can lose the completion, and can end in an early close, exactly when an older callback is past its check and not its decrement. */
  lemma ZeroIsSafeExactly(s: Gate)
    requires Sound(s) && Safe(s) && s.creator == Resetting && s.closes == 0 && !s.stopped
    ensures (exists states, events :: RunAfter(s, ZeroActive, states, events) && Lost(states[|events|])) <==> Stale(s)
    ensures (exists states, events :: RunAfter(s, ZeroActive, states, events) && ClosedEarly(states[|events|])) <==> Stale(s)
  {
    if Stale(s) {
      var i :| 0 <= i < |s.robots| && IsStale(s, i);
      var states, events := StaleCanLose(s, i);
      var states1, events1 := StaleCanCloseEarly(s, i);
    } else {
      forall states, events | RunAfter(s, ZeroActive, states, events)
        ensures !ClosedEarly(states[|events|]) && !Lost(states[|events|])
      {
        assert forall j :: 0 <= j < |events| ==> Careful(states[j], events[j]);
        CarefulRunsStaySafe(states, events, |events|);
      }
    }
  }

  // ---- runs from the start in which it goes wrong ----

  /** Up to a reset whose store is next, with a callback of the first stage past its check. */
  lemma StaleRun() returns (states: seq<Gate>, events: seq<Event>)
    ensures Behaviour(states, events)
    ensures states[|events|] == Gate(1, 1, false, 0, false, Resetting, [Robot(0, Checked)])
  {
    var s1 := Gate(0, 1, false, 0, false, Starting, [Robot(0, Registered)]);
    var s2 := Gate(0, 1, false, 0, false, Creating, [Robot(0, Alive)]);
    var s3 := Gate(0, 1, false, 0, false, Creating, [Robot(0, Checked)]);
    var s4 := Gate(1, 1, false, 0, false, Resetting, [Robot(0, Checked)]);
    events := [Add, Launch, Check(0), RaiseGeneration];
    states := [Start(), s1, s2, s3, s4];
    assert Steps(Start(), Add, s1) && Steps(s1, Launch, s2) && Steps(s2, Check(0), s3) && Steps(s3, RaiseGeneration, s4);
  }

  /** A whole run after which nothing but a stop ever closes the gate. */
  lemma CompletionCanBeLost() returns (states: seq<Gate>, events: seq<Event>)
    ensures Behaviour(states, events) && Lost(states[|events|])
  {
    var a, x := StaleRun();
    assert IsStale(a[|x|], 0);
    var b, y := StaleCanLose(a[|x|], 0);
    RunAppend(a, x, b, y);
    states, events := a + b[1..], x + y;
  }

  lemma HitRun() returns (states: seq<Gate>, events: seq<Event>)
    ensures Behaviour(states, events) && RaiseGeneration !in events
    ensures states[|events|] == Gate(0, 0, false, 0, false, Creating, [Robot(0, Hit(true))])
  {
    var s1 := Gate(0, 1, false, 0, false, Starting, [Robot(0, Registered)]);
    var s2 := Gate(0, 1, false, 0, false, Creating, [Robot(0, Alive)]);
    var s3 := Gate(0, 1, false, 0, false, Creating, [Robot(0, Checked)]);
    var s4 := Gate(0, 0, false, 0, false, Creating, [Robot(0, Hit(true))]);
    events := [Add, Launch, Check(0), Decrement(0)];
    states := [Start(), s1, s2, s3, s4];
    assert Steps(Start(), Add, s1) && Steps(s1, Launch, s2) && Steps(s2, Check(0), s3) && Steps(s3, Decrement(0), s4);
  }

  /** Without any reset: the first robot's callback pauses after its decrement, a second robot is added, the gate closes on it. */
  lemma EarlyCloseHappens() returns (states: seq<Gate>, events: seq<Event>)
    ensures Behaviour(states, events) && RaiseGeneration !in events && ClosedEarly(states[|events|])
  {
    var a, x := HitRun();
    var b, y := AddCanCloseEarly(a[|x|], 0);
    RunAppend(a, x, b, y);
    states, events := a + b[1..], x + y;
  }

  /** After a reset: a stale decrement cancels out the next stage's robot, and the gate closes on it. */
  lemma EarlyCloseAfterReset() returns (states: seq<Gate>, events: seq<Event>)
    ensures Behaviour(states, events) && ClosedEarly(states[|events|])
  {
    var a, x := StaleRun();
    assert IsStale(a[|x|], 0);
    var b, y := StaleCanCloseEarly(a[|x|], 0);
    RunAppend(a, x, b, y);
    states, events := a + b[1..], x + y;
  }
}

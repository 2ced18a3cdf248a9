/** Heartbeats over whole runs: ticks, private counters, and what a compiled layout can still fail on. */
module HeartbeatRuns {
  import opened Values
  import opened Bytes
  import opened Heartbeat

  // ---- private counters ----

  datatype CounterStep = CounterStep(idx: nat, step: int)

  function StepOf<F>(f: Field<F>): int {
    if f.step.Some? then f.step.value else 1
  }

  function StartOf<F>(f: Field<F>): int {
    if f.start.Some? then f.start.value else 0
  }

  function StepsUpTo<F>(fields: seq<Field<F>>, i: nat): seq<CounterStep>
    requires i <= |fields|
  {
    if i == 0 then []
    else if fields[i - 1].source == Counter then
      StepsUpTo(fields, i - 1) + [CounterStep(i - 1, StepOf(fields[i - 1]))]
    else StepsUpTo(fields, i - 1)
  }

  method CompileCounters<F>(fields: seq<Field<F>>) returns (steps: seq<CounterStep>)
    ensures steps == StepsUpTo(fields, |fields|)
  {
    steps := [];
    for i := 0 to |fields|
      invariant steps == StepsUpTo(fields, i)
    {
      if fields[i].source == Counter {
        steps := steps + [CounterStep(i, StepOf(fields[i]))];
      }
    }
  }

  function Bump(counters: map<nat, int>, c: CounterStep): map<nat, int> {
    counters[c.idx := Wrap64((if c.idx in counters then counters[c.idx] else 0) + c.step)]
  }

  function Advance(steps: seq<CounterStep>, counters: map<nat, int>): map<nat, int> {
    if steps == [] then counters
    else Bump(Advance(steps[..|steps| - 1], counters), steps[|steps| - 1])
  }

  method AdvanceCounters<F>(steps: seq<CounterStep>, env: Environment<F>)
    modifies env`counters
    ensures env.counters == Advance(steps, old(env.counters))
  {
    ghost var was := env.counters;
    for i := 0 to |steps|
      invariant env.counters == Advance(steps[..i], was)
    {
      assert steps[..i + 1][..i] == steps[..i];
      env.counters := Bump(env.counters, steps[i]);
    }
    assert steps[..|steps|] == steps;
  }

  /** Advancing moves each counter field by its own step, once, and touches no other index. */
  lemma {:induction false} AdvanceOne<F>(fields: seq<Field<F>>, i: nat, counters: map<nat, int>, c: nat)
    requires i <= |fields|
    ensures var after := Advance(StepsUpTo(fields, i), counters);
            if c < i && fields[c].source == Counter
            then c in after && after[c] == Wrap64((if c in counters then counters[c] else 0) + StepOf(fields[c]))
            else (c in after <==> c in counters) && (c in counters ==> after[c] == counters[c])
    decreases i
  {
    if i > 0 {
      AdvanceOne(fields, i - 1, counters, c);
      var prior := StepsUpTo(fields, i - 1);
      if fields[i - 1].source == Counter {
        assert (prior + [CounterStep(i - 1, StepOf(fields[i - 1]))])[..|prior|] == prior;
      }
    }
  }

  // ---- runs ----

  // Before a tick the store is whatever other writers made of it; `encodes` says whether the
  // connection's codec was available to turn the body into a packet.
  datatype TickEvent<F> = TickEvent(store: map<string, Value<F>>, encodes: bool)

  // What a tick came to: the builder's outcome with its skip and error, and whether a packet went out.
  datatype Ticked = Ticked(outcome: Outcome, sent: bool)

  function TickOnce<F>(s: Setting<F>, fields: seq<Field<F>>, w: World<F>, ev: TickEvent<F>): (Ticked, World<F>) {
    var (o, w1) := Build(s, fields, 0, w.(store := ev.store));
    if o.Body? && ev.encodes then
      (Ticked(o, true), w1.(counters := Advance(StepsUpTo(fields, |fields|), w1.counters)))
    else
      (Ticked(o, false), w1)
  }

  /** A run of the simple builder: what each tick came to, and the final world. */
  function Run<F>(s: Setting<F>, fields: seq<Field<F>>, w: World<F>, events: seq<TickEvent<F>>): (seq<Ticked>, World<F>) {
    if events == [] then
      ([], w)
    else
      var (before, w1) := Run(s, fields, w, events[..|events| - 1]);
      var (tick, w2) := TickOnce(s, fields, w1, events[|events| - 1]);
      (before + [tick], w2)
  }

  /** A run of the compiled plan: tick by tick the same bodies, skips, errors, packets, store, counters and draws. */
  method RunPlan<F>(plan: Plan<F>, env: Environment<F>, events: seq<TickEvent<F>>) returns (ticks: seq<Ticked>)
    requires plan.Valid(env.setting.fl)
    modifies env, plan.body
    ensures plan.Valid(env.setting.fl)
    ensures (ticks, env.Now()) == Run(env.setting, plan.fields, old(env.Now()), events)
  {
    ghost var w0 := env.Now();
    var steps := CompileCounters(plan.fields);
    ticks := [];
    for i := 0 to |events|
      invariant plan.Valid(env.setting.fl)
      invariant (ticks, env.Now()) == Run(env.setting, plan.fields, w0, events[..i])
    {
      assert events[..i + 1][..i] == events[..i];
      env.store := events[i].store;
      var o := plan.Tick(env);
      if o.Body? && events[i].encodes {
        AdvanceCounters(steps, env);
        ticks := ticks + [Ticked(o, true)];
      } else {
        ticks := ticks + [Ticked(o, false)];
      }
    }
    assert events[..|events|] == events;
  }

  // ---- what a packet carries ----

  lemma {:induction false} BuildKeepsCounter<F>(s: Setting<F>, fields: seq<Field<F>>, i: nat, w: World<F>, c: nat)
    requires i <= |fields| && (c < i || c >= |fields| || fields[c].source != Counter)
    ensures var after := Build(s, fields, i, w).1.counters;
            (c in after <==> c in w.counters) && (c in after ==> after[c] == w.counters[c])
    decreases |fields| - i
  {
    if i < |fields| {
      BuildKeepsCounter(s, fields, i + 1, Resolve(s, fields[i], i, w).1, c);
    }
  }

  /** A tick never moves a counter: at most it writes down the value it starts from. */
  lemma {:induction false} BuildReadsCounter<F>(s: Setting<F>, fields: seq<Field<F>>, i: nat, w: World<F>, c: nat)
    requires i <= c < |fields| && fields[c].source == Counter
    ensures CounterValue(fields[c], c, Build(s, fields, i, w).1.counters) == CounterValue(fields[c], c, w.counters)
    ensures Build(s, fields, i, w).0.Body? ==> c in Build(s, fields, i, w).1.counters
    decreases |fields| - i
  {
    var w1 := Resolve(s, fields[i], i, w).1;
    if i < c {
      BuildReadsCounter(s, fields, i + 1, w1, c);
    } else {
      BuildKeepsCounter(s, fields, i + 1, w1, c);
    }
  }

  lemma BuildCons<F>(s: Setting<F>, fields: seq<Field<F>>, i: nat, w: World<F>)
    requires i < |fields| && Build(s, fields, i, w).0.Body?
    ensures var (r, w1) := Resolve(s, fields[i], i, w);
            && r.Got? && Build(s, fields, i + 1, w1).0.Body?
            && Build(s, fields, i, w).0.bytes == LittleEndian(WidthOf(fields[i]), r.v) + Build(s, fields, i + 1, w1).0.bytes
    ensures fields[i].source == Counter ==> Resolve(s, fields[i], i, w).0.v == CounterValue(fields[i], i, w.counters)
  {
  }

  lemma OtherCounterKept<F>(s: Setting<F>, fields: seq<Field<F>>, i: nat, w: World<F>, c: nat)
    requires i < |fields| && c != i
    ensures var after := Resolve(s, fields[i], i, w).1.counters;
            (c in after <==> c in w.counters) && (c in after ==> after[c] == w.counters[c])
  {
  }

  lemma SliceTail<T>(a: seq<T>, b: seq<T>, lo: nat, hi: nat)
    requires lo <= hi <= |b|
    ensures (a + b)[|a| + lo..|a| + hi] == b[lo..hi]
  {
  }

  /** Field c of the bytes built from field i on. */
  ghost predicate HoldsFrom<F>(fields: seq<Field<F>>, i: nat, b: seq<Byte>, c: nat, v: int)
    requires i <= c < |fields|
  {
    var lo, hi := Offset(fields, c) - Offset(fields, i), Offset(fields, c + 1) - Offset(fields, i);
    0 <= lo <= hi <= |b| && b[lo..hi] == LittleEndian(WidthOf(fields[c]), v)
  }

  lemma HoldsFromCons<F>(fields: seq<Field<F>>, i: nat, first: seq<Byte>, b: seq<Byte>, c: nat, v: int)
    requires i < c < |fields| && |first| == WidthOf(fields[i]) && HoldsFrom(fields, i + 1, b, c, v)
    ensures HoldsFrom(fields, i, first + b, c, v)
  {
    var lo, hi := Offset(fields, c) - Offset(fields, i + 1), Offset(fields, c + 1) - Offset(fields, i + 1);
    SliceTail(first, b, lo, hi);
  }

  lemma HoldsFromHere<F>(fields: seq<Field<F>>, i: nat, b: seq<Byte>, v: int)
    requires i < |fields|
    ensures HoldsFrom(fields, i, LittleEndian(WidthOf(fields[i]), v) + b, i, v)
  {
    var first := LittleEndian(WidthOf(fields[i]), v);
    assert (first + b)[0..|first|] == first;
  }

  lemma {:induction false} BodyHoldsCounter<F>(s: Setting<F>, fields: seq<Field<F>>, i: nat, w: World<F>, c: nat)
    requires i <= c < |fields| && fields[c].source == Counter && Build(s, fields, i, w).0.Body?
    ensures HoldsFrom(fields, i, Build(s, fields, i, w).0.bytes, c, CounterValue(fields[c], c, w.counters))
    decreases |fields| - i
  {
    BuildCons(s, fields, i, w);
    var (r, w1) := Resolve(s, fields[i], i, w);
    var first, rest := LittleEndian(WidthOf(fields[i]), r.v), Build(s, fields, i + 1, w1).0.bytes;
    if i < c {
      OtherCounterKept(s, fields, i, w, c);
      BodyHoldsCounter(s, fields, i + 1, w1, c);
      HoldsFromCons(fields, i, first, rest, c, CounterValue(fields[c], c, w.counters));
    } else {
      HoldsFromHere(fields, i, rest, r.v);
    }
  }

  /** The packets that were really sent. */
  function Sent(ticks: seq<Ticked>): seq<seq<Byte>> {
    if ticks == [] then []
    else
      var rest, last := Sent(ticks[..|ticks| - 1]), ticks[|ticks| - 1];
      if last.sent && last.outcome.Body? then rest + [last.outcome.bytes] else rest
  }

  /** Field c of packet p holds v, truncated to the field's width. */
  ghost predicate Carries<F>(fields: seq<Field<F>>, c: nat, p: seq<Byte>, v: int)
    requires c < |fields|
  {
    HoldsFrom(fields, 0, p, c, v)
  }

  lemma SentAppend(ticks: seq<Ticked>, t: Ticked)
    ensures Sent(ticks + [t]) == if t.sent && t.outcome.Body? then Sent(ticks) + [t.outcome.bytes] else Sent(ticks)
  {
    assert (ticks + [t])[..|ticks|] == ticks;
  }

  /** Value number n of a counter field. */
  function Nth<F>(f: Field<F>, n: nat): int {
    if n == 0 then StartOf(f) else Nth(f, n - 1) + StepOf(f)
  }

  lemma {:induction false} NthIsLinear<F>(f: Field<F>, n: nat)
    ensures Nth(f, n) == StartOf(f) + n * StepOf(f)
  {
    if n > 0 {
      NthIsLinear(f, n - 1);
      assert n * StepOf(f) == (n - 1) * StepOf(f) + StepOf(f);
    }
  }

  lemma WidthBound<F>(f: Field<F>)
    ensures WidthOf(f) <= 8
  {
  }

  lemma WrapIsInvisible(width: nat, v: int)
    requires width <= 8
    ensures LittleEndian(width, Wrap64(v)) == LittleEndian(width, v)
  {
    var m := 0x1_0000_0000_0000_0000;
    assert Pow256(8) == m by {
      assert Pow256(4) == 0x1_0000_0000;
      assert Pow256(8) == 256 * (256 * (256 * (256 * Pow256(4))));
    }
    var k := (Wrap64(v) - v) / m;
    assert Wrap64(v) == v + k * m;
    LittleEndianWraps(width, v, k, 8);
  }

  lemma WrapAdd(a: int, b: int)
    ensures Wrap64(Wrap64(a) + b) == Wrap64(a + b)
  {
    var m := 0x1_0000_0000_0000_0000;
    var k := (Wrap64(a) - a) / m;
    assert Wrap64(a) == a + k * m;
    assert Wrap64(a) + b - MIN_INT64 == a + b - MIN_INT64 + k * m;
  }

  /** After n packets the counter stands at value n, and the packets carried values 0 to n - 1. */
  ghost predicate Counted<F>(fields: seq<Field<F>>, c: nat, sent: seq<seq<Byte>>, w: World<F>)
    requires c < |fields|
  {
    && CounterValue(fields[c], c, w.counters) == Wrap64(Nth(fields[c], |sent|))
    && forall k :: 0 <= k < |sent| ==> Carries(fields, c, sent[k], Nth(fields[c], k))
  }

  lemma RunSnoc<F>(s: Setting<F>, fields: seq<Field<F>>, w: World<F>, events: seq<TickEvent<F>>)
    requires events != []
    ensures var ran := Run(s, fields, w, events[..|events| - 1]);
            var now := TickOnce(s, fields, ran.1, events[|events| - 1]);
            Run(s, fields, w, events) == (ran.0 + [now.0], now.1)
  {
  }

  lemma {:induction false} CountedRun<F>(s: Setting<F>, fields: seq<Field<F>>, w: World<F>, events: seq<TickEvent<F>>, c: nat)
    requires c < |fields| && fields[c].source == Counter
    requires CounterValue(fields[c], c, w.counters) == Wrap64(StartOf(fields[c]))
    ensures Counted(fields, c, Sent(Run(s, fields, w, events).0), Run(s, fields, w, events).1)
    decreases |events|
  {
    if events != [] {
      var before, last := events[..|events| - 1], events[|events| - 1];
      CountedRun(s, fields, w, before, c);
      var ran := Run(s, fields, w, before);
      var now := TickOnce(s, fields, ran.1, last);
      RunSnoc(s, fields, w, events);
      CounterTick(s, fields, ran.1, last, c, |Sent(ran.0)|);
      SentAppend(ran.0, now.0);
      CountedNext(fields, c, Sent(ran.0), ran.1, now.0, now.1);
    }
  }

  lemma CountedNext<F>(fields: seq<Field<F>>, c: nat, sent: seq<seq<Byte>>, w: World<F>, tick: Ticked, w1: World<F>)
    requires c < |fields| && Counted(fields, c, sent, w)
    requires tick.sent ==> tick.outcome.Body? && Carries(fields, c, tick.outcome.bytes, Nth(fields[c], |sent|))
    requires CounterValue(fields[c], c, w1.counters) == Wrap64(Nth(fields[c], if tick.sent then |sent| + 1 else |sent|))
    ensures Counted(fields, c, if tick.sent && tick.outcome.Body? then sent + [tick.outcome.bytes] else sent, w1)
  {
    if tick.sent {
      OneMore(sent, tick.outcome.bytes, (p: seq<Byte>, k: nat) => Carries(fields, c, p, Nth(fields[c], k)));
    }
  }

  lemma OneMore<T>(sent: seq<T>, last: T, each: (T, nat) -> bool)
    requires (forall k :: 0 <= k < |sent| ==> each(sent[k], k)) && each(last, |sent|)
    ensures forall k :: 0 <= k < |sent + [last]| ==> each((sent + [last])[k], k)
  {
  }

  lemma CounterTick<F>(s: Setting<F>, fields: seq<Field<F>>, w: World<F>, ev: TickEvent<F>, c: nat, n: nat)
    requires c < |fields| && fields[c].source == Counter
    requires CounterValue(fields[c], c, w.counters) == Wrap64(Nth(fields[c], n))
    ensures var (tick, w1) := TickOnce(s, fields, w, ev);
            && (tick.sent ==> tick.outcome.Body? && Carries(fields, c, tick.outcome.bytes, Nth(fields[c], n)))
            && CounterValue(fields[c], c, w1.counters) == Wrap64(Nth(fields[c], if tick.sent then n + 1 else n))
  {
    var f := fields[c];
    var start := w.(store := ev.store);
    var (o, w1) := Build(s, fields, 0, start);
    BuildReadsCounter(s, fields, 0, start, c);
    if o.Body? && ev.encodes {
      BodyHoldsCounter(s, fields, 0, start, c);
      WidthBound(f);
      WrapIsInvisible(WidthOf(f), Nth(f, n));
      AdvanceMoves(fields, w1.counters, c, n);
    }
  }

  lemma AdvanceMoves<F>(fields: seq<Field<F>>, counters: map<nat, int>, c: nat, n: nat)
    requires c < |fields| && fields[c].source == Counter
    requires c in counters && counters[c] == Wrap64(Nth(fields[c], n))
    ensures CounterValue(fields[c], c, Advance(StepsUpTo(fields, |fields|), counters)) == Wrap64(Nth(fields[c], n + 1))
  {
    AdvanceOne(fields, |fields|, counters, c);
    WrapAdd(Nth(fields[c], n), StepOf(fields[c]));
  }

  /**
   * Counters over a whole run: skipped, failed and unencoded ticks do not count, and the packet
   * sent as number k (from 0) carries start + k * step.
   */
  lemma CounterSequence<F>(s: Setting<F>, fields: seq<Field<F>>, w: World<F>, events: seq<TickEvent<F>>, c: nat, k: nat)
    requires c < |fields| && fields[c].source == Counter
    requires CounterValue(fields[c], c, w.counters) == Wrap64(StartOf(fields[c]))
    requires k < |Sent(Run(s, fields, w, events).0)|
    ensures Carries(fields, c, Sent(Run(s, fields, w, events).0)[k], StartOf(fields[c]) + k * StepOf(fields[c]))
  {
    CountedRun(s, fields, w, events, c);
    NthIsLinear(fields[c], k);
  }

  // ---- exactly what compiles ----

  // What a compiled layout comes to is decided by the store before the tick. A key that an earlier
  // field counts up holds an integer by then; any other key is as it was.

  /** An earlier field counts this key up in the store. */
  predicate CountedBefore<F>(fields: seq<Field<F>>, k: nat, key: string)
    requires k <= |fields|
  {
    exists j :: 0 <= j < k && fields[j].source == StateCounter && fields[j].key == key
  }

  /** The type's conversion accepts the value. */
  predicate IsNumberFor<F>(fl: FloatOps<F>, t: Type, v: Value<F>) {
    if IsFloat(t) then ToFloat64Safe(fl, v).Some? else ToInt64Safe(fl, v).Some?
  }

  predicate MissesAt<F>(fields: seq<Field<F>>, k: nat, store: map<string, Value<F>>)
    requires k < |fields|
  {
    fields[k].source == State && !CountedBefore(fields, k, fields[k].key) && fields[k].key !in store
  }

  predicate ClashesAt<F>(fl: FloatOps<F>, fields: seq<Field<F>>, k: nat, store: map<string, Value<F>>)
    requires k < |fields|
  {
    && fields[k].source == State && !CountedBefore(fields, k, fields[k].key)
    && fields[k].key in store && !IsNumberFor(fl, fields[k].typ, store[fields[k].key])
  }

  /** Field k is the first whose state value is missing or not a number. */
  ghost predicate StopsAt<F>(fl: FloatOps<F>, fields: seq<Field<F>>, k: nat, store: map<string, Value<F>>) {
    && k < |fields|
    && (MissesAt(fields, k, store) || ClashesAt(fl, fields, k, store))
    && forall j :: 0 <= j < k ==> !MissesAt(fields, j, store) && !ClashesAt(fl, fields, j, store)
  }

  /** Before field i the store is the one of the start, but for the keys counted up on the way. */
  ghost predicate Reaches<F>(fields: seq<Field<F>>, i: nat, start: map<string, Value<F>>, store: map<string, Value<F>>)
    requires i <= |fields|
  {
    forall x :: if CountedBefore(fields, i, x) then x in store && store[x].Signed? && store[x].width == W64
                else (x in store <==> x in start) && (x in store ==> store[x] == start[x])
  }

  lemma ReachesNext<F>(s: Setting<F>, fields: seq<Field<F>>, i: nat, start: map<string, Value<F>>, w: World<F>)
    requires i < |fields| && FieldCompiles(fields[i]) && Reaches(fields, i, start, w.store)
    ensures Reaches(fields, i + 1, start, Resolve(s, fields[i], i, w).1.store)
  {
    var after := Resolve(s, fields[i], i, w).1.store;
    forall x
      ensures if CountedBefore(fields, i + 1, x) then x in after && after[x].Signed? && after[x].width == W64
              else (x in after <==> x in start) && (x in after ==> after[x] == start[x])
    {
      assert CountedBefore(fields, i + 1, x) <==> CountedBefore(fields, i, x) || (fields[i].source == StateCounter && fields[i].key == x);
    }
  }

  lemma ResolveDecided<F>(s: Setting<F>, fields: seq<Field<F>>, i: nat, start: map<string, Value<F>>, w: World<F>)
    requires i < |fields| && FieldCompiles(fields[i]) && Reaches(fields, i, start, w.store)
    ensures var r := Resolve(s, fields[i], i, w).0;
            if MissesAt(fields, i, start) then r == if s.skipWhenMissing then Skip else Error(StateMissing(fields[i].key))
            else if ClashesAt(s.fl, fields, i, start) then r == Error(StateNotNumeric(fields[i].key))
            else r.Got?
  {
  }

  /** What stopping at field k comes to. */
  function StopOutcome<F>(s: Setting<F>, fields: seq<Field<F>>, k: nat, store: map<string, Value<F>>): Outcome
    requires k < |fields|
  {
    if ClashesAt(s.fl, fields, k, store) then Failed(StateNotNumeric(fields[k].key))
    else if s.skipWhenMissing then Skipped
    else Failed(StateMissing(fields[k].key))
  }

  lemma {:induction false} BuildDecided<F>(s: Setting<F>, fields: seq<Field<F>>, i: nat, start: map<string, Value<F>>, w: World<F>)
    requires i <= |fields| && Compiles(fields) && Reaches(fields, i, start, w.store)
    requires forall j :: 0 <= j < i ==> !MissesAt(fields, j, start) && !ClashesAt(s.fl, fields, j, start)
    ensures Build(s, fields, i, w).0.Body? || exists k :: StopsAt(s.fl, fields, k, start)
    ensures forall k :: StopsAt(s.fl, fields, k, start) ==> Build(s, fields, i, w).0 == StopOutcome(s, fields, k, start)
    decreases |fields| - i
  {
    if i < |fields| {
      assert FieldCompiles(fields[i]);
      ResolveDecided(s, fields, i, start, w);
      if MissesAt(fields, i, start) || ClashesAt(s.fl, fields, i, start) {
        assert StopsAt(s.fl, fields, i, start);
      } else {
        ReachesNext(s, fields, i, start, w);
        BuildDecided(s, fields, i + 1, start, Resolve(s, fields[i], i, w).1);
      }
    }
  }

  /**
   * A compiled layout, decided before the tick by the store alone: it fails exactly when the first
   * state field in trouble holds no number, or is missing without the skip option, with that field's
   * key in the error; it skips exactly when that field is missing with the option; otherwise it builds.
   */
  lemma CompiledOutcome<F>(s: Setting<F>, fields: seq<Field<F>>, w: World<F>)
    requires Compiles(fields)
    ensures var o := Build(s, fields, 0, w).0;
            && (o.Failed? <==> exists k :: StopsAt(s.fl, fields, k, w.store) && (ClashesAt(s.fl, fields, k, w.store) || !s.skipWhenMissing))
            && (o.Skipped? <==> exists k :: StopsAt(s.fl, fields, k, w.store) && MissesAt(fields, k, w.store) && s.skipWhenMissing)
            && (o.Body? <==> forall k :: 0 <= k < |fields| ==> !MissesAt(fields, k, w.store) && !ClashesAt(s.fl, fields, k, w.store))
            && forall k :: StopsAt(s.fl, fields, k, w.store) ==> o == StopOutcome(s, fields, k, w.store)
  {
    BuildDecided(s, fields, 0, w.store, w);
    FirstStop(s.fl, fields, w.store);
  }

  lemma FirstStop<F>(fl: FloatOps<F>, fields: seq<Field<F>>, store: map<string, Value<F>>)
    ensures (exists k :: StopsAt(fl, fields, k, store))
       <==> exists k :: 0 <= k < |fields| && (MissesAt(fields, k, store) || ClashesAt(fl, fields, k, store))
  {
    if n :| 0 <= n < |fields| && (MissesAt(fields, n, store) || ClashesAt(fl, fields, n, store)) {
      var k := 0;
      while !MissesAt(fields, k, store) && !ClashesAt(fl, fields, k, store)
        invariant k <= n
        invariant forall j :: 0 <= j < k ==> !MissesAt(fields, j, store) && !ClashesAt(fl, fields, j, store)
        decreases n - k
      {
        k := k + 1;
      }
      assert StopsAt(fl, fields, k, store);
    }
  }

  /** Compiled layouts do fail: on a value that is no number even with the skip option, and on a missing key without it. */
  lemma CompiledCanFail<F>(s: Setting<F>, w: World<F>, key: string)
    requires key != ""
    ensures var fields := [Field(U8, State, None, None, key, None, None, None, None, false)];
            && Compiles(fields)
            && Build(s, fields, 0, w.(store := map[key := Opaque(0)])).0 == Failed(StateNotNumeric(key))
            && Build(s, fields, 0, w.(store := map[])).0 == if s.skipWhenMissing then Skipped else Failed(StateMissing(key))
  {
    var fields: seq<Field<F>> := [Field(U8, State, None, None, key, None, None, None, None, false)];
    var clash, miss := map[key := Opaque(0)], map[];
    assert Compiles(fields);
    CompiledOutcome(s, fields, w.(store := clash));
    CompiledOutcome(s, fields, w.(store := miss));
    assert StopsAt(s.fl, fields, 0, clash) && StopsAt(s.fl, fields, 0, miss);
  }

  lemma ResolvedFieldCompiles<F>(s: Setting<F>, f: Field<F>, idx: nat, w: World<F>)
    requires Resolve(s, f, idx, w).0.Got? && Heartbeat.Width(f.typ).Some?
    ensures FieldCompiles(f)
  {
  }

  lemma {:induction false} BuiltFieldsCompile<F>(s: Setting<F>, fields: seq<Field<F>>, i: nat, w: World<F>, k: nat)
    requires i <= k < |fields| && Build(s, fields, i, w).0.Body?
    ensures FieldCompiles(fields[k])
    decreases |fields| - i
  {
    if i == k {
      ResolvedFieldCompiles(s, fields[i], i, w);
    } else {
      BuiltFieldsCompile(s, fields, i + 1, Resolve(s, fields[i], i, w).1, k);
    }
  }

  function KeysUpTo<F>(fields: seq<Field<F>>, i: nat): map<string, Value<F>>
    requires i <= |fields|
  {
    if i == 0 then map[] else KeysUpTo(fields, i - 1)[fields[i - 1].key := Signed(W64, 0)]
  }

  lemma {:induction false} KeysSupply<F>(fields: seq<Field<F>>, i: nat, k: nat)
    requires k < i <= |fields|
    ensures fields[k].key in KeysUpTo(fields, i)
    ensures forall x :: x in KeysUpTo(fields, i) ==> KeysUpTo(fields, i)[x] == Signed(W64, 0)
    decreases i
  {
    if k < i - 1 {
      KeysSupply(fields, i - 1, k);
    } else if i > 1 {
      KeysSupply(fields, i - 1, 0);
    }
  }

  /** A field list compiles if and only if the simple builder can make a body of it at all. */
  lemma CompilesExactly<F>(s: Setting<F>, fields: seq<Field<F>>)
    ensures Compiles(fields) <==> exists w: World<F> :: Build(s, fields, 0, w).0.Body?
  {
    if Compiles(fields) {
      var store := KeysUpTo(fields, |fields|);
      var w := World(store, map[], 0);
      forall k | 0 <= k < |fields| ensures fields[k].key in store && store[fields[k].key] == Signed(W64, 0) {
        KeysSupply(fields, |fields|, k);
      }
      CompiledOutcome(s, fields, w);
    }
    if w: World<F> :| Build(s, fields, 0, w).0.Body? {
      forall k | 0 <= k < |fields| ensures FieldCompiles(fields[k]) {
        BuiltFieldsCompile(s, fields, 0, w, k);
      }
    }
  }
}

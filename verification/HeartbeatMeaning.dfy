/**
 * What the bytes of a built heartbeat are, field by field and from the store, counters and stream the
 * tick started with.
 */
module HeartbeatMeaning {
  import opened Values
  import opened Bytes
  import opened Heartbeat
  import opened HeartbeatRuns

  // ---- what a tick starts with and moves ----

  /** The earlier fields that count this key up. */
  function Ups<F>(fields: seq<Field<F>>, k: nat, key: string): nat
    requires k <= |fields|
  {
    if k == 0 then 0
    else
      var f := fields[k - 1];
      Ups(fields, k - 1, key) + if !IsFloat(f.typ) && f.source == StateCounter && f.key == key then 1 else 0
  }

  /** The earlier fields that read the clock or draw a number. */
  function Reads<F>(fields: seq<Field<F>>, k: nat): nat
    requires k <= |fields|
  {
    if k == 0 then 0
    else
      var f := fields[k - 1];
      Reads(fields, k - 1) + if !IsFloat(f.typ) && (f.source == Timestamp || f.source == RandomInt) then 1 else 0
  }

  /** The integer a store value counts as, if it is one: 8- and 16-bit integers are not, floats, bools and numerals are. */
  function Integer<F>(fl: FloatOps<F>, v: Value<F>): Option<int> {
    match v
    case Signed(Machine, i) => Some(i)
    case Signed(W32, i) => Some(i)
    case Signed(W64, i) => Some(i)
    case Unsigned(Machine, u) => if u <= MAX_INT64 then Some(u) else None
    case Unsigned(W32, u) => if u <= MAX_INT64 then Some(u) else None
    case Unsigned(W64, u) => if u <= MAX_INT64 then Some(u) else None
    case Float(f) => Some(fl.toInt(f))
    case Bool(true) => Some(1)
    case Bool(false) => Some(0)
    case Text(s) => ParseInt64(TrimSpace(s))
    case _ => None
  }

  /** The integer under a key, zero if there is none. */
  function Base<F>(fl: FloatOps<F>, store: map<string, Value<F>>, key: string): int {
    if key in store && Integer(fl, store[key]).Some? then Integer(fl, store[key]).value else 0
  }

  /** An int64 congruent to n modulo 2^64. */
  predicate Wraps(v: int, n: int) {
    IsInt64(v) && (v - n) % 0x1_0000_0000_0000_0000 == 0
  }

  /** A key after n increments: untouched if none, else an int64 that is n more than it was. */
  ghost predicate CountedTo<F>(fl: FloatOps<F>, start: map<string, Value<F>>, key: string, n: nat, store: map<string, Value<F>>) {
    if n == 0 then (key in store <==> key in start) && (key in store ==> store[key] == start[key])
    else key in store && store[key].Signed? && store[key].width == W64 && Wraps(store[key].i, Base(fl, start, key) + n)
  }

  ghost predicate KeyMoved<F>(fl: FloatOps<F>, fields: seq<Field<F>>, k: nat, start: map<string, Value<F>>, key: string, store: map<string, Value<F>>)
    requires k <= |fields|
  {
    CountedTo(fl, start, key, Ups(fields, k, key), store)
  }

  /** The world before field k. */
  ghost predicate Moved<F>(fl: FloatOps<F>, fields: seq<Field<F>>, k: nat, start: World<F>, w: World<F>)
    requires k <= |fields|
  {
    && (forall x :: KeyMoved(fl, fields, k, start.store, x, w.store))
    && w.draws == start.draws + Reads(fields, k)
    && (forall c: nat :: c >= k ==> (c in w.counters <==> c in start.counters) && (c in w.counters ==> w.counters[c] == start.counters[c]))
  }

  // ---- what a field is worth ----

  /** The bytes a type takes. */
  predicate TakesBytes(t: Type, n: nat) {
    match t
    case U8 => n == 1
    case I8 => n == 1
    case U16 => n == 2
    case I16 => n == 2
    case U32 => n == 4
    case I32 => n == 4
    case F32 => n == 4
    case U64 => n == 8
    case I64 => n == 8
    case F64 => n == 8
    case OtherType(_) => false
  }

  /** A float field carries the bit pattern of its width. */
  predicate Bits<F>(fl: FloatOps<F>, t: Type, f: F, v: int) {
    (t == F32 ==> v == fl.bits32(f)) && (t == F64 ==> v == fl.bits64(f))
  }

  /** The float of a numeric store value. */
  function FloatOf<F>(fl: FloatOps<F>, v: Value<F>): Option<F> {
    match v
    case Signed(Machine, i) => Some(fl.ofInt(i))
    case Signed(W32, i) => Some(fl.ofInt(i))
    case Signed(W64, i) => Some(fl.ofInt(i))
    case Unsigned(Machine, u) => Some(fl.ofInt(u))
    case Unsigned(W32, u) => Some(fl.ofInt(u))
    case Unsigned(W64, u) => Some(fl.ofInt(u))
    case Float(f) => Some(f)
    case _ => None
  }

  ghost predicate FloatFieldMeans<F>(s: Setting<F>, fields: seq<Field<F>>, k: nat, start: World<F>, v: int)
    requires k < |fields|
  {
    var f := fields[k];
    match f.source
    case Fixed => f.floatValue.Some? && Bits(s.fl, f.typ, f.floatValue.value, v)
    case State =>
      if Ups(fields, k, f.key) == 0
      then f.key in start.store && FloatOf(s.fl, start.store[f.key]).Some? && Bits(s.fl, f.typ, FloatOf(s.fl, start.store[f.key]).value, v)
      else exists n :: Wraps(n, Base(s.fl, start.store, f.key) + Ups(fields, k, f.key)) && Bits(s.fl, f.typ, s.fl.ofInt(n), v)
    case _ => false
  }

  ghost predicate FieldMeans<F>(s: Setting<F>, fields: seq<Field<F>>, k: nat, start: World<F>, v: int)
    requires k < |fields|
  {
    var f := fields[k];
    var ups := Ups(fields, k, f.key);
    if IsFloat(f.typ) then FloatFieldMeans(s, fields, k, start, v)
    else
      match f.source
      case Fixed => f.value == Some(v)
      case State =>
        if ups == 0 then f.key in start.store && Integer(s.fl, start.store[f.key]) == Some(v)
        else Wraps(v, Base(s.fl, start.store, f.key) + ups)
      case StateCounter => Wraps(v, Base(s.fl, start.store, f.key) + ups + 1)
      case Counter => v == if k in start.counters then start.counters[k] else if f.start.Some? then f.start.value else 0
      case Timestamp =>
        var reading := s.stream(start.draws + Reads(fields, k));
        v == if f.inSeconds then reading / 1000 else reading
      case RandomInt =>
        && f.min.Some? && f.max.Some? && f.min.value <= v <= f.max.value
        && v == f.min.value + s.stream(start.draws + Reads(fields, k)) % (f.max.value - f.min.value + 1)
      case OtherSource(_) => false
  }

  // ---- proofs ----

  lemma IntegerIsSafe<F>(fl: FloatOps<F>, v: Value<F>)
    ensures ToInt64Safe(fl, v) == Integer(fl, v)
  {
  }

  lemma WrapsOn(a: int, n: int)
    ensures Wraps(Wrap64(a), a)
    ensures Wraps(a, n) ==> Wraps(Wrap64(a + 1), n + 1)
  {
    var m := 0x1_0000_0000_0000_0000;
    if Wraps(a, n) {
      var k, j := (a - n) / m, (Wrap64(a + 1) - (a + 1)) / m;
      assert Wrap64(a + 1) - (n + 1) == m * (k + j);
    }
  }

  lemma MovedStart<F>(fl: FloatOps<F>, fields: seq<Field<F>>, w: World<F>)
    ensures Moved(fl, fields, 0, w, w)
  {
  }

  /** One increment of a key that was counted up n times makes it n + 1. */
  lemma IncrementCounts<F>(fl: FloatOps<F>, start: map<string, Value<F>>, key: string, n: nat, store: map<string, Value<F>>)
    requires CountedTo(fl, start, key, n, store)
    ensures Wraps(Increment(fl, store, key), Base(fl, start, key) + n + 1)
  {
    if key in store {
      IntegerIsSafe(fl, store[key]);
    }
    if n == 0 {
      WrapsOn(Base(fl, start, key) + 1, 0);
    } else {
      WrapsOn(store[key].i, Base(fl, start, key) + n);
    }
  }

  lemma KeyMovesOn<F>(s: Setting<F>, fields: seq<Field<F>>, k: nat, start: World<F>, w: World<F>, key: string)
    requires k < |fields| && KeyMoved(s.fl, fields, k, start.store, key, w.store) && Resolve(s, fields[k], k, w).0.Got?
    ensures KeyMoved(s.fl, fields, k + 1, start.store, key, Resolve(s, fields[k], k, w).1.store)
  {
    var f := fields[k];
    if !IsFloat(f.typ) && f.source == StateCounter && key == f.key {
      IncrementCounts(s.fl, start.store, key, Ups(fields, k, key), w.store);
    }
  }

  lemma MovedNext<F>(s: Setting<F>, fields: seq<Field<F>>, k: nat, start: World<F>, w: World<F>)
    requires k < |fields| && Moved(s.fl, fields, k, start, w) && Resolve(s, fields[k], k, w).0.Got?
    ensures Moved(s.fl, fields, k + 1, start, Resolve(s, fields[k], k, w).1)
  {
    var n, w1 := k + 1, Resolve(s, fields[k], k, w).1;
    forall x ensures KeyMoved(s.fl, fields, n, start.store, x, w1.store) {
      assert KeyMoved(s.fl, fields, k, start.store, x, w.store);
      KeyMovesOn(s, fields, k, start, w, x);
    }
  }

  lemma FloatResolvedMeans<F>(s: Setting<F>, fields: seq<Field<F>>, k: nat, start: World<F>, w: World<F>)
    requires k < |fields| && Moved(s.fl, fields, k, start, w) && IsFloat(fields[k].typ) && Resolve(s, fields[k], k, w).0.Got?
    ensures FloatFieldMeans(s, fields, k, start, Resolve(s, fields[k], k, w).0.v)
  {
    var f := fields[k];
    if f.source == State {
      assert KeyMoved(s.fl, fields, k, start.store, f.key, w.store);
      assert ToFloat64Safe(s.fl, w.store[f.key]) == FloatOf(s.fl, w.store[f.key]);
    }
  }

  lemma ResolvedMeans<F>(s: Setting<F>, fields: seq<Field<F>>, k: nat, start: World<F>, w: World<F>)
    requires k < |fields| && Moved(s.fl, fields, k, start, w) && Resolve(s, fields[k], k, w).0.Got?
    ensures FieldMeans(s, fields, k, start, Resolve(s, fields[k], k, w).0.v)
  {
    var f := fields[k];
    assert KeyMoved(s.fl, fields, k, start.store, f.key, w.store);
    if IsFloat(f.typ) {
      FloatResolvedMeans(s, fields, k, start, w);
    } else if f.source == State {
      IntegerIsSafe(s.fl, w.store[f.key]);
    } else if f.source == StateCounter {
      IncrementCounts(s.fl, start.store, f.key, Ups(fields, k, f.key), w.store);
    }
  }

  lemma {:induction false} BuiltMeans<F>(s: Setting<F>, fields: seq<Field<F>>, i: nat, start: World<F>, w: World<F>, k: nat) returns (v: int)
    requires i <= k < |fields| && Moved(s.fl, fields, i, start, w) && Build(s, fields, i, w).0.Body?
    ensures HoldsFrom(fields, i, Build(s, fields, i, w).0.bytes, k, v) && FieldMeans(s, fields, k, start, v)
    decreases |fields| - i
  {
    BuildCons(s, fields, i, w);
    var (r, w1) := Resolve(s, fields[i], i, w);
    var first, rest := LittleEndian(WidthOf(fields[i]), r.v), Build(s, fields, i + 1, w1).0.bytes;
    if i < k {
      MovedNext(s, fields, i, start, w);
      v := BuiltMeans(s, fields, i + 1, start, w1, k);
      HoldsFromCons(fields, i, first, rest, k, v);
    } else {
      ResolvedMeans(s, fields, i, start, w);
      HoldsFromHere(fields, i, rest, r.v);
      v := r.v;
    }
  }

  lemma {:induction false} BuiltMoves<F>(s: Setting<F>, fields: seq<Field<F>>, i: nat, start: World<F>, w: World<F>)
    requires i <= |fields| && Moved(s.fl, fields, i, start, w) && Build(s, fields, i, w).0.Body?
    ensures Moved(s.fl, fields, |fields|, start, Build(s, fields, i, w).1)
    decreases |fields| - i
  {
    if i < |fields| {
      BuildCons(s, fields, i, w);
      MovedNext(s, fields, i, start, w);
      BuiltMoves(s, fields, i + 1, start, Resolve(s, fields[i], i, w).1);
    }
  }

  // ---- the promises ----

  /** Field k of the bytes b holds the little-endian bytes of v, as many as its type takes, behind those of the fields before it. */
  ghost predicate Holds<F>(fields: seq<Field<F>>, k: nat, b: seq<Byte>, v: int)
    requires k < |fields|
  {
    var off, end := Offset(fields, k), Offset(fields, k + 1);
    off <= end <= |b| && TakesBytes(fields[k].typ, end - off) && b[off..end] == LittleEndian(end - off, v)
  }

  /** Every field of every body that is built carries what its source says. */
  lemma BodyMeans<F>(s: Setting<F>, fields: seq<Field<F>>, w: World<F>, k: nat) returns (v: int)
    requires k < |fields| && Build(s, fields, 0, w).0.Body?
    ensures Holds(fields, k, Build(s, fields, 0, w).0.bytes, v) && FieldMeans(s, fields, k, w, v)
  {
    MovedStart(s.fl, fields, w);
    v := BuiltMeans(s, fields, 0, w, w, k);
    BuiltFieldsCompile(s, fields, 0, w, k);
  }

  /** Nothing but the fields' bytes is in the body, which starts with field 0. */
  lemma {:induction false} BodyIsFull<F>(s: Setting<F>, fields: seq<Field<F>>, i: nat, w: World<F>)
    requires i <= |fields| && Build(s, fields, i, w).0.Body?
    ensures Offset(fields, 0) == 0 && |Build(s, fields, i, w).0.bytes| == Offset(fields, |fields|) - Offset(fields, i)
    decreases |fields| - i
  {
    if i < |fields| {
      BuildCons(s, fields, i, w);
      BodyIsFull(s, fields, i + 1, Resolve(s, fields[i], i, w).1);
    }
  }

  /** After a built body every key stands as many higher as fields count it up, and as many readings are used as fields take one. */
  lemma StoreMeans<F>(s: Setting<F>, fields: seq<Field<F>>, w: World<F>, key: string)
    requires Build(s, fields, 0, w).0.Body?
    ensures var after := Build(s, fields, 0, w).1;
            CountedTo(s.fl, w.store, key, Ups(fields, |fields|, key), after.store) && after.draws == w.draws + Reads(fields, |fields|)
  {
    MovedStart(s.fl, fields, w);
    BuiltMoves(s, fields, 0, w, w);
    assert KeyMoved(s.fl, fields, |fields|, w.store, key, Build(s, fields, 0, w).1.store);
  }

  /** The packets sent in a run carry a counter field's start, then one step more each time, nothing in between. */
  lemma CounterPackets<F>(s: Setting<F>, fields: seq<Field<F>>, w: World<F>, events: seq<TickEvent<F>>, c: nat, sent: seq<seq<Byte>>, k: nat)
    requires c < |fields| && fields[c].source == Counter && !fields[c].typ.OtherType?
    requires c !in w.counters && (fields[c].start.Some? ==> IsInt64(fields[c].start.value))
    requires sent == Sent(Run(s, fields, w, events).0) && k < |sent|
    ensures Holds(fields, c, sent[k], (if fields[c].start.Some? then fields[c].start.value else 0)
                                      + k * if fields[c].step.Some? then fields[c].step.value else 1)
  {
    CounterSequence(s, fields, w, events, c, k);
    CarriedIsHeld(fields, c, sent[k], StartOf(fields[c]) + k * StepOf(fields[c]));
  }

  lemma CarriedIsHeld<F>(fields: seq<Field<F>>, c: nat, p: seq<Byte>, v: int)
    requires c < |fields| && Carries(fields, c, p, v) && !fields[c].typ.OtherType?
    ensures Holds(fields, c, p, v)
  {
  }

  /** Every number of a random field's range is drawn for some stream. */
  lemma EveryNumberIsDrawable<F>(s: Setting<F>, fields: seq<Field<F>>, w: World<F>, k: nat, m: int) returns (t: Setting<F>)
    requires k < |fields| && Build(s, fields, 0, w).0.Body? && !IsFloat(fields[k].typ) && fields[k].source == RandomInt
    requires fields[k].min.Some? && fields[k].max.Some? && fields[k].min.value <= m <= fields[k].max.value
    ensures t.fl == s.fl && t.skipWhenMissing == s.skipWhenMissing
    ensures Build(t, fields, 0, w).0.Body? && Holds(fields, k, Build(t, fields, 0, w).0.bytes, m)
  {
    var offset := m - fields[k].min.value;
    t := s.(stream := _ => offset);
    forall j | 0 <= j < |fields| ensures FieldCompiles(fields[j]) {
      BuiltFieldsCompile(s, fields, 0, w, j);
    }
    CompiledOutcome(s, fields, w);
    CompiledOutcome(t, fields, w);
    var v := BodyMeans(t, fields, w, k);
    SmallMod(offset, fields[k].max.value - fields[k].min.value + 1);
  }

  lemma SmallMod(x: int, n: int)
    requires 0 <= x < n
    ensures x % n == x
  {
  }

  /** What a field list must give to compile, field by field. */
  lemma CompilesMeans<F>(f: Field<F>)
    ensures FieldCompiles(f) <==>
            && !f.typ.OtherType?
            && match f.source
               case Fixed => if IsFloat(f.typ) then f.floatValue.Some? else f.value.Some?
               case State => f.key != ""
               case StateCounter => !IsFloat(f.typ) && f.key != ""
               case Counter => !IsFloat(f.typ)
               case Timestamp => !IsFloat(f.typ)
               case RandomInt => !IsFloat(f.typ) && f.min.Some? && f.max.Some? && f.min.value <= f.max.value
               case OtherSource(_) => false
  {
  }

  /** Every packet a run sends carries what its fields' sources say, by the store, counters and stream its tick started with. */
  lemma PacketMeans<F>(s: Setting<F>, fields: seq<Field<F>>, w: World<F>, ev: TickEvent<F>, k: nat) returns (v: int)
    requires k < |fields| && TickOnce(s, fields, w, ev).0.sent
    ensures ev.encodes && TickOnce(s, fields, w, ev).0.outcome.Body?
    ensures Holds(fields, k, TickOnce(s, fields, w, ev).0.outcome.bytes, v) && FieldMeans(s, fields, k, w.(store := ev.store), v)
  {
    v := BodyMeans(s, fields, w.(store := ev.store), k);
  }
}

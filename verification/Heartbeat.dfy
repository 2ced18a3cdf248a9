/**
 * Raw-binary heartbeats: the field-by-field builder and the compiled layout that replaces it.
 *
 * `Build` is the value of the simple builder, which appends one field after another. The compiled
 * `Plan` owns a buffer with the fixed fields already written and overwrites only the others, in the
 * same buffer on every tick.
 */
module Heartbeat {
  import opened Values
  import opened Bytes

  datatype Type = U8 | I8 | U16 | I16 | U32 | I32 | U64 | I64 | F32 | F64 | OtherType(name: string)

  datatype Source = Fixed | State | StateCounter | Counter | Timestamp | RandomInt | OtherSource(text: string)

  datatype Field<F> = Field(
    typ: Type,
    source: Source,
    value: Option<int>,
    floatValue: Option<F>,
    key: string,
    min: Option<int>,
    max: Option<int>,
    start: Option<int>,
    step: Option<int>,
    inSeconds: bool)

  function Width(t: Type): Option<nat> {
    match t
    case U8 => Some(1)
    case I8 => Some(1)
    case U16 => Some(2)
    case I16 => Some(2)
    case U32 => Some(4)
    case I32 => Some(4)
    case F32 => Some(4)
    case U64 => Some(8)
    case I64 => Some(8)
    case F64 => Some(8)
    case OtherType(_) => None
  }

  predicate IsFloat(t: Type) {
    t.F32? || t.F64?
  }

  // ---- store values as numbers ----

  function ToInt64Safe<F>(fl: FloatOps<F>, v: Value<F>): Option<int> {
    match v
    case Signed(w, i) => if w == W8 || w == W16 then None else Some(i)
    case Unsigned(w, u) => if w == W8 || w == W16 || u > MAX_INT64 then None else Some(u)
    case Float(f) => Some(fl.toInt(f))
    case Bool(b) => Some(if b then 1 else 0)
    case Text(s) => ParseInt64(TrimSpace(s))
    case Opaque(_) => None
  }

  function ToFloat64Safe<F>(fl: FloatOps<F>, v: Value<F>): Option<F> {
    match v
    case Signed(w, i) => if w == W8 || w == W16 then None else Some(fl.ofInt(i))
    case Unsigned(w, u) => if w == W8 || w == W16 then None else Some(fl.ofInt(u))
    case Float(f) => Some(f)
    case _ => None
  }

  // ---- resolving one field ----

  // What a tick reads and changes: the shared store, the private counters, and how many values
  // have been taken from the stream of clock readings and random draws.
  datatype World<F> = World(store: map<string, Value<F>>, counters: map<nat, int>, draws: nat)

  // Everything outside the world: float operations, the stream, and the skip-when-missing switch.
  datatype Setting<!F> = Setting(fl: FloatOps<F>, stream: nat -> int, skipWhenMissing: bool)

  datatype HeartbeatError =
    | UnknownType
    | UnknownSource
    | FloatSource
    | MissingValue
    | MissingKey
    | MissingRange
    | EmptyRange
    | StateMissing(key: string)
    | StateNotNumeric(key: string)

  datatype Resolved = Got(v: int) | Skip | Error(error: HeartbeatError)

  function Increment<F>(fl: FloatOps<F>, store: map<string, Value<F>>, key: string): int {
    var got := if key in store then ToInt64Safe(fl, store[key]) else None;
    Wrap64((if got.Some? then got.value else 0) + 1)
  }

  function ResolveFloat<F>(s: Setting<F>, f: Field<F>, w: World<F>): Resolved
    requires IsFloat(f.typ)
  {
    match f.source
    case Fixed =>
      if f.floatValue.None? then Error(MissingValue) else FloatBits(s.fl, f.typ, f.floatValue.value)
    case State =>
      if f.key == "" then Error(MissingKey)
      else if f.key !in w.store then
        if s.skipWhenMissing then Skip else Error(StateMissing(f.key))
      else
        var got := ToFloat64Safe(s.fl, w.store[f.key]);
        if got.None? then Error(StateNotNumeric(f.key)) else FloatBits(s.fl, f.typ, got.value)
    case _ => Error(FloatSource)
  }

  function FloatBits<F>(fl: FloatOps<F>, t: Type, f: F): Resolved {
    Got(if t == F32 then fl.bits32(f) else fl.bits64(f))
  }

  /** The value of field number idx, and the world after reading it. */
  function Resolve<F>(s: Setting<F>, f: Field<F>, idx: nat, w: World<F>): (Resolved, World<F>) {
    if IsFloat(f.typ) then
      (ResolveFloat(s, f, w), w)
    else
      match f.source
      case Fixed =>
        (if f.value.None? then Error(MissingValue) else Got(f.value.value), w)
      case State =>
        var r :=
          if f.key == "" then Error(MissingKey)
          else if f.key !in w.store then
            if s.skipWhenMissing then Skip else Error(StateMissing(f.key))
          else
            var got := ToInt64Safe(s.fl, w.store[f.key]);
            if got.None? then Error(StateNotNumeric(f.key)) else Got(got.value);
        (r, w)
      case StateCounter =>
        if f.key == "" then (Error(MissingKey), w)
        else
          var v := Increment(s.fl, w.store, f.key);
          (Got(v), w.(store := w.store[f.key := Signed(W64, v)]))
      case Counter =>
        var v := CounterValue(f, idx, w.counters);
        (Got(v), w.(counters := w.counters[idx := v]))
      case Timestamp =>
        var ms := s.stream(w.draws);
        (Got(if f.inSeconds then ms / 1000 else ms), w.(draws := w.draws + 1))
      case RandomInt =>
        if f.min.None? || f.max.None? then (Error(MissingRange), w)
        else if f.min.value > f.max.value then (Error(EmptyRange), w)
        else
          var span := f.max.value - f.min.value + 1;
          (Got(f.min.value + s.stream(w.draws) % span), w.(draws := w.draws + 1))
      case OtherSource(_) => (Error(UnknownSource), w)
  }

  /** A private counter not yet initialised counts from the field's start. */
  function CounterValue<F>(f: Field<F>, idx: nat, counters: map<nat, int>): int {
    if idx in counters then counters[idx] else if f.start.Some? then f.start.value else 0
  }

  // ---- the simple builder ----

  function WidthOf<F>(f: Field<F>): nat {
    var w := Width(f.typ);
    if w.Some? then w.value else 0
  }

  datatype Outcome = Body(bytes: seq<Byte>) | Skipped | Failed(error: HeartbeatError)

  function Prepend(bytes: seq<Byte>, o: Outcome): Outcome {
    if o.Body? then Body(bytes + o.bytes) else o
  }

  /** Building fields i and up. */
  function Build<F>(s: Setting<F>, fields: seq<Field<F>>, i: nat, w: World<F>): (Outcome, World<F>)
    requires i <= |fields|
    decreases |fields| - i
  {
    if i == |fields| then
      (Body([]), w)
    else
      var (r, w1) := Resolve(s, fields[i], i, w);
      match r
      case Error(err) => (Failed(err), w1)
      case Skip => (Skipped, w1)
      case Got(v) =>
        match Width(fields[i].typ)
        case None => (Failed(UnknownType), w1)
        case Some(width) =>
          var (rest, w2) := Build(s, fields, i + 1, w1);
          (Prepend(LittleEndian(width, v), rest), w2)
  }

  class Environment<F> {
    const setting: Setting<F>
    var store: map<string, Value<F>>
    var counters: map<nat, int>
    var draws: nat

    constructor (setting: Setting<F>, w: World<F>)
      ensures this.setting == setting && Now() == w
    {
      this.setting := setting;
      store, counters, draws := w.store, w.counters, w.draws;
    }

    function Now(): World<F>
      reads this
    {
      World(store, counters, draws)
    }

    /** The value of an integer field; counters, the store and the stream move on in place. */
    method ResolveField(f: Field<F>, idx: nat) returns (r: Resolved)
      modifies this
      ensures (r, Now()) == Resolve(setting, f, idx, old(Now()))
    {
      if IsFloat(f.typ) {
        r := ResolveFloatField(f);
        return;
      }
      match f.source {
        case Fixed =>
          if f.value.None? {
            return Error(MissingValue);
          }
          r := Got(f.value.value);
        case State =>
          if f.key == "" {
            return Error(MissingKey);
          }
          if f.key !in store {
            if setting.skipWhenMissing {
              return Skip;
            }
            return Error(StateMissing(f.key));
          }
          var got := ToInt64Safe(setting.fl, store[f.key]);
          if got.None? {
            return Error(StateNotNumeric(f.key));
          }
          r := Got(got.value);
        case StateCounter =>
          if f.key == "" {
            return Error(MissingKey);
          }
          var v := IncrementKey(f.key);
          r := Got(v);
        case Counter =>
          var v := 0;
          if idx in counters {
            v := counters[idx];
          } else {
            if f.start.Some? {
              v := f.start.value;
            }
            counters := counters[idx := v];
          }
          assert counters == old(counters)[idx := v];
          r := Got(v);
        case Timestamp =>
          var ms := Draw();
          r := Got(if f.inSeconds then ms / 1000 else ms);
        case RandomInt =>
          if f.min.None? || f.max.None? {
            return Error(MissingRange);
          }
          var lo, hi := f.min.value, f.max.value;
          if lo > hi {
            return Error(EmptyRange);
          }
          var offset := Draw();
          r := Got(lo + offset % (hi - lo + 1));
        case OtherSource(_) =>
          r := Error(UnknownSource);
      }
    }

    method ResolveFloatField(f: Field<F>) returns (r: Resolved)
      requires IsFloat(f.typ)
      ensures r == ResolveFloat(setting, f, Now())
    {
      var value: Option<F> := None;
      match f.source {
        case Fixed =>
          if f.floatValue.None? {
            return Error(MissingValue);
          }
          value := f.floatValue;
        case State =>
          if f.key == "" {
            return Error(MissingKey);
          }
          if f.key !in store {
            return if setting.skipWhenMissing then Skip else Error(StateMissing(f.key));
          }
          value := ToFloat64Safe(setting.fl, store[f.key]);
          if value.None? {
            return Error(StateNotNumeric(f.key));
          }
        case _ =>
          return Error(FloatSource);
      }
      r := Got(if f.typ == F32 then setting.fl.bits32(value.value) else setting.fl.bits64(value.value));
    }

    /** Adds one to a key of the store; anything that is not an integer counts from zero. */
    method IncrementKey(key: string) returns (v: int)
      modifies this`store
      ensures v == Increment(setting.fl, old(store), key) && store == old(store)[key := Signed(W64, v)]
    {
      var got := if key in store then ToInt64Safe(setting.fl, store[key]) else None;
      v := Wrap64((if got.Some? then got.value else 0) + 1);
      store := store[key := Signed(W64, v)];
    }

    /** The next clock reading or random number. */
    method Draw() returns (x: int)
      modifies this`draws
      ensures x == setting.stream(old(draws)) && draws == old(draws) + 1
    {
      x := setting.stream(draws);
      draws := draws + 1;
    }
  }

  /** Fields before j are built: they gave `done` and left the world at w, so what is wanted is `done` and the rest. */
  ghost predicate Progress<F>(s: Setting<F>, fields: seq<Field<F>>, want: (Outcome, World<F>), j: nat, done: seq<Byte>, w: World<F>) {
    && j <= |fields|
    && want == (Prepend(done, Build(s, fields, j, w).0), Build(s, fields, j, w).1)
  }

  lemma ProgressStart<F>(s: Setting<F>, fields: seq<Field<F>>, w: World<F>)
    ensures Progress(s, fields, Build(s, fields, 0, w), 0, [], w)
  {
    var o := Build(s, fields, 0, w).0;
    assert o.Body? ==> [] + o.bytes == o.bytes;
  }

  lemma ProgressGot<F>(s: Setting<F>, fields: seq<Field<F>>, want: (Outcome, World<F>), j: nat, done: seq<Byte>, w: World<F>, v: int, w1: World<F>)
    requires Progress(s, fields, want, j, done, w) && j < |fields|
    requires Resolve(s, fields[j], j, w) == (Got(v), w1) && Width(fields[j].typ).Some?
    ensures Progress(s, fields, want, j + 1, done + LittleEndian(WidthOf(fields[j]), v), w1)
  {
    var bytes := LittleEndian(WidthOf(fields[j]), v);
    var rest := Build(s, fields, j + 1, w1).0;
    assert rest.Body? ==> done + (bytes + rest.bytes) == done + bytes + rest.bytes;
  }

  lemma ProgressStop<F>(s: Setting<F>, fields: seq<Field<F>>, want: (Outcome, World<F>), j: nat, done: seq<Byte>, w: World<F>)
    requires Progress(s, fields, want, j, done, w) && j < |fields|
    ensures var (r, w1) := Resolve(s, fields[j], j, w);
            && (r.Error? ==> want == (Failed(r.error), w1))
            && (r.Skip? ==> want == (Skipped, w1))
            && (r.Got? && Width(fields[j].typ).None? ==> want == (Failed(UnknownType), w1))
  {
  }

  lemma ProgressEnd<F>(s: Setting<F>, fields: seq<Field<F>>, want: (Outcome, World<F>), done: seq<Byte>, w: World<F>)
    requires Progress(s, fields, want, |fields|, done, w)
    ensures want == (Body(done), w)
  {
    assert done + [] == done;
  }

  /** The builder that appends one field after another. */
  method BuildHeartbeatBody<F>(fields: seq<Field<F>>, env: Environment<F>) returns (o: Outcome)
    modifies env
    ensures (o, env.Now()) == Build(env.setting, fields, 0, old(env.Now()))
  {
    ghost var s := env.setting;
    ghost var want := Build(s, fields, 0, env.Now());
    var body: seq<Byte> := [];
    var i := 0;
    ProgressStart(s, fields, env.Now());
    while i < |fields|
      invariant i <= |fields|
      invariant Progress(s, fields, want, i, body, env.Now())
    {
      ghost var w := env.Now();
      ProgressStop(s, fields, want, i, body, w);
      var r := env.ResolveField(fields[i], i);
      match r {
        case Error(err) => return Failed(err);
        case Skip => return Skipped;
        case Got(v) =>
          var width := Width(fields[i].typ);
          if width.None? {
            return Failed(UnknownType);
          }
          ProgressGot(s, fields, want, i, body, w, v, env.Now());
          body := body + LittleEndian(width.value, v);
      }
      i := i + 1;
    }
    ProgressEnd(s, fields, want, body, env.Now());
    return Body(body);
  }

  // ---- compiling the layout ----

  function Validate<F>(f: Field<F>): Option<HeartbeatError> {
    if IsFloat(f.typ) then
      match f.source
      case Fixed => if f.floatValue.None? then Some(MissingValue) else None
      case State => if f.key == "" then Some(MissingKey) else None
      case _ => Some(FloatSource)
    else
      match f.source
      case Fixed => if f.value.None? then Some(MissingValue) else None
      case State => if f.key == "" then Some(MissingKey) else None
      case StateCounter => if f.key == "" then Some(MissingKey) else None
      case Counter => None
      case Timestamp => None
      case RandomInt =>
        if f.min.None? || f.max.None? then Some(MissingRange)
        else if f.min.value > f.max.value then Some(EmptyRange)
        else None
      case OtherSource(_) => Some(UnknownSource)
  }

  predicate FieldCompiles<F>(f: Field<F>) {
    Width(f.typ).Some? && Validate(f).None?
  }

  predicate Compiles<F>(fields: seq<Field<F>>) {
    forall k :: 0 <= k < |fields| ==> FieldCompiles(fields[k])
  }

  /** Where field i starts in the body. */
  function Offset<F>(fields: seq<Field<F>>, i: nat): nat
    requires i <= |fields|
  {
    if i == 0 then 0 else Offset(fields, i - 1) + WidthOf(fields[i - 1])
  }

  lemma {:induction false} OffsetMonotone<F>(fields: seq<Field<F>>, i: nat, j: nat)
    requires i <= j <= |fields|
    ensures Offset(fields, i) <= Offset(fields, j)
    decreases j
  {
    if i < j {
      OffsetMonotone(fields, i, j - 1);
    }
  }

  function FixedValue<F>(fl: FloatOps<F>, f: Field<F>): int
    requires f.source == Fixed && FieldCompiles(f)
  {
    if IsFloat(f.typ) then FloatBits(fl, f.typ, f.floatValue.value).v else f.value.value
  }

  datatype Slot = Slot(off: nat, width: nat, idx: nat)

  /** The slots of the fields before i that are not fixed. */
  function SlotsUpTo<F>(fields: seq<Field<F>>, i: nat): seq<Slot>
    requires i <= |fields|
  {
    if i == 0 then []
    else if fields[i - 1].source == Fixed then SlotsUpTo(fields, i - 1)
    else SlotsUpTo(fields, i - 1) + [Slot(Offset(fields, i - 1), WidthOf(fields[i - 1]), i - 1)]
  }

  /** The fixed fields before i have their bytes in b. */
  ghost predicate Filled<F>(fl: FloatOps<F>, fields: seq<Field<F>>, i: nat, b: seq<Byte>)
    requires i <= |fields|
  {
    && |b| == Offset(fields, |fields|)
    && forall k :: 0 <= k < i && fields[k].source == Fixed && FieldCompiles(fields[k]) ==>
                     FieldHolds(fl, fields, k, b, FixedValue(fl, fields[k]))
  }

  ghost predicate FieldHolds<F>(fl: FloatOps<F>, fields: seq<Field<F>>, k: nat, b: seq<Byte>, v: int)
    requires k < |fields|
  {
    && Offset(fields, k + 1) <= |b|
    && b[Offset(fields, k)..Offset(fields, k + 1)] == LittleEndian(WidthOf(fields[k]), v)
  }

  lemma SpliceKeepsField<F>(fl: FloatOps<F>, fields: seq<Field<F>>, k: nat, b: seq<Byte>, v: int, i: nat, bytes: seq<Byte>)
    requires k < |fields| && i < |fields| && k != i && |b| == Offset(fields, |fields|)
    requires FieldHolds(fl, fields, k, b, v) && |bytes| == WidthOf(fields[i])
    requires Offset(fields, i + 1) <= |b|
    ensures FieldHolds(fl, fields, k, Splice(b, Offset(fields, i), bytes), v)
  {
    if k < i {
      OffsetMonotone(fields, k + 1, i);
    } else {
      OffsetMonotone(fields, i + 1, k);
    }
    SpliceElsewhere(b, Offset(fields, i), bytes, Offset(fields, k), Offset(fields, k + 1));
  }

  /** Overwriting field i leaves every other fixed field in place. */
  lemma SpliceKeepsFilled<F>(fl: FloatOps<F>, fields: seq<Field<F>>, n: nat, b: seq<Byte>, i: nat, bytes: seq<Byte>)
    requires n <= |fields| && Filled(fl, fields, n, b)
    requires i < |fields| && (fields[i].source != Fixed || n <= i) && |bytes| == WidthOf(fields[i])
    ensures Offset(fields, i) + |bytes| <= |b|
    ensures Filled(fl, fields, n, Splice(b, Offset(fields, i), bytes))
  {
    OffsetMonotone(fields, i + 1, |fields|);
    forall k | 0 <= k < n && fields[k].source == Fixed && FieldCompiles(fields[k])
      ensures FieldHolds(fl, fields, k, Splice(b, Offset(fields, i), bytes), FixedValue(fl, fields[k]))
    {
      SpliceKeepsField(fl, fields, k, b, FixedValue(fl, fields[k]), i, bytes);
    }
  }

  datatype CompileResult<F> = Ready(plan: Plan<F>) | Rejected(error: HeartbeatError)

  class Plan<F> {
    const fields: seq<Field<F>>
    const body: array<Byte>
    const slots: seq<Slot>

    constructor (fields: seq<Field<F>>, body: array<Byte>, slots: seq<Slot>)
      ensures this.fields == fields && this.body == body && this.slots == slots
    {
      this.fields, this.body, this.slots := fields, body, slots;
    }

    /** The fixed fields are in place; nothing is known about the rest of the buffer. */
    ghost predicate Valid(fl: FloatOps<F>)
      reads body
    {
      && Compiles(fields)
      && slots == SlotsUpTo(fields, |fields|)
      && Filled(fl, fields, |fields|, body[..])
    }

    /** Fields before j are built, and their bytes are at the front of the buffer. */
    ghost predicate Reached(s: Setting<F>, want: (Outcome, World<F>), j: nat, w: World<F>)
      reads body
    {
      Valid(s.fl) && Front(s, fields, want, j, body[..], w)
    }

    method WriteSlot(slot: Slot, v: int, ghost s: Setting<F>, ghost want: (Outcome, World<F>), ghost w: World<F>, ghost w1: World<F>)
      requires slot.idx < |fields| && fields[slot.idx].source != Fixed
      requires slot == Slot(Offset(fields, slot.idx), WidthOf(fields[slot.idx]), slot.idx)
      requires Reached(s, want, slot.idx, w) && Resolve(s, fields[slot.idx], slot.idx, w) == (Got(v), w1)
      modifies body
      ensures Reached(s, want, slot.idx + 1, w1)
    {
      FrontGot(s, fields, want, slot.idx, body[..], w, v, w1);
      PutLittleEndian(body, slot.off, slot.width, v);
    }

    /** Resolves the field of one slot and writes it in place. */
    method FillSlot(env: Environment<F>, slot: Slot, ghost want: (Outcome, World<F>)) returns (r: Resolved)
      requires slot.idx < |fields| && fields[slot.idx].source != Fixed
      requires slot == Slot(Offset(fields, slot.idx), WidthOf(fields[slot.idx]), slot.idx)
      requires Reached(env.setting, want, slot.idx, env.Now())
      modifies env, body
      ensures Valid(env.setting.fl)
      ensures r.Got? ==> Reached(env.setting, want, slot.idx + 1, env.Now())
      ensures r.Error? ==> want == (Failed(r.error), env.Now())
      ensures r.Skip? ==> want == (Skipped, env.Now())
    {
      ghost var before, w, s := body[..], env.Now(), env.setting;
      r := env.ResolveField(fields[slot.idx], slot.idx);
      assert body[..] == before;
      if r.Got? {
        WriteSlot(slot, r.v, s, want, w, env.Now());
      } else {
        ProgressStop(s, fields, want, slot.idx, before[..slot.off], w);
      }
    }

    /** Before slot number i: fields before j are built, and i of them had slots. */
    ghost predicate Standing(s: Setting<F>, want: (Outcome, World<F>), i: nat, j: nat, w: World<F>)
      reads body
    {
      i <= |slots| && j <= |fields| && |SlotsUpTo(fields, j)| == i && Reached(s, want, j, w)
    }

    lemma NextSlotReached(s: Setting<F>, want: (Outcome, World<F>), i: nat, j: nat, w: World<F>)
      requires Standing(s, want, i, j, w) && i < |slots|
      ensures var slot := slots[i];
              && slot.idx < |fields| && fields[slot.idx].source != Fixed
              && slot == Slot(Offset(fields, slot.idx), WidthOf(fields[slot.idx]), slot.idx)
              && |SlotsUpTo(fields, slot.idx + 1)| == i + 1
              && Reached(s, want, slot.idx, w)
    {
      assert slots[i] == SlotsUpTo(fields, |fields|)[i];
      AdvanceFront(s, fields, want, i, j, body[..], w);
    }

    /** Slot number i is next: whatever lies between is fixed and already in the buffer. */
    method FillNext(env: Environment<F>, i: nat, ghost j: nat, ghost want: (Outcome, World<F>)) returns (r: Resolved, ghost after: nat)
      requires Standing(env.setting, want, i, j, env.Now()) && i < |slots|
      modifies env, body
      ensures Valid(env.setting.fl)
      ensures r.Got? ==> Standing(env.setting, want, i + 1, after, env.Now())
      ensures r.Error? ==> want == (Failed(r.error), env.Now())
      ensures r.Skip? ==> want == (Skipped, env.Now())
    {
      NextSlotReached(env.setting, want, i, j, env.Now());
      after := slots[i].idx + 1;
      assert i + 1 <= |slots| && after <= |fields| && |SlotsUpTo(fields, after)| == i + 1;
      r := FillSlot(env, slots[i], want);
    }

    /**
     * One tick. The result and every side effect are those of the simple builder, whatever an
     * earlier tick left in the buffer.
     */
    method Tick(env: Environment<F>) returns (o: Outcome)
      requires Valid(env.setting.fl)
      modifies env, body
      ensures Valid(env.setting.fl)
      ensures (o, env.Now()) == Build(env.setting, fields, 0, old(env.Now()))
    {
      ghost var s := env.setting;
    ghost var want := Build(s, fields, 0, env.Now());
      ghost var j: nat := 0;
      ProgressStart(s, fields, env.Now());
      var i := 0;
      while i < |slots|
        invariant Standing(s, want, i, j, env.Now())
      {
        var r;
        r, j := FillNext(env, i, j, want);
        match r {
          case Error(err) => return Failed(err);
          case Skip => return Skipped;
          case Got(_) =>
        }
        i := i + 1;
      }
      Finish(s, want, j, env.Now());
      return Body(body[..]);
    }

    lemma Finish(s: Setting<F>, want: (Outcome, World<F>), j: nat, w: World<F>)
      requires Reached(s, want, j, w) && |SlotsUpTo(fields, j)| == |slots|
      ensures want == (Body(body[..]), w)
    {
      NoMoreSlots(fields, j);
      FilledRun(s.fl, fields, j, |fields|, body[..]);
      ProgressFixed(s, fields, want, j, |fields|, body[..], w);
      assert body[..][..Offset(fields, |fields|)] == body[..];
      ProgressEnd(s, fields, want, body[..], w);
    }
  }

  lemma SplicePrefix<T>(b: seq<T>, off: nat, bytes: seq<T>)
    requires off + |bytes| <= |b|
    ensures Splice(b, off, bytes)[..off + |bytes|] == b[..off] + bytes
  {
  }

  lemma {:induction false} SlotsPrefix<F>(fields: seq<Field<F>>, i: nat, j: nat)
    requires i <= j <= |fields|
    ensures SlotsUpTo(fields, i) <= SlotsUpTo(fields, j)
    decreases j
  {
    if i < j {
      SlotsPrefix(fields, i, j - 1);
    }
  }

  /** The i-th slot belongs to the first field from j on that is not fixed. */
  lemma {:induction false} SlotAt<F>(fields: seq<Field<F>>, i: nat, j: nat)
    requires j <= |fields| && |SlotsUpTo(fields, j)| == i < |SlotsUpTo(fields, |fields|)|
    ensures var slot := SlotsUpTo(fields, |fields|)[i];
            && j <= slot.idx < |fields|
            && slot == Slot(Offset(fields, slot.idx), WidthOf(fields[slot.idx]), slot.idx)
            && fields[slot.idx].source != Fixed
            && (forall k :: j <= k < slot.idx ==> fields[k].source == Fixed)
            && |SlotsUpTo(fields, slot.idx + 1)| == i + 1
    decreases |fields| - j
  {
    if j == |fields| {
    } else if fields[j].source == Fixed {
      SlotAt(fields, i, j + 1);
    } else {
      SlotsPrefix(fields, j + 1, |fields|);
    }
  }

  lemma {:induction false} NoMoreSlots<F>(fields: seq<Field<F>>, j: nat)
    requires j <= |fields| && |SlotsUpTo(fields, j)| == |SlotsUpTo(fields, |fields|)|
    ensures forall k :: j <= k < |fields| ==> fields[k].source == Fixed
    decreases |fields| - j
  {
    if j < |fields| {
      SlotsPrefix(fields, j + 1, |fields|);
      NoMoreSlots(fields, j + 1);
    }
  }

  ghost predicate Front<F>(s: Setting<F>, fields: seq<Field<F>>, want: (Outcome, World<F>), j: nat, b: seq<Byte>, w: World<F>) {
    && j <= |fields|
    && Offset(fields, j) <= |b|
    && Progress(s, fields, want, j, b[..Offset(fields, j)], w)
  }

  /** Writing field i behind a finished front extends the front and leaves the fixed fields alone. */
  lemma FrontGot<F>(s: Setting<F>, fields: seq<Field<F>>, want: (Outcome, World<F>), i: nat, b: seq<Byte>, w: World<F>, v: int, w1: World<F>)
    requires Compiles(fields) && Filled(s.fl, fields, |fields|, b)
    requires i < |fields| && fields[i].source != Fixed && Front(s, fields, want, i, b, w)
    requires Resolve(s, fields[i], i, w) == (Got(v), w1)
    ensures Offset(fields, i) + WidthOf(fields[i]) <= |b|
    ensures var b1 := Splice(b, Offset(fields, i), LittleEndian(WidthOf(fields[i]), v));
            Filled(s.fl, fields, |fields|, b1) && Front(s, fields, want, i + 1, b1, w1)
  {
    var off, bytes := Offset(fields, i), LittleEndian(WidthOf(fields[i]), v);
    assert FieldCompiles(fields[i]);
    SpliceKeepsFilled(s.fl, fields, |fields|, b, i, bytes);
    SplicePrefix(b, off, bytes);
    ProgressGot(s, fields, want, i, b[..off], w, v, w1);
  }

  lemma ProgressFixedField<F>(s: Setting<F>, fields: seq<Field<F>>, want: (Outcome, World<F>), j: nat, b: seq<Byte>, w: World<F>)
    requires j < |fields| && FieldCompiles(fields[j]) && fields[j].source == Fixed
    requires FieldHolds(s.fl, fields, j, b, FixedValue(s.fl, fields[j]))
    requires Front(s, fields, want, j, b, w)
    ensures Front(s, fields, want, j + 1, b, w)
  {
    var lo, hi := Offset(fields, j), Offset(fields, j + 1);
    assert b[..hi] == b[..lo] + b[lo..hi];
    ProgressGot(s, fields, want, j, b[..lo], w, FixedValue(s.fl, fields[j]), w);
  }

  /** A run of fixed fields adds exactly the bytes already in the buffer and changes nothing. */
  lemma {:induction false} ProgressFixed<F>(s: Setting<F>, fields: seq<Field<F>>, want: (Outcome, World<F>), j: nat, m: nat, b: seq<Byte>, w: World<F>)
    requires j <= m <= |fields| && FixedRun(s.fl, fields, j, m, b)
    requires Front(s, fields, want, j, b, w)
    ensures Front(s, fields, want, m, b, w)
    decreases m - j
  {
    if j < m {
      ProgressFixedField(s, fields, want, j, b, w);
      ProgressFixed(s, fields, want, j + 1, m, b, w);
    }
  }

  /** Fields j to m - 1 are fixed and their bytes are in b. */
  ghost predicate FixedRun<F>(fl: FloatOps<F>, fields: seq<Field<F>>, j: nat, m: nat, b: seq<Byte>)
    requires j <= m <= |fields|
  {
    forall k :: j <= k < m ==>
                  FieldCompiles(fields[k]) && fields[k].source == Fixed && FieldHolds(fl, fields, k, b, FixedValue(fl, fields[k]))
  }

  lemma FilledRun<F>(fl: FloatOps<F>, fields: seq<Field<F>>, j: nat, m: nat, b: seq<Byte>)
    requires j <= m <= |fields| && Compiles(fields) && Filled(fl, fields, |fields|, b)
    requires forall k :: j <= k < m ==> fields[k].source == Fixed
    ensures FixedRun(fl, fields, j, m, b)
  {
  }

  /** The fixed fields between j and the field of slot i are already in the buffer. */
  lemma AdvanceFront<F>(s: Setting<F>, fields: seq<Field<F>>, want: (Outcome, World<F>), i: nat, j: nat, b: seq<Byte>, w: World<F>)
    requires Compiles(fields) && Filled(s.fl, fields, |fields|, b) && Front(s, fields, want, j, b, w)
    requires |SlotsUpTo(fields, j)| == i < |SlotsUpTo(fields, |fields|)|
    ensures var slot := SlotsUpTo(fields, |fields|)[i];
            && slot.idx < |fields| && fields[slot.idx].source != Fixed
            && slot == Slot(Offset(fields, slot.idx), WidthOf(fields[slot.idx]), slot.idx)
            && |SlotsUpTo(fields, slot.idx + 1)| == i + 1
            && Front(s, fields, want, slot.idx, b, w)
  {
    var slot := SlotsUpTo(fields, |fields|)[i];
    SlotAt(fields, i, j);
    FilledRun(s.fl, fields, j, slot.idx, b);
    ProgressFixed(s, fields, want, j, slot.idx, b, w);
  }

  method FillFixed<F>(fl: FloatOps<F>, fields: seq<Field<F>>, i: nat, body: array<Byte>)
    requires i < |fields| && FieldCompiles(fields[i]) && fields[i].source == Fixed
    requires Filled(fl, fields, i, body[..])
    modifies body
    ensures Filled(fl, fields, i + 1, body[..])
  {
    var v, width := FixedValue(fl, fields[i]), WidthOf(fields[i]);
    SpliceKeepsFilled(fl, fields, i, body[..], i, LittleEndian(width, v));
    PutLittleEndian(body, Offset(fields, i), width, v);
  }

  /** The body size, if every type is known. */
  method MeasureFields<F>(fields: seq<Field<F>>) returns (size: Option<nat>)
    ensures size.None? <==> exists k :: 0 <= k < |fields| && Width(fields[k].typ).None?
    ensures size.Some? ==> size.value == Offset(fields, |fields|)
  {
    var total := 0;
    for i := 0 to |fields|
      invariant forall k :: 0 <= k < i ==> Width(fields[k].typ).Some?
      invariant total == Offset(fields, i)
    {
      var w := Width(fields[i].typ);
      if w.None? {
        return None;
      }
      total := total + w.value;
    }
    return Some(total);
  }

  /** Compiles a field list into a plan, or reports the first problem. */
  method CompilePlan<F>(fl: FloatOps<F>, fields: seq<Field<F>>) returns (r: CompileResult<F>)
    ensures r.Ready? <==> Compiles(fields)
    ensures r.Ready? ==> r.plan.fields == fields && r.plan.Valid(fl) && fresh(r.plan) && fresh(r.plan.body)
  {
    var size := MeasureFields(fields);
    if size.None? {
      assert !Compiles(fields) by {
        var k :| 0 <= k < |fields| && Width(fields[k].typ).None?;
        assert !FieldCompiles(fields[k]);
      }
      return Rejected(UnknownType);
    }
    var body := new Byte[size.value](_ => 0);
    var slots: seq<Slot> := [];
    var off := 0;
    for i := 0 to |fields|
      invariant forall k :: 0 <= k < i ==> FieldCompiles(fields[k])
      invariant off == Offset(fields, i) && slots == SlotsUpTo(fields, i)
      invariant Filled(fl, fields, i, body[..])
    {
      var f := fields[i];
      var width := Width(f.typ).value;
      var invalid := Validate(f);
      if invalid.Some? {
        assert !FieldCompiles(f);
        return Rejected(invalid.value);
      }
      if f.source == Fixed {
        FillFixed(fl, fields, i, body);
      } else {
        slots := slots + [Slot(off, width, i)];
      }
      off := off + width;
    }
    var plan := new Plan(fields, body, slots);
    return Ready(plan);
  }
}

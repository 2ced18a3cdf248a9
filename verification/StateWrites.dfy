/** Writing a path into the copy-on-write state tree. */
module StateWrites {
  import opened Values
  import opened StateTree

  /** The container to descend into: containers stay, a message gets an empty overlay, the rest a new map. */
  function MakeWritable(v: Val): (r: Val)
    ensures IsContainer(r)
  {
    match v
    case List(_) => v
    case Map(_) => v
    case Overlay(_, _) => v
    case Nav(id) => Overlay(id, map[])
    case _ => Map(map[])
  }

  predicate IsContainer(v: Val) {
    v.List? || v.Map? || v.Overlay?
  }

  /** The value under a key of any container, before it is made writable. */
  function Child(b: Bases, cur: Val, key: Key): Val {
    match cur
    case Overlay(base, overrides) =>
      if !key.Name? then Nil
      else if key.name in overrides then
        (if overrides[key.name].Dead? then Nil else overrides[key.name].v)
      else OrNil(b.navigate(base, [key]))
    case _ => Step(cur, key)
  }

  /** Assignment to the last key; out of range or of the wrong kind, it does nothing. */
  function SetChild(cur: Val, key: Key, val: Val): Val {
    match (cur, key)
    case (Overlay(base, overrides), Name(k)) => Overlay(base, overrides[k := if val == Nil then Dead else Live(val)])
    case (List(items), Index(i)) => if 0 <= i < |items| then List(items[i := val]) else cur
    case (Map(entries), Name(k)) => Map(entries[k := val])
    case _ => cur
  }

  /** Whether an intermediate key can be descended through: maps create what is missing, lists do not. */
  predicate Passable(b: Bases, cur: Val, key: Key) {
    match cur
    case Overlay(_, _) => key.Name?
    case Map(_) => key.Name?
    case List(_) => key.Index? && !Step(cur, key).Nil? && !Step(cur, key).Scalar?
    case _ => false
  }

  /** Descends below a container, creating or wrapping what is missing, and assigns at the end. */
  function SetIn(b: Bases, cur: Val, path: seq<Key>, val: Val): Val
    requires path != []
    decreases |path|
  {
    if |path| == 1 then SetChild(cur, path[0], val)
    else if !Passable(b, cur, path[0]) then cur
    else SetChild(cur, path[0], SetIn(b, MakeWritable(Child(b, cur, path[0])), path[1..], val))
  }

  function Lookup(data: map<string, Val>, key: string): Val {
    if key in data then data[key] else Nil
  }

  /** A write to the path `top` followed by the keys of `path`. */
  function SetKeys(b: Bases, data: map<string, Val>, top: string, path: seq<Key>, val: Val): map<string, Val> {
    data[top := if path == [] then val else SetIn(b, MakeWritable(Lookup(data, top)), path, val)]
  }

  function GetKeys(b: Bases, data: map<string, Val>, top: string, path: seq<Key>): Val {
    OrNil(Navigate(b, Lookup(data, top), path))
  }

  /** A path of segments: the first names a top-level entry, the others are keys. */
  function Keys(segments: seq<string>): seq<Key> {
    seq(|segments|, i requires 0 <= i < |segments| => KeyOf(segments[i]))
  }

  function SetSegments(b: Bases, data: map<string, Val>, segments: seq<string>, val: Val): map<string, Val> {
    if segments == [] then data else SetKeys(b, data, segments[0], Keys(segments[1..]), val)
  }

  function GetSegments(b: Bases, data: map<string, Val>, segments: seq<string>): Val {
    if segments == [] then Nil else GetKeys(b, data, segments[0], Keys(segments[1..]))
  }

  // ---- writing in place ----

  /** The tree after the container at `at` has become x. */
  function PutAt(b: Bases, v: Val, at: seq<Key>, x: Val): Val
    decreases |at|
  {
    if at == [] then x else SetChild(v, at[0], PutAt(b, Child(b, v, at[0]), at[1..], x))
  }

  /** `cur` sits in the tree at `at`, every step of the way in the mutable part of its container. */
  ghost predicate Reached(b: Bases, v: Val, at: seq<Key>, cur: Val)
    decreases |at|
  {
    if at == [] then v == cur
    else
      var c := Child(b, v, at[0]);
      Assignable(v, at[0]) && IsContainer(c) && SetChild(v, at[0], c) == v && Reached(b, c, at[1..], cur)
  }

  lemma SetTwice(cur: Val, key: Key, x: Val, y: Val)
    ensures SetChild(SetChild(cur, key, x), key, y) == SetChild(cur, key, y)
  {
    match (cur, key)
    case (Overlay(_, overrides), Name(k)) =>
      assert overrides[k := if x == Nil then Dead else Live(x)][k := if y == Nil then Dead else Live(y)]
          == overrides[k := if y == Nil then Dead else Live(y)];
    case (Map(entries), Name(k)) => assert entries[k := x][k := y] == entries[k := y];
    case (List(items), Index(i)) => if 0 <= i < |items| { assert items[i := x][i := y] == items[i := y]; }
    case _ =>
  }

  lemma SetThenChild(b: Bases, cur: Val, key: Key, x: Val)
    requires Assignable(cur, key) && x != Nil
    ensures Child(b, SetChild(cur, key, x), key) == x && Assignable(SetChild(cur, key, x), key)
    ensures SetChild(SetChild(cur, key, x), key, x) == SetChild(cur, key, x)
  {
    SetTwice(cur, key, x, x);
  }

  lemma {:induction false} PutSame(b: Bases, v: Val, at: seq<Key>, cur: Val)
    requires Reached(b, v, at, cur)
    ensures PutAt(b, v, at, cur) == v
    decreases |at|
  {
    if at != [] {
      PutSame(b, Child(b, v, at[0]), at[1..], cur);
    }
  }

  lemma {:induction false} PutTwice(b: Bases, v: Val, at: seq<Key>, cur: Val, x: Val, y: Val)
    requires Reached(b, v, at, cur) && IsContainer(x)
    ensures PutAt(b, PutAt(b, v, at, x), at, y) == PutAt(b, v, at, y)
    ensures Reached(b, PutAt(b, v, at, x), at, x)
    ensures IsContainer(v) ==> IsContainer(PutAt(b, v, at, x))
    decreases |at|
  {
    if at != [] {
      var c := Child(b, v, at[0]);
      var inner := PutAt(b, c, at[1..], x);
      PutTwice(b, c, at[1..], cur, x, y);
      SetThenChild(b, v, at[0], inner);
      SetTwice(v, at[0], inner, PutAt(b, c, at[1..], y));
    }
  }

  lemma {:induction false} PutBelow(b: Bases, v: Val, at: seq<Key>, cur: Val, key: Key, c: Val, y: Val)
    requires Reached(b, v, at, cur) && Assignable(cur, key) && Child(b, cur, key) == c && IsContainer(c) && SetChild(cur, key, c) == cur
    ensures Reached(b, v, at + [key], c)
    ensures PutAt(b, v, at + [key], y) == PutAt(b, v, at, SetChild(cur, key, y))
    decreases |at|
  {
    if at == [] {
      assert (at + [key])[1..] == [];
    } else {
      assert (at + [key])[1..] == at[1..] + [key];
      PutBelow(b, Child(b, v, at[0]), at[1..], cur, key, c, y);
    }
  }

  /** One step down: the next container is in place, and finishing below it finishes the whole write. */
  lemma Descend(b: Bases, v: Val, path: seq<Key>, i: nat, cur: Val, next: Val, val: Val)
    requires i + 1 < |path| && IsContainer(cur) && Reached(b, v, path[..i], cur) && Passable(b, cur, path[i])
    requires next == MakeWritable(Child(b, cur, path[i]))
    ensures var v1 := PutAt(b, v, path[..i], SetChild(cur, path[i], next));
            && Reached(b, v1, path[..i + 1], next)
            && PutAt(b, v1, path[..i + 1], SetIn(b, next, path[i + 1..], val)) == PutAt(b, v, path[..i], SetIn(b, cur, path[i..], val))
  {
    var at, key := path[..i], path[i];
    var y := SetIn(b, next, path[i + 1..], val);
    var changed := SetChild(cur, key, next);
    assert path[..i + 1] == at + [key] && path[i..][1..] == path[i + 1..];
    SetThenChild(b, cur, key, next);
    PutTwice(b, v, at, cur, changed, SetChild(cur, key, y));
    PutBelow(b, PutAt(b, v, at, changed), at, changed, key, next, y);
    SetTwice(cur, key, next, y);
  }

  /** The write loop: container by container, each new or wrapped one put in place before going on. */
  method WriteBelow(b: Bases, start: Val, path: seq<Key>, val: Val) returns (root: Val)
    requires path != [] && IsContainer(start)
    ensures root == SetIn(b, start, path, val)
  {
    root := start;
    var cur := start;
    var i := 0;
    assert path[0..] == path;
    while i < |path| - 1
      invariant i < |path| && IsContainer(cur) && Reached(b, root, path[..i], cur)
      invariant PutAt(b, root, path[..i], SetIn(b, cur, path[i..], val)) == SetIn(b, start, path, val)
    {
      if !Passable(b, cur, path[i]) {
        PutSame(b, root, path[..i], cur);
        return;
      }
      var next := MakeWritable(Child(b, cur, path[i]));
      Descend(b, root, path, i, cur, next, val);
      root := PutAt(b, root, path[..i], SetChild(cur, path[i], next));
      cur := next;
      i := i + 1;
    }
    assert path[i..] == [path[i]];
    root := PutAt(b, root, path[..i], SetChild(cur, path[i], val));
  }

  class Store {
    const bases: Bases
    var data: map<string, Val>

    ghost predicate Valid()
      reads this
    {
      forall k :: k in data ==> WellFormed(data[k])
    }

    constructor (bases: Bases)
      ensures this.bases == bases && data == map[] && Valid()
    {
      this.bases := bases;
      data := map[];
    }

    method SetPath(segments: seq<string>, val: Val)
      requires Lawful(bases) && Valid() && WellFormed(val)
      modifies this
      ensures Valid()
      ensures data == SetSegments(bases, old(data), segments, val)
    {
      if segments == [] {
        return;
      }
      var top, path := segments[0], Keys(segments[1..]);
      if |segments| == 1 {
        data := data[top := val];
        return;
      }
      var cur := MakeWritable(Lookup(data, top));
      MakeWritableWellFormed(Lookup(data, top));
      SetInWellFormed(bases, cur, path, val);
      var root := WriteBelow(bases, cur, path, val);
      data := data[top := root];
    }

    method GetPath(segments: seq<string>) returns (v: Val)
      ensures v == GetSegments(bases, data, segments)
    {
      if segments == [] {
        return Nil;
      }
      var top, path := segments[0], Keys(segments[1..]);
      v := Lookup(data, top);
      var i := 0;
      assert path[0..] == path;
      while i < |path|
        invariant i <= |path|
        invariant OrNil(Navigate(bases, v, path[i..])) == GetKeys(bases, data, top, path)
      {
        if v == Nil {
          return;
        }
        if v.Nav? || v.Overlay? {
          return OrNil(Navigate(bases, v, path[i..]));
        }
        assert path[i..][1..] == path[i + 1..];
        v := Step(v, path[i]);
        i := i + 1;
      }
    }
  }

  // ---- a write keeps the tree well formed ----

  lemma MakeWritableWellFormed(v: Val)
    requires WellFormed(v)
    ensures WellFormed(MakeWritable(v))
  {
  }

  lemma ChildWellFormed(b: Bases, cur: Val, key: Key)
    requires Lawful(b) && WellFormed(cur)
    ensures WellFormed(Child(b, cur, key))
  {
    if cur.Overlay? {
      assert Answers(b, cur.base, [key]);
    }
  }

  lemma SetChildWellFormed(cur: Val, key: Key, val: Val)
    requires WellFormed(cur) && WellFormed(val)
    ensures WellFormed(SetChild(cur, key, val))
  {
  }

  lemma {:induction false} SetInWellFormed(b: Bases, cur: Val, path: seq<Key>, val: Val)
    requires Lawful(b) && WellFormed(cur) && WellFormed(val) && path != []
    ensures WellFormed(SetIn(b, cur, path, val))
    decreases |path|
  {
    if |path| == 1 {
      SetChildWellFormed(cur, path[0], val);
    } else if Passable(b, cur, path[0]) {
      ChildWellFormed(b, cur, path[0]);
      var next := MakeWritable(Child(b, cur, path[0]));
      MakeWritableWellFormed(Child(b, cur, path[0]));
      SetInWellFormed(b, next, path[1..], val);
      SetChildWellFormed(cur, path[0], SetIn(b, next, path[1..], val));
    }
  }

  // ---- read your write ----

  predicate Assignable(cur: Val, key: Key) {
    match cur
    case Overlay(_, _) => key.Name?
    case Map(_) => key.Name?
    case List(items) => key.Index? && 0 <= key.i < |items|
    case _ => false
  }

  /** Whether a write at this path takes effect; decided before the write. */
  predicate Writable(b: Bases, cur: Val, path: seq<Key>)
    requires path != []
    decreases |path|
  {
    if |path| == 1 then Assignable(cur, path[0])
    else Passable(b, cur, path[0]) && Writable(b, MakeWritable(Child(b, cur, path[0])), path[1..])
  }

  lemma NavigateSetChild(b: Bases, cur: Val, key: Key, val: Val, path: seq<Key>)
    requires IsContainer(cur) && path != [] && path[0] == key
    ensures Assignable(cur, key) ==> Navigate(b, SetChild(cur, key, val), path) == Navigate(b, val, path[1..])
    ensures !Assignable(cur, key) ==> SetChild(cur, key, val) == cur && Navigate(b, cur, path) == None
  {
  }

  lemma NotPassable(b: Bases, cur: Val, path: seq<Key>)
    requires IsContainer(cur) && |path| > 1 && !Passable(b, cur, path[0])
    ensures Navigate(b, cur, path) == None
  {
    if cur.List? {
      var next := Step(cur, path[0]);
      if next.Scalar? {
        assert Navigate(b, Step(next, path[1..][0]), path[1..][1..]) == None;
      }
      assert Navigate(b, next, path[1..]) == None;
    }
  }

  /** Reading below p after writing val at p reads below val; if p was not writable there is nothing to read. */
  lemma {:induction false} ReadBack(b: Bases, cur: Val, p: seq<Key>, val: Val, q: seq<Key>)
    requires p != [] && IsContainer(cur)
    ensures Navigate(b, SetIn(b, cur, p, val), p + q) == if Writable(b, cur, p) then Navigate(b, val, q) else None
    decreases |p|
  {
    var path := p + q;
    if |p| == 1 {
      assert path[1..] == q;
      NavigateSetChild(b, cur, p[0], val, path);
    } else if Passable(b, cur, p[0]) {
      var next := MakeWritable(Child(b, cur, p[0]));
      assert path[1..] == p[1..] + q;
      ReadBack(b, next, p[1..], val, q);
      NavigateSetChild(b, cur, p[0], SetIn(b, next, p[1..], val), path);
    } else {
      NotPassable(b, cur, path);
    }
  }

  ghost predicate PathWritable(b: Bases, data: map<string, Val>, top: string, path: seq<Key>) {
    path == [] || Writable(b, MakeWritable(Lookup(data, top)), path)
  }

  /** After a write of a value other than nil, reading the path gives that value if and only if the path was writable. */
  lemma ReadYourWrite(b: Bases, data: map<string, Val>, top: string, path: seq<Key>, val: Val)
    requires val != Nil
    ensures GetKeys(b, SetKeys(b, data, top, path, val), top, path) == val <==> PathWritable(b, data, top, path)
  {
    if path != [] {
      ReadBack(b, MakeWritable(Lookup(data, top)), path, val, []);
      assert path + [] == path;
    }
  }

  /** After writing nil there is nothing to read at the path, writable or not. */
  lemma ReadAfterErase(b: Bases, data: map<string, Val>, top: string, path: seq<Key>)
    ensures GetKeys(b, SetKeys(b, data, top, path, Nil), top, path) == Nil
  {
    if path != [] {
      ReadBack(b, MakeWritable(Lookup(data, top)), path, Nil, []);
      assert path + [] == path;
    }
  }

  // ---- everything else keeps its value ----

  /** The paths part ways at some key both have. */
  predicate Diverge(p: seq<Key>, q: seq<Key>) {
    p != [] && q != [] && (p[0] != q[0] || Diverge(p[1..], q[1..]))
  }

  lemma MakeWritableMaterializes(b: Bases, v: Val, q: seq<Key>)
    requires q != []
    ensures TreeNavigate(Materialize(b, MakeWritable(v)), q) == TreeNavigate(Materialize(b, v), q)
  {
    if v.Nav? {
      assert Materialize(b, MakeWritable(v)) == Materialize(b, v);
    } else if v.Nil? || v.Scalar? {
      assert TreeStep(Materialize(b, MakeWritable(v)), q[0]) == TNil == TreeStep(Materialize(b, v), q[0]);
    }
  }

  lemma ChildMaterializes(b: Bases, cur: Val, key: Key)
    requires Lawful(b) && IsContainer(cur) && WellFormed(cur)
    ensures Materialize(b, Child(b, cur, key)) == TreeStep(Materialize(b, cur), key)
  {
    if cur.Overlay? {
      OverlayStep(b, cur, key);
      if key.Name? && key.name !in cur.overrides {
        assert Answers(b, cur.base, [key]);
        assert TreeNavigate(TMap(b.decode(cur.base)), [key]) == TreeStep(TMap(b.decode(cur.base)), key);
      }
    } else {
      StepMaterializes(b, cur, key);
    }
  }

  /** Assigning under one key does not show under another. */
  lemma SetChildElsewhere(b: Bases, cur: Val, key: Key, val: Val, other: Key)
    requires IsContainer(cur) && other != key
    ensures TreeStep(Materialize(b, SetChild(cur, key, val)), other) == TreeStep(Materialize(b, cur), other)
  {
    var after := SetChild(cur, key, val);
    if cur.Overlay? {
      OverlayStep(b, cur, other);
      OverlayStep(b, after, other);
    } else {
      StepMaterializes(b, cur, other);
      StepMaterializes(b, after, other);
    }
  }

  lemma SetChildHere(b: Bases, cur: Val, key: Key, val: Val)
    requires IsContainer(cur)
    ensures TreeStep(Materialize(b, SetChild(cur, key, val)), key) == Materialize(b, val)
         || SetChild(cur, key, val) == cur
  {
    var after := SetChild(cur, key, val);
    if cur.Overlay? {
      OverlayStep(b, after, key);
    } else {
      StepMaterializes(b, after, key);
    }
  }

  lemma {:induction false} SetInElsewhere(b: Bases, cur: Val, p: seq<Key>, val: Val, q: seq<Key>)
    requires Lawful(b) && IsContainer(cur) && WellFormed(cur) && Diverge(p, q)
    ensures TreeNavigate(Materialize(b, SetIn(b, cur, p, val)), q) == TreeNavigate(Materialize(b, cur), q)
    decreases |p|
  {
    if |p| == 1 {
      SetChildElsewhere(b, cur, p[0], val, q[0]);
    } else if Passable(b, cur, p[0]) {
      var child := Child(b, cur, p[0]);
      var next := SetIn(b, MakeWritable(child), p[1..], val);
      if p[0] != q[0] {
        SetChildElsewhere(b, cur, p[0], next, q[0]);
      } else {
        ChildWellFormed(b, cur, p[0]);
        MakeWritableWellFormed(child);
        SetInElsewhere(b, MakeWritable(child), p[1..], val, q[1..]);
        MakeWritableMaterializes(b, child, q[1..]);
        ChildMaterializes(b, cur, p[0]);
        SetChildHere(b, cur, p[0], next);
      }
    }
  }

  /**
   * A write at one path leaves every path that parts ways with it reading the same plain tree,
   * writable or not, including siblings inside a message that the write wrapped in an overlay.
   */
  lemma WriteElsewhere(b: Bases, data: map<string, Val>, top: string, p: seq<Key>, val: Val, top1: string, q: seq<Key>)
    requires Lawful(b) && WellFormed(val) && forall k :: k in data ==> WellFormed(data[k])
    requires top1 != top || Diverge(p, q)
    ensures Materialize(b, GetKeys(b, SetKeys(b, data, top, p, val), top1, q)) == Materialize(b, GetKeys(b, data, top1, q))
  {
    if top1 == top {
      var was := Lookup(data, top);
      var cur := MakeWritable(was);
      MakeWritableWellFormed(was);
      SetInElsewhere(b, cur, p, val, q);
      SetInWellFormed(b, cur, p, val);
      MakeWritableMaterializes(b, was, q);
      NavigateMaterializes(b, SetIn(b, cur, p, val), q);
      NavigateMaterializes(b, was, q);
    }
  }
}

/**
 * What path writes and reads mean for the plain tree a store stands for: which paths are writable, what
 * tree a write leaves, and how segment texts address it.
 */
module StateMeaning {
  import opened Values
  import opened StateTree
  import opened StateWrites

  // ---- writing the plain tree ----

  predicate Inside(t: Tree, key: Key) {
    t.TList? && key.Index? && 0 <= key.i < |t.items|
  }

  /** Whether a path can be written, by the plain tree alone: names go anywhere but into a list, making maps
    * of what is missing or a scalar; indices go to elements a list has, on the way only to maps and lists. */
  predicate CanWrite(t: Tree, path: seq<Key>)
    requires path != []
    decreases |path|
  {
    if t.TList? then
      && Inside(t, path[0])
      && (|path| > 1 ==> var x := t.items[path[0].i]; (x.TMap? || x.TList?) && CanWrite(x, path[1..]))
    else
      path[0].Name? && (|path| > 1 ==> CanWrite(Below(t, path[0].name), path[1..]))
  }

  /** What a plain tree that is no list holds under a name. */
  function Below(t: Tree, name: string): Tree {
    if t.TMap? && name in t.entries then t.entries[name] else TNil
  }

  /** What is not a container becomes an empty map. */
  function Entries(t: Tree): map<string, Tree> {
    if t.TMap? then t.entries else map[]
  }

  /** The plain tree after a write; a write that gets stuck keeps the maps it has made on the way. */
  function TreeWrite(t: Tree, path: seq<Key>, x: Tree): Tree
    requires path != []
    decreases |path|
  {
    if t.TList? then
      if !Inside(t, path[0]) then t
      else
        var i := path[0].i;
        if |path| == 1 then TList(t.items[i := x])
        else if t.items[i].TMap? || t.items[i].TList? then TList(t.items[i := TreeWrite(t.items[i], path[1..], x)])
        else t
    else
      match path[0]
      case Name(k) => TMap(Entries(t)[k := if |path| == 1 then x else TreeWrite(Below(t, k), path[1..], x)])
      case _ => TMap(Entries(t))
  }

  lemma ChildIsBelow(b: Bases, cur: Val, key: Key)
    requires Lawful(b) && IsContainer(cur) && WellFormed(cur)
    ensures Materialize(b, Child(b, cur, key)) ==
            if cur.List? then (if Inside(Materialize(b, cur), key) then Materialize(b, cur).items[key.i] else TNil)
            else if key.Name? then Below(Materialize(b, cur), key.name) else TNil
  {
    ChildMaterializes(b, cur, key);
  }

  lemma ContainerTree(b: Bases, cur: Val)
    requires IsContainer(cur)
    ensures Materialize(b, cur).TList? <==> cur.List?
    ensures Materialize(b, cur).TMap? <==> cur.Map? || cur.Overlay?
  {
  }

  lemma OpenedTree(b: Bases, v: Val)
    ensures var t := Materialize(b, v);
            Materialize(b, MakeWritable(v)) == if t.TList? then t else TMap(Entries(t))
  {
    if v.Nav? {
      assert Materialize(b, Overlay(v.id, map[])).entries == b.decode(v.id);
    }
  }

  lemma PassableTree(b: Bases, cur: Val, key: Key)
    requires Lawful(b) && IsContainer(cur) && WellFormed(cur)
    ensures var t := Materialize(b, cur);
            Passable(b, cur, key) <==>
            if t.TList? then Inside(t, key) && (t.items[key.i].TMap? || t.items[key.i].TList?) else key.Name?
  {
    ContainerTree(b, cur);
  }

  lemma CanWriteOpened(t: Tree, path: seq<Key>)
    requires path != []
    ensures CanWrite(if t.TList? then t else TMap(Entries(t)), path) == CanWrite(t, path)
  {
  }

  lemma {:induction false} WritableIsCanWrite(b: Bases, cur: Val, path: seq<Key>)
    requires Lawful(b) && IsContainer(cur) && WellFormed(cur) && path != []
    ensures Writable(b, cur, path) <==> CanWrite(Materialize(b, cur), path)
    decreases |path|
  {
    ContainerTree(b, cur);
    if |path| > 1 {
      PassableTree(b, cur, path[0]);
      if Passable(b, cur, path[0]) {
        var child := Child(b, cur, path[0]);
        ChildWellFormed(b, cur, path[0]);
        MakeWritableWellFormed(child);
        WritableIsCanWrite(b, MakeWritable(child), path[1..]);
        OpenedTree(b, child);
        CanWriteOpened(Materialize(b, child), path[1..]);
        ChildIsBelow(b, cur, path[0]);
      }
    }
  }

  // ---- the tree a write leaves ----

  lemma SetChildTree(b: Bases, cur: Val, key: Key, x: Val)
    requires IsContainer(cur) && x != Nil
    ensures var t, after := Materialize(b, cur), Materialize(b, SetChild(cur, key, x));
            if cur.List? then after == (if Inside(t, key) then TList(t.items[key.i := Materialize(b, x)]) else t)
            else after == if key.Name? then TMap(t.entries[key.name := Materialize(b, x)]) else t
  {
    var t, after := Materialize(b, cur), Materialize(b, SetChild(cur, key, x));
    if cur.List? && Inside(t, key) {
      assert after.items == t.items[key.i := Materialize(b, x)];
    } else if !cur.List? && key.Name? {
      assert after.entries == t.entries[key.name := Materialize(b, x)];
    }
  }

  lemma TreeWriteOpened(t: Tree, path: seq<Key>, x: Tree)
    requires path != []
    ensures TreeWrite(if t.TList? then t else TMap(Entries(t)), path, x) == TreeWrite(t, path, x)
  {
  }

  lemma {:induction false} SetInIsContainer(b: Bases, cur: Val, path: seq<Key>, val: Val)
    requires IsContainer(cur) && path != []
    ensures IsContainer(SetIn(b, cur, path, val))
  {
  }

  /** Writing into the lazy store and then decoding it is writing into the decoded tree. */
  lemma {:induction false} WriteMaterializes(b: Bases, cur: Val, path: seq<Key>, val: Val)
    requires Lawful(b) && IsContainer(cur) && WellFormed(cur) && path != [] && val != Nil
    ensures Materialize(b, SetIn(b, cur, path, val)) == TreeWrite(Materialize(b, cur), path, Materialize(b, val))
    decreases |path|
  {
    ContainerTree(b, cur);
    if |path| == 1 {
      SetChildTree(b, cur, path[0], val);
    } else {
      PassableTree(b, cur, path[0]);
      if Passable(b, cur, path[0]) {
        var child := Child(b, cur, path[0]);
        var writable := MakeWritable(child);
        var next := SetIn(b, writable, path[1..], val);
        ChildWellFormed(b, cur, path[0]);
        MakeWritableWellFormed(child);
        WriteMaterializes(b, writable, path[1..], val);
        SetInIsContainer(b, writable, path[1..], val);
        SetChildTree(b, cur, path[0], next);
        OpenedTree(b, child);
        TreeWriteOpened(Materialize(b, child), path[1..], Materialize(b, val));
        ChildIsBelow(b, cur, path[0]);
      }
    }
  }

  // ---- the promises, from segment texts on ----

  /** A written value is read back exactly when the plain tree before the write lets the path be written. */
  lemma ReadBackExactly(b: Bases, data: map<string, Val>, segments: seq<string>, val: Val)
    requires Lawful(b) && segments != [] && val != Nil && forall k :: k in data ==> WellFormed(data[k])
    ensures GetSegments(b, SetSegments(b, data, segments, val), segments) == val
       <==> |segments| == 1 || CanWrite(Materialize(b, Lookup(data, segments[0])), Keys(segments[1..]))
  {
    var top, path := segments[0], Keys(segments[1..]);
    ReadYourWrite(b, data, top, path, val);
    if path != [] {
      var was := Lookup(data, top);
      MakeWritableWellFormed(was);
      WritableIsCanWrite(b, MakeWritable(was), path);
      OpenedTree(b, was);
      CanWriteOpened(Materialize(b, was), path);
    }
  }

  /** The plain tree under the written entry is the old one with the write in it; all other entries stay. */
  lemma WrittenTree(b: Bases, data: map<string, Val>, segments: seq<string>, val: Val)
    requires Lawful(b) && segments != [] && val != Nil && forall k :: k in data ==> WellFormed(data[k])
    ensures var after := SetSegments(b, data, segments, val);
            && after.Keys == data.Keys + {segments[0]}
            && (forall k :: k in data && k != segments[0] ==> after[k] == data[k])
            && Materialize(b, after[segments[0]]) ==
               if |segments| == 1 then Materialize(b, val)
               else TreeWrite(Materialize(b, Lookup(data, segments[0])), Keys(segments[1..]), Materialize(b, val))
  {
    if |segments| > 1 {
      var was, path := Lookup(data, segments[0]), Keys(segments[1..]);
      MakeWritableWellFormed(was);
      WriteMaterializes(b, MakeWritable(was), path, val);
      OpenedTree(b, was);
      TreeWriteOpened(Materialize(b, was), path, Materialize(b, val));
    }
  }

  /** The way to the end of a path of names meets no list. */
  predicate MeetsNoList(t: Tree, path: seq<string>)
    decreases |path|
  {
    !t.TList? && (path != [] ==> MeetsNoList(Below(t, path[0]), path[1..]))
  }

  predicate PlainName(seg: string) {
    seg == "" || seg[0] != '['
  }

  lemma {:induction false} NamesCanBeWritten(t: Tree, names: seq<string>)
    requires names != [] && MeetsNoList(t, names) && forall i :: 0 <= i < |names| ==> PlainName(names[i])
    ensures CanWrite(t, Keys(names))
    decreases |names|
  {
    assert KeyOf(names[0]) == Name(names[0]);
    assert Keys(names)[1..] == Keys(names[1..]);
    if |names| > 1 {
      NamesCanBeWritten(Below(t, names[0]), names[1..]);
    }
  }

  /** In particular every path of names that meets no list reads back what was written, whatever is missing on the way. */
  lemma NamesReadBack(b: Bases, data: map<string, Val>, segments: seq<string>, val: Val)
    requires Lawful(b) && segments != [] && val != Nil && forall k :: k in data ==> WellFormed(data[k])
    requires forall i :: 1 <= i < |segments| ==> PlainName(segments[i])
    requires MeetsNoList(Materialize(b, Lookup(data, segments[0])), segments[1..])
    ensures GetSegments(b, SetSegments(b, data, segments, val), segments) == val
  {
    ReadBackExactly(b, data, segments, val);
    if |segments| > 1 {
      NamesCanBeWritten(Materialize(b, Lookup(data, segments[0])), segments[1..]);
    }
  }

  /** `[n]` addresses element n. */
  lemma IndexSegment(n: nat)
    requires n <= MAX_INT64
    ensures KeyOf("[" + Digits(n) + "]") == Index(n)
  {
    var seg := "[" + Digits(n) + "]";
    assert seg[1..|seg| - 1] == Digits(n);
    ParseDecimal(n);
  }

  /** Reading below an entry that stands for a list or a map finds the element or the entry it names. */
  lemma ReadsMean(b: Bases, data: map<string, Val>, top: string, seg: string)
    requires Lawful(b) && top in data && WellFormed(data[top])
    ensures var t, got := Materialize(b, data[top]), Materialize(b, GetSegments(b, data, [top, seg]));
            && (forall n: nat :: t.TList? && n < |t.items| && n <= MAX_INT64 && seg == "[" + Digits(n) + "]" ==> got == t.items[n])
            && (t.TMap? && PlainName(seg) && seg in t.entries ==> got == t.entries[seg])
            && (t.TMap? && PlainName(seg) && seg !in t.entries ==> got == TNil)
            && (t.TScalar? || t.TNil? ==> got == TNil)
  {
    var path := Keys([seg]);
    assert [top, seg][1..] == [seg] && path[1..] == [];
    NavigateMaterializes(b, data[top], path);
    var t := Materialize(b, data[top]);
    assert TreeNavigate(t, path) == TreeStep(t, KeyOf(seg));
    forall n: nat | n <= MAX_INT64 && seg == "[" + Digits(n) + "]" ensures KeyOf(seg) == Index(n) {
      IndexSegment(n);
    }
  }
}

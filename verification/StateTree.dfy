/**
 * The copy-on-write state tree.
 *
 * A robot's state holds plain maps, lists and scalars, opaque values that can only be navigated
 * (`Nav`, an immutable decoded message), and overlays: a mutable layer of overrides and tombstones
 * over such a message. `Materialize` gives the plain tree a value stands for; reading and writing
 * lazily has to agree with it.
 */
module StateTree {
  import opened Values

  // ---- values ----

  datatype Val =
    | Nil
    | Scalar(s: int)
    | List(items: seq<Val>)
    | Map(entries: map<string, Val>)
    | Nav(id: nat)
    | Overlay(base: nat, overrides: map<string, Slot>)

  // An override: a tombstone, or a value.
  datatype Slot = Dead | Live(v: Val)

  datatype Tree =
    | TNil
    | TScalar(s: int)
    | TList(items: seq<Tree>)
    | TMap(entries: map<string, Tree>)

  // The navigable messages: how message id answers a path, and the map it decodes to.
  datatype Bases = Bases(navigate: (nat, seq<Key>) -> Option<Val>, decode: nat -> map<string, Tree>)

  // ---- path segments ----

  // A path segment: a map key, or a bracketed list index, which may fail to be a number.
  datatype Key = Name(name: string) | Index(i: int) | BadIndex

  predicate IsArrayIndex(seg: string) {
    |seg| >= 2 && seg[0] == '[' && seg[|seg| - 1] == ']'
  }

  /** The key a segment addresses; `[0]` and `[00]` address the same element. */
  function KeyOf(seg: string): Key {
    if !IsArrayIndex(seg) then Name(seg)
    else
      match ParseInt64(seg[1..|seg| - 1])
      case Some(i) => Index(i)
      case None => BadIndex
  }

  // ---- reading ----

  /** One key down a plain container; nil for anything else. */
  function Step(v: Val, key: Key): Val {
    match (v, key)
    case (List(items), Index(i)) => if 0 <= i < |items| then items[i] else Nil
    case (Map(entries), Name(k)) => if k in entries then entries[k] else Nil
    case _ => Nil
  }

  /** Navigation below a value: None when nothing is found. */
  function Navigate(b: Bases, v: Val, path: seq<Key>): Option<Val>
    decreases |path|
  {
    if path == [] then (if v == Nil then None else Some(v))
    else
      match v
      case Nil => None
      case Nav(id) => b.navigate(id, path)
      case Overlay(base, overrides) =>
        if !path[0].Name? then None
        else if path[0].name in overrides then
          match overrides[path[0].name]
          case Dead => None
          case Live(x) => if |path| == 1 then Some(x) else Navigate(b, x, path[1..])
        else b.navigate(base, path)
      case _ => Navigate(b, Step(v, path[0]), path[1..])
  }

  function OrNil(r: Option<Val>): Val {
    match r
    case None => Nil
    case Some(v) => v
  }

  // ---- the plain tree ----

  function Materialize(b: Bases, v: Val): Tree
    decreases v
  {
    match v
    case Nil => TNil
    case Scalar(s) => TScalar(s)
    case List(items) => TList(seq(|items|, i requires 0 <= i < |items| => Materialize(b, items[i])))
    case Map(entries) => TMap(map k | k in entries :: Materialize(b, entries[k]))
    case Nav(id) => TMap(b.decode(id))
    case Overlay(base, overrides) =>
      TMap(map k | k in b.decode(base).Keys + overrides.Keys && !(k in overrides && overrides[k].Dead?) ::
             if k in overrides then Materialize(b, overrides[k].v) else b.decode(base)[k])
  }

  function TreeStep(t: Tree, key: Key): Tree {
    match (t, key)
    case (TList(items), Index(i)) => if 0 <= i < |items| then items[i] else TNil
    case (TMap(entries), Name(k)) => if k in entries then entries[k] else TNil
    case _ => TNil
  }

  function TreeNavigate(t: Tree, path: seq<Key>): Tree
    decreases |path|
  {
    if path == [] then t else TreeNavigate(TreeStep(t, path[0]), path[1..])
  }

  // ---- what is assumed of messages, and kept by overlays ----

  /** Overlays record nil as a tombstone, never as a value. */
  ghost predicate WellFormed(v: Val)
    decreases v
  {
    match v
    case List(items) => forall i :: 0 <= i < |items| ==> WellFormed(items[i])
    case Map(entries) => forall k :: k in entries ==> WellFormed(entries[k])
    case Overlay(_, overrides) =>
      forall k :: k in overrides && overrides[k].Live? ==> overrides[k].v != Nil && WellFormed(overrides[k].v)
    case _ => true
  }

  /** A message answers a path with a value that decodes to what its own decoded map holds there. */
  ghost predicate Answers(b: Bases, id: nat, path: seq<Key>) {
    match b.navigate(id, path)
    case None => TreeNavigate(TMap(b.decode(id)), path) == TNil
    case Some(v) =>
      && v != Nil && !v.Overlay? && WellFormed(v)
      && Materialize(b, v) == TreeNavigate(TMap(b.decode(id)), path)
  }

  ghost predicate Lawful(b: Bases) {
    forall id: nat, path: seq<Key> :: path != [] ==> Answers(b, id, path)
  }

  // ---- reading lazily agrees with reading the plain tree ----

  lemma {:induction false} NothingBelowNil(path: seq<Key>)
    ensures TreeNavigate(TNil, path) == TNil
    decreases |path|
  {
    if path != [] {
      NothingBelowNil(path[1..]);
    }
  }

  lemma StepMaterializes(b: Bases, v: Val, key: Key)
    requires !v.Nav? && !v.Overlay?
    ensures Materialize(b, Step(v, key)) == TreeStep(Materialize(b, v), key)
  {
  }

  lemma StepWellFormed(v: Val, key: Key)
    requires WellFormed(v)
    ensures WellFormed(Step(v, key))
  {
  }

  lemma OverlayStep(b: Bases, v: Val, key: Key)
    requires v.Overlay?
    ensures TreeStep(Materialize(b, v), key) ==
            if !key.Name? then TNil
            else if key.name in v.overrides then
              (if v.overrides[key.name].Dead? then TNil else Materialize(b, v.overrides[key.name].v))
            else TreeStep(TMap(b.decode(v.base)), key)
  {
  }

  lemma NilOnly(b: Bases, v: Val)
    ensures Materialize(b, v) == TNil <==> v == Nil
  {
  }

  /** Reading a path lazily and reading it from the plain tree give the same tree. */
  ghost predicate Agrees(b: Bases, v: Val, path: seq<Key>) {
    Materialize(b, OrNil(Navigate(b, v, path))) == TreeNavigate(Materialize(b, v), path)
  }

  lemma OverlayAgrees(b: Bases, v: Val, path: seq<Key>)
    requires Lawful(b) && v.Overlay? && WellFormed(v) && path != []
    requires path[0].Name? && path[0].name in v.overrides && v.overrides[path[0].name].Live? ==>
               Agrees(b, v.overrides[path[0].name].v, path[1..])
    ensures Agrees(b, v, path)
  {
    OverlayStep(b, v, path[0]);
    NothingBelowNil(path[1..]);
    if path[0].Name? && path[0].name !in v.overrides {
      assert Answers(b, v.base, path);
    }
  }

  lemma PlainAgrees(b: Bases, v: Val, path: seq<Key>)
    requires !v.Nav? && !v.Overlay? && path != []
    requires Agrees(b, Step(v, path[0]), path[1..])
    ensures Agrees(b, v, path)
  {
    StepMaterializes(b, v, path[0]);
    if v == Nil {
      NothingBelowNil(path);
    }
  }

  /** Navigate-then-materialise equals materialise-then-navigate, for any nesting of values. */
  lemma {:induction false} NavigateMaterializes(b: Bases, v: Val, path: seq<Key>)
    requires Lawful(b) && WellFormed(v)
    ensures Agrees(b, v, path)
    decreases |path|
  {
    if path == [] {
    } else if v.Nav? {
      assert Answers(b, v.id, path);
    } else if v.Overlay? {
      if path[0].Name? && path[0].name in v.overrides && v.overrides[path[0].name].Live? {
        NavigateMaterializes(b, v.overrides[path[0].name].v, path[1..]);
      }
      OverlayAgrees(b, v, path);
    } else {
      StepWellFormed(v, path[0]);
      NavigateMaterializes(b, Step(v, path[0]), path[1..]);
      PlainAgrees(b, v, path);
    }
  }

  lemma AnswerIsNotNil(b: Bases, id: nat, path: seq<Key>)
    requires Lawful(b) && path != []
    ensures b.navigate(id, path) != Some(Nil)
  {
    assert Answers(b, id, path);
  }

  lemma {:induction false} FoundIsNotNil(b: Bases, v: Val, path: seq<Key>)
    requires Lawful(b) && WellFormed(v)
    ensures Navigate(b, v, path) != Some(Nil)
    decreases |path|
  {
    if path == [] {
    } else if v.Nav? {
      AnswerIsNotNil(b, v.id, path);
    } else if v.Overlay? {
      if path[0].Name? {
        if path[0].name !in v.overrides {
          AnswerIsNotNil(b, v.base, path);
        } else if v.overrides[path[0].name].Live? {
          FoundIsNotNil(b, v.overrides[path[0].name].v, path[1..]);
        }
      }
    } else {
      StepWellFormed(v, path[0]);
      FoundIsNotNil(b, Step(v, path[0]), path[1..]);
    }
  }

  /** "Not found" coincides with nil in the plain tree. */
  lemma NotFoundIsNil(b: Bases, v: Val, path: seq<Key>)
    requires Lawful(b) && WellFormed(v)
    ensures Navigate(b, v, path).None? <==> TreeNavigate(Materialize(b, v), path) == TNil
  {
    NavigateMaterializes(b, v, path);
    FoundIsNotNil(b, v, path);
    NilOnly(b, OrNil(Navigate(b, v, path)));
  }

  // ---- messages decoded on the spot are lawful ----

  function Embed(t: Tree): Val
    decreases t
  {
    match t
    case TNil => Nil
    case TScalar(s) => Scalar(s)
    case TList(items) => List(seq(|items|, i requires 0 <= i < |items| => Embed(items[i])))
    case TMap(entries) => Map(map k | k in entries :: Embed(entries[k]))
  }

  function EagerBases(decode: nat -> map<string, Tree>): Bases {
    Bases((id: nat, path: seq<Key>) =>
            var t := TreeNavigate(TMap(decode(id)), path);
            if t == TNil then None else Some(Embed(t)),
          decode)
  }

  lemma {:induction false} EmbedMaterializes(b: Bases, t: Tree)
    ensures Materialize(b, Embed(t)) == t && WellFormed(Embed(t))
    decreases t
  {
    match t
    case TList(items) =>
      forall i | 0 <= i < |items| ensures Materialize(b, Embed(items[i])) == items[i] && WellFormed(Embed(items[i])) {
        EmbedMaterializes(b, items[i]);
      }
    case TMap(entries) =>
      forall k | k in entries ensures Materialize(b, Embed(entries[k])) == entries[k] && WellFormed(Embed(entries[k])) {
        EmbedMaterializes(b, entries[k]);
      }
    case _ =>
  }

  /** The laws asked of messages can be met: by decoding on every read, for instance. */
  lemma EagerBasesAreLawful(decode: nat -> map<string, Tree>)
    ensures Lawful(EagerBases(decode))
  {
    var b := EagerBases(decode);
    forall id: nat, path: seq<Key> ensures Answers(b, id, path) {
      EmbedMaterializes(b, TreeNavigate(TMap(decode(id)), path));
    }
  }
}

/**
 * The in-memory command log: commands by id, one queue of pending commands per agent in sequence
 * order, and the finished ones in the order they finished, from which room is made.
 *
 * `Log` and its functions are the log as a value; `MemoryStore` is the object that works step by step.
 */
module CommandLog {
  import opened Values

  datatype Status = Pending | Acked | Rejected

  datatype Command = Command(id: string, agent: string, hasBody: bool, number: nat)

  datatype Record = Record(command: Command, status: Status)

  datatype Log = Log(
    commands: map<string, Record>,
    pending: map<string, seq<Command>>,
    terminal: seq<string>,
    next: nat,
    capacity: nat)

  // ---- what every reachable log keeps ----

  predicate Sorted(q: seq<Command>) {
    forall i, j :: 0 <= i < j < |q| ==> q[i].number < q[j].number
  }

  predicate Distinct(ids: seq<string>) {
    forall i, j :: 0 <= i < j < |ids| ==> ids[i] != ids[j]
  }

  function QueueOf(l: Log, agent: string): seq<Command> {
    if agent in l.pending then l.pending[agent] else []
  }

  ghost predicate QueueValid(l: Log, agent: string) {
    var q := QueueOf(l, agent);
    && Sorted(q)
    && forall k :: 0 <= k < |q| ==>
                     && q[k].agent == agent && 0 < q[k].number <= l.next
                     && q[k].id in l.commands && l.commands[q[k].id] == Record(q[k], Pending)
  }

  /** A command sits in its agent's queue exactly while it is pending, and in the finished list exactly after. */
  ghost predicate Placed(l: Log, id: string)
    requires id in l.commands
  {
    var r := l.commands[id];
    && r.command.id == id
    && (r.status == Pending <==> r.command in QueueOf(l, r.command.agent))
    && (r.status != Pending <==> id in l.terminal)
  }

  ghost predicate Valid(l: Log) {
    && (forall a :: QueueValid(l, a))
    && (forall a :: a in l.pending ==> l.pending[a] != [])
    && (forall id :: id in l.commands ==> Placed(l, id))
    && Distinct(l.terminal)
    && (forall id :: id in l.terminal ==> id in l.commands)
    && |l.commands| <= l.capacity
  }

  function Empty(capacity: nat): Log {
    Log(map[], map[], [], 0, capacity)
  }

  // ---- creating a batch ----

  datatype CreateError = InvalidIdentity | MissingBody | DuplicateId | StoreFull

  /** The first problem of batch[i..]; ids before i are already taken. */
  function CheckBatch(l: Log, batch: seq<Command>, i: nat): Option<CreateError>
    requires i <= |batch|
    decreases |batch| - i
  {
    if i == |batch| then None
    else
      var c := batch[i];
      if c.id == "" || c.agent == "" then Some(InvalidIdentity)
      else if !c.hasBody then Some(MissingBody)
      else if c.id in l.commands || (exists k :: 0 <= k < i && batch[k].id == c.id) then Some(DuplicateId)
      else CheckBatch(l, batch, i + 1)
  }

  function Overflow(l: Log, needed: nat): nat {
    if |l.commands| + needed > l.capacity then |l.commands| + needed - l.capacity else 0
  }

  function Ids(ids: seq<string>): set<string> {
    set id | id in ids
  }

  /** Forgets the n commands that finished first. */
  function Evict(l: Log, n: nat): Log
    requires n <= |l.terminal|
  {
    l.(commands := l.commands - Ids(l.terminal[..n]), terminal := l.terminal[n..])
  }

  function Insert(l: Log, c: Command): Log {
    var stored := c.(number := l.next + 1);
    l.(commands := l.commands[c.id := Record(stored, Pending)],
       pending := l.pending[c.agent := QueueOf(l, c.agent) + [stored]],
       next := l.next + 1)
  }

  function InsertAll(l: Log, batch: seq<Command>): Log
    decreases |batch|
  {
    if batch == [] then l else Insert(InsertAll(l, batch[..|batch| - 1]), batch[|batch| - 1])
  }

  /** All or nothing: a batch with any problem, or for which no room can be made, changes nothing. */
  function Create(l: Log, batch: seq<Command>): (Option<CreateError>, Log) {
    var bad := CheckBatch(l, batch, 0);
    if bad.Some? then (bad, l)
    else if Overflow(l, |batch|) > |l.terminal| then (Some(StoreFull), l)
    else (None, InsertAll(Evict(l, Overflow(l, |batch|)), batch))
  }

  // ---- acknowledging ----

  function Remove(q: seq<Command>, id: string): seq<Command> {
    if q == [] then [] else if q[0].id == id then q[1..] else [q[0]] + Remove(q[1..], id)
  }

  function WithQueue(pending: map<string, seq<Command>>, agent: string, q: seq<Command>): map<string, seq<Command>> {
    if q == [] then pending - {agent} else pending[agent := q]
  }

  /** Finishes a pending command; repeating it, or finishing an unknown one, changes nothing. */
  function Acknowledge(l: Log, id: string, status: Status): Log
    requires status != Pending
  {
    if id !in l.commands || l.commands[id].status != Pending then l
    else
      var c := l.commands[id].command;
      l.(commands := l.commands[id := Record(c, status)],
         pending := WithQueue(l.pending, c.agent, Remove(QueueOf(l, c.agent), id)),
         terminal := l.terminal + [id])
  }

  // ---- reading ----

  const BATCH_SIZE := 256

  function Limit(limit: int): nat {
    if limit <= 0 || limit > BATCH_SIZE then BATCH_SIZE else limit
  }

  /** The commands of a queue numbered above `after`. */
  function Above(q: seq<Command>, after: nat): seq<Command> {
    if q == [] then [] else (if q[0].number > after then [q[0]] else []) + Above(q[1..], after)
  }

  function Take<T>(s: seq<T>, n: nat): seq<T> {
    if |s| <= n then s else s[..n]
  }

  function PendingAfter(l: Log, agent: string, after: nat, limit: int): seq<Command> {
    Take(Above(QueueOf(l, agent), after), Limit(limit))
  }

  // ---- proofs: every operation keeps the log valid ----

  lemma {:induction false} DistinctIds(ids: seq<string>)
    requires Distinct(ids)
    ensures |Ids(ids)| == |ids|
  {
    if ids != [] {
      var n := |ids| - 1;
      DistinctIds(ids[..n]);
      assert Ids(ids) == Ids(ids[..n]) + {ids[n]};
    }
  }

  lemma EvictCount(l: Log, n: nat)
    requires n <= |l.terminal| && Distinct(l.terminal) && forall id :: id in l.terminal ==> id in l.commands
    ensures |Evict(l, n).commands| == |l.commands| - n
  {
    var gone := Ids(l.terminal[..n]);
    DistinctIds(l.terminal[..n]);
    assert gone <= l.commands.Keys;
    assert Evict(l, n).commands.Keys == l.commands.Keys - gone;
    assert |l.commands.Keys - gone| == |l.commands.Keys| - |gone|;
  }

  lemma EvictSplit(l: Log, n: nat, x: string)
    requires n <= |l.terminal| && Distinct(l.terminal)
    ensures x in l.terminal[n..] <==> x in l.terminal && x !in Ids(l.terminal[..n])
  {
    assert l.terminal == l.terminal[..n] + l.terminal[n..];
  }

  lemma EvictQueue(l: Log, n: nat, a: string)
    requires QueueValid(l, a) && n <= |l.terminal|
    requires forall id :: id in l.commands && l.commands[id].status == Pending ==> id in Evict(l, n).commands
    ensures QueueValid(Evict(l, n), a)
  {
  }

  lemma EvictPlaced(l: Log, n: nat, x: string)
    requires n <= |l.terminal| && Distinct(l.terminal) && x in Evict(l, n).commands && Placed(l, x)
    ensures Placed(Evict(l, n), x)
  {
    EvictSplit(l, n, x);
  }

  lemma EvictKeepsPending(l: Log, n: nat)
    requires n <= |l.terminal| && forall id :: id in l.commands ==> Placed(l, id)
    ensures forall id :: id in l.commands && l.commands[id].status == Pending ==>
                           id in Evict(l, n).commands && Evict(l, n).commands[id] == l.commands[id]
  {
    forall id | id in l.commands && l.commands[id].status == Pending
      ensures id in Evict(l, n).commands && Evict(l, n).commands[id] == l.commands[id]
    {
      assert Placed(l, id);
    }
  }

  /** Making room forgets exactly the n commands finished first; nothing pending is ever forgotten. */
  lemma EvictKeepsValid(l: Log, n: nat)
    requires Valid(l) && n <= |l.terminal|
    ensures Valid(Evict(l, n)) && |Evict(l, n).commands| == |l.commands| - n
    ensures forall id :: id in l.commands && l.commands[id].status == Pending ==>
                           id in Evict(l, n).commands && Evict(l, n).commands[id] == l.commands[id]
  {
    var m := Evict(l, n);
    EvictCount(l, n);
    EvictKeepsPending(l, n);
    forall a ensures QueueValid(m, a) {
      assert QueueValid(l, a);
      EvictQueue(l, n, a);
    }
    forall x | x in m.commands ensures Placed(m, x) {
      assert Placed(l, x);
      EvictPlaced(l, n, x);
    }
    forall x | x in m.terminal ensures x in m.commands {
      EvictSplit(l, n, x);
    }
  }

  lemma InsertKeepsValid(l: Log, c: Command)
    requires Valid(l) && c.id !in l.commands && |l.commands| < l.capacity
    ensures Valid(Insert(l, c)) && |Insert(l, c).commands| == |l.commands| + 1
    ensures Insert(l, c).commands.Keys == l.commands.Keys + {c.id}
  {
    var m := Insert(l, c);
    forall a ensures QueueValid(m, a) {
      assert QueueValid(l, a);
      InsertQueue(l, c, a);
    }
    forall x | x in m.commands ensures Placed(m, x) {
      InsertPlaced(l, c, x);
    }
  }

  lemma InsertQueue(l: Log, c: Command, a: string)
    requires QueueValid(l, a) && c.id !in l.commands
    ensures QueueValid(Insert(l, c), a)
  {
  }

  lemma InsertPlaced(l: Log, c: Command, x: string)
    requires Valid(l) && c.id !in l.commands && x in Insert(l, c).commands
    ensures Placed(Insert(l, c), x)
  {
    var m := Insert(l, c);
    var stored := c.(number := l.next + 1);
    if x == c.id {
      assert m.pending[c.agent][|m.pending[c.agent]| - 1] == stored;
      assert x !in l.terminal;
    } else {
      assert Placed(l, x);
      var r := l.commands[x];
      if r.command.agent == c.agent {
        assert r.command != stored;
        assert r.command in QueueOf(m, c.agent) <==> r.command in QueueOf(l, c.agent);
      }
    }
  }

  lemma {:induction false} CheckedBatch(l: Log, batch: seq<Command>, i: nat, k: nat)
    requires i <= k < |batch| && CheckBatch(l, batch, i).None?
    ensures batch[k].id !in l.commands && forall j :: 0 <= j < k ==> batch[j].id != batch[k].id
    decreases |batch| - i
  {
    if i < k {
      CheckedBatch(l, batch, i + 1, k);
    }
  }

  lemma {:induction false} InsertAllIds(l: Log, batch: seq<Command>, x: string)
    requires x !in l.commands && forall k :: 0 <= k < |batch| ==> batch[k].id != x
    ensures x !in InsertAll(l, batch).commands
    decreases |batch|
  {
    if batch != [] {
      InsertAllIds(l, batch[..|batch| - 1], x);
    }
  }

  lemma {:induction false} InsertAllKeepsValid(l: Log, batch: seq<Command>, m: Log)
    requires Valid(l) && |l.commands| + |batch| <= l.capacity && m == InsertAll(l, batch)
    requires forall k :: 0 <= k < |batch| ==> batch[k].id !in l.commands
    requires forall j, k :: 0 <= j < k < |batch| ==> batch[j].id != batch[k].id
    ensures Valid(m) && |m.commands| == |l.commands| + |batch| && m.capacity == l.capacity
    decreases |batch|
  {
    if batch != [] {
      var n := |batch| - 1;
      var before := InsertAll(l, batch[..n]);
      InsertAllKeepsValid(l, batch[..n], before);
      InsertAllIds(l, batch[..n], batch[n].id);
      InsertKeepsValid(before, batch[n]);
    }
  }

  lemma CreateKeepsValid(l: Log, batch: seq<Command>)
    requires Valid(l)
    ensures Valid(Create(l, batch).1)
    ensures Create(l, batch).0.Some? ==> Create(l, batch).1 == l
  {
    if Create(l, batch).0.None? {
      var n := Overflow(l, |batch|);
      var m := Evict(l, n);
      EvictKeepsValid(l, n);
      forall k | 0 <= k < |batch| ensures batch[k].id !in l.commands && forall j :: 0 <= j < k ==> batch[j].id != batch[k].id {
        CheckedBatch(l, batch, 0, k);
      }
      InsertAllKeepsValid(m, batch, InsertAll(m, batch));
    }
  }

  // -- acknowledging --

  lemma {:induction false} RemoveOne(q: seq<Command>, k: nat)
    requires k < |q| && forall j :: 0 <= j < k ==> q[j].id != q[k].id
    ensures Remove(q, q[k].id) == q[..k] + q[k + 1..]
    decreases k
  {
    if k > 0 {
      RemoveOne(q[1..], k - 1);
      assert q[1..][..k - 1] == q[1..k] && q[1..][k..] == q[k + 1..];
      CutBehindFirst(q, k);
    }
  }

  lemma CutBehindFirst(q: seq<Command>, k: nat)
    requires 0 < k < |q|
    ensures [q[0]] + (q[1..k] + q[k + 1..]) == q[..k] + q[k + 1..]
  {
    assert [q[0]] + q[1..k] == q[..k];
  }

  /** In a valid queue ids are distinct, so acknowledging removes exactly one command and keeps the order. */
  lemma RemoveFromQueue(l: Log, agent: string, id: string) returns (k: nat)
    requires Valid(l) && id in l.commands && l.commands[id].status == Pending && l.commands[id].command.agent == agent
    ensures var q := QueueOf(l, agent);
            k < |q| && q[k].id == id && Remove(q, id) == q[..k] + q[k + 1..]
    ensures var q := QueueOf(l, agent); forall j :: 0 <= j < |q| && j != k ==> q[j].id != id
  {
    var q := QueueOf(l, agent);
    assert Placed(l, id) && QueueValid(l, agent);
    k :| 0 <= k < |q| && q[k] == l.commands[id].command;
    forall j | 0 <= j < |q| && j != k ensures q[j].id != id {
      assert q[j].number != q[k].number;
      assert l.commands[q[j].id] == Record(q[j], Pending);
    }
    RemoveOne(q, k);
  }

  /** Taking out position k keeps the order of the rest and loses nothing else. */
  lemma CutOne(q: seq<Command>, k: nat)
    requires k < |q| && Sorted(q)
    ensures Sorted(q[..k] + q[k + 1..])
    ensures forall c :: c in q[..k] + q[k + 1..] <==> c in q && c != q[k]
  {
    var r := q[..k] + q[k + 1..];
    assert forall j :: 0 <= j < |r| ==> r[j] == q[if j < k then j else j + 1];
    forall c | c in q && c != q[k] ensures c in r {
      var j :| 0 <= j < |q| && q[j] == c;
      assert r[if j < k then j else j - 1] == c;
    }
  }

  lemma AcknowledgeCuts(l: Log, id: string, status: Status, a: string)
    requires Valid(l) && status != Pending && id in l.commands && l.commands[id].status == Pending
    ensures Sorted(QueueOf(Acknowledge(l, id, status), a))
    ensures forall c :: c in QueueOf(Acknowledge(l, id, status), a) <==> c in QueueOf(l, a) && c != l.commands[id].command
  {
    var c := l.commands[id].command;
    var q := QueueOf(l, a);
    var m := Acknowledge(l, id, status);
    assert QueueValid(l, a);
    if a == c.agent {
      var k := RemoveFromQueue(l, a, id);
      CutOne(q, k);
      assert QueueOf(m, a) == q[..k] + q[k + 1..];
      assert q[k] == c;
    } else {
      assert QueueOf(m, a) == q;
    }
  }

  lemma AcknowledgeQueue(l: Log, id: string, status: Status, a: string)
    requires Valid(l) && status != Pending && id in l.commands && l.commands[id].status == Pending
    ensures QueueValid(Acknowledge(l, id, status), a)
  {
    var m := Acknowledge(l, id, status);
    var q, r := QueueOf(l, a), QueueOf(m, a);
    assert QueueValid(l, a);
    AcknowledgeCuts(l, id, status, a);
    forall k | 0 <= k < |r|
      ensures r[k].agent == a && 0 < r[k].number <= m.next && r[k].id in m.commands && m.commands[r[k].id] == Record(r[k], Pending)
    {
      assert r[k] in r;
      var j :| 0 <= j < |q| && q[j] == r[k];
    }
  }

  lemma AcknowledgePlaced(l: Log, id: string, status: Status, x: string)
    requires Valid(l) && status != Pending && id in l.commands && l.commands[id].status == Pending && x in l.commands
    ensures Placed(Acknowledge(l, id, status), x)
  {
    assert Placed(l, x) && Placed(l, id);
    AcknowledgeCuts(l, id, status, l.commands[x].command.agent);
  }

  lemma AcknowledgeCounts(l: Log, id: string, status: Status)
    requires status != Pending && id in l.commands && id !in l.terminal && Distinct(l.terminal)
    ensures |Acknowledge(l, id, status).commands| == |l.commands|
    ensures Distinct(Acknowledge(l, id, status).terminal)
  {
    var m := Acknowledge(l, id, status);
    assert m.commands.Keys == l.commands.Keys;
    assert |m.commands.Keys| == |l.commands.Keys|;
  }

  lemma AcknowledgeKeepsValid(l: Log, id: string, status: Status)
    requires Valid(l) && status != Pending
    ensures Valid(Acknowledge(l, id, status))
  {
    if id in l.commands && l.commands[id].status == Pending {
      var m := Acknowledge(l, id, status);
      assert Placed(l, id);
      forall a ensures QueueValid(m, a) {
        AcknowledgeQueue(l, id, status, a);
      }
      forall x | x in m.commands ensures Placed(m, x) {
        AcknowledgePlaced(l, id, status, x);
      }
      AcknowledgeCounts(l, id, status);
    }
  }

  // -- reading --

  lemma {:induction false} AboveSorted(q: seq<Command>, after: nat, start: nat)
    requires start <= |q|
    requires forall k :: 0 <= k < start ==> q[k].number <= after
    requires forall k :: start <= k < |q| ==> q[k].number > after
    ensures Above(q, after) == q[start..]
    decreases |q|
  {
    if q != [] {
      if start > 0 {
        AboveSorted(q[1..], after, start - 1);
      } else {
        AboveSorted(q[1..], after, 0);
      }
    }
  }

  lemma EvictNone(l: Log)
    ensures Evict(l, 0) == l
  {
    assert l.commands - Ids(l.terminal[..0]) == l.commands;
  }

  function DropOldest(l: Log): Log
    requires l.terminal != []
  {
    l.(commands := l.commands - {l.terminal[0]}, terminal := l.terminal[1..])
  }

  lemma EvictStep(l: Log, n: nat)
    requires n < |l.terminal|
    ensures Evict(l, n).terminal != []
    ensures Evict(l, n + 1) == DropOldest(Evict(l, n))
  {
    assert Ids(l.terminal[..n + 1]) == Ids(l.terminal[..n]) + {l.terminal[n]};
  }

  // ---- which batches are accepted, and what a batch adds ----

  /** A batch goes in exactly when every command is well formed and new and the unfinished commands leave room for it. */
  lemma CreateAcceptsExactly(l: Log, batch: seq<Command>)
    requires Valid(l)
    ensures Create(l, batch).0.None? <==>
            && (forall k :: 0 <= k < |batch| ==> batch[k].id != "" && batch[k].agent != "" && batch[k].hasBody && batch[k].id !in l.commands)
            && (forall j, k :: 0 <= j < k < |batch| ==> batch[j].id != batch[k].id)
            && |l.commands| - |l.terminal| + |batch| <= l.capacity
  {
    CheckBatchExactly(l, batch, 0);
  }

  lemma {:induction false} CheckBatchExactly(l: Log, batch: seq<Command>, i: nat)
    requires i <= |batch|
    ensures CheckBatch(l, batch, i).None? <==>
            && (forall k :: i <= k < |batch| ==> batch[k].id != "" && batch[k].agent != "" && batch[k].hasBody && batch[k].id !in l.commands)
            && (forall j, k :: 0 <= j < k && i <= k < |batch| ==> batch[j].id != batch[k].id)
    decreases |batch| - i
  {
    if i < |batch| {
      CheckBatchExactly(l, batch, i + 1);
    }
  }

  /** The commands of a batch meant for one agent, numbered on from `next`. */
  function Numbered(next: nat, batch: seq<Command>, agent: string): seq<Command> {
    if batch == [] then []
    else
      var n := |batch| - 1;
      Numbered(next, batch[..n], agent) + Addressed(batch[n], agent, next + |batch|)
  }

  function Addressed(c: Command, agent: string, number: nat): seq<Command> {
    if c.agent == agent then [c.(number := number)] else []
  }

  lemma AppendNothing(x: seq<Command>, y: seq<Command>)
    requires |y| == 0
    ensures x + y == x
  {
  }

  lemma AppendTwice(x: seq<Command>, y: seq<Command>, z: seq<Command>)
    ensures x + y + z == x + (y + z)
  {
  }

  lemma {:induction false} InsertAllNext(l: Log, batch: seq<Command>)
    ensures InsertAll(l, batch).next == l.next + |batch|
    decreases |batch|
  {
    if |batch| > 0 {
      InsertAllNext(l, batch[..|batch| - 1]);
    }
  }

  lemma {:induction false} InsertAllAppends(l: Log, batch: seq<Command>, a: string)
    ensures QueueOf(InsertAll(l, batch), a) == QueueOf(l, a) + Numbered(l.next, batch, a)
    decreases |batch|
  {
    if |batch| == 0 {
      AppendNothing(QueueOf(l, a), Numbered(l.next, batch, a));
    } else {
      var n := |batch| - 1;
      InsertAllNext(l, batch[..n]);
      InsertAllAppends(l, batch[..n], a);
      InsertAppendsTo(InsertAll(l, batch[..n]), batch[n], a, QueueOf(l, a), Numbered(l.next, batch[..n], a));
    }
  }

  lemma InsertAppendsTo(l: Log, c: Command, a: string, first: seq<Command>, added: seq<Command>)
    requires QueueOf(l, a) == first + added
    ensures QueueOf(Insert(l, c), a) == first + (added + Addressed(c, a, l.next + 1))
  {
    InsertAppends(l, c, a);
    AppendTwice(first, added, Addressed(c, a, l.next + 1));
  }

  lemma InsertAppends(l: Log, c: Command, a: string)
    ensures QueueOf(Insert(l, c), a) == QueueOf(l, a) + Addressed(c, a, l.next + 1)
  {
  }

  lemma {:induction false} NumberedAbove(next: nat, batch: seq<Command>, a: string, k: nat)
    requires k < |Numbered(next, batch, a)|
    ensures next < Numbered(next, batch, a)[k].number <= next + |batch|
    decreases |batch|
  {
    var n := |batch| - 1;
    if k < |Numbered(next, batch[..n], a)| {
      NumberedAbove(next, batch[..n], a, k);
    }
  }

  /** An accepted batch only appends to each agent's queue, with numbers never used before. */
  lemma CreateAppends(l: Log, batch: seq<Command>, a: string)
    requires Create(l, batch).0.None?
    ensures QueueOf(Create(l, batch).1, a) == QueueOf(l, a) + Numbered(l.next, batch, a)
    ensures Create(l, batch).1.next == l.next + |batch|
    ensures forall k :: 0 <= k < |Numbered(l.next, batch, a)| ==> l.next < Numbered(l.next, batch, a)[k].number
  {
    InsertAllAppends(Evict(l, Overflow(l, |batch|)), batch, a);
    InsertAllNext(Evict(l, Overflow(l, |batch|)), batch);
    forall k | 0 <= k < |Numbered(l.next, batch, a)| ensures l.next < Numbered(l.next, batch, a)[k].number {
      NumberedAbove(l.next, batch, a, k);
    }
  }

  // ---- what each operation does to every command ----

  /** The n oldest finished commands are forgotten, and nothing else. */
  lemma EvictMeans(l: Log, n: nat)
    requires n <= |l.terminal|
    ensures var m := Evict(l, n);
            && l.terminal == l.terminal[..n] + m.terminal
            && (forall id :: id in m.commands <==> id in l.commands && id !in l.terminal[..n])
            && (forall id :: id in m.commands ==> m.commands[id] == l.commands[id])
            && m.pending == l.pending && m.next == l.next && m.capacity == l.capacity
  {
  }

  lemma {:induction false} InsertAllKeeps(l: Log, batch: seq<Command>, id: string)
    ensures var m := InsertAll(l, batch);
            && (id in m.commands <==> id in l.commands || exists k :: 0 <= k < |batch| && batch[k].id == id)
            && (id in l.commands && (forall k :: 0 <= k < |batch| ==> batch[k].id != id) ==> m.commands[id] == l.commands[id])
            && m.terminal == l.terminal
    decreases |batch|
  {
    if |batch| > 0 {
      InsertAllKeeps(l, batch[..|batch| - 1], id);
    }
  }

  lemma {:induction false} InsertAllPuts(l: Log, batch: seq<Command>, k: nat)
    requires k < |batch| && forall j :: k < j < |batch| ==> batch[j].id != batch[k].id
    ensures batch[k].id in InsertAll(l, batch).commands
    ensures InsertAll(l, batch).commands[batch[k].id] == Record(batch[k].(number := l.next + 1 + k), Pending)
    decreases |batch|
  {
    var n := |batch| - 1;
    InsertAllNext(l, batch[..n]);
    if k < n {
      InsertAllPuts(l, batch[..n], k);
    }
  }

  /** How many commands are too many once a batch is in. */
  function TooMany(l: Log, batch: seq<Command>): nat {
    if |l.commands| + |batch| <= l.capacity then 0 else |l.commands| + |batch| - l.capacity
  }

  /** An accepted batch is in with fresh numbers, and just as many of the oldest finished commands went as it took. */
  lemma CreateMeans(l: Log, batch: seq<Command>)
    requires Valid(l) && Create(l, batch).0.None?
    ensures TooMany(l, batch) <= |l.terminal|
    ensures var m, gone := Create(l, batch).1, l.terminal[..TooMany(l, batch)];
            && l.terminal == gone + m.terminal
            && (forall k :: 0 <= k < |batch| ==>
                  batch[k].id in m.commands && m.commands[batch[k].id] == Record(batch[k].(number := l.next + 1 + k), Pending))
            && (forall id :: id in l.commands && id !in gone ==> id in m.commands && m.commands[id] == l.commands[id])
            && (forall id :: id in m.commands ==> (id in l.commands && id !in gone) || exists k :: 0 <= k < |batch| && batch[k].id == id)
  {
    var n := Overflow(l, |batch|);
    var room := Evict(l, n);
    CreateAcceptsExactly(l, batch);
    EvictMeans(l, n);
    forall k | 0 <= k < |batch|
      ensures batch[k].id in InsertAll(room, batch).commands
      ensures InsertAll(room, batch).commands[batch[k].id] == Record(batch[k].(number := l.next + 1 + k), Pending)
    {
      InsertAllPuts(room, batch, k);
    }
    forall id
      ensures id in InsertAll(room, batch).commands <==> id in room.commands || exists k :: 0 <= k < |batch| && batch[k].id == id
      ensures id in l.commands && id !in l.terminal[..n] ==> InsertAll(room, batch).commands[id] == l.commands[id]
    {
      InsertAllKeeps(room, batch, id);
    }
    InsertAllKeeps(room, batch, "");
  }

  predicate Fine(l: Log, batch: seq<Command>, i: nat)
    requires i < |batch|
  {
    var c := batch[i];
    |c.id| > 0 && |c.agent| > 0 && c.hasBody && c.id !in l.commands && forall k :: 0 <= k < i ==> batch[k].id != c.id
  }

  /** A refused batch names what is wrong with its first command that is not fine, or that there is no room. */
  lemma {:induction false} RefusalMeans(l: Log, batch: seq<Command>, i: nat)
    requires i <= |batch| && (forall k :: 0 <= k < i ==> Fine(l, batch, k))
    ensures CheckBatch(l, batch, i).None? ==> forall k :: 0 <= k < |batch| ==> Fine(l, batch, k)
    ensures CheckBatch(l, batch, i).Some? ==>
              exists bad :: 0 <= bad < |batch| && NamesFirst(l, batch, bad, CheckBatch(l, batch, i).value)
    decreases |batch| - i
  {
    if i < |batch| {
      if Fine(l, batch, i) {
        RefusalMeans(l, batch, i + 1);
      } else {
        assert NamesFirst(l, batch, i, CheckBatch(l, batch, i).value);
      }
    }
  }

  /** Command i is the first that is not fine; missing names come before a missing body, and that before a taken id. */
  predicate NamesFirst(l: Log, batch: seq<Command>, i: nat, e: CreateError)
    requires i < |batch|
  {
    && (forall k :: 0 <= k < i ==> Fine(l, batch, k)) && !Fine(l, batch, i)
    && (e == InvalidIdentity <==> |batch[i].id| == 0 || |batch[i].agent| == 0)
    && (e == MissingBody <==> |batch[i].id| > 0 && |batch[i].agent| > 0 && !batch[i].hasBody)
    && e != StoreFull
  }

  /** A batch is refused for want of room exactly when all of it is fine and the unfinished commands leave too little. */
  lemma StoreFullExactly(l: Log, batch: seq<Command>)
    requires Valid(l)
    ensures Create(l, batch).0 == Some(StoreFull) <==>
              (forall k :: 0 <= k < |batch| ==> Fine(l, batch, k)) && |l.commands| - |l.terminal| + |batch| > l.capacity
  {
    RefusalMeans(l, batch, 0);
  }

  /** The first acknowledgement of a pending command decides its status and finishes it; it alone changes. */
  lemma AcknowledgeMeans(l: Log, id: string, status: Status)
    requires Valid(l) && status != Pending
    ensures var m := Acknowledge(l, id, status);
            && m.commands.Keys == l.commands.Keys && m.next == l.next && m.capacity == l.capacity
            && (forall x :: x in l.commands && x != id ==> m.commands[x] == l.commands[x])
            && (id in l.commands && l.commands[id].status == Pending ==>
                  && m.commands[id] == Record(l.commands[id].command, status)
                  && m.terminal == l.terminal + [id])
            && (id !in l.commands || l.commands[id].status != Pending ==> m == l)
  {
  }

  /** A page is a run of the queue that starts at its first command above the cursor and is cut at the limit, 256 at most. */
  lemma PageMeans(l: Log, agent: string, after: nat, limit: int) returns (start: nat)
    requires QueueValid(l, agent)
    ensures var q, out := QueueOf(l, agent), PendingAfter(l, agent, after, limit);
            var most := if 1 <= limit <= 256 then limit else 256;
            && start + |out| <= |q| && out == q[start..start + |out|]
            && (forall k :: 0 <= k < |q| ==> (q[k].number > after <==> k >= start))
            && |out| <= most && (|out| < most ==> start + |out| == |q|)
  {
    var q := QueueOf(l, agent);
    start := Boundary(q, after);
    AboveSorted(q, after, start);
  }

  lemma {:induction false} Boundary(q: seq<Command>, after: nat) returns (start: nat)
    requires Sorted(q)
    ensures start <= |q| && forall k :: 0 <= k < |q| ==> (q[k].number > after <==> k >= start)
  {
    start := |q|;
    while start > 0 && q[start - 1].number > after
      invariant start <= |q| && forall k :: start <= k < |q| ==> q[k].number > after
    {
      start := start - 1;
    }
  }

  method FirstAbove(records: seq<Command>, after: nat) returns (start: nat)
    requires Sorted(records)
    ensures start <= |records|
    ensures forall k :: 0 <= k < |records| ==> (records[k].number > after <==> start <= k)
  {
    var hi := |records|;
    start := 0;
    while start < hi
      invariant start <= hi <= |records|
      invariant forall k :: 0 <= k < start ==> records[k].number <= after
      invariant forall k :: hi <= k < |records| ==> records[k].number > after
    {
      var mid := (start + hi) / 2;
      if records[mid].number <= after {
        start := mid + 1;
      } else {
        hi := mid;
      }
    }
  }

  method PageAbove(records: seq<Command>, after: nat, most: nat) returns (out: seq<Command>)
    requires Sorted(records)
    ensures out == Take(Above(records, after), most)
  {
    var start := FirstAbove(records, after);
    AboveSorted(records, after, start);
    var count := if most < |records| - start then most else |records| - start;
    out := records[start..start + count];
  }

  // ---- the object ----

  datatype AckStatus = Applied | Duplicate | Refused | Unspecified

  datatype AckError = InvalidStatus | NotFound

  function StatusOf(status: AckStatus): Option<Status> {
    match status
    case Applied | Duplicate => Some(Acked)
    case Refused => Some(Rejected)
    case Unspecified => None
  }

  class MemoryStore {
    var commands: map<string, Record>
    var pendingByAgent: map<string, seq<Command>>
    var terminal: seq<string>
    var next: nat
    var capacity: nat

    ghost function Contents(): Log
      reads this
    {
      Log(commands, pendingByAgent, terminal, next, capacity)
    }

    constructor (limit: int)
      ensures Contents() == Empty(if limit <= 0 then 100_000 else limit) && Valid(Contents())
    {
      commands, pendingByAgent, terminal, next := map[], map[], [], 0;
      capacity := if limit <= 0 then 100_000 else limit;
    }

    method ForgetOldest()
      requires terminal != []
      modifies this
      ensures Contents() == DropOldest(old(Contents()))
    {
      commands := commands - {terminal[0]};
      terminal := terminal[1..];
    }

    method MakeRoom(needed: nat) returns (ok: bool)
      modifies this
      ensures ok <==> Overflow(old(Contents()), needed) <= |old(terminal)|
      ensures Contents() == if ok then Evict(old(Contents()), Overflow(old(Contents()), needed)) else old(Contents())
    {
      ghost var was := Contents();
      var overflow := |commands| + needed - capacity;
      if overflow <= 0 {
        EvictNone(was);
        return true;
      }
      if overflow > |terminal| {
        return false;
      }
      EvictNone(was);
      for n := 0 to overflow
        invariant Contents() == Evict(was, n)
      {
        EvictStep(was, n);
        ForgetOldest();
      }
      return true;
    }

    method ValidateBatch(batch: seq<Command>) returns (r: Option<CreateError>)
      ensures r == CheckBatch(Contents(), batch, 0)
    {
      var seen: set<string> := {};
      for i := 0 to |batch|
        invariant forall id :: id in seen <==> exists k :: 0 <= k < i && batch[k].id == id
        invariant CheckBatch(Contents(), batch, 0) == CheckBatch(Contents(), batch, i)
      {
        var c := batch[i];
        if c.id == "" || c.agent == "" {
          return Some(InvalidIdentity);
        }
        if !c.hasBody {
          return Some(MissingBody);
        }
        if c.id in commands || c.id in seen {
          return Some(DuplicateId);
        }
        seen := seen + {c.id};
      }
      return None;
    }

    method CreateBatch(batch: seq<Command>) returns (r: Option<CreateError>)
      modifies this
      ensures (r, Contents()) == Create(old(Contents()), batch)
    {
      r := ValidateBatch(batch);
      if r.Some? {
        return;
      }
      var ok := MakeRoom(|batch|);
      if !ok {
        return Some(StoreFull);
      }
      ghost var room := Contents();
      for i := 0 to |batch|
        invariant Contents() == InsertAll(room, batch[..i])
      {
        assert batch[..i + 1][..i] == batch[..i];
        Enqueue(batch[i]);
      }
      assert batch[..|batch|] == batch;
    }

    method Enqueue(c: Command)
      modifies this
      ensures Contents() == Insert(old(Contents()), c)
    {
      next := next + 1;
      var stored := c.(number := next);
      commands := commands[stored.id := Record(stored, Pending)];
      var queue := if stored.agent in pendingByAgent then pendingByAgent[stored.agent] else [];
      pendingByAgent := pendingByAgent[stored.agent := queue + [stored]];
    }

    /** Binary search for the cursor, then one slice: the first `limit` of a linear filter. */
    method PendingFor(agent: string, after: nat, limit: int) returns (out: seq<Command>)
      requires QueueValid(Contents(), agent)
      ensures out == PendingAfter(Contents(), agent, after, limit)
    {
      var most := if limit <= 0 || limit > BATCH_SIZE then BATCH_SIZE else limit;
      var records := if agent in pendingByAgent then pendingByAgent[agent] else [];
      out := PageAbove(records, after, most);
    }

    method AcknowledgeCommand(id: string, status: AckStatus) returns (e: Option<AckError>)
      requires Valid(Contents())
      modifies this
      ensures e == if status == Unspecified then Some(InvalidStatus) else if id !in old(commands) then Some(NotFound) else None
      ensures Contents() == if e.Some? then old(Contents()) else Acknowledge(old(Contents()), id, StatusOf(status).value)
      ensures e.None? && old(commands)[id].status == Pending ==>
                && id in commands && terminal == old(terminal) + [id]
                && commands[id].status == if status == Refused then Rejected else Acked
    {
      ghost var was := Contents();
      var state := StatusOf(status);
      if state.None? {
        return Some(InvalidStatus);
      }
      if id !in commands {
        return Some(NotFound);
      }
      var record := commands[id];
      if record.status == Pending {
        commands := commands[id := Record(record.command, state.value)];
        RemovePending(was, record.command);
        terminal := terminal + [id];
      }
      return None;
    }

    method RemovePending(ghost was: Log, target: Command)
      requires Valid(was) && target.id in was.commands && was.commands[target.id] == Record(target, Pending)
      requires pendingByAgent == was.pending
      modifies this`pendingByAgent
      ensures pendingByAgent == WithQueue(was.pending, target.agent, Remove(QueueOf(was, target.agent), target.id))
    {
      ghost var at := RemoveFromQueue(was, target.agent, target.id);
      var records := if target.agent in pendingByAgent then pendingByAgent[target.agent] else [];
      var i := 0;
      while i < |records|
        invariant 0 <= i <= at
        invariant pendingByAgent == was.pending
      {
        if records[i].id == target.id {
          records := records[..i] + records[i + 1..];
          if |records| == 0 {
            pendingByAgent := pendingByAgent - {target.agent};
          } else {
            pendingByAgent := pendingByAgent[target.agent := records];
          }
          return;
        }
        i := i + 1;
      }
      assert false;
    }
  }
}

/**
 * The runs a flow has: a node graph that may contain cycles, executed node by node.
 *
 * `Legal` says which trees of node executions are runs. What a run was told on the way is recorded in
 * it: the conditions' answers, the outcomes of the actions and the random draws come from a `World`;
 * sleeps and cancellation are free.
 */
module FlowRuns {
  import opened Values

  datatype Strategy = Resume | Abort | SkipRest

  datatype OnError = OnError(ignoreCodes: set<int>, handler: string, maxRetries: int, retryDelayMs: int, strategy: Strategy)

  const DEFAULT_DELAY := 1000

  // A condition as prepared at load time: not given, only blanks, never prepared, or ready to ask.
  datatype Condition = Absent | Blank | Unprepared | Prepared

  datatype Case = Case(condition: Condition, next: string)
  datatype Choice = Choice(node: string, weight: int)

  datatype Node =
    | Sequence(next: seq<string>)
    | Action(action: string, onError: Option<OnError>, listens: nat, delayMs: int)
    | Loop(body: string, loopCount: int, condition: Condition, breakCondition: Condition)
    | Boolean(condition: Condition, trueNext: string, falseNext: string)
    | Switch(cases: seq<Case>, defaultNext: string)
    | Weighted(options: seq<Choice>)
    | Wait(waitMs: int, waitMin: int, waitMax: int, after: string)
    | Break
    | Continue
    | Unknown

  datatype Flow = Flow(nodes: map<string, Node>, actions: set<string>, defaultDelayMs: int)

  // How a node ends. The first four are control flow; the rest leave the whole run.
  datatype Signal =
    | Done
    | BreakOut
    | NextRound
    | SkipBranch
    | Canceled
    | Failed
    | OutOfFuel

  // How a call to the action handler ends.
  datatype Attempt = Succeeded | CanceledCall | CodedError(code: int) | OtherError

  // The truth of a condition: settled without asking, or as the handler answered.
  datatype Answer = Fixed(holds: bool) | Asked(holds: bool)

  datatype Draw = Draw(r: nat, total: nat)

  // A cooperative sleep: it ends by itself, or canceled.
  datatype Pause = Pause(ms: int, canceled: bool)

  // The registration of a node's listens.
  datatype Listen = NotAsked | Registered | Refused | Interrupted

  // A run of one node: what it was told, which child runs it made, and how it ended.
  datatype Run =
    | Entered(id: string, sig: Signal)
    | SequenceRun(id: string, children: seq<Run>, sig: Signal)
    | LoopRun(id: string, rounds: seq<Round>, refusal: Option<Answer>, sig: Signal)
    | BranchRun(id: string, answers: seq<Answer>, draw: Option<Draw>, target: string, child: Option<Run>, sig: Signal)
    | WaitRun(id: string, draw: Option<Draw>, pause: Option<Pause>, child: Option<Run>, sig: Signal)
    | ActionRun(id: string, tries: seq<Try>, listen: Listen, delays: seq<Option<Pause>>, sig: Signal)

  // One execution of a loop body, between the answers of the loop's condition and its break condition.
  datatype Round = Round(entry: Option<Answer>, body: Run, exit: Option<Answer>)

  // One call of an action, the run of its error handler, and the pause before the next call.
  datatype Try = Try(attempt: Attempt, handler: Option<Run>, pause: Option<Pause>)

  // ---- what a run is told ----

  // The k-th thing a run asks for, of whichever kind it is.
  datatype World = World(answer: nat -> bool, attempt: nat -> Attempt, draw: nat -> nat)

  datatype Reply = Held(holds: bool) | Ended(attempt: Attempt) | Drew(draw: Draw)

  predicate Gives(w: World, k: nat, reply: Reply) {
    match reply
    case Held(holds) => holds == w.answer(k)
    case Ended(a) => a == w.attempt(k)
    case Drew(d) => d.total > 0 && d.r == w.draw(k) % d.total
  }

  /** From `at` on the world gives these replies, and `next` is the place after them. */
  predicate Tells(w: World, at: nat, replies: seq<Reply>, next: nat) {
    next == at + |replies| && forall k :: 0 <= k < |replies| ==> Gives(w, at + k, replies[k])
  }

  lemma TellsMore(w: World, at: nat, first: seq<Reply>, mid: nat, second: seq<Reply>, next: nat)
    requires Tells(w, at, first, mid) && Tells(w, mid, second, next)
    ensures Tells(w, at, first + second, next)
  {
    var replies := first + second;
    forall k | 0 <= k < |replies| ensures Gives(w, at + k, replies[k]) {
      if k >= |first| {
        assert Gives(w, mid + (k - |first|), second[k - |first|]);
      }
    }
  }

  function Concat<T>(parts: seq<seq<T>>): seq<T> {
    if |parts| == 0 then [] else Concat(parts[..|parts| - 1]) + parts[|parts| - 1]
  }

  function AnswerReplies(a: Answer): seq<Reply> {
    if a.Asked? then [Held(a.holds)] else []
  }

  function MaybeAnswered(a: Option<Answer>): seq<Reply> {
    if a.Some? then AnswerReplies(a.value) else []
  }

  function MaybeDrawn(d: Option<Draw>): seq<Reply> {
    if d.Some? then [Drew(d.value)] else []
  }

  function AnswersReplies(answers: seq<Answer>): seq<Reply> {
    Concat(seq(|answers|, i requires 0 <= i < |answers| => AnswerReplies(answers[i])))
  }

  /** All replies recorded in a run, in the order they were asked for. */
  function Replies(r: Run): seq<Reply>
    decreases r
  {
    match r
    case Entered(_, _) => []
    case SequenceRun(_, children, _) => Concat(seq(|children|, i requires 0 <= i < |children| => Replies(children[i])))
    case LoopRun(_, rounds, refusal, _) =>
      Concat(seq(|rounds|, i requires 0 <= i < |rounds| => RoundReplies(rounds[i]))) + MaybeAnswered(refusal)
    case BranchRun(_, answers, draw, _, child, _) =>
      AnswersReplies(answers) + MaybeDrawn(draw) + if child.Some? then Replies(child.value) else []
    case WaitRun(_, draw, _, child, _) => MaybeDrawn(draw) + if child.Some? then Replies(child.value) else []
    case ActionRun(_, tries, _, _, _) => Concat(seq(|tries|, i requires 0 <= i < |tries| => TryReplies(tries[i])))
  }

  function RoundReplies(c: Round): seq<Reply>
    decreases c
  {
    MaybeAnswered(c.entry) + Replies(c.body) + MaybeAnswered(c.exit)
  }

  function TryReplies(t: Try): seq<Reply>
    decreases t
  {
    [Ended(t.attempt)] + if t.handler.Some? then Replies(t.handler.value) else []
  }

  function ChildReplies(children: seq<Run>): seq<Reply> {
    Concat(seq(|children|, i requires 0 <= i < |children| => Replies(children[i])))
  }

  function RoundsReplies(rounds: seq<Round>): seq<Reply> {
    Concat(seq(|rounds|, i requires 0 <= i < |rounds| => RoundReplies(rounds[i])))
  }

  function TriesReplies(tries: seq<Try>): seq<Reply> {
    Concat(seq(|tries|, i requires 0 <= i < |tries| => TryReplies(tries[i])))
  }

  lemma ConcatOne<T>(parts: seq<seq<T>>, more: seq<seq<T>>, last: seq<T>)
    requires more == parts + [last]
    ensures Concat(more) == Concat(parts) + last
  {
    assert more[..|more| - 1] == parts;
  }

  lemma OneMoreAnswer(answers: seq<Answer>, a: Answer)
    ensures AnswersReplies(answers + [a]) == AnswersReplies(answers) + AnswerReplies(a)
  {
    var all := answers + [a];
    ConcatOne(seq(|answers|, i requires 0 <= i < |answers| => AnswerReplies(answers[i])),
              seq(|all|, i requires 0 <= i < |all| => AnswerReplies(all[i])), AnswerReplies(a));
  }

  lemma OneMoreChild(children: seq<Run>, c: Run)
    ensures ChildReplies(children + [c]) == ChildReplies(children) + Replies(c)
  {
    var all := children + [c];
    ConcatOne(seq(|children|, i requires 0 <= i < |children| => Replies(children[i])),
              seq(|all|, i requires 0 <= i < |all| => Replies(all[i])), Replies(c));
  }

  lemma OneMoreRound(rounds: seq<Round>, c: Round)
    ensures RoundsReplies(rounds + [c]) == RoundsReplies(rounds) + RoundReplies(c)
  {
    var all := rounds + [c];
    ConcatOne(seq(|rounds|, i requires 0 <= i < |rounds| => RoundReplies(rounds[i])),
              seq(|all|, i requires 0 <= i < |all| => RoundReplies(all[i])), RoundReplies(c));
  }

  lemma OneMoreTry(tries: seq<Try>, t: Try)
    ensures TriesReplies(tries + [t]) == TriesReplies(tries) + TryReplies(t)
  {
    var all := tries + [t];
    ConcatOne(seq(|tries|, i requires 0 <= i < |tries| => TryReplies(tries[i])),
              seq(|all|, i requires 0 <= i < |all| => TryReplies(all[i])), TryReplies(t));
  }

  // ---- what a signal can mean ----

  /** The edges of the graph other than the one into a loop body. */
  predicate Edge(flow: Flow, a: string, c: string) {
    a in flow.nodes &&
    match flow.nodes[a]
    case Sequence(next) => c in next
    case Action(_, onError, _, _) => onError.Some? && onError.value.handler == c
    case Boolean(_, t, f) => c == t || c == f
    case Switch(cases, d) => c == d || exists k :: 0 <= k < |cases| && cases[k].next == c
    case Weighted(options) => exists k :: 0 <= k < |options| && options[k].node == c && options[k].weight > 0
    case Wait(_, _, _, t) => c == t
    case _ => false
  }

  predicate ThenEdge(flow: Flow, a: string, c: string) {
    a in flow.nodes && flow.nodes[a].Wait? && flow.nodes[a].after == c
  }

  predicate Walk(flow: Flow, p: seq<string>) {
    p != [] && forall k :: 0 <= k < |p| - 1 ==> Edge(flow, p[k], p[k + 1])
  }

  predicate ThenWalk(flow: Flow, p: seq<string>) {
    p != [] && forall k :: 0 <= k < |p| - 1 ==> ThenEdge(flow, p[k], p[k + 1])
  }

  /** From id, a walk that enters no loop body ends in a node `target`. */
  ghost predicate Reaches(flow: Flow, id: string, target: Node) {
    exists p: seq<string> :: Walk(flow, p) && p[0] == id && p[|p| - 1] in flow.nodes && flow.nodes[p[|p| - 1]] == target
  }

  predicate SkipsOnError(n: Node) {
    n.Action? && n.onError.Some? && n.onError.value.strategy == SkipRest
  }

  /** From id, a chain of waits ends in an action node whose error strategy is skip. */
  ghost predicate ReachesSkip(flow: Flow, id: string) {
    exists p: seq<string> :: ThenWalk(flow, p) && p[0] == id && p[|p| - 1] in flow.nodes && SkipsOnError(flow.nodes[p[|p| - 1]])
  }

  lemma ReachesVia(flow: Flow, a: string, c: string, target: Node)
    requires Edge(flow, a, c) && Reaches(flow, c, target)
    ensures Reaches(flow, a, target)
  {
    var p: seq<string> :| Walk(flow, p) && p[0] == c && p[|p| - 1] in flow.nodes && flow.nodes[p[|p| - 1]] == target;
    var q := [a] + p;
    assert q[|q| - 1] == p[|p| - 1];
    forall k | 0 <= k < |q| - 1 ensures Edge(flow, q[k], q[k + 1]) {
      assert k > 0 ==> q[k] == p[k - 1];
    }
    assert Walk(flow, q);
  }

  lemma ReachesSkipVia(flow: Flow, a: string, c: string)
    requires ThenEdge(flow, a, c) && ReachesSkip(flow, c)
    ensures ReachesSkip(flow, a)
  {
    var p: seq<string> :| ThenWalk(flow, p) && p[0] == c && p[|p| - 1] in flow.nodes && SkipsOnError(flow.nodes[p[|p| - 1]]);
    var q := [a] + p;
    assert q[|q| - 1] == p[|p| - 1];
    forall k | 0 <= k < |q| - 1 ensures ThenEdge(flow, q[k], q[k + 1]) {
      assert k > 0 ==> q[k] == p[k - 1];
    }
    assert ThenWalk(flow, q);
  }

  lemma ReachesItself(flow: Flow, id: string)
    requires id in flow.nodes
    ensures Reaches(flow, id, flow.nodes[id])
    ensures SkipsOnError(flow.nodes[id]) ==> ReachesSkip(flow, id)
  {
    assert Walk(flow, [id]) && ThenWalk(flow, [id]);
  }

  /** A signal that leaves id is accounted for by the graph. */
  ghost predicate Justified(flow: Flow, id: string, sig: Signal) {
    match sig
    case BreakOut => Reaches(flow, id, Break)
    case NextRound => Reaches(flow, id, Continue)
    case SkipBranch => ReachesSkip(flow, id)
    case _ => true
  }

  /** A signal other than skip passes through an edge that is not a loop body. */
  lemma JustifiedVia(flow: Flow, a: string, c: string, sig: Signal)
    requires Edge(flow, a, c) && Justified(flow, c, sig) && sig != SkipBranch
    ensures Justified(flow, a, sig)
  {
    if sig == BreakOut {
      ReachesVia(flow, a, c, Break);
    } else if sig == NextRound {
      ReachesVia(flow, a, c, Continue);
    }
  }

  // ---- retries ----

  function MaxRetries(n: Node): nat
    requires n.Action?
  {
    if n.onError.None? || n.onError.value.maxRetries <= 0 then 0 else n.onError.value.maxRetries
  }

  predicate Ignored(n: Node, a: Attempt)
    requires n.Action?
  {
    a.CodedError? && n.onError.Some? && a.code in n.onError.value.ignoreCodes
  }

  /** An outcome after which the action may be tried again. */
  predicate Retriable(n: Node, a: Attempt)
    requires n.Action?
  {
    (a.CodedError? || a.OtherError?) && !Ignored(n, a)
  }

  function HandlerOf(n: Node): string
    requires n.Action?
  {
    if n.onError.Some? then n.onError.value.handler else ""
  }

  // ---- weighted choice ----

  function Clamp(w: int): nat {
    if w < 0 then 0 else w
  }

  function Total(options: seq<Choice>, n: nat): nat
    requires n <= |options|
  {
    if n == 0 then 0 else Total(options, n - 1) + Clamp(options[n - 1].weight)
  }

  /** r falls into the share of option i. */
  predicate Selects(options: seq<Choice>, r: int, i: nat) {
    i < |options| && Total(options, i) <= r < Total(options, i + 1)
  }

  method TotalWeight(options: seq<Choice>) returns (total: nat)
    ensures total == Total(options, |options|)
  {
    total := 0;
    for i := 0 to |options|
      invariant total == Total(options, i)
    {
      total := total + Clamp(options[i].weight);
    }
  }

  /** The option a draw selects. A draw below the total always selects one, so the loop never falls through. */
  method Pick(options: seq<Choice>, r: nat) returns (choice: Option<nat>)
    ensures choice.Some? ==> Selects(options, r, choice.value)
    ensures choice.Some? <==> r < Total(options, |options|)
  {
    var cumulative := 0;
    for i := 0 to |options|
      invariant cumulative == Total(options, i) && cumulative <= r
    {
      cumulative := cumulative + Clamp(options[i].weight);
      if r < cumulative {
        TotalMonotone(options, i + 1, |options|);
        return Some(i);
      }
    }
    return None;
  }

  lemma {:induction false} TotalMonotone(options: seq<Choice>, i: nat, j: nat)
    requires i <= j <= |options|
    ensures Total(options, i) <= Total(options, j)
    decreases j
  {
    if i < j {
      TotalMonotone(options, i, j - 1);
    }
  }

  /** At most one option is selected by a draw. */
  lemma SelectsOne(options: seq<Choice>, r: int, i: nat, j: nat)
    requires Selects(options, r, i) && Selects(options, r, j)
    ensures i == j
  {
    if i < j {
      TotalMonotone(options, i + 1, j);
    } else if j < i {
      TotalMonotone(options, j + 1, i);
    }
  }

  function Interval(lo: int, n: nat): set<int> {
    if n == 0 then {} else Interval(lo, n - 1) + {lo + n - 1}
  }

  lemma {:induction false} IntervalSize(lo: int, n: nat)
    ensures |Interval(lo, n)| == n
    ensures forall r :: r in Interval(lo, n) <==> lo <= r < lo + n
    decreases n
  {
    if n > 0 {
      IntervalSize(lo, n - 1);
    }
  }

  /** The draws in [0, total) that select option i. */
  function Draws(options: seq<Choice>, i: nat): set<int> {
    set r | r in Interval(0, Total(options, |options|)) && Selects(options, r, i)
  }

  /** Of the draws in [0, total), exactly max(weight, 0) select option i. */
  lemma WeightedChoiceIsExact(options: seq<Choice>, i: nat)
    requires i < |options|
    ensures |Draws(options, i)| == Clamp(options[i].weight)
  {
    var lo, n := Total(options, i), Clamp(options[i].weight);
    TotalMonotone(options, 0, i);
    TotalMonotone(options, i + 1, |options|);
    IntervalSize(lo, n);
    IntervalSize(0, Total(options, |options|));
    assert Total(options, 0) == 0 && Total(options, i + 1) == lo + n;
    forall r ensures r in Draws(options, i) <==> r in Interval(lo, n) {
      assert r in Interval(lo, n) <==> lo <= r < lo + n;
      assert r in Interval(0, Total(options, |options|)) <==> 0 <= r < Total(options, |options|);
    }
    assert Draws(options, i) == Interval(lo, n);
  }

  // ---- the runs a flow has ----

  /** Blank is true, unprepared is false, the rest is asked. */
  predicate CanBe(c: Condition, a: Answer) {
    match c
    case Absent => a == Fixed(true)
    case Blank => a == Fixed(true)
    case Unprepared => a == Fixed(false)
    case Prepared => a.Asked?
  }

  function ApplyStrategy(n: Node): (sig: Signal)
    requires n.Action?
    ensures sig == SkipBranch <==> SkipsOnError(n)
    ensures sig.Done? || sig.Failed? || sig.SkipBranch?
  {
    if n.onError.None? then Done
    else
      match n.onError.value.strategy
      case Abort => Failed
      case SkipRest => SkipBranch
      case Resume => Done
  }

  function DelayOf(flow: Flow, n: Node): int
    requires n.Action?
  {
    if n.delayMs != 0 then n.delayMs else if flow.defaultDelayMs != 0 then flow.defaultDelayMs else DEFAULT_DELAY
  }

  /** A delay is slept unless it is negative. */
  predicate Delayed(ms: int, pause: Option<Pause>) {
    if ms < 0 then pause.None? else pause.Some? && pause.value.ms == ms
  }

  predicate Cut(pause: Option<Pause>) {
    pause.Some? && pause.value.canceled
  }

  /** How an action that counts as done ends: its listens may fail to register, its delays may be canceled. */
  predicate Finishes(flow: Flow, n: Node, listen: Listen, delays: seq<Option<Pause>>, sig: Signal)
    requires n.Action?
  {
    && (listen == NotAsked <==> n.listens == 0)
    && (forall k :: 0 <= k < |delays| ==> Delayed(DelayOf(flow, n), delays[k]))
    && match listen
       case Interrupted => |delays| == 0 && sig == Canceled
       case Refused =>
         && 1 <= |delays| <= 2
         && (|delays| == 2 <==> !Cut(delays[0]) && ApplyStrategy(n) == Done)
         && sig == if Cut(delays[|delays| - 1]) then Canceled else ApplyStrategy(n)
       case _ => |delays| == 1 && sig == if Cut(delays[0]) then Canceled else Done
  }

  function Caught(sig: Signal): Signal {
    if sig == SkipBranch then Done else sig
  }

  predicate LegalEntry(flow: Flow, id: string, sig: Signal) {
    || sig == Canceled || sig == OutOfFuel
    || (if id !in flow.nodes then sig == Failed
        else
          match flow.nodes[id]
          case Break => sig == BreakOut
          case Continue => sig == NextRound
          case Unknown => sig == Failed
          case _ => false)
  }

  /** Children run in order, each but the last to completion; a skip ends the sequence normally. */
  predicate LegalSequence(next: seq<string>, children: seq<Run>, sig: Signal) {
    && |children| <= |next|
    && (forall k :: 0 <= k < |children| ==> children[k].id == next[k])
    && (forall k :: 0 <= k < |children| - 1 ==> children[k].sig == Done)
    && if children != [] && children[|children| - 1].sig != Done then sig == Caught(children[|children| - 1].sig)
       else if |children| == |next| then sig == Done
       else sig == Canceled
  }

  /** One branch is followed; an empty target ends it, and a skip ends it normally. */
  predicate Follows(target: string, child: Option<Run>, sig: Signal) {
    if target == "" then child.None? && sig == Done
    else child.Some? && child.value.id == target && sig == Caught(child.value.sig)
  }

  predicate LegalBoolean(n: Node, answers: seq<Answer>, target: string, child: Option<Run>, sig: Signal)
    requires n.Boolean?
  {
    && |answers| == 1 && CanBe(n.condition, answers[0])
    && target == (if answers[0].holds then n.trueNext else n.falseNext)
    && Follows(target, child, sig)
  }

  /** Cases are asked in order up to the first that holds, unless cancellation comes first. */
  predicate LegalSwitch(n: Node, answers: seq<Answer>, target: string, child: Option<Run>, sig: Signal)
    requires n.Switch?
  {
    && |answers| <= |n.cases|
    && (forall k :: 0 <= k < |answers| ==> CanBe(n.cases[k].condition, answers[k]))
    && (forall k :: 0 <= k < |answers| - 1 ==> !answers[k].holds)
    && if answers != [] && answers[|answers| - 1].holds then
         target == n.cases[|answers| - 1].next && Follows(target, child, sig)
       else if |answers| == |n.cases| then
         target == n.defaultNext && Follows(target, child, sig)
       else
         child.None? && sig == Canceled
  }

  predicate LegalWeighted(n: Node, draw: Option<Draw>, target: string, child: Option<Run>, sig: Signal)
    requires n.Weighted?
  {
    var total := Total(n.options, |n.options|);
    if n.options == [] then draw.None? && child.None? && sig == Done
    else if total == 0 then draw.None? && child.None? && sig == Failed
    else
      && draw.Some? && draw.value.total == total
      && (exists k :: 0 <= k < |n.options| && Selects(n.options, draw.value.r, k) && target == n.options[k].node)
      && child.Some? && child.value.id == target && sig == Caught(child.value.sig)
  }

  predicate LegalBranch(n: Node, answers: seq<Answer>, draw: Option<Draw>, target: string, child: Option<Run>, sig: Signal) {
    match n
    case Boolean(_, _, _) => draw.None? && LegalBoolean(n, answers, target, child, sig)
    case Switch(_, _) => draw.None? && LegalSwitch(n, answers, target, child, sig)
    case Weighted(_) => |answers| == 0 && LegalWeighted(n, draw, target, child, sig)
    case _ => false
  }

  /** Rounds go on while the body ends normally or continues, the break condition fails and the count allows. */
  predicate LegalLoop(n: Node, rounds: seq<Round>, refusal: Option<Answer>, sig: Signal)
    requires n.Loop?
  {
    && (n.loopCount >= 0 ==> |rounds| <= n.loopCount)
    && (forall k :: 0 <= k < |rounds| ==> LegalRound(n, rounds[k]))
    && (forall k :: 0 <= k < |rounds| - 1 ==> GoesOn(rounds[k]))
    && if rounds != [] && !GoesOn(rounds[|rounds| - 1]) then
         var last := rounds[|rounds| - 1].body.sig;
         refusal.None? && sig == if last.Canceled? || last.Failed? || last.OutOfFuel? then last else Done
       else if |rounds| == n.loopCount then refusal.None? && sig == Done
       else if refusal.Some? then
         n.condition != Absent && CanBe(n.condition, refusal.value) && !refusal.value.holds && sig == Done
       else sig == Canceled || sig == OutOfFuel
  }

  /** A condition that is given is asked and answered. */
  predicate Answered(c: Condition, a: Option<Answer>) {
    if c == Absent then a.None? else a.Some? && CanBe(c, a.value)
  }

  predicate LegalRound(n: Node, r: Round)
    requires n.Loop?
  {
    && Answered(n.condition, r.entry) && (r.entry.Some? ==> r.entry.value.holds)
    && r.body.id == n.body
    && Answered(if r.body.sig == Done || r.body.sig == NextRound then n.breakCondition else Absent, r.exit)
  }

  predicate GoesOn(r: Round) {
    (r.body.sig == Done || r.body.sig == NextRound) && (r.exit.Some? ==> !r.exit.value.holds)
  }

  /** Both ends of the range are positive and in order. */
  predicate IsDrawn(n: Node)
    requires n.Wait?
  {
    n.waitMin > 0 && n.waitMax > n.waitMin
  }

  predicate LegalDraw(n: Node, draw: Option<Draw>)
    requires n.Wait?
  {
    if IsDrawn(n) then draw.Some? && draw.value.total == n.waitMax - n.waitMin + 1 else draw.None?
  }

  function WaitTime(n: Node, draw: Option<Draw>): int
    requires n.Wait? && LegalDraw(n, draw)
  {
    if IsDrawn(n) then n.waitMin + draw.value.r
    else if n.waitMin > 0 && n.waitMax > 0 then n.waitMin
    else if n.waitMin > 0 || n.waitMax > 0 then 0
    else n.waitMs
  }

  /** Nothing is slept unless the time is positive; the next node's signal, skip included, passes through. */
  predicate LegalWait(n: Node, draw: Option<Draw>, pause: Option<Pause>, child: Option<Run>, sig: Signal)
    requires n.Wait?
  {
    && LegalDraw(n, draw)
    && (if WaitTime(n, draw) > 0 then pause.Some? && pause.value.ms == WaitTime(n, draw) else pause.None?)
    && if Cut(pause) then child.None? && sig == Canceled
       else if n.after == "" then child.None? && sig == Done
       else child.Some? && child.value.id == n.after && sig == child.value.sig
  }

  /** Failures worth retrying run the error handler; other outcomes do not. */
  predicate LegalTry(n: Node, t: Try)
    requires n.Action?
  {
    if Retriable(n, t.attempt) && HandlerOf(n) != "" then t.handler.Some? && t.handler.value.id == HandlerOf(n)
    else t.handler.None?
  }

  /** The handler, if there is one, let the action go on. */
  predicate HandlerPassed(t: Try) {
    t.handler.None? || t.handler.value.sig == Done || t.handler.value.sig == SkipBranch
  }

  /** The pause before the next call. */
  predicate RetryPause(n: Node, pause: Option<Pause>)
    requires n.Action? && n.onError.Some?
  {
    if n.onError.value.retryDelayMs > 0 then pause.Some? && pause.value.ms == n.onError.value.retryDelayMs else pause.None?
  }

  /** A failure worth retrying whose handler passed and whose pause ended by itself. */
  predicate GoesAgain(n: Node, t: Try)
    requires n.Action?
  {
    Retriable(n, t.attempt) && HandlerPassed(t) && n.onError.Some? && RetryPause(n, t.pause) && !Cut(t.pause)
  }

  /** The call after which no other comes decides how the node ends. */
  predicate LegalLast(flow: Flow, n: Node, tries: seq<Try>, listen: Listen, delays: seq<Option<Pause>>, sig: Signal)
    requires n.Action? && tries != []
  {
    var last := tries[|tries| - 1];
    if last.attempt.Succeeded? || Ignored(n, last.attempt) then
      last.pause.None? && Finishes(flow, n, listen, delays, sig)
    else
      && listen == NotAsked
      && if last.attempt.CanceledCall? then last.pause.None? && |delays| == 0 && sig == Canceled
         else if !HandlerPassed(last) then last.pause.None? && |delays| == 0 && sig == last.handler.value.sig
         else if |tries| <= MaxRetries(n) then RetryPause(n, last.pause) && Cut(last.pause) && |delays| == 0 && sig == Canceled
         else
           && last.pause.None? && |delays| == 1 && Delayed(DelayOf(flow, n), delays[0])
           && sig == if Cut(delays[0]) then Canceled else ApplyStrategy(n)
  }

  /** Between one and 1 + maxRetries calls, each but the last a failure that is tried again. */
  predicate LegalAction(flow: Flow, n: Node, tries: seq<Try>, listen: Listen, delays: seq<Option<Pause>>, sig: Signal)
    requires n.Action?
  {
    if n.action == "" then
      && |tries| == 0
      && if n.listens == 0 then listen == NotAsked && |delays| == 0 && sig == Done
         else Finishes(flow, n, listen, delays, sig)
    else if n.action !in flow.actions then
      |tries| == 0 && listen == NotAsked && |delays| == 0 && sig == Failed
    else
      && 1 <= |tries| <= 1 + MaxRetries(n)
      && (forall k :: 0 <= k < |tries| ==> LegalTry(n, tries[k]))
      && (forall k :: 0 <= k < |tries| - 1 ==> GoesAgain(n, tries[k]))
      && LegalLast(flow, n, tries, listen, delays, sig)
  }

  predicate Legal(flow: Flow, r: Run)
    decreases r
  {
    match r
    case Entered(id, sig) => LegalEntry(flow, id, sig)
    case SequenceRun(id, children, sig) =>
      && id in flow.nodes && flow.nodes[id].Sequence? && LegalSequence(flow.nodes[id].next, children, sig)
      && forall k :: 0 <= k < |children| ==> Legal(flow, children[k])
    case LoopRun(id, rounds, refusal, sig) =>
      && id in flow.nodes && flow.nodes[id].Loop? && LegalLoop(flow.nodes[id], rounds, refusal, sig)
      && forall k :: 0 <= k < |rounds| ==> Legal(flow, rounds[k].body)
    case BranchRun(id, answers, draw, target, child, sig) =>
      && id in flow.nodes && LegalBranch(flow.nodes[id], answers, draw, target, child, sig)
      && (child.Some? ==> Legal(flow, child.value))
    case WaitRun(id, draw, pause, child, sig) =>
      && id in flow.nodes && flow.nodes[id].Wait? && LegalWait(flow.nodes[id], draw, pause, child, sig)
      && (child.Some? ==> Legal(flow, child.value))
    case ActionRun(id, tries, listen, delays, sig) =>
      && id in flow.nodes && flow.nodes[id].Action? && LegalAction(flow, flow.nodes[id], tries, listen, delays, sig)
      && forall k :: 0 <= k < |tries| ==> tries[k].handler.Some? ==> Legal(flow, tries[k].handler.value)
  }

  // ---- where control signals come from ----

  lemma FollowedIsEdge(flow: Flow, r: Run)
    requires Legal(flow, r) && r.BranchRun? && r.child.Some?
    ensures Edge(flow, r.id, r.child.value.id)
  {
    if flow.nodes[r.id].Weighted? {
      var options := flow.nodes[r.id].options;
      var k :| 0 <= k < |options| && Selects(options, r.draw.value.r, k) && r.target == options[k].node;
      assert options[k].weight > 0;
    }
  }

  lemma SequencePasses(flow: Flow, r: Run)
    requires Legal(flow, r) && r.SequenceRun?
    requires r.children != [] ==> var last := r.children[|r.children| - 1]; Justified(flow, last.id, last.sig)
    ensures Justified(flow, r.id, r.sig)
  {
    if r.children != [] && r.sig != Done && r.sig != Canceled {
      var last := r.children[|r.children| - 1];
      JustifiedVia(flow, r.id, last.id, r.sig);
    }
  }

  lemma BranchPasses(flow: Flow, r: Run)
    requires Legal(flow, r) && r.BranchRun?
    requires r.child.Some? ==> Justified(flow, r.child.value.id, r.child.value.sig)
    ensures Justified(flow, r.id, r.sig)
  {
    if r.child.Some? && r.child.value.sig != SkipBranch {
      FollowedIsEdge(flow, r);
      JustifiedVia(flow, r.id, r.child.value.id, r.sig);
    }
  }

  lemma WaitPasses(flow: Flow, r: Run)
    requires Legal(flow, r) && r.WaitRun?
    requires r.child.Some? ==> Justified(flow, r.child.value.id, r.child.value.sig)
    ensures Justified(flow, r.id, r.sig)
  {
    if r.child.Some? {
      if r.sig == SkipBranch {
        ReachesSkipVia(flow, r.id, r.child.value.id);
      } else {
        JustifiedVia(flow, r.id, r.child.value.id, r.sig);
      }
    }
  }

  /** What an action ends with: its handler's signal if the last handler did not pass, else nothing but a skip of its own. */
  lemma ActionEnds(flow: Flow, r: Run)
    requires Legal(flow, r) && r.ActionRun?
    ensures var n := flow.nodes[r.id];
            || (r.sig == Done || r.sig == Canceled || r.sig == Failed)
            || (r.sig == SkipBranch && SkipsOnError(n))
            || (r.tries != [] && var h := r.tries[|r.tries| - 1].handler;
                h.Some? && HandlerOf(n) != "" && h.value.id == HandlerOf(n) && r.sig == h.value.sig && r.sig != SkipBranch)
  {
    if r.tries != [] {
      assert LegalTry(flow.nodes[r.id], r.tries[|r.tries| - 1]);
    }
  }

  lemma ActionPasses(flow: Flow, r: Run)
    requires Legal(flow, r) && r.ActionRun?
    requires r.tries != [] ==> var h := r.tries[|r.tries| - 1].handler; h.Some? ==> Justified(flow, h.value.id, h.value.sig)
    ensures Justified(flow, r.id, r.sig)
  {
    ActionEnds(flow, r);
    ReachesItself(flow, r.id);
    if r.sig == BreakOut || r.sig == NextRound {
      JustifiedVia(flow, r.id, HandlerOf(flow.nodes[r.id]), r.sig);
    }
  }

  /**
   * In every legal run, a break or continue that leaves a node was raised along a walk that enters
   * no loop body, and a skip that leaves it came along waits from an action that skips on error.
   */
  lemma {:induction false} SignalsAreJustified(flow: Flow, r: Run)
    requires Legal(flow, r)
    ensures Justified(flow, r.id, r.sig)
    decreases r
  {
    match r
    case Entered(id, _) =>
      if id in flow.nodes {
        ReachesItself(flow, id);
      }
    case LoopRun(_, _, _, _) =>
    case SequenceRun(_, children, _) =>
      if children != [] {
        SignalsAreJustified(flow, children[|children| - 1]);
      }
      SequencePasses(flow, r);
    case BranchRun(_, _, _, _, child, _) =>
      if child.Some? {
        SignalsAreJustified(flow, child.value);
      }
      BranchPasses(flow, r);
    case WaitRun(_, _, _, child, _) =>
      if child.Some? {
        SignalsAreJustified(flow, child.value);
      }
      WaitPasses(flow, r);
    case ActionRun(_, tries, _, _, _) =>
      if tries != [] && tries[|tries| - 1].handler.Some? {
        SignalsAreJustified(flow, tries[|tries| - 1].handler.value);
      }
      ActionPasses(flow, r);
  }

  // ---- running out of fuel ----

  /** The run is as deep as `fuel` allows: a chain of that many nested node calls, or a loop of as many rounds as are left, at its end. */
  predicate Exhausts(r: Run, fuel: nat)
    decreases r
  {
    match r
    case Entered(_, _) => fuel == 0
    case SequenceRun(_, children, _) => fuel > 0 && children != [] && Exhausts(children[|children| - 1], fuel - 1)
    case LoopRun(_, rounds, _, _) =>
      |rounds| == fuel || (fuel > 0 && rounds != [] && Exhausts(rounds[|rounds| - 1].body, fuel - 1))
    case BranchRun(_, _, _, _, child, _) => fuel > 0 && child.Some? && Exhausts(child.value, fuel - 1)
    case WaitRun(_, _, _, child, _) => fuel > 0 && child.Some? && Exhausts(child.value, fuel - 1)
    case ActionRun(_, tries, _, _, _) =>
      && fuel > 0 && tries != [] && tries[|tries| - 1].handler.Some?
      && Exhausts(tries[|tries| - 1].handler.value, fuel - 1)
  }

  /** r is a run of node id, and gave up for lack of fuel only when it had used it all. */
  predicate RunOf(flow: Flow, id: string, fuel: nat, r: Run) {
    Legal(flow, r) && r.id == id && (r.sig == OutOfFuel ==> Exhausts(r, fuel))
  }
}

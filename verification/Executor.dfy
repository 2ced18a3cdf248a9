/**
 * The flow executor. The conditions' answers, the outcomes of the actions and the random draws are read
 * off a `World`, one after the other; sleeps, listen registrations and cancellation are arbitrary choices
 * at the point where they are consulted. What the methods promise holds for every world and every schedule.
 * `fuel` bounds the depth of node calls and the rounds of each loop.
 */
module Executor {
  import opened Values
  import opened FlowRuns

  /** r is a run of node id that was told what the world says from `at` to `next`. */
  ghost predicate RunIn(flow: Flow, w: World, id: string, fuel: nat, at: nat, r: Run, next: nat) {
    RunOf(flow, id, fuel, r) && Tells(w, at, Replies(r), next)
  }

  method Evaluate(w: World, c: Condition, at: nat) returns (a: Answer, next: nat)
    ensures CanBe(c, a) && Tells(w, at, AnswerReplies(a), next)
  {
    match c
    case Absent => return Fixed(true), at;
    case Blank => return Fixed(true), at;
    case Unprepared => return Fixed(false), at;
    case Prepared => return Asked(w.answer(at)), at + 1;
  }

  /** Evaluates a condition if there is one. */
  method EvaluateGiven(w: World, c: Condition, at: nat) returns (a: Option<Answer>, next: nat)
    ensures Answered(c, a) && Tells(w, at, MaybeAnswered(a), next)
  {
    if c == Absent { return None, at; }
    var answer;
    answer, next := Evaluate(w, c, at);
    a := Some(answer);
  }

  /** A random number below total. */
  method DrawBelow(w: World, total: nat, at: nat) returns (d: Draw, next: nat)
    requires total > 0
    ensures d.total == total && d.r < total && Tells(w, at, [Drew(d)], next)
  {
    return Draw(w.draw(at) % total, total), at + 1;
  }

  /** A cooperative sleep ends by itself or canceled. */
  method Sleep(ms: int) returns (pause: Pause)
    ensures pause.ms == ms
  {
    var canceled: bool := *;
    pause := Pause(ms, canceled);
  }

  method NodeDelay(flow: Flow, n: Node) returns (pause: Option<Pause>)
    requires n.Action?
    ensures Delayed(DelayOf(flow, n), pause)
  {
    var standard := if flow.defaultDelayMs == 0 then DEFAULT_DELAY else flow.defaultDelayMs;
    var ms := if n.delayMs == 0 then standard else n.delayMs;
    if ms < 0 { return None; }
    var slept := Sleep(ms);
    pause := Some(slept);
  }

  /** Executes a node and returns its run. */
  method ExecuteNode(flow: Flow, w: World, id: string, fuel: nat, at: nat) returns (r: Run, next: nat)
    ensures RunIn(flow, w, id, fuel, at, r, next)
    decreases fuel, 3
  {
    if fuel == 0 { return Entered(id, OutOfFuel), at; }
    if * { return Entered(id, Canceled), at; }
    if id !in flow.nodes { return Entered(id, Failed), at; }
    match flow.nodes[id]
    case Sequence(_) => r, next := ExecuteSequence(flow, w, id, fuel, at);
    case Action(_, _, _, _) => r, next := ExecuteAction(flow, w, id, fuel, at);
    case Loop(_, _, _, _) => r, next := ExecuteLoop(flow, w, id, fuel, at);
    case Boolean(_, _, _) => r, next := ExecuteBoolean(flow, w, id, fuel, at);
    case Switch(_, _) => r, next := ExecuteSwitch(flow, w, id, fuel, at);
    case Weighted(_) => r, next := ExecuteWeighted(flow, w, id, fuel, at);
    case Wait(_, _, _, _) => r, next := ExecuteWait(flow, w, id, fuel, at);
    case Break => return Entered(id, BreakOut), at;
    case Continue => return Entered(id, NextRound), at;
    case Unknown => return Entered(id, Failed), at;
  }

  lemma ChildTold(w: World, at: nat, children: seq<Run>, mid: nat, c: Run, next: nat)
    requires Tells(w, at, ChildReplies(children), mid) && Tells(w, mid, Replies(c), next)
    ensures Tells(w, at, ChildReplies(children + [c]), next)
  {
    OneMoreChild(children, c);
    TellsMore(w, at, ChildReplies(children), mid, Replies(c), next);
  }

  method ExecuteSequence(flow: Flow, w: World, id: string, fuel: nat, at: nat) returns (r: Run, next: nat)
    requires id in flow.nodes && flow.nodes[id].Sequence? && fuel > 0
    ensures RunIn(flow, w, id, fuel, at, r, next)
    decreases fuel, 1
  {
    var ids := flow.nodes[id].next;
    var children: seq<Run> := [];
    var sig := Done;
    next := at;
    for i := 0 to |ids|
      invariant |children| == i && sig == Done
      invariant forall k :: 0 <= k < i ==> children[k].id == ids[k] && children[k].sig == Done && Legal(flow, children[k])
      invariant Tells(w, at, ChildReplies(children), next)
    {
      if * {
        sig := Canceled;
        break;
      }
      var c, after := ExecuteNode(flow, w, ids[i], fuel - 1, next);
      ChildTold(w, at, children, next, c, after);
      children, next := children + [c], after;
      if c.sig != Done {
        sig := Caught(c.sig);
        break;
      }
    }
    r := SequenceRun(id, children, sig);
  }

  /** Follows one branch; an empty target ends it, and a skip ends it normally. */
  method ExecuteBranch(flow: Flow, w: World, target: string, fuel: nat, at: nat) returns (child: Option<Run>, sig: Signal, next: nat)
    requires fuel > 0
    ensures Follows(target, child, sig) && Tells(w, at, if child.Some? then Replies(child.value) else [], next)
    ensures child.Some? ==> Legal(flow, child.value) && (sig == OutOfFuel ==> Exhausts(child.value, fuel - 1))
    decreases fuel, 0
  {
    if |target| == 0 { return None, Done, at; }
    var c;
    c, next := ExecuteNode(flow, w, target, fuel - 1, at);
    child, sig := Some(c), if c.sig == SkipBranch then Done else c.sig;
  }

  method ExecuteBoolean(flow: Flow, w: World, id: string, fuel: nat, at: nat) returns (r: Run, next: nat)
    requires id in flow.nodes && flow.nodes[id].Boolean? && fuel > 0
    ensures RunIn(flow, w, id, fuel, at, r, next)
    decreases fuel, 1
  {
    var n := flow.nodes[id];
    var a, asked := Evaluate(w, n.condition, at);
    OneMoreAnswer([], a);
    var target := if a.holds then n.trueNext else n.falseNext;
    var child, sig;
    child, sig, next := ExecuteBranch(flow, w, target, fuel, asked);
    r := BranchRun(id, [a], None, target, child, sig);
    assert [] + [a] == [a];
    TellsMore(w, at, AnswersReplies([a]) + MaybeDrawn(None), asked, if child.Some? then Replies(child.value) else [], next);
  }

  method ExecuteSwitch(flow: Flow, w: World, id: string, fuel: nat, at: nat) returns (r: Run, next: nat)
    requires id in flow.nodes && flow.nodes[id].Switch? && fuel > 0
    ensures RunIn(flow, w, id, fuel, at, r, next)
    decreases fuel, 1
  {
    var n := flow.nodes[id];
    var answers: seq<Answer> := [];
    var target := n.defaultNext;
    next := at;
    for i := 0 to |n.cases|
      invariant |answers| == i && target == n.defaultNext
      invariant forall k :: 0 <= k < i ==> CanBe(n.cases[k].condition, answers[k]) && !answers[k].holds
      invariant Tells(w, at, AnswersReplies(answers), next)
    {
      if * { return BranchRun(id, answers, None, "", None, Canceled), next; }
      var a, after := Evaluate(w, n.cases[i].condition, next);
      OneMoreAnswer(answers, a);
      TellsMore(w, at, AnswersReplies(answers), next, AnswerReplies(a), after);
      answers, next := answers + [a], after;
      if a.holds {
        target := n.cases[i].next;
        break;
      }
    }
    var child, sig, after := ExecuteBranch(flow, w, target, fuel, next);
    TellsMore(w, at, AnswersReplies(answers) + MaybeDrawn(None), next, if child.Some? then Replies(child.value) else [], after);
    r, next := BranchRun(id, answers, None, target, child, sig), after;
  }

  method ExecuteWeighted(flow: Flow, w: World, id: string, fuel: nat, at: nat) returns (r: Run, next: nat)
    requires id in flow.nodes && flow.nodes[id].Weighted? && fuel > 0
    ensures RunIn(flow, w, id, fuel, at, r, next)
    decreases fuel, 1
  {
    var options := flow.nodes[id].options;
    if |options| == 0 { return BranchRun(id, [], None, "", None, Done), at; }
    var total := TotalWeight(options);
    if total <= 0 { return BranchRun(id, [], None, "", None, Failed), at; }
    var draw, drawn := DrawBelow(w, total, at);
    var choice := Pick(options, draw.r);
    var target := options[choice.value].node;
    var c;
    c, next := ExecuteNode(flow, w, target, fuel - 1, drawn);
    TellsMore(w, at, AnswersReplies([]) + [Drew(draw)], drawn, Replies(c), next);
    r := BranchRun(id, [], Some(draw), target, Some(c), if c.sig == SkipBranch then Done else c.sig);
  }

  ghost predicate AllGoOn(flow: Flow, n: Node, rounds: seq<Round>)
    requires n.Loop?
  {
    forall k :: 0 <= k < |rounds| ==> LegalRound(n, rounds[k]) && GoesOn(rounds[k]) && Legal(flow, rounds[k].body)
  }

  /** The rounds and the refusal are those of a loop that ends with sig. */
  ghost predicate LoopIn(flow: Flow, w: World, n: Node, fuel: nat, at: nat, rounds: seq<Round>, refusal: Option<Answer>, sig: Signal, next: nat)
    requires n.Loop?
  {
    && LegalLoop(n, rounds, refusal, sig) && (forall k :: 0 <= k < |rounds| ==> Legal(flow, rounds[k].body))
    && Tells(w, at, RoundsReplies(rounds) + MaybeAnswered(refusal), next)
    && (sig == OutOfFuel ==> |rounds| == fuel || (fuel > 0 && rounds != [] && Exhausts(rounds[|rounds| - 1].body, fuel - 1)))
  }

  lemma StopsBetween(flow: Flow, w: World, n: Node, fuel: nat, at: nat, rounds: seq<Round>, refusal: Option<Answer>, sig: Signal, mid: nat, next: nat)
    requires n.Loop? && AllGoOn(flow, n, rounds) && (n.loopCount >= 0 ==> |rounds| <= n.loopCount)
    requires Tells(w, at, RoundsReplies(rounds), mid) && Tells(w, mid, MaybeAnswered(refusal), next)
    requires LegalLoop(n, rounds, refusal, sig) && (sig == OutOfFuel ==> |rounds| == fuel)
    ensures LoopIn(flow, w, n, fuel, at, rounds, refusal, sig, next)
  {
    TellsMore(w, at, RoundsReplies(rounds), mid, MaybeAnswered(refusal), next);
  }

  lemma RoundTold(w: World, at: nat, rounds: seq<Round>, mid: nat, c: Round, next: nat)
    requires Tells(w, at, RoundsReplies(rounds), mid) && Tells(w, mid, RoundReplies(c), next)
    ensures Tells(w, at, RoundsReplies(rounds + [c]), next)
  {
    OneMoreRound(rounds, c);
    TellsMore(w, at, RoundsReplies(rounds), mid, RoundReplies(c), next);
  }

  lemma StopsAfter(flow: Flow, w: World, n: Node, fuel: nat, at: nat, rounds: seq<Round>, c: Round, sig: Signal, next: nat)
    requires n.Loop? && AllGoOn(flow, n, rounds) && (n.loopCount >= 0 ==> |rounds| < n.loopCount)
    requires LegalRound(n, c) && !GoesOn(c) && Legal(flow, c.body)
    requires Tells(w, at, RoundsReplies(rounds + [c]), next)
    requires sig == if c.body.sig.Canceled? || c.body.sig.Failed? || c.body.sig.OutOfFuel? then c.body.sig else Done
    requires c.body.sig == OutOfFuel ==> fuel > 0 && Exhausts(c.body, fuel - 1)
    ensures LoopIn(flow, w, n, fuel, at, rounds + [c], None, sig, next)
  {
    var all := rounds + [c];
    assert all[|all| - 1] == c && forall k :: 0 <= k < |rounds| ==> all[k] == rounds[k];
    assert RoundsReplies(all) + MaybeAnswered(None) == RoundsReplies(all);
  }

  method ExecuteLoop(flow: Flow, w: World, id: string, fuel: nat, at: nat) returns (r: Run, next: nat)
    requires id in flow.nodes && flow.nodes[id].Loop? && fuel > 0
    ensures RunIn(flow, w, id, fuel, at, r, next)
    decreases fuel, 2
  {
    var rounds, refusal, sig;
    rounds, refusal, sig, next := ExecuteRounds(flow, w, flow.nodes[id], fuel, at);
    r := LoopRun(id, rounds, refusal, sig);
  }

  method ExecuteRounds(flow: Flow, w: World, n: Node, fuel: nat, at: nat)
    returns (rounds: seq<Round>, refusal: Option<Answer>, sig: Signal, next: nat)
    requires n.Loop? && fuel > 0
    ensures LoopIn(flow, w, n, fuel, at, rounds, refusal, sig, next)
    decreases fuel, 1
  {
    rounds, refusal, sig, next := [], None, Done, at;
    while n.loopCount < 0 || |rounds| < n.loopCount
      invariant |rounds| <= fuel && (n.loopCount >= 0 ==> |rounds| <= n.loopCount)
      invariant refusal == None && sig == Done && AllGoOn(flow, n, rounds)
      invariant Tells(w, at, RoundsReplies(rounds), next)
      decreases fuel - |rounds|
    {
      if |rounds| == fuel {
        sig := OutOfFuel;
        break;
      }
      if * {
        sig := Canceled;
        break;
      }
      var entry, asked := EvaluateGiven(w, n.condition, next);
      if entry.Some? && !entry.value.holds {
        StopsBetween(flow, w, n, fuel, at, rounds, entry, Done, next, asked);
        return rounds, entry, Done, asked;
      }
      var c, after := ExecuteRound(flow, w, n, entry, fuel, next, asked);
      RoundTold(w, at, rounds, next, c, after);
      if !GoesOn(c) {
        sig := if c.body.sig.Canceled? || c.body.sig.Failed? || c.body.sig.OutOfFuel? then c.body.sig else Done;
        StopsAfter(flow, w, n, fuel, at, rounds, c, sig, after);
        return rounds + [c], None, sig, after;
      }
      rounds, next := rounds + [c], after;
    }
    StopsBetween(flow, w, n, fuel, at, rounds, refusal, sig, next, next);
  }

  /** One round: the body, then, if the body ended normally or continued, the break condition. */
  method ExecuteRound(flow: Flow, w: World, n: Node, entry: Option<Answer>, fuel: nat, at: nat, asked: nat) returns (c: Round, next: nat)
    requires n.Loop? && fuel > 0
    requires Answered(n.condition, entry) && (entry.Some? ==> entry.value.holds) && Tells(w, at, MaybeAnswered(entry), asked)
    ensures LegalRound(n, c) && RunOf(flow, n.body, fuel - 1, c.body) && Tells(w, at, RoundReplies(c), next)
    decreases fuel, 0
  {
    var body, ran := ExecuteNode(flow, w, n.body, fuel - 1, asked);
    TellsMore(w, at, MaybeAnswered(entry), asked, Replies(body), ran);
    var exit: Option<Answer>, next' := None, ran;
    if body.sig == NextRound || body.sig == Done {
      exit, next' := EvaluateGiven(w, n.breakCondition, ran);
    }
    c, next := Round(entry, body, exit), next';
    TellsMore(w, at, MaybeAnswered(entry) + Replies(body), ran, MaybeAnswered(exit), next);
  }

  /** How long to wait: a random time from the range, its lower end, or the fixed time. */
  method ChooseWait(w: World, n: Node, at: nat) returns (ms: int, draw: Option<Draw>, next: nat)
    requires n.Wait?
    ensures LegalDraw(n, draw) && ms == WaitTime(n, draw) && Tells(w, at, MaybeDrawn(draw), next)
  {
    draw, next := None, at;
    if n.waitMin > 0 && n.waitMax > 0 {
      ms := n.waitMin;
      if n.waitMin < n.waitMax {
        var d;
        d, next := DrawBelow(w, n.waitMax - n.waitMin + 1, at);
        ms, draw := d.r + n.waitMin, Some(d);
      }
    } else if n.waitMin > 0 || n.waitMax > 0 {
      ms := 0;
    } else {
      ms := n.waitMs;
    }
  }

  /** Sleeps, then hands over to the next node; even a skip passes through. */
  method ExecuteWait(flow: Flow, w: World, id: string, fuel: nat, at: nat) returns (r: Run, next: nat)
    requires id in flow.nodes && flow.nodes[id].Wait? && fuel > 0
    ensures RunIn(flow, w, id, fuel, at, r, next)
    decreases fuel, 1
  {
    var n := flow.nodes[id];
    var ms, draw, drawn := ChooseWait(w, n, at);
    var pause: Option<Pause> := None;
    if ms > 0 {
      var slept := Sleep(ms);
      pause := Some(slept);
      if slept.canceled { return WaitRun(id, draw, pause, None, Canceled), drawn; }
    }
    if |n.after| == 0 { return WaitRun(id, draw, pause, None, Done), drawn; }
    var c;
    c, next := ExecuteNode(flow, w, n.after, fuel - 1, drawn);
    TellsMore(w, at, MaybeDrawn(draw), drawn, Replies(c), next);
    r := WaitRun(id, draw, pause, Some(c), c.sig);
  }

  /** Registers the node's listens, then waits out its delay; a refused registration is waited out before the strategy decides. */
  method FinishAction(flow: Flow, n: Node) returns (listen: Listen, delays: seq<Option<Pause>>, sig: Signal)
    requires n.Action?
    ensures Finishes(flow, n, listen, delays, sig)
  {
    listen, delays := NotAsked, [];
    if n.listens > 0 {
      var answer: Listen :| answer != NotAsked;
      listen := answer;
      if listen == Interrupted { return listen, [], Canceled; }
      if listen == Refused {
        var delay := NodeDelay(flow, n);
        delays := [delay];
        if Cut(delay) { return listen, delays, Canceled; }
        sig := ApplyStrategy(n);
        if sig != Done { return; }
      }
    }
    var delay := NodeDelay(flow, n);
    delays, sig := delays + [delay], if Cut(delay) then Canceled else Done;
  }

  /** Calls the action once and, after a failure, its error handler. */
  method TryAction(flow: Flow, w: World, n: Node, fuel: nat, at: nat) returns (t: Try, next: nat)
    requires n.Action? && fuel > 0
    ensures LegalTry(n, t) && t.pause.None? && Tells(w, at, TryReplies(t), next)
    ensures t.handler.Some? ==> RunOf(flow, HandlerOf(n), fuel - 1, t.handler.value)
    decreases fuel, 0
  {
    t, next := Try(w.attempt(at), None, None), at + 1;
    if Retriable(n, t.attempt) && |HandlerOf(n)| > 0 {
      var h;
      h, next := ExecuteNode(flow, w, HandlerOf(n), fuel - 1, at + 1);
      TellsMore(w, at, [Ended(t.attempt)], at + 1, Replies(h), next);
      t := Try(t.attempt, Some(h), None);
    }
  }

  /** Whether the action is called again, after the pause between calls, when `left` tells that retries are left. */
  method PauseBeforeRetry(n: Node, t: Try, left: bool) returns (paused: Try, again: bool)
    requires n.Action? && t.pause.None? && (left ==> n.onError.Some?)
    ensures paused == t.(pause := paused.pause) && (again ==> left && GoesAgain(n, paused))
    ensures if left && Retriable(n, t.attempt) && HandlerPassed(t)
            then RetryPause(n, paused.pause) && again == !Cut(paused.pause) else paused == t
  {
    paused, again := t, left && Retriable(n, t.attempt) && HandlerPassed(t);
    if again && n.onError.value.retryDelayMs > 0 {
      var slept := Sleep(n.onError.value.retryDelayMs);
      paused, again := t.(pause := Some(slept)), !slept.canceled;
    }
  }

  /** The last call is not followed by another, and a handler that ran out of fuel had used it all. */
  ghost predicate CallsEnded(n: Node, fuel: nat, tries: seq<Try>)
    requires n.Action?
  {
    && 0 < |tries|
    && var last := tries[|tries| - 1];
       && (if |tries| <= MaxRetries(n) && Retriable(n, last.attempt) && HandlerPassed(last)
           then RetryPause(n, last.pause) && Cut(last.pause) else last.pause.None?)
       && (last.handler.Some? && last.handler.value.sig == OutOfFuel ==> fuel > 0 && Exhausts(last.handler.value, fuel - 1))
  }

  /** How the node ends after its last call: the next branch by outcome, then by handler, then by retries. */
  method EndAction(flow: Flow, n: Node, fuel: nat, tries: seq<Try>) returns (listen: Listen, delays: seq<Option<Pause>>, sig: Signal)
    requires n.Action? && |tries| <= 1 + MaxRetries(n) && CallsEnded(n, fuel, tries)
    ensures LegalLast(flow, n, tries, listen, delays, sig)
  {
    var last := tries[|tries| - 1];
    listen, delays := NotAsked, [];
    if last.attempt.Succeeded? || Ignored(n, last.attempt) {
      listen, delays, sig := FinishAction(flow, n);
    } else if last.attempt.CanceledCall? {
      sig := Canceled;
    } else if !HandlerPassed(last) {
      sig := last.handler.value.sig;
    } else if |tries| <= MaxRetries(n) {
      sig := Canceled;
    } else {
      var delay := NodeDelay(flow, n);
      delays, sig := [delay], if Cut(delay) then Canceled else ApplyStrategy(n);
    }
  }

  /** Tries the action until it succeeds, is canceled or ignored, or the retries are used up. */
  method ExecuteAction(flow: Flow, w: World, id: string, fuel: nat, at: nat) returns (r: Run, next: nat)
    requires id in flow.nodes && flow.nodes[id].Action? && fuel > 0
    ensures RunIn(flow, w, id, fuel, at, r, next)
    decreases fuel, 1
  {
    var n := flow.nodes[id];
    next := at;
    if |n.action| == 0 {
      if n.listens == 0 { return ActionRun(id, [], NotAsked, [], Done), next; }
      var listen, delays, sig := FinishAction(flow, n);
      return ActionRun(id, [], listen, delays, sig), next;
    }
    if n.action !in flow.actions { return ActionRun(id, [], NotAsked, [], Failed), next; }
    var tries: seq<Try>, again := [], true;
    while again
      invariant |tries| <= if again then MaxRetries(n) else 1 + MaxRetries(n)
      invariant forall k :: 0 <= k < |tries| ==>
                              LegalTry(n, tries[k]) && (tries[k].handler.Some? ==> Legal(flow, tries[k].handler.value))
      invariant forall k :: 0 <= k < (if again then |tries| else |tries| - 1) ==> GoesAgain(n, tries[k])
      invariant Tells(w, at, TriesReplies(tries), next)
      invariant again || CallsEnded(n, fuel, tries)
      decreases again, MaxRetries(n) - |tries|
    {
      var t, after := TryAction(flow, w, n, fuel, next);
      t, again := PauseBeforeRetry(n, t, |tries| < MaxRetries(n));
      OneMoreTry(tries, t);
      TellsMore(w, at, TriesReplies(tries), next, TryReplies(t), after);
      tries, next := tries + [t], after;
    }
    var listen, delays, sig := EndAction(flow, n, fuel, tries);
    r := ActionRun(id, tries, listen, delays, sig);
  }

  const MAIN := "main"

  /** A whole run from the entry node. */
  method RunFlow(flow: Flow, w: World, fuel: nat) returns (r: Run)
    ensures RunOf(flow, MAIN, fuel, r) && Tells(w, 0, Replies(r), |Replies(r)|)
    ensures r.sig == BreakOut ==> Reaches(flow, MAIN, Break)
    ensures r.sig == NextRound ==> Reaches(flow, MAIN, Continue)
    ensures r.sig == SkipBranch ==> ReachesSkip(flow, MAIN)
  {
    var next;
    r, next := ExecuteNode(flow, w, MAIN, fuel, 0);
    SignalsAreJustified(flow, r);
  }
}

/**
 * What the runs of a flow mean, node by node: which way each answer, draw and outcome that was
 * given to a node sends it, and which part of the world each of them was read from.
 */
module FlowMeaning {
  import opened Values
  import opened FlowRuns

  /** A prepared condition is asked; otherwise only an unprepared one fails. */
  predicate Says(c: Condition, a: Answer) {
    (a.Asked? <==> c.Prepared?) && (!a.Asked? ==> (a.holds <==> !c.Unprepared?))
  }

  /** The node a branch went to decides how it ended, except that a skip stops there. */
  predicate WentTo(r: Run, target: string)
    requires r.BranchRun?
  {
    && r.target == target
    && (target == "" ==> r.child.None? && r.sig == Done)
    && (target != "" ==>
          && r.child.Some? && r.child.value.id == target
          && (r.child.value.sig == SkipBranch ==> r.sig == Done)
          && (r.child.value.sig != SkipBranch ==> r.sig == r.child.value.sig))
  }

  // ---- every node ----

  /** Only break, continue, unknown and missing nodes, cancellation and lack of fuel end a node before it begins. */
  lemma EnteredMeans(flow: Flow, r: Run)
    requires Legal(flow, r) && r.sig != Canceled && r.sig != OutOfFuel
    ensures r.Entered? <==> r.id !in flow.nodes || flow.nodes[r.id].Break? || flow.nodes[r.id].Continue? || flow.nodes[r.id].Unknown?
    ensures r.Entered? ==>
              r.sig == if r.id in flow.nodes && flow.nodes[r.id].Break? then BreakOut
                       else if r.id in flow.nodes && flow.nodes[r.id].Continue? then NextRound else Failed
  {
  }

  /** Children run in the order listed; what one of them ends with other than normally ends the sequence, a skip quietly. */
  lemma SequenceMeans(flow: Flow, r: Run)
    requires Legal(flow, r) && r.SequenceRun?
    ensures r.id in flow.nodes && flow.nodes[r.id].Sequence?
    ensures var next, n := flow.nodes[r.id].next, |r.children|;
            && n <= |next|
            && (forall k :: 0 <= k < n ==> r.children[k].id == next[k])
            && (forall k :: 0 <= k < n && r.children[k].sig != Done ==> k == n - 1)
            && (n > 0 && r.children[n - 1].sig == SkipBranch ==> r.sig == Done)
            && (n > 0 && r.children[n - 1].sig != SkipBranch && r.children[n - 1].sig != Done ==> r.sig == r.children[n - 1].sig)
            && (n == 0 || r.children[n - 1].sig == Done ==> r.sig == if n == |next| then Done else Canceled)
  {
  }

  // ---- branches ----

  /** The true branch is taken if and only if the condition held. */
  lemma BooleanMeans(flow: Flow, r: Run)
    requires Legal(flow, r) && r.BranchRun? && r.id in flow.nodes && flow.nodes[r.id].Boolean?
    ensures var n := flow.nodes[r.id];
            && |r.answers| == 1 && Says(n.condition, r.answers[0])
            && WentTo(r, if r.answers[0].holds then n.trueNext else n.falseNext)
            && (n.trueNext != n.falseNext ==> (r.target == n.trueNext <==> r.answers[0].holds))
  {
  }

  /** Cases are asked in order; the first that holds is taken, and the default when all have failed. */
  lemma SwitchMeans(flow: Flow, r: Run)
    requires Legal(flow, r) && r.BranchRun? && r.id in flow.nodes && flow.nodes[r.id].Switch?
    ensures var n, asked := flow.nodes[r.id], |r.answers|;
            && asked <= |n.cases|
            && (forall k :: 0 <= k < asked ==> Says(n.cases[k].condition, r.answers[k]))
            && (forall k :: 0 <= k < asked && r.answers[k].holds ==> k == asked - 1 && WentTo(r, n.cases[k].next))
            && ((forall k :: 0 <= k < asked ==> !r.answers[k].holds) ==>
                  if asked == |n.cases| then WentTo(r, n.defaultNext) else r.child.None? && r.sig == Canceled)
  {
    var n, asked := flow.nodes[r.id], |r.answers|;
    assert LegalSwitch(n, r.answers, r.target, r.child, r.sig);
    assert forall k :: 0 <= k < asked ==> CanBe(n.cases[k].condition, r.answers[k]);
  }

  /** The draw is below the sum of the positive weights and falls into the share of the option that is run. */
  lemma WeightedMeans(flow: Flow, r: Run)
    requires Legal(flow, r) && r.BranchRun? && r.id in flow.nodes && flow.nodes[r.id].Weighted?
    ensures var options := flow.nodes[r.id].options;
            && (|options| == 0 ==> r.child.None? && r.sig == Done)
            && (|options| > 0 && (forall k :: 0 <= k < |options| ==> options[k].weight <= 0) ==> r.child.None? && r.sig == Failed)
            && ((exists k :: 0 <= k < |options| && options[k].weight > 0) ==>
                  && r.draw.Some? && r.child.Some?
                  && (exists k :: 0 <= k < |options| && r.draw.value.r in Draws(options, k) && r.child.value.id == options[k].node)
                  && (r.child.value.sig == SkipBranch ==> r.sig == Done)
                  && (r.child.value.sig != SkipBranch ==> r.sig == r.child.value.sig))
  {
    var options := flow.nodes[r.id].options;
    if forall k :: 0 <= k < |options| ==> options[k].weight <= 0 {
      NoWeight(options, |options|);
    } else {
      var j :| 0 <= j < |options| && options[j].weight > 0;
      TotalMonotone(options, j + 1, |options|);
      var k :| 0 <= k < |options| && Selects(options, r.draw.value.r, k) && r.target == options[k].node;
      TotalMonotone(options, 0, k);
      TotalMonotone(options, k + 1, |options|);
      IntervalSize(0, Total(options, |options|));
      assert r.draw.value.r in Draws(options, k);
    }
  }

  lemma {:induction false} NoWeight(options: seq<Choice>, n: nat)
    requires n <= |options| && forall k :: 0 <= k < n ==> options[k].weight <= 0
    ensures Total(options, n) == 0
  {
    if n > 0 {
      NoWeight(options, n - 1);
    }
  }

  // ---- loops ----

  predicate Normal(sig: Signal) {
    sig == Done || sig == NextRound
  }

  /** Every round came after the condition held, and every round but the last was not told to stop. */
  lemma RoundsMean(flow: Flow, r: Run, k: nat)
    requires Legal(flow, r) && r.LoopRun? && k < |r.rounds|
    ensures r.id in flow.nodes && flow.nodes[r.id].Loop?
    ensures var n, c := flow.nodes[r.id], r.rounds[k];
            && (n.loopCount >= 0 ==> |r.rounds| <= n.loopCount)
            && (c.entry.None? <==> n.condition.Absent?)
            && (c.entry.Some? ==> Says(n.condition, c.entry.value) && c.entry.value.holds)
            && c.body.id == n.body
            && (c.exit.Some? <==> !n.breakCondition.Absent? && Normal(c.body.sig))
            && (c.exit.Some? ==> Says(n.breakCondition, c.exit.value))
            && (k < |r.rounds| - 1 ==> Normal(c.body.sig) && (c.exit.Some? ==> !c.exit.value.holds))
  {
    assert LegalRound(flow.nodes[r.id], r.rounds[k]);
    assert k < |r.rounds| - 1 ==> GoesOn(r.rounds[k]);
  }

  /** A loop stops only because its body left it, a condition said so, the count is reached, or from outside. */
  lemma LoopMeans(flow: Flow, r: Run)
    requires Legal(flow, r) && r.LoopRun?
    ensures r.id in flow.nodes && flow.nodes[r.id].Loop?
    ensures var n, ran := flow.nodes[r.id], |r.rounds|;
            var left := ran > 0 && !Normal(r.rounds[ran - 1].body.sig);
            var told := ran > 0 && r.rounds[ran - 1].exit.Some? && r.rounds[ran - 1].exit.value.holds;
            && (left ==> r.sig == if r.rounds[ran - 1].body.sig in {Canceled, Failed, OutOfFuel} then r.rounds[ran - 1].body.sig else Done)
            && (told ==> r.sig == Done)
            && (ran == n.loopCount && !left ==> r.sig == Done)
            && (r.refusal.Some? <==> ran != n.loopCount && !left && !told && r.sig == Done)
            && (r.refusal.Some? ==> !n.condition.Absent? && Says(n.condition, r.refusal.value) && !r.refusal.value.holds)
            && (!left ==> r.sig == Done || r.sig == Canceled || r.sig == OutOfFuel)
  {
    if |r.rounds| > 0 {
      RoundsMean(flow, r, |r.rounds| - 1);
    }
  }

  // ---- waits ----

  /** The time to wait by the node alone, and what was drawn from a range that has more than one value. */
  function Time(n: Node, drawn: nat): int
    requires n.Wait?
  {
    if n.waitMin <= 0 && n.waitMax <= 0 then n.waitMs
    else if n.waitMin <= 0 || n.waitMax <= 0 then 0
    else if n.waitMax <= n.waitMin then n.waitMin
    else n.waitMin + drawn
  }

  /** A wait sleeps its time if that is positive, and then ends as the next node does. */
  lemma WaitMeans(flow: Flow, w: World, at: nat, r: Run, next: nat)
    requires Legal(flow, r) && r.WaitRun? && Tells(w, at, Replies(r), next)
    ensures r.id in flow.nodes && flow.nodes[r.id].Wait?
    ensures var n := flow.nodes[r.id];
            var ranged := 0 < n.waitMin < n.waitMax;
            var time := Time(n, if ranged then w.draw(at) % (n.waitMax - n.waitMin + 1) else 0);
            && (ranged ==> n.waitMin <= time <= n.waitMax)
            && (r.pause.Some? <==> time > 0)
            && (r.pause.Some? ==> r.pause.value.ms == time)
            && (r.pause.Some? && r.pause.value.canceled ==> r.child.None? && r.sig == Canceled)
            && (r.pause.None? || !r.pause.value.canceled ==>
                  && (n.after == "" ==> r.child.None? && r.sig == Done)
                  && (n.after != "" ==> r.child.Some? && r.child.value.id == n.after && r.sig == r.child.value.sig))
  {
    var n := flow.nodes[r.id];
    if 0 < n.waitMin < n.waitMax {
      assert Replies(r)[0] == Drew(r.draw.value);
      assert Gives(w, at + 0, Replies(r)[0]);
    }
  }

  // ---- actions ----

  predicate NotIgnored(n: Node, a: Attempt)
    requires n.Action?
  {
    a.OtherError? || (a.CodedError? && (n.onError.None? || a.code !in n.onError.value.ignoreCodes))
  }

  function Tries(n: Node): nat
    requires n.Action?
  {
    if n.onError.Some? && n.onError.value.maxRetries > 0 then 1 + n.onError.value.maxRetries else 1
  }

  /** A call is followed by another exactly when it failed, its handler passed, retries are left and the pause was slept through. */
  lemma CallsMean(flow: Flow, r: Run, k: nat)
    requires Legal(flow, r) && r.ActionRun? && k < |r.tries|
    ensures r.id in flow.nodes && flow.nodes[r.id].Action?
    ensures var n, t := flow.nodes[r.id], r.tries[k];
            var passed := t.handler.None? || t.handler.value.sig == Done || t.handler.value.sig == SkipBranch;
            && |r.tries| <= Tries(n)
            && (t.handler.Some? <==> NotIgnored(n, t.attempt) && n.onError.Some? && n.onError.value.handler != "")
            && (t.handler.Some? ==> t.handler.value.id == n.onError.value.handler)
            && (t.pause.Some? <==> k + 1 < Tries(n) && NotIgnored(n, t.attempt) && passed && n.onError.value.retryDelayMs > 0)
            && (t.pause.Some? ==> t.pause.value.ms == n.onError.value.retryDelayMs)
            && (k + 1 < |r.tries| <==> k + 1 < Tries(n) && NotIgnored(n, t.attempt) && passed && !(t.pause.Some? && t.pause.value.canceled))
  {
    var n := flow.nodes[r.id];
    assert LegalTry(n, r.tries[k]);
    assert k < |r.tries| - 1 ==> GoesAgain(n, r.tries[k]);
  }

  function Wish(n: Node): Signal
    requires n.Action?
  {
    if n.onError.Some? && n.onError.value.strategy == Abort then Failed
    else if n.onError.Some? && n.onError.value.strategy == SkipRest then SkipBranch
    else Done
  }

  /** A failure that is not tried again ends the node as its strategy says, after the delay; a handler or a cancellation may end it before. */
  lemma FailureMeans(flow: Flow, r: Run)
    requires Legal(flow, r) && r.ActionRun? && |r.tries| > 0
    ensures r.id in flow.nodes && flow.nodes[r.id].Action?
    ensures var n, t := flow.nodes[r.id], r.tries[|r.tries| - 1];
            && (t.attempt.CanceledCall? ==> r.sig == Canceled)
            && (NotIgnored(n, t.attempt) ==>
                  if t.handler.Some? && t.handler.value.sig != Done && t.handler.value.sig != SkipBranch then r.sig == t.handler.value.sig
                  else if t.pause.Some? then t.pause.value.canceled && r.sig == Canceled
                  else |r.delays| == 1 && r.sig == if r.delays[0].Some? && r.delays[0].value.canceled then Canceled else Wish(n))
  {
    CallsMean(flow, r, |r.tries| - 1);
  }

  /** An action that succeeded or failed with an ignored code registers its listens and waits out its delay. */
  lemma SuccessMeans(flow: Flow, r: Run)
    requires Legal(flow, r) && r.ActionRun?
    ensures r.id in flow.nodes && flow.nodes[r.id].Action?
    ensures var n, delays := flow.nodes[r.id], r.delays;
            var succeeded := |r.tries| > 0 && !r.tries[|r.tries| - 1].attempt.CanceledCall? && !NotIgnored(n, r.tries[|r.tries| - 1].attempt);
            var canceled := |delays| > 0 && delays[|delays| - 1].Some? && delays[|delays| - 1].value.canceled;
            && (r.listen != NotAsked <==> (succeeded || n.action == "") && n.listens > 0)
            && (r.listen == Registered ==> |delays| == 1 && r.sig == if canceled then Canceled else Done)
            && (succeeded && n.listens == 0 ==> |delays| == 1 && r.sig == if canceled then Canceled else Done)
            && (r.listen == Interrupted ==> r.sig == Canceled)
            && (r.listen == Refused ==> |delays| > 0 && r.sig == if canceled then Canceled else Wish(n))
            && (n.action == "" && n.listens == 0 ==> r.sig == Done)
            && (n.action != "" && n.action !in flow.actions ==> r.sig == Failed)
            && (|r.tries| > 0 <==> n.action != "" && n.action in flow.actions)
  {
  }

  /** Every delay of a node is its own, or the flow's when it has none, or a second; a negative one is not slept. */
  lemma DelaysMean(flow: Flow, r: Run, k: nat)
    requires Legal(flow, r) && r.ActionRun? && k < |r.delays|
    ensures r.id in flow.nodes && flow.nodes[r.id].Action?
    ensures var n := flow.nodes[r.id];
            var ms := if n.delayMs != 0 then n.delayMs else if flow.defaultDelayMs != 0 then flow.defaultDelayMs else 1000;
            && (r.delays[k].None? <==> ms < 0)
            && (r.delays[k].Some? ==> r.delays[k].value.ms == ms)
  {
  }

  // ---- where the answers come from ----

  /** The condition of a boolean node is what the world answers first. */
  lemma BooleanIsTold(flow: Flow, w: World, at: nat, r: Run, next: nat)
    requires Legal(flow, r) && r.BranchRun? && r.id in flow.nodes && flow.nodes[r.id].Boolean? && flow.nodes[r.id].condition.Prepared?
    requires Tells(w, at, Replies(r), next)
    ensures r.target == if w.answer(at) then flow.nodes[r.id].trueNext else flow.nodes[r.id].falseNext
    ensures r.child.Some? ==> Tells(w, at + 1, Replies(r.child.value), next)
  {
    BooleanMeans(flow, r);
    OneAnswer(r.answers);
    BranchIsTold(w, at, r, AnswerReplies(r.answers[0]), next);
    AnswerIsTold(w, at, r.answers[0], at + |AnswerReplies(r.answers[0])|);
  }

  lemma OneAnswer(answers: seq<Answer>)
    requires |answers| == 1
    ensures AnswersReplies(answers) == AnswerReplies(answers[0])
  {
    assert answers == [] + [answers[0]];
    OneMoreAnswer([], answers[0]);
  }

  /** First what decides the branch, then what the node it goes to asks for. */
  lemma BranchIsTold(w: World, at: nat, r: Run, first: seq<Reply>, next: nat)
    requires r.BranchRun? && Tells(w, at, Replies(r), next) && first == AnswersReplies(r.answers) + MaybeDrawn(r.draw)
    ensures Tells(w, at, first, at + |first|)
    ensures r.child.Some? ==> Tells(w, at + |first|, Replies(r.child.value), next)
  {
    Split(w, at, first, if r.child.Some? then Replies(r.child.value) else [], next);
  }

  lemma Split(w: World, at: nat, first: seq<Reply>, second: seq<Reply>, next: nat)
    requires Tells(w, at, first + second, next)
    ensures Tells(w, at, first, at + |first|) && Tells(w, at + |first|, second, next)
  {
    var all := first + second;
    assert forall k :: 0 <= k < |first| ==> all[k] == first[k];
    forall k | 0 <= k < |second| ensures Gives(w, at + |first| + k, second[k]) {
      assert Gives(w, at + (|first| + k), all[|first| + k]);
    }
  }

  /** Places in the world, one part after the other. */
  predicate Places(ps: seq<nat>, n: nat, at: nat, next: nat) {
    |ps| == n + 1 && ps[0] == at && ps[n] == next
  }

  lemma {:induction false} PartsAreTold(w: World, at: nat, parts: seq<seq<Reply>>, next: nat) returns (ps: seq<nat>)
    requires Tells(w, at, Concat(parts), next)
    ensures Places(ps, |parts|, at, next)
    ensures forall k :: 0 <= k < |parts| ==> Tells(w, ps[k], parts[k], ps[k + 1])
  {
    if |parts| == 0 {
      return [at];
    }
    var front, last := parts[..|parts| - 1], parts[|parts| - 1];
    Split(w, at, Concat(front), last, next);
    var before := PartsAreTold(w, at, front, next - |last|);
    ps := before + [next];
  }

  /** An asked answer is the next one of the world; a settled one takes none. */
  predicate AnsweredAt(w: World, at: nat, a: Answer, next: nat) {
    if a.Asked? then a.holds == w.answer(at) && next == at + 1 else next == at
  }

  /** The answers of a switch are what the world answers to the prepared cases, one after the other. */
  lemma SwitchIsTold(flow: Flow, w: World, at: nat, r: Run, next: nat) returns (ps: seq<nat>)
    requires Legal(flow, r) && r.BranchRun? && r.id in flow.nodes && flow.nodes[r.id].Switch?
    requires Tells(w, at, Replies(r), next)
    ensures |ps| == |r.answers| + 1 && ps[0] == at
    ensures forall k :: 0 <= k < |r.answers| ==> AnsweredAt(w, ps[k], r.answers[k], ps[k + 1])
    ensures r.child.Some? ==> Tells(w, ps[|r.answers|], Replies(r.child.value), next)
  {
    var answers := AnswersReplies(r.answers);
    assert answers + MaybeDrawn(r.draw) == answers;
    BranchIsTold(w, at, r, answers, next);
    ps := AnswersAreTold(w, at, r.answers, at + |answers|);
  }

  lemma AnswersAreTold(w: World, at: nat, answers: seq<Answer>, next: nat) returns (ps: seq<nat>)
    requires Tells(w, at, AnswersReplies(answers), next)
    ensures Places(ps, |answers|, at, next)
    ensures forall k :: 0 <= k < |answers| ==> AnsweredAt(w, ps[k], answers[k], ps[k + 1])
  {
    var parts := seq(|answers|, i requires 0 <= i < |answers| => AnswerReplies(answers[i]));
    ps := PartsAreTold(w, at, parts, next);
    forall k | 0 <= k < |answers| ensures AnsweredAt(w, ps[k], answers[k], ps[k + 1]) {
      assert Tells(w, ps[k], parts[k], ps[k + 1]);
      AnswerIsTold(w, ps[k], answers[k], ps[k + 1]);
    }
  }

  lemma AnswerIsTold(w: World, at: nat, a: Answer, next: nat)
    requires Tells(w, at, AnswerReplies(a), next)
    ensures AnsweredAt(w, at, a, next)
  {
    if a.Asked? {
      assert Gives(w, at + 0, AnswerReplies(a)[0]);
    }
  }

  /** The draw of a weighted node is the first number below the total that the world draws. */
  lemma WeightedIsTold(flow: Flow, w: World, at: nat, r: Run, next: nat)
    requires Legal(flow, r) && r.BranchRun? && r.id in flow.nodes && flow.nodes[r.id].Weighted? && r.draw.Some?
    requires Tells(w, at, Replies(r), next)
    ensures r.draw.value.total > 0 && r.draw.value.r == w.draw(at) % r.draw.value.total && r.child.Some?
    ensures Tells(w, at + 1, Replies(r.child.value), next)
  {
    WeightedMeans(flow, r);
    var drawn := [Drew(r.draw.value)];
    assert AnswersReplies(r.answers) + MaybeDrawn(r.draw) == drawn;
    BranchIsTold(w, at, r, drawn, next);
    assert Gives(w, at + 0, drawn[0]);
  }

  /** The children of a sequence are told one after the other. */
  lemma SequenceIsTold(w: World, at: nat, r: Run, next: nat) returns (ps: seq<nat>)
    requires r.SequenceRun? && Tells(w, at, Replies(r), next)
    ensures Places(ps, |r.children|, at, next)
    ensures forall k :: 0 <= k < |r.children| ==> Tells(w, ps[k], Replies(r.children[k]), ps[k + 1])
  {
    ps := PartsAreTold(w, at, seq(|r.children|, i requires 0 <= i < |r.children| => Replies(r.children[i])), next);
  }

  /** A loop round is told the answer of its condition, then what its body asks for, then the answer of its break condition. */
  ghost predicate RoundIsTold(w: World, at: nat, c: Round, next: nat) {
    var start := if c.entry.Some? && c.entry.value.Asked? then at + 1 else at;
    var end := if c.exit.Some? && c.exit.value.Asked? then next - 1 else next;
    && (start > at ==> c.entry.value.holds == w.answer(at))
    && end >= 0 && Tells(w, start, Replies(c.body), end)
    && (end < next ==> c.exit.value.holds == w.answer(end))
  }

  lemma OneRoundIsTold(w: World, at: nat, c: Round, next: nat)
    requires Tells(w, at, RoundReplies(c), next)
    ensures RoundIsTold(w, at, c, next)
  {
    var entry, exit := MaybeAnswered(c.entry), MaybeAnswered(c.exit);
    Split(w, at, entry + Replies(c.body), exit, next);
    Split(w, at, entry, Replies(c.body), next - |exit|);
    if c.entry.Some? {
      AnswerIsTold(w, at, c.entry.value, at + |entry|);
    }
    if c.exit.Some? {
      AnswerIsTold(w, next - |exit|, c.exit.value, next);
    }
  }

  /** The rounds of a loop are told one after the other, and at last the answer that refused another round. */
  lemma LoopIsTold(w: World, at: nat, r: Run, next: nat) returns (ps: seq<nat>)
    requires r.LoopRun? && Tells(w, at, Replies(r), next)
    ensures |ps| == |r.rounds| + 1 && ps[0] == at
    ensures forall k :: 0 <= k < |r.rounds| ==> RoundIsTold(w, ps[k], r.rounds[k], ps[k + 1])
    ensures r.refusal.Some? && r.refusal.value.Asked? ==> r.refusal.value.holds == w.answer(ps[|r.rounds|])
  {
    var parts := seq(|r.rounds|, i requires 0 <= i < |r.rounds| => RoundReplies(r.rounds[i]));
    Split(w, at, Concat(parts), MaybeAnswered(r.refusal), next);
    ps := PartsAreTold(w, at, parts, at + |Concat(parts)|);
    forall k | 0 <= k < |r.rounds| ensures RoundIsTold(w, ps[k], r.rounds[k], ps[k + 1]) {
      assert Tells(w, ps[k], parts[k], ps[k + 1]);
      OneRoundIsTold(w, ps[k], r.rounds[k], ps[k + 1]);
    }
    if r.refusal.Some? {
      AnswerIsTold(w, ps[|r.rounds|], r.refusal.value, next);
    }
  }

  /** A call is told its outcome, and then what its handler asks for. */
  ghost predicate TryIsTold(w: World, at: nat, t: Try, next: nat) {
    && t.attempt == w.attempt(at)
    && if t.handler.Some? then Tells(w, at + 1, Replies(t.handler.value), next) else next == at + 1
  }

  lemma OneTryIsTold(w: World, at: nat, t: Try, next: nat)
    requires Tells(w, at, TryReplies(t), next)
    ensures TryIsTold(w, at, t, next)
  {
    var first, rest := [Ended(t.attempt)], if t.handler.Some? then Replies(t.handler.value) else [];
    Split(w, at, first, rest, next);
    assert Gives(w, at + 0, first[0]);
  }

  /** The calls of an action are told one after the other. */
  lemma ActionIsTold(w: World, at: nat, r: Run, next: nat) returns (ps: seq<nat>)
    requires r.ActionRun? && Tells(w, at, Replies(r), next)
    ensures Places(ps, |r.tries|, at, next)
    ensures forall k :: 0 <= k < |r.tries| ==> TryIsTold(w, ps[k], r.tries[k], ps[k + 1])
  {
    var parts := seq(|r.tries|, i requires 0 <= i < |r.tries| => TryReplies(r.tries[i]));
    ps := PartsAreTold(w, at, parts, next);
    forall k | 0 <= k < |r.tries| ensures TryIsTold(w, ps[k], r.tries[k], ps[k + 1]) {
      assert Tells(w, ps[k], parts[k], ps[k + 1]);
      OneTryIsTold(w, ps[k], r.tries[k], ps[k + 1]);
    }
  }
}

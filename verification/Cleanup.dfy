/**
 * Cleanup results of robots and how they are merged: counts add up, the longest duration counts, the
 * worst status wins and the first twenty issues are kept.
 */
module Cleanup {
  /** Unset is the empty status string of a summary nothing was recorded in. */
  datatype State = Unset | Clean | Partial | TimedOut | Unknown

  datatype Message = Returned | AllReturned | NoRobots | SomeTimedOut | SomeFailed | SomeUnknown | Isolated | NoResult | Text(text: string)

  datatype Issue = Issue(robot: int, phase: string, text: string)

  type Reason = string

  datatype Status = Status(
    state: State,
    reason: Reason,
    message: Message,
    durationMs: int,
    total: nat,
    cleaned: nat,
    timeouts: nat,
    luaReturned: nat,
    luaSkipped: nat,
    issues: seq<Issue>)

  const ISSUE_LIMIT := 20

  function CleanupOK(reason: Reason, durationMs: int): (s: Status)
    ensures Single(s) && s.state == Clean && s.cleaned == 1 && s.luaReturned == 1 && s.luaSkipped == 0 && s.issues == []
    ensures s.reason == reason && s.durationMs == durationMs && s.message == Returned
  {
    Status(Clean, reason, Returned, durationMs, 1, 1, 0, 1, 0, [])
  }

  function CleanupTimeout(reason: Reason, durationMs: int, issue: Issue): (s: Status)
    ensures Single(s) && s.state == TimedOut && s.timeouts == 1 && s.luaReturned == 0 && s.luaSkipped == 1 && s.issues == [issue]
    ensures s.reason == reason && s.durationMs == durationMs && s.message == Isolated
  {
    Status(TimedOut, reason, Isolated, durationMs, 1, 0, 1, 0, 1, [issue])
  }

  /** What stands for a robot whose cleanup did not come back in time. */
  function MissingResult(reason: Reason): (s: Status)
    ensures Single(s) && s.state == TimedOut && s.timeouts == 1 && s.luaReturned == 0 && s.luaSkipped == 1 && s.issues == []
    ensures s.reason == reason && s.durationMs == 0 && s.message == NoResult
  {
    Status(TimedOut, reason, NoResult, 0, 1, 0, 1, 0, 1, [])
  }

  function EmptySummary(reason: Reason): Status {
    Status(Clean, reason, NoRobots, 0, 0, 0, 0, 0, 0, [])
  }

  /** The result of one robot: counted once, as cleaned or as timed out. */
  predicate Single(s: Status) {
    s.total == 1 && s.cleaned + s.timeouts == 1 && (s.state == Clean || s.state == TimedOut) && |s.issues| <= ISSUE_LIMIT
  }

  // ---- what a merge means, field by field ----

  datatype Counts = Counts(total: nat, cleaned: nat, timeouts: nat, luaReturned: nat, luaSkipped: nat)

  function Plus(a: Counts, b: Counts): Counts {
    Counts(a.total + b.total, a.cleaned + b.cleaned, a.timeouts + b.timeouts, a.luaReturned + b.luaReturned, a.luaSkipped + b.luaSkipped)
  }

  function CountsOf(s: Status): Counts {
    Counts(s.total, s.cleaned, s.timeouts, s.luaReturned, s.luaSkipped)
  }

  function Sum(ss: seq<Status>): Counts {
    if ss == [] then Counts(0, 0, 0, 0, 0) else Plus(Sum(ss[..|ss| - 1]), CountsOf(ss[|ss| - 1]))
  }

  function Longest(ss: seq<Status>): int {
    if ss == [] then 0
    else
      var rest := Longest(ss[..|ss| - 1]);
      if ss[|ss| - 1].durationMs > rest then ss[|ss| - 1].durationMs else rest
  }

  function AllIssues(ss: seq<Status>): seq<Issue> {
    if ss == [] then [] else AllIssues(ss[..|ss| - 1]) + ss[|ss| - 1].issues
  }

  function FirstIssues(issues: seq<Issue>): seq<Issue> {
    if |issues| <= ISSUE_LIMIT then issues else issues[..ISSUE_LIMIT]
  }

  function Combine(a: State, b: State): State {
    match b
    case TimedOut => TimedOut
    case Partial => if a == Clean then Partial else a
    case Unknown => if a == Clean then Unknown else a
    case _ => a
  }

  function Worst(ss: seq<Status>): State {
    if ss == [] then Clean else Combine(Worst(ss[..|ss| - 1]), ss[|ss| - 1].state)
  }

  function MessageFor(state: State): Message {
    match state
    case TimedOut => SomeTimedOut
    case Partial => SomeFailed
    case Unknown => SomeUnknown
    case _ => AllReturned
  }

  function Merged(reason: Reason, ss: seq<Status>): Status {
    var c := Sum(ss);
    if c.total == 0 then EmptySummary(reason)
    else
      Status(Worst(ss), reason, MessageFor(Worst(ss)), Longest(ss),
             c.total, c.cleaned, c.timeouts, c.luaReturned, c.luaSkipped, FirstIssues(AllIssues(ss)))
  }

  method KeepIssues(kept: seq<Issue>, more: seq<Issue>) returns (issues: seq<Issue>)
    requires |kept| <= ISSUE_LIMIT
    ensures issues == FirstIssues(kept + more)
  {
    issues := kept;
    if |kept| < ISSUE_LIMIT {
      var remain := if |more| < ISSUE_LIMIT - |kept| then |more| else ISSUE_LIMIT - |kept|;
      issues := kept + more[..remain];
    }
  }

  method Escalate(state: State, other: State) returns (worse: State)
    ensures worse == Combine(state, other)
  {
    worse := state;
    match other {
      case TimedOut => worse := TimedOut;
      case Partial =>
        if state == Clean {
          worse := Partial;
        }
      case Unknown =>
        if state == Clean {
          worse := Unknown;
        }
      case _ =>
    }
  }

  /** The merging loop. */
  method MergeCleanupStatus(reason: Reason, ss: seq<Status>) returns (out: Status)
    ensures out == Merged(reason, ss)
  {
    out := Status(Clean, reason, AllReturned, 0, 0, 0, 0, 0, 0, []);
    for i := 0 to |ss|
      invariant CountsOf(out) == Sum(ss[..i])
      invariant out.durationMs == Longest(ss[..i]) && out.state == Worst(ss[..i])
      invariant out.issues == FirstIssues(AllIssues(ss[..i]))
      invariant out.reason == reason && out.message == AllReturned
    {
      assert ss[..i + 1][..i] == ss[..i];
      var s := ss[i];
      FirstIssuesAppend(AllIssues(ss[..i]), s.issues);
      var issues := KeepIssues(out.issues, s.issues);
      out := out.(issues := issues, total := out.total + s.total, cleaned := out.cleaned + s.cleaned, timeouts := out.timeouts + s.timeouts,
                  luaReturned := out.luaReturned + s.luaReturned, luaSkipped := out.luaSkipped + s.luaSkipped);
      if s.durationMs > out.durationMs {
        out := out.(durationMs := s.durationMs);
      }
      var state := Escalate(out.state, s.state);
      out := out.(state := state);
    }
    assert ss[..|ss|] == ss;
    if out.total == 0 {
      return EmptySummary(reason);
    }
    out := out.(message := MessageFor(out.state));
  }

  // ---- laws of merging ----

  lemma FirstIssuesAppend(a: seq<Issue>, b: seq<Issue>)
    ensures FirstIssues(FirstIssues(a) + b) == FirstIssues(a + b)
    ensures FirstIssues(a + FirstIssues(b)) == FirstIssues(a + b)
  {
  }

  lemma {:induction false} SumAppend(a: seq<Status>, b: seq<Status>)
    ensures Sum(a + b) == Plus(Sum(a), Sum(b))
    decreases |b|
  {
    if b == [] {
      assert a + b == a;
    } else {
      assert (a + b)[..|a + b| - 1] == a + b[..|b| - 1];
      SumAppend(a, b[..|b| - 1]);
    }
  }

  lemma {:induction false} LongestAppend(a: seq<Status>, b: seq<Status>)
    ensures Longest(a + b) == if Longest(a) > Longest(b) then Longest(a) else Longest(b)
    decreases |b|
  {
    if b == [] {
      assert a + b == a;
      LongestNonNegative(a);
    } else {
      assert (a + b)[..|a + b| - 1] == a + b[..|b| - 1];
      LongestAppend(a, b[..|b| - 1]);
    }
  }

  lemma {:induction false} IssuesAppend(a: seq<Status>, b: seq<Status>)
    ensures AllIssues(a + b) == AllIssues(a) + AllIssues(b)
    decreases |b|
  {
    if b == [] {
      assert a + b == a;
    } else {
      assert (a + b)[..|a + b| - 1] == a + b[..|b| - 1];
      IssuesAppend(a, b[..|b| - 1]);
    }
  }

  lemma {:induction false} WorstAppend(a: seq<Status>, b: seq<Status>)
    ensures Worst(a + b) == Combine(Worst(a), Worst(b))
    decreases |b|
  {
    if b == [] {
      assert a + b == a;
    } else {
      assert (a + b)[..|a + b| - 1] == a + b[..|b| - 1];
      WorstAppend(a, b[..|b| - 1]);
      WorstNeverUnset(a);
      WorstNeverUnset(b[..|b| - 1]);
    }
  }

  lemma {:induction false} LongestNonNegative(ss: seq<Status>)
    ensures Longest(ss) >= 0
    decreases |ss|
  {
    if ss != [] {
      LongestNonNegative(ss[..|ss| - 1]);
    }
  }

  lemma {:induction false} WorstNeverUnset(ss: seq<Status>)
    ensures Worst(ss) != Unset
    decreases |ss|
  {
    if ss != [] {
      WorstNeverUnset(ss[..|ss| - 1]);
    }
  }

  lemma One(s: Status)
    ensures Sum([s]) == CountsOf(s) && AllIssues([s]) == s.issues && Worst([s]) == Combine(Clean, s.state)
    ensures Longest([s]) == if s.durationMs > 0 then s.durationMs else 0
  {
    assert [s][..0] == [];
  }

  /** A merge only sees the counts, the worst status, the longest duration and the first issues. */
  predicate Alike(x: seq<Status>, y: seq<Status>) {
    && Sum(x) == Sum(y) && Worst(x) == Worst(y) && Longest(x) == Longest(y)
    && FirstIssues(AllIssues(x)) == FirstIssues(AllIssues(y))
  }

  lemma AlikeMerged(inner: Reason, a: seq<Status>)
    requires Sum(a).total > 0
    ensures Alike([Merged(inner, a)], a)
  {
    One(Merged(inner, a));
    WorstNeverUnset(a);
    LongestNonNegative(a);
    FirstIssuesAppend(AllIssues(a), []);
    assert AllIssues(a) + [] == AllIssues(a) && FirstIssues(AllIssues(a)) + [] == FirstIssues(AllIssues(a));
  }

  /** A result that carries nothing; it merges like no result at all. */
  predicate Blank(e: Status) {
    && e.total == 0 && e.cleaned == 0 && e.timeouts == 0 && e.luaReturned == 0 && e.luaSkipped == 0
    && e.state == Clean && e.durationMs == 0 && |e.issues| == 0
  }

  lemma BlankSum(e: Status, b: seq<Status>)
    requires Blank(e)
    ensures Sum([e] + b) == Sum(b) == Sum(b + [e])
  {
    One(e);
    SumAppend([e], b);
    SumAppend(b, [e]);
  }

  lemma BlankRest(e: Status, b: seq<Status>)
    requires Blank(e)
    ensures Worst([e] + b) == Worst(b) == Worst(b + [e])
    ensures Longest([e] + b) == Longest(b) == Longest(b + [e])
  {
    One(e);
    WorstAppend([e], b);
    WorstAppend(b, [e]);
    WorstNeverUnset(b);
    LongestAppend([e], b);
    LongestAppend(b, [e]);
    LongestNonNegative(b);
  }

  lemma BlankIssues(e: Status, b: seq<Status>)
    requires Blank(e)
    ensures AllIssues([e] + b) == AllIssues(b) == AllIssues(b + [e])
  {
    One(e);
    IssuesAppend([e], b);
    IssuesAppend(b, [e]);
  }

  lemma AlikeAppend(x: seq<Status>, y: seq<Status>, b: seq<Status>)
    requires Alike(x, y)
    ensures Alike(x + b, y + b) && Alike(b + x, b + y)
  {
    SumAppend(x, b);
    SumAppend(y, b);
    SumAppend(b, x);
    SumAppend(b, y);
    AlikeAppendRest(x, y, b);
    AlikeAppendIssues(x, y, b);
  }

  lemma AlikeAppendRest(x: seq<Status>, y: seq<Status>, b: seq<Status>)
    requires Worst(x) == Worst(y) && Longest(x) == Longest(y)
    ensures Worst(x + b) == Worst(y + b) && Longest(x + b) == Longest(y + b)
    ensures Worst(b + x) == Worst(b + y) && Longest(b + x) == Longest(b + y)
  {
    WorstAppend(x, b);
    WorstAppend(y, b);
    WorstAppend(b, x);
    WorstAppend(b, y);
    LongestAppend(x, b);
    LongestAppend(y, b);
    LongestAppend(b, x);
    LongestAppend(b, y);
  }

  lemma AlikeAppendIssues(x: seq<Status>, y: seq<Status>, b: seq<Status>)
    requires FirstIssues(AllIssues(x)) == FirstIssues(AllIssues(y))
    ensures FirstIssues(AllIssues(x + b)) == FirstIssues(AllIssues(y + b))
    ensures FirstIssues(AllIssues(b + x)) == FirstIssues(AllIssues(b + y))
  {
    IssuesAppend(x, b);
    IssuesAppend(y, b);
    IssuesAppend(b, x);
    IssuesAppend(b, y);
    FirstIssuesAppend(AllIssues(x), AllIssues(b));
    FirstIssuesAppend(AllIssues(y), AllIssues(b));
    FirstIssuesAppend(AllIssues(b), AllIssues(x));
    FirstIssuesAppend(AllIssues(b), AllIssues(y));
  }

  /**
   * Merging a merged part with the rest, on either side, is one merge of everything, unless the part
   * counts no robot: then the part is forgotten altogether, whatever else it carried.
   */
  lemma NestedMerge(reason: Reason, inner: Reason, a: seq<Status>, b: seq<Status>)
    ensures Sum(a).total > 0 ==> Merged(reason, [Merged(inner, a)] + b) == Merged(reason, a + b)
    ensures Sum(a).total > 0 ==> Merged(reason, b + [Merged(inner, a)]) == Merged(reason, b + a)
    ensures Sum(a).total == 0 ==> Merged(reason, [Merged(inner, a)] + b) == Merged(reason, b) == Merged(reason, b + [Merged(inner, a)])
  {
    var m := Merged(inner, a);
    if Sum(a).total > 0 {
      AlikeMerged(inner, a);
      AlikeNest(reason, m, a, b);
    } else {
      EmptyPart(reason, m, b);
    }
  }

  lemma EmptyPart(reason: Reason, e: Status, b: seq<Status>)
    requires Blank(e)
    ensures Merged(reason, [e] + b) == Merged(reason, b) == Merged(reason, b + [e])
  {
    BlankSum(e, b);
    BlankRest(e, b);
    BlankIssues(e, b);
    AlikeMergesAlike(reason, [e] + b, b);
    AlikeMergesAlike(reason, b + [e], b);
  }

  lemma AlikeNest(reason: Reason, m: Status, part: seq<Status>, b: seq<Status>)
    requires Alike([m], part)
    ensures Merged(reason, [m] + b) == Merged(reason, part + b)
    ensures Merged(reason, b + [m]) == Merged(reason, b + part)
  {
    AlikeAppend([m], part, b);
    AlikeMergesAlike(reason, [m] + b, part + b);
    AlikeMergesAlike(reason, b + [m], b + part);
  }

  lemma AlikeMergesAlike(reason: Reason, x: seq<Status>, y: seq<Status>)
    requires Alike(x, y)
    ensures Merged(reason, x) == Merged(reason, y)
  {
  }

  /** The exception is real: an unknown result that counts no robot is visible in one merge and lost in two. */
  lemma ZeroRobotPartIsForgotten(reason: Reason, unknown: Status, ok: Status)
    requires unknown.state == Unknown && unknown.total == 0 && ok.state == Clean && ok.total > 0
    ensures Merged(reason, [unknown] + [ok]).state == Unknown
    ensures Merged(reason, [Merged(reason, [unknown])] + [ok]).state == Clean
  {
    One(unknown);
    One(ok);
    SumAppend([unknown], [ok]);
    WorstAppend([unknown], [ok]);
    NestedMerge(reason, reason, [unknown], [ok]);
  }

  /** The merged status is a timeout exactly when some part timed out, and clean exactly when no part was worse. */
  lemma {:induction false} WorstMeans(ss: seq<Status>)
    ensures Worst(ss) == TimedOut <==> exists i :: 0 <= i < |ss| && ss[i].state == TimedOut
    ensures Worst(ss) == Clean <==> forall i :: 0 <= i < |ss| ==> ss[i].state in {Clean, Unset}
    decreases |ss|
  {
    if ss != [] {
      var n := |ss| - 1;
      WorstMeans(ss[..n]);
      WorstNeverUnset(ss[..n]);
      assert forall i :: 0 <= i < n ==> ss[..n][i] == ss[i];
    }
  }

  /** Part i is the first that is not clean, and no part timed out. */
  predicate FirstBad(ss: seq<Status>, i: nat) {
    && i < |ss| && (ss[i].state == Partial || ss[i].state == Unknown)
    && (forall j :: 0 <= j < i ==> ss[j].state == Clean || ss[j].state == Unset)
    && (forall j :: 0 <= j < |ss| ==> ss[j].state != TimedOut)
  }

  /** Without a timeout, the first part that was not clean decides between partial and unknown. */
  lemma {:induction false} FirstBadDecides(ss: seq<Status>, i: nat)
    requires FirstBad(ss, i)
    ensures Worst(ss) == ss[i].state
    decreases |ss|
  {
    var n := |ss| - 1;
    if i < n {
      FirstBadDecides(ss[..n], i);
    } else {
      WorstMeans(ss[..n]);
    }
  }

  lemma {:induction false} LongestMeans(ss: seq<Status>)
    ensures forall i :: 0 <= i < |ss| ==> ss[i].durationMs <= Longest(ss)
    ensures Longest(ss) == 0 || exists i :: 0 <= i < |ss| && ss[i].durationMs == Longest(ss)
    ensures Longest(ss) >= 0
    decreases |ss|
  {
    if ss != [] {
      var n := |ss| - 1;
      LongestMeans(ss[..n]);
      assert forall i :: 0 <= i < n ==> ss[..n][i] == ss[i];
      assert Longest(ss) != Longest(ss[..n]) ==> ss[n].durationMs == Longest(ss);
    }
  }

  /** A merge that counts a robot has the sums, the worst status with its message and the longest time; one that counts none is blank. */
  lemma MergeMeans(reason: Reason, ss: seq<Status>)
    ensures var m := Merged(reason, ss);
            && m.reason == reason
            && (Sum(ss).total > 0 ==>
                  && CountsOf(m) == Sum(ss) && m.state == Worst(ss) && m.durationMs == Longest(ss)
                  && m.message == match m.state case TimedOut => SomeTimedOut case Partial => SomeFailed case Unknown => SomeUnknown case _ => AllReturned)
            && (Sum(ss).total == 0 ==> Blank(m) && m.message == NoRobots)
  {
  }

  /** The issues of a merge are the first twenty of all, in order. */
  lemma MergedIssues(reason: Reason, ss: seq<Status>)
    requires Sum(ss).total > 0
    ensures var kept, all := Merged(reason, ss).issues, AllIssues(ss);
            kept <= all && (|all| <= 20 ==> kept == all) && (|all| > 20 ==> |kept| == 20)
  {
  }

  // ---- recording one by one ----

  /** How the manager's summary grows: the first result is taken as it is, each later one is merged in. */
  function Record(summary: Status, s: Status): Status {
    if summary.state == Unset then s else Merged(s.reason, [summary, s])
  }

  const NOTHING := Status(Unset, "", Text(""), 0, 0, 0, 0, 0, 0, [])

  function RecordAll(ss: seq<Status>): Status {
    if ss == [] then NOTHING else Record(RecordAll(ss[..|ss| - 1]), ss[|ss| - 1])
  }

  ghost predicate AllSingle(ss: seq<Status>) {
    forall i :: 0 <= i < |ss| ==> Single(ss[i])
  }

  lemma {:induction false} SingleCounts(ss: seq<Status>)
    requires AllSingle(ss)
    ensures Sum(ss).total == |ss| && Sum(ss).cleaned + Sum(ss).timeouts == |ss|
    decreases |ss|
  {
    if ss != [] {
      SingleCounts(ss[..|ss| - 1]);
    }
  }

  lemma RecordOne(ss: seq<Status>)
    requires |ss| == 1
    ensures ss == [ss[0]] && RecordAll(ss) == ss[0]
  {
    assert RecordAll(ss[..0]).state == Unset;
  }

  /** Recording robot results one by one gives what a single merge of all of them gives. */
  lemma {:induction false} RecordingIsOneMerge(ss: seq<Status>)
    requires AllSingle(ss) && |ss| >= 2
    ensures RecordAll(ss) == Merged(ss[|ss| - 1].reason, ss)
    decreases |ss|
  {
    var n := |ss| - 1;
    var rest := ss[..n];
    assert ss == rest + [ss[n]];
    SingleCounts(rest);
    if n == 1 {
      RecordOne(rest);
      assert [ss[0], ss[1]] == ss;
    } else {
      RecordingIsOneMerge(rest);
      WorstNeverUnset(rest);
      NestedMerge(ss[n].reason, rest[n - 1].reason, rest, [ss[n]]);
      assert [RecordAll(rest), ss[n]] == [RecordAll(rest)] + [ss[n]];
    }
  }
}

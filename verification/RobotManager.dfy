/**
 * The manager's bookkeeping in runs without a stage reset: the list of robots with its index for
 * constant-time removal, the summary of finished robots, and what a stop counts.
 *
 * Each method is one critical section under the manager's lock; robots finish between them in any order.
 */
module RobotManager {
  import opened Cleanup

  type RobotId = nat

  // ---- the robot list and its index ----

  ghost predicate Indexed(robots: seq<RobotId>, index: map<RobotId, nat>) {
    && (forall i :: 0 <= i < |robots| ==> robots[i] in index && index[robots[i]] == i)
    && (forall r :: r in index ==> index[r] < |robots| && robots[index[r]] == r)
  }

  function Elements(s: seq<RobotId>): set<RobotId> {
    set r | r in s
  }

  predicate Distinct(s: seq<RobotId>) {
    forall i, j :: 0 <= i < j < |s| ==> s[i] != s[j]
  }

  lemma {:induction false} DistinctCount(s: seq<RobotId>)
    requires Distinct(s)
    ensures |Elements(s)| == |s|
  {
    if s != [] {
      var n := |s| - 1;
      DistinctCount(s[..n]);
      assert Elements(s) == Elements(s[..n]) + {s[n]};
    }
  }

  lemma IndexedIsDistinct(robots: seq<RobotId>, index: map<RobotId, nat>)
    requires Indexed(robots, index)
    ensures Distinct(robots) && index.Keys == Elements(robots)
  {
    forall i, j | 0 <= i < j < |robots| ensures robots[i] != robots[j] {
      assert index[robots[i]] == i && index[robots[j]] == j;
    }
  }

  /** The list after taking out position i by moving the last robot there. */
  function SwapDelete(robots: seq<RobotId>, i: nat): seq<RobotId>
    requires i < |robots|
  {
    var last := |robots| - 1;
    if i == last then robots[..last] else robots[..last][i := robots[last]]
  }

  lemma SwapDeleteRemovesOne(robots: seq<RobotId>, i: nat)
    requires Distinct(robots) && i < |robots|
    ensures Distinct(SwapDelete(robots, i)) && Elements(SwapDelete(robots, i)) == Elements(robots) - {robots[i]}
  {
    var out := SwapDelete(robots, i);
    var last := |robots| - 1;
    forall r | r in robots && r != robots[i] ensures r in out {
      var k :| 0 <= k < |robots| && robots[k] == r;
      assert out[if k == last then i else k] == r;
    }
  }

  // ---- results of one concurrent close ----

  /** Results that came back in time, in any order, then one stand-in for each that did not. */
  function Collected(reason: Reason, robots: nat, received: seq<Status>): seq<Status>
    requires |received| <= robots
  {
    received + Missing(reason, robots - |received|)
  }

  function Missing(reason: Reason, n: nat): (ss: seq<Status>)
    ensures |ss| == n && AllSingle(ss)
  {
    if n == 0 then [] else Missing(reason, n - 1) + [MissingResult(reason)]
  }

  method CloseRobots(reason: Reason, robots: nat, received: seq<Status>) returns (out: Status)
    requires |received| <= robots
    ensures out == Merged(reason, Collected(reason, robots, received))
  {
    if robots == 0 {
      return EmptySummary(reason);
    }
    var statuses: seq<Status> := [];
    while |statuses| < robots
      invariant statuses == Collected(reason, robots, received) || (|statuses| <= |received| && statuses == received[..|statuses|])
      decreases robots - |statuses|
    {
      if |statuses| < |received| {
        statuses := statuses + [received[|statuses|]];
      } else {
        var missing := robots - |statuses|;
        ghost var had := statuses;
        for k := 0 to missing
          invariant statuses == had + Missing(reason, k)
        {
          statuses := statuses + [MissingResult(reason)];
        }
      }
    }
    assert statuses == Collected(reason, robots, received);
    out := MergeCleanupStatus(reason, statuses);
  }

  const ADMIN_STOP := "admin_stop"
  const NATURAL := "natural"

  class Manager {
    var robots: seq<RobotId>
    var robotIdx: map<RobotId, nat>
    var summary: Status

    ghost var registered: set<RobotId>
    ghost var finished: seq<RobotId>
    ghost var results: seq<Status>

    /** Every registered robot is in the list and not in the summary, or in the summary once and not in the list. */
    ghost predicate Valid()
      reads this
    {
      && Indexed(robots, robotIdx)
      && Distinct(finished) && |results| == |finished| && AllSingle(results)
      && summary == RecordAll(results)
      && Elements(robots) !! Elements(finished)
      && registered == Elements(robots) + Elements(finished)
    }

    constructor ()
      ensures Valid() && registered == {}
    {
      robots, robotIdx, summary := [], map[], NOTHING;
      registered, finished, results := {}, [], [];
    }

    method Register(r: RobotId)
      requires Valid() && r !in registered
      modifies this
      ensures Valid() && registered == old(registered) + {r} && r in robots
      ensures finished == old(finished) && results == old(results)
    {
      robots := robots + [r];
      robotIdx := robotIdx[r := |robots| - 1];
      registered := registered + {r};
    }

    /** Swap-delete; a robot that is not in the index is left alone. */
    method Remove(r: RobotId)
      requires Indexed(robots, robotIdx)
      modifies this`robots, this`robotIdx
      ensures Indexed(robots, robotIdx)
      ensures robots == if r in old(robotIdx) then SwapDelete(old(robots), old(robotIdx)[r]) else old(robots)
      ensures Elements(robots) == Elements(old(robots)) - {r}
    {
      IndexedIsDistinct(robots, robotIdx);
      if r !in robotIdx {
        return;
      }
      var i := robotIdx[r];
      SwapDeleteRemovesOne(robots, i);
      var last := |robots| - 1;
      if i != last {
        var moved := robots[last];
        robots := robots[i := moved];
        robotIdx := robotIdx[moved := i];
      }
      robots := robots[..last];
      robotIdx := robotIdx - {r};
    }

    method RecordCleanup(s: Status)
      modifies this`summary
      ensures summary == Record(old(summary), s)
    {
      if summary.state == Unset {
        summary := s;
        return;
      }
      summary := MergeCleanupStatus(s.reason, [summary, s]);
    }

    /** The end of one robot, or of a start that failed: out of the list and into the summary under one lock. */
    method FinishRobot(r: RobotId, s: Status)
      requires Valid() && r in registered && r !in finished && Single(s)
      modifies this
      ensures Valid() && registered == old(registered)
      ensures finished == old(finished) + [r] && results == old(results) + [s]
      ensures Elements(robots) == Elements(old(robots)) - {r}
    {
      Remove(r);
      RecordCleanup(s);
      assert (results + [s])[..|results|] == results;
      finished := finished + [r];
      results := results + [s];
      assert Elements(finished) == Elements(old(finished)) + {r};
    }

    /** `received` are the results of the robots in the list that came back before the time limit. */
    method StopAll(received: seq<Status>) returns (out: Status)
      requires Valid() && |received| <= |robots| && AllSingle(received)
      ensures out == Merged(ADMIN_STOP, results + Collected(ADMIN_STOP, |robots|, received))
      ensures out.total == |registered| && out.cleaned + out.timeouts == out.total
    {
      CountRegistered(robots, robotIdx, finished);
      out := MergeStop(summary, |robots|, received, results);
    }
  }

  method MergeStop(summary: Status, robots: nat, received: seq<Status>, ghost results: seq<Status>) returns (out: Status)
    requires AllSingle(results) && summary == RecordAll(results) && |received| <= robots && AllSingle(received)
    ensures out == Merged(ADMIN_STOP, results + Collected(ADMIN_STOP, robots, received))
    ensures out.total == |results| + robots && out.cleaned + out.timeouts == out.total
  {
    var prior := if summary.state == Unset then EmptySummary(NATURAL) else summary;
    var closed := CloseRobots(ADMIN_STOP, robots, received);
    PriorOf(results);
    StopCounts(ADMIN_STOP, results + Collected(ADMIN_STOP, robots, received));
    StopMerges(ADMIN_STOP, results, Collected(ADMIN_STOP, robots, received), prior);
    out := MergeCleanupStatus(ADMIN_STOP, [prior] + [closed]);
  }

  lemma CountRegistered(robots: seq<RobotId>, index: map<RobotId, nat>, finished: seq<RobotId>)
    requires Indexed(robots, index) && Distinct(finished) && Elements(robots) !! Elements(finished)
    ensures |Elements(robots) + Elements(finished)| == |robots| + |finished|
  {
    IndexedIsDistinct(robots, index);
    DistinctCount(robots);
    DistinctCount(finished);
  }

  /** What a stop starts from: the summary so far, or an empty one. */
  ghost predicate IsPrior(prior: Status, results: seq<Status>) {
    if results == [] then Blank(prior)
    else prior == RecordAll(results)
  }

  lemma PriorOf(results: seq<Status>)
    requires AllSingle(results)
    ensures RecordAll(results).state == Unset <==> results == []
  {
    if |results| == 1 {
      RecordOne(results);
    } else if |results| > 1 {
      RecordingIsOneMerge(results);
      WorstNeverUnset(results);
    }
  }

  lemma StopCounts(reason: Reason, all: seq<Status>)
    requires AllSingle(all)
    ensures Merged(reason, all).total == |all| && Merged(reason, all).cleaned + Merged(reason, all).timeouts == |all|
  {
    SingleCounts(all);
  }

  lemma ClosedStandsForParts(reason: Reason, prior: Status, closed: seq<Status>)
    requires AllSingle(closed)
    ensures Merged(reason, [prior] + [Merged(reason, closed)]) == Merged(reason, [prior] + closed)
  {
    SingleCounts(closed);
    NestedMerge(reason, reason, closed, [prior]);
    if closed == [] {
      assert [prior] + closed == [prior];
    }
  }

  /** The prior summary and the closing results together are one merge of every robot's own result. */
  lemma StopMerges(reason: Reason, results: seq<Status>, closed: seq<Status>, prior: Status)
    requires AllSingle(results) && AllSingle(closed) && IsPrior(prior, results)
    ensures Merged(reason, [prior] + [Merged(reason, closed)]) == Merged(reason, results + closed)
  {
    ClosedStandsForParts(reason, prior, closed);
    PriorStandsForResults(reason, results, prior, closed);
  }

  lemma PriorStandsForResults(reason: Reason, results: seq<Status>, prior: Status, rest: seq<Status>)
    requires AllSingle(results) && IsPrior(prior, results)
    ensures Merged(reason, [prior] + rest) == Merged(reason, results + rest)
  {
    if results == [] {
      EmptyPart(reason, prior, rest);
      assert results + rest == rest;
    } else if |results| == 1 {
      RecordOne(results);
    } else {
      SingleCounts(results);
      RecordingIsOneMerge(results);
      NestedMerge(reason, results[|results| - 1].reason, results, rest);
    }
  }
}

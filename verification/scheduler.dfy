/** `ExecuteLocalActions`: the fallback that runs the compile actions no
    object list took, one polling round at a time.

    The thread dictionary maps an action to its thread, or to a null entry
    when the action will never run because a prerequisite failed. Threads
    finish on their own; here the finishing is a parameter: after every
    round, `rounds[i]` gives the exit codes of the threads that completed
    meanwhile. */
module Scheduler {
  import opened Outcomes
  import opened Nodes

  /** `ExecutionResult`. */
  datatype ExecutionResult = Unavailable | TasksFailed | TasksSucceeded

  /** A dictionary entry: the null entry of a skipped action, or a started
      thread with its completion flag and exit code. */
  datatype Entry = Skipped | Started(complete: bool, exitCode: int)

  type Threads = map<nat, Entry>

  /** `MaxActionsToExecuteInParallel`, never assigned another value. */
  const MaxActionsToExecuteInParallel: int := 0

  /** `Math.Max(1, maxParallel)`: how many threads may run at once. */
  function Limit(maxParallel: int): (r: int)
    ensures r >= 1 && r >= maxParallel
    ensures r == 1 || r == maxParallel
  {
    if maxParallel > 1 then maxParallel else 1
  }

  predicate Running(e: Entry) {
    e.Started? && !e.complete
  }

  /** The entry of a prerequisite that keeps its dependent from running. */
  predicate Failed(e: Entry) {
    e.Skipped? || (e.complete && e.exitCode != 0)
  }

  /** A prerequisite is considered only when a local action produces it. */
  predicate LocalProducer(local: seq<nat>, p: Option<nat>) {
    p.Some? && p.value in local
  }

  // ----- the decision for one action -----

  /** The prerequisite loop of `ExecuteLocalActions`: whether some local
      producer failed or was skipped, and whether some local producer has not
      started or not finished. */
  function Examine(prereqs: seq<Option<nat>>, local: seq<nat>, threads: Threads): (r: (bool, bool))
    decreases |prereqs|
  {
    if |prereqs| == 0 then (false, false)
    else
      var rest := Examine(prereqs[1..], local, threads);
      var p := prereqs[0];
      if !LocalProducer(local, p) then rest
      else if p.value !in threads then (rest.0, true)
      else if Failed(threads[p.value]) then (true, rest.1)
      else if Running(threads[p.value]) then (rest.0, true)
      else rest
  }

  /** Some local producer has a null entry or a nonzero exit code. */
  ghost predicate HasFailedPrerequisite(prereqs: seq<Option<nat>>, local: seq<nat>, threads: Threads) {
    exists k :: 0 <= k < |prereqs| && LocalProducer(local, prereqs[k]) && prereqs[k].value in threads &&
                Failed(threads[prereqs[k].value])
  }

  /** Some local producer has not started, or has started and not finished. */
  ghost predicate HasOutdatedPrerequisite(prereqs: seq<Option<nat>>, local: seq<nat>, threads: Threads) {
    exists k :: 0 <= k < |prereqs| && LocalProducer(local, prereqs[k]) &&
                (prereqs[k].value !in threads || Running(threads[prereqs[k].value]))
  }

  /** The loop's two flags mean what their names say. */
  lemma {:induction false} ExamineMeans(prereqs: seq<Option<nat>>, local: seq<nat>, threads: Threads)
    ensures Examine(prereqs, local, threads).0 <==> HasFailedPrerequisite(prereqs, local, threads)
    ensures Examine(prereqs, local, threads).1 <==> HasOutdatedPrerequisite(prereqs, local, threads)
    decreases |prereqs|
  {
    if |prereqs| > 0 {
      ExamineMeans(prereqs[1..], local, threads);
      var tail := prereqs[1..];
      assert forall k :: 0 < k < |prereqs| ==> prereqs[k] == tail[k - 1];
      if HasFailedPrerequisite(tail, local, threads) {
        var k :| 0 <= k < |tail| && LocalProducer(local, tail[k]) && tail[k].value in threads && Failed(threads[tail[k].value]);
        assert prereqs[k + 1] == tail[k];
      }
      if HasOutdatedPrerequisite(tail, local, threads) {
        var k :| 0 <= k < |tail| && LocalProducer(local, tail[k]) && (tail[k].value !in threads || Running(threads[tail[k].value]));
        assert prereqs[k + 1] == tail[k];
      }
      if HasFailedPrerequisite(prereqs, local, threads) {
        var k :| 0 <= k < |prereqs| && LocalProducer(local, prereqs[k]) && prereqs[k].value in threads && Failed(threads[prereqs[k].value]);
        if k > 0 {
          assert tail[k - 1] == prereqs[k];
        }
      }
      if HasOutdatedPrerequisite(prereqs, local, threads) {
        var k :| 0 <= k < |prereqs| && LocalProducer(local, prereqs[k]) && (prereqs[k].value !in threads || Running(threads[prereqs[k].value]));
        if k > 0 {
          assert tail[k - 1] == prereqs[k];
        }
      }
    }
  }

  datatype Decision = Wait | Skip | Start

  /** What happens to an unstarted action that is examined: a failed
      prerequisite gives it a null entry, otherwise it starts once nothing
      it needs is outdated. */
  function Decide(prereqs: seq<Option<nat>>, local: seq<nat>, threads: Threads): Decision {
    var (failed, outdated) := Examine(prereqs, local, threads);
    if failed then Skip else if !outdated then Start else Wait
  }

  /** Every local producer has completed with exit code 0. */
  ghost predicate PrerequisitesSucceeded(prereqs: seq<Option<nat>>, local: seq<nat>, threads: Threads) {
    forall k :: 0 <= k < |prereqs| && LocalProducer(local, prereqs[k]) ==>
      prereqs[k].value in threads && threads[prereqs[k].value] == Started(true, 0)
  }

  /** An action is skipped exactly when a local producer failed, and starts
      exactly when every local producer completed with exit code 0. */
  lemma DecideMeans(prereqs: seq<Option<nat>>, local: seq<nat>, threads: Threads)
    ensures Decide(prereqs, local, threads) == Skip <==> HasFailedPrerequisite(prereqs, local, threads)
    ensures Decide(prereqs, local, threads) == Start <==> PrerequisitesSucceeded(prereqs, local, threads)
  {
    ExamineMeans(prereqs, local, threads);
    if PrerequisitesSucceeded(prereqs, local, threads) {
      assert !HasFailedPrerequisite(prereqs, local, threads);
      assert !HasOutdatedPrerequisite(prereqs, local, threads);
    }
    if !HasFailedPrerequisite(prereqs, local, threads) && !HasOutdatedPrerequisite(prereqs, local, threads) {
      forall k | 0 <= k < |prereqs| && LocalProducer(local, prereqs[k])
        ensures prereqs[k].value in threads && threads[prereqs[k].value] == Started(true, 0)
      {
        assert prereqs[k].value in threads;
        var e := threads[prereqs[k].value];
        assert !Failed(e) && !Running(e);
      }
    }
  }

  // ----- one pass over the local actions -----

  /** The local actions are actions of the batch. */
  predicate InBatch(actions: seq<RawAction>, local: seq<nat>) {
    forall k :: 0 <= k < |local| ==> local[k] < |actions|
  }

  /** The second loop of a round, from position `i` on: each action without
      an entry is examined while fewer than `limit` threads run. */
  function ScanFrom(actions: seq<RawAction>, local: seq<nat>, threads: Threads, executing: int, limit: int, i: nat): (r: (Threads, int))
    requires InBatch(actions, local) && i <= |local|
    decreases |local| - i
  {
    if i == |local| then (threads, executing)
    else
      var h := local[i];
      if h in threads || executing >= limit then ScanFrom(actions, local, threads, executing, limit, i + 1)
      else match Decide(actions[h].prerequisites, local, threads)
        case Skip => ScanFrom(actions, local, threads[h := Skipped], executing, limit, i + 1)
        case Start => ScanFrom(actions, local, threads[h := Started(false, 0)], executing + 1, limit, i + 1)
        case Wait => ScanFrom(actions, local, threads, executing, limit, i + 1)
  }

  /** A pass only adds entries, for local actions, and only while fewer than
      `limit` threads run; the running count never passes the limit unless it
      already had. */
  lemma {:induction false} ScanAdds(actions: seq<RawAction>, local: seq<nat>, threads: Threads, executing: int, limit: int, i: nat)
    requires InBatch(actions, local) && i <= |local|
    ensures var r := ScanFrom(actions, local, threads, executing, limit, i);
      (forall h :: h in threads ==> h in r.0 && r.0[h] == threads[h]) &&
      (forall h :: h in r.0 && h !in threads ==> h in local[i..]) &&
      executing <= r.1 && (r.1 <= executing || r.1 <= limit)
    decreases |local| - i
  {
    if i < |local| {
      var h := local[i];
      if h in threads || executing >= limit {
        ScanAdds(actions, local, threads, executing, limit, i + 1);
      } else {
        match Decide(actions[h].prerequisites, local, threads)
        case Skip => ScanAdds(actions, local, threads[h := Skipped], executing, limit, i + 1);
        case Start => ScanAdds(actions, local, threads[h := Started(false, 0)], executing + 1, limit, i + 1);
        case Wait => ScanAdds(actions, local, threads, executing, limit, i + 1);
      }
    }
  }

  /** Nothing is examined once `limit` threads run. */
  lemma {:induction false} ScanSaturated(actions: seq<RawAction>, local: seq<nat>, threads: Threads, executing: int, limit: int, i: nat)
    requires InBatch(actions, local) && i <= |local| && executing >= limit
    ensures ScanFrom(actions, local, threads, executing, limit, i) == (threads, executing)
    decreases |local| - i
  {
    if i < |local| {
      ScanSaturated(actions, local, threads, executing, limit, i + 1);
    }
  }

  /** Every entry a pass adds is justified by the entries it leaves: a
      started action's local producers all completed with exit code 0, and a
      skipped action has a failed local producer. */
  lemma {:induction false} ScanJustified(actions: seq<RawAction>, local: seq<nat>, threads: Threads, executing: int, limit: int, i: nat, h: nat)
    requires InBatch(actions, local) && i <= |local|
    requires h in ScanFrom(actions, local, threads, executing, limit, i).0 && h !in threads
    ensures h < |actions|
    ensures var r := ScanFrom(actions, local, threads, executing, limit, i).0;
      (r[h].Started? ==> r[h] == Started(false, 0) && PrerequisitesSucceeded(actions[h].prerequisites, local, r)) &&
      (r[h].Skipped? ==> HasFailedPrerequisite(actions[h].prerequisites, local, r))
    decreases |local| - i
  {
    var r := ScanFrom(actions, local, threads, executing, limit, i).0;
    var g := local[i];
    if g in threads || executing >= limit {
      ScanJustified(actions, local, threads, executing, limit, i + 1, h);
    } else {
      var d := Decide(actions[g].prerequisites, local, threads);
      var next := match d
        case Skip => threads[g := Skipped]
        case Start => threads[g := Started(false, 0)]
        case Wait => threads;
      var exec := if d == Start then executing + 1 else executing;
      assert ScanFrom(actions, local, threads, executing, limit, i) == ScanFrom(actions, local, next, exec, limit, i + 1);
      if h == g && d != Wait {
        ScanAdds(actions, local, next, exec, limit, i + 1);
        assert r[h] == next[h];
        var pre := actions[g].prerequisites;
        DecideMeans(pre, local, threads);
        if d == Start {
          forall k | 0 <= k < |pre| && LocalProducer(local, pre[k])
            ensures pre[k].value in r && r[pre[k].value] == Started(true, 0)
          {
            assert threads[pre[k].value] == Started(true, 0);
          }
        } else {
          var k :| 0 <= k < |pre| && LocalProducer(local, pre[k]) && pre[k].value in threads && Failed(threads[pre[k].value]);
          assert r[pre[k].value] == threads[pre[k].value];
        }
      } else {
        ScanJustified(actions, local, next, exec, limit, i + 1, h);
      }
    }
  }

  /** The second loop of a round as the C# runs it. */
  method Scan(actions: seq<RawAction>, local: seq<nat>, threads0: Threads, executing0: int, limit: int)
    returns (threads: Threads, executing: int)
    requires InBatch(actions, local)
    ensures (threads, executing) == ScanFrom(actions, local, threads0, executing0, limit, 0)
  {
    threads, executing := threads0, executing0;
    var i := 0;
    while i < |local|
      invariant i <= |local|
      invariant ScanFrom(actions, local, threads, executing, limit, i) == ScanFrom(actions, local, threads0, executing0, limit, 0)
      decreases |local| - i
    {
      var h := local[i];
      if h !in threads && executing < limit {
        var (failed, outdated) := Examine(actions[h].prerequisites, local, threads);
        if failed {
          threads := threads[h := Skipped];
        } else if !outdated {
          threads := threads[h := Started(false, 0)];
          executing := executing + 1;
        }
      }
      i := i + 1;
    }
  }

  // ----- counting -----

  /** Positions whose action has no entry or a running thread. */
  function Pending(local: seq<nat>, threads: Threads): nat
    decreases |local|
  {
    if |local| == 0 then 0
    else
      var h := local[|local| - 1];
      Pending(local[..|local| - 1], threads) + (if h !in threads || Running(threads[h]) then 1 else 0)
  }

  /** Positions whose action has a running thread. */
  function Executing(local: seq<nat>, threads: Threads): nat
    decreases |local|
  {
    if |local| == 0 then 0
    else
      var h := local[|local| - 1];
      Executing(local[..|local| - 1], threads) + (if h in threads && Running(threads[h]) then 1 else 0)
  }

  /** Nothing is pending exactly when every local action has an entry and
      none is running. */
  lemma {:induction false} PendingZero(local: seq<nat>, threads: Threads)
    ensures Pending(local, threads) == 0 <==>
              forall k :: 0 <= k < |local| ==> local[k] in threads && !Running(threads[local[k]])
    decreases |local|
  {
    if |local| > 0 {
      var n := |local| - 1;
      PendingZero(local[..n], threads);
      assert forall k :: 0 <= k < n ==> local[..n][k] == local[k];
    }
  }

  /** A running thread is also pending. */
  lemma {:induction false} ExecutingWithinPending(local: seq<nat>, threads: Threads)
    ensures Executing(local, threads) <= Pending(local, threads)
    decreases |local|
  {
    if |local| > 0 {
      ExecutingWithinPending(local[..|local| - 1], threads);
    }
  }

  /** The first loop of a round. */
  method Count(local: seq<nat>, threads: Threads) returns (pending: nat, executing: nat)
    ensures pending == Pending(local, threads) && executing == Executing(local, threads)
  {
    pending, executing := 0, 0;
    for i := 0 to |local|
      invariant pending == Pending(local[..i], threads) && executing == Executing(local[..i], threads)
    {
      assert local[..i + 1][..i] == local[..i];
      var h := local[i];
      if h !in threads {
        pending := pending + 1;
      } else if Running(threads[h]) {
        pending := pending + 1;
        executing := executing + 1;
      }
    }
    assert local[..|local|] == local;
  }

  // ----- rounds -----

  /** Threads that finish while the loop sleeps: a running thread named in
      `exits` completes with that exit code. */
  function Complete(threads: Threads, exits: map<nat, int>): (r: Threads)
    ensures r.Keys == threads.Keys
    ensures forall h :: h in threads && !Running(threads[h]) ==> r[h] == threads[h]
    ensures forall h :: h in threads && Running(threads[h]) ==> (if h in exits then r[h] == Started(true, exits[h]) else r[h] == threads[h])
  {
    map h | h in threads :: if Running(threads[h]) && h in exits then Started(true, exits[h]) else threads[h]
  }

  /** `ExecuteLocalActions` over the rounds the environment provides.
      `finished` says the loop ended because nothing was pending; it stops
      early, unfinished, when the rounds run out. The result is always
      `TasksSucceeded`, whatever the threads' exit codes. */
  method ExecuteLocalActions(actions: seq<RawAction>, local: seq<nat>, threads0: Threads, maxParallel: int,
                             rounds: seq<map<nat, int>>)
    returns (result: ExecutionResult, threads: Threads, finished: bool)
    requires InBatch(actions, local)
    ensures result == TasksSucceeded
    ensures finished ==> forall k :: 0 <= k < |local| ==> local[k] in threads && !Running(threads[local[k]])
    ensures forall h :: h in threads0 ==> h in threads
    ensures forall h :: h in threads0 && !Running(threads0[h]) ==> threads[h] == threads0[h]
    ensures forall h :: h in threads ==> h in threads0 || h in local
  {
    result := TasksSucceeded;
    threads := threads0;
    finished := false;
    var limit := Limit(maxParallel);
    var i := 0;
    while i <= |rounds|
      invariant i <= |rounds| + 1
      invariant forall h :: h in threads0 ==> h in threads
      invariant forall h :: h in threads0 && !Running(threads0[h]) ==> threads[h] == threads0[h]
      invariant forall h :: h in threads ==> h in threads0 || h in local
      invariant !finished
      decreases |rounds| + 1 - i
    {
      var pending, executing := Count(local, threads);
      if pending == 0 {
        PendingZero(local, threads);
        finished := true;
        break;
      }
      if i == |rounds| {
        break;
      }
      var before := threads;
      threads, executing := Scan(actions, local, threads, executing, limit);
      ScanAdds(actions, local, before, Executing(local, before), limit, 0);
      threads := Complete(threads, rounds[i]);
      i := i + 1;
    }
  }
}

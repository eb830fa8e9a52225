/** The two classes of `worktree-status-batcher.ts`, proved against the state machine. */
module WorktreeBatcherClasses {
  import opened Common
  import opened WaitingRows
  import Spec = WorktreeBatcher

  // ---------------------------------------------------------------- the insertion-ordered map

  lemma {:induction false} AddedAt(rows: Rows, i: nat, path: string, waiter: Waiter)
    requires i <= |rows| && (forall j :: 0 <= j < i ==> rows[j].path != path)
    requires i < |rows| ==> rows[i].path == path
    ensures Added(rows, path, waiter)
         == if i < |rows| then rows[i := Row(path, rows[i].waiters + [waiter])] else rows + [Row(path, [waiter])]
  {
    if rows != [] && i > 0 {
      AddedAt(rows[1..], i - 1, path, waiter);
    }
  }

  lemma {:induction false} TakenAt(rows: Rows, i: nat, path: string)
    requires i <= |rows| && (forall j :: 0 <= j < i ==> rows[j].path != path)
    requires i < |rows| ==> rows[i].path == path
    ensures Taken(rows, path) == if i < |rows| then rows[..i] + rows[i + 1..] else rows
    ensures TakenWaiters(rows, path) == if i < |rows| then rows[i].waiters else []
  {
    if rows != [] && i > 0 {
      TakenAt(rows[1..], i - 1, path);
    }
  }

  lemma {:induction false} RemovedAt(rows: Rows, i: nat, path: string, waiter: Waiter)
    requires i <= |rows| && (forall j :: 0 <= j < i ==> rows[j].path != path)
    requires i < |rows| ==> rows[i].path == path
    ensures Removed(rows, path, waiter)
         == if i == |rows| then rows
            else if Without(rows[i].waiters, waiter) == [] then rows[..i] + rows[i + 1..]
            else rows[i := Row(path, Without(rows[i].waiters, waiter))]
  {
    if rows != [] && i > 0 {
      RemovedAt(rows[1..], i - 1, path, waiter);
    }
  }

  class PathWaiters {
    /** The map's entries in insertion order. */
    var byPath: Rows

    constructor ()
      ensures byPath == []
    {
      byPath := [];
    }

    method IndexOf(path: string) returns (i: nat)
      ensures i <= |byPath| && (forall j :: 0 <= j < i ==> byPath[j].path != path)
      ensures i < |byPath| ==> byPath[i].path == path
    {
      i := 0;
      while i < |byPath| && byPath[i].path != path
        invariant i <= |byPath| && forall j :: 0 <= j < i ==> byPath[j].path != path
      {
        i := i + 1;
      }
    }

    method Add(path: string, waiter: Waiter)
      modifies this
      ensures byPath == Added(old(byPath), path, waiter)
    {
      var i := IndexOf(path);
      AddedAt(byPath, i, path, waiter);
      if i < |byPath| {
        byPath := byPath[i := Row(path, byPath[i].waiters + [waiter])];
      } else {
        byPath := byPath + [Row(path, [waiter])];
      }
    }

    method Append(other: PathWaiters)
      requires other != this
      modifies this
      ensures byPath == Appended(old(byPath), other.byPath)
    {
      var rows := other.byPath;
      for i := 0 to |rows|
        invariant byPath == Appended(old(byPath), rows[..i])
      {
        var pending := rows[i].waiters;
        for j := 0 to |pending|
          invariant byPath == AddedAll(Appended(old(byPath), rows[..i]), rows[i].path, pending[..j])
        {
          Add(rows[i].path, pending[j]);
          assert pending[..j + 1][..j] == pending[..j];
        }
        assert pending[..|pending|] == pending;
        assert rows[..i + 1][..i] == rows[..i];
      }
      assert rows[..|rows|] == rows;
    }

    method Remove(path: string, waiter: Waiter)
      modifies this
      ensures byPath == Removed(old(byPath), path, waiter)
    {
      var i := IndexOf(path);
      RemovedAt(byPath, i, path, waiter);
      if i == |byPath| {
        return;
      }
      var remaining := Without(byPath[i].waiters, waiter);
      if remaining == [] {
        byPath := byPath[..i] + byPath[i + 1..];
      } else {
        byPath := byPath[i := Row(path, remaining)];
      }
    }

    method Take(path: string) returns (pending: seq<Waiter>)
      modifies this
      ensures byPath == Taken(old(byPath), path) && pending == TakenWaiters(old(byPath), path)
    {
      var i := IndexOf(path);
      TakenAt(byPath, i, path);
      if i == |byPath| {
        return [];
      }
      pending := byPath[i].waiters;
      byPath := byPath[..i] + byPath[i + 1..];
    }
  }

  // ---------------------------------------------------------------- the batcher

  lemma NothingHandedOut(rows: Rows)
    ensures Spec.HandedOut(rows, []) == (rows, []) && Spec.WaitersOf([]) == {}
  {
  }

  class WorktreeStatusBatcher {
    var queued: PathWaiters
    var inFlight: PathWaiters?
    /** Whether the controller of the request in flight was aborted. */
    var cancelled: bool
    var scheduled: bool
    var nextWaiter: nat
    /** What the outside sees: promises handed out and settled, attached listeners, requests sent. */
    ghost var loaded: seq<Waiter>
    ghost var settled: seq<Spec.Settlement>
    ghost var listening: set<Waiter>
    ghost var requests: seq<seq<string>>

    ghost function State(): Spec.State
      reads this, queued, inFlight
    {
      Spec.State(queued.byPath, if inFlight == null then None else Some(inFlight.byPath),
                 cancelled, scheduled, listening, loaded, settled, requests)
    }

    ghost predicate Valid()
      reads this, queued, inFlight
    {
      queued != inFlight && nextWaiter == |loaded| && Spec.Inv(State())
    }

    constructor ()
      ensures Valid() && State() == Spec.Idle
      ensures fresh(queued)
    {
      queued := new PathWaiters();
      inFlight := null;
      cancelled, scheduled, nextWaiter := false, false, 0;
      loaded, settled, listening, requests := [], [], {}, [];
      new;
      assert Spec.Run(Spec.Idle, []) == Spec.Idle;
      Spec.RunKeeps([]);
    }

    /** Settles waiters and takes their abort listeners away. */
    ghost method Settle(waiters: seq<Waiter>, outcome: Spec.Outcome)
      modifies this`settled, this`listening
      ensures settled == old(settled) + Spec.SettledAs(waiters, outcome)
      ensures listening == old(listening) - Spec.WaitersOf(Spec.SettledAs(waiters, outcome))
    {
      settled := settled + Spec.SettledAs(waiters, outcome);
      listening := listening - Spec.WaitersOf(Spec.SettledAs(waiters, outcome));
    }

    method Schedule()
      modifies this`scheduled
      ensures State() == Spec.Schedule(old(State()))
    {
      if !scheduled && inFlight == null {
        scheduled := true;
      }
    }

    method Load(path: string, aborted: bool) returns (waiter: Waiter)
      requires Valid()
      modifies this, queued
      ensures Valid() && State() == Spec.Load(old(State()), path, aborted)
      ensures queued == old(queued) && inFlight == old(inFlight)
    {
      Spec.LoadKeeps(State(), path, aborted);
      waiter := Waiter(nextWaiter, path);
      nextWaiter := nextWaiter + 1;
      loaded := loaded + [waiter];
      if aborted {
        settled := settled + [Spec.Settlement(waiter, Spec.Aborted)];
      } else {
        listening := listening + {waiter};
        queued.Add(path, waiter);
        Schedule();
      }
    }

    /** The batch timer: sends the queued rows unless that is no longer needed. */
    method TimerFired()
      requires Valid() && scheduled
      modifies this
      ensures Valid() && State() == Spec.Fire(old(State()))
      ensures (queued == old(queued) && inFlight == old(inFlight)) || (fresh(queued) && inFlight == old(queued))
    {
      Spec.FireKeeps(State());
      scheduled := false;
      if inFlight != null || queued.byPath == [] {
        return;
      }
      var waiters := queued;
      queued := new PathWaiters();
      inFlight, cancelled := waiters, false;
      requests := requests + [Paths(waiters.byPath)];
    }

    method RejectAll(waiters: PathWaiters, outcome: Spec.Outcome)
      requires waiters != queued
      modifies this`settled, this`listening, waiters
      ensures waiters.byPath == []
      ensures settled == old(settled) + Spec.AllRejected(old(waiters.byPath), outcome)
      ensures listening == old(listening) - Spec.WaitersOf(Spec.AllRejected(old(waiters.byPath), outcome))
    {
      ghost var rows := waiters.byPath;
      ghost var done: seq<Spec.Settlement> := [];
      var paths := Paths(waiters.byPath);
      assert rows[0..] == rows;
      for i := 0 to |paths|
        invariant waiters.byPath == rows[i..]
        invariant done + Spec.AllRejected(rows[i..], outcome) == Spec.AllRejected(rows, outcome)
        invariant settled == old(settled) + done
        invariant listening == old(listening) - Spec.WaitersOf(done)
      {
        var pending := waiters.Take(paths[i]);
        Settle(pending, outcome);
        assert rows[i..][1..] == rows[i + 1..];
        done := done + Spec.SettledAs(pending, outcome);
      }
      assert rows[|paths|..] == [];
      assert done == Spec.AllRejected(rows, outcome);
    }

    /** The end of a request: what is left goes in front of the queue. */
    method End(left: PathWaiters)
      requires left != queued && left == inFlight
      modifies this`queued, this`inFlight, this`scheduled, left
      ensures queued == left && inFlight == null
      ensures left.byPath == Appended(old(left.byPath), old(queued.byPath))
      ensures scheduled
    {
      left.Append(queued);
      queued := left;
      inFlight := null;
      Schedule();
    }

    /** Settles the rows of the paths that got a status, in the order of the response. */
    method HandOut(waiters: PathWaiters, statuses: seq<Spec.Status>) returns (ghost done: seq<Spec.Settlement>)
      modifies this`settled, this`listening, waiters
      ensures (waiters.byPath, done) == Spec.HandedOut(old(waiters.byPath), statuses)
      ensures settled == old(settled) + done
      ensures listening == old(listening) - Spec.WaitersOf(done)
    {
      ghost var rows := waiters.byPath;
      done := [];
      for i := 0 to |statuses|
        invariant (waiters.byPath, done) == Spec.HandedOut(rows, statuses[..i])
        invariant settled == old(settled) + done
        invariant listening == old(listening) - Spec.WaitersOf(done)
      {
        var pending := waiters.Take(statuses[i].path);
        Settle(pending, Spec.Answered(statuses[i].verdict));
        assert statuses[..i + 1][..i] == statuses[..i];
        done := done + Spec.SettledAs(pending, Spec.Answered(statuses[i].verdict));
      }
      assert statuses[..|statuses|] == statuses;
    }

    method Responded(statuses: seq<Spec.Status>)
      requires Valid() && inFlight != null
      modifies this, inFlight
      ensures Valid() && State() == Spec.Respond(old(State()), statuses)
      ensures queued == old(inFlight) && inFlight == null
    {
      Spec.RespondKeeps(State(), statuses);
      NothingHandedOut(inFlight.byPath);
      hide Spec.Inv, Spec.HandedOut, Spec.AllRejected, Spec.WaitersOf, Appended;
      var waiters := inFlight;
      ghost var done := HandOut(waiters, statuses);
      if statuses == [] {
        assert settled == old(settled) && listening == old(listening);
        RejectAll(waiters, Spec.NothingCounted);
      }
      End(waiters);
    }

    method RequestFailed()
      requires Valid() && inFlight != null
      modifies this, inFlight
      ensures Valid() && State() == Spec.Fail(old(State()))
      ensures queued == old(queued) && inFlight == null
    {
      Spec.FailKeeps(State());
      RejectAll(inFlight, Spec.RequestFailed);
      inFlight := null;
      Schedule();
    }

    method Abandon(waiter: Waiter)
      requires Valid() && waiter in listening
      modifies this, queued, inFlight
      ensures Valid() && State() == Spec.Abandon(old(State()), waiter)
      ensures queued == old(queued) && inFlight == old(inFlight)
    {
      Spec.AbandonKeeps(State(), waiter);
      settled := settled + [Spec.Settlement(waiter, Spec.Aborted)];
      listening := listening - {waiter};
      queued.Remove(waiter.path, waiter);
      if inFlight == null {
        return;
      }
      inFlight.Remove(waiter.path, waiter);
      if inFlight.byPath == [] {
        cancelled := true;
      }
    }
  }
}

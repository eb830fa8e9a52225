/** Why every batch of the upload queue comes to its end: each event leaves less to do. */
module UploadProgress {
  import opened Common
  import opened UploadPump
  import opened UploadRuns
  import opened UploadScheduler

  /** The events a started upload still has before it. */
  function Busy(item: Item, runs: map<nat, Run>): nat {
    if item.status == Uploading && item.id in runs then (if runs[item.id].Preparing? then 2 else 1) else 0
  }

  function AllBusy(items: seq<Item>, runs: map<nat, Run>): nat {
    if items == [] then 0 else Busy(items[0], runs) + AllBusy(items[1..], runs)
  }

  function Asked(requests: seq<Request>): nat {
    if requests == [] then 0
    else Asked(requests[..|requests| - 1]) + if requests[|requests| - 1].outcome == Pending then 1 else 0
  }

  function Creations(directories: seq<Directory>): nat {
    if directories == [] then 0 else (if directories[0].status == Creating then 1 else 0) + Creations(directories[1..])
  }

  /** A waiting file still needs a request, an upload and its end at most. */
  function Measure(s: State): nat {
    4 * Count(s.items, Waiting) + AllBusy(s.items, s.runs) + Asked(s.requests) + Creations(s.directories)
  }

  // ---------------------------------------------------------------- sums

  lemma {:induction false} SameBusy(a: seq<Item>, b: seq<Item>, runsA: map<nat, Run>, runsB: map<nat, Run>)
    requires |a| == |b| && forall i :: 0 <= i < |a| ==> Busy(a[i], runsA) == Busy(b[i], runsB)
    ensures AllBusy(a, runsA) == AllBusy(b, runsB)
  {
    if a != [] {
      SameBusy(a[1..], b[1..], runsA, runsB);
    }
  }

  /** Only the row `k` differs. */
  lemma {:induction false} OneBusy(a: seq<Item>, b: seq<Item>, runsA: map<nat, Run>, runsB: map<nat, Run>, k: nat)
    requires k < |a| == |b| && forall i :: 0 <= i < |a| && i != k ==> Busy(a[i], runsA) == Busy(b[i], runsB)
    ensures AllBusy(a, runsA) - Busy(a[k], runsA) == AllBusy(b, runsB) - Busy(b[k], runsB)
  {
    if k == 0 {
      SameBusy(a[1..], b[1..], runsA, runsB);
    } else {
      OneBusy(a[1..], b[1..], runsA, runsB, k - 1);
    }
  }

  lemma {:induction false} AskedUpdate(requests: seq<Request>, k: nat, request: Request)
    requires k < |requests| && requests[k].outcome == Pending && request.outcome != Pending
    ensures Asked(requests[k := request]) == Asked(requests) - 1
  {
    var n := |requests| - 1;
    if k < n {
      AskedUpdate(requests[..n], k, request);
      assert requests[k := request][..n] == requests[..n][k := request];
    } else {
      assert requests[k := request][..n] == requests[..n];
    }
  }

  lemma {:induction false} SameCreations(a: seq<Directory>, b: seq<Directory>)
    requires |a| == |b| && forall i :: 0 <= i < |a| ==> (a[i].status == Creating <==> b[i].status == Creating)
    ensures Creations(a) == Creations(b)
  {
    if a != [] {
      SameCreations(a[1..], b[1..]);
    }
  }

  lemma {:induction false} OneCreation(a: seq<Directory>, b: seq<Directory>, k: nat)
    requires k < |a| == |b| && a[k].status == Creating && b[k].status != Creating
    requires forall i :: 0 <= i < |a| && i != k ==> (a[i].status == Creating <==> b[i].status == Creating)
    ensures Creations(b) == Creations(a) - 1
  {
    if k == 0 {
      SameCreations(a[1..], b[1..]);
    } else {
      OneCreation(a[1..], b[1..], k - 1);
    }
  }

  // ---------------------------------------------------------------- pumping

  /** Starting a run adds two events at most, because its id is one row's. */
  lemma RunAdds(items: seq<Item>, runs: map<nat, Run>, id: nat, run: Run)
    requires IdsGrow(items)
    ensures AllBusy(items, runs[id := run]) <= AllBusy(items, runs) + 2
  {
    if k :| 0 <= k < |items| && items[k].id == id {
      assert forall i :: 0 <= i < |items| && i != k ==> items[i].id != id;
      OneBusy(items, items, runs, runs[id := run], k);
    } else {
      SameBusy(items, items, runs, runs[id := run]);
    }
  }

  lemma PrepareAsks(s: State, target: Target)
    ensures Asked(Prepare(s, target).0.requests) <= Asked(s.requests) + 1
    ensures Prepare(s, target).0.items == s.items && Prepare(s, target).0.runs == s.runs
  {
    assert target !in s.prepared ==> Prepare(s, target).0.requests[..|s.requests|] == s.requests;
  }

  lemma RunItemAdds(s: State, item: Item, agents: set<string>)
    requires IdsGrow(s.items)
    ensures var after := RunItem(s, item, agents);
      && after.items == s.items
      && AllBusy(after.items, after.runs) + Asked(after.requests) <= AllBusy(s.items, s.runs) + Asked(s.requests) + 3
  {
    var begun, after := s.(started := s.started + [item.id]), RunItem(s, item, agents);
    PrepareAsks(begun, ParentTarget(item));
    hide AllBusy, IdsGrow, Asked, Prepare;
    RunAdds(s.items, s.runs, item.id, after.runs[item.id]);
    assert after.runs == s.runs[item.id := after.runs[item.id]];
  }

  lemma {:induction false} RunItemsAdd(s: State, items: seq<Item>, agents: set<string>)
    requires IdsGrow(s.items)
    ensures var after := RunItems(s, items, agents);
      && after.items == s.items
      && AllBusy(after.items, after.runs) + Asked(after.requests)
         <= AllBusy(s.items, s.runs) + Asked(s.requests) + 3 * |items|
  {
    if items != [] {
      hide AllBusy, Asked, IdsGrow, RunItem;
      RunItemsAdd(s, items[..|items| - 1], agents);
      RunItemAdds(RunItems(s, items[..|items| - 1], agents), items[|items| - 1], agents);
    }
  }

  ghost predicate NoDirectoryWaits(directories: seq<Directory>) {
    forall i :: 0 <= i < |directories| ==> directories[i].status != DirectoryWaiting
  }

  lemma {:induction false} NoneClaimed(directories: seq<Directory>)
    requires NoDirectoryWaits(directories)
    ensures ClaimedDirectories(directories) == [] && ClaimDirectories(directories) == directories
  {
    if directories != [] {
      NoneClaimed(directories[1..]);
    }
  }

  lemma WaitingDoesNotRun(items: seq<Item>, runs: map<nat, Run>, requests: seq<Request>, i: nat)
    requires IdsGrow(items) && RunsMatch(items, runs, requests, 0, 0) && i < |items| && items[i].status == Waiting
    ensures items[i].id !in runs
  {
    assert !UploadingAs(items, items[i].id, 0, 0);
  }

  /** Claimed rows are not started yet, so claiming them adds nothing. */
  lemma ClaimAdds(items: seq<Item>, slots: nat, runs: map<nat, Run>, requests: seq<Request>)
    requires IdsGrow(items) && WaitingBehind(items) && RunsMatch(items, runs, requests, 0, 0)
    ensures AllBusy(Claim(items, slots), runs) == AllBusy(items, runs)
  {
    ClaimShape(items, slots);
    var f, m := FirstWaiting(items), |Claimed(items, slots)|;
    hide Claim, Claimed, FirstWaiting, WaitingBehind;
    forall i | 0 <= i < |items|
      ensures Busy(Claim(items, slots)[i], runs) == Busy(items[i], runs)
    {
      if f <= i < f + m {
        WaitingDoesNotRun(items, runs, requests, i);
      }
    }
    hide Claims, IdsGrow, RunsMatch;
    SameBusy(Claim(items, slots), items, runs, runs);
  }

  lemma PumpShrinks(s: State, agents: set<string>)
    requires Core(s) && NoDirectoryWaits(s.directories)
    ensures Measure(Pump(s, agents)) <= Measure(s)
  {
    var slots := FreeSlots(s.items);
    assert IdsGrow(s.items) && WaitingBehind(s.items) && RunsMatch(s.items, s.runs, s.requests, 0, 0);
    NoneClaimed(s.directories);
    ClaimCounts(s.items, slots);
    ClaimAdds(s.items, slots, s.runs, s.requests);
    assert IdsGrow(Claim(s.items, slots)) by { ClaimingItems(s); }
    var updated := Claiming(s);
    RunItemsAdd(updated, Claimed(s.items, slots), agents);
    hide Core, IdsGrow, WaitingBehind, RunsMatch, Claim, Claimed;
    hide Count, AllBusy, Asked, Creations, NoDirectoryWaits, FreeSlots;
    hide ClaimDirectories, ClaimedDirectories, Unfinished;
    if Claimed(s.items, slots) != [] {
      var after := Pump(s, agents);
      assert after == RunItems(updated, Claimed(s.items, slots), agents);
    }
  }

  // ---------------------------------------------------------------- every event

  lemma EndedShrinks(s: State, agents: set<string>)
    requires Core(s) && NoDirectoryWaits(s.directories)
    ensures Measure(AfterWorkFinished(s, agents)) <= Measure(s)
  {
    PumpShrinks(s, agents);
    hide Pump, Core, Count, AllBusy, Asked, Creations, Unfinished;
  }

  lemma ItemEndShrinks(s: State, id: nat, error: Option<string>, agents: set<string>)
    requires Inv(s) && id in s.runs
    ensures Measure(FinishItem(s, id, error, agents)) < Measure(s)
  {
    assert UploadingAs(s.items, id, 0, 0) && IdsGrow(s.items);
    var k := MarkFinds(s.items, id, error);
    var marked := MarkItem(s.items, id, error);
    var updated := Update(s.(runs := s.runs - {id}), marked, s.directories);
    MarkedBusy(s.items, marked, s.runs, id, k);
    ItemMarked(s, id, error);
    assert NoDirectoryWaits(s.directories);
    hide Core, WorkConserving, AfterWorkFinished, MarkItem, Unfinished, Count;
    hide AllBusy, Asked, Creations, IdsGrow, OnlyMarks, NoDirectoryWaits;
    EndedShrinks(updated, agents);
  }

  lemma MarkedBusy(items: seq<Item>, marked: seq<Item>, runs: map<nat, Run>, id: nat, k: nat)
    requires IdsGrow(items) && OnlyMarks(items, marked, id, k) && id in runs
    ensures AllBusy(marked, runs - {id}) < AllBusy(items, runs)
    ensures Count(marked, Waiting) <= Count(items, Waiting)
  {
    CountAtMost(marked, items, Waiting);
    assert forall i :: 0 <= i < |items| && i != k ==> items[i].id != id;
    OneBusy(items, marked, runs, runs - {id}, k);
    hide Count, AllBusy;
  }

  lemma DirectoryEndShrinks(s: State, id: nat, agents: set<string>)
    requires Inv(s) && id in s.directoryRuns
    ensures Measure(FinishDirectory(s, id, agents)) < Measure(s)
  {
    assert CreatingAs(s.directories, id) && DirectoriesOrdered(s.directories, s.nextId);
    var marked := MarkDirectory(s.directories, id);
    var updated := Update(s.(directoryRuns := s.directoryRuns - {id}), s.items, marked);
    MarkedCreation(s.directories, id, s.nextId);
    DirectoryMarked(s, id);
    assert NoDirectoryWaits(s.directories);
    assert NoDirectoryWaits(marked);
    hide Core, WorkConserving, AfterWorkFinished, MarkDirectory, Unfinished;
    hide Count, AllBusy, Asked, Creations, NoDirectoryWaits;
    EndedShrinks(updated, agents);
  }

  lemma MarkedCreation(directories: seq<Directory>, id: nat, nextId: nat)
    requires CreatingAs(directories, id) && DirectoriesOrdered(directories, nextId)
    ensures Creations(MarkDirectory(directories, id)) == Creations(directories) - 1
  {
    var k :| 0 <= k < |directories| && directories[k].id == id && directories[k].status == Creating;
    assert forall i :: 0 <= i < |directories| && directories[i].id == id ==> i == k;
    OneCreation(directories, MarkDirectory(directories, id), k);
  }

  lemma SendShrinks(s: State, id: nat, agents: set<string>)
    requires Inv(s) && Enabled(s, SendsFile(id))
    ensures Measure(Step(s, SendsFile(id), agents)) < Measure(s)
  {
    assert UploadingAs(s.items, id, 0, 0) && IdsGrow(s.items);
    hide Inv, Core;
    SendBusy(s.items, s.runs, id);
    hide AllBusy, IdsGrow, Count, Asked, Creations, UploadingAs;
  }

  lemma SendBusy(items: seq<Item>, runs: map<nat, Run>, id: nat)
    requires UploadingAs(items, id, 0, 0) && IdsGrow(items) && id in runs && runs[id].Preparing?
    ensures AllBusy(items, runs[id := Sending(runs[id].request)]) == AllBusy(items, runs) - 1
  {
    var k :| 0 <= k < |items| && !(0 <= k < 0) && items[k].id == id && items[k].status == Uploading;
    assert forall i :: 0 <= i < |items| && i != k ==> items[i].id != id;
    OneBusy(items, items, runs, runs[id := Sending(runs[id].request)], k);
  }

  /** Every event but a new batch leaves less to do. */
  lemma EventShrinks(s: State, event: Event, agents: set<string>)
    requires Inv(s) && Enabled(s, event) && !event.Enqueues?
    ensures Measure(Step(s, event, agents)) < Measure(s)
  {
    match event
    case RequestSettles(request, ok) =>
      hide Inv, AllBusy, Count, Creations;
      AskedUpdate(s.requests, request, s.requests[request].(outcome := if ok then Succeeded else Failed));
    case SendsFile(id) =>
      hide Inv, Measure;
      SendShrinks(s, id, agents);
    case UploadEnds(id, error) =>
      hide Inv, Measure, FinishItem;
      ItemEndShrinks(s, id, error, agents);
    case DirectoryEnds(id) =>
      hide Inv, Measure, FinishDirectory;
      DirectoryEndShrinks(s, id, agents);
  }

  lemma {:induction false} BusyWhileRunning(items: seq<Item>, runs: map<nat, Run>, k: nat)
    requires k < |items| && items[k].status == Uploading && items[k].id in runs
    ensures AllBusy(items, runs) > 0
  {
    if k > 0 {
      BusyWhileRunning(items[1..], runs, k - 1);
    }
  }

  lemma {:induction false} CreationWhileRunning(directories: seq<Directory>, k: nat)
    requires k < |directories| && directories[k].status == Creating
    ensures Creations(directories) > 0
  {
    if k > 0 {
      CreationWhileRunning(directories[1..], k - 1);
    }
  }

  /** Pending work is never measured as nothing. */
  lemma PendingIsMeasured(s: State)
    requires Inv(s) && HasPending(s)
    ensures Measure(s) > 0
  {
    if i :| 0 <= i < |s.items| && s.items[i].status != Done {
      if s.items[i].status == Waiting {
        CountSome(s.items, Waiting, i);
      } else {
        assert !(0 <= i < 0) && s.items[i].id in s.runs;
        BusyWhileRunning(s.items, s.runs, i);
      }
    } else {
      var i :| 0 <= i < |s.directories| && s.directories[i].status != Created;
      CreationWhileRunning(s.directories, i);
    }
  }

  /**
   * Without new batches no run is longer than what there is to do, and by then nothing is pending.
   * With `NeverStuck`: however requests and uploads end, the queue drains and settles.
   */
  lemma {:induction false} QueueDrains(s: State, run: seq<Occurrence>)
    requires Inv(s) && Possible(s, run) && forall i :: 0 <= i < |run| ==> !run[i].event.Enqueues?
    ensures |run| + Measure(After(s, run)) <= Measure(s)
    ensures |run| == Measure(s) ==> !HasPending(After(s, run))
    decreases |run|
  {
    if run == [] {
      if HasPending(s) {
        PendingIsMeasured(s);
      }
    } else {
      hide Inv, Measure, Step, HasPending;
      StepKeeps(s, run[0].event, run[0].agents);
      EventShrinks(s, run[0].event, run[0].agents);
      QueueDrains(Step(s, run[0].event, run[0].agents), run[1..]);
    }
  }
}

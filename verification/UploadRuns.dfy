/** What batches, ends and every other event keep, and what holds over whole runs of the upload queue. */
module UploadRuns {
  import opened Common
  import opened UploadPaths
  import opened UploadPump
  import opened UploadScheduler

  // ---------------------------------------------------------------- enqueuing

  lemma {:induction false} CountConcat(a: seq<Item>, b: seq<Item>, status: Status)
    ensures Count(a + b, status) == Count(a, status) + Count(b, status)
  {
    if a == [] {
      assert a + b == b;
    } else {
      CountConcat(a[1..], b, status);
      assert (a + b)[1..] == a[1..] + b;
    }
  }

  lemma {:induction false} CountAtMost(a: seq<Item>, b: seq<Item>, status: Status)
    requires |a| == |b| && forall i :: 0 <= i < |a| && a[i].status == status ==> b[i].status == status
    ensures Count(a, status) <= Count(b, status)
  {
    if a != [] {
      CountAtMost(a[1..], b[1..], status);
    }
  }

  lemma {:induction false} CountNone(items: seq<Item>, status: Status)
    requires forall i :: 0 <= i < |items| ==> items[i].status != status
    ensures Count(items, status) == 0
  {
    if items != [] {
      CountNone(items[1..], status);
    }
  }

  lemma {:induction false} CountSome(items: seq<Item>, status: Status, i: nat)
    requires i < |items| && items[i].status == status
    ensures Count(items, status) > 0
  {
    if i > 0 {
      CountSome(items[1..], status, i - 1);
    }
  }

  ghost predicate Fresh(items: seq<Item>, from: nat) {
    forall i :: 0 <= i < |items| ==> items[i].id == from + i && items[i].status == Waiting
  }

  lemma {:induction false} NewItemsAreFresh(batch: Batch, files: seq<File>, nextId: nat)
    ensures var (rows, after) := NewItems(batch, files, nextId);
      && nextId <= after
      && (rows.Some? <==> forall i :: 0 <= i < |files| ==> Normalize(files[i].relative).Some?)
      && (rows.Some? ==> |rows.value| == |files| && after == nextId + |files| && Fresh(rows.value, nextId))
      && (rows.Some? ==> forall i :: 0 <= i < |files| ==>
            && rows.value[i].relative == Normalize(files[i].relative).value
            && rows.value[i].agent == batch.agent && rows.value[i].destination == batch.destination
            && rows.value[i].handle == files[i].handle
            && rows.value[i].onExisting == files[i].onExisting && rows.value[i].encrypt == files[i].encrypt)
  {
    if files != [] && Normalize(files[0].relative).Some? {
      NewItemsAreFresh(batch, files[1..], nextId + 1);
      var (rest, _) := NewItems(batch, files[1..], nextId + 1);
      assert forall i :: 0 <= i < |files| - 1 ==> files[1..][i] == files[i + 1];
      if rest.None? {
        var i :| 0 <= i < |files| - 1 && Normalize(files[1..][i].relative).None?;
        assert Normalize(files[i + 1].relative).None?;
      }
    }
  }

  lemma OrderJoins(items: seq<Item>, rows: seq<Item>, nextId: nat, after: nat, started: seq<nat>)
    requires Ordered(items, nextId) && Fresh(rows, nextId) && nextId + |rows| <= after
    requires StartedInOrder(items, started, nextId, 0, 0)
    ensures Ordered(items + rows, after) && StartedInOrder(items + rows, started, after, 0, 0)
  {
    var joined := items + rows;
    assert IdsGrow(joined) && WaitingBehind(joined);
    forall i, k | 0 <= i < |joined| && joined[i].status == Waiting && 0 <= k < |started|
      ensures started[k] < joined[i].id
    {
      if i < |items| {
        assert joined[i] == items[i];
      }
    }
    hide IdsGrow, WaitingBehind;
  }

  /** Rows with fresh ids join the retained ones: all of them, or none of a finished batch. */
  lemma ItemsJoin(items: seq<Item>, rows: seq<Item>, nextId: nat, after: nat, runs: map<nat, Run>,
                  requests: seq<Request>, started: seq<nat>)
    requires Ordered(items, nextId) && Fresh(rows, nextId) && nextId + |rows| <= after
    requires RunsMatch(items, runs, requests, 0, 0) && StartedInOrder(items, started, nextId, 0, 0)
    ensures var joined := items + rows;
      && Ordered(joined, after) && RunsMatch(joined, runs, requests, 0, 0)
      && StartedInOrder(joined, started, after, 0, 0)
      && Count(joined, Uploading) == Count(items, Uploading)
  {
    OrderJoins(items, rows, nextId, after, started);
    hide Ordered, StartedInOrder;
    CountConcat(items, rows, Uploading);
    CountNone(rows, Uploading);
    RunsJoin(items, rows, runs, requests);
    hide RunsMatch, Count;
  }

  lemma RunsJoin(items: seq<Item>, rows: seq<Item>, runs: map<nat, Run>, requests: seq<Request>)
    requires forall i :: 0 <= i < |rows| ==> rows[i].status == Waiting
    requires RunsMatch(items, runs, requests, 0, 0)
    ensures RunsMatch(items + rows, runs, requests, 0, 0)
  {
    var joined := items + rows;
    forall id <- runs
      ensures UploadingAs(joined, id, 0, 0)
    {
      var i :| 0 <= i < |items| && !(0 <= i < 0) && items[i].id == id && items[i].status == Uploading;
      assert joined[i] == items[i];
    }
  }

  lemma DirectoriesJoin(directories: seq<Directory>, batch: Batch, paths: seq<string>, nextId: nat, from: nat,
                        runs: map<nat, Option<nat>>, requests: seq<Request>)
    requires DirectoriesOrdered(directories, nextId) && DirectoryRunsMatch(directories, runs, requests, {}) && nextId <= from
    ensures var joined := directories + NewDirectories(batch, paths, from);
      && DirectoriesOrdered(joined, from + |paths|) && DirectoryRunsMatch(joined, runs, requests, {})
  {
    var joined := directories + NewDirectories(batch, paths, from);
    forall id <- runs
      ensures CreatingAs(joined, id)
    {
      var i :| 0 <= i < |directories| && directories[i].id == id && directories[i].status == Creating;
      assert joined[i] == directories[i];
    }
  }

  /** Nothing is running once no work is pending, so the finished rows can be dropped. */
  lemma NothingRuns(s: State)
    requires Core(s) && !HasPending(s)
    ensures s.runs == map[] && s.directoryRuns == map[]
  {
    forall id: nat
      ensures id !in s.runs && id !in s.directoryRuns
    {
      assert !UploadingAs(s.items, id, 0, 0) && !CreatingAs(s.directories, id);
    }
  }

  lemma RetainedCore(s: State)
    requires Core(s)
    ensures Core(Retained(s))
  {
    if !HasPending(s) {
      NothingRuns(s);
      hide Shared, SentAfterParent;
    }
  }

  lemma LaterIds(s: State, nextId: nat)
    requires Inv(s) && s.nextId <= nextId
    ensures Inv(s.(nextId := nextId))
  {
    hide Shared, SentAfterParent, RunsMatch, DirectoryRunsMatch, Unfinished;
  }

  lemma JoinedCore(r: State, batch: Batch, rows: seq<Item>, paths: seq<string>)
    requires Core(r) && Fresh(rows, r.nextId) && |r.items| + |rows| <= MAX_QUEUED
    ensures Core(Joined(r, batch, rows, paths))
  {
    hide Unfinished, Ordered, DirectoriesOrdered, RunsMatch, DirectoryRunsMatch, StartedInOrder, Count, Fresh;
    hide Shared, SentAfterParent, NewDirectories;
    var from := r.nextId + |rows|;
    ItemsJoin(r.items, rows, r.nextId, from + |paths|, r.runs, r.requests, r.started);
    DirectoriesJoin(r.directories, batch, paths, r.nextId, from, r.directoryRuns, r.requests);
  }

  predicate ValidPaths(batch: Batch) {
    && (forall i :: 0 <= i < |batch.files| ==> Normalize(batch.files[i].relative).Some?)
    && NormalizeAll(batch.directories).Some?
  }

  lemma {:induction false} NormalizeAllIs(paths: seq<string>)
    ensures NormalizeAll(paths).Some? <==> forall i :: 0 <= i < |paths| ==> Normalize(paths[i]).Some?
    ensures NormalizeAll(paths).Some? ==>
      && |NormalizeAll(paths).value| == |paths|
      && forall i :: 0 <= i < |paths| ==> Normalize(paths[i]) == Some(NormalizeAll(paths).value[i])
  {
    if paths != [] {
      NormalizeAllIs(paths[1..]);
      assert forall i :: 1 <= i < |paths| ==> paths[i] == paths[1..][i - 1];
    }
  }

  lemma JoinedPends(r: State, batch: Batch, rows: seq<Item>, paths: seq<string>)
    requires rows != [] || paths != []
    requires forall i :: 0 <= i < |rows| ==> rows[i].status == Waiting
    ensures HasPending(Joined(r, batch, rows, paths))
  {
    var joined := Joined(r, batch, rows, paths);
    if rows != [] {
      assert joined.items[|r.items|] == rows[0];
    } else {
      assert joined.directories[|r.directories|].status == DirectoryWaiting;
    }
  }

  lemma AcceptedKeeps(r: State, batch: Batch, rows: seq<Item>, paths: seq<string>, agents: set<string>)
    requires Core(r) && Fresh(rows, r.nextId) && |r.items| + |rows| <= MAX_QUEUED
    requires rows != [] || paths != []
    ensures var after := Pump(Joined(r, batch, rows, paths), agents);
      && Inv(after) && HasPending(after) && after.settlements == r.settlements
  {
    JoinedPends(r, batch, rows, paths);
    JoinedCore(r, batch, rows, paths);
    hide Core, WorkConserving, Unfinished, Pump, Fresh;
    PumpKeeps(Joined(r, batch, rows, paths), agents);
  }

  /** The rows of a batch with valid paths: one per file, and one per distinct directory. */
  lemma BatchRows(s: State, batch: Batch)
    requires ValidPaths(batch)
    ensures var rows, paths := NewItems(batch, batch.files, s.nextId).0, NormalizeAll(batch.directories);
      && rows.Some? && |rows.value| == |batch.files| && Fresh(rows.value, s.nextId)
      && NewItems(batch, batch.files, s.nextId).1 == s.nextId + |batch.files|
      && (batch.files != [] || batch.directories != [] ==> rows.value != [] || Distinct(paths.value) != [])
  {
    NewItemsAreFresh(batch, batch.files, s.nextId);
    NormalizeAllIs(batch.directories);
    DistinctIs(NormalizeAll(batch.directories).value);
  }

  lemma AcceptedIs(s: State, batch: Batch, agents: set<string>)
    requires batch.files != [] || batch.directories != []
    requires |Retained(s).items| + |batch.files| <= MAX_QUEUED && ValidPaths(batch)
    ensures NewItems(batch, batch.files, s.nextId).0.Some?
    ensures Enqueue(s, batch, agents) ==
      (Pump(Joined(Retained(s), batch, NewItems(batch, batch.files, s.nextId).0.value,
                   Distinct(NormalizeAll(batch.directories).value)), agents),
       Accepted(|batch.files|))
  {
    BatchRows(s, batch);
    hide ValidPaths, Pump, Joined, Retained, NewItems, NormalizeAll, Distinct, Unfinished, NewDirectories, Fresh;
  }

  lemma RefusedIs(s: State, batch: Batch, agents: set<string>)
    requires !(batch.files != [] || batch.directories != [])
      || |Retained(s).items| + |batch.files| > MAX_QUEUED || !ValidPaths(batch)
    ensures var (after, result) := Enqueue(s, batch, agents);
      result.Refused? && after == s.(nextId := after.nextId) && s.nextId <= after.nextId
  {
    NewItemsAreFresh(batch, batch.files, s.nextId);
    hide Pump, NewItems, Distinct, Unfinished, NewDirectories, Fresh;
  }

  /** A batch is admitted as a whole or leaves everything but the id counter alone. */
  lemma EnqueueKeeps(s: State, batch: Batch, agents: set<string>)
    requires Inv(s)
    ensures var (after, result) := Enqueue(s, batch, agents);
      && Inv(after) && after.settlements == s.settlements
      && (result.Accepted? <==>
            && (batch.files != [] || batch.directories != [])
            && |Retained(s).items| + |batch.files| <= MAX_QUEUED && ValidPaths(batch))
      && (result.Accepted? ==> HasPending(after) && result.fileCount == |batch.files|)
      && (result.Refused? ==> after == s.(nextId := after.nextId) && s.nextId <= after.nextId)
  {
    hide Pump, NewItems, NormalizeAll, Fresh, Unfinished, Distinct, NewDirectories, Enqueue, Core, WorkConserving;
    if (batch.files != [] || batch.directories != [])
       && |Retained(s).items| + |batch.files| <= MAX_QUEUED && ValidPaths(batch) {
      BatchRows(s, batch);
      AcceptedIs(s, batch, agents);
      RetainedCore(s);
      AcceptedKeeps(Retained(s), batch, NewItems(batch, batch.files, s.nextId).0.value,
                    Distinct(NormalizeAll(batch.directories).value), agents);
    } else {
      RefusedIs(s, batch, agents);
      LaterIds(s, Enqueue(s, batch, agents).0.nextId);
    }
  }

  // ---------------------------------------------------------------- ends

  lemma MarkedRuns(items: seq<Item>, id: nat, error: Option<string>, runs: map<nat, Run>, requests: seq<Request>)
    requires RunsMatch(items, runs, requests, 0, 0) && IdsGrow(items)
    ensures RunsMatch(MarkItem(items, id, error), runs - {id}, requests, 0, 0)
  {
    var marked := MarkItem(items, id, error);
    forall other <- runs - {id}
      ensures UploadingAs(marked, other, 0, 0)
    {
      var i :| 0 <= i < |items| && !(0 <= i < 0) && items[i].id == other && items[i].status == Uploading;
      assert marked[i] == items[i];
    }
    forall i | 0 <= i < |marked| && marked[i].status == Uploading
      ensures marked[i].id in runs - {id} && RunFits(requests, marked[i], (runs - {id})[marked[i].id])
    {
      assert marked[i] == items[i] && !(0 <= i < 0);
    }
  }

  ghost predicate OnlyMarks(items: seq<Item>, marked: seq<Item>, id: nat, k: nat) {
    && k < |items| == |marked| && items[k].id == id == marked[k].id
    && items[k].status == Uploading && marked[k].status == Done
    && (forall i :: 0 <= i < |items| && i != k ==> marked[i] == items[i])
  }

  lemma MarkFinds(items: seq<Item>, id: nat, error: Option<string>) returns (k: nat)
    requires IdsGrow(items) && UploadingAs(items, id, 0, 0)
    ensures OnlyMarks(items, MarkItem(items, id, error), id, k)
  {
    k :| 0 <= k < |items| && !(0 <= k < 0) && items[k].id == id && items[k].status == Uploading;
    assert forall i :: 0 <= i < |items| && items[i].id == id ==> i == k;
  }

  lemma MarkedOrder(items: seq<Item>, id: nat, error: Option<string>, nextId: nat, started: seq<nat>)
    requires Ordered(items, nextId) && StartedInOrder(items, started, nextId, 0, 0) && UploadingAs(items, id, 0, 0)
    ensures var marked := MarkItem(items, id, error);
      && Ordered(marked, nextId) && StartedInOrder(marked, started, nextId, 0, 0)
      && Count(marked, Uploading) <= Count(items, Uploading)
  {
    var marked := MarkItem(items, id, error);
    var k := MarkFinds(items, id, error);
    hide MarkItem, UploadingAs;
    CountAtMost(marked, items, Uploading);
    hide Count;
    assert IdsGrow(marked);
    assert WaitingBehind(marked);
    hide IdsGrow, WaitingBehind;
  }

  lemma ItemMarked(s: State, id: nat, error: Option<string>)
    requires Core(s) && id in s.runs
    ensures Core(Update(s.(runs := s.runs - {id}), MarkItem(s.items, id, error), s.directories))
    ensures HasPending(s)
  {
    assert UploadingAs(s.items, id, 0, 0);
    assert HasPending(s) by {
      var k :| 0 <= k < |s.items| && !(0 <= k < 0) && s.items[k].id == id && s.items[k].status == Uploading;
      assert s.items[k].status != Done;
    }
    hide DirectoriesOrdered, DirectoryRunsMatch, Unfinished, Count, Shared, SentAfterParent;
    MarkedOrder(s.items, id, error, s.nextId, s.started);
    MarkedRuns(s.items, id, error, s.runs, s.requests);
    hide Ordered, RunsMatch, StartedInOrder, MarkItem;
  }

  lemma DirectoryMarked(s: State, id: nat)
    requires Core(s) && id in s.directoryRuns
    ensures Core(Update(s.(directoryRuns := s.directoryRuns - {id}), s.items, MarkDirectory(s.directories, id)))
    ensures HasPending(s)
  {
    assert CreatingAs(s.directories, id);
    assert HasPending(s) by {
      var k :| 0 <= k < |s.directories| && s.directories[k].id == id && s.directories[k].status == Creating;
      assert s.directories[k].status != Created;
    }
    hide Ordered, RunsMatch, StartedInOrder, Unfinished, Count, Shared, SentAfterParent;
    MarkedDirectories(s.directories, id, s.nextId, s.directoryRuns, s.requests);
    hide MarkDirectory, DirectoriesOrdered, DirectoryRunsMatch;
  }

  lemma MarkedDirectories(directories: seq<Directory>, id: nat, nextId: nat, runs: map<nat, Option<nat>>, requests: seq<Request>)
    requires DirectoriesOrdered(directories, nextId) && DirectoryRunsMatch(directories, runs, requests, {})
    ensures var marked := MarkDirectory(directories, id);
      DirectoriesOrdered(marked, nextId) && DirectoryRunsMatch(marked, runs - {id}, requests, {})
  {
    var marked := MarkDirectory(directories, id);
    forall other <- runs - {id}
      ensures CreatingAs(marked, other)
    {
      var i :| 0 <= i < |directories| && directories[i].id == other && directories[i].status == Creating;
      assert marked[i] == directories[i];
    }
  }

  /** `onSettled` is called exactly when pending work came to its end. */
  ghost predicate SettlesOnce(s: State, after: State) {
    after.settlements == s.settlements + if HasPending(s) && !HasPending(after) then 1 else 0
  }

  lemma AfterWorkFinishedKeeps(s: State, agents: set<string>)
    requires Core(s)
    ensures var after := AfterWorkFinished(s, agents);
      && Inv(after) && HasPending(after) == HasPending(s)
      && after.settlements == s.settlements + if HasPending(after) then 0 else 1
  {
    PumpKeeps(s, agents);
    hide Ordered, DirectoriesOrdered, RunsMatch, DirectoryRunsMatch;
    hide StartedInOrder, Count, SentAfterParent, Pump, Unfinished;
  }

  lemma FinishItemKeeps(s: State, id: nat, error: Option<string>, agents: set<string>)
    requires Inv(s) && id in s.runs
    ensures var after := FinishItem(s, id, error, agents);
      Inv(after) && SettlesOnce(s, after)
  {
    ItemMarked(s, id, error);
    hide Core, WorkConserving, Unfinished, AfterWorkFinished;
    AfterWorkFinishedKeeps(Update(s.(runs := s.runs - {id}), MarkItem(s.items, id, error), s.directories), agents);
  }

  lemma FinishDirectoryKeeps(s: State, id: nat, agents: set<string>)
    requires Inv(s) && id in s.directoryRuns
    ensures var after := FinishDirectory(s, id, agents);
      Inv(after) && SettlesOnce(s, after)
  {
    DirectoryMarked(s, id);
    hide Core, WorkConserving, Unfinished, AfterWorkFinished;
    var ended := s.(directoryRuns := s.directoryRuns - {id});
    AfterWorkFinishedKeeps(Update(ended, s.items, MarkDirectory(s.directories, id)), agents);
  }

  // ---------------------------------------------------------------- every event

  lemma SettleRequestKeeps(s: State, request: nat, ok: bool, agents: set<string>)
    requires Inv(s) && Enabled(s, RequestSettles(request, ok))
    ensures Inv(Step(s, RequestSettles(request, ok), agents))
  {
    hide Ordered, DirectoriesOrdered, StartedInOrder, Count, Unfinished;
    var after := Step(s, RequestSettles(request, ok), agents);
    assert DirectoryRunsMatch(after.directories, after.directoryRuns, after.requests, {});
    assert Shared(after.settlements, after.prepared, after.requests) && SentAfterParent(after.sent, after.requests);
    hide DirectoryRunsMatch, Shared, SentAfterParent;
    forall i | 0 <= i < |s.items| && !(0 <= i < 0) && s.items[i].status == Uploading
      ensures s.items[i].id in after.runs && RunFits(after.requests, s.items[i], after.runs[s.items[i].id])
    {
      assert RunFits(s.requests, s.items[i], s.runs[s.items[i].id]);
    }
  }

  lemma SendKeeps(s: State, id: nat, agents: set<string>)
    requires Inv(s) && Enabled(s, SendsFile(id))
    ensures Inv(Step(s, SendsFile(id), agents))
  {
    hide Ordered, DirectoriesOrdered, DirectoryRunsMatch, StartedInOrder, Count, Unfinished, Shared;
    var after := Step(s, SendsFile(id), agents);
    assert SentAfterParent(after.sent, after.requests);
    hide SentAfterParent;
    forall i | 0 <= i < |s.items| && !(0 <= i < 0) && s.items[i].status == Uploading
      ensures s.items[i].id in after.runs && RunFits(after.requests, s.items[i], after.runs[s.items[i].id])
    {
      assert RunFits(s.requests, s.items[i], s.runs[s.items[i].id]);
    }
  }

  /** Every event keeps the invariant, and settles exactly when it ends the last pending work. */
  lemma StepKeeps(s: State, event: Event, agents: set<string>)
    requires Inv(s) && Enabled(s, event)
    ensures var after := Step(s, event, agents);
      Inv(after) && SettlesOnce(s, after)
  {
    match event
    case Enqueues(batch) =>
      hide Inv, Enqueue;
      EnqueueKeeps(s, batch, agents);
    case RequestSettles(request, ok) =>
      SettleRequestKeeps(s, request, ok, agents);
      hide Inv;
    case SendsFile(id) =>
      SendKeeps(s, id, agents);
      hide Inv;
    case UploadEnds(id, error) =>
      hide Inv, FinishItem;
      FinishItemKeeps(s, id, error, agents);
    case DirectoryEnds(id) =>
      hide Inv, FinishDirectory;
      FinishDirectoryKeeps(s, id, agents);
  }

  // ---------------------------------------------------------------- whole runs

  /** An event and the agents that can be resolved when it is handled. */
  datatype Occurrence = Occurrence(event: Event, agents: set<string>)

  ghost predicate Possible(s: State, run: seq<Occurrence>)
    decreases |run|
  {
    run == [] || (Enabled(s, run[0].event) && Possible(Step(s, run[0].event, run[0].agents), run[1..]))
  }

  ghost function After(s: State, run: seq<Occurrence>): State
    requires Possible(s, run)
    decreases |run|
  {
    if run == [] then s else After(Step(s, run[0].event, run[0].agents), run[1..])
  }

  /** How often pending work came to its end along a run. */
  ghost function Ends(s: State, run: seq<Occurrence>): nat
    requires Possible(s, run)
    decreases |run|
  {
    if run == [] then 0
    else
      var after := Step(s, run[0].event, run[0].agents);
      (if HasPending(s) && !HasPending(after) then 1 else 0) + Ends(after, run[1..])
  }

  /** In every run the queue is safe, never idle, and settles once per finished batch. */
  lemma {:induction false} RunKeeps(s: State, run: seq<Occurrence>)
    requires Inv(s) && Possible(s, run)
    ensures Inv(After(s, run)) && After(s, run).settlements == s.settlements + Ends(s, run)
    decreases |run|
  {
    if run != [] {
      hide Inv, Step, HasPending;
      StepKeeps(s, run[0].event, run[0].agents);
      RunKeeps(Step(s, run[0].event, run[0].agents), run[1..]);
    }
  }

  lemma EveryRunKeeps(run: seq<Occurrence>)
    requires Possible(Initial, run)
    ensures Inv(After(Initial, run)) && After(Initial, run).settlements == Ends(Initial, run)
  {
    assert Inv(Initial);
    hide Inv, Step, HasPending;
    RunKeeps(Initial, run);
  }

  // ---------------------------------------------------------------- rows only move forward

  ghost predicate Advanced(before: Item, after: Item) {
    || after == before
    || (before.status == Waiting && after == before.(status := Uploading))
    || (before.status == Uploading && after == before.(status := Done, error := after.error))
  }

  ghost predicate RowsAdvanced(before: seq<Item>, after: seq<Item>) {
    |before| <= |after| && forall i :: 0 <= i < |before| ==> Advanced(before[i], after[i])
  }

  lemma {:induction false} ClaimMoves(items: seq<Item>, slots: nat)
    ensures forall i :: 0 <= i < |items| ==>
      || Claim(items, slots)[i] == items[i]
      || (items[i].status == Waiting && Claim(items, slots)[i] == items[i].(status := Uploading))
    ensures Claimed(items, slots) == [] ==> Claim(items, slots) == items
  {
    if items != [] {
      var rest := if items[0].status == Waiting && slots > 0 then slots - 1 else slots;
      ClaimMoves(items[1..], rest);
      assert Claim(items, slots)[1..] == Claim(items[1..], rest);
      forall i | 0 < i < |items|
        ensures Claim(items, slots)[i] == Claim(items[1..], rest)[i - 1] && items[i] == items[1..][i - 1]
      {
      }
    }
  }

  lemma PumpRows(s: State, agents: set<string>)
    ensures Pump(s, agents).items == Claim(s.items, FreeSlots(s.items))
  {
    ClaimMoves(s.items, FreeSlots(s.items));
    hide Claim, Claimed, FreeSlots, RunItems, RunDirectories, Unfinished, ClaimDirectories, ClaimedDirectories;
  }

  /** While work is pending no row leaves, and each moves at most one place forward per event. */
  lemma RowsMoveForward(s: State, event: Event, agents: set<string>)
    requires Inv(s) && Enabled(s, event) && HasPending(s)
    ensures RowsAdvanced(s.items, Step(s, event, agents).items)
  {
    match event
    case Enqueues(batch) =>
      EnqueueRows(s, batch, agents);
    case UploadEnds(id, error) =>
      FinishRows(s, id, error, agents);
    case DirectoryEnds(id) =>
      FinishDirectoryRows(s, id, agents);
    case _ =>
      assert Step(s, event, agents).items == s.items;
      hide Inv, Enabled, Step;
  }

  lemma FinishDirectoryRows(s: State, id: nat, agents: set<string>)
    requires id in s.directoryRuns
    ensures RowsAdvanced(s.items, FinishDirectory(s, id, agents).items)
  {
    hide Pump, Claim, Claimed;
    var marked := Update(s.(directoryRuns := s.directoryRuns - {id}), s.items, MarkDirectory(s.directories, id));
    PumpRows(marked, agents);
    ClaimMoves(s.items, FreeSlots(s.items));
  }

  lemma EnqueueRows(s: State, batch: Batch, agents: set<string>)
    requires HasPending(s)
    ensures RowsAdvanced(s.items, Enqueue(s, batch, agents).0.items)
  {
    hide Pump, Claim, NewItems, NormalizeAll, Distinct, Unfinished;
    var (result, answer) := Enqueue(s, batch, agents);
    if answer.Accepted? {
      var joined := Joined(s, batch, NewItems(batch, batch.files, s.nextId).0.value,
                           Distinct(NormalizeAll(batch.directories).value));
      PumpRows(joined, agents);
      ClaimMoves(joined.items, FreeSlots(joined.items));
      assert forall i :: 0 <= i < |s.items| ==> joined.items[i] == s.items[i];
      hide FreeSlots, Enqueue;
    }
  }

  lemma MarkAdvances(items: seq<Item>, id: nat, error: Option<string>, slots: nat)
    requires IdsGrow(items) && UploadingAs(items, id, 0, 0)
    ensures RowsAdvanced(items, Claim(MarkItem(items, id, error), slots))
  {
    var k := MarkFinds(items, id, error);
    var marked := MarkItem(items, id, error);
    assert marked[k] == items[k].(status := Done, error := error);
    hide MarkItem, Claim, IdsGrow, UploadingAs;
    ClaimMoves(marked, slots);
  }

  lemma FinishRows(s: State, id: nat, error: Option<string>, agents: set<string>)
    requires Core(s) && id in s.runs
    ensures RowsAdvanced(s.items, FinishItem(s, id, error, agents).items)
  {
    assert UploadingAs(s.items, id, 0, 0) && IdsGrow(s.items);
    hide Core, UploadingAs, IdsGrow, Pump, Claim, Claimed, FreeSlots, MarkItem, Unfinished, RowsAdvanced;
    var marked := Update(s.(runs := s.runs - {id}), MarkItem(s.items, id, error), s.directories);
    PumpRows(marked, agents);
    MarkAdvances(s.items, id, error, FreeSlots(marked.items));
  }

  // ---------------------------------------------------------------- requests

  /** The successful request that a sending file follows is the one for its own row's parent directory. */
  lemma SendFollowsParent(s: State, id: nat)
    requires Inv(s) && Enabled(s, SendsFile(id))
    ensures exists i :: (
      && 0 <= i < |s.items| && s.items[i].id == id && s.items[i].status == Uploading
      && s.requests[s.runs[id].request].target == ParentTarget(s.items[i]))
  {
    assert UploadingAs(s.items, id, 0, 0);
    var i :| 0 <= i < |s.items| && !(0 <= i < 0) && s.items[i].id == id && s.items[i].status == Uploading;
    assert RunFits(s.requests, s.items[i], s.runs[id]);
  }

  /** Pending work can always go on: some request or upload of it can end. */
  lemma NeverStuck(s: State)
    requires Inv(s) && HasPending(s)
    ensures exists event: Event :: !event.Enqueues? && Enabled(s, event)
  {
    if i :| 0 <= i < |s.items| && s.items[i].status != Done {
      if s.items[i].status == Waiting {
        CountSome(s.items, Waiting, i);
      } else {
        CountSome(s.items, Uploading, i);
      }
      var k := SomeUploading(s.items);
      assert !(0 <= k < 0) && s.items[k].id in s.runs;
      ItemGoesOn(s, k);
    } else {
      var i :| 0 <= i < |s.directories| && s.directories[i].status != Created;
      var id := s.directories[i].id;
      assert s.directories[i].status == Creating && id in s.directoryRuns;
      if s.directoryRuns[id].Some? && RequestOutcome(s, s.directoryRuns[id].value) == Pending {
        assert Enabled(s, RequestSettles(s.directoryRuns[id].value, true));
      } else {
        assert Enabled(s, DirectoryEnds(id));
      }
    }
  }

  lemma {:induction false} SomeUploading(items: seq<Item>) returns (k: nat)
    requires Count(items, Uploading) > 0
    ensures k < |items| && items[k].status == Uploading
  {
    if items[0].status == Uploading {
      k := 0;
    } else {
      k := SomeUploading(items[1..]);
      k := k + 1;
    }
  }

  lemma ItemGoesOn(s: State, k: nat)
    requires k < |s.items| && s.items[k].id in s.runs && RunFits(s.requests, s.items[k], s.runs[s.items[k].id])
    ensures exists event: Event :: !event.Enqueues? && Enabled(s, event)
  {
    var id := s.items[k].id;
    match s.runs[id]
    case NoAgent => assert Enabled(s, UploadEnds(id, Some("")));
    case Sending(_) => assert Enabled(s, UploadEnds(id, None));
    case Preparing(request) =>
      match s.requests[request].outcome
      case Pending => assert Enabled(s, RequestSettles(request, true));
      case Succeeded => assert Enabled(s, SendsFile(id));
      case Failed => assert Enabled(s, UploadEnds(id, Some("")));
  }
}

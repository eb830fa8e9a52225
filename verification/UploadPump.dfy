/** What pumping the upload queue keeps: claims, shared requests and started runs. */
module UploadPump {
  import opened Common
  import opened UploadScheduler

  // ---------------------------------------------------------------- claiming

  lemma {:induction false} ClaimCounts(items: seq<Item>, slots: nat)
    ensures var claimed := Claim(items, slots);
      var moved := if Count(items, Waiting) < slots then Count(items, Waiting) else slots;
      && Count(claimed, Uploading) == Count(items, Uploading) + moved
      && Count(claimed, Waiting) == Count(items, Waiting) - moved
      && |Claimed(items, slots)| == moved
  {
    if items != [] {
      var used := if items[0].status == Waiting && slots > 0 then 1 else 0;
      ClaimCounts(items[1..], slots - used);
      assert Claim(items, slots)[1..] == Claim(items[1..], slots - used);
    }
  }

  function FirstWaiting(items: seq<Item>): (f: nat)
    ensures f <= |items|
    ensures forall i :: 0 <= i < f ==> items[i].status != Waiting
    ensures f < |items| ==> items[f].status == Waiting
  {
    if items == [] || items[0].status == Waiting then 0 else 1 + FirstWaiting(items[1..])
  }

  lemma {:induction false} ClaimWaiting(items: seq<Item>, slots: nat)
    requires forall i :: 0 <= i < |items| ==> items[i].status == Waiting
    ensures var m := |Claimed(items, slots)|;
      && m <= |items| && Claimed(items, slots) == items[..m]
      && forall i :: 0 <= i < |items| ==>
           Claim(items, slots)[i] == if i < m then items[i].(status := Uploading) else items[i]
  {
    if items != [] {
      var rest, left := items[1..], if slots > 0 then slots - 1 else 0;
      ClaimWaiting(rest, left);
      var m := |Claimed(items, slots)|;
      var head := if slots > 0 then items[0].(status := Uploading) else items[0];
      assert Claim(items, slots) == [head] + Claim(rest, left);
      assert Claimed(items, slots) == (if slots > 0 then [items[0]] else []) + Claimed(rest, left);
      if slots == 0 {
        assert |Claimed(rest, 0)| == 0 by { NoSlots(rest); }
      }
      hide Claim, Claimed;
      forall i | 0 < i < |items|
        ensures Claim(items, slots)[i] == if i < m then items[i].(status := Uploading) else items[i]
      {
        assert items[i] == rest[i - 1] && Claim(items, slots)[i] == Claim(rest, left)[i - 1];
      }
    }
  }

  lemma {:induction false} NoSlots(items: seq<Item>)
    ensures Claimed(items, 0) == []
  {
    if items != [] {
      NoSlots(items[1..]);
    }
  }

  /** Exactly the rows `f..f + m` are claimed, and only their status changes. */
  ghost predicate Claims(items: seq<Item>, slots: nat, f: nat, m: nat) {
    && f + m <= |items| && Claimed(items, slots) == items[f..f + m]
    && (forall i :: 0 <= i < |items| ==>
          Claim(items, slots)[i] == if f <= i < f + m then items[i].(status := Uploading) else items[i])
  }

  lemma ClaimsBehind(items: seq<Item>, slots: nat, f: nat, m: nat)
    requires items != [] && items[0].status != Waiting && Claims(items[1..], slots, f, m)
    ensures Claims(items, slots, f + 1, m)
  {
    var rest := items[1..];
    assert Claim(items, slots) == [items[0]] + Claim(rest, slots);
    assert Claimed(items, slots) == Claimed(rest, slots);
    hide Claim, Claimed;
    assert rest[f..f + m] == items[f + 1..f + 1 + m];
    forall i | 0 <= i < |items|
      ensures Claim(items, slots)[i] == if f + 1 <= i < f + 1 + m then items[i].(status := Uploading) else items[i]
    {
      if i > 0 {
        assert Claim(items, slots)[i] == Claim(rest, slots)[i - 1] && items[i] == rest[i - 1];
      }
    }
  }

  /** With waiting rows behind all others, the claim takes the first of them. */
  lemma {:induction false} ClaimShape(items: seq<Item>, slots: nat)
    requires WaitingBehind(items)
    ensures Claims(items, slots, FirstWaiting(items), |Claimed(items, slots)|)
    ensures forall i :: FirstWaiting(items) <= i < |items| ==> items[i].status == Waiting
  {
    if items != [] {
      if items[0].status == Waiting {
        ClaimWaiting(items, slots);
        hide Claim, Claimed;
      } else {
        var rest := items[1..];
        ClaimShape(rest, slots);
        hide WaitingBehind;
        var f, m := FirstWaiting(rest), |Claimed(rest, slots)|;
        ClaimsBehind(items, slots, f, m);
        assert Claimed(items, slots) == Claimed(rest, slots);
        assert FirstWaiting(items) == f + 1;
        hide Claim, Claimed, FirstWaiting, Claims;
        forall i | FirstWaiting(items) <= i < |items|
          ensures items[i].status == Waiting
        {
          assert items[i] == rest[i - 1];
        }
      }
    }
  }

  // ---------------------------------------------------------------- starting

  lemma PrepareKeeps(s: State, target: Target)
    requires Shared(s.settlements, s.prepared, s.requests)
    ensures var (after, request) := Prepare(s, target);
      && Shared(s.settlements, after.prepared, after.requests) && s.requests <= after.requests
      && request < |after.requests| && after.requests[request].target == target
      && after == s.(requests := after.requests, prepared := after.prepared)
  {
    if target !in s.prepared {
      var more := s.requests + [Request(target, Pending, s.settlements)];
      assert forall i :: 0 <= i < |s.requests| ==> more[i] == s.requests[i];
    }
  }

  lemma MoreRequests(
    items: seq<Item>, runs: map<nat, Run>, requests: seq<Request>, more: seq<Request>, next: nat, end: nat,
    sent: seq<(nat, nat)>)
    requires RunsMatch(items, runs, requests, next, end) && SentAfterParent(sent, requests) && requests <= more
    ensures RunsMatch(items, runs, more, next, end) && SentAfterParent(sent, more)
  {
    forall i | 0 <= i < |items| && !(next <= i < end) && items[i].status == Uploading
      ensures items[i].id in runs && RunFits(more, items[i], runs[items[i].id])
    {
      assert RunFits(requests, items[i], runs[items[i].id]);
    }
  }

  lemma MoreRequestsForDirectories(
    directories: seq<Directory>, runs: map<nat, Option<nat>>, requests: seq<Request>, more: seq<Request>, left: set<nat>)
    requires DirectoryRunsMatch(directories, runs, requests, left) && requests <= more
    ensures DirectoryRunsMatch(directories, runs, more, left)
  {
  }

  lemma UploadingElsewhere(items: seq<Item>, id: nat, next: nat, end: nat)
    requires IdsGrow(items) && next < end <= |items| && UploadingAs(items, id, next, end)
    ensures id != items[next].id && UploadingAs(items, id, next + 1, end)
  {
    var i :| 0 <= i < |items| && !(next <= i < end) && items[i].id == id && items[i].status == Uploading;
    assert !(next + 1 <= i < end);
  }

  lemma StartRun(items: seq<Item>, runs: map<nat, Run>, requests: seq<Request>, next: nat, end: nat, run: Run)
    requires RunsMatch(items, runs, requests, next, end) && IdsGrow(items)
    requires next < end <= |items| && items[next].status == Uploading && RunFits(requests, items[next], run)
    ensures RunsMatch(items, runs[items[next].id := run], requests, next + 1, end)
  {
    var after := runs[items[next].id := run];
    forall id <- after
      ensures UploadingAs(items, id, next + 1, end)
    {
      if id == items[next].id {
        assert !(next + 1 <= next < end);
      } else {
        UploadingElsewhere(items, id, next, end);
      }
    }
    forall i | 0 <= i < |items| && !(next + 1 <= i < end) && items[i].status == Uploading
      ensures items[i].id in after && RunFits(requests, items[i], after[items[i].id])
    {
      if i != next {
        assert items[i].id != items[next].id;
      }
    }
  }

  lemma StartNext(items: seq<Item>, started: seq<nat>, nextId: nat, next: nat, end: nat)
    requires StartedInOrder(items, started, nextId, next, end) && IdsGrow(items)
    requires next < end <= |items| && items[next].id < nextId
    requires forall i :: 0 <= i < |items| && items[i].status == Waiting ==> end <= i
    ensures StartedInOrder(items, started + [items[next].id], nextId, next + 1, end)
  {
  }

  /** Everything around the rows `next..end`, which are claimed but not started yet. */
  ghost predicate Midway(s: State, next: nat, end: nat) {
    && next <= end <= |s.items|
    && Shared(s.settlements, s.prepared, s.requests) && SentAfterParent(s.sent, s.requests)
    && RunsMatch(s.items, s.runs, s.requests, next, end)
    && StartedInOrder(s.items, s.started, s.nextId, next, end)
  }

  ghost predicate ClaimedRows(items: seq<Item>, nextId: nat, next: nat, end: nat) {
    && IdsGrow(items) && next <= end <= |items|
    && (forall i :: 0 <= i < |items| ==> items[i].id < nextId)
    && (forall i :: next <= i < end ==> items[i].status == Uploading)
    && (forall i :: 0 <= i < |items| && items[i].status == Waiting ==> end <= i)
  }

  ghost predicate SameRows(a: State, b: State) {
    && a.items == b.items && a.directories == b.directories && a.guarding == b.guarding
    && a.nextId == b.nextId && a.settlements == b.settlements
  }

  lemma RunItemKeeps(s: State, next: nat, end: nat, item: Item, agents: set<string>)
    requires Midway(s, next, end) && ClaimedRows(s.items, s.nextId, next, end) && next < end
    requires s.items[next] == item.(status := Uploading)
    ensures var after := RunItem(s, item, agents);
      && Midway(after, next + 1, end) && SameRows(s, after)
      && after.directoryRuns == s.directoryRuns && s.requests <= after.requests
  {
    var begun := s.(started := s.started + [item.id]);
    StartNext(s.items, s.started, s.nextId, next, end);
    hide StartedInOrder, ClaimedRows, RunsMatch, Shared, SentAfterParent;
    var after := RunItem(s, item, agents);
    PrepareKeeps(begun, ParentTarget(item));
    MoreRequests(s.items, s.runs, s.requests, after.requests, next, end, s.sent);
    StartRun(s.items, s.runs, after.requests, next, end, after.runs[item.id]);
  }

  lemma {:induction false} RunItemsKeep(s: State, start: nat, end: nat, items: seq<Item>, agents: set<string>)
    requires Midway(s, start, end) && ClaimedRows(s.items, s.nextId, start, end) && start + |items| <= end
    requires forall i :: 0 <= i < |items| ==> s.items[start + i] == items[i].(status := Uploading)
    ensures var after := RunItems(s, items, agents);
      && Midway(after, start + |items|, end) && SameRows(s, after)
      && after.directoryRuns == s.directoryRuns && s.requests <= after.requests
  {
    hide Midway;
    if items != [] {
      var front, last := items[..|items| - 1], items[|items| - 1];
      FewerClaimed(s.items, s.nextId, start, start + |front|, end);
      assert s.items[start + |front|] == last.(status := Uploading);
      hide ClaimedRows, RunItem;
      RunItemsKeep(s, start, end, front, agents);
      RunItemKeeps(RunItems(s, front, agents), start + |front|, end, last, agents);
    }
  }

  lemma FewerClaimed(items: seq<Item>, nextId: nat, start: nat, next: nat, end: nat)
    requires ClaimedRows(items, nextId, start, end) && start <= next <= end
    ensures ClaimedRows(items, nextId, next, end)
  {
  }

  lemma StartDirectory(
    directories: seq<Directory>, runs: map<nat, Option<nat>>, requests: seq<Request>, more: seq<Request>,
    left: set<nat>, directory: Directory, run: Option<nat>)
    requires DirectoryRunsMatch(directories, runs, requests, left) && requests <= more
    requires CreatingRow(directories, directory) && DirectoryRunFits(more, directory, run)
    ensures DirectoryRunsMatch(directories, runs[directory.id := run], more, left - {directory.id})
  {
    hide CreatingAs;
  }

  lemma RunDirectoryKeeps(s: State, next: nat, end: nat, left: set<nat>, directory: Directory, agents: set<string>)
    requires Midway(s, next, end) && DirectoryRunsMatch(s.directories, s.directoryRuns, s.requests, left)
    requires CreatingRow(s.directories, directory)
    ensures var after := RunDirectory(s, directory, agents);
      && Midway(after, next, end) && SameRows(s, after)
      && DirectoryRunsMatch(s.directories, after.directoryRuns, after.requests, left - {directory.id})
  {
    hide StartedInOrder, RunsMatch, Shared, SentAfterParent;
    var after := RunDirectory(s, directory, agents);
    PrepareKeeps(s, OwnTarget(directory));
    assert DirectoryRunFits(after.requests, directory, after.directoryRuns[directory.id]);
    StartDirectory(s.directories, s.directoryRuns, s.requests, after.requests, left, directory,
                   after.directoryRuns[directory.id]);
    MoreRequests(s.items, s.runs, s.requests, after.requests, next, end, s.sent);
  }

  function Ids(directories: seq<Directory>): (ids: set<nat>)
  {
    set d | d in directories :: d.id
  }

  lemma {:induction false} RunDirectoriesKeep(
    s: State, next: nat, end: nat, left: set<nat>, directories: seq<Directory>, agents: set<string>)
    requires Midway(s, next, end) && DirectoryRunsMatch(s.directories, s.directoryRuns, s.requests, left)
    requires forall i :: 0 <= i < |directories| ==> CreatingRow(s.directories, directories[i])
    ensures var after := RunDirectories(s, directories, agents);
      && Midway(after, next, end) && SameRows(s, after)
      && DirectoryRunsMatch(s.directories, after.directoryRuns, after.requests, left - Ids(directories))
  {
    hide Midway, DirectoryRunsMatch, CreatingRow, RunDirectory;
    if directories != [] {
      var front, last := directories[..|directories| - 1], directories[|directories| - 1];
      RunDirectoriesKeep(s, next, end, left, front, agents);
      RunDirectoryKeeps(RunDirectories(s, front, agents), next, end, left - Ids(front), last, agents);
      assert directories == front + [last];
      assert Ids(directories) == Ids(front) + {last.id};
      assert (left - Ids(front)) - {last.id} == left - Ids(directories);
    } else {
      assert left - Ids(directories) == left;
    }
  }

  // ---------------------------------------------------------------- pumping

  lemma {:induction false} ClaimedDirectoriesAre(directories: seq<Directory>)
    ensures forall d :: d in ClaimedDirectories(directories) <==> d in directories && d.status == DirectoryWaiting
  {
    if directories != [] {
      ClaimedDirectoriesAre(directories[1..]);
      assert directories == [directories[0]] + directories[1..];
    }
  }

  lemma ClaimLeavesRuns(items: seq<Item>, claimed: seq<Item>, runs: map<nat, Run>, requests: seq<Request>, f: nat, end: nat)
    requires f <= end <= |items| == |claimed|
    requires forall i :: 0 <= i < |items| && !(f <= i < end) ==> claimed[i] == items[i]
    requires forall i :: f <= i < end ==> items[i].status == Waiting
    requires RunsMatch(items, runs, requests, 0, 0)
    ensures RunsMatch(claimed, runs, requests, f, end)
  {
    forall id <- runs
      ensures UploadingAs(claimed, id, f, end)
    {
      var i :| 0 <= i < |items| && !(0 <= i < 0) && items[i].id == id && items[i].status == Uploading;
      assert claimed[i] == items[i] && !(f <= i < end);
    }
    forall i | 0 <= i < |claimed| && !(f <= i < end) && claimed[i].status == Uploading
      ensures claimed[i].id in runs && RunFits(requests, claimed[i], runs[claimed[i].id])
    {
      assert !(0 <= i < 0) && claimed[i] == items[i];
    }
  }

  lemma ClaimLeaves(items: seq<Item>, slots: nat, runs: map<nat, Run>, requests: seq<Request>,
                    started: seq<nat>, nextId: nat, f: nat, m: nat)
    requires Claims(items, slots, f, m) && Ordered(items, nextId)
    requires forall i :: f <= i < |items| ==> items[i].status == Waiting
    requires forall i :: 0 <= i < f ==> items[i].status != Waiting
    requires RunsMatch(items, runs, requests, 0, 0) && StartedInOrder(items, started, nextId, 0, 0)
    ensures var claimed := Claim(items, slots);
      && Ordered(claimed, nextId) && ClaimedRows(claimed, nextId, f, f + m)
      && RunsMatch(claimed, runs, requests, f, f + m) && StartedInOrder(claimed, started, nextId, f, f + m)
  {
    var claimed := Claim(items, slots);
    hide Claim, Claimed;
    ClaimLeavesRuns(items, claimed, runs, requests, f, f + m);
    hide RunsMatch;
    assert IdsGrow(claimed);
    assert forall i :: 0 <= i < f ==> claimed[i] == items[i];
    assert forall i :: f + m <= i < |items| ==> claimed[i] == items[i];
    assert WaitingBehind(claimed);
    assert ClaimedRows(claimed, nextId, f, f + m);
    hide IdsGrow, WaitingBehind;
  }

  lemma ClaimedCreate(directories: seq<Directory>, nextId: nat)
    requires DirectoriesOrdered(directories, nextId)
    ensures DirectoriesOrdered(ClaimDirectories(directories), nextId)
    ensures forall d <- ClaimedDirectories(directories) :: CreatingRow(ClaimDirectories(directories), d)
  {
    var claimed := ClaimDirectories(directories);
    ClaimedDirectoriesAre(directories);
    hide ClaimedDirectories;
    forall d | d in ClaimedDirectories(directories)
      ensures CreatingRow(claimed, d)
    {
      var i :| 0 <= i < |directories| && directories[i] == d;
      assert claimed[i] == d.(status := Creating);
    }
  }

  lemma ClaimDirectoriesLeaves(directories: seq<Directory>, nextId: nat, runs: map<nat, Option<nat>>, requests: seq<Request>)
    requires DirectoriesOrdered(directories, nextId) && DirectoryRunsMatch(directories, runs, requests, {})
    ensures var claimed := ClaimDirectories(directories);
      && DirectoriesOrdered(claimed, nextId)
      && DirectoryRunsMatch(claimed, runs, requests, Ids(ClaimedDirectories(directories)))
      && (forall d <- ClaimedDirectories(directories) :: CreatingRow(claimed, d))
  {
    var claimed := ClaimDirectories(directories);
    ClaimedCreate(directories, nextId);
    ClaimedDirectoriesAre(directories);
    hide ClaimedDirectories, DirectoriesOrdered, CreatingRow;
    forall id <- runs
      ensures CreatingAs(claimed, id)
    {
      var i :| 0 <= i < |directories| && directories[i].id == id && directories[i].status == Creating;
      assert claimed[i] == directories[i];
    }
    forall i | 0 <= i < |claimed| && claimed[i].status == Creating
      ensures claimed[i].id in Ids(ClaimedDirectories(directories)) || claimed[i] == directories[i]
    {
      if directories[i].status == DirectoryWaiting {
        assert directories[i] in ClaimedDirectories(directories);
      }
    }
    hide Ids;
  }

  lemma SamePending(items: seq<Item>, directories: seq<Directory>, items': seq<Item>, directories': seq<Directory>)
    requires |items| == |items'| && |directories| == |directories'|
    requires forall i :: 0 <= i < |items| ==> (items[i].status == Done <==> items'[i].status == Done)
    requires forall i :: 0 <= i < |directories| ==>
      (directories[i].status == Created <==> directories'[i].status == Created)
    ensures Unfinished(items, directories) == Unfinished(items', directories')
  {
  }

  lemma MidwayEnds(s: State, next: nat)
    requires Midway(s, next, next)
    ensures Shared(s.settlements, s.prepared, s.requests) && SentAfterParent(s.sent, s.requests)
    ensures RunsMatch(s.items, s.runs, s.requests, 0, 0) && StartedInOrder(s.items, s.started, s.nextId, 0, 0)
  {
    forall id <- s.runs
      ensures UploadingAs(s.items, id, 0, 0)
    {
      assert UploadingAs(s.items, id, next, next);
    }
  }

  lemma PumpIdles(s: State)
    requires Core(s)
    requires Claimed(s.items, FreeSlots(s.items)) == [] && ClaimedDirectories(s.directories) == []
    ensures WorkConserving(s)
  {
    ClaimCounts(s.items, FreeSlots(s.items));
    ClaimedDirectoriesAre(s.directories);
    forall i | 0 <= i < |s.directories|
      ensures s.directories[i].status != DirectoryWaiting
    {
      assert s.directories[i] !in ClaimedDirectories(s.directories);
    }
  }

  function Claiming(s: State): State {
    Update(s, Claim(s.items, FreeSlots(s.items)), ClaimDirectories(s.directories))
  }

  lemma ClaimedBecomeUploading(items: seq<Item>, slots: nat)
    requires WaitingBehind(items)
    ensures var f, claimed := FirstWaiting(items), Claimed(items, slots);
      && f + |claimed| <= |items|
      && forall i :: 0 <= i < |claimed| ==> Claim(items, slots)[f + i] == claimed[i].(status := Uploading)
  {
    ClaimShape(items, slots);
    hide Claim, Claimed, FirstWaiting;
  }

  lemma ClaimingItems(s: State)
    requires Core(s)
    ensures var after, f, claimed := Claiming(s), FirstWaiting(s.items), Claimed(s.items, FreeSlots(s.items));
      && Midway(after, f, f + |claimed|) && ClaimedRows(after.items, s.nextId, f, f + |claimed|)
      && Ordered(after.items, s.nextId)
      && (forall i :: 0 <= i < |claimed| ==> after.items[f + i] == claimed[i].(status := Uploading))
  {
    var slots := FreeSlots(s.items);
    hide FreeSlots, Unfinished, DirectoryRunsMatch, DirectoriesOrdered, Count, Shared, SentAfterParent;
    hide Claim, Claimed, RunsMatch, StartedInOrder, ClaimDirectories, IdsGrow, WaitingBehind, Claims;
    ClaimedBecomeUploading(s.items, slots);
    ClaimShape(s.items, slots);
    ClaimLeaves(s.items, slots, s.runs, s.requests, s.started, s.nextId, FirstWaiting(s.items), |Claimed(s.items, slots)|);
    hide Ordered, ClaimedRows, FirstWaiting;
  }

  lemma ClaimingDirectories(s: State)
    requires Core(s)
    ensures var after := Claiming(s);
      && DirectoriesOrdered(after.directories, s.nextId)
      && DirectoryRunsMatch(after.directories, s.directoryRuns, s.requests, Ids(ClaimedDirectories(s.directories)))
      && (forall d <- ClaimedDirectories(s.directories) :: CreatingRow(after.directories, d))
  {
    hide RunsMatch, StartedInOrder, Shared, SentAfterParent, Ordered, Unfinished, Count, Claim, FreeSlots;
    ClaimDirectoriesLeaves(s.directories, s.nextId, s.directoryRuns, s.requests);
  }

  lemma ClaimingPending(s: State)
    requires WaitingBehind(s.items)
    ensures HasPending(Claiming(s)) == HasPending(s)
  {
    var slots := FreeSlots(s.items);
    ClaimShape(s.items, slots);
    hide FirstWaiting, FreeSlots;
    SamePending(s.items, s.directories, Claim(s.items, slots), ClaimDirectories(s.directories));
    hide Claims, Unfinished;
  }

  lemma ClaimingFills(s: State)
    requires Core(s)
    ensures WorkConserving(Claiming(s))
  {
    ClaimCounts(s.items, FreeSlots(s.items));
    hide RunsMatch, StartedInOrder, Shared, SentAfterParent, Ordered, DirectoriesOrdered, Unfinished, DirectoryRunsMatch;
  }

  lemma PumpRuns(updated: State, f: nat, m: nat, claimed: seq<Item>, directories: seq<Directory>, agents: set<string>)
    requires Midway(updated, f, f + m) && ClaimedRows(updated.items, updated.nextId, f, f + m)
    requires DirectoryRunsMatch(updated.directories, updated.directoryRuns, updated.requests, Ids(directories))
    requires forall d <- directories :: CreatingRow(updated.directories, d)
    requires |claimed| == m
    requires forall i :: 0 <= i < m ==> updated.items[f + i] == claimed[i].(status := Uploading)
    ensures var after := RunItems(RunDirectories(updated, directories, agents), claimed, agents);
      && SameRows(updated, after) && Midway(after, f + m, f + m)
      && DirectoryRunsMatch(after.directories, after.directoryRuns, after.requests, {})
  {
    hide Midway, ClaimedRows, CreatingRow, DirectoryRunsMatch, Ids, RunItems, RunDirectories;
    RunDirectoriesKeep(updated, f, f + m, Ids(directories), directories, agents);
    var ran := RunDirectories(updated, directories, agents);
    assert Ids(directories) - Ids(directories) == {};
    RunItemsKeep(ran, f, f + m, claimed, agents);
    MoreRequestsForDirectories(ran.directories, ran.directoryRuns, ran.requests, RunItems(ran, claimed, agents).requests, {});
  }

  lemma RanCore(updated: State, after: State, next: nat)
    requires SameRows(updated, after) && Midway(after, next, next)
    requires DirectoryRunsMatch(after.directories, after.directoryRuns, after.requests, {})
    requires Ordered(updated.items, updated.nextId) && DirectoriesOrdered(updated.directories, updated.nextId)
    requires WorkConserving(updated) && updated.guarding == HasPending(updated)
    ensures Core(after) && WorkConserving(after) && HasPending(after) == HasPending(updated)
  {
    MidwayEnds(after, next);
    hide RunsMatch, StartedInOrder, Shared, SentAfterParent;
    hide Ordered, DirectoriesOrdered, Count, DirectoryRunsMatch, Unfinished;
  }

  /** Everything is in place to start the claimed directories and the claimed rows `f..f + |claimed|`. */
  ghost predicate Ready(updated: State, f: nat, claimed: seq<Item>, directories: seq<Directory>) {
    && Midway(updated, f, f + |claimed|) && ClaimedRows(updated.items, updated.nextId, f, f + |claimed|)
    && Ordered(updated.items, updated.nextId) && DirectoriesOrdered(updated.directories, updated.nextId)
    && DirectoryRunsMatch(updated.directories, updated.directoryRuns, updated.requests, Ids(directories))
    && (forall d <- directories :: CreatingRow(updated.directories, d))
    && (forall i :: 0 <= i < |claimed| ==> updated.items[f + i] == claimed[i].(status := Uploading))
    && WorkConserving(updated) && updated.guarding == HasPending(updated)
  }

  lemma ClaimingReady(s: State)
    requires Core(s)
    ensures Ready(Claiming(s), FirstWaiting(s.items), Claimed(s.items, FreeSlots(s.items)), ClaimedDirectories(s.directories))
    ensures HasPending(Claiming(s)) == HasPending(s)
  {
    assert WaitingBehind(s.items);
    hide Core, Unfinished, WorkConserving, WaitingBehind, Claim, Claimed, FreeSlots, FirstWaiting;
    hide Ordered, DirectoriesOrdered, Midway, ClaimedRows, DirectoryRunsMatch, CreatingRow, Ids;
    hide ClaimDirectories, ClaimedDirectories;
    ClaimingItems(s);
    ClaimingDirectories(s);
    ClaimingPending(s);
    ClaimingFills(s);
  }

  lemma ReadyRuns(updated: State, f: nat, claimed: seq<Item>, directories: seq<Directory>, agents: set<string>)
    requires Ready(updated, f, claimed, directories)
    ensures var after := RunItems(RunDirectories(updated, directories, agents), claimed, agents);
      && Core(after) && WorkConserving(after) && HasPending(after) == HasPending(updated) && SameRows(updated, after)
  {
    hide Core, Unfinished, WorkConserving, RunItems, RunDirectories, HasPending, SameRows;
    hide Ordered, DirectoriesOrdered, Midway, ClaimedRows, DirectoryRunsMatch, CreatingRow, Ids;
    PumpRuns(updated, f, |claimed|, claimed, directories, agents);
    RanCore(updated, RunItems(RunDirectories(updated, directories, agents), claimed, agents), f + |claimed|);
  }

  /** `pump` keeps everything, fills the free slots and leaves no directory waiting. */
  lemma PumpKeeps(s: State, agents: set<string>)
    requires Core(s)
    ensures var after := Pump(s, agents);
      && Core(after) && WorkConserving(after) && HasPending(after) == HasPending(s)
      && after.nextId == s.nextId && after.settlements == s.settlements
  {
    hide Core, WorkConserving, HasPending, Claimed, ClaimedDirectories, FreeSlots, FirstWaiting;
    hide RunItems, RunDirectories, Ready, Claim, ClaimDirectories;
    var claimed, directories := Claimed(s.items, FreeSlots(s.items)), ClaimedDirectories(s.directories);
    if claimed == [] && directories == [] {
      PumpIdles(s);
    } else {
      ClaimingReady(s);
      ReadyRuns(Claiming(s), FirstWaiting(s.items), claimed, directories, agents);
    }
  }
}

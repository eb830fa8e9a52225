/** The upload queue as the class it is: published rows, an id counter and shared requests, all changed in place. */
module UploadQueues {
  import opened Common
  import opened UploadPaths
  import Spec = UploadScheduler
  import UploadPump
  import UploadRuns
  type Item = Spec.Item
  type Directory = Spec.Directory

  // ---------------------------------------------------------------- claiming by id

  function WaitingItems(items: seq<Item>): seq<Item> {
    if items == [] then []
    else (if items[0].status == Spec.Waiting then [items[0]] else []) + WaitingItems(items[1..])
  }

  function Slice(items: seq<Item>, n: nat): seq<Item> {
    if n < |items| then items[..n] else items
  }

  function ItemIds(items: seq<Item>): set<nat> {
    set item | item in items :: item.id
  }

  function DirectoryIds(directories: seq<Directory>): set<nat> {
    set directory | directory in directories :: directory.id
  }

  function StartItems(items: seq<Item>, ids: set<nat>): (started: seq<Item>)
    ensures |started| == |items|
  {
    seq(|items|, i requires 0 <= i < |items| =>
      if items[i].id in ids then items[i].(status := Spec.Uploading) else items[i])
  }

  function StartDirectories(directories: seq<Directory>, ids: set<nat>): (started: seq<Directory>)
    ensures |started| == |directories|
  {
    seq(|directories|, i requires 0 <= i < |directories| =>
      if directories[i].id in ids then directories[i].(status := Spec.Creating) else directories[i])
  }

  /** Filtering the waiting rows and slicing picks the rows the specification claims. */
  lemma {:induction false} SliceClaims(items: seq<Item>, slots: nat)
    ensures Slice(WaitingItems(items), slots) == Spec.Claimed(items, slots)
  {
    if items != [] {
      var rest := items[1..];
      if items[0].status == Spec.Waiting && slots > 0 {
        SliceClaims(rest, slots - 1);
        assert Slice(WaitingItems(items), slots) == [items[0]] + Slice(WaitingItems(rest), slots - 1);
      } else if items[0].status == Spec.Waiting {
        SliceClaims(rest, slots);
      } else {
        SliceClaims(rest, slots);
        assert WaitingItems(items) == WaitingItems(rest);
      }
    }
  }

  lemma IdInRange(items: seq<Item>, f: nat, end: nat, i: nat)
    requires Spec.IdsGrow(items) && f <= end <= |items| && i < |items|
    ensures items[i].id in ItemIds(items[f..end]) <==> f <= i < end
  {
    if f <= i < end {
      assert items[f..end][i - f] == items[i];
    } else {
      assert forall k :: f <= k < end ==> items[k].id != items[i].id;
    }
  }

  lemma StartRange(items: seq<Item>, f: nat, end: nat, claimed: seq<Item>)
    requires Spec.IdsGrow(items) && f <= end <= |items| == |claimed|
    requires forall i :: 0 <= i < |items| ==>
      claimed[i] == if f <= i < end then items[i].(status := Spec.Uploading) else items[i]
    ensures StartItems(items, ItemIds(items[f..end])) == claimed
  {
    var ids := ItemIds(items[f..end]);
    hide ItemIds, Spec.IdsGrow;
    forall i | 0 <= i < |items|
      ensures StartItems(items, ids)[i] == claimed[i]
    {
      IdInRange(items, f, end, i);
    }
  }

  lemma ClaimedRange(items: seq<Item>, slots: nat, f: nat, m: nat)
    requires Spec.IdsGrow(items) && UploadPump.Claims(items, slots, f, m)
    ensures StartItems(items, ItemIds(Spec.Claimed(items, slots))) == Spec.Claim(items, slots)
  {
    hide Spec.IdsGrow, Spec.Claimed, Spec.Claim, StartItems, ItemIds;
    StartRange(items, f, f + m, Spec.Claim(items, slots));
  }

  /** Changing the rows whose ids were claimed changes exactly the claimed rows, because ids are unique. */
  lemma StartingClaims(items: seq<Item>, slots: nat)
    requires Spec.IdsGrow(items) && Spec.WaitingBehind(items)
    ensures StartItems(items, ItemIds(Spec.Claimed(items, slots))) == Spec.Claim(items, slots)
  {
    hide *;
    UploadPump.ClaimShape(items, slots);
    ClaimedRange(items, slots, UploadPump.FirstWaiting(items), |Spec.Claimed(items, slots)|);
  }

  lemma StartingDirectories(directories: seq<Directory>, nextId: nat)
    requires Spec.DirectoriesOrdered(directories, nextId)
    ensures StartDirectories(directories, DirectoryIds(Spec.ClaimedDirectories(directories)))
      == Spec.ClaimDirectories(directories)
  {
    UploadPump.ClaimedDirectoriesAre(directories);
    var ids := DirectoryIds(Spec.ClaimedDirectories(directories));
    forall i | 0 <= i < |directories|
      ensures directories[i].id in ids <==> directories[i].status == Spec.DirectoryWaiting
    {
      if directories[i].status == Spec.DirectoryWaiting {
        assert directories[i] in Spec.ClaimedDirectories(directories);
      }
    }
  }

  lemma AdmittedCore(s: Spec.State, batch: Spec.Batch, paths: seq<string>)
    requires Spec.Core(s) && |Spec.Retained(s).items| + |batch.files| <= Spec.MAX_QUEUED
    requires Spec.NewItems(batch, batch.files, s.nextId).0.Some?
    ensures var (rows, after) := Spec.NewItems(batch, batch.files, s.nextId);
      && |rows.value| == |batch.files| && after == s.nextId + |batch.files|
      && Spec.Core(Spec.Joined(Spec.Retained(s), batch, rows.value, paths))
  {
    UploadRuns.RetainedCore(s);
    UploadRuns.NewItemsAreFresh(batch, batch.files, s.nextId);
    hide Spec.Core, Spec.NewItems, Spec.Unfinished, UploadRuns.Fresh, Spec.NewDirectories, Spec.Joined;
    UploadRuns.JoinedCore(Spec.Retained(s), batch, Spec.NewItems(batch, batch.files, s.nextId).0.value, paths);
  }

  lemma NormalizedAre(paths: seq<string>, normalized: seq<string>)
    requires |normalized| == |paths| && forall k :: 0 <= k < |paths| ==> Normalize(paths[k]) == Some(normalized[k])
    ensures Spec.NormalizeAll(paths) == Some(normalized)
  {
    UploadRuns.NormalizeAllIs(paths);
    assert Spec.NormalizeAll(paths).value == normalized;
  }

  lemma NoneDistinct()
    ensures Distinct<string>([]) == []
  {
  }

  class UploadQueue {
    var items: seq<Item>
    var directories: seq<Directory>
    var nextId: nat
    var preparedDirectories: map<Spec.Target, nat>
    var isGuardingUnload: bool
    const hasUnloadTarget: bool
    /** Whether the page's unload event has the warning attached. */
    var warningAttached: bool

    // What happened around the queue: requests sent, promises still open, callbacks.
    ghost var requests: seq<Spec.Request>
    ghost var runs: map<nat, Spec.Run>
    ghost var directoryRuns: map<nat, Option<nat>>
    ghost var started: seq<nat>
    ghost var sent: seq<(nat, nat)>
    ghost var settlements: nat
    var requestCount: nat

    ghost function State(): Spec.State
      reads this
    {
      Spec.State(items, directories, nextId, preparedDirectories, requests, runs, directoryRuns, started, sent,
                 settlements, if hasUnloadTarget then isGuardingUnload else Spec.Unfinished(items, directories))
    }

    ghost predicate Consistent()
      reads this
    {
      requestCount == |requests| && warningAttached == isGuardingUnload && (!hasUnloadTarget ==> !isGuardingUnload)
    }

    ghost predicate Valid()
      reads this
    {
      Consistent() && Spec.Inv(State())
    }

    constructor (hasUnloadTarget: bool)
      ensures Valid() && State() == Spec.Initial && this.hasUnloadTarget == hasUnloadTarget
    {
      items, directories, nextId, preparedDirectories := [], [], 1, map[];
      isGuardingUnload, warningAttached, requestCount := false, false, 0;
      this.hasUnloadTarget := hasUnloadTarget;
      requests, runs, directoryRuns, started, sent, settlements := [], map[], map[], [], [], 0;
      new;
      UploadRuns.EveryRunKeeps([]);
    }

    method HasPendingWork() returns (pending: bool)
      ensures pending == Spec.HasPending(State())
    {
      pending := Spec.Unfinished(items, directories);
    }

    /** `update`: publishes the rows, then attaches or detaches the unload warning when that changes. */
    method Update(newItems: seq<Item>, newDirectories: seq<Directory>)
      requires Consistent()
      modifies this`items, this`directories, this`isGuardingUnload, this`warningAttached
      ensures Consistent() && State() == Spec.Update(old(State()), newItems, newDirectories)
      ensures hasUnloadTarget ==> warningAttached == Spec.HasPending(State())
    {
      items, directories := newItems, newDirectories;
      var shouldGuard := HasPendingWork();
      if !hasUnloadTarget || shouldGuard == isGuardingUnload {
        return;
      }
      isGuardingUnload := shouldGuard;
      warningAttached := shouldGuard;
    }

    method PrepareDirectory(target: Spec.Target) returns (request: nat)
      requires Consistent()
      modifies this`preparedDirectories, this`requests, this`requestCount
      ensures Consistent() && (State(), request) == Spec.Prepare(old(State()), target)
    {
      if target in preparedDirectories {
        return preparedDirectories[target];
      }
      request := requestCount;
      requests, requestCount := requests + [Spec.Request(target, Spec.Pending, settlements)], requestCount + 1;
      preparedDirectories := preparedDirectories[target := request];
    }

    method RunDirectory(directory: Directory, agents: set<string>)
      requires Consistent()
      modifies this`preparedDirectories, this`requests, this`requestCount, this`directoryRuns
      ensures Consistent() && State() == Spec.RunDirectory(old(State()), directory, agents)
    {
      if directory.agent in agents {
        var request := PrepareDirectory(Spec.OwnTarget(directory));
        directoryRuns := directoryRuns[directory.id := Some(request)];
      } else {
        directoryRuns := directoryRuns[directory.id := None];
      }
    }

    method RunItem(item: Item, agents: set<string>)
      requires Consistent()
      modifies this`preparedDirectories, this`requests, this`requestCount, this`runs, this`started
      ensures Consistent() && State() == Spec.RunItem(old(State()), item, agents)
    {
      started := started + [item.id];
      if item.agent in agents {
        var request := PrepareDirectory(Spec.ParentTarget(item));
        runs := runs[item.id := Spec.Preparing(request)];
      } else {
        runs := runs[item.id := Spec.NoAgent];
      }
    }

    /** Starts the claimed directories, then the claimed files. */
    method StartClaimed(claimedItems: seq<Item>, claimedDirectories: seq<Directory>, agents: set<string>)
      requires Consistent()
      modifies this`preparedDirectories, this`requests, this`requestCount, this`directoryRuns, this`runs, this`started
      ensures Consistent()
      ensures State() == Spec.RunItems(Spec.RunDirectories(old(State()), claimedDirectories, agents), claimedItems, agents)
    {
      hide Spec.RunItem, Spec.RunDirectory, Spec.Unfinished;
      ghost var updated := State();
      for i := 0 to |claimedDirectories|
        invariant Consistent() && State() == Spec.RunDirectories(updated, claimedDirectories[..i], agents)
      {
        RunDirectory(claimedDirectories[i], agents);
        assert claimedDirectories[..i + 1][..i] == claimedDirectories[..i];
      }
      assert claimedDirectories[..|claimedDirectories|] == claimedDirectories;
      ghost var ran := State();
      for i := 0 to |claimedItems|
        invariant Consistent() && State() == Spec.RunItems(ran, claimedItems[..i], agents)
      {
        RunItem(claimedItems[i], agents);
        assert claimedItems[..i + 1][..i] == claimedItems[..i];
      }
      assert claimedItems[..|claimedItems|] == claimedItems;
    }

    /** Gives every free slot a waiting file and leaves no directory waiting. */
    method Pump(agents: set<string>)
      requires Consistent() && Spec.Core(State())
      modifies this
      ensures Consistent() && State() == Spec.Pump(old(State()), agents)
    {
      var freeSlots := Spec.FreeSlots(items);
      var claimedItems := Slice(WaitingItems(items), freeSlots);
      var claimedDirectories := Spec.ClaimedDirectories(directories);
      SliceClaims(items, freeSlots);
      if claimedItems == [] && claimedDirectories == [] {
        return;
      }
      StartingClaims(items, freeSlots);
      StartingDirectories(directories, nextId);
      hide Spec.Core, Spec.Unfinished, Spec.Claim;
      hide Spec.Claimed, Spec.FreeSlots, Spec.ClaimDirectories, Spec.ClaimedDirectories;
      hide StartItems, StartDirectories, ItemIds, DirectoryIds, Spec.RunItems, Spec.RunDirectories;
      Update(StartItems(items, ItemIds(claimedItems)), StartDirectories(directories, DirectoryIds(claimedDirectories)));
      StartClaimed(claimedItems, claimedDirectories, agents);
    }

    method AfterWorkFinished(agents: set<string>)
      requires Consistent() && Spec.Core(State())
      modifies this
      ensures Consistent() && State() == Spec.AfterWorkFinished(old(State()), agents)
    {
      Pump(agents);
      var pending := HasPendingWork();
      if !pending {
        preparedDirectories := map[];
        settlements := settlements + 1;
      }
    }

    /** The promise of a started upload ended. */
    method FinishItem(id: nat, error: Option<string>, agents: set<string>)
      requires Valid() && Spec.Enabled(State(), Spec.UploadEnds(id, error))
      modifies this
      ensures Valid() && State() == Spec.FinishItem(old(State()), id, error, agents)
    {
      UploadRuns.StepKeeps(State(), Spec.UploadEnds(id, error), agents);
      UploadRuns.ItemMarked(State(), id, error);
      hide Spec.Core, Spec.WorkConserving, Spec.Unfinished, Spec.AfterWorkFinished, Spec.MarkItem;
      runs := runs - {id};
      Update(Spec.MarkItem(items, id, error), directories);
      AfterWorkFinished(agents);
    }

    /** The promise of a started directory ended, one way or the other. */
    method FinishDirectory(id: nat, agents: set<string>)
      requires Valid() && Spec.Enabled(State(), Spec.DirectoryEnds(id))
      modifies this
      ensures Valid() && State() == Spec.FinishDirectory(old(State()), id, agents)
    {
      UploadRuns.StepKeeps(State(), Spec.DirectoryEnds(id), agents);
      UploadRuns.DirectoryMarked(State(), id);
      hide Spec.Core, Spec.WorkConserving, Spec.Unfinished, Spec.AfterWorkFinished, Spec.MarkDirectory;
      directoryRuns := directoryRuns - {id};
      Update(items, Spec.MarkDirectory(directories, id));
      AfterWorkFinished(agents);
    }

    method TakeId() returns (id: nat)
      modifies this`nextId
      ensures id == old(nextId) && nextId == old(nextId) + 1
    {
      id := nextId;
      nextId := nextId + 1;
    }

    /** The rows of the batch's files, or none as soon as a path is invalid. */
    method MakeItems(batch: Spec.Batch) returns (made: Option<seq<Item>>)
      modifies this`nextId
      ensures (made, nextId) == Spec.NewItems(batch, batch.files, old(nextId))
    {
      var rows: seq<Item> := [];
      ghost var whole := Spec.NewItems(batch, batch.files, nextId);
      assert batch.files[0..] == batch.files;
      assert whole.0.Some? ==> rows + whole.0.value == whole.0.value;
      for i := 0 to |batch.files|
        invariant var (rest, after) := Spec.NewItems(batch, batch.files[i..], nextId);
          whole == (if rest.Some? then Some(rows + rest.value) else None, after)
      {
        var file := batch.files[i];
        assert batch.files[i..][1..] == batch.files[i + 1..];
        var relative := Normalize(file.relative);
        if relative.None? {
          return None;
        }
        var id := TakeId();
        var row := Spec.Item(id, file.handle, batch.agent, batch.destination, relative.value, file.onExisting,
                             file.encrypt, Spec.Waiting, None);
        ghost var rest := Spec.NewItems(batch, batch.files[i + 1..], nextId).0;
        assert rest.Some? ==> rows + ([row] + rest.value) == (rows + [row]) + rest.value;
        rows := rows + [row];
      }
      assert batch.files[|batch.files|..] == [] && rows + [] == rows;
      return Some(rows);
    }

    /** The distinct normalized directories, or none when one of them is invalid. */
    method UniqueDirectories(paths: seq<string>) returns (unique: Option<seq<string>>)
      ensures unique == (if Spec.NormalizeAll(paths).Some? then Some(Distinct(Spec.NormalizeAll(paths).value)) else None)
    {
      var found: seq<string> := [];
      ghost var normalized: seq<string> := [];
      NoneDistinct();
      hide Distinct, Normalize;
      for i := 0 to |paths|
        invariant |normalized| == i && forall k :: 0 <= k < i ==> Normalize(paths[k]) == Some(normalized[k])
        invariant found == Distinct(normalized)
      {
        var relative := Normalize(paths[i]);
        if relative.None? {
          UploadRuns.NormalizeAllIs(paths);
          return None;
        }
        DistinctMore(normalized, relative.value);
        if relative.value !in found {
          found := found + [relative.value];
        }
        normalized := normalized + [relative.value];
      }
      NormalizedAre(paths, normalized);
      return Some(found);
    }

    method MakeDirectories(batch: Spec.Batch, paths: seq<string>) returns (rows: seq<Directory>)
      modifies this`nextId
      ensures nextId == old(nextId) + |paths|
      ensures rows == Spec.NewDirectories(batch, paths, old(nextId))
    {
      rows := [];
      for i := 0 to |paths|
        invariant |rows| == i && nextId == old(nextId) + i
        invariant forall k :: 0 <= k < i ==>
          rows[k] == Spec.Directory(old(nextId) + k, batch.agent, batch.destination, paths[k], Spec.DirectoryWaiting)
      {
        var id := TakeId();
        rows := rows + [Spec.Directory(id, batch.agent, batch.destination, paths[i], Spec.DirectoryWaiting)];
      }
    }

    /** The rows of the files and the distinct directories; none as soon as one path is invalid. */
    method MakeRows(batch: Spec.Batch) returns (made: Option<(seq<Item>, seq<string>)>)
      modifies this`nextId
      ensures nextId == Spec.NewItems(batch, batch.files, old(nextId)).1
      ensures var items, paths := Spec.NewItems(batch, batch.files, old(nextId)).0, Spec.NormalizeAll(batch.directories);
        made == if items.Some? && paths.Some? then Some((items.value, Distinct(paths.value))) else None
    {
      var items := MakeItems(batch);
      if items.None? {
        return None;
      }
      var unique := UniqueDirectories(batch.directories);
      if unique.None? {
        return None;
      }
      return Some((items.value, unique.value));
    }

    /** Publishes a batch behind the retained rows and starts what may run. */
    method Admit(ghost retained: Spec.State, retainedItems: seq<Item>, retainedDirectories: seq<Directory>,
                 batch: Spec.Batch, newItems: seq<Item>, paths: seq<string>, agents: set<string>)
      requires Consistent() && nextId == retained.nextId + |newItems|
      requires retained.items == retainedItems && retained.directories == retainedDirectories
      requires State() == retained.(items := items, directories := directories, nextId := nextId, guarding := State().guarding)
      requires Spec.Core(Spec.Joined(retained, batch, newItems, paths))
      modifies this
      ensures Consistent() && State() == Spec.Pump(Spec.Joined(retained, batch, newItems, paths), agents)
    {
      var rows := MakeDirectories(batch, paths);
      hide Spec.Core, Spec.Pump, Spec.Unfinished, Spec.NewDirectories;
      Update(retainedItems + newItems, retainedDirectories + rows);
      assert State() == Spec.Joined(retained, batch, newItems, paths);
      hide Spec.Joined, Spec.Update;
      Pump(agents);
    }

    /** What is left of `enqueue` once the batch is neither empty nor too large. */
    method EnqueueRows(batch: Spec.Batch, retainedItems: seq<Item>, retainedDirectories: seq<Directory>,
                       agents: set<string>)
      returns (result: Spec.EnqueueResult)
      requires Consistent() && Spec.Core(State())
      requires Spec.Retained(State()).items == retainedItems && Spec.Retained(State()).directories == retainedDirectories
      requires |retainedItems| + |batch.files| <= Spec.MAX_QUEUED
      modifies this
      ensures Consistent()
      ensures var (items, nextId) := Spec.NewItems(batch, batch.files, old(nextId));
        var paths := Spec.NormalizeAll(batch.directories);
        if items.None? || paths.None? then
          State() == old(State()).(nextId := nextId) && result == Spec.Refused(Spec.InvalidPath)
        else
          && State() == Spec.Pump(Spec.Joined(Spec.Retained(old(State())), batch, items.value, Distinct(paths.value)), agents)
          && result == Spec.Accepted(|items.value|)
    {
      ghost var before := State();
      ghost var retained := Spec.Retained(before);
      hide Spec.Pump, Spec.Core, Spec.Unfinished, Spec.NewItems, Spec.NormalizeAll, Distinct, Spec.NewDirectories,
           Spec.Joined;
      var made := MakeRows(batch);
      if made.None? {
        return Spec.Refused(Spec.InvalidPath);
      }
      AdmittedCore(before, batch, made.value.1);
      assert State() == retained.(items := items, directories := directories, nextId := nextId, guarding := State().guarding);
      hide Spec.Retained;
      Admit(retained, retainedItems, retainedDirectories, batch, made.value.0, made.value.1, agents);
      return Spec.Accepted(|made.value.0|);
    }

    /** Adds a whole batch, or refuses it and leaves the rows as they were. */
    method Enqueue(batch: Spec.Batch, agents: set<string>) returns (result: Spec.EnqueueResult)
      requires Valid()
      modifies this
      ensures Valid() && (State(), result) == Spec.Enqueue(old(State()), batch, agents)
    {
      UploadRuns.EnqueueKeeps(State(), batch, agents);
      hide Spec.Pump, Spec.Core, Spec.WorkConserving, Spec.Unfinished, Spec.NewItems, Spec.NormalizeAll, Distinct,
           Spec.NewDirectories, Spec.Joined, UploadRuns.ValidPaths;
      if batch.files == [] && batch.directories == [] {
        return Spec.Refused(Spec.NothingSelected);
      }
      var pending := HasPendingWork();
      var retainedItems := if pending then items else [];
      var retainedDirectories := if pending then directories else [];
      if |retainedItems| + |batch.files| > Spec.MAX_QUEUED {
        return Spec.Refused(Spec.TooMany);
      }
      result := EnqueueRows(batch, retainedItems, retainedDirectories, agents);
    }
  }
}

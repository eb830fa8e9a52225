/** The dialog that collects what is picked, dropped and pasted until the user confirms the upload. */
module UploadDialog {
  import opened Common
  import opened FileNames
  import opened UploadPaths
  import opened DestinationPlan
  import opened UploadPlan
  import Queue = UploadScheduler

  /** The items of the pending upload, if there is one, and the counter the items' keys come from. */
  datatype Dialog = Dialog(pending: Option<seq<Draft>>, nextKey: nat)

  const CLOSED := Dialog(None, 1)

  /**
   * `hasDestination` tells whether a directory is on screen; `seesDialog` whether the handler was
   * rendered with the dialog open. A source with an invalid path uses up `spent` keys.
   */
  datatype Event =
    | Adds(source: Source, hasDestination: bool, seesDialog: bool, spent: nat)
    | Removes(key: nat)
    | Closes

  /** The pending items with more behind them, unless those do not fit the limit. */
  function WithItems(pending: Option<seq<Draft>>, items: seq<Draft>, hasDestination: bool): Option<seq<Draft>> {
    match pending
    case None => if hasDestination then Some(items) else None
    case Some(current) =>
      if CountFiles(current) + CountFiles(items) > Queue.MAX_QUEUED then Some(current) else Some(current + items)
  }

  /** `addToUpload`. */
  function Add(d: Dialog, source: Source, hasDestination: bool, seesDialog: bool, spent: nat): Dialog {
    var entries := SourceEntries(source.files, source.directories);
    if entries.None? then d.(nextKey := d.nextKey + spent)
    else
      var items := Drafts(entries.value, d.nextKey, source.hasGeneratedName);
      var pending :=
        if items == [] || (!hasDestination && !seesDialog) || CountFiles(items) > Queue.MAX_QUEUED then d.pending
        else WithItems(d.pending, items, hasDestination);
      Dialog(pending, d.nextKey + |items|)
  }

  /** `removeFromUpload`. */
  function Without(items: seq<Draft>, key: nat): seq<Draft> {
    if items == [] then []
    else
      var front, last := Without(items[..|items| - 1], key), items[|items| - 1];
      if last.item.key == key then front else front + [last]
  }

  function Step(d: Dialog, event: Event): Dialog {
    match event
    case Adds(source, hasDestination, seesDialog, spent) => Add(d, source, hasDestination, seesDialog, spent)
    case Removes(key) => d.(pending := if d.pending.None? then None else Some(Without(d.pending.value, key)))
    case Closes => d.(pending := None)
  }

  function Run(d: Dialog, events: seq<Event>): Dialog {
    if events == [] then d else Step(Run(d, events[..|events| - 1]), events[|events| - 1])
  }

  // ---------------------------------------------------------------- what every event keeps

  /** Keys grow from row to row and are used up. */
  ghost predicate KeysGrow(items: seq<Draft>, nextKey: nat) {
    && (forall i, j :: 0 <= i < j < |items| ==> items[i].item.key < items[j].item.key)
    && (forall i :: 0 <= i < |items| ==> items[i].item.key < nextKey && !items[i].item.isAtDestination)
  }

  ghost predicate Inv(d: Dialog) {
    d.pending.Some? ==>
      AllFit(d.pending.value) && KeysGrow(d.pending.value, d.nextKey) && CountFiles(d.pending.value) <= Queue.MAX_QUEUED
  }

  lemma {:induction false} CountConcat(a: seq<Draft>, b: seq<Draft>)
    ensures CountFiles(a + b) == CountFiles(a) + CountFiles(b)
  {
    if b == [] {
      assert a + b == a;
    } else {
      CountConcat(a, b[..|b| - 1]);
      assert (a + b)[..|a + b| - 1] == a + b[..|b| - 1];
    }
  }

  lemma FitConcat(a: seq<Draft>, b: seq<Draft>)
    ensures AllFit(a + b) <==> AllFit(a) && AllFit(b)
  {
    hide FitsItem;
    if AllFit(a + b) {
      forall i | 0 <= i < |a|
        ensures FitsItem(a[i])
      {
        assert a[i] == (a + b)[i];
      }
      forall i | 0 <= i < |b|
        ensures FitsItem(b[i])
      {
        assert b[i] == (a + b)[|a| + i];
      }
    }
  }

  lemma KeysConcat(a: seq<Draft>, b: seq<Draft>, middle: nat, nextKey: nat)
    requires KeysGrow(a, middle) && KeysGrow(b, nextKey) && middle <= nextKey
    requires forall i :: 0 <= i < |b| ==> middle <= b[i].item.key
    ensures KeysGrow(a + b, nextKey)
  {
  }

  lemma KeysSplit(front: seq<Draft>, last: Draft, nextKey: nat)
    requires KeysGrow(front + [last], nextKey)
    ensures KeysGrow(front, last.item.key) && KeysGrow([last], nextKey)
  {
    var items := front + [last];
    assert items[|front|] == last;
    assert forall i :: 0 <= i < |front| ==> items[i] == front[i];
  }

  /** Removing rows leaves the others, in order. */
  lemma {:induction false} WithoutIs(items: seq<Draft>, key: nat)
    ensures forall draft :: draft in Without(items, key) <==> draft in items && draft.item.key != key
  {
    if items != [] {
      var front, last := items[..|items| - 1], items[|items| - 1];
      WithoutIs(front, key);
      assert items == front + [last];
    }
  }

  lemma {:induction false} WithoutKeeps(items: seq<Draft>, key: nat, nextKey: nat)
    requires AllFit(items) && KeysGrow(items, nextKey)
    ensures AllFit(Without(items, key)) && KeysGrow(Without(items, key), nextKey)
    ensures CountFiles(Without(items, key)) <= CountFiles(items)
  {
    if items != [] {
      var front, last := items[..|items| - 1], items[|items| - 1];
      var kept := Without(front, key);
      assert items == front + [last];
      assert Without(items, key) == if last.item.key == key then kept else kept + [last];
      hide *;
      FitConcat(front, [last]);
      KeysSplit(front, last, nextKey);
      WithoutKeeps(front, key, last.item.key);
      CountConcat(front, [last]);
      CountConcat(kept, [last]);
      FitConcat(kept, [last]);
      KeysKept(kept, last, nextKey);
    }
  }

  lemma KeysKept(kept: seq<Draft>, last: Draft, nextKey: nat)
    requires KeysGrow(kept, last.item.key) && KeysGrow([last], nextKey)
    ensures KeysGrow(kept, nextKey) && KeysGrow(kept + [last], nextKey)
  {
    assert [last][0] == last;
  }

  lemma GroupedKeys(items: seq<Draft>, fileCount: nat, nextKey: nat)
    requires Groups(items, fileCount, nextKey)
    ensures AllFit(items) && KeysGrow(items, nextKey + |items|)
    ensures forall i :: 0 <= i < |items| ==> nextKey <= items[i].item.key
  {
    hide AllFit;
  }

  lemma AddedKeep(d: Dialog, items: seq<Draft>, fileCount: nat, hasDestination: bool)
    requires Inv(d) && Groups(items, fileCount, d.nextKey) && CountFiles(items) <= Queue.MAX_QUEUED
    ensures Inv(Dialog(WithItems(d.pending, items, hasDestination), d.nextKey + |items|))
  {
    hide Groups, AllFit, KeysGrow, CountFiles;
    GroupedKeys(items, fileCount, d.nextKey);
    if d.pending.Some? {
      FitConcat(d.pending.value, items);
      CountConcat(d.pending.value, items);
      KeysConcat(d.pending.value, items, d.nextKey, d.nextKey + |items|);
      LaterKeys(d.pending.value, d.nextKey, d.nextKey + |items|);
    }
  }

  lemma AddKeeps(d: Dialog, source: Source, hasDestination: bool, seesDialog: bool, spent: nat)
    requires Inv(d)
    ensures Inv(Add(d, source, hasDestination, seesDialog, spent))
    ensures d.nextKey <= Add(d, source, hasDestination, seesDialog, spent).nextKey
  {
    var entries := SourceEntries(source.files, source.directories);
    hide Drafts, SourceEntries, Groups, AllFit, CountFiles, WithItems, KeysGrow;
    if d.pending.Some? {
      LaterKeys(d.pending.value, d.nextKey, d.nextKey + spent);
    }
    if entries.Some? {
      DraftsHoldTheSource(source.files, source.directories, d.nextKey, source.hasGeneratedName);
      var items := Drafts(entries.value, d.nextKey, source.hasGeneratedName);
      if d.pending.Some? {
        LaterKeys(d.pending.value, d.nextKey, d.nextKey + |items|);
      }
      if CountFiles(items) <= Queue.MAX_QUEUED {
        AddedKeep(d, items, |source.files|, hasDestination);
      }
    }
  }

  lemma LaterKeys(items: seq<Draft>, nextKey: nat, later: nat)
    requires KeysGrow(items, nextKey) && nextKey <= later
    ensures KeysGrow(items, later)
  {
  }

  lemma StepKeeps(d: Dialog, event: Event)
    requires Inv(d)
    ensures Inv(Step(d, event)) && d.nextKey <= Step(d, event).nextKey
  {
    match event
    case Adds(source, hasDestination, seesDialog, spent) =>
      AddKeeps(d, source, hasDestination, seesDialog, spent);
      hide Add, Inv;
    case Removes(key) =>
      if d.pending.Some? {
        WithoutKeeps(d.pending.value, key, d.nextKey);
        hide AllFit, CountFiles;
      }
    case Closes =>
  }

  lemma {:induction false} RunKeeps(events: seq<Event>)
    ensures Inv(Run(CLOSED, events))
  {
    if events != [] {
      RunKeeps(events[..|events| - 1]);
      StepKeeps(Run(CLOSED, events[..|events| - 1]), events[|events| - 1]);
    }
  }

  // ---------------------------------------------------------------- from the dialog to the queue

  /**
   * After any picks, drops, pastes and removals, with whatever names, the rows of the dialog have
   * distinct keys; and a plan of them without errors has distinct final names, so that everything
   * proved of such plans holds of what the dialog sends.
   */
  lemma DialogPlansAreSafe(events: seq<Event>, destination: Option<Names>, choices: map<nat, UploadChoice>)
    requires Run(CLOSED, events).pending.Some?
    ensures var items := Run(CLOSED, events).pending.value;
      && (forall i, j :: 0 <= i < j < |items| ==> items[i].item.key != items[j].item.key)
      && (ErrorFree(Plan(DraftItems(items), destination, NameChoices(choices), SuffixOf(choices))) ==>
            SafePlan(PlanUpload(items, destination, choices)))
  {
    RunKeeps(events);
    var items := Run(CLOSED, events).pending.value;
    hide AllFit, Run, PlanUpload, SafePlan, Plan, DraftItems;
    if ErrorFree(Plan(DraftItems(items), destination, NameChoices(choices), SuffixOf(choices))) {
      ErrorFreeUploadsAreSafe(items, destination, choices);
    }
  }

  lemma FitsTheLimit(events: seq<Event>)
    requires Run(CLOSED, events).pending.Some?
    ensures CountFiles(Run(CLOSED, events).pending.value) <= Queue.MAX_QUEUED
  {
    RunKeeps(events);
    hide Run, AllFit, KeysGrow, CountFiles;
  }

  lemma RowsHoldDrafts(drafts: seq<Draft>, destination: Option<Names>, choices: map<nat, UploadChoice>)
    ensures var rows := PlanUpload(drafts, destination, choices);
      forall i :: 0 <= i < |rows| ==> rows[i].draft == drafts[i]
  {
    hide Plan;
  }

  /**
   * A plan of the dialog without errors and without backslashes in its final names is admitted whole
   * by a queue that keeps no older rows, unless there is nothing to upload.
   */
  lemma DialogUploadIsAdmitted(
    events: seq<Event>, destination: Option<Names>, choices: map<nat, UploadChoice>, s: Queue.State, agent: string,
    path: string, agents: set<string>)
    requires Run(CLOSED, events).pending.Some? && Queue.Inv(s) && Queue.Retained(s).items == []
    requires ErrorFree(Plan(DraftItems(Run(CLOSED, events).pending.value), destination, NameChoices(choices), SuffixOf(choices)))
    requires forall row <- PlanUpload(Run(CLOSED, events).pending.value, destination, choices) :: '\\' !in row.row.finalName
    ensures var items := Run(CLOSED, events).pending.value;
      var resolved := UploadPlan.Resolution(PlanUpload(items, destination, choices));
      var result := Queue.Enqueue(s, Queue.Batch(agent, path, resolved.files, resolved.directories), agents).1;
      if resolved.files == [] && resolved.directories == [] then result.Refused?
      else result == Queue.Accepted(CountFiles(items))
  {
    hide *;
    DialogPlansAreSafe(events, destination, choices);
    FitsTheLimit(events);
    var items := Run(CLOSED, events).pending.value;
    var rows := PlanUpload(items, destination, choices);
    RowsHoldDrafts(items, destination, choices);
    assert forall i :: 0 <= i < |rows| ==> rows[i] in rows;
    PlannedUploadIsAdmitted(rows, items, s, agent, path, agents);
  }

  /** Rows of several sources can have one name; then the later one is given another without the user. */
  lemma SameNameTwice(name: string, destination: Option<Names>)
    requires UsableName(name) && TrimStable(name)
    ensures var source := Source([SourceFile(0, name)], [], false);
      var items := Run(CLOSED, [Adds(source, true, false, 0), Adds(source, true, true, 0)]).pending;
      && items.Some? && |items.value| == 2 && items.value[0].item.name == items.value[1].item.name == name
      && SafePlan(PlanUpload(items.value, destination, map[]))
  {
    var source := Source([SourceFile(0, name)], [], false);
    var first, second := Adds(source, true, false, 0), Adds(source, true, true, 0);
    OneFileDrafts(name, 1);
    OneFileDrafts(name, 2);
    assert [first, second][..1] == [first] && [first][..0] == [];
    var a, b := OneFileDraft(name, 1), OneFileDraft(name, 2);
    assert CountFiles([a]) == 1 && CountFiles([b]) == 1 by {
      assert [a][..0] == [] && [b][..0] == [];
    }
    hide SourceEntries, Drafts;
    assert Run(CLOSED, [first]) == Dialog(Some([a]), 2);
    assert Run(CLOSED, [first, second]) == Dialog(Some([a] + [b]), 3);
    var items := [a] + [b];
    DialogPlansAreSafe([first, second], destination, map[]);
    assert forall i :: 0 <= i < 2 ==> PlainItem(DraftItems(items)[i]);
    DefaultPlansNeedNoUser(DraftItems(items), destination, SuffixOf(map[]));
    assert NameChoices(map[]) == map[];
  }

  function OneFileDraft(name: string, key: nat): Draft {
    Draft(Item(key, name, FileEntry, false, false), [SourceFile(0, name)], [])
  }

  lemma OneFileDrafts(name: string, key: nat)
    requires UsableName(name)
    ensures SourceEntries([SourceFile(0, name)], []).Some?
    ensures Drafts(SourceEntries([SourceFile(0, name)], []).value, key, false) == [OneFileDraft(name, key)]
  {
    var file := SourceFile(0, name);
    OneComponent(name);
    NoDrafts(key, false);
    assert EntryNames([]) == [];
    hide Drafts, TopName, Rest, Normalize, SourceEntries, EntryNames;
    OneFileEntries(file);
    DraftsGrow([], FileAt(file), key, false);
    assert [] + [FileAt(file)] == [FileAt(file)];
    assert [] + [file] == [file];
  }

  lemma OneComponent(name: string)
    requires UsableName(name)
    ensures Normalize(name) == Some(name) && TopName(name) == name && Rest(name) == None
  {
    JoinedSplits(name, "");
    SplitFree(name, SLASH);
    ContainedIsNormal(name);
  }

  lemma OneFileEntries(file: SourceFile)
    requires Normalize(file.relativePath) == Some(file.relativePath)
    ensures SourceEntries([file], []) == Some([FileAt(file)])
  {
    hide Normalize;
    FilesMore([file], 0);
    assert [file][..1] == [file] && [file][..0] == [];
    assert [] + [FileAt(file)] == [FileAt(file)] && [FileAt(file)] + [] == [FileAt(file)];
    assert NormalizedFiles([file]) == Some([FileAt(file)]);
    GoodSource([file], []);
  }
}

/**
 * The upload queue's scheduling as a state machine: batches, claims, shared directory
 * requests, file requests and their ends, in any order the environment delivers them.
 */
module UploadScheduler {
  import opened Common
  import opened UploadPaths
  import DestinationPlan

  const MAX_QUEUED := 100
  const MAX_CONCURRENT := 5

  /** What the server does with an existing destination. */
  type Mode = DestinationPlan.Policy

  datatype Status = Waiting | Uploading | Done
  datatype DirectoryStatus = DirectoryWaiting | Creating | Created

  datatype Item = Item(
    id: nat, handle: nat, agent: string, destination: string, relative: string, onExisting: Mode, encrypt: bool,
    status: Status, error: Option<string>)

  datatype Directory = Directory(
    id: nat, agent: string, destination: string, relative: string, status: DirectoryStatus)

  /** What a directory request is about: an agent and an absolute path on it. */
  datatype Target = Target(agent: string, path: string)

  datatype Outcome = Pending | Succeeded | Failed

  /** A directory request, with the number of batches that had settled when it was sent. */
  datatype Request = Request(target: Target, outcome: Outcome, batch: nat)

  /** Where a started file upload stands. */
  datatype Run = NoAgent | Preparing(request: nat) | Sending(request: nat)

  /** A file of a batch; `handle` stands for the browser's file object. */
  datatype File = File(handle: nat, relative: string, onExisting: Mode, encrypt: bool)

  datatype Batch = Batch(agent: string, destination: string, files: seq<File>, directories: seq<string>)

  datatype State = State(
    items: seq<Item>,
    directories: seq<Directory>,
    nextId: nat,
    prepared: map<Target, nat>,          // the shared directory requests of this batch
    requests: seq<Request>,              // every directory request ever sent
    runs: map<nat, Run>,                 // started uploads that have not ended
    directoryRuns: map<nat, Option<nat>>, // started directories that have not ended
    started: seq<nat>,                   // ids in the order their uploads started
    sent: seq<(nat, nat)>,               // file requests: the upload's id and its directory request
    settlements: nat,                    // calls of onSettled
    guarding: bool)

  const Initial := State([], [], 1, map[], [], map[], map[], [], [], 0, false)

  function ParentTarget(item: Item): Target {
    Target(item.agent, ParentPath(item.destination, item.relative))
  }

  function OwnTarget(directory: Directory): Target {
    Target(directory.agent, JoinPath(directory.destination, directory.relative))
  }

  // ---------------------------------------------------------------- counting

  function Count(items: seq<Item>, status: Status): nat {
    if items == [] then 0 else (if items[0].status == status then 1 else 0) + Count(items[1..], status)
  }

  predicate Unfinished(items: seq<Item>, directories: seq<Directory>) {
    || (exists i :: 0 <= i < |items| && items[i].status != Done)
    || (exists i :: 0 <= i < |directories| && directories[i].status != Created)
  }

  predicate HasPending(s: State) {
    Unfinished(s.items, s.directories)
  }

  /** `update`: new rows, with the warning attached or detached to match them. */
  function Update(s: State, items: seq<Item>, directories: seq<Directory>): State {
    var next := s.(items := items, directories := directories);
    next.(guarding := HasPending(next))
  }

  // ---------------------------------------------------------------- claiming

  /** The first `slots` waiting items become uploading. */
  function Claim(items: seq<Item>, slots: nat): (claimed: seq<Item>)
    ensures |claimed| == |items|
  {
    if items == [] then []
    else if items[0].status == Waiting && slots > 0 then
      [items[0].(status := Uploading)] + Claim(items[1..], slots - 1)
    else [items[0]] + Claim(items[1..], slots)
  }

  /** The items `Claim` starts, in queue order. */
  function Claimed(items: seq<Item>, slots: nat): seq<Item> {
    if items == [] then []
    else if items[0].status == Waiting && slots > 0 then [items[0]] + Claimed(items[1..], slots - 1)
    else Claimed(items[1..], slots)
  }

  function ClaimDirectories(directories: seq<Directory>): (claimed: seq<Directory>)
    ensures |claimed| == |directories|
  {
    seq(|directories|, i requires 0 <= i < |directories| =>
      if directories[i].status == DirectoryWaiting then directories[i].(status := Creating) else directories[i])
  }

  function ClaimedDirectories(directories: seq<Directory>): seq<Directory> {
    if directories == [] then []
    else (if directories[0].status == DirectoryWaiting then [directories[0]] else []) + ClaimedDirectories(directories[1..])
  }

  function FreeSlots(items: seq<Item>): nat {
    if Count(items, Uploading) >= MAX_CONCURRENT then 0 else MAX_CONCURRENT - Count(items, Uploading)
  }

  // ---------------------------------------------------------------- starting

  /** `prepareDirectory`: one request per target and batch. */
  function Prepare(s: State, target: Target): (State, nat) {
    if target in s.prepared then (s, s.prepared[target])
    else (s.(requests := s.requests + [Request(target, Pending, s.settlements)], prepared := s.prepared[target := |s.requests|]),
          |s.requests|)
  }

  function RunDirectory(s: State, directory: Directory, agents: set<string>): (after: State)
    ensures after.items == s.items && after.directories == s.directories
  {
    if directory.agent in agents then
      var (prepared, request) := Prepare(s, OwnTarget(directory));
      prepared.(directoryRuns := prepared.directoryRuns[directory.id := Some(request)])
    else s.(directoryRuns := s.directoryRuns[directory.id := None])
  }

  function RunItem(s: State, item: Item, agents: set<string>): (after: State)
    ensures after.items == s.items && after.directories == s.directories
  {
    var begun := s.(started := s.started + [item.id]);
    if item.agent in agents then
      var (prepared, request) := Prepare(begun, ParentTarget(item));
      prepared.(runs := prepared.runs[item.id := Preparing(request)])
    else begun.(runs := begun.runs[item.id := NoAgent])
  }

  function RunDirectories(s: State, directories: seq<Directory>, agents: set<string>): (after: State)
    ensures after.items == s.items && after.directories == s.directories
  {
    if directories == [] then s
    else RunDirectory(RunDirectories(s, directories[..|directories| - 1], agents), directories[|directories| - 1], agents)
  }

  function RunItems(s: State, items: seq<Item>, agents: set<string>): (after: State)
    ensures after.items == s.items && after.directories == s.directories
  {
    if items == [] then s
    else RunItem(RunItems(s, items[..|items| - 1], agents), items[|items| - 1], agents)
  }

  /** `pump`. `agents` are the agents that can be resolved now. */
  function Pump(s: State, agents: set<string>): State {
    var claimed := Claimed(s.items, FreeSlots(s.items));
    var directories := ClaimedDirectories(s.directories);
    if claimed == [] && directories == [] then s
    else
      var updated := Update(s, Claim(s.items, FreeSlots(s.items)), ClaimDirectories(s.directories));
      RunItems(RunDirectories(updated, directories, agents), claimed, agents)
  }

  // ---------------------------------------------------------------- batches

  /** The rows of a batch, or `None` when one of its paths is invalid. Ids are taken along the way. */
  function NewItems(batch: Batch, files: seq<File>, nextId: nat): (Option<seq<Item>>, nat) {
    if files == [] then (Some([]), nextId)
    else
      match Normalize(files[0].relative)
      case None => (None, nextId)
      case Some(relative) =>
        var item := Item(nextId, files[0].handle, batch.agent, batch.destination, relative, files[0].onExisting,
                         files[0].encrypt, Waiting, None);
        var (rest, after) := NewItems(batch, files[1..], nextId + 1);
        (if rest.Some? then Some([item] + rest.value) else None, after)
  }

  function NormalizeAll(paths: seq<string>): Option<seq<string>> {
    if paths == [] then Some([])
    else
      var first := Normalize(paths[0]);
      var rest := NormalizeAll(paths[1..]);
      if first.Some? && rest.Some? then Some([first.value] + rest.value) else None
  }

  function NewDirectories(batch: Batch, paths: seq<string>, nextId: nat): (rows: seq<Directory>)
    ensures |rows| == |paths|
  {
    seq(|paths|, i requires 0 <= i < |paths| =>
      Directory(nextId + i, batch.agent, batch.destination, paths[i], DirectoryWaiting))
  }

  /** The rows a new batch joins. */
  function Retained(s: State): State {
    if HasPending(s) then s else s.(items := [], directories := [], guarding := false)
  }

  /** `r` with the rows of a batch behind its own. */
  function Joined(r: State, batch: Batch, rows: seq<Item>, paths: seq<string>): State {
    var from := r.nextId + |rows|;
    Update(r.(nextId := from + |paths|), r.items + rows, r.directories + NewDirectories(batch, paths, from))
  }

  datatype Refusal = NothingSelected | TooMany | InvalidPath

  datatype EnqueueResult = Accepted(fileCount: nat) | Refused(reason: Refusal)

  /** `enqueue`: the whole batch or nothing. */
  function Enqueue(s: State, batch: Batch, agents: set<string>): (State, EnqueueResult) {
    var retained := Retained(s);
    if batch.files == [] && batch.directories == [] then (s, Refused(NothingSelected))
    else if |retained.items| + |batch.files| > MAX_QUEUED then (s, Refused(TooMany))
    else
      var (items, nextId) := NewItems(batch, batch.files, s.nextId);
      var paths := NormalizeAll(batch.directories);
      if items == None || paths == None then (s.(nextId := nextId), Refused(InvalidPath))
      else (Pump(Joined(retained, batch, items.value, Distinct(paths.value)), agents), Accepted(|items.value|))
  }

  // ---------------------------------------------------------------- ends

  function AfterWorkFinished(s: State, agents: set<string>): State {
    var pumped := Pump(s, agents);
    if HasPending(pumped) then pumped
    else pumped.(prepared := map[], settlements := pumped.settlements + 1)
  }

  function MarkItem(items: seq<Item>, id: nat, error: Option<string>): (marked: seq<Item>)
    ensures |marked| == |items|
  {
    seq(|items|, i requires 0 <= i < |items| =>
      if items[i].id == id then items[i].(status := Done, error := error) else items[i])
  }

  function MarkDirectory(directories: seq<Directory>, id: nat): (marked: seq<Directory>)
    ensures |marked| == |directories|
  {
    seq(|directories|, i requires 0 <= i < |directories| =>
      if directories[i].id == id then directories[i].(status := Created) else directories[i])
  }

  function FinishItem(s: State, id: nat, error: Option<string>, agents: set<string>): State {
    var ended := s.(runs := s.runs - {id});
    AfterWorkFinished(Update(ended, MarkItem(s.items, id, error), s.directories), agents)
  }

  function FinishDirectory(s: State, id: nat, agents: set<string>): State {
    var ended := s.(directoryRuns := s.directoryRuns - {id});
    AfterWorkFinished(Update(ended, s.items, MarkDirectory(s.directories, id)), agents)
  }

  // ---------------------------------------------------------------- events

  datatype Event =
    | Enqueues(batch: Batch)
    | RequestSettles(request: nat, ok: bool)
    | SendsFile(id: nat)                    // the upload's directory request succeeded
    | UploadEnds(id: nat, error: Option<string>)
    | DirectoryEnds(id: nat)

  function RequestOutcome(s: State, request: nat): Outcome {
    if request < |s.requests| then s.requests[request].outcome else Pending
  }

  /** What the promises allow to happen next. */
  predicate Enabled(s: State, event: Event) {
    match event
    case Enqueues(_) => true
    case RequestSettles(request, _) => request < |s.requests| && s.requests[request].outcome == Pending
    case SendsFile(id) =>
      id in s.runs && s.runs[id].Preparing? && RequestOutcome(s, s.runs[id].request) == Succeeded
    case UploadEnds(id, error) =>
      && id in s.runs
      && (match s.runs[id]
          case NoAgent => error.Some?
          case Preparing(request) => error.Some? && RequestOutcome(s, request) == Failed
          case Sending(_) => true)
    case DirectoryEnds(id) =>
      && id in s.directoryRuns
      && (s.directoryRuns[id].Some? ==> RequestOutcome(s, s.directoryRuns[id].value) != Pending)
  }

  function Step(s: State, event: Event, agents: set<string>): State
    requires Enabled(s, event)
  {
    match event
    case Enqueues(batch) => Enqueue(s, batch, agents).0
    case RequestSettles(request, ok) =>
      s.(requests := s.requests[request := s.requests[request].(outcome := if ok then Succeeded else Failed)])
    case SendsFile(id) =>
      s.(runs := s.runs[id := Sending(s.runs[id].request)], sent := s.sent + [(id, s.runs[id].request)])
    case UploadEnds(id, error) => FinishItem(s, id, error, agents)
    case DirectoryEnds(id) => FinishDirectory(s, id, agents)
  }

  // ---------------------------------------------------------------- what every event keeps

  ghost predicate IdsGrow(items: seq<Item>) {
    forall i, j :: 0 <= i < j < |items| ==> items[i].id < items[j].id
  }

  ghost predicate WaitingBehind(items: seq<Item>) {
    forall i, j :: 0 <= i < j < |items| && items[i].status == Waiting ==> items[j].status == Waiting
  }

  /** Ids grow along the queue, and items still waiting are behind everything that started. */
  ghost predicate Ordered(items: seq<Item>, nextId: nat) {
    && IdsGrow(items) && WaitingBehind(items)
    && (forall i :: 0 <= i < |items| ==> items[i].id < nextId)
  }

  ghost predicate DirectoriesOrdered(directories: seq<Directory>, nextId: nat) {
    && (forall i, j :: 0 <= i < j < |directories| ==> directories[i].id < directories[j].id)
    && (forall i :: 0 <= i < |directories| ==> directories[i].id < nextId)
  }

  /** No target is requested twice in one batch, and `prepared` holds the requests of this batch. */
  ghost predicate Shared(settlements: nat, prepared: map<Target, nat>, requests: seq<Request>) {
    && (forall i, j :: 0 <= i < j < |requests| && requests[i].target == requests[j].target ==>
          requests[i].batch != requests[j].batch)
    && (forall i :: 0 <= i < |requests| ==> requests[i].batch <= settlements)
    && (forall t <- prepared ::
          prepared[t] < |requests| && requests[prepared[t]].target == t && requests[prepared[t]].batch == settlements)
    && (forall i :: 0 <= i < |requests| && requests[i].batch == settlements ==>
          requests[i].target in prepared && prepared[requests[i].target] == i)
  }

  ghost predicate RunFits(requests: seq<Request>, item: Item, run: Run) {
    match run
    case NoAgent => true
    case Preparing(request) => request < |requests| && requests[request].target == ParentTarget(item)
    case Sending(request) =>
      && request < |requests| && requests[request].target == ParentTarget(item)
      && requests[request].outcome == Succeeded
  }

  /** Some row outside `next..end` is uploading under this id. */
  ghost predicate UploadingAs(items: seq<Item>, id: nat, next: nat, end: nat) {
    exists i :: 0 <= i < |items| && !(next <= i < end) && items[i].id == id && items[i].status == Uploading
  }

  /**
   * A started upload belongs to an uploading row and waits for, or follows, the request for its own
   * parent. The rows `next..end` are claimed but not started yet.
   */
  ghost predicate RunsMatch(items: seq<Item>, runs: map<nat, Run>, requests: seq<Request>, next: nat, end: nat) {
    && (forall id <- runs :: UploadingAs(items, id, next, end))
    && (forall i :: 0 <= i < |items| && !(next <= i < end) && items[i].status == Uploading ==>
          items[i].id in runs && RunFits(requests, items[i], runs[items[i].id]))
  }

  ghost predicate CreatingAs(directories: seq<Directory>, id: nat) {
    exists i :: 0 <= i < |directories| && directories[i].id == id && directories[i].status == Creating
  }

  /** `directory`'s row, and no other, is being created under its id. */
  ghost predicate CreatingRow(directories: seq<Directory>, directory: Directory) {
    && CreatingAs(directories, directory.id)
    && (forall i :: 0 <= i < |directories| && directories[i].id == directory.id ==>
          directories[i] == directory.(status := Creating))
  }

  ghost predicate DirectoryRunFits(requests: seq<Request>, directory: Directory, run: Option<nat>) {
    run.Some? ==> run.value < |requests| && requests[run.value].target == OwnTarget(directory)
  }

  /**
   * A started directory belongs to a creating row and waits for its own request. The ids in `left`
   * are claimed but not started yet.
   */
  ghost predicate DirectoryRunsMatch(
    directories: seq<Directory>, runs: map<nat, Option<nat>>, requests: seq<Request>, left: set<nat>) {
    && (forall id <- runs :: CreatingAs(directories, id))
    && (forall i :: 0 <= i < |directories| && directories[i].status == Creating ==>
          || directories[i].id in left
          || (directories[i].id in runs && DirectoryRunFits(requests, directories[i], runs[directories[i].id])))
  }

  /** Uploads start in queue order, each at most once; the rows past waiting are the started ones. */
  ghost predicate StartedInOrder(items: seq<Item>, started: seq<nat>, nextId: nat, next: nat, end: nat) {
    && (forall i, j :: 0 <= i < j < |started| ==> started[i] < started[j])
    && (forall i :: 0 <= i < |started| ==> started[i] < nextId)
    && (forall i, k :: 0 <= i < |items| && (next <= i < end || items[i].status == Waiting) && 0 <= k < |started| ==>
          started[k] < items[i].id)
    && (forall i :: 0 <= i < |items| && !(next <= i < end) && items[i].status != Waiting ==> items[i].id in started)
  }

  /** Every file request followed the success of a directory request. */
  ghost predicate SentAfterParent(sent: seq<(nat, nat)>, requests: seq<Request>) {
    forall k :: 0 <= k < |sent| ==> sent[k].1 < |requests| && requests[sent[k].1].outcome == Succeeded
  }

  /** Bounded, and never idle while a file waits. */
  ghost predicate WorkConserving(s: State) {
    && |s.items| <= MAX_QUEUED
    && Count(s.items, Uploading) <= MAX_CONCURRENT
    && (Count(s.items, Waiting) > 0 ==> Count(s.items, Uploading) == MAX_CONCURRENT)
    && (forall i :: 0 <= i < |s.directories| ==> s.directories[i].status != DirectoryWaiting)
  }

  /** What holds at every moment, also while a batch or an end is being handled. */
  ghost predicate Core(s: State) {
    && Ordered(s.items, s.nextId) && DirectoriesOrdered(s.directories, s.nextId)
    && Shared(s.settlements, s.prepared, s.requests) && SentAfterParent(s.sent, s.requests)
    && RunsMatch(s.items, s.runs, s.requests, 0, 0)
    && DirectoryRunsMatch(s.directories, s.directoryRuns, s.requests, {})
    && StartedInOrder(s.items, s.started, s.nextId, 0, 0)
    && |s.items| <= MAX_QUEUED && Count(s.items, Uploading) <= MAX_CONCURRENT
    && s.guarding == HasPending(s)
  }

  ghost predicate Inv(s: State) {
    && Core(s) && WorkConserving(s)
    && (!HasPending(s) ==> s.prepared == map[])
  }
}

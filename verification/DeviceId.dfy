/** Processes that share a data directory agree on one device id, whatever their interleaving. */
module DeviceId {
  import opened Common

  // ---------------------------------------------------------------- ids and their file

  const PREFIX := "dev_"
  const RANDOM_LENGTH := 20

  predicate IsBase32(c: char) {
    'a' <= c <= 'z' || '2' <= c <= '7'
  }

  predicate IsIdFormat(value: string) {
    && |value| == |PREFIX| + RANDOM_LENGTH && value[..|PREFIX|] == PREFIX
    && forall i :: |PREFIX| <= i < |value| ==> IsBase32(value[i])
  }

  /** The characters Rust's `trim` removes. */
  predicate IsWhitespace(c: char) {
    var code := c as int;
    || 9 <= code <= 13 || code == 32 || code == 0x85 || code == 0xA0 || code == 0x1680 || 0x2000 <= code <= 0x200A
    || code == 0x2028 || code == 0x2029 || code == 0x202F || code == 0x205F || code == 0x3000
  }

  function TrimStart(s: string): string {
    if s != "" && IsWhitespace(s[0]) then TrimStart(s[1..]) else s
  }

  function TrimEnd(s: string): string {
    if s != "" && IsWhitespace(s[|s| - 1]) then TrimEnd(s[..|s| - 1]) else s
  }

  /** The id in a file's content, or `None` when the file is corrupt. */
  function Parse(content: string): (id: Option<string>)
    ensures id.Some? ==> IsIdFormat(id.value)
  {
    var value := TrimEnd(TrimStart(content));
    if IsIdFormat(value) then Some(value) else None
  }

  /** What a process stores. */
  function Text(id: string): string {
    id + "\n"
  }

  lemma StoredIdIsRead(id: string)
    requires IsIdFormat(id)
    ensures Parse(Text(id)) == Some(id)
  {
    var text := Text(id);
    assert id[..|PREFIX|][0] == 'd';
    assert text[0] == 'd' && text[..|id|] == id;
    assert IsBase32(id[|id| - 1]);
    assert TrimEnd(id) == id;
  }

  // ---------------------------------------------------------------- processes and their directory

  /** What publishing without replacement falls back to. */
  datatype FileSystem = NoReplaceRename | HardLinks | PlainRename

  datatype Next = LoadAgain | GiveUp

  datatype Process =
    | Loading
    | Creating(id: string)     // its private file is about to be created
    | Writing(id: string)
    | Publishing(id: string)   // the private file is written and synced
    | Linked(id: string)       // published by a hard link; the private name is still there
    | Checked(id: string)      // no id file was seen; an ordinary rename follows
    | Discarding(next: Next)   // the private file is about to be removed
    | Reloading
    | Returned(id: string)
    | Failed
    | Crashed

  datatype World = World(
    published: Option<string>,        // the content of the id file
    private: map<nat, string>,        // the private files, one per process
    processes: map<nat, Process>,
    littered: set<nat>)               // processes whose private file could not be removed

  datatype Event =
    | Starts(pid: nat)
    | Loads(pid: nat, generated: string)  // `generated` is the id generated when there is no file
    | Opens(pid: nat)
    | Writes(pid: nat, written: nat)
    | Syncs(pid: nat)
    | Publishes(pid: nat)
    | Unlinks(pid: nat)
    | Removes(pid: nat, ok: bool)
    | Errs(pid: nat)
    | Crashes(pid: nat)

  predicate Running(process: Process) {
    !process.Returned? && !process.Failed? && !process.Crashed?
  }

  predicate Enabled(w: World, event: Event) {
    match event
    case Starts(pid) => pid !in w.processes
    case _ =>
      && event.pid in w.processes
      && var process := w.processes[event.pid];
         match event
         case Loads(_, generated) => IsIdFormat(generated) && (process.Loading? || process.Reloading?)
         case Opens(_) => process.Creating? && event.pid !in w.private
         case Writes(_, written) => process.Writing? && written <= |Text(process.id)|
         case Syncs(_) => process.Writing? && event.pid in w.private && w.private[event.pid] == Text(process.id)
         case Publishes(_) => (process.Publishing? || process.Checked?) && event.pid in w.private
         case Unlinks(_) => process.Linked?
         case Removes(_, _) => process.Discarding?
         case Errs(_) => Running(process) && !process.Discarding?
         case _ => Running(process)
  }

  function With(w: World, pid: nat, process: Process): World {
    w.(processes := w.processes[pid := process])
  }

  /** What reading the id file leads to. */
  function Loaded(w: World, pid: nat, generated: string): World
    requires pid in w.processes
  {
    if w.published.None? then With(w, pid, if w.processes[pid].Loading? then Creating(generated) else Failed)
    else With(w, pid, if Parse(w.published.value).Some? then Returned(Parse(w.published.value).value) else Failed)
  }

  function Published(w: World, fs: FileSystem, pid: nat): World
    requires pid in w.processes && (w.processes[pid].Publishing? || w.processes[pid].Checked?) && pid in w.private
  {
    var id, content := w.processes[pid].id, Some(w.private[pid]);
    if w.processes[pid].Checked? then
      With(w.(published := content, private := w.private - {pid}), pid, Returned(id))
    else if w.published.Some? then With(w, pid, Discarding(LoadAgain))
    else
      match fs
      case NoReplaceRename => With(w.(published := content, private := w.private - {pid}), pid, Returned(id))
      case HardLinks => With(w.(published := content), pid, Linked(id))
      case PlainRename => With(w, pid, Checked(id))
  }

  function Step(w: World, fs: FileSystem, event: Event): World
    requires Enabled(w, event)
  {
    var pid := event.pid;
    match event
    case Starts(_) => With(w, pid, Loading)
    case Loads(_, generated) => Loaded(w, pid, generated)
    case Opens(_) => With(w.(private := w.private[pid := ""]), pid, Writing(w.processes[pid].id))
    case Writes(_, written) => w.(private := w.private[pid := Text(w.processes[pid].id)[..written]])
    case Syncs(_) => With(w, pid, Publishing(w.processes[pid].id))
    case Publishes(_) => Published(w, fs, pid)
    case Unlinks(_) => With(w.(private := w.private - {pid}), pid, Returned(w.processes[pid].id))
    case Removes(_, ok) =>
      With(if ok then w.(private := w.private - {pid}) else w.(littered := w.littered + {pid}), pid,
           if w.processes[pid].next == LoadAgain then Reloading else Failed)
    case Errs(_) =>
      With(w, pid, if w.processes[pid].Loading? || w.processes[pid].Reloading? then Failed else Discarding(GiveUp))
    case Crashes(_) => With(w, pid, Crashed)
  }

  // ---------------------------------------------------------------- what every step keeps

  /** Whether a process in this state has its private file, and how far it is written. */
  ghost predicate PrivateFits(process: Process, pid: nat, private: map<nat, string>) {
    match process
    case Writing(id) => IsIdFormat(id) && pid in private && private[pid] <= Text(id)
    case Publishing(id) => IsIdFormat(id) && pid in private && private[pid] == Text(id)
    case Linked(id) => IsIdFormat(id) && pid in private && private[pid] == Text(id)
    case Checked(id) => IsIdFormat(id) && pid in private && private[pid] == Text(id)
    case Creating(id) => IsIdFormat(id) && pid !in private
    case Loading => pid !in private
    case _ => true
  }

  /** Where a process stands with respect to the published id. */
  ghost predicate PublishedFits(process: Process, fs: FileSystem, published: Option<string>) {
    match process
    case Returned(id) => fs != PlainRename ==> published.Some? && Parse(published.value) == Some(id)
    case Linked(id) => fs == HardLinks && published == Some(Text(id))
    case Checked(_) => fs == PlainRename
    case _ => true
  }

  /** The file is what it was at first, or one whole id. */
  ghost predicate NeverPartial(published: Option<string>, initial: Option<string>) {
    published == initial || exists id :: IsIdFormat(id) && published == Some(Text(id))
  }

  /** A private file is left only by processes that still need it, crashed, or could not remove it. */
  ghost predicate Tidy(w: World) {
    forall pid <- w.private :: pid in w.processes
      && (pid in w.littered || !(w.processes[pid].Returned? || w.processes[pid].Failed? || w.processes[pid].Reloading?))
  }

  ghost predicate Inv(w: World, fs: FileSystem, initial: Option<string>) {
    && (forall pid <- w.processes :: PrivateFits(w.processes[pid], pid, w.private))
    && (forall pid <- w.processes :: PublishedFits(w.processes[pid], fs, w.published))
    && NeverPartial(w.published, initial) && Tidy(w)
    && (fs != PlainRename && initial.Some? ==> w.published == initial)
  }

  /** Once there is an id file, no step changes it, unless the file system offers nothing but plain renames. */
  lemma PublishedStays(w: World, fs: FileSystem, event: Event, initial: Option<string>)
    requires Inv(w, fs, initial) && Enabled(w, event) && fs != PlainRename && w.published.Some?
    ensures Step(w, fs, event).published == w.published
  {
    if event.Publishes? {
      assert PublishedFits(w.processes[event.pid], fs, w.published);
    }
  }

  /** The process that takes the step stands where its private file and the id file allow it. */
  lemma OwnState(w: World, fs: FileSystem, event: Event, initial: Option<string>)
    requires Inv(w, fs, initial) && Enabled(w, event)
    ensures var after := Step(w, fs, event);
      && PrivateFits(after.processes[event.pid], event.pid, after.private)
      && PublishedFits(after.processes[event.pid], fs, after.published)
  {
    var pid := event.pid;
    hide Tidy, NeverPartial, Parse, Text, IsIdFormat;
    if event.Starts? {
      assert Tidy(w);
      NotStarted(w, pid);
    } else {
      assert PrivateFits(w.processes[pid], pid, w.private) && PublishedFits(w.processes[pid], fs, w.published);
      if event.Publishes? || event.Unlinks? {
        StoredIdIsRead(w.processes[pid].id);
      }
    }
  }

  lemma NotStarted(w: World, pid: nat)
    requires Tidy(w) && pid !in w.processes
    ensures pid !in w.private
  {
  }

  /** What the step leaves in the directory: a whole id file, and private files only where they are due. */
  lemma DirectoryState(w: World, fs: FileSystem, event: Event, initial: Option<string>)
    requires Inv(w, fs, initial) && Enabled(w, event)
    ensures var after := Step(w, fs, event);
      NeverPartial(after.published, initial) && Tidy(after)
  {
    hide PublishedFits, Parse;
    if !event.Starts? {
      assert PrivateFits(w.processes[event.pid], event.pid, w.private);
    }
  }

  lemma OtherState(w: World, fs: FileSystem, event: Event, initial: Option<string>, pid: nat)
    requires Inv(w, fs, initial) && Enabled(w, event) && pid != event.pid && pid in w.processes
    ensures var after := Step(w, fs, event);
      && pid in after.processes && PrivateFits(after.processes[pid], pid, after.private)
      && PublishedFits(after.processes[pid], fs, after.published)
  {
    var after := Step(w, fs, event);
    if fs != PlainRename && w.published.Some? {
      PublishedStays(w, fs, event, initial);
    }
    assert after.processes[pid] == w.processes[pid];
    assert PrivateFits(w.processes[pid], pid, w.private) && PublishedFits(w.processes[pid], fs, w.published);
    assert pid in after.private <==> pid in w.private;
    assert pid in w.private ==> after.private[pid] == w.private[pid];
  }

  lemma StepKeeps(w: World, fs: FileSystem, event: Event, initial: Option<string>)
    requires Inv(w, fs, initial) && Enabled(w, event)
    ensures Inv(Step(w, fs, event), fs, initial)
  {
    var after := Step(w, fs, event);
    OwnState(w, fs, event, initial);
    DirectoryState(w, fs, event, initial);
    if fs != PlainRename && w.published.Some? {
      PublishedStays(w, fs, event, initial);
    }
    forall pid <- after.processes
      ensures PrivateFits(after.processes[pid], pid, after.private) && PublishedFits(after.processes[pid], fs, after.published)
    {
      if pid != event.pid {
        assert pid in w.processes;
        OtherState(w, fs, event, initial, pid);
      }
    }
    hide PrivateFits, PublishedFits, Tidy, NeverPartial, Step, Enabled;
  }

  ghost predicate Possible(w: World, fs: FileSystem, run: seq<Event>)
    decreases |run|
  {
    run == [] || (Enabled(w, run[0]) && Possible(Step(w, fs, run[0]), fs, run[1..]))
  }

  ghost function After(w: World, fs: FileSystem, run: seq<Event>): World
    requires Possible(w, fs, run)
    decreases |run|
  {
    if run == [] then w else After(Step(w, fs, run[0]), fs, run[1..])
  }

  lemma {:induction false} RunKeeps(w: World, fs: FileSystem, run: seq<Event>, initial: Option<string>)
    requires Inv(w, fs, initial) && Possible(w, fs, run)
    ensures Inv(After(w, fs, run), fs, initial)
    decreases |run|
  {
    if run != [] {
      hide Inv, Step, Enabled;
      StepKeeps(w, fs, run[0], initial);
      RunKeeps(Step(w, fs, run[0]), fs, run[1..], initial);
    }
  }

  function Fresh(initial: Option<string>): World {
    World(initial, map[], map[], {})
  }

  /** Where processes stand when there was a file from the start: nobody ever creates one. */
  ghost predicate OnlyReads(w: World, initial: Option<string>) {
    && initial.Some? && w.published == initial
    && forall pid <- w.processes ::
         var process := w.processes[pid];
         process.Loading? || process.Failed? || process.Crashed? || (process.Returned? && Parse(initial.value) == Some(process.id))
  }

  lemma StepOnlyReads(w: World, fs: FileSystem, event: Event, initial: Option<string>)
    requires OnlyReads(w, initial) && Enabled(w, event)
    ensures OnlyReads(Step(w, fs, event), initial)
  {
    assert event.Starts? || event.Loads? || event.Errs? || event.Crashes?;
  }

  lemma {:induction false} RunOnlyReads(w: World, fs: FileSystem, run: seq<Event>, initial: Option<string>)
    requires OnlyReads(w, initial) && Possible(w, fs, run)
    ensures OnlyReads(After(w, fs, run), initial)
    decreases |run|
  {
    if run != [] {
      hide OnlyReads, Step, Enabled;
      StepOnlyReads(w, fs, run[0], initial);
      RunOnlyReads(Step(w, fs, run[0]), fs, run[1..], initial);
    }
  }

  /** Publishing cannot replace a file, or there was one from the start. */
  predicate Agreeable(fs: FileSystem, initial: Option<string>) {
    fs != PlainRename || initial.Some?
  }

  /**
   * In every run of any number of processes, with errors and crashes anywhere, all processes that
   * return an id return the same one, it is the id in the file, and the file is never partial.
   */
  lemma OneDeviceId(fs: FileSystem, initial: Option<string>, run: seq<Event>, p: nat, q: nat)
    requires Possible(Fresh(initial), fs, run)
    ensures var w := After(Fresh(initial), fs, run);
      && NeverPartial(w.published, initial) && Tidy(w)
      && (Agreeable(fs, initial) && p in w.processes && w.processes[p].Returned? ==>
            && w.published.Some? && Parse(w.published.value) == Some(w.processes[p].id)
            && (initial.Some? ==> w.published == initial)
            && (q in w.processes && w.processes[q].Returned? ==> w.processes[q].id == w.processes[p].id))
  {
    RunKeeps(Fresh(initial), fs, run, initial);
    var w := After(Fresh(initial), fs, run);
    if initial.Some? {
      RunOnlyReads(Fresh(initial), fs, run, initial);
    }
    hide After, Possible;
    if p in w.processes {
      assert PublishedFits(w.processes[p], fs, w.published);
    }
    if q in w.processes {
      assert PublishedFits(w.processes[q], fs, w.published);
    }
  }

  // ---------------------------------------------------------------- where agreement ends

  /** The steps of one process that found no id file, up to its last check before publishing. */
  function UpToCheck(pid: nat, id: string): seq<Event> {
    [Starts(pid), Loads(pid, id), Opens(pid), Writes(pid, |Text(id)|), Syncs(pid), Publishes(pid)]
  }

  /** Such a process, standing right before its rename. */
  function AtCheck(w: World, pid: nat, id: string): World {
    World(None, w.private[pid := Text(id)], w.processes[pid := Checked(id)], w.littered)
  }

  lemma ReachesWriting(w: World, pid: nat, id: string, rest: seq<Event>)
    requires w.published.None? && pid !in w.processes && pid !in w.private && IsIdFormat(id)
    requires Possible(With(w.(private := w.private[pid := ""]), pid, Writing(id)), PlainRename, rest)
    ensures var writing := With(w.(private := w.private[pid := ""]), pid, Writing(id));
      var run := [Starts(pid)] + ([Loads(pid, id)] + ([Opens(pid)] + rest));
      Possible(w, PlainRename, run) && After(w, PlainRename, run) == After(writing, PlainRename, rest)
  {
    hide Possible, After, Parse;
    OneMore(With(w, pid, Creating(id)), Opens(pid), rest, With(w.(private := w.private[pid := ""]), pid, Writing(id)));
    OneMore(With(w, pid, Loading), Loads(pid, id), [Opens(pid)] + rest, With(w, pid, Creating(id)));
    OneMore(w, Starts(pid), [Loads(pid, id)] + ([Opens(pid)] + rest), With(w, pid, Loading));
  }

  lemma ReachesCheck(w: World, pid: nat, id: string, rest: seq<Event>)
    requires w.published.None? && pid !in w.processes && pid !in w.private && IsIdFormat(id)
    requires Possible(AtCheck(w, pid, id), PlainRename, rest)
    ensures Possible(w, PlainRename, UpToCheck(pid, id) + rest)
    ensures After(w, PlainRename, UpToCheck(pid, id) + rest) == After(AtCheck(w, pid, id), PlainRename, rest)
  {
    hide Possible, After, Parse;
    var writing := With(w.(private := w.private[pid := ""]), pid, Writing(id));
    var written := With(w.(private := w.private[pid := Text(id)]), pid, Writing(id));
    var publishing := With(w.(private := w.private[pid := Text(id)]), pid, Publishing(id));
    assert Text(id)[..|Text(id)|] == Text(id) && writing.private[pid := Text(id)] == written.private;
    OneMore(publishing, Publishes(pid), rest, AtCheck(w, pid, id));
    OneMore(written, Syncs(pid), [Publishes(pid)] + rest, publishing);
    OneMore(writing, Writes(pid, |Text(id)|), [Syncs(pid)] + ([Publishes(pid)] + rest), written);
    var writes := [Writes(pid, |Text(id)|)] + ([Syncs(pid)] + ([Publishes(pid)] + rest));
    ReachesWriting(w, pid, id, writes);
    assert UpToCheck(pid, id) + rest == [Starts(pid)] + ([Loads(pid, id)] + ([Opens(pid)] + writes));
  }

  lemma OneMore(w: World, event: Event, rest: seq<Event>, after: World)
    requires Enabled(w, event) && Step(w, PlainRename, event) == after && Possible(after, PlainRename, rest)
    ensures Possible(w, PlainRename, [event] + rest)
    ensures After(w, PlainRename, [event] + rest) == After(after, PlainRename, rest)
  {
    assert ([event] + rest)[0] == event && ([event] + rest)[1..] == rest;
  }

  /** With plain renames only, two processes that both saw no file can return different ids. */
  lemma PlainRenamesCanDisagree(a: string, b: string)
    requires IsIdFormat(a) && IsIdFormat(b)
    ensures var run := UpToCheck(1, a) + (UpToCheck(2, b) + [Publishes(1), Publishes(2)]);
      && Possible(Fresh(None), PlainRename, run)
      && var w := After(Fresh(None), PlainRename, run);
         1 in w.processes && 2 in w.processes && w.processes[1] == Returned(a) && w.processes[2] == Returned(b)
  {
    var first := AtCheck(Fresh(None), 1, a);
    var both := AtCheck(first, 2, b);
    var one := Step(both, PlainRename, Publishes(1));
    var two := Step(one, PlainRename, Publishes(2));
    assert Possible(two, PlainRename, []);
    OneMore(one, Publishes(2), [], two);
    OneMore(both, Publishes(1), [Publishes(2)] + [], one);
    assert [Publishes(1)] + ([Publishes(2)] + []) == [Publishes(1), Publishes(2)];
    ReachesCheck(first, 2, b, [Publishes(1), Publishes(2)]);
    ReachesCheck(Fresh(None), 1, a, UpToCheck(2, b) + [Publishes(1), Publishes(2)]);
  }

  ghost predicate Agree(w: World) {
    forall p, q :: p in w.processes && q in w.processes && w.processes[p].Returned? && w.processes[q].Returned? ==>
      w.processes[p].id == w.processes[q].id
  }

  /** All processes agree in every run if and only if publishing cannot replace a file or there was one from the start. */
  lemma AllRunsAgreeExactlyIf(fs: FileSystem, initial: Option<string>)
    ensures (forall run :: Possible(Fresh(initial), fs, run) ==> Agree(After(Fresh(initial), fs, run)))
      <==> Agreeable(fs, initial)
  {
    if Agreeable(fs, initial) {
      forall run | Possible(Fresh(initial), fs, run)
        ensures Agree(After(Fresh(initial), fs, run))
      {
        var w := After(Fresh(initial), fs, run);
        forall p, q | p in w.processes && q in w.processes && w.processes[p].Returned? && w.processes[q].Returned?
          ensures w.processes[p].id == w.processes[q].id
        {
          OneDeviceId(fs, initial, run, p, q);
        }
      }
    } else {
      var a, b := PREFIX + seq(RANDOM_LENGTH, _ => 'a'), PREFIX + seq(RANDOM_LENGTH, _ => 'b');
      assert a[|PREFIX|] != b[|PREFIX|];
      PlainRenamesCanDisagree(a, b);
      hide Possible, After, UpToCheck;
      var run := UpToCheck(1, a) + (UpToCheck(2, b) + [Publishes(1), Publishes(2)]);
      assert !Agree(After(Fresh(None), PlainRename, run));
    }
  }
}

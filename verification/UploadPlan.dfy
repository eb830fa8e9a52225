/** From what the user picked, dropped or pasted to the batch the upload queue gets. */
module UploadPlan {
  import opened Common
  import opened FileNames
  import opened UploadPaths
  import opened DestinationPlan
  import Queue = UploadScheduler
  import UploadRuns

  /** `handle` stands for the browser's file object. */
  datatype SourceFile = SourceFile(handle: nat, relativePath: string)

  /** A top-level name of the upload with all its files and directories. */
  datatype Draft = Draft(item: Item, files: seq<SourceFile>, directories: seq<string>)

  datatype UploadChoice = UploadChoice(choice: Choice, encrypt: bool)

  datatype UploadRow = UploadRow(row: Row, draft: Draft, encrypt: bool)

  datatype Resolved = Resolved(files: seq<Queue.File>, directories: seq<string>, replacedDirectoryNames: seq<string>)

  const VAULT_SUFFIX := ".redoorencrypted"

  // ---------------------------------------------------------------- grouping

  /** One normalized path of a source: a file, or a directory to create even when empty. */
  datatype Entry = FileAt(file: SourceFile) | DirectoryAt(relativePath: string)

  function EntryPath(entry: Entry): string {
    match entry
    case FileAt(file) => file.relativePath
    case DirectoryAt(path) => path
  }

  function EntryName(entry: Entry): string {
    TopName(EntryPath(entry))
  }

  function EntryNames(entries: seq<Entry>): (names: seq<string>)
    ensures |names| == |entries|
  {
    seq(|entries|, i requires 0 <= i < |entries| => EntryName(entries[i]))
  }

  /** The items' names in the order they first appear. */
  function ItemNames(entries: seq<Entry>): (names: seq<string>)
  {
    Distinct(EntryNames(entries))
  }

  function FilesUnder(entries: seq<Entry>, name: string): seq<SourceFile> {
    if entries == [] then []
    else
      var front, last := FilesUnder(entries[..|entries| - 1], name), entries[|entries| - 1];
      if last.FileAt? && EntryName(last) == name then front + [last.file] else front
  }

  function DirectoriesUnder(entries: seq<Entry>, name: string): seq<string> {
    if entries == [] then []
    else
      var front, last := DirectoriesUnder(entries[..|entries| - 1], name), entries[|entries| - 1];
      if last.DirectoryAt? && EntryName(last) == name then front + [last.relativePath] else front
  }

  /** Whether some path shows that the item of this name is a directory. */
  predicate HoldsPaths(entries: seq<Entry>, name: string) {
    exists i :: 0 <= i < |entries| && EntryName(entries[i]) == name
      && (entries[i].DirectoryAt? || Rest(EntryPath(entries[i])).Some?)
  }

  function DraftOf(entries: seq<Entry>, name: string, key: nat, generated: bool): (draft: Draft)
    ensures draft.item.name == name && draft.item.key == key
  {
    Draft(Item(key, name, if HoldsPaths(entries, name) then DirectoryEntry else FileEntry, generated, false),
          FilesUnder(entries, name), DirectoriesUnder(entries, name))
  }

  /** One draft per top-level name, in the order the names first appear. */
  function Drafts(entries: seq<Entry>, nextKey: nat, generated: bool): (drafts: seq<Draft>)
    ensures |drafts| == |ItemNames(entries)|
  {
    var names := ItemNames(entries);
    seq(|names|, i requires 0 <= i < |names| => DraftOf(entries, names[i], nextKey + i, generated))
  }

  /** The normalized paths of a source, or `None` when one of them would leave the destination. */
  function NormalizedFiles(files: seq<SourceFile>): Option<seq<Entry>> {
    if files == [] then Some([])
    else
      var front, path := NormalizedFiles(files[..|files| - 1]), Normalize(files[|files| - 1].relativePath);
      if front.Some? && path.Some? then Some(front.value + [FileAt(SourceFile(files[|files| - 1].handle, path.value))]) else None
  }

  function NormalizedDirectories(directories: seq<string>): Option<seq<Entry>> {
    if directories == [] then Some([])
    else
      var front := NormalizedDirectories(directories[..|directories| - 1]);
      var path := Normalize(directories[|directories| - 1]);
      if front.Some? && path.Some? then Some(front.value + [DirectoryAt(path.value)]) else None
  }

  function SourceEntries(files: seq<SourceFile>, directories: seq<string>): Option<seq<Entry>> {
    var f, d := NormalizedFiles(files), NormalizedDirectories(directories);
    if f.Some? && d.Some? then Some(f.value + d.value) else None
  }

  /** Where the draft of a name is, or the end. */
  function Find(drafts: seq<Draft>, name: string): (k: nat)
    ensures k <= |drafts| && (k < |drafts| ==> drafts[k].item.name == name)
    ensures forall i :: 0 <= i < k ==> drafts[i].item.name != name
  {
    if drafts == [] || drafts[0].item.name == name then 0 else 1 + Find(drafts[1..], name)
  }

  lemma EntryAdded(entries: seq<Entry>, entry: Entry, name: string)
    ensures var more := entries + [entry];
      && EntryNames(more) == EntryNames(entries) + [EntryName(entry)]
      && FilesUnder(more, name) ==
         FilesUnder(entries, name) + (if entry.FileAt? && EntryName(entry) == name then [entry.file] else [])
      && DirectoriesUnder(more, name) ==
         DirectoriesUnder(entries, name) + (if entry.DirectoryAt? && EntryName(entry) == name then [entry.relativePath] else [])
      && (HoldsPaths(more, name) <==>
            || HoldsPaths(entries, name)
            || (EntryName(entry) == name && (entry.DirectoryAt? || Rest(EntryPath(entry)).Some?)))
  {
    var more := entries + [entry];
    assert more[..|entries|] == entries;
    if HoldsPaths(entries, name) {
      var i :| 0 <= i < |entries| && EntryName(entries[i]) == name
        && (entries[i].DirectoryAt? || Rest(EntryPath(entries[i])).Some?);
      assert more[i] == entries[i];
    }
    if EntryName(entry) == name && (entry.DirectoryAt? || Rest(EntryPath(entry)).Some?) {
      assert more[|entries|] == entry;
    }
  }

  lemma NamesAdded(entries: seq<Entry>, entry: Entry)
    ensures var names, name := ItemNames(entries), EntryName(entry);
      ItemNames(entries + [entry]) == if name in names then names else names + [name]
  {
    var before := EntryNames(entries);
    EntryAdded(entries, entry, "");
    assert (before + [EntryName(entry)])[..|before|] == before;
  }

  lemma {:induction false} UnknownNameIsEmpty(entries: seq<Entry>, name: string)
    requires name !in EntryNames(entries)
    ensures FilesUnder(entries, name) == [] && DirectoriesUnder(entries, name) == [] && !HoldsPaths(entries, name)
  {
    assert forall i :: 0 <= i < |entries| ==> EntryNames(entries)[i] == EntryName(entries[i]);
    if entries != [] {
      var front := entries[..|entries| - 1];
      assert forall i :: 0 <= i < |front| ==> EntryNames(front)[i] == EntryNames(entries)[i];
      UnknownNameIsEmpty(front, name);
    }
  }

  /** What the loops push onto an item. */
  function WithEntry(draft: Draft, entry: Entry): Draft {
    match entry
    case FileAt(file) =>
      draft.(files := draft.files + [file],
             item := if Rest(file.relativePath).Some? then draft.item.(entryType := DirectoryEntry) else draft.item)
    case DirectoryAt(path) =>
      draft.(directories := draft.directories + [path], item := draft.item.(entryType := DirectoryEntry))
  }

  function EmptyDraft(name: string, key: nat, generated: bool): Draft {
    Draft(Item(key, name, FileEntry, generated, false), [], [])
  }

  lemma DraftGrows(entries: seq<Entry>, entry: Entry, name: string, key: nat, generated: bool)
    ensures DraftOf(entries + [entry], name, key, generated) ==
      if EntryName(entry) == name then WithEntry(DraftOf(entries, name, key, generated), entry)
      else DraftOf(entries, name, key, generated)
    ensures name !in EntryNames(entries) ==> DraftOf(entries, name, key, generated) == EmptyDraft(name, key, generated)
  {
    EntryAdded(entries, entry, name);
    if name !in EntryNames(entries) {
      UnknownNameIsEmpty(entries, name);
    }
    hide HoldsPaths, FilesUnder, DirectoriesUnder;
  }

  /** A new name comes last; a known one changes no place. */
  lemma NamePlaces(entries: seq<Entry>, entry: Entry)
    ensures var names, names', name := ItemNames(entries), ItemNames(entries + [entry]), EntryName(entry);
      && |names'| == |names| + (if name in EntryNames(entries) then 0 else 1)
      && (name !in EntryNames(entries) ==> names'[|names|] == name)
      && (forall i :: 0 <= i < |names| ==> names'[i] == names[i])
  {
    NamesAdded(entries, entry);
    DistinctIs(EntryNames(entries));
  }

  lemma DraftsGrow(entries: seq<Entry>, entry: Entry, nextKey: nat, generated: bool)
    ensures var drafts, name := Drafts(entries, nextKey, generated), EntryName(entry);
      var more := Drafts(entries + [entry], nextKey, generated);
      && |more| == |drafts| + (if name in EntryNames(entries) then 0 else 1)
      && (forall i :: 0 <= i < |drafts| ==>
            more[i] == if drafts[i].item.name == name then WithEntry(drafts[i], entry) else drafts[i])
      && (name !in EntryNames(entries) ==> more[|drafts|] == WithEntry(EmptyDraft(name, nextKey + |drafts|, generated), entry))
  {
    var drafts, more := Drafts(entries, nextKey, generated), Drafts(entries + [entry], nextKey, generated);
    var names, name := ItemNames(entries), EntryName(entry);
    NamePlaces(entries, entry);
    hide EntryNames, ItemNames, WithEntry, EmptyDraft, DraftOf, EntryName;
    forall i | 0 <= i < |drafts|
      ensures more[i] == if drafts[i].item.name == name then WithEntry(drafts[i], entry) else drafts[i]
    {
      DraftGrows(entries, entry, names[i], nextKey + i, generated);
    }
    DraftGrows(entries, entry, name, nextKey + |drafts|, generated);
  }

  lemma DistinctNames(entries: seq<Entry>)
    ensures forall i, j :: 0 <= i < j < |ItemNames(entries)| ==> ItemNames(entries)[i] != ItemNames(entries)[j]
    ensures forall i :: 0 <= i < |ItemNames(entries)| ==> ItemNames(entries)[i] in EntryNames(entries)
    ensures forall name :: name in ItemNames(entries) <==> name in EntryNames(entries)
  {
    DistinctIs(EntryNames(entries));
    assert forall i :: 0 <= i < |ItemNames(entries)| ==> ItemNames(entries)[i] in ItemNames(entries);
  }

  lemma NamesOfDrafts(entries: seq<Entry>, nextKey: nat, generated: bool, name: string)
    ensures var drafts := Drafts(entries, nextKey, generated);
      && (Find(drafts, name) < |drafts| <==> name in EntryNames(entries))
      && (forall i :: 0 <= i < |drafts| && i != Find(drafts, name) ==> drafts[i].item.name != name)
  {
    var names, drafts := ItemNames(entries), Drafts(entries, nextKey, generated);
    DistinctNames(entries);
    hide EntryNames, ItemNames, FilesUnder, DirectoriesUnder, HoldsPaths;
    assert forall i :: 0 <= i < |drafts| ==> drafts[i].item.name == names[i];
    if name in EntryNames(entries) {
      var k :| 0 <= k < |names| && names[k] == name;
      assert drafts[k].item.name == name;
    }
  }

  datatype Source = Source(files: seq<SourceFile>, directories: seq<string>, hasGeneratedName: bool)

  /**
   * Groups a source into the items it creates, or throws for a path that would leave the
   * destination. `nextKey` is the module's key counter.
   */
  method CreateUploadItems(source: Source, nextKey: nat) returns (items: Option<seq<Draft>>, keys: nat)
    ensures items ==
      var entries := SourceEntries(source.files, source.directories);
      if entries.None? then None else Some(Drafts(entries.value, nextKey, source.hasGeneratedName))
    ensures items.Some? ==> keys == nextKey + |items.value|
  {
    var drafts: seq<Draft> := [];
    ghost var entries: seq<Entry> := [];
    keys := nextKey;
    NoDrafts(nextKey, source.hasGeneratedName);
    hide NormalizedFiles, NormalizedDirectories, Drafts, Normalize, SourceEntries;
    for i := 0 to |source.files|
      invariant NormalizedFiles(source.files[..i]) == Some(entries)
      invariant drafts == Drafts(entries, nextKey, source.hasGeneratedName) && keys == nextKey + |drafts|
    {
      var path := Normalize(source.files[i].relativePath);
      FilesMore(source.files, i);
      if path.None? {
        NormalizedFilesFail(source.files, i + 1);
        BadSource(source.files, source.directories);
        return None, keys;
      }
      var entry := FileAt(SourceFile(source.files[i].handle, path.value));
      drafts, keys := Push(drafts, keys, source.hasGeneratedName, entry, entries, nextKey);
      entries := entries + [entry];
    }
    assert source.files[..|source.files|] == source.files;
    ghost var files := entries;
    ghost var directories: seq<Entry> := [];
    assert files + directories == files;
    for i := 0 to |source.directories|
      invariant NormalizedDirectories(source.directories[..i]) == Some(directories)
      invariant drafts == Drafts(files + directories, nextKey, source.hasGeneratedName) && keys == nextKey + |drafts|
    {
      var path := Normalize(source.directories[i]);
      DirectoriesMore(source.directories, i);
      if path.None? {
        NormalizedDirectoriesFail(source.directories, i + 1);
        BadSource(source.files, source.directories);
        return None, keys;
      }
      var entry := DirectoryAt(path.value);
      drafts, keys := Push(drafts, keys, source.hasGeneratedName, entry, files + directories, nextKey);
      ConcatAssoc(files, directories, [entry]);
      directories := directories + [entry];
    }
    assert source.directories[..|source.directories|] == source.directories;
    GoodSource(source.files, source.directories);
    items := Some(drafts);
  }

  lemma NoDrafts(nextKey: nat, generated: bool)
    ensures NormalizedFiles([]) == Some([]) && NormalizedDirectories([]) == Some([]) && Drafts([], nextKey, generated) == []
  {
    assert EntryNames([]) == [];
  }

  lemma FilesMore(files: seq<SourceFile>, i: nat)
    requires i < |files|
    ensures var front, path := NormalizedFiles(files[..i]), Normalize(files[i].relativePath);
      NormalizedFiles(files[..i + 1]) ==
        if front.Some? && path.Some? then Some(front.value + [FileAt(SourceFile(files[i].handle, path.value))]) else None
  {
    assert files[..i + 1][..i] == files[..i];
  }

  lemma DirectoriesMore(directories: seq<string>, i: nat)
    requires i < |directories|
    ensures var front, path := NormalizedDirectories(directories[..i]), Normalize(directories[i]);
      NormalizedDirectories(directories[..i + 1]) ==
        if front.Some? && path.Some? then Some(front.value + [DirectoryAt(path.value)]) else None
  {
    assert directories[..i + 1][..i] == directories[..i];
  }

  lemma BadSource(files: seq<SourceFile>, directories: seq<string>)
    requires NormalizedFiles(files).None? || NormalizedDirectories(directories).None?
    ensures SourceEntries(files, directories) == None
  {
  }

  lemma GoodSource(files: seq<SourceFile>, directories: seq<string>)
    requires NormalizedFiles(files).Some? && NormalizedDirectories(directories).Some?
    ensures SourceEntries(files, directories) == Some(NormalizedFiles(files).value + NormalizedDirectories(directories).value)
  {
  }

  /** One turn of either loop: from the drafts of the entries so far to those with one entry more. */
  method Push(drafts: seq<Draft>, keys: nat, generated: bool, entry: Entry, ghost entries: seq<Entry>, ghost nextKey: nat)
    returns (pushed: seq<Draft>, keys': nat)
    requires drafts == Drafts(entries, nextKey, generated) && keys == nextKey + |drafts|
    ensures pushed == Drafts(entries + [entry], nextKey, generated) && keys' == nextKey + |pushed|
  {
    var name := EntryName(entry);
    NamesOfDrafts(entries, nextKey, generated, name);
    DraftsGrow(entries, entry, nextKey, generated);
    hide Drafts, WithEntry, EmptyDraft, EntryNames, EntryName;
    keys' := keys;
    pushed := drafts;
    var k := Find(drafts, name);
    if k == |drafts| {
      pushed := pushed + [EmptyDraft(name, keys, generated)];
      keys' := keys + 1;
    }
    pushed := pushed[k := WithEntry(pushed[k], entry)];
  }

  lemma {:induction false} NormalizedFilesFail(files: seq<SourceFile>, n: nat)
    requires n <= |files| && NormalizedFiles(files[..n]).None?
    ensures NormalizedFiles(files).None?
    decreases |files| - n
  {
    if n < |files| {
      assert files[..n + 1][..n] == files[..n];
      NormalizedFilesFail(files, n + 1);
    } else {
      assert files[..n] == files;
    }
  }

  lemma {:induction false} NormalizedDirectoriesFail(directories: seq<string>, n: nat)
    requires n <= |directories| && NormalizedDirectories(directories[..n]).None?
    ensures NormalizedDirectories(directories).None?
    decreases |directories| - n
  {
    if n < |directories| {
      assert directories[..n + 1][..n] == directories[..n];
      NormalizedDirectoriesFail(directories, n + 1);
    } else {
      assert directories[..n] == directories;
    }
  }

  // ---------------------------------------------------------------- what the items hold

  function CountFiles(drafts: seq<Draft>): nat {
    if drafts == [] then 0 else CountFiles(drafts[..|drafts| - 1]) + |drafts[|drafts| - 1].files|
  }

  /** Every path of the item starts with its name and stays below it; a file item holds plain files of that name. */
  ghost predicate FitsItem(draft: Draft) {
    && PlainComponent(draft.item.name) && '\\' !in draft.item.name
    && (forall f <- draft.files :: TopName(f.relativePath) == draft.item.name && Contained(f.relativePath))
    && (forall d <- draft.directories :: TopName(d) == draft.item.name && Contained(d))
    && (draft.item.entryType == FileEntry ==>
          draft.directories == [] && forall f <- draft.files :: f.relativePath == draft.item.name)
  }

  ghost predicate ContainedEntries(entries: seq<Entry>) {
    forall i :: 0 <= i < |entries| ==> Contained(EntryPath(entries[i]))
  }

  lemma {:induction false} NormalizedFilesContained(files: seq<SourceFile>)
    requires NormalizedFiles(files).Some?
    ensures var entries := NormalizedFiles(files).value;
      ContainedEntries(entries) && |entries| == |files| && forall i :: 0 <= i < |entries| ==> entries[i].FileAt?
  {
    if files != [] {
      NormalizedFilesContained(files[..|files| - 1]);
      NormalizedIsContained(files[|files| - 1].relativePath);
    }
  }

  lemma {:induction false} NormalizedDirectoriesContained(directories: seq<string>)
    requires NormalizedDirectories(directories).Some?
    ensures var entries := NormalizedDirectories(directories).value;
      ContainedEntries(entries) && |entries| == |directories| && forall i :: 0 <= i < |entries| ==> entries[i].DirectoryAt?
  {
    if directories != [] {
      NormalizedDirectoriesContained(directories[..|directories| - 1]);
      NormalizedIsContained(directories[|directories| - 1]);
    }
  }

  lemma {:induction false} UnderFit(entries: seq<Entry>, name: string)
    ensures forall f :: f in FilesUnder(entries, name) <==> FileAt(f) in entries && TopName(f.relativePath) == name
    ensures forall d :: d in DirectoriesUnder(entries, name) <==> DirectoryAt(d) in entries && TopName(d) == name
  {
    if entries != [] {
      UnderFit(entries[..|entries| - 1], name);
      assert entries == entries[..|entries| - 1] + [entries[|entries| - 1]];
    }
  }

  lemma TopNamePlain(path: string)
    requires Contained(path)
    ensures PlainComponent(TopName(path)) && '\\' !in TopName(path)
    ensures Rest(path).Some? ==> Contained(Rest(path).value)
    ensures Rest(path).Some? ==> Split(path, SLASH) == [TopName(path)] + Split(Rest(path).value, SLASH)
  {
    TopNameAndRest(path);
    var name := TopName(path);
    SplitFree(name, SLASH);
    match Rest(path)
    case None =>
      assert Split(path, SLASH)[0] == name;
    case Some(rest) =>
      SplitAt(name, rest, SLASH);
      var pieces := Split(path, SLASH);
      assert pieces[0] == name;
      assert forall i :: 0 <= i < |Split(rest, SLASH)| ==> Split(rest, SLASH)[i] == pieces[i + 1];
      assert forall c <- rest :: c in path;
  }

  /** An item nothing leads below is a file, and its paths are just its name. */
  lemma FileItems(entries: seq<Entry>, name: string, i: nat)
    requires i < |entries| && EntryName(entries[i]) == name && !HoldsPaths(entries, name)
    ensures entries[i].FileAt? && EntryPath(entries[i]) == name
  {
    TopNameAndRest(EntryPath(entries[i]));
  }

  lemma DraftFits(entries: seq<Entry>, name: string, key: nat, generated: bool)
    requires ContainedEntries(entries) && name in EntryNames(entries)
    ensures FitsItem(DraftOf(entries, name, key, generated))
  {
    UnderFit(entries, name);
    var i :| 0 <= i < |entries| && EntryNames(entries)[i] == name;
    assert Contained(EntryPath(entries[i]));
    TopNamePlain(EntryPath(entries[i]));
    var draft := DraftOf(entries, name, key, generated);
    hide Contained, PlainComponent, FilesUnder, DirectoriesUnder, EntryNames;
    forall f <- draft.files
      ensures TopName(f.relativePath) == name && Contained(f.relativePath)
      ensures draft.item.entryType == FileEntry ==> f.relativePath == name
    {
      var k :| 0 <= k < |entries| && entries[k] == FileAt(f);
      assert Contained(EntryPath(entries[k])) && EntryName(entries[k]) == name;
      if draft.item.entryType == FileEntry {
        FileItems(entries, name, k);
      }
    }
    forall d <- draft.directories
      ensures TopName(d) == name && Contained(d) && HoldsPaths(entries, name)
    {
      var k :| 0 <= k < |entries| && entries[k] == DirectoryAt(d);
      assert Contained(EntryPath(entries[k])) && EntryName(entries[k]) == name;
    }
    hide HoldsPaths;
    if draft.directories != [] {
      assert draft.directories[0] in draft.directories;
    }
  }

  function FileEntries(entries: seq<Entry>): nat {
    if entries == [] then 0
    else FileEntries(entries[..|entries| - 1]) + if entries[|entries| - 1].FileAt? then 1 else 0
  }

  /** The files under the first `n` of some names. */
  function CountUnder(entries: seq<Entry>, names: seq<string>): nat {
    if names == [] then 0
    else CountUnder(entries, names[..|names| - 1]) + |FilesUnder(entries, names[|names| - 1])|
  }

  lemma {:induction false} CountUnderMore(entries: seq<Entry>, entry: Entry, names: seq<string>)
    requires forall i, j :: 0 <= i < j < |names| ==> names[i] != names[j]
    ensures CountUnder(entries + [entry], names)
      == CountUnder(entries, names) + if entry.FileAt? && EntryName(entry) in names then 1 else 0
  {
    if names != [] {
      var front, last := names[..|names| - 1], names[|names| - 1];
      CountUnderMore(entries, entry, front);
      EntryAdded(entries, entry, last);
      assert names == front + [last];
    }
  }

  lemma NewNameCounts(entries: seq<Entry>, entry: Entry)
    ensures CountUnder(entries + [entry], ItemNames(entries + [entry]))
      == CountUnder(entries, ItemNames(entries)) + if entry.FileAt? then 1 else 0
  {
    var names, name := ItemNames(entries), EntryName(entry);
    DistinctNames(entries);
    CountUnderMore(entries, entry, names);
    NamesAdded(entries, entry);
    if name !in names {
      UnknownNameIsEmpty(entries, name);
      EntryAdded(entries, entry, name);
      assert (names + [name])[..|names|] == names;
    }
  }

  lemma {:induction false} CountUnderAll(entries: seq<Entry>)
    ensures CountUnder(entries, ItemNames(entries)) == FileEntries(entries)
  {
    if entries != [] {
      var front, last := entries[..|entries| - 1], entries[|entries| - 1];
      assert entries == front + [last];
      CountUnderAll(front);
      hide CountUnder, ItemNames;
      NewNameCounts(front, last);
    }
  }

  lemma {:induction false} CountDrafts(entries: seq<Entry>, names: seq<string>, drafts: seq<Draft>)
    requires |names| == |drafts| && forall i :: 0 <= i < |names| ==> drafts[i].files == FilesUnder(entries, names[i])
    ensures CountFiles(drafts) == CountUnder(entries, names)
  {
    if names != [] {
      CountDrafts(entries, names[..|names| - 1], drafts[..|drafts| - 1]);
    }
  }

  lemma DraftFiles(entries: seq<Entry>, nextKey: nat, generated: bool)
    ensures var drafts, names := Drafts(entries, nextKey, generated), ItemNames(entries);
      forall i :: 0 <= i < |drafts| ==> drafts[i].files == FilesUnder(entries, names[i]) && !drafts[i].item.isAtDestination
  {
  }

  lemma EntriesContained(files: seq<SourceFile>, directories: seq<string>)
    requires SourceEntries(files, directories).Some?
    ensures var entries := SourceEntries(files, directories).value;
      ContainedEntries(entries) && FileEntries(entries) == |files|
  {
    NormalizedFilesContained(files);
    NormalizedDirectoriesContained(directories);
    hide NormalizedFiles, NormalizedDirectories, Contained;
    OnlyFiles(NormalizedFiles(files).value);
    NoFiles(NormalizedFiles(files).value, NormalizedDirectories(directories).value);
  }

  lemma DraftsFit(entries: seq<Entry>, nextKey: nat, generated: bool)
    requires ContainedEntries(entries)
    ensures var drafts := Drafts(entries, nextKey, generated);
      && (forall i :: 0 <= i < |drafts| ==> FitsItem(drafts[i]))
      && (forall i, j :: 0 <= i < j < |drafts| ==> drafts[i].item.name != drafts[j].item.name)
  {
    var names := ItemNames(entries);
    DistinctNames(entries);
    hide DraftOf, FitsItem, ContainedEntries, ItemNames, EntryNames;
    forall i | 0 <= i < |names|
      ensures FitsItem(DraftOf(entries, names[i], nextKey + i, generated))
    {
      DraftFits(entries, names[i], nextKey + i, generated);
    }
  }

  lemma DraftsCount(entries: seq<Entry>, nextKey: nat, generated: bool)
    ensures CountFiles(Drafts(entries, nextKey, generated)) == FileEntries(entries)
  {
    CountUnderAll(entries);
    DraftFiles(entries, nextKey, generated);
    hide Drafts, ItemNames, EntryNames, FilesUnder;
    CountDrafts(entries, ItemNames(entries), Drafts(entries, nextKey, generated));
  }

  /** Every item is one that some source was grouped into. */
  ghost predicate AllFit(drafts: seq<Draft>) {
    forall i :: 0 <= i < |drafts| ==> FitsItem(drafts[i])
  }

  /** Items with distinct names and fresh keys that hold `fileCount` files, each below the name of its item. */
  ghost predicate Groups(drafts: seq<Draft>, fileCount: nat, nextKey: nat) {
    && CountFiles(drafts) == fileCount
    && (forall i, j :: 0 <= i < j < |drafts| ==> drafts[i].item.name != drafts[j].item.name)
    && AllFit(drafts)
    && (forall i :: 0 <= i < |drafts| ==> !drafts[i].item.isAtDestination && drafts[i].item.key == nextKey + i)
  }

  lemma DraftsGroup(entries: seq<Entry>, nextKey: nat, generated: bool)
    requires ContainedEntries(entries)
    ensures Groups(Drafts(entries, nextKey, generated), FileEntries(entries), nextKey)
  {
    hide ContainedEntries, FitsItem, CountFiles, FileEntries, ItemNames, EntryNames;
    DraftsFit(entries, nextKey, generated);
    DraftsCount(entries, nextKey, generated);
    DraftFiles(entries, nextKey, generated);
  }

  /** Grouping keeps every file of the source, under the item its path starts with. */
  lemma DraftsHoldTheSource(files: seq<SourceFile>, directories: seq<string>, nextKey: nat, generated: bool)
    requires SourceEntries(files, directories).Some?
    ensures Groups(Drafts(SourceEntries(files, directories).value, nextKey, generated), |files|, nextKey)
  {
    EntriesContained(files, directories);
    hide SourceEntries, Groups, ContainedEntries, FileEntries;
    DraftsGroup(SourceEntries(files, directories).value, nextKey, generated);
  }

  lemma {:induction false} OnlyFiles(entries: seq<Entry>)
    requires forall i :: 0 <= i < |entries| ==> entries[i].FileAt?
    ensures FileEntries(entries) == |entries|
  {
    if entries != [] {
      OnlyFiles(entries[..|entries| - 1]);
    }
  }

  lemma {:induction false} NoFiles(entries: seq<Entry>, more: seq<Entry>)
    requires forall i :: 0 <= i < |more| ==> more[i].DirectoryAt?
    ensures FileEntries(entries + more) == FileEntries(entries)
  {
    if more == [] {
      assert entries + more == entries;
    } else {
      NoFiles(entries, more[..|more| - 1]);
      assert (entries + more)[..|entries + more| - 1] == entries + more[..|more| - 1];
    }
  }

  // ---------------------------------------------------------------- planning

  function IsEncrypted(choices: map<nat, UploadChoice>, item: Item): bool {
    item.key in choices && choices[item.key].encrypt
  }

  function NameChoices(choices: map<nat, UploadChoice>): map<nat, Choice> {
    map key | key in choices :: choices[key].choice
  }

  /** What encryption appends to an item's own name: nothing for a directory. */
  function SuffixOf(choices: map<nat, UploadChoice>): Item -> string {
    (item: Item) => if IsEncrypted(choices, item) && item.entryType == FileEntry then VAULT_SUFFIX else ""
  }

  function DraftItems(drafts: seq<Draft>): (items: seq<Item>)
    ensures |items| == |drafts|
  {
    seq(|drafts|, i requires 0 <= i < |drafts| => drafts[i].item)
  }

  ghost function PlanUpload(drafts: seq<Draft>, destination: Option<Names>, choices: map<nat, UploadChoice>)
    : (rows: seq<UploadRow>)
    ensures |rows| == |drafts|
  {
    var rows := Plan(DraftItems(drafts), destination, NameChoices(choices), SuffixOf(choices));
    seq(|drafts|, i requires 0 <= i < |drafts| => UploadRow(rows[i], drafts[i], IsEncrypted(choices, drafts[i].item)))
  }

  method PlanUploadRows(drafts: seq<Draft>, destination: Option<Names>, choices: map<nat, UploadChoice>)
    returns (planned: seq<UploadRow>)
    ensures planned == PlanUpload(drafts, destination, choices)
  {
    var rows := PlanDestinationNames(DraftItems(drafts), destination, NameChoices(choices), SuffixOf(choices));
    planned := seq(|drafts|, i requires 0 <= i < |drafts| && |rows| == |drafts| =>
      UploadRow(rows[i], drafts[i], IsEncrypted(choices, drafts[i].item)));
  }

  // ---------------------------------------------------------------- resolving

  /** Where a path of the item ends up: the row's final name takes the place of the item's name. */
  function Renamed(row: UploadRow, path: string, suffix: string): string {
    match Rest(path)
    case None => row.row.finalName
    case Some(rest) => row.row.finalName + [SLASH] + (rest + suffix)
  }

  function FileSuffix(row: UploadRow): string {
    if row.encrypt then VAULT_SUFFIX else ""
  }

  function RenamedFile(row: UploadRow, path: string): string {
    Renamed(row, path, FileSuffix(row))
  }

  function RowFiles(row: UploadRow): (files: seq<Queue.File>)
    ensures |files| == |row.draft.files|
  {
    seq(|row.draft.files|, i requires 0 <= i < |row.draft.files| =>
      Queue.File(row.draft.files[i].handle, RenamedFile(row, row.draft.files[i].relativePath), row.row.onExisting, row.encrypt))
  }

  function RowDirectories(row: UploadRow): (paths: seq<string>)
    ensures |paths| == |row.draft.directories|
  {
    seq(|row.draft.directories|, i requires 0 <= i < |row.draft.directories| => Renamed(row, row.draft.directories[i], ""))
  }

  predicate ReplacesDirectory(row: UploadRow) {
    row.row.conflict.Some? && row.row.resolution == Override && row.draft.item.entryType == DirectoryEntry
  }

  function Resolution(rows: seq<UploadRow>): Resolved {
    if rows == [] then Resolved([], [], [])
    else
      var front, row := Resolution(rows[..|rows| - 1]), rows[|rows| - 1];
      Resolved(front.files + RowFiles(row), front.directories + RowDirectories(row),
               front.replacedDirectoryNames + if ReplacesDirectory(row) then [row.row.finalName] else [])
  }

  /** The batch files and directories of one row. */
  method ResolveRow(row: UploadRow) returns (files: seq<Queue.File>, directories: seq<string>)
    ensures files == RowFiles(row) && directories == RowDirectories(row)
  {
    files, directories := [], [];
    for k := 0 to |row.draft.files|
      invariant files == RowFiles(row)[..k]
    {
      var file := row.draft.files[k];
      var path := RenamedFile(row, file.relativePath);
      files := files + [Queue.File(file.handle, path, row.row.onExisting, row.encrypt)];
    }
    for k := 0 to |row.draft.directories|
      invariant directories == RowDirectories(row)[..k]
    {
      directories := directories + [Renamed(row, row.draft.directories[k], "")];
    }
  }

  method ResolveUpload(rows: seq<UploadRow>) returns (resolved: Resolved)
    ensures resolved == Resolution(rows)
  {
    var files: seq<Queue.File> := [];
    var directories: seq<string> := [];
    var replaced: seq<string> := [];
    for i := 0 to |rows|
      invariant Resolved(files, directories, replaced) == Resolution(rows[..i])
    {
      var rowFiles, rowDirectories := ResolveRow(rows[i]);
      files, directories := files + rowFiles, directories + rowDirectories;
      if ReplacesDirectory(rows[i]) {
        replaced := replaced + [rows[i].row.finalName];
      }
      assert rows[..i + 1][..i] == rows[..i];
    }
    assert rows[..|rows|] == rows;
    resolved := Resolved(files, directories, replaced);
  }

  // ---------------------------------------------------------------- no two paths meet

  /** A final name is a plain component, whatever its suffix. */
  lemma FinalNamePlain(name: string, suffix: string)
    requires PlainComponent(name) && (suffix == "" || suffix == VAULT_SUFFIX)
    ensures PlainComponent(name + suffix)
  {
    if suffix == "" {
      assert name + suffix == name;
    } else {
      assert |name + suffix| > 2;
      assert SLASH !in VAULT_SUFFIX;
    }
  }

  /** Distinct final names that are plain components, over items that fit their names. */
  ghost predicate SafePlan(rows: seq<UploadRow>) {
    && (forall i, j :: 0 <= i < j < |rows| ==> rows[i].row.finalName != rows[j].row.finalName)
    && (forall i :: 0 <= i < |rows| ==> PlainComponent(rows[i].row.finalName) && FitsItem(rows[i].draft))
  }

  lemma PlannedNames(drafts: seq<Draft>, destination: Option<Names>, choices: map<nat, UploadChoice>)
    requires ErrorFree(Plan(DraftItems(drafts), destination, NameChoices(choices), SuffixOf(choices)))
    ensures var rows := Plan(DraftItems(drafts), destination, NameChoices(choices), SuffixOf(choices));
      DistinctFinalNames(rows) && forall i :: 0 <= i < |rows| ==> PlainComponent(rows[i].finalName)
  {
    var items, suffixOf := DraftItems(drafts), SuffixOf(choices);
    ErrorFreePlansAreSafe(items, destination, NameChoices(choices), suffixOf);
    hide SafeRow, PlainComponent, Plan, Known, DistinctFinalNames, ErrorFree, NameChoices;
    var rows := Plan(items, destination, NameChoices(choices), suffixOf);
    forall i | 0 <= i < |rows|
      ensures PlainComponent(rows[i].finalName)
    {
      SafeNamePlain(rows[i], suffixOf(items[i]), Known(destination));
    }
  }

  /** Whatever sources the items come from, and even if names repeat: an error-free plan keeps them apart. */
  lemma ErrorFreeUploadsAreSafe(drafts: seq<Draft>, destination: Option<Names>, choices: map<nat, UploadChoice>)
    requires AllFit(drafts)
    requires ErrorFree(Plan(DraftItems(drafts), destination, NameChoices(choices), SuffixOf(choices)))
    ensures SafePlan(PlanUpload(drafts, destination, choices))
  {
    PlannedNames(drafts, destination, choices);
    hide PlainComponent, FitsItem, Plan, CountFiles, ErrorFree, NameChoices, DraftItems;
  }

  lemma SafeNamePlain(row: Row, suffix: string, destination: Names)
    requires SafeRow(row, suffix, destination) && (suffix == "" || suffix == VAULT_SUFFIX)
    ensures PlainComponent(row.finalName)
  {
    var name :| row.finalName == name + suffix && PlainComponent(name) && TrimStable(name);
    FinalNamePlain(name, suffix);
  }

  /** A path stays below its row's final name, and leads where it led before. */
  lemma RenamedParts(row: UploadRow, path: string, suffix: string)
    requires PlainComponent(row.row.finalName)
    ensures TopName(Renamed(row, path, suffix)) == row.row.finalName
    ensures Rest(Renamed(row, path, suffix)) == if Rest(path).None? then None else Some(Rest(path).value + suffix)
  {
    JoinedSplits(row.row.finalName, if Rest(path).Some? then Rest(path).value + suffix else "");
  }

  /** Different paths of different rows, or of the same row, never meet after renaming. */
  lemma RenamingIsInjective(rows: seq<UploadRow>, i: nat, j: nat, p: string, q: string, suffixes: UploadRow -> string)
    requires SafePlan(rows) && i < |rows| && j < |rows|
    requires TopName(p) == rows[i].draft.item.name && TopName(q) == rows[j].draft.item.name
    ensures Renamed(rows[i], p, suffixes(rows[i])) == Renamed(rows[j], q, suffixes(rows[j])) <==> i == j && p == q
  {
    RenamedParts(rows[i], p, suffixes(rows[i]));
    RenamedParts(rows[j], q, suffixes(rows[j]));
    if Renamed(rows[i], p, suffixes(rows[i])) == Renamed(rows[j], q, suffixes(rows[j])) {
      assert i == j;
      if Rest(p).Some? {
        SuffixCancels(Rest(p).value, Rest(q).value, suffixes(rows[i]));
      }
      TopNameAndRest(p);
      TopNameAndRest(q);
    }
  }

  /** A file and a directory meet exactly when the vault suffix turns the file's path into the directory's. */
  lemma FileMeetsDirectory(rows: seq<UploadRow>, i: nat, j: nat, p: string, q: string)
    requires SafePlan(rows) && i < |rows| && j < |rows|
    requires TopName(p) == rows[i].draft.item.name && TopName(q) == rows[j].draft.item.name
    ensures RenamedFile(rows[i], p) == Renamed(rows[j], q, "") <==>
      i == j && q == if Rest(p).None? then p else p + FileSuffix(rows[i])
  {
    var suffix := FileSuffix(rows[i]);
    var file, directory := RenamedFile(rows[i], p), Renamed(rows[j], q, "");
    RenamedParts(rows[i], p, suffix);
    RenamedParts(rows[j], q, "");
    SamePath(file, directory);
    SamePath(q, p);
    if Rest(p).Some? {
      SuffixedParts(p, suffix);
      SamePath(q, p + suffix);
    }
    assert Rest(q).Some? ==> Rest(q).value + "" == Rest(q).value;
    hide Renamed, RenamedFile, TopName, Rest, FileSuffix, FitsItem;
  }

  lemma SamePath(p: string, q: string)
    ensures p == q <==> TopName(p) == TopName(q) && Rest(p) == Rest(q)
  {
    TopNameAndRest(p);
    TopNameAndRest(q);
    hide TopName, Rest;
  }

  lemma SuffixedParts(path: string, suffix: string)
    requires Rest(path).Some?
    ensures TopName(path + suffix) == TopName(path) && Rest(path + suffix) == Some(Rest(path).value + suffix)
  {
    TopNameAndRest(path);
    JoinedSplits(TopName(path), Rest(path).value + suffix);
    hide TopName, Rest;
    assert path + suffix == TopName(path) + [SLASH] + (Rest(path).value + suffix);
  }

  predicate UsableName(name: string) {
    PlainComponent(name) && '\\' !in name
  }

  function PathOf(top: string, name: string): string {
    top + [SLASH] + name
  }

  lemma TwoComponents(top: string, name: string)
    requires UsableName(top) && UsableName(name)
    ensures Contained(PathOf(top, name)) && Normalize(PathOf(top, name)) == Some(PathOf(top, name))
    ensures TopName(PathOf(top, name)) == top && Rest(PathOf(top, name)) == Some(name)
  {
    JoinedSplits(top, name);
    SplitAt(top, name, SLASH);
    SplitFree(top, SLASH);
    SplitFree(name, SLASH);
    ContainedIsNormal(PathOf(top, name));
  }

  lemma SuffixUsable(name: string)
    requires UsableName(name)
    ensures UsableName(name + VAULT_SUFFIX)
  {
    FinalNamePlain(name, VAULT_SUFFIX);
    assert '\\' !in VAULT_SUFFIX;
  }

  /** A directory with one file and one directory below it. */
  function PairEntries(file: SourceFile, directory: string): seq<Entry> {
    [FileAt(file), DirectoryAt(directory)]
  }

  lemma PairNormalizes(file: SourceFile, directory: string)
    requires Normalize(file.relativePath) == Some(file.relativePath) && Normalize(directory) == Some(directory)
    ensures SourceEntries([file], [directory]) == Some(PairEntries(file, directory))
  {
    hide Normalize;
    FilesMore([file], 0);
    DirectoriesMore([directory], 0);
    assert [file][..1] == [file] && [file][..0] == [] && [directory][..1] == [directory] && [directory][..0] == [];
    NoDrafts(1, false);
    assert [] + [FileAt(file)] == [FileAt(file)] && [] + [DirectoryAt(directory)] == [DirectoryAt(directory)];
    assert NormalizedFiles([file]) == Some([FileAt(file)]);
    assert NormalizedDirectories([directory]) == Some([DirectoryAt(directory)]);
    GoodSource([file], [directory]);
    assert [FileAt(file)] + [DirectoryAt(directory)] == PairEntries(file, directory);
  }

  function PairDraft(top: string, file: SourceFile, directory: string): Draft {
    Draft(Item(1, top, DirectoryEntry, false, false), [file], [directory])
  }

  lemma PairDrafts(top: string, file: SourceFile, directory: string)
    requires TopName(file.relativePath) == TopName(directory) == top && Rest(file.relativePath).Some?
    ensures Drafts(PairEntries(file, directory), 1, false) == [PairDraft(top, file, directory)]
  {
    NoDrafts(1, false);
    assert EntryNames([]) == [] && EntryNames([FileAt(file)]) == [top];
    hide Drafts, EntryNames, TopName, Rest;
    DraftsGrow([], FileAt(file), 1, false);
    DraftsGrow([FileAt(file)], DirectoryAt(directory), 1, false);
    assert [] + [FileAt(file)] == [FileAt(file)] && [FileAt(file)] + [DirectoryAt(directory)] == PairEntries(file, directory);
    assert [] + [file] == [file] && [] + [directory] == [directory];
  }

  /** What an encrypted row of such a directory uploads, in an empty destination. */
  lemma PairPlan(top: string, file: SourceFile, directory: string)
    requires UsableName(top) && TrimStable(top)
    ensures var rows := PlanUpload([PairDraft(top, file, directory)], Some(Names({}, {})), map[1 := UploadChoice(NO_CHOICE, true)]);
      && |rows| == 1 && rows[0].row.error.None? && rows[0].row.finalName == top && rows[0].encrypt
      && rows[0].draft == PairDraft(top, file, directory)
  {
    var choices := map[1 := UploadChoice(NO_CHOICE, true)];
    var draft := PairDraft(top, file, directory);
    assert DraftItems([draft]) == [draft.item];
    OneItemPlan(draft.item, Some(Names({}, {})), NameChoices(choices), SuffixOf(choices));
    hide Plan;
    assert top + "" == top;
    TrimIs(top);
  }

  lemma PairResolution(row: UploadRow, top: string, file: SourceFile, directory: string)
    requires row.draft == PairDraft(top, file, directory)
    ensures Resolution([row]).files == RowFiles(row) && Resolution([row]).directories == RowDirectories(row)
  {
    assert [row][..0] == [];
    assert [] + RowFiles(row) == RowFiles(row) && [] + RowDirectories(row) == RowDirectories(row);
  }

  /**
   * Whatever the names, encrypting a directory with a file, and with a directory of the name that file
   * gets, plans both on one path without any error.
   */
  lemma EncryptedFileMeetsDirectory(handle: nat, top: string, name: string)
    requires UsableName(top) && TrimStable(top) && UsableName(name)
    ensures var path := PathOf(top, name + VAULT_SUFFIX);
      var entries := SourceEntries([SourceFile(handle, PathOf(top, name))], [path]);
      && entries.Some?
      && var rows := PlanUpload(Drafts(entries.value, 1, false), Some(Names({}, {})), map[1 := UploadChoice(NO_CHOICE, true)]);
         && (forall row <- rows :: row.row.error.None?)
         && (exists f <- Resolution(rows).files :: f.relative == path) && path in Resolution(rows).directories
  {
    var file, path := SourceFile(handle, PathOf(top, name)), PathOf(top, name + VAULT_SUFFIX);
    hide *;
    SuffixUsable(name);
    TwoComponents(top, name);
    TwoComponents(top, name + VAULT_SUFFIX);
    PairPlan(top, file, path);
    PairNormalizes(file, path);
    PairDrafts(top, file, path);
    var rows := PlanUpload([PairDraft(top, file, path)], Some(Names({}, {})), map[1 := UploadChoice(NO_CHOICE, true)]);
    assert rows == [rows[0]];
    PairResolution(rows[0], top, file, path);
    PairMeets(rows[0], top, name, file, path);
  }

  lemma PairMeets(row: UploadRow, top: string, name: string, file: SourceFile, path: string)
    requires row.draft == PairDraft(top, file, path) && row.row.finalName == top && row.encrypt
    requires Rest(file.relativePath) == Some(name) && Rest(path) == Some(name + VAULT_SUFFIX)
    requires path == PathOf(top, name + VAULT_SUFFIX)
    ensures (exists f <- RowFiles(row) :: f.relative == path) && path in RowDirectories(row)
  {
    assert (name + VAULT_SUFFIX) + "" == name + VAULT_SUFFIX;
    hide Rest;
    assert RowFiles(row)[0].relative == path && RowDirectories(row)[0] == path;
    assert RowFiles(row)[0] in RowFiles(row);
  }

  // ---------------------------------------------------------------- what the queue makes of the plan

  /** A renamed path is contained when its row's final name has no backslash. */
  lemma RenamedContained(row: UploadRow, path: string, suffix: string)
    requires PlainComponent(row.row.finalName) && '\\' !in row.row.finalName
    requires Contained(path) && (suffix == "" || suffix == VAULT_SUFFIX)
    ensures Contained(Renamed(row, path, suffix))
  {
    var name := row.row.finalName;
    SplitFree(name, SLASH);
    if Rest(path).Some? {
      var rest := Rest(path).value;
      TopNamePlain(path);
      SplitAt(name, rest + suffix, SLASH);
      SplitTail(rest, suffix, SLASH);
      var pieces := Split(rest, SLASH);
      var last := pieces[|pieces| - 1];
      FinalNamePlain(last, suffix);
      hide PlainComponent;
      assert PlainPieces(Tailed(pieces, suffix));
      assert Split(Renamed(row, path, suffix), SLASH) == [name] + Tailed(pieces, suffix);
    }
  }

  /** The queue keeps a planned path exactly when its row's final name has no backslash. */
  lemma QueueKeepsPath(row: UploadRow, path: string, suffix: string)
    requires PlainComponent(row.row.finalName) && Contained(path) && (suffix == "" || suffix == VAULT_SUFFIX)
    ensures Normalize(Renamed(row, path, suffix)) == Some(Renamed(row, path, suffix)) <==> '\\' !in row.row.finalName
  {
    var renamed := Renamed(row, path, suffix);
    if '\\' !in row.row.finalName {
      RenamedContained(row, path, suffix);
      ContainedIsNormal(renamed);
    } else {
      var k :| 0 <= k < |row.row.finalName| && row.row.finalName[k] == '\\';
      assert renamed[k] == '\\';
      if Normalize(renamed).Some? {
        NormalizedIsContained(renamed);
      }
    }
  }

  function Typed(a: string, b: string): string {
    a + ['\\'] + b
  }

  lemma TypedIsPlain(a: string, b: string)
    requires UsableName(a) && UsableName(b) && TrimStable(a) && TrimStable(b)
    ensures PlainComponent(Typed(a, b)) && TrimStable(Typed(a, b)) && Typed(a, b) != a
  {
    var typed := Typed(a, b);
    assert |typed| > 2 && typed[0] == a[0] && typed[|typed| - 1] == b[|b| - 1];
  }

  lemma SameReplaced(p: string, q: string)
    requires ReplaceBackslashes(p) == ReplaceBackslashes(q)
    ensures Normalize(p) == Normalize(q)
  {
    hide Split, StripDotSlash, ReplaceBackslashes;
  }

  lemma TypedNormalizes(a: string, b: string)
    requires UsableName(a) && UsableName(b)
    ensures Normalize(Typed(a, b)) == Some(PathOf(a, b))
  {
    assert ReplaceBackslashes(Typed(a, b)) == ReplaceBackslashes(PathOf(a, b));
    hide *;
    TwoComponents(a, b);
    SameReplaced(Typed(a, b), PathOf(a, b));
  }

  /** Whatever the names, one typed with a backslash passes the plan, but the queue uploads to another directory. */
  lemma BackslashLeavesThePlan(a: string, b: string)
    requires UsableName(a) && UsableName(b) && TrimStable(a) && TrimStable(b)
    ensures var rows := Plan([Item(1, b, FileEntry, false, false)], Some(Names({a}, {a})),
                             map[1 := Choice(Some(Typed(a, b)), None)], _ => "");
      && ErrorFree(rows) && |rows| == 1 && rows[0].finalName == Typed(a, b)
      && Normalize(rows[0].finalName) == Some(PathOf(a, b))
  {
    var item, choice := Item(1, b, FileEntry, false, false), Choice(Some(Typed(a, b)), None);
    TypedIsPlain(a, b);
    TypedNormalizes(a, b);
    hide Normalize, Typed, PathOf, UsableName;
    OneItemPlan(item, Some(Names({a}, {a})), map[1 := choice], _ => "");
    TypedRow(item, choice, Typed(a, b), Names({a}, {a}));
    hide Plan, PlanRow;
  }

  /** A typed name that is plain and free is taken as it is. */
  lemma TypedRow(item: Item, choice: Choice, typed: string, destination: Names)
    requires choice == Choice(Some(typed), None) && PlainComponent(typed) && TrimStable(typed) && typed !in destination.names
    ensures PlanRow(item, choice, "", destination, {}).error.None? && PlanRow(item, choice, "", destination, {}).finalName == typed
  {
    TrimIs(typed);
    hide Trim, SuggestedName;
    assert typed + "" == typed;
  }

  lemma {:induction false} ResolvedPaths(rows: seq<UploadRow>)
    requires SafePlan(rows) && forall i :: 0 <= i < |rows| ==> '\\' !in rows[i].row.finalName
    ensures var resolved := Resolution(rows);
      && (forall f <- resolved.files :: Normalize(f.relative) == Some(f.relative))
      && (forall d <- resolved.directories :: Normalize(d) == Some(d))
  {
    if rows != [] {
      var front, row := rows[..|rows| - 1], rows[|rows| - 1];
      ResolvedPaths(front);
      assert FitsItem(row.draft) && PlainComponent(row.row.finalName);
      forall f <- row.draft.files
        ensures Normalize(RenamedFile(row, f.relativePath)) == Some(RenamedFile(row, f.relativePath))
      {
        QueueKeepsPath(row, f.relativePath, FileSuffix(row));
      }
      forall d <- row.draft.directories
        ensures Normalize(Renamed(row, d, "")) == Some(Renamed(row, d, ""))
      {
        QueueKeepsPath(row, d, "");
      }
    }
  }

  lemma {:induction false} ResolvedCount(rows: seq<UploadRow>, drafts: seq<Draft>)
    requires |rows| == |drafts| && forall i :: 0 <= i < |rows| ==> rows[i].draft == drafts[i]
    ensures |Resolution(rows).files| == CountFiles(drafts)
  {
    if rows != [] {
      ResolvedCount(rows[..|rows| - 1], drafts[..|drafts| - 1]);
    }
  }

  /**
   * From source to queue: a safe plan without backslashes in its final names is admitted whole,
   * with every file of the source at its planned path, unless it is empty or too large.
   */
  lemma PlannedUploadIsAdmitted(rows: seq<UploadRow>, drafts: seq<Draft>, s: Queue.State, agent: string, destination: string,
                                agents: set<string>)
    requires Queue.Inv(s) && SafePlan(rows) && forall i :: 0 <= i < |rows| ==> '\\' !in rows[i].row.finalName
    requires |rows| == |drafts| && forall i :: 0 <= i < |rows| ==> rows[i].draft == drafts[i]
    ensures var resolved := Resolution(rows);
      var result := Queue.Enqueue(s, Queue.Batch(agent, destination, resolved.files, resolved.directories), agents).1;
      (if (resolved.files == [] && resolved.directories == [])
          || |Queue.Retained(s).items| + CountFiles(drafts) > Queue.MAX_QUEUED
       then result.Refused? else result == Queue.Accepted(CountFiles(drafts)))
  {
    var resolved := Resolution(rows);
    var batch := Queue.Batch(agent, destination, resolved.files, resolved.directories);
    ResolvedCount(rows, drafts);
    ResolvedPaths(rows);
    assert forall i :: 0 <= i < |batch.files| ==> batch.files[i] in resolved.files;
    assert forall i :: 0 <= i < |batch.directories| ==> batch.directories[i] in resolved.directories;
    UploadRuns.NormalizeAllIs(batch.directories);
    assert UploadRuns.ValidPaths(batch);
    hide Queue.Inv, Queue.Enqueue, Resolution, UploadRuns.ValidPaths, SafePlan;
    UploadRuns.EnqueueKeeps(s, batch, agents);
  }
}

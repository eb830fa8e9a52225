/** What `stream` emits, `extract` rebuilds. */
module TarRoundTrip {
  import opened Common
  import opened TarFormat
  import opened TarStream
  import opened TarExtract

  // ---------------------------------------------------------------- member names

  ghost predicate ValidPath(path: Path) {
    forall i :: 0 <= i < |path| ==> ValidName(path[i])
  }

  lemma {:induction false} SplitJoin(path: Path)
    requires path != [] && ValidPath(path)
    ensures Split(Join(path), SLASH) == path
    ensures Join(path) != [] && Join(path)[0] != SLASH && 0 !in Join(path)
  {
    assert ValidName(path[|path| - 1]);
    if |path| == 1 {
      SplitFree(path[0], SLASH);
    } else {
      var front, last := path[..|path| - 1], path[|path| - 1];
      SplitJoin(front);
      SplitFree(last, SLASH);
      SplitAt(Join(front), last, SLASH);
      assert front + [last] == path;
    }
  }

  lemma {:induction false} ValidPieces(path: Path)
    requires ValidPath(path)
    ensures NormalNames(PieceComponents(path)) == path
    ensures RootDir !in PieceComponents(path) && ParentDir !in PieceComponents(path)
  {
    if path != [] {
      ValidPieces(path[1..]);
      assert ValidName(path[0]);
    }
  }

  /** A member name of the archive leads to its own path below the staging directory. */
  lemma RelativeOfJoin(root: Name, path: Path)
    requires ValidName(root) && ValidPath(path)
    ensures Relative(Join([root] + path), root) == Ok(path)
  {
    var full := [root] + path;
    assert ValidPath(full);
    SplitJoin(full);
    ValidPieces(full);
    assert Components(Join(full)) == PieceComponents(full);
    assert full[1..] == path && full[0] == root;
  }

  // ---------------------------------------------------------------- single members

  /** A header in front of `body` starts the turn its fields describe. */
  lemma DescribedTurn(
    block: seq<byte>, name: seq<byte>, mode: Option<nat>, size: nat, flag: byte,
    body: seq<byte>, state: State, root: Name)
    requires Describes(block, name, mode, size, flag)
    ensures OneTurn(block + body, state, root)
         == if flag == LONG_NAME_FLAG then LongNameTurn(body, size, state)
            else MemberTurn(block, body, size, state, root)
  {
    assert (block + body)[..BLOCK] == block && (block + body)[BLOCK..] == body;
  }

  /** The producer's padding of a long name agrees with what the consumer skips. */
  lemma LongPaddingAgrees(n: nat)
    ensures BLOCK - n % BLOCK == 1 + PaddingAfter(n + 1)
  {
  }

  lemma LongNameBody(name: seq<byte>, tail: seq<byte>, state: State)
    ensures LongNameTurn(name + Zeros(BLOCK - |name| % BLOCK) + tail, |name| + 1, state)
         == if |name| + 1 > MAX_LONG_NAME || state.longName.Some? then Failed(InvalidLongName, state.staging)
            else Next(tail, state.(longName := Some(name)))
  {
    var zeros := Zeros(BLOCK - |name| % BLOCK);
    var body := name + zeros + tail;
    LongPaddingAgrees(|name|);
    assert body[..|name| + 1] == name + [0];
    assert StripNul(name + [0]) == name;
    assert body[|name| + 1..][PaddingAfter(|name| + 1)..] == tail;
  }

  lemma LongRecordTurn(name: seq<byte>, tail: seq<byte>, state: State, root: Name)
    requires |name| + 1 < U64_LIMIT
    ensures OneTurn(LongRecord(name) + tail, state, root)
         == if |name| + 1 > MAX_LONG_NAME || state.longName.Some? then Failed(InvalidLongName, state.staging)
            else Next(tail, state.(longName := Some(name)))
  {
    hide Seal, HeaderFront, HeaderBack, LongNameTurn;
    var head := Seal(HeaderFront(LONG_LINK, Zeros(8), |name| + 1, 0), HeaderBack(LONG_NAME_FLAG));
    SealedHeaderDescribes(LONG_LINK, Zeros(8), |name| + 1, 0, LONG_NAME_FLAG);
    var zeros := Zeros(BLOCK - |name| % BLOCK);
    Regroup4(head, name, zeros, tail);
    DescribedTurn(head, LONG_LINK, OctalValue(Zeros(8)), |name| + 1, LONG_NAME_FLAG, name + zeros + tail, state, root);
    LongNameBody(name, tail, state);
  }

  lemma Regroup4(a: seq<byte>, b: seq<byte>, c: seq<byte>, d: seq<byte>)
    ensures (a + b + c) + d == a + (b + c + d)
  {
    ConcatAssoc(a + b, c, d);
    ConcatAssoc(a, b, c + d);
    ConcatAssoc(b, c, d);
  }

  /** The turn of a member whose name is known, from the header or from a long-name record. */
  function NamedTurn(name: seq<byte>, mode: nat, size: nat, flag: byte, body: seq<byte>, state: State, root: Name): Turn {
    match Relative(name, root)
    case Err(error) => Failed(error, state.staging)
    case Ok(path) =>
      if flag == DIRECTORY_FLAG then DirectoryTurn(body, size, path, state)
      else if path == [] then Failed(RootNotDirectory, state.staging)
      else FileTurn(body, size, Some(mode), path, state)
  }

  function Resume(turn: Turn, root: Name): Turn {
    if turn.Next? then Run(turn.rest, turn.state, root) else turn
  }

  lemma NamedHeaderTurn(
    block: seq<byte>, name: seq<byte>, inHeader: seq<byte>, mode: nat, size: nat, flag: byte,
    body: seq<byte>, state: State, root: Name)
    requires flag == DIRECTORY_FLAG || flag == REGULAR_FLAG
    requires Describes(block, inHeader, Some(mode), size, flag)
    requires state.longName == Some(name) || (state.longName == None && inHeader == name)
    ensures OneTurn(block + body, state, root)
         == NamedTurn(name, mode, size, flag, body, state.(longName := None), root)
  {
    DescribedTurn(block, inHeader, Some(mode), size, flag, body, state, root);
  }

  lemma MemberHeaderDescribes(name: seq<byte>, mode: nat, mtime: nat, size: nat, flag: byte)
    requires |name| <= NAME_FIELD && 0 !in name && mtime < U64_LIMIT && size < U64_LIMIT
    ensures Describes(MemberHeader(name, mode, mtime, size, flag), name, Some(mode % 512), size, flag)
  {
    SealedHeaderDescribes(name, OctalField(mode % 512, 8), size, mtime, flag);
    PowerOfEight();
    OctalRoundTrip(mode % 512, 8);
  }

  lemma LongNamedTurns(
    block: seq<byte>, name: seq<byte>, mode: nat, size: nat, flag: byte, body: seq<byte>, state: State, root: Name)
    requires |name| + 1 < U64_LIMIT && state.longName == None
    requires flag == DIRECTORY_FLAG || flag == REGULAR_FLAG
    requires Describes(block, LONG_NAME, Some(mode), size, flag)
    ensures Run((LongRecord(name) + block) + body, state, root)
         == if |name| + 1 > MAX_LONG_NAME then Failed(InvalidLongName, state.staging)
            else Resume(NamedTurn(name, mode, size, flag, body, state, root), root)
  {
    var named := state.(longName := Some(name));
    ConcatAssoc(LongRecord(name), block, body);
    LongRecordTurn(name, block + body, state, root);
    if |name| + 1 <= MAX_LONG_NAME {
      NamedHeaderTurn(block, name, LONG_NAME, mode, size, flag, body, named, root);
      assert named.(longName := None) == state;
      assert Run(block + body, named, root) == Resume(OneTurn(block + body, named, root), root);
    }
  }

  /** Short and long names lead to the same turn, the long-name record being consumed before it. */
  lemma HeadTurns(
    name: seq<byte>, mode: nat, mtime: nat, size: nat, flag: byte, body: seq<byte>, state: State, root: Name)
    requires 0 !in name && |name| + 1 < U64_LIMIT && mtime < U64_LIMIT && size < U64_LIMIT
    requires flag == DIRECTORY_FLAG || flag == REGULAR_FLAG
    requires state.longName == None
    ensures Run(MemberHead(name, mode, mtime, size, flag) + body, state, root)
         == if |name| + 1 > MAX_LONG_NAME then Failed(InvalidLongName, state.staging)
            else Resume(NamedTurn(name, mode % 512, size, flag, body, state, root), root)
  {
    hide MemberHeader, LongRecord, NamedTurn;
    if |name| <= NAME_FIELD {
      MemberHeaderDescribes(name, mode, mtime, size, flag);
      NamedHeaderTurn(MemberHeader(name, mode, mtime, size, flag), name, name, mode % 512, size, flag, body, state, root);
      assert state.(longName := None) == state;
    } else {
      MemberHeaderDescribes(LONG_NAME, mode, mtime, size, flag);
      LongNamedTurns(MemberHeader(LONG_NAME, mode, mtime, size, flag), name, mode % 512, size, flag, body, state, root);
    }
  }

  lemma PathName(root: Name, path: Path)
    requires ValidName(root) && ValidPath(path)
    ensures 0 !in Join([root] + path)
    ensures Relative(Join([root] + path), root) == Ok(path)
  {
    assert ValidPath([root] + path);
    SplitJoin([root] + path);
    RelativeOfJoin(root, path);
  }

  predicate FitsLongName(name: seq<byte>) { |name| + 1 <= MAX_LONG_NAME }

  /** What the members of one entry leave behind. */
  function FileCreated(state: State, path: Path, content: seq<byte>, mode: nat): State {
    state.(staging := state.staging[path := FileNode(content, mode % 512)], counted := state.counted + |content|)
  }

  function DirectoryCreated(state: State, path: Path): State {
    state.(staging := state.staging[path := DirectoryNode])
  }

  lemma FileBody(name: seq<byte>, root: Name, path: Path, mode: nat, content: seq<byte>, tail: seq<byte>, state: State)
    requires Relative(name, root) == Ok(path) && CanCreate(state.staging, path)
    ensures NamedTurn(name, mode % 512, |content|, REGULAR_FLAG, content + Zeros(PaddingAfter(|content|)) + tail, state, root)
         == Next(tail, FileCreated(state, path, content, mode))
  {
    assert path != [];
    hide Relative, CanCreate, SkipPadding;
    var padding := Zeros(PaddingAfter(|content|));
    assert (content + padding + tail)[..|content|] == content;
    assert (content + padding + tail)[|content|..] == padding + tail;
    PaddingSkipped(|content|, tail, FileCreated(state, path, content, mode));
  }

  lemma PaddingSkipped(size: nat, tail: seq<byte>, state: State)
    ensures SkipPadding(Zeros(PaddingAfter(size)) + tail, size, state) == Next(tail, state)
  {
    assert (Zeros(PaddingAfter(size)) + tail)[PaddingAfter(size)..] == tail;
  }

  lemma DirectoryBody(name: seq<byte>, root: Name, path: Path, mode: nat, tail: seq<byte>, state: State)
    requires Relative(name, root) == Ok(path) && CanCreate(state.staging, path)
    ensures NamedTurn(name, mode % 512, 0, DIRECTORY_FLAG, tail, state, root) == Next(tail, DirectoryCreated(state, path))
  {
    assert tail[0..] == tail;
  }

  /** A file member creates its file with its bytes and permission bits, and nothing else. */
  lemma FileMemberRun(
    root: Name, path: Path, mode: nat, mtime: nat, content: seq<byte>, tail: seq<byte>, state: State)
    requires ValidName(root) && ValidPath(path) && mtime < U64_LIMIT && |content| < U64_LIMIT
    requires |Join([root] + path)| + 1 < U64_LIMIT
    requires state.longName == None && CanCreate(state.staging, path)
    ensures Run(FileMember(Join([root] + path), mode, mtime, content) + tail, state, root)
         == if !FitsLongName(Join([root] + path)) then Failed(InvalidLongName, state.staging)
            else Run(tail, FileCreated(state, path, content, mode), root)
  {
    hide MemberHead, NamedTurn, Run;
    var name, padding := Join([root] + path), Zeros(PaddingAfter(|content|));
    PathName(root, path);
    Regroup4(MemberHead(name, mode, mtime, |content|, REGULAR_FLAG), content, padding, tail);
    HeadTurns(name, mode, mtime, |content|, REGULAR_FLAG, content + padding + tail, state, root);
    FileBody(name, root, path, mode, content, tail, state);
  }

  /** A directory member creates its directory, and nothing else. */
  lemma DirectoryMemberRun(root: Name, path: Path, mode: nat, mtime: nat, tail: seq<byte>, state: State)
    requires ValidName(root) && ValidPath(path) && mtime < U64_LIMIT
    requires |Join([root] + path)| + 1 < U64_LIMIT
    requires state.longName == None && CanCreate(state.staging, path)
    ensures Run(DirectoryMember(Join([root] + path), mode, mtime) + tail, state, root)
         == if !FitsLongName(Join([root] + path)) then Failed(InvalidLongName, state.staging)
            else Run(tail, DirectoryCreated(state, path), root)
  {
    hide MemberHead, NamedTurn, Run;
    PathName(root, path);
    HeadTurns(Join([root] + path), mode, mtime, 0, DIRECTORY_FLAG, tail, state, root);
    DirectoryBody(Join([root] + path), root, path, mode, tail, state);
  }

  // ---------------------------------------------------------------- whole trees

  /** The staging directory after one entry and everything below it was extracted. */
  function Create(staging: Staging, path: Path, node: Node): Staging
    decreases node, 1
  {
    match node
    case File(mode, _, length, data) =>
      staging[path := FileNode(if length <= |data| then data[..length] else data, mode % 512)]
    case Directory(_, _, entries) => Rebuild(staging[path := DirectoryNode], path, entries)
    case Other => staging
  }

  /** The staging directory after all members of a listing were extracted below `prefix`. */
  function Rebuild(staging: Staging, prefix: Path, listing: Listing): Staging
    decreases listing, 0
  {
    match listing
    case End => staging
    case Entry(name, node, next) => Rebuild(Create(staging, prefix + [name], node), prefix, next)
  }

  predicate Below(prefix: Path, path: Path) {
    |prefix| < |path| && path[..|prefix|] == prefix
  }

  /** Nothing is staged yet where the entries of `listing` are going to be created. */
  ghost predicate Vacant(staging: Staging, prefix: Path, listing: Listing) {
    && IsDirectory(staging, prefix)
    && forall path <- staging :: Below(prefix, path) ==> !HasName(listing, path[|prefix|])
  }

  /** The entry of a tree that a path leads to. */
  function Find(listing: Listing, path: Path): Option<Node>
    decreases listing
  {
    match listing
    case End => None
    case Entry(name, node, next) =>
      if path == [] then None
      else if path[0] != name then Find(next, path)
      else if |path| == 1 then Some(node)
      else if node.Directory? then Find(node.entries, path[1..])
      else None
  }

  /** What extraction must leave in place of a tree's entry. */
  function Restored(node: Node): Inode
    requires Emittable(node)
  {
    match node
    case File(mode, _, length, data) => FileNode(data[..length], mode % 512)
    case Directory(_, _, _) => DirectoryNode
  }

  lemma {:induction false} FoundIsEmittable(listing: Listing, path: Path)
    requires Archivable(listing) && Find(listing, path).Some?
    ensures Emittable(Find(listing, path).value)
    ensures path != [] && HasName(listing, path[0])
    decreases listing
  {
    if path[0] != listing.name {
      FoundIsEmittable(listing.next, path);
    } else if |path| > 1 {
      FoundIsEmittable(listing.node.entries, path[1..]);
    }
  }

  /** The rebuilt staging directory, path by path. */
  ghost predicate Holds(staging: Staging, before: Staging, prefix: Path, listing: Listing, path: Path)
    requires Archivable(listing)
  {
    if Below(prefix, path) && Find(listing, path[|prefix|..]).Some? then
      FoundIsEmittable(listing, path[|prefix|..]);
      path in staging && staging[path] == Restored(Find(listing, path[|prefix|..]).value)
    else
      (path in staging <==> path in before) && (path in before ==> staging[path] == before[path])
  }

  /** `Holds` for the subtree of a single entry. */
  ghost predicate CreateHolds(created: Staging, before: Staging, own: Path, node: Node, path: Path)
    requires Emittable(node) && (node.Directory? ==> Archivable(node.entries))
  {
    if path == own then path in created && created[path] == Restored(node)
    else if node.Directory? then Holds(created, before, own, node.entries, path)
    else (path in created <==> path in before) && (path in before ==> created[path] == before[path])
  }

  lemma {:induction false} EntryHolds(staging: Staging, prefix: Path, listing: Listing, path: Path)
    requires listing.Entry? && WellFormed(listing) && Archivable(listing) && Vacant(staging, prefix, listing)
    ensures var own := prefix + [listing.name];
      CreateHolds(Create(staging, own, listing.node), staging, own, listing.node, path)
    decreases listing, 0
  {
    var own := prefix + [listing.name];
    if listing.node.Directory? {
      InsideVacant(staging, prefix, listing);
      RebuildHolds(staging[own := DirectoryNode], own, listing.node.entries, path);
    }
  }

  lemma InsideVacant(staging: Staging, prefix: Path, listing: Listing)
    requires listing.Entry? && listing.node.Directory? && Vacant(staging, prefix, listing)
    ensures var own := prefix + [listing.name];
      Vacant(staging[own := DirectoryNode], own, listing.node.entries)
  {
    var own := prefix + [listing.name];
    forall p <- staging | Below(own, p)
      ensures Below(prefix, p) && p[|prefix|] == listing.name
    {
      BelowOwn(prefix, listing.name, p);
    }
  }

  lemma BelowOwn(prefix: Path, name: Name, path: Path)
    requires path == prefix + [name] || Below(prefix + [name], path)
    ensures Below(prefix, path) && path[|prefix|] == name
  {
    var own := prefix + [name];
    assert path[..|own|] == own;
    assert path[..|prefix|] == own[..|prefix|] && path[|prefix|] == own[|prefix|];
  }

  lemma {:induction false} NextVacant(staging: Staging, prefix: Path, listing: Listing)
    requires listing.Entry? && WellFormed(listing) && Archivable(listing) && Vacant(staging, prefix, listing)
    ensures Vacant(Create(staging, prefix + [listing.name], listing.node), prefix, listing.next)
    decreases listing, 1
  {
    var own := prefix + [listing.name];
    var created := Create(staging, own, listing.node);
    EntryHolds(staging, prefix, listing, prefix);
    forall path <- created | Below(prefix, path)
      ensures !HasName(listing.next, path[|prefix|])
    {
      EntryHolds(staging, prefix, listing, path);
      if path == own || Below(own, path) {
        BelowOwn(prefix, listing.name, path);
      } else {
        assert path in staging;
      }
    }
  }

  lemma {:induction false} RebuildHolds(staging: Staging, prefix: Path, listing: Listing, path: Path)
    requires WellFormed(listing) && Archivable(listing) && Vacant(staging, prefix, listing)
    ensures Holds(Rebuild(staging, prefix, listing), staging, prefix, listing, path)
    decreases listing, 2
  {
    match listing
    case End =>
    case Entry(name, node, next) =>
      var own := prefix + [name];
      EntryHolds(staging, prefix, listing, path);
      NextVacant(staging, prefix, listing);
      RebuildHolds(Create(staging, own, node), prefix, next, path);
      if path == own || Below(own, path) {
        BelowOwn(prefix, name, path);
        var inner := path[|prefix|..];
        assert path[..|own|] == own;
        NotFoundUnnamed(next, inner);
        if |inner| > 1 {
          assert Below(own, path) && path[|own|..] == inner[1..];
        } else {
          assert path == own;
        }
      } else if Below(prefix, path) {
        assert path[..|prefix|] == prefix;
      }
  }

  lemma {:induction false} NotFoundUnnamed(listing: Listing, path: Path)
    requires path != [] && !HasName(listing, path[0])
    ensures Find(listing, path) == None
  {
    if listing.Entry? {
      NotFoundUnnamed(listing.next, path);
    }
  }

  /** One entry's own member: its effect on the state, or the refusal of its name. */
  lemma EntryRun(root: Name, path: Path, node: Node, tail: seq<byte>, state: State)
    requires ValidName(root) && ValidPath(path) && Emittable(node) && CanEmit([root] + path, node)
    requires state.longName == None && CanCreate(state.staging, path)
    ensures Run(Emitted([root] + path, node) + tail, state, root)
         == if !FitsLongName(Join([root] + path)) then Failed(InvalidLongName, state.staging)
            else Run(tail, if node.File? then FileCreated(state, path, node.data[..node.length], node.mode)
                           else DirectoryCreated(state, path), root)
  {
    hide Run, FileMember, DirectoryMember;
    match node
    case File(mode, mtime, length, data) => FileMemberRun(root, path, mode, mtime, data[..length], tail, state);
    case Directory(mode, mtime, _) => DirectoryMemberRun(root, path, mode, mtime, tail, state);
  }

  function Extracted(state: State, prefix: Path, listing: Listing): State {
    state.(staging := Rebuild(state.staging, prefix, listing), counted := state.counted + ContentBytes(listing))
  }

  /** The state behind one entry's own member. */
  function OwnCreated(state: State, path: Path, node: Node): State
    requires Emittable(node)
  {
    if node.File? then FileCreated(state, path, node.data[..node.length], node.mode) else DirectoryCreated(state, path)
  }

  lemma EntryCreatable(staging: Staging, prefix: Path, listing: Listing)
    requires listing.Entry? && ValidName(listing.name) && Vacant(staging, prefix, listing)
    ensures CanCreate(staging, prefix + [listing.name])
  {
    var own := prefix + [listing.name];
    BelowOwn(prefix, listing.name, own);
    assert own[..|own| - 1] == prefix;
  }

  lemma FirstEntryRun(root: Name, prefix: Path, listing: Listing, tail: seq<byte>, state: State)
    requires listing.Entry?
    requires ValidName(root) && ValidPath(prefix) && WellFormed(listing) && Archivable(listing)
    requires NamesFit([root] + prefix, listing, U64_LIMIT - 1)
    requires state.longName == None && Vacant(state.staging, prefix, listing)
    ensures var own := prefix + [listing.name];
      && [root] + prefix + [listing.name] == [root] + own
      && Run(Members([root] + prefix, listing) + tail, state, root)
         == if !FitsLongName(Join([root] + own)) then Failed(InvalidLongName, state.staging)
            else Run(Under([root] + own, listing.node) + (Members([root] + prefix, listing.next) + tail),
                     OwnCreated(state, own, listing.node), root)
  {
    hide Run, Emitted, Members, CanCreate, Vacant;
    var own := prefix + [listing.name];
    assert ([root] + prefix) + [listing.name] == [root] + own;
    var emitted, under := Emitted([root] + own, listing.node), Under([root] + own, listing.node);
    var rest := Members([root] + prefix, listing.next);
    MembersSplit([root] + prefix, listing);
    ConcatAssoc(emitted + under, rest, tail);
    ConcatAssoc(emitted, under, rest + tail);
    EntryCreatable(state.staging, prefix, listing);
    EntryRun(root, own, listing.node, under + (rest + tail), state);
  }

  /** The state behind one entry and everything below it. */
  function EntryExtracted(state: State, prefix: Path, name: Name, node: Node): State
    requires Emittable(node)
  {
    var created := OwnCreated(state, prefix + [name], node);
    if node.Directory? then Extracted(created, prefix + [name], node.entries) else created
  }

  lemma ExtractedStep(state: State, prefix: Path, listing: Listing)
    requires listing.Entry? && Emittable(listing.node)
    ensures Extracted(state, prefix, listing)
         == Extracted(EntryExtracted(state, prefix, listing.name, listing.node), prefix, listing.next)
  {
    var own := prefix + [listing.name];
    var created := EntryExtracted(state, prefix, listing.name, listing.node);
    assert created.staging == Create(state.staging, own, listing.node);
    assert created.counted + ContentBytes(listing.next) == state.counted + ContentBytes(listing);
  }

  predicate EntryFits(path: Path, node: Node) {
    FitsLongName(Join(path)) && (node.Directory? ==> NamesFit(path, node.entries, MAX_LONG_NAME))
  }

  /** The archive is refused for a name that does not fit a long-name record. */
  predicate NameRefused(end: Turn) {
    end.Failed? && end.error == InvalidLongName
  }

  lemma UnderRun(root: Name, own: Path, node: Node, behind: seq<byte>, created: State)
    requires ValidName(root) && ValidPath(own)
    requires node.Directory? ==>
      && WellFormed(node.entries) && Archivable(node.entries)
      && NamesFit([root] + own, node.entries, U64_LIMIT - 1) && Vacant(created.staging, own, node.entries)
    requires created.longName == None
    ensures var end := Run(Under([root] + own, node) + behind, created, root);
      if !node.Directory? then end == Run(behind, created, root)
      else if NamesFit([root] + own, node.entries, MAX_LONG_NAME)
      then end == Run(behind, Extracted(created, own, node.entries), root)
      else NameRefused(end)
    decreases node, 0
  {
    hide Run;
    if node.Directory? {
      MembersRun(root, own, node.entries, behind, created);
    } else {
      assert [] + behind == behind;
    }
  }

  /** One entry with everything below it, or the refusal of the first long path among them. */
  lemma EntryBlockRun(root: Name, prefix: Path, listing: Listing, tail: seq<byte>, state: State)
    requires listing.Entry?
    requires ValidName(root) && ValidPath(prefix) && WellFormed(listing) && Archivable(listing)
    requires NamesFit([root] + prefix, listing, U64_LIMIT - 1)
    requires state.longName == None && Vacant(state.staging, prefix, listing)
    ensures var end := Run(Members([root] + prefix, listing) + tail, state, root);
      if !EntryFits([root] + prefix + [listing.name], listing.node) then NameRefused(end)
      else end == Run(Members([root] + prefix, listing.next) + tail,
                      EntryExtracted(state, prefix, listing.name, listing.node), root)
    decreases listing, 0
  {
    hide Run, Extracted, OwnCreated, Members, Join;
    var own := prefix + [listing.name];
    FirstEntryRun(root, prefix, listing, tail, state);
    EntryVacancies(prefix, listing, state);
    var behind := Members([root] + prefix, listing.next) + tail;
    UnderRun(root, own, listing.node, behind, OwnCreated(state, own, listing.node));
  }

  /** The members of a whole subtree: everything below it, or the refusal of its first long path. */
  lemma {:induction false} MembersRun(root: Name, prefix: Path, listing: Listing, tail: seq<byte>, state: State)
    requires ValidName(root) && ValidPath(prefix) && WellFormed(listing) && Archivable(listing)
    requires NamesFit([root] + prefix, listing, U64_LIMIT - 1)
    requires state.longName == None && Vacant(state.staging, prefix, listing)
    ensures var end := Run(Members([root] + prefix, listing) + tail, state, root);
      if NamesFit([root] + prefix, listing, MAX_LONG_NAME) then end == Run(tail, Extracted(state, prefix, listing), root)
      else NameRefused(end)
    decreases listing, 1
  {
    hide Run, Extracted, EntryExtracted, EntryFits, Join;
    if listing.End? {
      assert [] + tail == tail;
      ExtractedNothing(state, prefix);
    } else {
      EntryBlockRun(root, prefix, listing, tail, state);
      FitsStep([root] + prefix, listing);
      if EntryFits([root] + prefix + [listing.name], listing.node) {
        EntryVacancies(prefix, listing, state);
        MembersRun(root, prefix, listing.next, tail, EntryExtracted(state, prefix, listing.name, listing.node));
        ExtractedStep(state, prefix, listing);
      }
    }
  }

  lemma FitsStep(prefix: Path, listing: Listing)
    requires listing.Entry?
    ensures NamesFit(prefix, listing, MAX_LONG_NAME)
       <==> EntryFits(prefix + [listing.name], listing.node) && NamesFit(prefix, listing.next, MAX_LONG_NAME)
  {
  }

  lemma ExtractedNothing(state: State, prefix: Path)
    ensures Extracted(state, prefix, End) == state
  {
  }

  lemma EntryVacancies(prefix: Path, listing: Listing, state: State)
    requires listing.Entry? && WellFormed(listing) && Archivable(listing)
    requires state.longName == None && Vacant(state.staging, prefix, listing)
    ensures var own := prefix + [listing.name];
      && OwnCreated(state, own, listing.node).longName == None
      && EntryExtracted(state, prefix, listing.name, listing.node).longName == None
      && (listing.node.Directory? ==> Vacant(OwnCreated(state, own, listing.node).staging, own, listing.node.entries))
      && Vacant(EntryExtracted(state, prefix, listing.name, listing.node).staging, prefix, listing.next)
  {
    NextVacant(state.staging, prefix, listing);
    if listing.node.Directory? {
      InsideVacant(state.staging, prefix, listing);
    }
  }

  /** The staging directory holds exactly the tree: every entry under its own path, nothing else. */
  ghost predicate Mirrors(staging: Staging, tree: Listing)
    requires Archivable(tree)
  {
    forall path ::
      && (path in staging <==> Find(tree, path).Some?)
      && (path in staging ==>
            (FoundIsEmittable(tree, path); staging[path] == Restored(Find(tree, path).value)))
  }

  lemma RebuildMirrors(tree: Listing)
    requires WellFormed(tree) && Archivable(tree)
    ensures Mirrors(Rebuild(map[], [], tree), tree)
  {
    forall path
      ensures Holds(Rebuild(map[], [], tree), map[], [], tree, path) && path[0..] == path
    {
      RebuildHolds(map[], [], tree, path);
    }
    forall path
      ensures path in Rebuild(map[], [], tree) <==> Find(tree, path).Some?
      ensures path in Rebuild(map[], [], tree) ==>
        (FoundIsEmittable(tree, path); Rebuild(map[], [], tree)[path] == Restored(Find(tree, path).value))
    {
      assert Holds(Rebuild(map[], [], tree), map[], [], tree, path) && path[0..] == path;
      if Find(tree, path).Some? {
        FoundIsEmittable(tree, path);
        assert Below([], path);
      }
    }
  }

  lemma TerminatorEnds(trailing: seq<byte>, state: State, root: Name)
    requires state.longName == None
    ensures Run(TERMINATOR + trailing, state, root) == Finished(trailing, state)
  {
    var ending := TERMINATOR + trailing;
    assert ending[..BLOCK] == Zeros(BLOCK);
    assert ending[BLOCK..][..BLOCK] == Zeros(BLOCK) && ending[BLOCK..][BLOCK..] == trailing;
  }

  /**
   * The round trip. For every tree, every mix of short and long names and whatever follows the
   * archive: extraction succeeds exactly when every member path fits a long-name record; then it
   * rebuilds the tree, counts its content bytes and consumes the whole archive.
   */
  lemma RoundTrip(root: Name, tree: Listing, trailing: seq<byte>)
    requires ValidName(root) && WellFormed(tree) && Archivable(tree) && NamesFit([root], tree, U64_LIMIT - 1)
    ensures var end := Run(Members([root], tree) + (TERMINATOR + trailing), Fresh, root);
      if NamesFit([root], tree, MAX_LONG_NAME) then
        && end.Finished? && end.trailing == trailing
        && Mirrors(end.state.staging, tree)
        && end.state.counted == ContentBytes(tree)
      else NameRefused(end) && Confined(end.staging)
  {
    hide Run, Members, Mirrors, WellFormed, Archivable, ContentBytes, ValidName;
    assert [root] + [] == [root];
    MembersRun(root, [], tree, TERMINATOR + trailing, Fresh);
    ExtractionConfined(Members([root], tree) + (TERMINATOR + trailing), Fresh, root);
    if NamesFit([root], tree, MAX_LONG_NAME) {
      RebuildMirrors(tree);
      TerminatorEnds(trailing, Extracted(Fresh, [], tree), root);
    }
  }

  // ---------------------------------------------------------------- framing

  lemma EmittedFramed(path: Path, node: Node)
    requires CanEmit(path, node) && Emittable(node)
    ensures |Emitted(path, node)| % BLOCK == 0
  {
    hide MemberHead;
    HeadFramed(Join(path), node.mode, node.mtime, Content(node), if node.File? then REGULAR_FLAG else DIRECTORY_FLAG);
  }

  lemma HeadFramed(name: seq<byte>, mode: nat, mtime: nat, size: nat, flag: byte)
    requires |name| + 1 < U64_LIMIT && mtime < U64_LIMIT && size < U64_LIMIT
    ensures |MemberHead(name, mode, mtime, size, flag)| % BLOCK == 0
    ensures (size + PaddingAfter(size)) % BLOCK == 0
  {
    hide Seal, HeaderFront, HeaderBack;
    if |name| > NAME_FIELD {
      assert |LongRecord(name)| == BLOCK + |name| + (BLOCK - |name| % BLOCK);
    }
  }

  /** Every member, long-name records included, is a whole number of blocks. */
  lemma {:induction false} ArchiveFramed(prefix: Path, listing: Listing)
    requires WellFormed(listing) && Archivable(listing) && NamesFit(prefix, listing, U64_LIMIT - 1)
    ensures |Members(prefix, listing)| % BLOCK == 0
    decreases listing
  {
    hide Emitted, Join, Members;
    if listing.End? {
      NoMembers(prefix);
    } else {
      var path := prefix + [listing.name];
      MembersSplit(prefix, listing);
      EmittedFramed(path, listing.node);
      ArchiveFramed(prefix, listing.next);
      if listing.node.Directory? {
        ArchiveFramed(path, listing.node.entries);
      }
      var own, under := |Emitted(path, listing.node)|, |Under(path, listing.node)|;
      WholeBlocks(own, under);
      WholeBlocks(own + under, |Members(prefix, listing.next)|);
    }
  }

  lemma NoMembers(prefix: Path)
    ensures Members(prefix, End) == []
  {
  }

  lemma WholeBlocks(a: nat, b: nat)
    requires a % BLOCK == 0 && b % BLOCK == 0
    ensures (a + b) % BLOCK == 0
  {
  }
}

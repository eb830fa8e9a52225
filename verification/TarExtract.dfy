/**
 * `extract` of `archive.rs`: reads a tar block by block and rebuilds files and directories
 * below a private staging directory. Member names start with one root component, which is dropped.
 */
module TarExtract {
  import opened Common
  import opened TarFormat
  import opened TarStream

  const MAX_LONG_NAME := 64 * 1024

  datatype Error =
    | Truncated | InvalidTerminator | UnconsumedLongName
    | InvalidField | InvalidChecksum | InvalidLongName | UnsupportedType
    | EscapesDestination | UnexpectedRoot | RootNotDirectory | DirectoryPayload
    | CannotCreate | ShortMember

  datatype Result<+T> = Ok(value: T) | Err(error: Error)

  /** A member's state once its own bytes were read, or the error with what was staged until then. */
  datatype Read = Done(state: State) | Refused(error: Error, staging: Staging)

  // ---------------------------------------------------------------- member names

  datatype Component = RootDir | CurDir | ParentDir | Normal(name: Name)

  function PieceComponents(pieces: seq<seq<byte>>): seq<Component> {
    if pieces == [] then []
    else
      var piece := pieces[0];
      (if piece == [] then []
       else if piece == [46] then [CurDir]
       else if piece == [46, 46] then [ParentDir]
       else [Normal(piece)]) + PieceComponents(pieces[1..])
  }

  /** The components of a path as the platform's path type lists them. */
  function Components(path: seq<byte>): seq<Component> {
    (if path != [] && path[0] == SLASH then [RootDir] else []) + PieceComponents(Split(path, SLASH))
  }

  function NormalNames(components: seq<Component>): Path {
    if components == [] then []
    else (if components[0].Normal? then [components[0].name] else []) + NormalNames(components[1..])
  }

  /** What `relative_member` must return. */
  function Relative(path: seq<byte>, root: Name): Result<Path> {
    var components := Components(path);
    var parts := NormalNames(components);
    if RootDir in components || ParentDir in components then Err(EscapesDestination)
    else if parts == [] || parts[0] != root then Err(UnexpectedRoot)
    else Ok(parts[1..])
  }

  lemma {:induction false} NormalNamesAppend(a: seq<Component>, b: seq<Component>)
    ensures NormalNames(a + b) == NormalNames(a) + NormalNames(b)
  {
    if a == [] {
      assert a + b == b;
    } else {
      NormalNamesAppend(a[1..], b);
      assert (a + b)[1..] == a[1..] + b && (a + b)[0] == a[0];
      var first := if a[0].Normal? then [a[0].name] else [];
      ConcatAssoc(first, NormalNames(a[1..]), NormalNames(b));
    }
  }

  method RelativeMember(path: seq<byte>, root: Name) returns (r: Result<Path>)
    ensures r == Relative(path, root)
  {
    hide Components;
    var components := Components(path);
    var parts: Path := [];
    for i := 0 to |components|
      invariant parts == NormalNames(components[..i])
      invariant RootDir !in components[..i] && ParentDir !in components[..i]
    {
      assert components[..i + 1] == components[..i] + [components[i]];
      NormalNamesAppend(components[..i], [components[i]]);
      match components[i]
      case Normal(name) =>
        parts := parts + [name];
      case CurDir =>
      case _ =>
        assert components[i] in components;
        return Err(EscapesDestination);
    }
    assert components[..|components|] == components;
    if parts == [] || parts[0] != root {
      return Err(UnexpectedRoot);
    }
    return Ok(parts[1..]);
  }

  // ---------------------------------------------------------------- the staging directory

  /** Permission bits are below 512; a file that was never finished still has the ones of its creation. */
  const UNSET_MODE := 512

  datatype Inode = DirectoryNode | FileNode(content: seq<byte>, mode: nat)

  /** Everything below the staging directory, which itself always exists under the empty path. */
  type Staging = map<Path, Inode>

  predicate IsDirectory(staging: Staging, path: Path) {
    path == [] || (path in staging && staging[path].DirectoryNode?)
  }

  /** `create_dir` and `create_new` succeed: the parent is a directory, the name is usable and free. */
  predicate CanCreate(staging: Staging, path: Path) {
    && path != [] && 0 !in path[|path| - 1]
    && path !in staging && IsDirectory(staging, path[..|path| - 1])
  }

  // ---------------------------------------------------------------- one turn of the loop

  datatype State = State(longName: Option<seq<byte>>, staging: Staging, counted: nat)

  const Fresh := State(None, map[], 0)

  datatype Turn =
    | Next(rest: seq<byte>, state: State)
    | Finished(trailing: seq<byte>, state: State)
    | Failed(error: Error, staging: Staging)

  /** Skips a member's padding and goes on. */
  function SkipPadding(rest: seq<byte>, size: nat, state: State): (turn: Turn)
    ensures turn.Next? ==> |turn.rest| <= |rest|
  {
    var padding := PaddingAfter(size);
    if |rest| < padding then Failed(Truncated, state.staging) else Next(rest[padding..], state)
  }

  function StripNul(name: seq<byte>): seq<byte> {
    if name != [] && name[|name| - 1] == 0 then name[..|name| - 1] else name
  }

  function LongNameTurn(rest: seq<byte>, size: nat, state: State): (turn: Turn)
    ensures turn.Next? ==> |turn.rest| <= |rest|
  {
    if size > MAX_LONG_NAME || state.longName.Some? then Failed(InvalidLongName, state.staging)
    else if |rest| < size then Failed(Truncated, state.staging)
    else SkipPadding(rest[size..], size, state.(longName := Some(StripNul(rest[..size]))))
  }

  function DirectoryTurn(rest: seq<byte>, size: nat, path: Path, state: State): (turn: Turn)
    ensures turn.Next? ==> |turn.rest| <= |rest|
  {
    if size != 0 then Failed(DirectoryPayload, state.staging)
    else if path == [] then SkipPadding(rest, 0, state)
    else if !CanCreate(state.staging, path) then Failed(CannotCreate, state.staging)
    else SkipPadding(rest, 0, state.(staging := state.staging[path := DirectoryNode]))
  }

  function FileTurn(rest: seq<byte>, size: nat, mode: Option<nat>, path: Path, state: State): (turn: Turn)
    ensures turn.Next? ==> |turn.rest| <= |rest|
  {
    if !CanCreate(state.staging, path) then Failed(CannotCreate, state.staging)
    else if |rest| < size then Failed(ShortMember, state.staging[path := FileNode(rest, UNSET_MODE)])
    else if mode == None then Failed(InvalidField, state.staging[path := FileNode(rest[..size], UNSET_MODE)])
    else
      var created := state.staging[path := FileNode(rest[..size], mode.value % 512)];
      SkipPadding(rest[size..], size, state.(staging := created, counted := state.counted + size))
  }

  predicate IsFileFlag(flag: byte) { flag == REGULAR_FLAG || flag == 0 }

  function MemberTurn(block: seq<byte>, rest: seq<byte>, size: nat, state: State, root: Name): (turn: Turn)
    requires |block| == BLOCK
    ensures turn.Next? ==> |turn.rest| <= |rest|
  {
    var flag := HeaderFlag(block);
    if !IsFileFlag(flag) && flag != DIRECTORY_FLAG then Failed(UnsupportedType, state.staging)
    else
      var path := if state.longName.Some? then state.longName.value else HeaderName(block);
      var taken := state.(longName := None);
      match Relative(path, root)
      case Err(error) => Failed(error, state.staging)
      case Ok(relative) =>
        if flag == DIRECTORY_FLAG then DirectoryTurn(rest, size, relative, taken)
        else if relative == [] then Failed(RootNotDirectory, state.staging)
        else FileTurn(rest, size, HeaderMode(block), relative, taken)
  }

  function TerminatorTurn(rest: seq<byte>, state: State): Turn {
    if |rest| < BLOCK then Failed(Truncated, state.staging)
    else if rest[..BLOCK] != Zeros(BLOCK) then Failed(InvalidTerminator, state.staging)
    else if state.longName.Some? then Failed(UnconsumedLongName, state.staging)
    else Finished(rest[BLOCK..], state)
  }

  function HeaderTurn(block: seq<byte>, rest: seq<byte>, state: State, root: Name): (turn: Turn)
    requires |block| == BLOCK
    ensures turn.Next? ==> |turn.rest| <= |rest|
  {
    if OctalValue(ChecksumField(block)) == None then Failed(InvalidField, state.staging)
    else if !ChecksumMatches(block) then Failed(InvalidChecksum, state.staging)
    else
      match HeaderSize(block)
      case None => Failed(InvalidField, state.staging)
      case Some(size) =>
        if HeaderFlag(block) == LONG_NAME_FLAG then LongNameTurn(rest, size, state)
        else MemberTurn(block, rest, size, state, root)
  }

  function OneTurn(archive: seq<byte>, state: State, root: Name): (turn: Turn)
    ensures turn.Next? ==> |turn.rest| < |archive|
  {
    if |archive| < BLOCK then Failed(Truncated, state.staging)
    else if archive[..BLOCK] == Zeros(BLOCK) then TerminatorTurn(archive[BLOCK..], state)
    else HeaderTurn(archive[..BLOCK], archive[BLOCK..], state, root)
  }

  /** The whole loop: `Finished` carries the bytes drained behind the end marker. */
  function Run(archive: seq<byte>, state: State, root: Name): (end: Turn)
    ensures !end.Next?
    decreases |archive|
  {
    var turn := OneTurn(archive, state, root);
    if turn.Next? then Run(turn.rest, turn.state, root) else turn
  }

  // ---------------------------------------------------------------- the loop itself

  /** `read_exact`: the next `n` bytes, whatever pieces the transport delivers them in. */
  method ReadExact(archive: seq<byte>, position: nat, n: nat) returns (ok: bool, bytes: seq<byte>, after: nat)
    requires position <= |archive|
    ensures ok == (position + n <= |archive|)
    ensures position <= after <= |archive|
    ensures bytes == archive[position..after] && (ok ==> after == position + n) && (!ok ==> after == |archive|)
  {
    bytes, after := [], position;
    while |bytes| < n
      invariant position <= after <= |archive| && after - position == |bytes| <= n
      invariant bytes == archive[position..after]
    {
      var wanted, left := n - |bytes|, |archive| - after;
      if left == 0 {
        ok := false;
        return;
      }
      var got: nat :| 1 <= got <= wanted && got <= left;
      bytes := bytes + archive[after..after + got];
      after := after + got;
    }
    ok := true;
  }

  lemma Tails(archive: seq<byte>, i: nat, n: nat)
    requires i + n <= |archive|
    ensures archive[i..][n..] == archive[i + n..] && archive[i..][..n] == archive[i..i + n]
  {
  }

  /** What is left of a turn once the member's own bytes were handled: only its padding. */
  function BeforePadding(r: Read, rest: seq<byte>, size: nat): Turn {
    match r
    case Refused(error, staging) => Failed(error, staging)
    case Done(state) => SkipPadding(rest, size, state)
  }

  method ReadLongName(archive: seq<byte>, position: nat, size: nat, state: State)
    returns (r: Read, after: nat)
    requires position <= |archive|
    ensures position <= after <= |archive|
    ensures LongNameTurn(archive[position..], size, state) == BeforePadding(r, archive[after..], size)
  {
    if size > MAX_LONG_NAME || state.longName.Some? {
      return Refused(InvalidLongName, state.staging), position;
    }
    var ok, name;
    ok, name, after := ReadExact(archive, position, size);
    if !ok {
      return Refused(Truncated, state.staging), position;
    }
    Tails(archive, position, size);
    if name != [] && name[|name| - 1] == 0 {
      name := name[..|name| - 1];
    }
    r := Done(state.(longName := Some(name)));
  }

  method CreateFile(archive: seq<byte>, position: nat, size: nat, mode: Option<nat>, path: Path, state: State)
    returns (r: Read, after: nat)
    requires position <= |archive|
    ensures position <= after <= |archive|
    ensures FileTurn(archive[position..], size, mode, path, state) == BeforePadding(r, archive[after..], size)
  {
    if !CanCreate(state.staging, path) {
      return Refused(CannotCreate, state.staging), position;
    }
    // The file exists before its bytes are read, and stays when they are too few.
    var created := state.staging[path := FileNode([], UNSET_MODE)];
    var ok, content;
    ok, content, after := ReadExact(archive, position, size);
    created := created[path := FileNode(content, UNSET_MODE)];
    assert created == state.staging[path := FileNode(content, UNSET_MODE)];
    if !ok {
      assert content == archive[position..];
      return Refused(ShortMember, created), position;
    }
    Tails(archive, position, size);
    if mode == None {
      return Refused(InvalidField, created), position;
    }
    created := created[path := FileNode(content, mode.value % 512)];
    r := Done(state.(staging := created, counted := state.counted + size));
  }

  method ReadMember(archive: seq<byte>, position: nat, block: seq<byte>, size: nat, state: State, root: Name)
    returns (r: Read, after: nat)
    requires position <= |archive| && |block| == BLOCK
    ensures position <= after <= |archive|
    ensures MemberTurn(block, archive[position..], size, state, root) == BeforePadding(r, archive[after..], size)
  {
    var flag := HeaderFlag(block);
    after := position;
    if !IsFileFlag(flag) && flag != DIRECTORY_FLAG {
      return Refused(UnsupportedType, state.staging), position;
    }
    var path := if state.longName.Some? then state.longName.value else HeaderName(block);
    var taken := state.(longName := None);
    var relative := RelativeMember(path, root);
    if relative.Err? {
      return Refused(relative.error, state.staging), position;
    }
    var output := relative.value;
    if output == [] && flag != DIRECTORY_FLAG {
      return Refused(RootNotDirectory, state.staging), position;
    }
    if flag == DIRECTORY_FLAG {
      if size != 0 {
        return Refused(DirectoryPayload, state.staging), position;
      }
      if output != [] {
        if !CanCreate(taken.staging, output) {
          return Refused(CannotCreate, state.staging), position;
        }
        taken := taken.(staging := taken.staging[output := DirectoryNode]);
      }
      r := Done(taken);
    } else {
      r, after := CreateFile(archive, position, size, HeaderMode(block), output, taken);
    }
  }

  method ReadTerminator(archive: seq<byte>, position: nat, state: State) returns (end: Turn)
    requires position <= |archive|
    ensures end == TerminatorTurn(archive[position..], state) && !end.Next?
  {
    var ok, block, rest := ReadExact(archive, position, BLOCK);
    if !ok {
      return Failed(Truncated, state.staging);
    }
    Tails(archive, position, BLOCK);
    if block != Zeros(BLOCK) {
      return Failed(InvalidTerminator, state.staging);
    }
    if state.longName.Some? {
      return Failed(UnconsumedLongName, state.staging);
    }
    return Finished(archive[rest..], state);
  }

  /** The turn a header starts: `r` is the new state behind the member and its padding. */
  method ReadHeader(archive: seq<byte>, position: nat, block: seq<byte>, state: State, root: Name)
    returns (r: Read, after: nat)
    requires position <= |archive| && |block| == BLOCK
    ensures position <= after <= |archive|
    ensures HeaderTurn(block, archive[position..], state, root)
         == if r.Refused? then Failed(r.error, r.staging) else Next(archive[after..], r.state)
  {
    after := position;
    var checksum := OctalValue(ChecksumField(block));
    if checksum == None {
      return Refused(InvalidField, state.staging), position;
    }
    if checksum.value != Checksum(block) {
      return Refused(InvalidChecksum, state.staging), position;
    }
    var header := HeaderSize(block);
    if header == None {
      return Refused(InvalidField, state.staging), position;
    }
    var size := header.value;
    if HeaderFlag(block) == LONG_NAME_FLAG {
      r, after := ReadLongName(archive, position, size, state);
    } else {
      r, after := ReadMember(archive, position, block, size, state, root);
    }
    if r.Done? {
      var ok, padding, rest := ReadExact(archive, after, PaddingAfter(size));
      if !ok {
        return Refused(Truncated, r.state.staging), after;
      }
      Tails(archive, after, PaddingAfter(size));
      after := rest;
    }
  }

  method Extract(archive: seq<byte>, root: Name) returns (end: Turn)
    ensures end == Run(archive, Fresh, root)
  {
    var position: nat := 0;
    var state := Fresh;
    assert archive[0..] == archive;
    while true
      invariant position <= |archive|
      invariant Run(archive[position..], state, root) == Run(archive, Fresh, root)
      decreases |archive| - position
    {
      var ok, block, rest := ReadExact(archive, position, BLOCK);
      if !ok {
        return Failed(Truncated, state.staging);
      }
      Tails(archive, position, BLOCK);
      if block == Zeros(BLOCK) {
        end := ReadTerminator(archive, rest, state);
        return;
      }
      var next;
      next, position := ReadHeader(archive, rest, block, state, root);
      if next.Refused? {
        return Failed(next.error, next.staging);
      }
      state := next.state;
    }
  }

  // ---------------------------------------------------------------- every archive, well formed or not

  /** Nothing is staged outside the staging directory or without its parent directory. */
  ghost predicate Confined(staging: Staging) {
    forall path <- staging ::
      && path != [] && (forall i :: 0 <= i < |path| ==> ValidName(path[i]))
      && IsDirectory(staging, path[..|path| - 1])
  }

  /** Extraction only adds: whatever is staged stays as it is. */
  ghost predicate Extends(after: Staging, before: Staging) {
    forall path <- before :: path in after && after[path] == before[path]
  }

  ghost predicate PlainPath(path: Path) {
    forall i :: 0 <= i < |path| ==> PlainName(path[i])
  }

  lemma {:induction false} PieceNames(pieces: seq<seq<byte>>)
    requires forall i :: 0 <= i < |pieces| ==> SLASH !in pieces[i]
    ensures PlainPath(NormalNames(PieceComponents(pieces)))
  {
    if pieces != [] {
      PieceNames(pieces[1..]);
      var first := if pieces[0] == [] then [] else if pieces[0] == [46] then [CurDir]
                   else if pieces[0] == [46, 46] then [ParentDir] else [Normal(pieces[0])];
      NormalNamesAppend(first, PieceComponents(pieces[1..]));
      assert PlainPath(NormalNames(first));
    }
  }

  /** Whatever a member is called, it cannot lead out of the staging directory. */
  lemma RelativeIsConfined(path: seq<byte>, root: Name)
    requires Relative(path, root).Ok?
    ensures PlainPath(Relative(path, root).value)
  {
    SplitPieces(path, SLASH);
    PieceNames(Split(path, SLASH));
    var first := if path != [] && path[0] == SLASH then [RootDir] else [];
    NormalNamesAppend(first, PieceComponents(Split(path, SLASH)));
    assert NormalNames(first) == [];
    assert NormalNames(Components(path)) == NormalNames(PieceComponents(Split(path, SLASH)));
  }

  lemma CreateConfined(staging: Staging, path: Path, inode: Inode)
    requires Confined(staging) && CanCreate(staging, path) && PlainPath(path)
    ensures Confined(staging[path := inode]) && Extends(staging[path := inode], staging)
  {
    var after := staging[path := inode];
    var parent := path[..|path| - 1];
    assert IsDirectory(after, parent);
    forall i | 0 <= i < |path|
      ensures ValidName(path[i])
    {
      if i < |path| - 1 {
        assert parent in staging && parent[i] == path[i];
      }
    }
    forall other <- staging
      ensures IsDirectory(after, other[..|other| - 1])
    {
    }
  }

  /** What is staged after a turn, whether the loop goes on, ends or fails with it. */
  function Staged(turn: Turn): Staging {
    if turn.Failed? then turn.staging else turn.state.staging
  }

  /** One turn on any input keeps the staging directory confined and overwrites nothing. */
  lemma TurnConfined(archive: seq<byte>, state: State, root: Name)
    requires Confined(state.staging)
    ensures var turn := OneTurn(archive, state, root);
      Confined(Staged(turn)) && Extends(Staged(turn), state.staging)
  {
    hide Confined, Extends, ChecksumMatches, OctalValue, SizeValue, MemberTurn;
    UnchangedConfined(state.staging);
    if |archive| >= BLOCK {
      forall size {
        MemberConfined(archive[..BLOCK], archive[BLOCK..], size, state, root);
      }
    }
  }

  lemma UnchangedConfined(staging: Staging)
    ensures Extends(staging, staging)
  {
  }

  lemma MemberConfined(block: seq<byte>, rest: seq<byte>, size: nat, state: State, root: Name)
    requires Confined(state.staging) && |block| == BLOCK
    ensures var turn := MemberTurn(block, rest, size, state, root);
      Confined(Staged(turn)) && Extends(Staged(turn), state.staging)
  {
    hide Confined, Extends, OctalValue, Relative, CanCreate;
    UnchangedConfined(state.staging);
    var name := if state.longName.Some? then state.longName.value else HeaderName(block);
    var relative := Relative(name, root);
    if relative.Ok? && CanCreate(state.staging, relative.value) {
      RelativeIsConfined(name, root);
      CreateConfined(state.staging, relative.value, DirectoryNode);
      CreateConfined(state.staging, relative.value, FileNode(rest, UNSET_MODE));
      if size <= |rest| {
        CreateConfined(state.staging, relative.value, FileNode(rest[..size], UNSET_MODE));
        if HeaderMode(block).Some? {
          CreateConfined(state.staging, relative.value, FileNode(rest[..size], HeaderMode(block).value % 512));
        }
      }
    }
  }

  lemma {:induction false} ExtractionConfined(archive: seq<byte>, state: State, root: Name)
    requires Confined(state.staging)
    ensures var end := Run(archive, state, root);
      Confined(Staged(end)) && Extends(Staged(end), state.staging)
    decreases |archive|
  {
    TurnConfined(archive, state, root);
    var turn := OneTurn(archive, state, root);
    if turn.Next? {
      ExtractionConfined(turn.rest, turn.state, root);
    }
  }

  /** A turn that got all its bytes does not look at the bytes behind them. */
  lemma TurnExtends(archive: seq<byte>, more: seq<byte>, state: State, root: Name)
    ensures match OneTurn(archive, state, root)
      case Next(rest, after) => OneTurn(archive + more, state, root) == Next(rest + more, after)
      case Finished(trailing, after) => OneTurn(archive + more, state, root) == Finished(trailing + more, after)
      case Failed(_, _) => true
  {
    if |archive| >= BLOCK {
      var block, rest := archive[..BLOCK], archive[BLOCK..];
      assert (archive + more)[..BLOCK] == block && (archive + more)[BLOCK..] == rest + more;
      if block == Zeros(BLOCK) {
        if |rest| >= BLOCK {
          assert (rest + more)[..BLOCK] == rest[..BLOCK] && (rest + more)[BLOCK..] == rest[BLOCK..] + more;
        }
      } else {
        HeaderExtends(block, rest, more, state, root);
      }
    }
  }

  ghost predicate SameButLonger(turn: Turn, longer: Turn, more: seq<byte>) {
    turn.Next? ==> longer == Next(turn.rest + more, turn.state)
  }

  lemma SkipExtends(rest: seq<byte>, more: seq<byte>, taken: nat, size: nat, state: State)
    requires taken <= |rest|
    ensures (rest + more)[taken..] == rest[taken..] + more && (rest + more)[..taken] == rest[..taken]
    ensures SameButLonger(SkipPadding(rest[taken..], size, state), SkipPadding(rest[taken..] + more, size, state), more)
  {
    var tail := rest[taken..];
    if PaddingAfter(size) <= |tail| {
      assert (tail + more)[PaddingAfter(size)..] == tail[PaddingAfter(size)..] + more;
    }
  }

  lemma LongNameExtends(rest: seq<byte>, more: seq<byte>, size: nat, state: State)
    ensures !LongNameTurn(rest, size, state).Finished?
    ensures SameButLonger(LongNameTurn(rest, size, state), LongNameTurn(rest + more, size, state), more)
  {
    if size <= |rest| {
      SkipExtends(rest, more, size, size, state.(longName := Some(StripNul(rest[..size]))));
    }
  }

  lemma DirectoryExtends(rest: seq<byte>, more: seq<byte>, size: nat, path: Path, state: State)
    ensures !DirectoryTurn(rest, size, path, state).Finished?
    ensures SameButLonger(DirectoryTurn(rest, size, path, state), DirectoryTurn(rest + more, size, path, state), more)
  {
    assert rest[0..] == rest;
    SkipExtends(rest, more, 0, 0, state);
    SkipExtends(rest, more, 0, 0, state.(staging := state.staging[path := DirectoryNode]));
    hide CanCreate;
  }

  lemma FileExtends(rest: seq<byte>, more: seq<byte>, size: nat, mode: Option<nat>, path: Path, state: State)
    ensures !FileTurn(rest, size, mode, path, state).Finished?
    ensures SameButLonger(FileTurn(rest, size, mode, path, state), FileTurn(rest + more, size, mode, path, state), more)
  {
    if size <= |rest| && mode.Some? {
      var created := state.staging[path := FileNode(rest[..size], mode.value % 512)];
      SkipExtends(rest, more, size, size, state.(staging := created, counted := state.counted + size));
    }
    hide CanCreate, SkipPadding;
  }

  lemma MemberExtends(block: seq<byte>, rest: seq<byte>, more: seq<byte>, size: nat, state: State, root: Name)
    requires |block| == BLOCK
    ensures !MemberTurn(block, rest, size, state, root).Finished?
    ensures SameButLonger(MemberTurn(block, rest, size, state, root), MemberTurn(block, rest + more, size, state, root), more)
  {
    var path := if state.longName.Some? then state.longName.value else HeaderName(block);
    var taken := state.(longName := None);
    hide Relative, DirectoryTurn, FileTurn, HeaderMode, HeaderName;
    match Relative(path, root)
    case Err(_) =>
    case Ok(relative) =>
      DirectoryExtends(rest, more, size, relative, taken);
      FileExtends(rest, more, size, HeaderMode(block), relative, taken);
  }

  lemma HeaderExtends(block: seq<byte>, rest: seq<byte>, more: seq<byte>, state: State, root: Name)
    requires |block| == BLOCK
    ensures !HeaderTurn(block, rest, state, root).Finished?
    ensures SameButLonger(HeaderTurn(block, rest, state, root), HeaderTurn(block, rest + more, state, root), more)
  {
    hide ChecksumMatches, OctalValue, HeaderSize, LongNameTurn, MemberTurn, SameButLonger;
    match HeaderSize(block)
    case None =>
      FailedExtends(InvalidField, state.staging, more);
      FailedExtends(InvalidChecksum, state.staging, more);
    case Some(size) =>
      FailedExtends(InvalidField, state.staging, more);
      FailedExtends(InvalidChecksum, state.staging, more);
      LongNameExtends(rest, more, size, state);
      MemberExtends(block, rest, more, size, state, root);
  }

  lemma FailedExtends(error: Error, staging: Staging, more: seq<byte>)
    ensures SameButLonger(Failed(error, staging), Failed(error, staging), more)
  {
  }

  /** Bytes behind the end marker change nothing but what is drained. */
  lemma {:induction false} TrailingBytesIgnored(archive: seq<byte>, more: seq<byte>, state: State, root: Name)
    requires Run(archive, state, root).Finished?
    ensures var end := Run(archive, state, root);
      Run(archive + more, state, root) == Finished(end.trailing + more, end.state)
    decreases |archive|
  {
    TurnExtends(archive, more, state, root);
    var turn := OneTurn(archive, state, root);
    if turn.Next? {
      TrailingBytesIgnored(turn.rest, more, turn.state, root);
    }
  }

  /** An archive cut anywhere before the end of its end marker is never accepted. */
  lemma TruncationRejected(archive: seq<byte>, k: nat, state: State, root: Name)
    requires Run(archive, state, root).Finished?
    requires k < |archive| - |Run(archive, state, root).trailing|
    ensures Run(archive[..k], state, root).Failed?
  {
    assert archive[..k] + archive[k..] == archive;
    if Run(archive[..k], state, root).Finished? {
      TrailingBytesIgnored(archive[..k], archive[k..], state, root);
    }
  }
}

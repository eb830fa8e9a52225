/**
 * `stream` of `archive.rs`: walks a directory with an explicit stack of open listings and
 * emits a plain tar whose member names are relative to the walked directory.
 */
module TarStream {
  import opened Common
  import opened TarFormat

  type Name = seq<byte>
  type Path = seq<Name>

  /** What the walk finds: metadata first, then the bytes that reading the file delivers. */
  datatype Node =
    | File(mode: nat, mtime: nat, length: nat, data: seq<byte>)
    | Directory(mode: nat, mtime: nat, entries: Listing)
    | Other // a symbolic link, socket or device

  /** The entries one open directory still has to deliver, in delivery order. */
  datatype Listing = End | Entry(name: Name, node: Node, next: Listing)

  const CHUNK := 64 * 1024
  const SLASH: byte := 47
  // The name of the long-name record itself, which no reader of it uses.
  const LONG_LINK: seq<byte> := [46, 47, 46, 47, 64, 76, 111, 110, 103, 76, 105, 110, 107] // "././@LongLink"
  const LONG_NAME: seq<byte> := [108, 111, 110, 103, 45, 110, 97, 109, 101] // "long-name"

  /** The bytes of a relative path. */
  function Join(path: Path): seq<byte> {
    if path == [] then []
    else if |path| == 1 then path[0]
    else Join(path[..|path| - 1]) + [SLASH] + path[|path| - 1]
  }

  // ---------------------------------------------------------------- what may be archived

  /** A name that stays in its directory. */
  predicate PlainName(name: Name) {
    name != [] && SLASH !in name && name != [46] && name != [46, 46]
  }

  /** A name a directory entry can have. */
  predicate ValidName(name: Name) {
    PlainName(name) && 0 !in name
  }

  predicate HasName(listing: Listing, name: Name) {
    match listing
    case End => false
    case Entry(other, _, next) => other == name || HasName(next, name)
  }

  /** A directory a file system can hold: valid, distinct sibling names and 64-bit metadata. */
  predicate WellFormed(listing: Listing) {
    match listing
    case End => true
    case Entry(name, node, next) =>
      && ValidName(name) && !HasName(next, name)
      && WellFormed(next)
      && match node
         case File(_, mtime, length, _) => mtime < U64_LIMIT && length < U64_LIMIT
         case Directory(_, mtime, entries) => mtime < U64_LIMIT && WellFormed(entries)
         case Other => true
  }

  /** The trees `stream` accepts: no special entries, and no file shorter than its metadata says. */
  predicate Archivable(listing: Listing) {
    match listing
    case End => true
    case Entry(_, node, next) =>
      && Archivable(next)
      && match node
         case File(_, _, length, data) => length <= |data|
         case Directory(_, _, entries) => Archivable(entries)
         case Other => false
  }

  /** The content bytes below a directory, which is what both transfer counters count. */
  function ContentBytes(listing: Listing): nat {
    match listing
    case End => 0
    case Entry(_, node, next) =>
      (match node
       case File(_, _, length, _) => length
       case Directory(_, _, entries) => ContentBytes(entries)
       case Other => 0) + ContentBytes(next)
  }

  // ---------------------------------------------------------------- the archive as a value

  function PaddingAfter(size: nat): nat {
    (BLOCK - size % BLOCK) % BLOCK
  }

  /** The GNU `L` record in front of a member whose name the name field cannot hold. */
  function LongRecord(name: seq<byte>): seq<byte>
    requires |name| + 1 < U64_LIMIT
  {
    Seal(HeaderFront(LONG_LINK, Zeros(8), |name| + 1, 0), HeaderBack(LONG_NAME_FLAG))
      + name + Zeros(BLOCK - |name| % BLOCK)
  }

  /** The header block itself, with permission bits only. */
  function MemberHeader(name: seq<byte>, mode: nat, mtime: nat, size: nat, flag: byte): (block: seq<byte>)
    requires |name| <= NAME_FIELD && mtime < U64_LIMIT && size < U64_LIMIT
    ensures |block| == BLOCK
  {
    Seal(HeaderFront(name, OctalField(mode % 512, 8), size, mtime), HeaderBack(flag))
  }

  /** A member's header blocks: the long-name record when needed, then the header itself. */
  function MemberHead(name: seq<byte>, mode: nat, mtime: nat, size: nat, flag: byte): seq<byte>
    requires |name| + 1 < U64_LIMIT && mtime < U64_LIMIT && size < U64_LIMIT
  {
    if |name| <= NAME_FIELD then MemberHeader(name, mode, mtime, size, flag)
    else LongRecord(name) + MemberHeader(LONG_NAME, mode, mtime, size, flag)
  }

  function FileMember(name: seq<byte>, mode: nat, mtime: nat, content: seq<byte>): seq<byte>
    requires |name| + 1 < U64_LIMIT && mtime < U64_LIMIT && |content| < U64_LIMIT
  {
    MemberHead(name, mode, mtime, |content|, REGULAR_FLAG) + content + Zeros(PaddingAfter(|content|))
  }

  function DirectoryMember(name: seq<byte>, mode: nat, mtime: nat): seq<byte>
    requires |name| + 1 < U64_LIMIT && mtime < U64_LIMIT
  {
    MemberHead(name, mode, mtime, 0, DIRECTORY_FLAG)
  }

  /** Every member path below `prefix` is short enough for a length field. */
  predicate NamesFit(prefix: Path, listing: Listing, limit: nat)
    decreases listing
  {
    match listing
    case End => true
    case Entry(name, node, next) =>
      && |Join(prefix + [name])| + 1 <= limit
      && (node.Directory? ==> NamesFit(prefix + [name], node.entries, limit))
      && NamesFit(prefix, next, limit)
  }

  /** The members of one directory and everything below it, parents first. */
  function Members(prefix: Path, listing: Listing): seq<byte>
    requires WellFormed(listing) && Archivable(listing) && NamesFit(prefix, listing, U64_LIMIT - 1)
    decreases listing
  {
    match listing
    case End => []
    case Entry(name, node, next) =>
      var path := prefix + [name];
      (match node
       case File(mode, mtime, length, data) => FileMember(Join(path), mode, mtime, data[..length])
       case Directory(mode, mtime, entries) =>
         DirectoryMember(Join(path), mode, mtime) + Members(path, entries))
        + Members(prefix, next)
  }

  const TERMINATOR: seq<byte> := Zeros(2 * BLOCK)

  // ---------------------------------------------------------------- the walk

  /** An open directory: its path below the walked root and the entries not delivered yet. */
  datatype Open = Open(prefix: Path, rest: Listing)

  ghost predicate StackOk(stack: seq<Open>) {
    forall o <- stack :: WellFormed(o.rest) && NamesFit(o.prefix, o.rest, U64_LIMIT - 1)
  }

  ghost predicate StackArchivable(stack: seq<Open>) {
    forall o <- stack :: Archivable(o.rest)
  }

  /** What the walk still has to emit: the deepest open directory first. */
  ghost function StackMembers(stack: seq<Open>): seq<byte>
    requires StackOk(stack) && StackArchivable(stack)
  {
    if stack == [] then []
    else
      var top := stack[|stack| - 1];
      Members(top.prefix, top.rest) + StackMembers(stack[..|stack| - 1])
  }

  ghost function StackContent(stack: seq<Open>): nat {
    if stack == [] then 0
    else ContentBytes(stack[|stack| - 1].rest) + StackContent(stack[..|stack| - 1])
  }

  function Weight(listing: Listing): nat {
    match listing
    case End => 0
    case Entry(_, node, next) => 1 + (if node.Directory? then Weight(node.entries) + 1 else 0) + Weight(next)
  }

  ghost function StackWeight(stack: seq<Open>): nat {
    if stack == [] then 0
    else 1 + Weight(stack[|stack| - 1].rest) + StackWeight(stack[..|stack| - 1])
  }

  lemma Pushed(below: seq<Open>, top: Open)
    ensures StackOk(below + [top])
        <==> StackOk(below) && WellFormed(top.rest) && NamesFit(top.prefix, top.rest, U64_LIMIT - 1)
    ensures StackArchivable(below + [top]) <==> StackArchivable(below) && Archivable(top.rest)
    ensures StackContent(below + [top]) == ContentBytes(top.rest) + StackContent(below)
    ensures StackWeight(below + [top]) == 1 + Weight(top.rest) + StackWeight(below)
    ensures StackOk(below + [top]) && StackArchivable(below + [top]) ==>
      StackMembers(below + [top]) == Members(top.prefix, top.rest) + StackMembers(below)
  {
    var stack := below + [top];
    assert stack[..|stack| - 1] == below && stack[|stack| - 1] == top;
    assert forall o <- below :: o in stack;
    assert top in stack;
  }

  /** The header fields can hold the entry's name length, size and modification time. */
  predicate CanEmit(path: Path, node: Node) {
    && |Join(path)| + 1 < U64_LIMIT
    && (node.File? ==> node.mtime < U64_LIMIT && node.length < U64_LIMIT)
    && (node.Directory? ==> node.mtime < U64_LIMIT)
  }

  /** `stream` goes on behind this entry. */
  predicate Emittable(node: Node) {
    !node.Other? && (node.File? ==> node.length <= |node.data|)
  }

  function Content(node: Node): nat {
    if node.File? then node.length else 0
  }

  /** The bytes emitted for one entry itself. */
  function Emitted(path: Path, node: Node): seq<byte>
    requires CanEmit(path, node) && Emittable(node)
  {
    match node
    case File(mode, mtime, length, data) => FileMember(Join(path), mode, mtime, data[..length])
    case Directory(mode, mtime, _) => DirectoryMember(Join(path), mode, mtime)
  }

  /** The stack after the first entry of its top directory was delivered. */
  function Delivered(below: seq<Open>, top: Open): seq<Open>
    requires top.rest.Entry?
  {
    var resumed := below + [Open(top.prefix, top.rest.next)];
    if top.rest.node.Directory? then resumed + [Open(top.prefix + [top.rest.name], top.rest.node.entries)] else resumed
  }

  /** Delivering one entry makes the remaining walk smaller and keeps what it may deliver. */
  lemma DeliveryShrinks(below: seq<Open>, top: Open)
    requires top.rest.Entry? && StackOk(below + [top])
    ensures StackOk(Delivered(below, top))
    ensures StackWeight(Delivered(below, top)) < StackWeight(below + [top])
    ensures StackArchivable(below + [top]) <==>
      StackArchivable(Delivered(below, top)) && Emittable(top.rest.node)
    ensures StackArchivable(below + [top]) ==>
      StackContent(below + [top])
        == Content(top.rest.node) + StackContent(Delivered(below, top))
  {
    var resumed := Open(top.prefix, top.rest.next);
    Pushed(below, top);
    Pushed(below, resumed);
    if top.rest.node.Directory? {
      Pushed(below + [resumed], Open(top.prefix + [top.rest.name], top.rest.node.entries));
    }
  }

  /** The members below one entry. */
  function Under(path: Path, node: Node): seq<byte>
    requires node.Directory? ==>
      WellFormed(node.entries) && Archivable(node.entries) && NamesFit(path, node.entries, U64_LIMIT - 1)
  {
    if node.Directory? then Members(path, node.entries) else []
  }

  lemma MembersSplit(prefix: Path, listing: Listing)
    requires listing.Entry? && WellFormed(listing) && Archivable(listing)
    requires NamesFit(prefix, listing, U64_LIMIT - 1)
    ensures var path := prefix + [listing.name];
      Members(prefix, listing)
      == (Emitted(path, listing.node) + Under(path, listing.node)) + Members(prefix, listing.next)
  {
  }

  /** Delivering one entry moves exactly its own bytes from what remains to what was emitted. */
  lemma DeliveryEmits(out: seq<byte>, below: seq<Open>, top: Open)
    requires top.rest.Entry? && StackOk(below + [top]) && StackArchivable(below + [top])
    requires StackOk(Delivered(below, top)) && StackArchivable(Delivered(below, top))
    ensures out + StackMembers(below + [top])
         == (out + Emitted(top.prefix + [top.rest.name], top.rest.node)) + StackMembers(Delivered(below, top))
  {
    var path := top.prefix + [top.rest.name];
    var node := top.rest.node;
    Pushed(below, top);
    MembersSplit(top.prefix, top.rest);
    DeliveredMembers(below, top);
    Regroup(out, Emitted(path, node), Under(path, node), Members(top.prefix, top.rest.next), StackMembers(below));
  }

  lemma DeliveredMembers(below: seq<Open>, top: Open)
    requires top.rest.Entry? && StackOk(below + [top]) && StackArchivable(below + [top])
    requires StackOk(below) && StackArchivable(below)
    requires StackOk(Delivered(below, top)) && StackArchivable(Delivered(below, top))
    ensures StackMembers(Delivered(below, top))
         == Under(top.prefix + [top.rest.name], top.rest.node)
            + (Members(top.prefix, top.rest.next) + StackMembers(below))
  {
    var resumed := Open(top.prefix, top.rest.next);
    Pushed(below, top);
    Pushed(below, resumed);
    if top.rest.node.Directory? {
      Pushed(below + [resumed], Open(top.prefix + [top.rest.name], top.rest.node.entries));
    } else {
      var remaining := Members(top.prefix, top.rest.next) + StackMembers(below);
      assert remaining == [] + remaining;
    }
  }

  lemma Regroup(out: seq<byte>, own: seq<byte>, under: seq<byte>, rest: seq<byte>, outer: seq<byte>)
    ensures out + (((own + under) + rest) + outer) == (out + own) + (under + (rest + outer))
  {
    ConcatAssoc(own + under, rest, outer);
    ConcatAssoc(own, under, rest + outer);
    ConcatAssoc(out, own, under + (rest + outer));
  }

  /** What holds between two turns of the walk: emitted bytes and remaining members make the archive. */
  ghost predicate Walking(root: Listing, stack: seq<Open>, out: seq<byte>, counted: nat)
    requires WellFormed(root) && NamesFit([], root, U64_LIMIT - 1)
  {
    && StackOk(stack)
    && (Archivable(root) <==> StackArchivable(stack))
    && (Archivable(root) ==> out + StackMembers(stack) == Members([], root))
    && (Archivable(root) ==> counted + StackContent(stack) == ContentBytes(root))
  }

  lemma WalkStarts(root: Listing)
    requires WellFormed(root) && NamesFit([], root, U64_LIMIT - 1)
    ensures Walking(root, [Open([], root)], [], 0)
  {
    var stack := [Open([], root)];
    Pushed([], stack[0]);
    assert [] + [stack[0]] == stack;
    assert Archivable(root) ==> [] + StackMembers(stack) == Members([], root);
  }

  lemma WalkLeaves(root: Listing, below: seq<Open>, top: Open, out: seq<byte>, counted: nat)
    requires WellFormed(root) && NamesFit([], root, U64_LIMIT - 1)
    requires Walking(root, below + [top], out, counted) && top.rest.End?
    ensures Walking(root, below, out, counted)
    ensures StackWeight(below) < StackWeight(below + [top])
  {
    Pushed(below, top);
    assert StackArchivable(below) ==> StackMembers(below) == [] + StackMembers(below);
  }

  lemma WalkDelivers(root: Listing, below: seq<Open>, top: Open, out: seq<byte>, counted: nat)
    requires WellFormed(root) && NamesFit([], root, U64_LIMIT - 1)
    requires Walking(root, below + [top], out, counted) && top.rest.Entry?
    ensures CanEmit(top.prefix + [top.rest.name], top.rest.node)
    ensures Emittable(top.rest.node) ==>
      Walking(root, Delivered(below, top), out + Emitted(top.prefix + [top.rest.name], top.rest.node),
              counted + Content(top.rest.node))
    ensures !Emittable(top.rest.node) ==> !Archivable(root)
    ensures StackWeight(Delivered(below, top)) < StackWeight(below + [top])
  {
    Pushed(below, top);
    DeliveryShrinks(below, top);
    if Archivable(root) {
      DeliveryEmits(out, below, top);
    }
  }

  /** Reads one file in chunks of whatever size the reads deliver, at most `CHUNK` bytes each. */
  method CopyContent(length: nat, data: seq<byte>) returns (ok: bool, out: seq<byte>)
    ensures ok == (length <= |data|)
    ensures ok ==> out == data[..length]
  {
    out, ok := [], true;
    var remaining := length;
    while remaining > 0
      invariant 0 <= remaining <= length && length - remaining == |out| <= |data|
      invariant out == data[..|out|]
    {
      var limit := if remaining < CHUNK then remaining else CHUNK;
      var left := |data| - |out|;
      if left == 0 {
        ok := false; // the source shrank
        return;
      }
      var count: nat :| 1 <= count <= limit && count <= left;
      out := out + data[|out|..|out| + count];
      remaining := remaining - count;
    }
    assert |out| == length;
  }

  /** Emits one entry itself; a directory's own entries follow later in the walk. */
  method Deliver(path: Path, node: Node) returns (ok: bool, out: seq<byte>, counted: nat)
    requires CanEmit(path, node)
    ensures ok == Emittable(node)
    ensures ok ==> out == Emitted(path, node) && counted == Content(node)
  {
    ok, out, counted := true, [], 0;
    match node
    case Other =>
      ok := false;
    case File(mode, mtime, length, data) =>
      var content;
      ok, content := CopyContent(length, data);
      if ok {
        out := FileMember(Join(path), mode, mtime, content);
        counted := length;
      }
    case Directory(mode, mtime, _) =>
      out := DirectoryMember(Join(path), mode, mtime);
  }

  /**
   * The producer. `ok` is false when it stops with an error, in which case the request that
   * carries the archive fails; otherwise `out` is the whole archive and `counted` the progress.
   */
  method Stream(root: Listing) returns (ok: bool, out: seq<byte>, counted: nat)
    requires WellFormed(root) && NamesFit([], root, U64_LIMIT - 1)
    ensures ok == Archivable(root)
    ensures ok ==> out == Members([], root) + TERMINATOR
    ensures ok ==> counted == ContentBytes(root)
  {
    ok, out, counted := true, [], 0;
    var stack := [Open([], root)];
    WalkStarts(root);
    while stack != []
      invariant Walking(root, stack, out, counted)
      decreases StackWeight(stack)
    {
      var directory, below := stack[|stack| - 1], stack[..|stack| - 1];
      assert stack == below + [directory];
      match directory.rest
      case End =>
        WalkLeaves(root, below, directory, out, counted);
        stack := below;
      case Entry(name, node, next) =>
        WalkDelivers(root, below, directory, out, counted);
        var path := directory.prefix + [name];
        var delivered, bytes, count := Deliver(path, node);
        if !delivered {
          ok := false;
          return;
        }
        out, counted := out + bytes, counted + count;
        stack := below + [Open(directory.prefix, next)];
        if node.Directory? {
          stack := stack + [Open(path, node.entries)];
        }
        assert stack == Delivered(below, directory);
    }
    assert out + [] == out;
    out := out + TERMINATOR;
  }
}

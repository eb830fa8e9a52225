/** Relative upload paths, as `upload-queue.ts`, `upload-plan.ts` and `path.ts` treat them. */
module UploadPaths {
  import opened Common

  const SLASH: char := '/'

  function ReplaceBackslashes(path: string): (r: string)
    ensures |r| == |path|
  {
    seq(|path|, i requires 0 <= i < |path| => if path[i] == '\\' then '/' else path[i])
  }

  function StripDotSlash(path: string): string {
    if |path| >= 2 && path[..2] == "./" then path[2..] else path
  }

  /** A piece of a path that names an entry of the directory it is in. */
  predicate PlainComponent(piece: string) {
    piece != "" && piece != "." && piece != ".." && SLASH !in piece
  }

  predicate PlainPieces(pieces: seq<string>) {
    forall i :: 0 <= i < |pieces| ==> PlainComponent(pieces[i])
  }

  /** Accepts only paths that stay below the destination; `None` is the thrown error. */
  function Normalize(path: string): Option<string> {
    var normalized := StripDotSlash(ReplaceBackslashes(path));
    var components := Split(normalized, SLASH);
    if normalized == "" || normalized[0] == SLASH
       || exists i :: 0 <= i < |components| && (components[i] == "" || components[i] == "." || components[i] == "..")
    then None else Some(normalized)
  }

  /** A path whose every component is plain, so that it cannot leave the destination. */
  predicate Contained(path: string) {
    PlainPieces(Split(path, SLASH)) && '\\' !in path
  }

  /** What is accepted is contained, and accepting it again changes nothing. */
  lemma NormalizedIsContained(path: string)
    requires Normalize(path).Some?
    ensures Contained(Normalize(path).value)
    ensures Normalize(Normalize(path).value) == Normalize(path)
  {
    var normalized := Normalize(path).value;
    SplitPieces(normalized, SLASH);
    var replaced := ReplaceBackslashes(path);
    assert forall i :: 0 <= i < |replaced| ==> replaced[i] != '\\';
    assert '\\' !in normalized;
    ContainedIsNormal(normalized);
  }

  lemma ContainedIsNormal(path: string)
    requires Contained(path)
    ensures Normalize(path) == Some(path)
  {
    assert ReplaceBackslashes(path) == path;
    FirstPiece(path);
  }

  lemma FirstPiece(path: string)
    ensures path == "" || path[0] == SLASH ==> Split(path, SLASH)[0] == ""
    ensures |path| >= 2 && path[..2] == "./" ==> Split(path, SLASH)[0] == "."
  {
    if |path| >= 2 && path[..2] == "./" {
      assert path == "." + [SLASH] + path[2..];
      SplitAt(".", path[2..], SLASH);
      SplitFree(".", SLASH);
    }
  }

  // ---------------------------------------------------------------- top-level names

  function IndexOfSlash(path: string): (i: nat)
    ensures i <= |path| && SLASH !in path[..i]
    ensures i < |path| ==> path[i] == SLASH
  {
    if path == "" || path[0] == SLASH then 0 else 1 + IndexOfSlash(path[1..])
  }

  /** The item a path creates in the destination. */
  function TopName(path: string): string {
    path[..IndexOfSlash(path)]
  }

  /** What follows the item's name, if the path leads below it. */
  function Rest(path: string): Option<string> {
    var i := IndexOfSlash(path);
    if i == |path| then None else Some(path[i + 1..])
  }

  lemma TopNameAndRest(path: string)
    ensures match Rest(path)
      case None => path == TopName(path)
      case Some(rest) => path == TopName(path) + [SLASH] + rest
    ensures SLASH !in TopName(path)
  {
  }

  lemma {:induction false} SlashIndexUnique(name: string, tail: string)
    requires SLASH !in name
    ensures IndexOfSlash(name + [SLASH] + tail) == |name| && IndexOfSlash(name) == |name|
  {
    if name != "" {
      SlashIndexUnique(name[1..], tail);
      assert (name + [SLASH] + tail)[1..] == name[1..] + [SLASH] + tail;
    }
  }

  /** A name followed by a path below it splits back into the two. */
  lemma JoinedSplits(name: string, rest: string)
    requires SLASH !in name
    ensures TopName(name + [SLASH] + rest) == name && Rest(name + [SLASH] + rest) == Some(rest)
    ensures TopName(name) == name && Rest(name) == None
  {
    SlashIndexUnique(name, rest);
  }

  // ---------------------------------------------------------------- absolute paths on the agent

  /** `joinBrowserPath`. */
  function JoinPath(directory: string, name: string): string {
    if directory != "" && directory[|directory| - 1] == SLASH then directory + name
    else directory + [SLASH] + name
  }

  function LastSlash(path: string): (i: Option<nat>)
    ensures i.Some? ==> i.value < |path|
  {
    if path == "" then None
    else if path[|path| - 1] == SLASH then Some(|path| - 1)
    else LastSlash(path[..|path| - 1])
  }

  /** `getUploadParentPath`: the directory a file upload needs. */
  function ParentPath(destination: string, relative: string): string {
    match LastSlash(relative)
    case None => destination
    case Some(i) => JoinPath(destination, relative[..i])
  }
}

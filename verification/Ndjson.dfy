/** Newline-delimited JSON read from chunks that may cut lines anywhere. */
module Ndjson {
  import opened Common

  const NEWLINE := '\n'

  /** The lines of a text that end with a newline, and what is behind the last of them. */
  function Whole(text: string): seq<string> {
    var pieces := Split(text, NEWLINE);
    pieces[..|pieces| - 1]
  }

  function Partial(text: string): string {
    var pieces := Split(text, NEWLINE);
    pieces[|pieces| - 1]
  }

  function NonEmpty(lines: seq<string>): seq<string> {
    if lines == [] then [] else (if lines[0] == "" then [] else [lines[0]]) + NonEmpty(lines[1..])
  }

  /** The non-empty lines a text completes. */
  function Lines(text: string): seq<string> {
    NonEmpty(Whole(text))
  }

  /** What `JSON.parse` makes of the lines; `None` stands for an exception. */
  function ParseAll<T>(lines: seq<string>, parse: string -> Option<T>): (parsed: Option<seq<T>>)
    ensures parsed.Some? ==> |parsed.value| == |lines|
  {
    if lines == [] then Some([])
    else
      var first, rest := parse(lines[0]), ParseAll(lines[1..], parse);
      if first.Some? && rest.Some? then Some([first.value] + rest.value) else None
  }

  datatype End = Finished | CutOff | BadLine

  datatype State<T> = State(partial: string, yielded: seq<seq<T>>, failed: bool)

  /** One chunk: its completed lines are yielded as one batch, unless there are none or one is bad. */
  function Step<T>(s: State<T>, chunk: string, parse: string -> Option<T>): State<T> {
    if s.failed then s
    else
      var batch := ParseAll(Lines(s.partial + chunk), parse);
      if batch.None? then s.(failed := true)
      else State(Partial(s.partial + chunk), if batch.value == [] then s.yielded else s.yielded + [batch.value], false)
  }

  function Steps<T>(chunks: seq<string>, parse: string -> Option<T>): State<T> {
    if chunks == [] then State("", [], false) else Step(Steps(chunks[..|chunks| - 1], parse), chunks[|chunks| - 1], parse)
  }

  function EndOf<T>(s: State<T>): End {
    if s.failed then BadLine else if s.partial != "" then CutOff else Finished
  }

  /**
   * `streamNdjson`, from the first chunk to its end. Batches are never empty; a good stream yields
   * exactly its lines; and how it ends depends on the text alone.
   */
  method StreamNdjson<T>(chunks: seq<string>, parse: string -> Option<T>) returns (yielded: seq<seq<T>>, end: End)
    ensures yielded == Steps(chunks, parse).yielded && end == EndOf(Steps(chunks, parse))
    ensures forall batch <- yielded :: batch != []
    ensures var text := Flatten(chunks);
      var parsed := ParseAll(Lines(text), parse);
      && end == (if parsed.None? then BadLine else if Partial(text) != "" then CutOff else Finished)
      && (parsed.Some? ==> Flatten(yielded) == parsed.value)
  {
    var partial := "";
    yielded := [];
    for i := 0 to |chunks|
      invariant Steps(chunks[..i], parse) == State(partial, yielded, false)
      invariant forall batch <- yielded :: batch != []
    {
      assert chunks[..i + 1][..i] == chunks[..i];
      var pieces := Split(partial + chunks[i], NEWLINE);
      var lines := NonEmpty(pieces[..|pieces| - 1]);
      var batch := ParseAll(lines, parse);
      if batch.None? {
        FailureStays(chunks, parse, i + 1);
        StreamIsText(chunks, parse);
        return yielded, BadLine;
      }
      partial := pieces[|pieces| - 1];
      if |batch.value| > 0 {
        yielded := yielded + [batch.value];
      }
    }
    assert chunks[..|chunks|] == chunks;
    StreamIsText(chunks, parse);
    end := if partial != "" then CutOff else Finished;
  }

  lemma {:induction false} FailureStays<T>(chunks: seq<string>, parse: string -> Option<T>, n: nat)
    requires n <= |chunks| && Steps(chunks[..n], parse).failed
    ensures Steps(chunks, parse) == Steps(chunks[..n], parse)
  {
    if n < |chunks| {
      assert chunks[..|chunks| - 1][..n] == chunks[..n];
      FailureStays(chunks[..|chunks| - 1], parse, n);
    } else {
      assert chunks[..n] == chunks;
    }
  }

  // ---------------------------------------------------------------- chunks against the whole text

  /** More text continues the unfinished line. */
  lemma MoreText(a: string, b: string)
    ensures Whole(a + b) == Whole(a) + Whole(Partial(a) + b) && Partial(a + b) == Partial(Partial(a) + b)
  {
    SplitContinues(a, b, NEWLINE);
    hide Split;
    var pieces, behind := Split(a, NEWLINE), Split(Partial(a) + b, NEWLINE);
    assert (pieces[..|pieces| - 1] + behind)[..|pieces| - 1 + |behind| - 1] == pieces[..|pieces| - 1] + behind[..|behind| - 1];
  }

  lemma {:induction false} NonEmptyConcat(a: seq<string>, b: seq<string>)
    ensures NonEmpty(a + b) == NonEmpty(a) + NonEmpty(b)
  {
    if a == [] {
      assert a + b == b;
    } else {
      NonEmptyConcat(a[1..], b);
      assert (a + b)[1..] == a[1..] + b && (a + b)[0] == a[0];
      ConcatAssoc(if a[0] == "" then [] else [a[0]], NonEmpty(a[1..]), NonEmpty(b));
    }
  }

  lemma LinesContinue(a: string, b: string)
    ensures Lines(a + b) == Lines(a) + Lines(Partial(a) + b) && Partial(a + b) == Partial(Partial(a) + b)
  {
    MoreText(a, b);
    NonEmptyConcat(Whole(a), Whole(Partial(a) + b));
  }

  lemma {:induction false} ParseConcat<T>(a: seq<string>, b: seq<string>, parse: string -> Option<T>)
    ensures var pa, pb := ParseAll(a, parse), ParseAll(b, parse);
      ParseAll(a + b, parse) == if pa.Some? && pb.Some? then Some(pa.value + pb.value) else None
  {
    if a == [] {
      assert a + b == b;
      assert ParseAll(b, parse).Some? ==> [] + ParseAll(b, parse).value == ParseAll(b, parse).value;
    } else {
      ParseConcat(a[1..], b, parse);
      assert (a + b)[1..] == a[1..] + b && (a + b)[0] == a[0];
      var first, pa, pb := parse(a[0]), ParseAll(a[1..], parse), ParseAll(b, parse);
      if first.Some? && pa.Some? && pb.Some? {
        ConcatAssoc([first.value], pa.value, pb.value);
      }
    }
  }

  /** The state after some chunks is a function of their concatenation, until a line is bad. */
  lemma {:induction false} StreamIsText<T>(chunks: seq<string>, parse: string -> Option<T>)
    ensures var s, text := Steps(chunks, parse), Flatten(chunks);
      var parsed := ParseAll(Lines(text), parse);
      && (s.failed <==> parsed.None?)
      && (!s.failed ==> s.partial == Partial(text) && Flatten(s.yielded) == parsed.value)
  {
    if chunks != [] {
      var front, last := chunks[..|chunks| - 1], chunks[|chunks| - 1];
      StreamIsText(front, parse);
      var s, text := Steps(front, parse), Flatten(front);
      LinesContinue(text, last);
      ParseConcat(Lines(text), Lines(Partial(text) + last), parse);
      if !s.failed {
        var batch := ParseAll(Lines(s.partial + last), parse);
        if batch.Some? {
          FlattenMore(s.yielded, batch.value);
        }
      }
    }
  }

  /** Until the stream fails, the batches are the lines before a line that is bad or still to come. */
  lemma {:induction false} YieldsArePrefix<T>(chunks: seq<string>, parse: string -> Option<T>)
    ensures exists n :: (
      && 0 <= n <= |Lines(Flatten(chunks))|
      && ParseAll(Lines(Flatten(chunks))[..n], parse) == Some(Flatten(Steps(chunks, parse).yielded)))
  {
    StreamIsText(chunks, parse);
    var lines, yielded := Lines(Flatten(chunks)), Flatten(Steps(chunks, parse).yielded);
    if !Steps(chunks, parse).failed {
      assert lines[..|lines|] == lines;
    } else {
      assert chunks != [];
      var front, last := chunks[..|chunks| - 1], chunks[|chunks| - 1];
      var before := Lines(Flatten(front));
      YieldsArePrefix(front, parse);
      LinesContinue(Flatten(front), last);
      assert before <= lines && yielded == Flatten(Steps(front, parse).yielded);
      hide Lines, Partial, Steps, Flatten, ParseAll;
      var n :| 0 <= n <= |before| && ParseAll(before[..n], parse) == Some(yielded);
      assert lines[..n] == before[..n];
    }
  }

  // ---------------------------------------------------------------- where the chunks matter

  /** Every division of the text into chunks yields the same values. */
  ghost predicate ChunksDoNotMatter<T(!new)>(text: string, parse: string -> Option<T>) {
    forall a, b :: Flatten(a) == text && Flatten(b) == text ==>
      Flatten(Steps(a, parse).yielded) == Flatten(Steps(b, parse).yielded)
  }

  /** One more character completes one line at most. */
  lemma LinesMore(text: string, c: char)
    ensures Lines(text) <= Lines(text + [c]) && |Lines(text + [c])| <= |Lines(text)| + 1
  {
    var partial := Partial(text);
    SplitPieces(text, NEWLINE);
    LinesContinue(text, [c]);
    if c == NEWLINE {
      SplitAt(partial, [], NEWLINE);
      SplitFree(partial, NEWLINE);
      assert partial + [c] + [] == partial + [c];
    } else {
      SplitFree(partial + [c], NEWLINE);
    }
    assert |Whole(partial + [c])| <= 1;
    hide Split;
    var whole := Whole(partial + [c]);
    if whole != [] {
      assert whole[1..] == [] && NonEmpty([]) == [];
    }
  }

  /** Some beginning of the text completes its first non-empty line and no other. */
  lemma {:induction false} FirstLineEnds(text: string) returns (end: nat)
    requires Lines(text) != []
    ensures end <= |text| && Lines(text[..end]) == [Lines(text)[0]]
  {
    assert text != "";
    var front := text[..|text| - 1];
    LinesMore(front, text[|text| - 1]);
    assert front + [text[|text| - 1]] == text;
    if Lines(front) == [] {
      end := |text|;
      assert text[..end] == text;
    } else {
      end := FirstLineEnds(front);
      assert front[..end] == text[..end];
    }
  }

  lemma TwoChunks(text: string, end: nat)
    requires end <= |text|
    ensures Flatten([text[..end]]) == text[..end] && Flatten([text]) == text
    ensures Flatten([text[..end], text[end..]]) == text
  {
    assert [text[..end], text[end..]][..1] == [text[..end]] && [text[..end]][..0] == [] && [text][..0] == [];
    assert text[..end] + text[end..] == text && [] + text == text && [] + text[..end] == text[..end];
  }

  /** A first line that is bad ends every stream before anything is yielded. */
  lemma FirstLineBad<T>(chunks: seq<string>, parse: string -> Option<T>)
    requires Lines(Flatten(chunks)) != [] && parse(Lines(Flatten(chunks))[0]).None?
    ensures Flatten(Steps(chunks, parse).yielded) == []
  {
    var lines := Lines(Flatten(chunks));
    YieldsArePrefix(chunks, parse);
    var n :| 0 <= n <= |lines| && ParseAll(lines[..n], parse) == Some(Flatten(Steps(chunks, parse).yielded));
    if n > 0 {
      BadLineFirst(lines[..n], parse);
    }
  }

  lemma BadLineFirst<T>(lines: seq<string>, parse: string -> Option<T>)
    requires lines != [] && parse(lines[0]).None?
    ensures ParseAll(lines, parse).None?
  {
  }

  /** With a later bad line, a chunk that ends behind the first line yields it, and a single chunk does not. */
  lemma {:induction false} LaterLineBad<T(!new)>(text: string, parse: string -> Option<T>)
    requires ParseAll(Lines(text), parse).None? && parse(Lines(text)[0]).Some?
    ensures !ChunksDoNotMatter(text, parse)
  {
    var end := FirstLineEnds(text);
    TwoChunks(text, end);
    var one, front, two := [text], [text[..end]], [text[..end], text[end..]];
    StreamIsText(one, parse);
    StreamIsText(front, parse);
    StreamIsText(two, parse);
    assert one[..0] == [] && two[..1] == front;
    var first := Lines(text[..end]);
    assert first[1..] == [] && ParseAll([], parse) == Some([]);
    assert ParseAll(first, parse) == Some([parse(first[0]).value] + []);
    assert Flatten(Steps(one, parse).yielded) == [];
    assert Flatten(Steps(two, parse).yielded) == Flatten(Steps(front, parse).yielded);
  }

  /** What a stream yields is determined by its text if and only if every line parses or the first one does not. */
  lemma YieldsDependOnTextExactlyIf<T(!new)>(text: string, parse: string -> Option<T>)
    ensures ChunksDoNotMatter(text, parse)
      <==> ParseAll(Lines(text), parse).Some? || parse(Lines(text)[0]).None?
  {
    if ParseAll(Lines(text), parse).Some? || parse(Lines(text)[0]).None? {
      forall a, b | Flatten(a) == text && Flatten(b) == text
        ensures Flatten(Steps(a, parse).yielded) == Flatten(Steps(b, parse).yielded)
      {
        StreamIsText(a, parse);
        StreamIsText(b, parse);
        if ParseAll(Lines(text), parse).None? {
          FirstLineBad(a, parse);
          FirstLineBad(b, parse);
        }
      }
    } else {
      LaterLineBad(text, parse);
    }
  }

  function OnlyGood(line: string): Option<string> {
    if line == "b" then None else Some(line)
  }

  lemma LinesOf(line: string, rest: string)
    requires NEWLINE !in line
    ensures Whole(line + [NEWLINE] + rest) == [line] + Whole(rest) && Partial(line + [NEWLINE] + rest) == Partial(rest)
  {
    SplitFree(line, NEWLINE);
    SplitAt(line, rest, NEWLINE);
  }

  lemma FirstChunk(chunk: string)
    ensures Steps([chunk], OnlyGood) == Step(State("", [], false), chunk, OnlyGood)
    ensures Flatten([chunk]) == chunk && "" + chunk == chunk
  {
    assert [chunk][..0] == [];
    FlattenMore([], chunk);
    assert [] + [chunk] == [chunk];
  }

  lemma SmallTexts()
    ensures Lines("a\n") == ["a"] && Partial("a\n") == "" && Lines("b\n") == ["b"] && Lines("a\nb\n") == ["a", "b"]
  {
    LinesOf("a", "");
    LinesOf("b", "");
    LinesOf("a", "b\n");
    assert "a" + [NEWLINE] + "" == "a\n" && "b" + [NEWLINE] + "" == "b\n" && "a" + [NEWLINE] + "b\n" == "a\nb\n";
    assert Whole("") == [] && Partial("") == "";
    hide Whole, Partial;
    assert Whole("a\nb\n") == ["a", "b"];
    assert NonEmpty([]) == [] && ["a", "b"][1..] == ["b"] && ["b"][1..] == [] && ["a"][1..] == [];
    assert NonEmpty(["b"]) == ["b"] && NonEmpty(["a"]) == ["a"] && NonEmpty(["a", "b"]) == ["a", "b"];
  }

  /** With a bad line, how much is yielded before the failure does depend on the chunks. */
  lemma BadLineDependsOnChunks()
    ensures Flatten(["a\n", "b\n"]) == Flatten(["a\nb\n"])
    ensures Steps(["a\n", "b\n"], OnlyGood).yielded == [["a"]] && Steps(["a\nb\n"], OnlyGood).yielded == []
  {
    SmallTexts();
    FirstChunk("a\n");
    FirstChunk("a\nb\n");
    assert "" + "b\n" == "b\n" && "a\n" + "b\n" == "a\nb\n" && ["a\n", "b\n"][..1] == ["a\n"];
    hide Lines, Partial;
    assert ["a", "b"][1..] == ["b"] && ["b"][1..] == [] && ["a"][1..] == [];
    assert ParseAll([], OnlyGood) == Some([]) && ParseAll(["b"], OnlyGood) == None;
    assert ParseAll(["a"], OnlyGood) == Some(["a"]) && ParseAll(["a", "b"], OnlyGood) == None;
    hide ParseAll;
    assert Steps(["a\n"], OnlyGood) == State("", [["a"]], false);
  }
}

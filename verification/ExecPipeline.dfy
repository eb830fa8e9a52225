/** A remote command's output, from its pipes through the agent's and the server's records to the caller's own pipes. */
module ExecPipeline {
  import opened Common
  import opened ExecWire
  import Server = ExecServer

  // ---------------------------------------------------------------- the agent

  /**
   * What the running process and its surroundings do next. An empty read is the end of that pipe.
   * Any other read is pending until its event was sent, which can wait for credit or room.
   */
  datatype Moment =
    | OutRead(data: seq<byte>)
    | ErrRead(data: seq<byte>)
    | Sent
    | Exited(code: Option<int>, signal: Option<int>)
    | Cancel
    | Deadline
    | Fails(message: string)

  /**
   * Reads come from open pipes, fit the buffer and happen while none is pending; the process is
   * waited for after both pipes ended. Cancel, deadline and failure can come at any moment.
   */
  predicate Plausible(moments: seq<Moment>, outOpen: bool, errOpen: bool, pending: bool) {
    && moments != []
    && match moments[0]
       case OutRead(data) =>
         !pending && outOpen && |data| <= PIPE_BUFFER && Plausible(moments[1..], data != [], errOpen, data != [])
       case ErrRead(data) =>
         !pending && errOpen && |data| <= PIPE_BUFFER && Plausible(moments[1..], outOpen, data != [], data != [])
       case Sent => pending && Plausible(moments[1..], outOpen, errOpen, false)
       case Exited(_, _) => !pending && !outOpen && !errOpen && |moments| == 1
       case _ => |moments| == 1
  }

  predicate IsRead(moment: Moment) {
    moment.OutRead? || moment.ErrRead?
  }

  /** The octets a moment reads from one pipe. */
  function ReadFrom(moment: Moment, out: bool): seq<byte> {
    if IsRead(moment) && moment.OutRead? == out then moment.data else []
  }

  /** The octets read from the command's standard output, or its standard error. */
  function Bytes(moments: seq<Moment>, out: bool): seq<byte> {
    if moments == [] then [] else ReadFrom(moments[0], out) + Bytes(moments[1..], out)
  }

  /** The octets of a pipe whose event was still pending when the run ended. */
  function Dropped(moments: seq<Moment>, out: bool): seq<byte> {
    if |moments| < 2 then [] else ReadFrom(moments[|moments| - 2], out)
  }

  /** The event the command ends with. */
  function Result(moments: seq<Moment>): Event
    requires moments != []
  {
    match moments[|moments| - 1]
    case Exited(code, signal) => Exit(code, signal)
    case Cancel => Canceled
    case Deadline => TimedOut
    case Fails(message) => Error(message)
    case _ => Error("")
  }

  /** The event a read is reported by; the end of a pipe is not reported. */
  function Report(moment: Moment): seq<Event> {
    match moment
    case OutRead(data) => if data == [] then [] else [Stdout(data)]
    case ErrRead(data) => if data == [] then [] else [Stderr(data)]
    case _ => []
  }

  /** The events of the reads that were sent. */
  function Events(moments: seq<Moment>): seq<Event> {
    if |moments| < 2 then []
    else (if moments[1].Sent? then Report(moments[0]) else []) + Events(moments[1..])
  }

  /** After a read, the rest is plausible for the pipes that are still open. */
  lemma ReadGoesOn(moments: seq<Moment>, i: nat, outOpen: bool, errOpen: bool)
    requires i < |moments| && Plausible(moments[i..], outOpen, errOpen, false) && IsRead(moments[i])
    ensures i + 1 < |moments| && |moments[i].data| <= PIPE_BUFFER
    ensures moments[i].data == [] ==>
      && Plausible(moments[i + 1..], outOpen && !moments[i].OutRead?, errOpen && !moments[i].ErrRead?, false)
      && Events(moments[i..]) == Events(moments[i + 1..])
    ensures moments[i].data != [] ==>
      && Plausible(moments[i + 1..], outOpen, errOpen, true)
      && Events(moments[i..]) == (if moments[i + 1].Sent? then Report(moments[i]) else []) + Events(moments[i + 1..])
  {
    assert moments[i..][1..] == moments[i + 1..] && moments[i..][0] == moments[i];
    assert moments[i + 1..][0] == moments[i + 1];
    assert moments[i].data == [] ==> Events(moments[i..]) == [] + Events(moments[i + 1..]);
  }

  /** A pending read is sent, or the run ends. */
  lemma SendGoesOn(moments: seq<Moment>, i: nat, outOpen: bool, errOpen: bool)
    requires i < |moments| && Plausible(moments[i..], outOpen, errOpen, true)
    ensures moments[i].Sent? ==>
      && i + 1 < |moments| && Plausible(moments[i + 1..], outOpen, errOpen, false)
      && Events(moments[i..]) == Events(moments[i + 1..])
    ensures !moments[i].Sent? ==>
      i == |moments| - 1 && Events(moments[i..]) == [] && Result(moments[i..]) == Result(moments)
  {
    assert moments[i..][0] == moments[i];
    if moments[i].Sent? {
      assert moments[i..][1..] == moments[i + 1..] && moments[i + 1..][0] == moments[i + 1];
      assert Events(moments[i..]) == [] + Events(moments[i + 1..]);
    }
  }

  lemma ReadingEnds(moments: seq<Moment>, i: nat, outOpen: bool, errOpen: bool)
    requires i < |moments| && Plausible(moments[i..], outOpen, errOpen, false)
    requires !((outOpen || errOpen) && IsRead(moments[i]))
    ensures i == |moments| - 1 && Events(moments[i..]) == [] && Result(moments[i..]) == Result(moments)
  {
    assert moments[i..][0] == moments[i];
  }

  /** `output` and `run`: one event per read that was sent, then the event the command ends with. */
  method Run(moments: seq<Moment>) returns (sent: seq<Event>, result: Event)
    requires Plausible(moments, true, true, false)
    ensures sent == Events(moments) && result == Result(moments)
  {
    sent := [];
    var outOpen, errOpen := true, true;
    var i := 0;
    assert moments[0..] == moments && moments != [];
    hide Plausible, Events, Result;
    while (outOpen || errOpen) && IsRead(moments[i])
      invariant i < |moments| && Plausible(moments[i..], outOpen, errOpen, false)
      invariant sent + Events(moments[i..]) == Events(moments)
      decreases |moments| - i
    {
      var read := moments[i];
      ReadGoesOn(moments, i, outOpen, errOpen);
      i := i + 1;
      if read.data == [] {
        outOpen, errOpen := outOpen && !read.OutRead?, errOpen && !read.ErrRead?;
      } else {
        SendGoesOn(moments, i, outOpen, errOpen);
        if !moments[i].Sent? {
          return sent, Result(moments[i..]);
        }
        var event := if read.OutRead? then Stdout(read.data) else Stderr(read.data);
        ConcatAssoc(sent, [event], Events(moments[i..]));
        sent := sent + [event];
        i := i + 1;
      }
    }
    ReadingEnds(moments, i, outOpen, errOpen);
    result := Result(moments[i..]);
  }

  /** The octets the output events of one pipe carry. */
  function Carried(events: seq<Event>, out: bool): seq<byte> {
    if events == [] then []
    else
      var last := events[|events| - 1];
      Carried(events[..|events| - 1], out)
      + if out && last.Stdout? then last.data else if !out && last.Stderr? then last.data else []
  }

  predicate OutputEvent(event: Event) {
    (event.Stdout? || event.Stderr?) && 0 < |event.data| <= PIPE_BUFFER
  }

  lemma {:induction false} CarriedConcat(a: seq<Event>, b: seq<Event>, out: bool)
    ensures Carried(a + b, out) == Carried(a, out) + Carried(b, out)
  {
    if b == [] {
      assert a + b == a;
    } else {
      var last := b[|b| - 1];
      var data := if out && last.Stdout? then last.data else if !out && last.Stderr? then last.data else [];
      CarriedConcat(a, b[..|b| - 1], out);
      assert (a + b)[..|a + b| - 1] == a + b[..|b| - 1];
      ConcatAssoc(Carried(a, out), Carried(b[..|b| - 1], out), data);
    }
  }

  /** What was read from a pipe is what its events carry and, at the end, what was still pending. */
  lemma {:induction false} EventsCarryTheOutput(moments: seq<Moment>, outOpen: bool, errOpen: bool, pending: bool, out: bool)
    requires Plausible(moments, outOpen, errOpen, pending)
    ensures Bytes(moments, out) == Carried(Events(moments), out) + Dropped(moments, out)
  {
    assert moments[0..] == moments;
    if IsRead(moments[0]) {
      ReadGoesOn(moments, 0, outOpen, errOpen);
      ReportCarries(moments[0], out);
      if moments[0].data == [] {
        EventsCarryTheOutput(moments[1..], outOpen && !moments[0].OutRead?, errOpen && !moments[0].ErrRead?, false, out);
      } else {
        EventsCarryTheOutput(moments[1..], outOpen, errOpen, true, out);
        SendGoesOn(moments, 1, outOpen, errOpen);
      }
      ReadIsCarried(moments, out);
    } else if moments[0].Sent? {
      SendGoesOn(moments, 0, outOpen, errOpen);
      EventsCarryTheOutput(moments[1..], outOpen, errOpen, false, out);
      assert |moments| >= 2;
      assert |moments| > 2 ==> moments[1..][|moments| - 3] == moments[|moments| - 2];
      assert |moments| == 2 ==> Dropped(moments, out) == [];
    }
  }

  /** One read in front: it is carried by its own event, or dropped, or the end of its pipe. */
  lemma ReadIsCarried(moments: seq<Moment>, out: bool)
    requires |moments| >= 2 && IsRead(moments[0])
    requires moments[0].data == [] || (moments[1].Sent? && |moments| > 2) || (|moments| == 2 && !moments[1].Sent?)
    requires Carried(Report(moments[0]), out) == ReadFrom(moments[0], out)
    requires Bytes(moments[1..], out) == Carried(Events(moments[1..]), out) + Dropped(moments[1..], out)
    ensures Bytes(moments, out) == Carried(Events(moments), out) + Dropped(moments, out)
  {
    var read, rest := ReadFrom(moments[0], out), moments[1..];
    if moments[1].Sent? {
      CarriedConcat(Report(moments[0]), Events(rest), out);
      ConcatAssoc(read, Carried(Events(rest), out), Dropped(rest, out));
    } else {
      assert Events(moments) == Events(rest);
    }
    if |moments| > 2 {
      assert rest[|rest| - 2] == moments[|moments| - 2];
    }
  }

  lemma ReportCarries(moment: Moment, out: bool)
    ensures Carried(Report(moment), out) == ReadFrom(moment, out)
  {
    if Report(moment) != [] {
      assert Report(moment)[..0] == [];
    }
  }

  /** Every event fits a record, the last moment ends the command, and an exit leaves nothing pending. */
  lemma {:induction false} EventsFit(moments: seq<Moment>, outOpen: bool, errOpen: bool, pending: bool)
    requires Plausible(moments, outOpen, errOpen, pending)
    ensures forall event <- Events(moments) :: OutputEvent(event)
    ensures ExitCode(Result(moments)).Some?
    ensures Result(moments).Exit? ==> forall out :: Dropped(moments, out) == []
    ensures pending && |moments| == 1 ==> !Result(moments).Exit?
  {
    assert moments[0..] == moments;
    if IsRead(moments[0]) {
      ReadGoesOn(moments, 0, outOpen, errOpen);
      if moments[0].data == [] {
        EventsFit(moments[1..], outOpen && !moments[0].OutRead?, errOpen && !moments[0].ErrRead?, false);
      } else {
        EventsFit(moments[1..], outOpen, errOpen, true);
      }
      DropsLast(moments);
    } else if moments[0].Sent? {
      SendGoesOn(moments, 0, outOpen, errOpen);
      EventsFit(moments[1..], outOpen, errOpen, false);
      DropsLast(moments);
    }
  }

  lemma DropsLast(moments: seq<Moment>)
    requires |moments| >= 2
    ensures Result(moments) == Result(moments[1..])
    ensures |moments| > 2 ==> forall out :: Dropped(moments, out) == Dropped(moments[1..], out)
    ensures |moments| == 2 ==> forall out :: Dropped(moments, out) == ReadFrom(moments[0], out)
  {
  }

  // ---------------------------------------------------------------- the server

  function Line(event: Event): string {
    Encode(event) + [NEWLINE]
  }

  function Lines(events: seq<Event>): string {
    if events == [] then "" else Lines(events[..|events| - 1]) + Line(events[|events| - 1])
  }

  /** The whole answer: a line per output event, then the line of the event that ends the command. */
  function Body(carried: seq<Event>, result: Event): string {
    Lines(carried) + Line(result)
  }

  /** The server's run over the agent's events is possible. */
  ghost predicate Served(moments: seq<Moment>, run: seq<Server.Step>)
    requires moments != []
  {
    Server.Possible(Server.Start(Events(moments), Result(moments)), run)
  }

  /** Where the server stands after its run. */
  ghost function Serving(moments: seq<Moment>, run: seq<Server.Step>): Server.Server
    requires moments != [] && Served(moments, run)
  {
    Server.After(Server.Start(Events(moments), Result(moments)), run)
  }

  /** The chunks are an answer that the server finished. */
  ghost predicate Answers(moments: seq<Moment>, run: seq<Server.Step>, chunks: seq<string>)
    requires moments != []
  {
    && Served(moments, run) && Serving(moments, run).phase == Server.Finished
    && Serving(moments, run).terminal.Some?
    && Flatten(chunks) == Body(Serving(moments, run).body, Serving(moments, run).terminal.value)
  }

  // ---------------------------------------------------------------- the caller

  datatype Verdict = ExitsWith(code: int) | RecordTooLong | InvalidRecord | NoTerminalEvent | TransportFailed

  function Octets(data: seq<byte>): (s: string)
    ensures |s| == |data|
  {
    seq(|data|, i requires 0 <= i < |data| => data[i] as char)
  }

  function ExitCode(event: Event): Option<int> {
    match event
    case Exit(code, signal) => Some(if code.Some? then code.value else if signal.Some? then 128 + signal.value else 125)
    case TimedOut => Some(124)
    case Canceled => Some(130)
    case Error(_) => Some(125)
    case _ => None
  }

  datatype Reader = Reader(record: string, stdout: string, stderr: string, verdict: Option<Verdict>)

  const START := Reader("", "", "", None)

  /** The line the caller adds to its own standard error for an end that is not an exit. */
  function Notice(event: Event): string {
    match event
    case TimedOut => "Remote execution timed out\n"
    case Canceled => "Remote execution canceled\n"
    case Error(message) => "Remote execution failed: " + message + "\n"
    case _ => ""
  }

  /** What an event prints: its data or its notice, or with `--json` its record. */
  function Print(r: Reader, event: Event, json: bool): Reader {
    if json then r.(stdout := r.stdout + Line(event))
    else
      match event
      case Stdout(data) => r.(stdout := r.stdout + Octets(data))
      case Stderr(data) => r.(stderr := r.stderr + Octets(data))
      case _ => r.(stderr := r.stderr + Notice(event))
  }

  /** One octet of the body. */
  function Feed(r: Reader, c: char, json: bool, decode: string -> Option<Event>): Reader {
    if r.verdict.Some? then r
    else if |r.record| >= RECORD_LIMIT then r.(verdict := Some(RecordTooLong))
    else if c != NEWLINE then r.(record := r.record + [c])
    else
      var event := decode(r.record);
      if event.None? then r.(verdict := Some(InvalidRecord))
      else
        var code := ExitCode(event.value);
        Print(r.(record := ""), event.value, json).(verdict := if code.Some? then Some(ExitsWith(code.value)) else None)
  }

  function FeedAll(r: Reader, text: string, json: bool, decode: string -> Option<Event>): Reader {
    if text == "" then r else Feed(FeedAll(r, text[..|text| - 1], json, decode), text[|text| - 1], json, decode)
  }

  /** What the caller makes of an answer that ended, or broke off, after the octets it read. */
  function VerdictOf(r: Reader, broken: bool): Verdict {
    if r.verdict.Some? then r.verdict.value else if broken then TransportFailed else NoTerminalEvent
  }

  lemma {:induction false} FeedStops(r: Reader, text: string, json: bool, decode: string -> Option<Event>)
    requires r.verdict.Some?
    ensures FeedAll(r, text, json, decode) == r
  {
    if text != "" {
      FeedStops(r, text[..|text| - 1], json, decode);
    }
  }

  lemma {:induction false} FeedConcat(r: Reader, a: string, b: string, json: bool, decode: string -> Option<Event>)
    ensures FeedAll(r, a + b, json, decode) == FeedAll(FeedAll(r, a, json, decode), b, json, decode)
  {
    if b == "" {
      assert a + b == a;
    } else {
      FeedConcat(r, a, b[..|b| - 1], json, decode);
      assert (a + b)[..|a + b| - 1] == a + b[..|b| - 1] && (a + b)[|a + b| - 1] == b[|b| - 1];
    }
  }

  lemma FeedMore(r: Reader, text: string, c: char, json: bool, decode: string -> Option<Event>)
    ensures FeedAll(r, text + [c], json, decode) == Feed(FeedAll(r, text, json, decode), c, json, decode)
  {
    assert (text + [c])[..|text|] == text;
  }

  lemma FeedVerdict(chunks: seq<string>, i: nat, k: nat, json: bool, decode: string -> Option<Event>)
    requires i < |chunks| && k <= |chunks[i]|
    requires FeedAll(START, Flatten(chunks[..i]) + chunks[i][..k], json, decode).verdict.Some?
    ensures FeedAll(START, Flatten(chunks), json, decode) == FeedAll(START, Flatten(chunks[..i]) + chunks[i][..k], json, decode)
  {
    hide Feed, FeedAll;
    var body, read := Flatten(chunks), Flatten(chunks[..i]) + chunks[i][..k];
    BodyStarts(chunks, i, k);
    hide Flatten;
    FeedConcat(START, read, body[|read|..], json, decode);
    assert read + body[|read|..] == body;
    FeedStops(FeedAll(START, read, json, decode), body[|read|..], json, decode);
  }

  /** `consume`: whatever the chunks, the result is that of the whole body read octet by octet. */
  method Consume(chunks: seq<string>, broken: bool, json: bool, decode: string -> Option<Event>)
    returns (verdict: Verdict, stdout: string, stderr: string)
    ensures var r := FeedAll(START, Flatten(chunks), json, decode);
      verdict == VerdictOf(r, broken) && stdout == r.stdout && stderr == r.stderr
  {
    var r := START;
    hide FeedAll, Feed;
    assert FeedAll(START, "", json, decode) == START by { EmptyBody(json, decode); }
    for i := 0 to |chunks|
      invariant r == FeedAll(START, Flatten(chunks[..i]), json, decode) && r.verdict.None?
    {
      var chunk := chunks[i];
      ghost var before := Flatten(chunks[..i]);
      assert before + chunk[..0] == before;
      for k := 0 to |chunk|
        invariant r == FeedAll(START, before + chunk[..k], json, decode) && r.verdict.None?
      {
        FeedMore(START, before + chunk[..k], chunk[k], json, decode);
        assert before + chunk[..k] + [chunk[k]] == before + chunk[..k + 1];
        r := Feed(r, chunk[k], json, decode);
        if r.verdict.Some? {
          FeedVerdict(chunks, i, k + 1, json, decode);
          return r.verdict.value, r.stdout, r.stderr;
        }
      }
      assert chunk[..|chunk|] == chunk && chunks[..i + 1] == chunks[..i] + [chunk];
      FlattenMore(chunks[..i], chunk);
    }
    assert chunks[..|chunks|] == chunks;
    return if broken then TransportFailed else NoTerminalEvent, r.stdout, r.stderr;
  }

  lemma EmptyBody(json: bool, decode: string -> Option<Event>)
    ensures FeedAll(START, "", json, decode) == START
  {
  }

  /** What was read so far is where the body starts. */
  lemma {:induction false} BodyStarts(chunks: seq<string>, i: nat, k: nat)
    requires i < |chunks| && k <= |chunks[i]|
    ensures Flatten(chunks[..i]) + chunks[i][..k] <= Flatten(chunks)
  {
    var front := chunks[..|chunks| - 1];
    if i < |front| {
      BodyStarts(front, i, k);
      assert front[..i] == chunks[..i];
    }
  }

  // ---------------------------------------------------------------- fidelity

  lemma {:induction false} FeedPlain(r: Reader, text: string, json: bool, decode: string -> Option<Event>)
    requires r.verdict.None? && NEWLINE !in text && |r.record| + |text| <= RECORD_LIMIT
    ensures FeedAll(r, text, json, decode) == r.(record := r.record + text)
  {
    if text == "" {
      assert r.record + text == r.record;
    } else {
      FeedPlain(r, text[..|text| - 1], json, decode);
      assert r.record + text == r.record + text[..|text| - 1] + [text[|text| - 1]];
    }
  }

  /** A decoder that undoes the encoding, as every correct JSON reader does. */
  ghost predicate Undoes(decode: string -> Option<Event>) {
    forall event :: decode(Encode(event)) == Some(event)
  }

  /** One whole record prints its event and leaves the buffer empty. */
  lemma FeedLine(r: Reader, event: Event, json: bool, decode: string -> Option<Event>)
    requires r.verdict.None? && r.record == "" && Undoes(decode) && |Encode(event)| < RECORD_LIMIT
    ensures var code := ExitCode(event);
      FeedAll(r, Line(event), json, decode)
        == Print(r, event, json).(verdict := if code.Some? then Some(ExitsWith(code.value)) else None)
  {
    var record := Encode(event);
    RecordHasNoNewline(event);
    hide Encode;
    FeedPlain(r, record, json, decode);
    assert "" + record == record;
    assert Line(event)[..|record|] == record && Line(event)[|record|] == NEWLINE;
    assert r.(record := record).(record := "") == r;
  }

  /** A record as long as the limit is refused, whatever is in it. */
  lemma FeedLong(r: Reader, event: Event, json: bool, decode: string -> Option<Event>)
    requires r.verdict.None? && r.record == "" && |Encode(event)| >= RECORD_LIMIT
    ensures var after := FeedAll(r, Line(event), json, decode);
      after.verdict == Some(RecordTooLong) && after.stdout == r.stdout && after.stderr == r.stderr
  {
    var record, line := Encode(event), Line(event);
    RecordHasNoNewline(event);
    hide Encode;
    var front, rest := record[..RECORD_LIMIT], line[RECORD_LIMIT..];
    FeedPlain(r, front, json, decode);
    assert "" + front == front && front + rest == line;
    FeedConcat(r, front, rest, json, decode);
    var next := Feed(r.(record := front), rest[0], json, decode);
    assert [rest[0]] + rest[1..] == rest && [rest[0]][..0] == "";
    FeedConcat(r.(record := front), [rest[0]], rest[1..], json, decode);
    FeedStops(next, rest[1..], json, decode);
  }

  lemma OctetsConcat(a: seq<byte>, b: seq<byte>)
    ensures Octets(a + b) == Octets(a) + Octets(b)
  {
  }

  lemma {:induction false} FeedOutput(sent: seq<Event>, json: bool, decode: string -> Option<Event>)
    requires Undoes(decode) && forall event <- sent :: OutputEvent(event)
    ensures FeedAll(START, Lines(sent), json, decode)
      == if json then Reader("", Lines(sent), "", None)
         else Reader("", Octets(Carried(sent, true)), Octets(Carried(sent, false)), None)
  {
    if sent != [] {
      var front, last := sent[..|sent| - 1], sent[|sent| - 1];
      FeedOutput(front, json, decode);
      assert OutputEvent(last);
      OutputRecordsFit(last);
      FeedConcat(START, Lines(front), Line(last), json, decode);
      FeedLine(FeedAll(START, Lines(front), json, decode), last, json, decode);
      if !json {
        OctetsConcat(Carried(front, last.Stdout?), last.data);
        assert Carried(sent, !last.Stdout?) == Carried(front, !last.Stdout?);
      }
    }
  }

  /** What the caller has printed once it read the lines of these events. */
  function Printed(events: seq<Event>, json: bool): Reader {
    if json then Reader("", Lines(events), "", None)
    else Reader("", Octets(Carried(events, true)), Octets(Carried(events, false)), None)
  }

  lemma SomeEventsFit(moments: seq<Moment>, run: seq<Server.Step>)
    requires Plausible(moments, true, true, false) && Served(moments, run)
    ensures Serving(moments, run).body <= Events(moments)
    ensures forall event <- Serving(moments, run).body :: OutputEvent(event)
  {
    EventsFit(moments, true, true, false);
    Server.BodyIsPrefix(Events(moments), Result(moments), run);
    hide *;
    var body := Serving(moments, run).body;
    assert forall i :: 0 <= i < |body| ==> body[i] == Events(moments)[i] && body[i] in Events(moments);
  }

  lemma {:induction false} AnswerIsPrinted(
    carried: seq<Event>, result: Event, json: bool, decode: string -> Option<Event>)
    requires Undoes(decode) && (forall event <- carried :: OutputEvent(event)) && ExitCode(result).Some?
    ensures var r := FeedAll(START, Body(carried, result), json, decode);
      if |Encode(result)| < RECORD_LIMIT
      then r == Print(Printed(carried, json), result, json).(verdict := Some(ExitsWith(ExitCode(result).value)))
      else r.verdict == Some(RecordTooLong) && r.stdout == Printed(carried, json).stdout && r.stderr == Printed(carried, json).stderr
  {
    FeedOutput(carried, json, decode);
    FeedConcat(START, Lines(carried), Line(result), json, decode);
    var r := FeedAll(START, Lines(carried), json, decode);
    if |Encode(result)| < RECORD_LIMIT {
      FeedLine(r, result, json, decode);
    } else {
      FeedLong(r, result, json, decode);
    }
  }

  /**
   * For every interleaving of reads, every run of the server and every cut of the answer into chunks,
   * the caller prints exactly the events the answer carried, which are the first that were sent. It
   * says on its standard error how the command ended if it did not exit, and ends with the command's
   * result; with `--json` it prints the body. Only an error message too long for a record is lost,
   * and then the caller says so.
   */
  lemma ExecutionIsFaithful(
    moments: seq<Moment>, run: seq<Server.Step>, chunks: seq<string>, json: bool, decode: string -> Option<Event>)
    requires Plausible(moments, true, true, false) && Answers(moments, run, chunks) && Undoes(decode)
    ensures var r, result := FeedAll(START, Flatten(chunks), json, decode), Result(moments);
      var carried, fits := Serving(moments, run).body, |Encode(result)| < RECORD_LIMIT;
      && carried <= Events(moments) && ExitCode(result).Some?
      && VerdictOf(r, false) == (if fits then ExitsWith(ExitCode(result).value) else RecordTooLong)
      && (!json ==>
            && r.stdout == Octets(Carried(carried, true))
            && r.stderr == Octets(Carried(carried, false)) + if fits then Notice(result) else "")
      && (json ==> r.stdout == (if fits then Flatten(chunks) else Lines(carried)) && r.stderr == "")
  {
    SomeEventsFit(moments, run);
    EventsFit(moments, true, true, false);
    Server.BodyIsPrefix(Events(moments), Result(moments), run);
    AnswerIsPrinted(Serving(moments, run).body, Result(moments), json, decode);
    TerminalPrints(Printed(Serving(moments, run).body, json), Result(moments), json);
    hide Plausible, Events, Result, Encode, FeedAll, Serving, Served, Carried, Lines, ExitCode, Notice, Print;
  }

  lemma TerminalPrints(r: Reader, result: Event, json: bool)
    requires ExitCode(result).Some?
    ensures Print(r, result, json)
      == if json then r.(stdout := r.stdout + Line(result)) else r.(stderr := r.stderr + Notice(result))
  {
    assert r.stderr + "" == r.stderr;
  }

  /** The events that were sent but did not get into the answer. */
  ghost function Missing(moments: seq<Moment>, run: seq<Server.Step>): seq<Event>
    requires moments != [] && Served(moments, run) && |Serving(moments, run).body| <= |Events(moments)|
  {
    Events(moments)[|Serving(moments, run).body|..]
  }

  predicate OfPipe(event: Event, out: bool) {
    if out then event.Stdout? else event.Stderr?
  }

  lemma {:induction false} CarriesNothing(events: seq<Event>, out: bool)
    requires forall event <- events :: OutputEvent(event)
    ensures Carried(events, out) == [] <==> forall event <- events :: !OfPipe(event, out)
  {
    if events != [] {
      var front, last := events[..|events| - 1], events[|events| - 1];
      CarriesNothing(front, out);
      assert events == front + [last] && OutputEvent(last);
    }
  }

  /** What was read from a pipe is what the answer carries of it, and what was missing or pending. */
  lemma ReadIsCarriedOrLost(moments: seq<Moment>, run: seq<Server.Step>, out: bool)
    requires Plausible(moments, true, true, false) && Served(moments, run)
    ensures |Serving(moments, run).body| <= |Events(moments)|
    ensures var lost := Carried(Missing(moments, run), out) + Dropped(moments, out);
      && Bytes(moments, out) == Carried(Serving(moments, run).body, out) + lost
      && (lost == [] <==> Dropped(moments, out) == [] && forall event <- Missing(moments, run) :: !OfPipe(event, out))
  {
    EventsFit(moments, true, true, false);
    SomeEventsFit(moments, run);
    EventsCarryTheOutput(moments, true, true, false, out);
    var body, missing := Serving(moments, run).body, Missing(moments, run);
    assert Events(moments) == body + missing;
    hide Plausible, Events, Serving, Served, Bytes, Dropped;
    CarriedConcat(body, missing, out);
    ConcatAssoc(Carried(body, out), Carried(missing, out), Dropped(moments, out));
    assert forall event <- missing :: OutputEvent(event);
    CarriesNothing(missing, out);
  }

  /**
   * The caller prints everything that was read from a pipe if and only if no read of that pipe was
   * pending when the run ended and none of its events is missing from the answer. When a command
   * exits and nobody asked to cancel it, that is always so.
   */
  lemma {:induction false} OutputIsComplete(
    moments: seq<Moment>, run: seq<Server.Step>, chunks: seq<string>, decode: string -> Option<Event>)
    requires Plausible(moments, true, true, false) && Answers(moments, run, chunks) && Undoes(decode)
    requires |Encode(Result(moments))| < RECORD_LIMIT
    ensures |Serving(moments, run).body| <= |Events(moments)|
    ensures var r, result := FeedAll(START, Flatten(chunks), false, decode), Result(moments);
      && (r.stdout == Octets(Bytes(moments, true))
          <==> Dropped(moments, true) == [] && forall event <- Missing(moments, run) :: !OfPipe(event, true))
      && (r.stderr == Octets(Bytes(moments, false)) + Notice(result)
          <==> Dropped(moments, false) == [] && forall event <- Missing(moments, run) :: !OfPipe(event, false))
      && (result.Exit? && Server.Stops !in run ==>
            r.stdout == Octets(Bytes(moments, true)) && r.stderr == Octets(Bytes(moments, false)))
  {
    ExecutionIsFaithful(moments, run, chunks, false, decode);
    ReadIsCarriedOrLost(moments, run, true);
    ReadIsCarriedOrLost(moments, run, false);
    EventsFit(moments, true, true, false);
    ExitSaysNothing(Result(moments));
    UncanceledIsWhole(moments, run);
    hide *;
    var r := FeedAll(START, Flatten(chunks), false, decode);
    var body, missing := Serving(moments, run).body, Missing(moments, run);
    Complete(Carried(body, true), Carried(missing, true) + Dropped(moments, true), r.stdout, "");
    Complete(Carried(body, false), Carried(missing, false) + Dropped(moments, false), r.stderr, Notice(Result(moments)));
  }

  lemma UncanceledIsWhole(moments: seq<Moment>, run: seq<Server.Step>)
    requires moments != [] && Served(moments, run) && Serving(moments, run).phase == Server.Finished
    ensures |Serving(moments, run).body| <= |Events(moments)|
    ensures Server.Stops !in run ==> Missing(moments, run) == []
  {
    Server.BodyIsPrefix(Events(moments), Result(moments), run);
    if Server.Stops !in run {
      Server.OnlyCancelsStop(Server.Start(Events(moments), Result(moments)), run);
    }
    hide Server.After, Server.Possible;
  }

  lemma ExitSaysNothing(result: Event)
    ensures result.Exit? ==> Notice(result) == ""
  {
  }

  lemma Complete(carried: seq<byte>, lost: seq<byte>, printed: string, notice: string)
    requires printed == Octets(carried) + notice
    ensures printed == Octets(carried + lost) + notice <==> lost == []
  {
    if lost == [] {
      assert carried + lost == carried;
    } else {
      assert |printed| < |Octets(carried + lost) + notice|;
    }
  }

  // ---------------------------------------------------------------- answers that break off

  /** Of lines that break off anywhere, the caller has printed exactly the events whose lines are whole. */
  lemma {:induction false} CutLines(sent: seq<Event>, text: string, json: bool, decode: string -> Option<Event>)
    returns (k: nat)
    requires Undoes(decode) && (forall event <- sent :: OutputEvent(event)) && text <= Lines(sent)
    ensures k <= |sent| && Lines(sent[..k]) <= text && (k < |sent| ==> |text| < |Lines(sent[..k + 1])|)
    ensures FeedAll(START, text, json, decode).(record := "") == Printed(sent[..k], json)
  {
    hide *;
    if sent == [] {
      NoLines();
      k := 0;
      PrintedWhole([], json, decode);
    } else {
      var front, last := sent[..|sent| - 1], sent[|sent| - 1];
      LinesMore(front, last);
      assert sent == front + [last];
      var lines := Lines(front);
      CutPoint(lines, Line(last), text);
      if |text| < |lines| {
        k := CutLines(front, text, json, decode);
        assert front[..|front|] == front;
        assert sent[..k] == front[..k] && sent[..k + 1] == front[..k + 1];
      } else {
        assert OutputEvent(last);
        k := CutLine(front, last, text[|lines|..], json, decode);
        assert sent[..|sent|] == sent && front == sent[..|front|];
      }
    }
  }

  lemma NoLines()
    ensures Lines([]) == ""
  {
  }

  /** A cut of two texts is a cut of the first, or of the second behind the first. */
  lemma CutPoint(a: string, b: string, text: string)
    requires text <= a + b
    ensures if |text| < |a| then text <= a else text[|a|..] <= b && text == a + text[|a|..]
  {
  }

  lemma LinesMore(front: seq<Event>, last: Event)
    ensures Lines(front + [last]) == Lines(front) + Line(last)
  {
    assert (front + [last])[..|front|] == front;
  }

  lemma PrintedPartly(front: seq<Event>, cut: string, json: bool, decode: string -> Option<Event>)
    requires Undoes(decode) && (forall event <- front :: OutputEvent(event)) && NEWLINE !in cut && |cut| <= RECORD_LIMIT
    ensures FeedAll(START, Lines(front) + cut, json, decode).(record := "") == Printed(front, json)
  {
    FeedOutput(front, json, decode);
    FeedConcat(START, Lines(front), cut, json, decode);
    hide FeedAll;
    FeedPlain(Printed(front, json), cut, json, decode);
  }

  /** The line that breaks off, or not, behind whole ones. */
  lemma CutLine(front: seq<Event>, last: Event, cut: string, json: bool, decode: string -> Option<Event>)
    returns (k: nat)
    requires Undoes(decode) && (forall event <- front :: OutputEvent(event)) && OutputEvent(last) && cut <= Line(last)
    ensures k == if cut == Line(last) then |front| + 1 else |front|
    ensures cut != Line(last) ==> |cut| < |Line(last)|
    ensures FeedAll(START, Lines(front) + cut, json, decode).(record := "") == Printed((front + [last])[..k], json)
  {
    var sent := front + [last];
    assert sent[..|front|] == front && sent[..|sent|] == sent;
    hide *;
    if cut == Line(last) {
      k := |sent|;
      LinesMore(front, last);
      PrintedWhole(sent, json, decode);
    } else {
      k := |front|;
      PartialRecord(last, cut);
      OutputRecordsFit(last);
      PrintedPartly(front, cut, json, decode);
    }
  }

  lemma PrintedWhole(sent: seq<Event>, json: bool, decode: string -> Option<Event>)
    requires Undoes(decode) && (forall event <- sent :: OutputEvent(event))
    ensures FeedAll(START, Lines(sent), json, decode) == Printed(sent, json) && Printed(sent, json).record == ""
  {
    FeedOutput(sent, json, decode);
  }

  lemma PartialRecord(event: Event, cut: string)
    requires cut <= Line(event) && cut != Line(event)
    ensures cut <= Encode(event) && NEWLINE !in cut && |cut| < |Line(event)|
  {
    RecordHasNoNewline(event);
    hide Encode;
    assert |cut| < |Line(event)|;
    assert forall i :: 0 <= i < |cut| ==> cut[i] == Encode(event)[i];
  }

  /**
   * When the agent is lost the server breaks the answer off. However much of it gets through, the
   * caller prints the events whose lines it has whole, and reports the failure instead of a status.
   */
  lemma LostAgentIsReported(
    moments: seq<Moment>, run: seq<Server.Step>, chunks: seq<string>, json: bool, decode: string -> Option<Event>)
    returns (k: nat)
    requires Plausible(moments, true, true, false) && Undoes(decode) && Served(moments, run)
    requires Serving(moments, run).phase == Server.Aborted && Flatten(chunks) <= Lines(Serving(moments, run).body)
    ensures k <= |Events(moments)| && Lines(Events(moments)[..k]) <= Flatten(chunks)
    ensures var r := FeedAll(START, Flatten(chunks), json, decode);
      r.(record := "") == Printed(Events(moments)[..k], json) && VerdictOf(r, true) == TransportFailed
  {
    SomeEventsFit(moments, run);
    var body := Serving(moments, run).body;
    k := CutLines(body, Flatten(chunks), json, decode);
    assert body[..k] == Events(moments)[..k];
    assert Printed(body[..k], json).verdict.None?;
  }

  // ---------------------------------------------------------------- what can get lost

  /** Whichever part of the sent events one picks, a cancel request can make it all that is printed. */
  lemma AnyPartCanBePrinted(moments: seq<Moment>, n: nat, decode: string -> Option<Event>)
    returns (run: seq<Server.Step>, chunks: seq<string>)
    requires Plausible(moments, true, true, false) && Undoes(decode) && n <= |Events(moments)|
    ensures Answers(moments, run, chunks) && Serving(moments, run).body == Events(moments)[..n]
    ensures var r, result := FeedAll(START, Flatten(chunks), false, decode), Result(moments);
      |Encode(result)| < RECORD_LIMIT ==>
        && r.stdout == Octets(Carried(Events(moments)[..n], true))
        && r.stderr == Octets(Carried(Events(moments)[..n], false)) + Notice(result)
        && ExitCode(result).Some? && VerdictOf(r, false) == ExitsWith(ExitCode(result).value)
  {
    run := Server.AnyPrefixCanArrive(Server.Start(Events(moments), Result(moments)), n);
    chunks := FinishedAnswers(moments, run);
    ExecutionIsFaithful(moments, run, chunks, false, decode);
  }

  lemma FinishedAnswers(moments: seq<Moment>, run: seq<Server.Step>) returns (chunks: seq<string>)
    requires moments != [] && Served(moments, run) && Serving(moments, run).phase == Server.Finished
    ensures Answers(moments, run, chunks)
  {
    Server.BodyIsPrefix(Events(moments), Result(moments), run);
    hide Server.After, Server.Possible;
    var body := Body(Serving(moments, run).body, Result(moments));
    chunks := [body];
    FlattenMore([], body);
    assert [] + [body] == [body] && "" + body == body;
  }

  /** A byte that was read when the deadline comes can be missing although nothing was canceled. */
  lemma PendingReadIsLost(decode: string -> Option<Event>) returns (run: seq<Server.Step>, chunks: seq<string>)
    requires Undoes(decode)
    ensures var moments := [OutRead([65]), Deadline];
      && Plausible(moments, true, true, false) && Bytes(moments, true) == [65]
      && Answers(moments, run, chunks) && !Serving(moments, run).stopped
      && var r := FeedAll(START, Flatten(chunks), false, decode);
         r.stdout == "" && r.stderr == "Remote execution timed out\n" && VerdictOf(r, false) == ExitsWith(124)
  {
    var moments := [OutRead([65]), Deadline];
    assert moments[1..] == [Deadline] && moments[1..][1..] == [];
    assert Plausible(moments[1..], true, true, true);
    assert Events(moments[1..]) == [] && Events(moments) == [];
    assert |Encode(TimedOut)| < RECORD_LIMIT;
    hide Encode, Plausible, FeedAll;
    run := Server.EverythingCanArrive(Server.Start(Events(moments), Result(moments)));
    chunks := FinishedAnswers(moments, run);
    ExecutionIsFaithful(moments, run, chunks, false, decode);
  }

  /** Sent output can be missing after a cancel request, with no read pending. */
  lemma CanceledOutputIsLost(decode: string -> Option<Event>) returns (run: seq<Server.Step>, chunks: seq<string>)
    requires Undoes(decode)
    ensures var moments := [OutRead([65]), Sent, Cancel];
      && Plausible(moments, true, true, false) && Bytes(moments, true) == [65] && Dropped(moments, true) == []
      && Answers(moments, run, chunks)
      && var r := FeedAll(START, Flatten(chunks), false, decode);
         r.stdout == "" && r.stderr == "Remote execution canceled\n" && VerdictOf(r, false) == ExitsWith(130)
  {
    var moments := [OutRead([65]), Sent, Cancel];
    assert moments[1..] == [Sent, Cancel] && moments[1..][1..] == [Cancel] && [Cancel][1..] == [];
    assert Plausible([Cancel], true, true, false) && Plausible(moments[1..], true, true, true);
    assert Bytes([Cancel], true) == [] && Bytes(moments[1..], true) == [];
    assert |Encode(Canceled)| < RECORD_LIMIT;
    hide Encode, Plausible, FeedAll;
    run, chunks := AnyPartCanBePrinted(moments, 0, decode);
  }

  /** A command that exits before the cancel reaches it can end with its status and without its output. */
  lemma ExitAfterCancelIsIncomplete(decode: string -> Option<Event>) returns (run: seq<Server.Step>, chunks: seq<string>)
    requires Undoes(decode)
    ensures var moments := [OutRead([65]), Sent, OutRead([]), ErrRead([]), Exited(Some(0), None)];
      && Plausible(moments, true, true, false) && Bytes(moments, true) == [65] && Answers(moments, run, chunks)
      && var r := FeedAll(START, Flatten(chunks), false, decode);
         r.stdout == "" && r.stderr == "" && VerdictOf(r, false) == ExitsWith(0)
  {
    var moments := [OutRead([65]), Sent, OutRead([]), ErrRead([]), Exited(Some(0), None)];
    ExitingMoments();
    hide Encode, Plausible, FeedAll, Bytes, Events;
    run, chunks := AnyPartCanBePrinted(moments, 0, decode);
  }

  lemma ExitingMoments()
    ensures var moments := [OutRead([65]), Sent, OutRead([]), ErrRead([]), Exited(Some(0), None)];
      && Plausible(moments, true, true, false) && Bytes(moments, true) == [65]
      && Result(moments) == Exit(Some(0), None) && |Encode(Result(moments))| < RECORD_LIMIT
  {
    var last := [Exited(Some(0), None)];
    var err, out, sent := [ErrRead([])] + last, [OutRead([]), ErrRead([])] + last, [Sent, OutRead([]), ErrRead([])] + last;
    var moments := [OutRead([65])] + sent;
    assert moments[1..] == sent && sent[1..] == out && out[1..] == err && err[1..] == last && last[1..] == [];
    assert Plausible(last, false, false, false) && Plausible(err, false, true, false);
    assert Plausible(out, true, true, false) && Plausible(sent, true, true, true);
    assert Bytes(last, true) == [] && Bytes(err, true) == [] && Bytes(out, true) == [] && Bytes(sent, true) == [];
    assert moments == [OutRead([65]), Sent, OutRead([]), ErrRead([]), Exited(Some(0), None)];
    assert Result(moments) == Exit(Some(0), None);
    hide Plausible, Bytes;
    assert |Encode(Exit(Some(0), None))| < RECORD_LIMIT;
  }
}

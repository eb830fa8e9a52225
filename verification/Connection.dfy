/** How one agent connection ends: three tasks share a flag, and whoever sets it reports why. */
module ConnectionTeardown {
  import opened Common

  const GENERIC := "Server connection ended"

  // ---------------------------------------------------------------- the reader's own bookkeeping

  /** What one turn of the reader's loop meets. */
  datatype Turn =
    | ShutdownSeen
    | TextDelivered
    | TextInterrupted      // shutdown while a message was being delivered
    | TextRefused          // the runtime is gone
    | BinaryRouted
    | CloseReceived
    | ReceiveFailed(error: string)
    | StreamEnded
    | Ignored

  predicate Ends(turn: Turn) {
    !(turn.TextDelivered? || turn.BinaryRouted? || turn.Ignored?)
  }

  /** The reason the reader gives at the end of its loop, if it gives one. */
  function Reason(turn: Turn): seq<string> {
    match turn
    case CloseReceived => ["Server closed connection"]
    case ReceiveFailed(error) => ["Error receiving message: " + error]
    case TextInterrupted => []
    case _ => [GENERIC]
  }

  /** Turns from the first to the one that ends the loop. */
  predicate WholeLoop(turns: seq<Turn>) {
    turns != [] && Ends(turns[|turns| - 1]) && forall i :: 0 <= i < |turns| - 1 ==> !Ends(turns[i])
  }

  /** The reader's loop over its turns; `calls` are its calls of `report_connection_loss`. */
  method ReadMessages(turns: seq<Turn>) returns (calls: seq<string>)
    requires WholeLoop(turns)
    ensures calls == Reason(turns[|turns| - 1])
  {
    calls := [];
    var connectionLossReported := false;
    var i := 0;
    while i < |turns|
      invariant i < |turns| && !connectionLossReported && calls == []
    {
      var turn := turns[i];
      match turn {
        case ShutdownSeen => break;
        case TextInterrupted =>
          connectionLossReported := true;
          break;
        case TextRefused => break;
        case CloseReceived =>
          connectionLossReported := true;
          calls := calls + ["Server closed connection"];
          break;
        case ReceiveFailed(error) =>
          connectionLossReported := true;
          calls := calls + ["Error receiving message: " + error];
          break;
        case StreamEnded => break;
        case _ =>
      }
      i := i + 1;
    }
    if !connectionLossReported {
      calls := calls + [GENERIC];
    }
  }

  // ---------------------------------------------------------------- the tasks around the flag

  datatype Task = Reader | Monitor | Writer

  datatype Progress =
    | Active
    | Reporting(reason: string)   // about to set the flag
    | Announcing(reason: string)  // set the flag, about to report
    | Ended

  datatype Loss = Loss(task: Task, reason: string)

  datatype State = State(
    shutdown: bool,
    tasks: map<Task, Progress>,
    initiator: Option<Loss>,      // the task that set the flag, with its reason
    reports: seq<Loss>,
    readerTurn: Option<Turn>)     // the turn that ended the reader's loop

  const START := State(false, map[Reader := Active, Monitor := Active, Writer := Active], None, [], None)

  datatype Event =
    | ReaderEnds(turn: Turn)
    | Notices(task: Task)                    // the monitor or the writer sees the flag
    | StopsSilently(task: Task)              // its control lane closed
    | Diagnoses(task: Task, reason: string)
    | TriesFlag(task: Task)
    | Announces(task: Task)
    | RuntimeStops

  predicate Enabled(s: State, event: Event) {
    match event
    case ReaderEnds(turn) =>
      Reader in s.tasks && s.tasks[Reader] == Active && Ends(turn) && (turn.ShutdownSeen? || turn.TextInterrupted? ==> s.shutdown)
    case Notices(task) => task in s.tasks && s.tasks[task] == Active && s.shutdown && task != Reader
    case StopsSilently(task) => task in s.tasks && s.tasks[task] == Active && task != Reader
    case Diagnoses(task, _) => task in s.tasks && s.tasks[task] == Active && task != Reader
    case TriesFlag(task) => task in s.tasks && s.tasks[task].Reporting?
    case Announces(task) => task in s.tasks && s.tasks[task].Announcing?
    case RuntimeStops => true
  }

  function Move(s: State, task: Task, progress: Progress): State {
    s.(tasks := s.tasks[task := progress])
  }

  function Step(s: State, event: Event): State
    requires Enabled(s, event)
  {
    match event
    case RuntimeStops => s.(shutdown := true)
    // The reader reports whenever its last turn gives a reason, the flag being set or not.
    case ReaderEnds(turn) =>
      Move(s, Reader, if Reason(turn) == [] then Ended else Reporting(Reason(turn)[0])).(readerTurn := Some(turn))
    case Notices(task) => Move(s, task, Ended)
    case StopsSilently(task) => Move(s, task, Ended)
    case Diagnoses(task, reason) => Move(s, task, Reporting(reason))
    case TriesFlag(task) =>
      var reason := s.tasks[task].reason;
      if s.shutdown then Move(s, task, Ended)
      else Move(s, task, Announcing(reason)).(shutdown := true, initiator := Some(Loss(task, reason)))
    case Announces(task) =>
      Move(s, task, Ended).(reports := s.reports + [Loss(task, s.tasks[task].reason)])
  }

  ghost predicate Inv(s: State) {
    && Reader in s.tasks && Monitor in s.tasks && Writer in s.tasks
    && (s.initiator.Some? ==> s.shutdown)
    // Only the task that set the flag announces, and only its own reason.
    && (forall t <- s.tasks :: s.tasks[t].Announcing? ==> s.initiator == Some(Loss(t, s.tasks[t].reason)) && s.reports == [])
    // A report is the initiator's, and it is made once.
    && (s.reports == [] || (s.initiator.Some? && s.reports == [s.initiator.value]))
    && (s.initiator.Some? && s.reports == [] ==>
          var task := s.initiator.value.task;
          task in s.tasks && s.tasks[task] == Announcing(s.initiator.value.reason))
    // The reader does not leave a connection that others still think alive.
    && (s.tasks[Reader] == Ended ==> s.shutdown)
    // Whatever the reader reports is the reason of the turn that ended its loop.
    && (s.tasks[Reader] != Active ==> s.readerTurn.Some?)
    && (s.tasks[Reader].Reporting? || s.tasks[Reader].Announcing? ==> Reason(s.readerTurn.value) == [s.tasks[Reader].reason])
    && (s.initiator.Some? && s.initiator.value.task == Reader ==>
          s.tasks[Reader] != Active && Reason(s.readerTurn.value) == [s.initiator.value.reason])
  }

  lemma StepKeeps(s: State, event: Event)
    requires Inv(s) && Enabled(s, event)
    ensures Inv(Step(s, event))
  {
  }

  ghost predicate Possible(s: State, run: seq<Event>)
    decreases |run|
  {
    run == [] || (Enabled(s, run[0]) && Possible(Step(s, run[0]), run[1..]))
  }

  ghost function After(s: State, run: seq<Event>): State
    requires Possible(s, run)
    decreases |run|
  {
    if run == [] then s else After(Step(s, run[0]), run[1..])
  }

  lemma {:induction false} RunKeeps(s: State, run: seq<Event>)
    requires Inv(s) && Possible(s, run)
    ensures Inv(After(s, run))
    decreases |run|
  {
    if run != [] {
      StepKeeps(s, run[0]);
      RunKeeps(Step(s, run[0]), run[1..]);
    }
  }

  /**
   * In every interleaving at most one loss is reported, by the task that set the flag and with its
   * reason; once all tasks ended it was reported exactly if a task, not the runtime, set the flag.
   */
  lemma LossReportedOnce(run: seq<Event>)
    requires Possible(START, run)
    ensures var s := After(START, run);
      && |s.reports| <= 1 && (s.reports != [] ==> s.initiator == Some(s.reports[0]))
      && ((forall t <- s.tasks :: s.tasks[t] == Ended) ==>
            s.shutdown && s.reports == if s.initiator.Some? then [s.initiator.value] else [])
  {
    RunKeeps(START, run);
    var s := After(START, run);
    hide After, Possible;
    assert Reader in s.tasks;
  }

  /** The reader's loop ends once. */
  lemma {:induction false} ReaderTurnStays(s: State, run: seq<Event>)
    requires Inv(s) && Possible(s, run) && s.tasks[Reader] != Active
    ensures After(s, run).readerTurn == s.readerTurn
    decreases |run|
  {
    if run != [] {
      StepKeeps(s, run[0]);
      ReaderTurnStays(Step(s, run[0]), run[1..]);
    }
  }

  lemma {:induction false} ReaderTurnIs(s: State, run: seq<Event>, turn: Turn)
    requires Inv(s) && Possible(s, run) && ReaderEnds(turn) in run
    ensures After(s, run).readerTurn == Some(turn)
    decreases |run|
  {
    StepKeeps(s, run[0]);
    if run[0] == ReaderEnds(turn) {
      ReaderTurnStays(Step(s, run[0]), run[1..]);
    } else {
      ReaderTurnIs(Step(s, run[0]), run[1..], turn);
    }
  }

  /** If it is the reader's loss that is reported, the reason is the one its loop gave over all its turns. */
  lemma ReaderReasonIsReported(run: seq<Event>, turns: seq<Turn>)
    requires Possible(START, run) && WholeLoop(turns) && ReaderEnds(turns[|turns| - 1]) in run
    ensures forall loss <- After(START, run).reports :: loss.task == Reader ==> Reason(turns[|turns| - 1]) == [loss.reason]
  {
    ReaderTurnIs(START, run, turns[|turns| - 1]);
    RunKeeps(START, run);
    hide After, Possible, Reason;
  }

  lemma InitiatorStays(s: State, event: Event)
    requires Inv(s) && Enabled(s, event) && s.shutdown
    ensures Step(s, event).shutdown && Step(s, event).initiator == s.initiator
  {
  }

  /** Whoever sets the flag first stays the one that is reported, whatever the other tasks find later. */
  lemma {:induction false} FirstToStopWins(s: State, run: seq<Event>)
    requires Inv(s) && s.shutdown && Possible(s, run)
    ensures After(s, run).shutdown && After(s, run).initiator == s.initiator
    ensures forall loss <- After(s, run).reports :: s.initiator == Some(loss)
    decreases |run|
  {
    if run != [] {
      hide Inv, Step, Enabled;
      InitiatorStays(s, run[0]);
      StepKeeps(s, run[0]);
      FirstToStopWins(Step(s, run[0]), run[1..]);
    }
  }
}

/** The single writer of a connection, which empties three lanes in class order. */
module ConnectionWriter {
  import opened Common

  datatype Lane = Control | Interactive | Bulk

  /** `action` is what must happen once the frame was written. */
  datatype Frame = Frame(lane: Lane, id: nat, encodes: bool, action: Option<nat>)

  datatype WriteEnd = Sent | WriteFails | ShutdownDuring

  /** What one turn of the writer finds: the frames that arrived since, and how its write would end. */
  datatype Look = Look(arrived: seq<Frame>, controlClosed: bool, shutdown: bool, write: WriteEnd)

  datatype End = Running | Stopped | Broken

  datatype State = State(
    control: seq<Frame>, interactive: seq<Frame>, bulk: seq<Frame>,
    taken: seq<Frame>, written: seq<Frame>, actions: seq<nat>, end: End)

  const START := State([], [], [], [], [], [], Running)

  function Of(frames: seq<Frame>, lane: Lane): seq<Frame> {
    if frames == [] then []
    else Of(frames[..|frames| - 1], lane) + if frames[|frames| - 1].lane == lane then [frames[|frames| - 1]] else []
  }

  function Queue(s: State, lane: Lane): seq<Frame> {
    match lane
    case Control => s.control
    case Interactive => s.interactive
    case Bulk => s.bulk
  }

  function Arrive(s: State, frames: seq<Frame>): State {
    s.(control := s.control + Of(frames, Control), interactive := s.interactive + Of(frames, Interactive),
       bulk := s.bulk + Of(frames, Bulk))
  }

  /** A taken frame is written, unless it has no encoding or the connection ends first. */
  function Write(s: State, frame: Frame, end: WriteEnd): State {
    var taken := s.(taken := s.taken + [frame]);
    if !frame.encodes then taken
    else
      match end
      case ShutdownDuring => taken.(end := Stopped)
      case WriteFails => taken.(end := Broken)
      case Sent =>
        taken.(written := s.written + [frame],
               actions := s.actions + if frame.action.Some? then [frame.action.value] else [])
  }

  /** One turn of the loop. */
  function Turn(s: State, look: Look): State {
    if s.end != Running then s
    else
      var now := Arrive(s, look.arrived);
      if look.shutdown then now.(end := Stopped)
      else if now.control != [] then Write(now.(control := now.control[1..]), now.control[0], look.write)
      else if look.controlClosed then now.(end := Stopped)
      else if now.interactive != [] then Write(now.(interactive := now.interactive[1..]), now.interactive[0], look.write)
      else if now.bulk != [] then Write(now.(bulk := now.bulk[1..]), now.bulk[0], look.write)
      else now
  }

  function Turns(s: State, looks: seq<Look>): State {
    if looks == [] then s else Turn(Turns(s, looks[..|looks| - 1]), looks[|looks| - 1])
  }

  /** `write_frames`: ends at shutdown, at a closed control lane or at a failed write. */
  method WriteFrames(looks: seq<Look>) returns (written: seq<Frame>, actions: seq<nat>, end: End)
    ensures var s := Turns(START, looks);
      written == s.written && actions == s.actions && end == s.end
  {
    var control: seq<Frame>, interactive: seq<Frame>, bulk: seq<Frame> := [], [], [];
    ghost var taken: seq<Frame> := [];
    written, actions, end := [], [], Running;
    hide Of;
    for i := 0 to |looks|
      invariant end == Running
      invariant Turns(START, looks[..i]) == State(control, interactive, bulk, taken, written, actions, end)
    {
      var look := looks[i];
      assert looks[..i + 1][..i] == looks[..i];
      control, interactive, bulk :=
        control + Of(look.arrived, Control), interactive + Of(look.arrived, Interactive), bulk + Of(look.arrived, Bulk);
      if look.shutdown {
        EndStays(looks, i + 1);
        return written, actions, Stopped;
      }
      var frame: Frame;
      if control != [] {
        frame, control := control[0], control[1..];
      } else if look.controlClosed {
        EndStays(looks, i + 1);
        return written, actions, Stopped;
      } else if interactive != [] {
        frame, interactive := interactive[0], interactive[1..];
      } else if bulk != [] {
        frame, bulk := bulk[0], bulk[1..];
      } else {
        continue;
      }
      taken := taken + [frame];
      if !frame.encodes {
        continue;
      }
      if look.write == ShutdownDuring {
        EndStays(looks, i + 1);
        return written, actions, Stopped;
      }
      if look.write == WriteFails {
        EndStays(looks, i + 1);
        return written, actions, Broken;
      }
      written := written + [frame];
      if frame.action.Some? {
        actions := actions + [frame.action.value];
      }
    }
    assert looks[..|looks|] == looks;
  }

  lemma {:induction false} EndStays(looks: seq<Look>, n: nat)
    requires n <= |looks| && Turns(START, looks[..n]).end != Running
    ensures Turns(START, looks) == Turns(START, looks[..n])
    decreases |looks| - n
  {
    if n < |looks| {
      assert looks[..n + 1][..n] == looks[..n];
      EndStays(looks, n + 1);
    } else {
      assert looks[..n] == looks;
    }
  }

  // ---------------------------------------------------------------- order within and across lanes

  function Arrived(looks: seq<Look>): seq<Frame> {
    if looks == [] then [] else Arrived(looks[..|looks| - 1]) + looks[|looks| - 1].arrived
  }

  function Encoding(frames: seq<Frame>): seq<Frame> {
    if frames == [] then []
    else Encoding(frames[..|frames| - 1]) + if frames[|frames| - 1].encodes then [frames[|frames| - 1]] else []
  }

  function ActionsOf(frames: seq<Frame>): seq<nat> {
    if frames == [] then []
    else
      ActionsOf(frames[..|frames| - 1])
      + if frames[|frames| - 1].action.Some? then [frames[|frames| - 1].action.value] else []
  }

  lemma {:induction false} OfConcat(a: seq<Frame>, b: seq<Frame>, lane: Lane)
    ensures Of(a + b, lane) == Of(a, lane) + Of(b, lane)
  {
    if b == [] {
      assert a + b == a;
    } else {
      OfConcat(a, b[..|b| - 1], lane);
      assert (a + b)[..|a + b| - 1] == a + b[..|b| - 1];
    }
  }

  /** Frames of a lane wait in that lane. */
  ghost predicate Sorted(s: State) {
    && (forall i :: 0 <= i < |s.control| ==> s.control[i].lane == Control)
    && (forall i :: 0 <= i < |s.interactive| ==> s.interactive[i].lane == Interactive)
    && (forall i :: 0 <= i < |s.bulk| ==> s.bulk[i].lane == Bulk)
  }

  lemma {:induction false} OfLane(frames: seq<Frame>, lane: Lane)
    ensures forall i :: 0 <= i < |Of(frames, lane)| ==> Of(frames, lane)[i].lane == lane
  {
    if frames != [] {
      OfLane(frames[..|frames| - 1], lane);
    }
  }

  lemma ArriveSorted(s: State, frames: seq<Frame>)
    requires Sorted(s)
    ensures Sorted(Arrive(s, frames))
  {
    OfLane(frames, Control);
    OfLane(frames, Interactive);
    OfLane(frames, Bulk);
  }

  /** The frame the next turn takes, if any. */
  function Next(s: State, look: Look): Option<Frame> {
    var now := Arrive(s, look.arrived);
    if s.end != Running || look.shutdown then None
    else if now.control != [] then Some(now.control[0])
    else if look.controlClosed then None
    else if now.interactive != [] then Some(now.interactive[0])
    else if now.bulk != [] then Some(now.bulk[0])
    else None
  }

  /** A turn takes at most one frame, and only when every higher lane is empty. */
  lemma WriteTakes(s: State, frame: Frame, end: WriteEnd)
    ensures var after := Write(s, frame, end);
      && after.taken == s.taken + [frame] && after.control == s.control
      && after.interactive == s.interactive && after.bulk == s.bulk
  {
  }

  /** Taking a frame leaves the lanes sorted, however its write ends. */
  lemma WriteSorted(s: State, frame: Frame, end: WriteEnd)
    requires Sorted(s)
    ensures Sorted(Write(s, frame, end)) && Write(s, frame, end).taken == s.taken + [frame]
  {
    WriteTakes(s, frame, end);
    hide Write;
  }

  lemma TurnTakes(s: State, look: Look)
    requires Sorted(s) && s.end == Running
    ensures var now, after, next := Arrive(s, look.arrived), Turn(s, look), Next(s, look);
      && Sorted(after)
      && after.taken == s.taken + (if next.Some? then [next.value] else [])
      && (next.Some? ==>
            && (next.value.lane != Control ==> now.control == [])
            && (next.value.lane == Bulk ==> now.interactive == []))
  {
    ArriveSorted(s, look.arrived);
    var now := Arrive(s, look.arrived);
    hide Of, Arrive, Write;
    if now.control != [] {
      WriteSorted(now.(control := now.control[1..]), now.control[0], look.write);
    } else if now.interactive != [] {
      WriteSorted(now.(interactive := now.interactive[1..]), now.interactive[0], look.write);
    } else if now.bulk != [] {
      WriteSorted(now.(bulk := now.bulk[1..]), now.bulk[0], look.write);
    }
  }

  lemma WriteLeaves(s: State, frame: Frame, end: WriteEnd, lane: Lane)
    ensures Queue(Write(s, frame, end), lane) == Queue(s, lane)
  {
    WriteTakes(s, frame, end);
  }

  /** The frame a turn takes is the first of its lane; the other lanes stay. */
  lemma TurnLeaves(s: State, look: Look, lane: Lane)
    requires Sorted(s) && s.end == Running
    ensures var now, after, next := Arrive(s, look.arrived), Turn(s, look), Next(s, look);
      Queue(now, lane) == (if next.Some? && next.value.lane == lane then [next.value] else []) + Queue(after, lane)
  {
    ArriveSorted(s, look.arrived);
    hide Of, Arrive, Write;
    var now := Arrive(s, look.arrived);
    if now.control != [] {
      WriteLeaves(now.(control := now.control[1..]), now.control[0], look.write, lane);
      assert now.control == [now.control[0]] + now.control[1..];
    } else if now.interactive != [] {
      WriteLeaves(now.(interactive := now.interactive[1..]), now.interactive[0], look.write, lane);
      assert now.interactive == [now.interactive[0]] + now.interactive[1..];
    } else if now.bulk != [] {
      WriteLeaves(now.(bulk := now.bulk[1..]), now.bulk[0], look.write, lane);
      assert now.bulk == [now.bulk[0]] + now.bulk[1..];
    }
  }

  /** What was taken from a lane, with what still waits there, is what arrived in it, in order. */
  lemma {:induction false} LanesAreQueues(looks: seq<Look>, lane: Lane)
    ensures var s := Turns(START, looks);
      && Sorted(s) && Of(s.taken, lane) <= Of(Arrived(looks), lane)
      && (s.end == Running ==> Of(s.taken, lane) + Queue(s, lane) == Of(Arrived(looks), lane))
  {
    if looks != [] {
      var front, look := looks[..|looks| - 1], looks[|looks| - 1];
      var s := Turns(START, front);
      LanesAreQueues(front, lane);
      OfConcat(Arrived(front), look.arrived, lane);
      if s.end == Running {
        TurnTakes(s, look);
        TurnLeaves(s, look, lane);
        var next := Next(s, look);
        var more := if next.Some? then [next.value] else [];
        OfConcat(s.taken, more, lane);
        assert Of(more, lane) == if next.Some? && next.value.lane == lane then more else [] by {
          if next.Some? {
            assert more[..0] == [];
          }
        }
        ConcatAssoc(Of(s.taken, lane), Of(more, lane), Queue(Turn(s, look), lane));
        ConcatAssoc(Of(s.taken, lane), Queue(s, lane), Of(look.arrived, lane));
        assert Queue(Arrive(s, look.arrived), lane) == Queue(s, lane) + Of(look.arrived, lane);
      }
    }
  }

  lemma EncodingMore(frames: seq<Frame>, frame: Frame)
    ensures Encoding(frames + [frame]) == Encoding(frames) + if frame.encodes then [frame] else []
    ensures ActionsOf(frames + [frame]) == ActionsOf(frames) + if frame.action.Some? then [frame.action.value] else []
  {
    assert (frames + [frame])[..|frames|] == frames;
  }

  /** What was written, and what followed it, fits what was taken. */
  ghost predicate WritesFit(s: State) {
    && s.written <= Encoding(s.taken) && s.actions == ActionsOf(s.written)
    && (s.end == Running ==> s.written == Encoding(s.taken))
  }

  lemma WriteFits(s: State, frame: Frame, end: WriteEnd)
    requires WritesFit(s) && s.end == Running
    ensures WritesFit(Write(s, frame, end))
  {
    EncodingMore(s.taken, frame);
    EncodingMore(s.written, frame);
    hide Encoding, ActionsOf;
  }

  /** Frames are written in the order taken, and a frame's action runs only after it was written. */
  lemma {:induction false} ActionsFollowFrames(looks: seq<Look>)
    ensures WritesFit(Turns(START, looks))
  {
    if looks != [] {
      var s, look := Turns(START, looks[..|looks| - 1]), looks[|looks| - 1];
      ActionsFollowFrames(looks[..|looks| - 1]);
      if s.end == Running {
        var now := Arrive(s, look.arrived);
        assert WritesFit(now);
        hide WritesFit, Write;
        if now.control != [] {
          assert WritesFit(now.(control := now.control[1..])) by { SameWrites(now, now.(control := now.control[1..])); }
          WriteFits(now.(control := now.control[1..]), now.control[0], look.write);
        } else if now.interactive != [] {
          SameWrites(now, now.(interactive := now.interactive[1..]));
          WriteFits(now.(interactive := now.interactive[1..]), now.interactive[0], look.write);
        } else if now.bulk != [] {
          SameWrites(now, now.(bulk := now.bulk[1..]));
          WriteFits(now.(bulk := now.bulk[1..]), now.bulk[0], look.write);
        }
        SameWrites(now, now.(end := Stopped));
      }
    }
  }

  lemma SameWrites(s: State, t: State)
    requires WritesFit(s) && s.end == Running
    requires t.taken == s.taken && t.written == s.written && t.actions == s.actions
    ensures WritesFit(t)
  {
  }

  lemma ControlTurn(s: State, look: Look)
    requires s.end == Running
    ensures var queue, after, next := s.control + Of(look.arrived, Control), Turn(s, look), Next(s, look);
      && after.taken == s.taken + (if next.Some? then [next.value] else [])
      && (queue != [] && next.Some? ==> next.value == queue[0] && after.control == queue[1..])
      && (queue != [] && next.None? ==> after.end != Running)
  {
    hide Of;
  }

  /** `since` starts with the control frames that waited, and what is left of them still waits first. */
  ghost predicate ControlFirst(waited: seq<Frame>, since: seq<Frame>, after: State) {
    if |since| < |waited| then
      since == waited[..|since|] && (after.end == Running ==> waited[|since|..] <= after.control)
    else waited <= since
  }

  lemma TurnKeepsControlFirst(waited: seq<Frame>, since: seq<Frame>, s: State, look: Look)
    requires s.end == Running && ControlFirst(waited, since, s)
    ensures var next := Next(s, look);
      ControlFirst(waited, since + (if next.Some? then [next.value] else []), Turn(s, look))
  {
    ControlTurn(s, look);
    hide Turn, Next, Of;
    var queue := s.control + Of(look.arrived, Control);
    if |since| < |waited| {
      assert waited[|since|..] <= queue && queue[0] == waited[|since|];
      assert waited[|since|..][1..] == waited[|since| + 1..];
    }
  }

  /** Control frames that wait are the next ones taken, in order and before any other frame. */
  lemma {:induction false} ControlGoesNext(s: State, looks: seq<Look>)
    ensures var after := Turns(s, looks);
      s.taken <= after.taken && ControlFirst(s.control, after.taken[|s.taken|..], after)
  {
    if looks != [] {
      var front, look := looks[..|looks| - 1], looks[|looks| - 1];
      var mid := Turns(s, front);
      ControlGoesNext(s, front);
      if mid.end == Running {
        TurnKeepsControlFirst(s.control, mid.taken[|s.taken|..], mid, look);
        ControlTurn(mid, look);
        hide ControlFirst, Turn, Next;
        var more := if Next(mid, look).Some? then [Next(mid, look).value] else [];
        assert (mid.taken + more)[|s.taken|..] == mid.taken[|s.taken|..] + more;
      }
    }
  }
}

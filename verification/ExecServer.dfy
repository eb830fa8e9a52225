/**
 * The server between the agent and the caller of a remote command: frames, a stop by a cancel
 * request, a lost agent, the command's result and the answer's body meet in any order.
 */
module ExecServer {
  import opened Common
  import opened ExecWire

  datatype Phase =
    | Reading            // the body takes output frames
    | Awaiting           // the output ended; the body waits for the result
    | Finished
    | Aborted            // the body ends with an error

  datatype Server = Server(
    sent: seq<Event>,          // the output events the agent sends, one per frame, in order
    result: Event,             // the event of the command's result, which follows them
    next: nat,                 // how many frames the connection has looked at
    passed: Option<Event>,     // a frame that was let through and is about to be queued
    closed: bool,              // nothing is routed to the queue any more
    stopped: bool,
    lost: bool,                // the agent's connection ended
    queue: seq<Event>,
    terminal: Option<Event>,   // the published result
    phase: Phase,
    body: seq<Event>,          // the output events the body has carried
    accepted: nat)             // how many frames had been queued when the stream was stopped

  function Start(sent: seq<Event>, result: Event): Server {
    Server(sent, result, 0, None, false, false, false, [], None, Reading, [], 0)
  }

  datatype Step =
    | Looks          // the connection takes the next frame, and discards it if the stream was stopped
    | Queues         // the frame that was let through reaches the queue
    | Ends           // the frame that ends the output
    | Stops          // a cancel request was admitted
    | Loses
    | Publishes      // the command's result reaches the router
    | Takes          // the body takes a queued frame
    | StopsReading   // the queue is empty and the stream stopped or closed
    | Finishes
    | Aborts

  predicate Enabled(s: Server, step: Step) {
    match step
    case Looks => s.next < |s.sent| && s.passed.None?
    case Queues => s.passed.Some?
    case Ends => s.next == |s.sent| && s.passed.None?
    // Both settle an execution that has no result yet.
    case Stops => s.terminal.None? && !s.lost
    case Loses => s.terminal.None? && !s.lost
    // The result follows the output on the connection.
    case Publishes => s.next == |s.sent| && s.passed.None? && s.terminal.None? && !s.lost
    case Takes => s.phase == Reading && s.queue != []
    case StopsReading => s.phase == Reading && s.queue == [] && (s.stopped || (s.closed && s.passed.None?))
    case Finishes => s.phase == Awaiting && s.terminal.Some?
    case Aborts => s.phase == Awaiting && s.lost
  }

  function Stopped(s: Server): Server {
    if s.stopped then s else s.(stopped := true, accepted := |s.body| + |s.queue|)
  }

  function Apply(s: Server, step: Step): Server
    requires Enabled(s, step)
  {
    match step
    case Looks => s.(next := s.next + 1, passed := if s.stopped || s.closed then None else Some(s.sent[s.next]))
    case Queues => s.(queue := s.queue + [s.passed.value], passed := None)
    case Ends => s.(closed := true)
    case Stops => Stopped(s)
    case Loses => Stopped(s).(lost := true, closed := true)
    case Publishes => s.(terminal := Some(s.result), closed := true)
    case Takes => s.(queue := s.queue[1..], body := s.body + [s.queue[0]])
    case StopsReading => s.(phase := Awaiting)
    case Finishes => s.(phase := Finished)
    case Aborts => s.(phase := Aborted)
  }

  ghost predicate Possible(s: Server, run: seq<Step>)
    decreases |run|
  {
    run == [] || (Enabled(s, run[0]) && Possible(Apply(s, run[0]), run[1..]))
  }

  ghost function After(s: Server, run: seq<Step>): Server
    requires Possible(s, run)
    decreases |run|
  {
    if run == [] then s else After(Apply(s, run[0]), run[1..])
  }

  // ---------------------------------------------------------------- what every step keeps

  /** Every frame is in the body, in the queue or about to be queued, up to the first that was discarded. */
  ghost predicate InOrder(s: Server) {
    var k := |s.body| + |s.queue|;
    && s.next <= |s.sent| && s.body <= s.sent
    && (s.phase == Reading ==>
          && k <= s.next && s.body + s.queue == s.sent[..k]
          && (s.passed.Some? ==> k + 1 == s.next && s.passed.value == s.sent[k])
          && (!s.stopped && s.passed.None? ==> k == s.next))
    && (!s.stopped && s.phase != Reading ==> s.body == s.sent && s.next == |s.sent| && s.queue == [] && s.passed.None?)
  }

  /** What was queued before the stop is carried, and at most the one frame that was on its way. */
  ghost predicate KeepsAccepted(s: Server) {
    s.stopped ==>
      && (s.phase == Reading ==>
            && s.accepted <= |s.body| + |s.queue|
            && |s.body| + |s.queue| + (if s.passed.Some? then 1 else 0) <= s.accepted + 1)
      && (s.phase != Reading ==> s.accepted <= |s.body| <= s.accepted + 1)
  }

  ghost predicate Inv(s: Server) {
    && InOrder(s) && KeepsAccepted(s)
    && (s.closed && !s.stopped ==> s.next == |s.sent| && s.passed.None?)
    && (s.terminal.Some? ==> s.terminal == Some(s.result) && s.closed && !s.lost)
    && (s.lost ==> s.stopped)
    && (s.phase == Finished ==> s.terminal.Some?) && (s.phase == Aborted ==> s.lost)
  }

  lemma StepKeeps(s: Server, step: Step)
    requires Inv(s) && Enabled(s, step)
    ensures Inv(Apply(s, step)) && Apply(s, step).sent == s.sent && Apply(s, step).result == s.result
  {
    if step.Queues? && s.phase == Reading {
      var k := |s.body| + |s.queue|;
      assert s.sent[..k + 1] == s.sent[..k] + [s.sent[k]];
      ConcatAssoc(s.body, s.queue, [s.passed.value]);
    } else if step.Takes? {
      assert s.queue == [s.queue[0]] + s.queue[1..];
      ConcatAssoc(s.body, [s.queue[0]], s.queue[1..]);
      assert (s.body + [s.queue[0]]) + s.queue[1..] == s.sent[..|s.body| + |s.queue|];
    }
  }

  lemma {:induction false} RunKeeps(s: Server, run: seq<Step>)
    requires Inv(s) && Possible(s, run)
    ensures Inv(After(s, run)) && After(s, run).sent == s.sent && After(s, run).result == s.result
    decreases |run|
  {
    if run != [] {
      hide Inv, Enabled, Apply;
      StepKeeps(s, run[0]);
      RunKeeps(Apply(s, run[0]), run[1..]);
    }
  }

  /**
   * However the run goes, the body carries the first of the agent's events in order: all of them
   * unless the stream was stopped, and then all that were queued before and at most one more. A
   * body that finishes does so with the command's result; only a lost agent breaks it off.
   */
  lemma BodyIsPrefix(sent: seq<Event>, result: Event, run: seq<Step>)
    requires Possible(Start(sent, result), run)
    ensures var s := After(Start(sent, result), run);
      && s.body <= sent
      && (s.phase != Reading && !s.stopped ==> s.body == sent)
      && (s.phase != Reading && s.stopped ==> s.accepted <= |s.body| <= s.accepted + 1)
      && (s.phase == Finished ==> s.terminal == Some(result) && !s.lost)
      && (s.phase == Aborted ==> s.lost)
  {
    RunKeeps(Start(sent, result), run);
    hide After, Possible;
  }

  /** Without a cancel request only the loss of the agent stops the stream. */
  lemma {:induction false} OnlyCancelsStop(s: Server, run: seq<Step>)
    requires Possible(s, run) && Stops !in run && (s.stopped ==> s.lost)
    ensures After(s, run).stopped ==> After(s, run).lost
    decreases |run|
  {
    if run != [] {
      OnlyCancelsStop(Apply(s, run[0]), run[1..]);
    }
  }

  // ---------------------------------------------------------------- every body ends

  /** What is left to do before the body ends. */
  function Left(s: Server): nat
    requires s.next <= |s.sent|
  {
    4 * (|s.sent| - s.next) + (if s.passed.Some? then 3 else 0) + 2 * |s.queue| + (if s.terminal.None? then 1 else 0)
    + if s.phase == Reading then 2 else if s.phase == Awaiting then 1 else 0
  }

  predicate EndsIt(phase: Phase) {
    phase == Finished || phase == Aborted
  }

  lemma NoMoreWork(s: Server, step: Step)
    requires Inv(s) && Enabled(s, step)
    ensures Apply(s, step).next <= |s.sent| && Left(Apply(s, step)) <= Left(s)
  {
  }

  /** No run adds work, whatever is stopped or lost on the way. */
  lemma {:induction false} WorkNeverGrows(s: Server, run: seq<Step>)
    requires Inv(s) && Possible(s, run)
    ensures After(s, run).next <= |After(s, run).sent| && Left(After(s, run)) <= Left(s)
    decreases |run|
  {
    if run != [] {
      StepKeeps(s, run[0]);
      NoMoreWork(s, run[0]);
      hide Enabled, Apply, Left;
      WorkNeverGrows(Apply(s, run[0]), run[1..]);
    }
  }

  /** Until the body has ended there is a step that takes work away. */
  lemma NeverStuck(s: Server) returns (step: Step)
    requires Inv(s) && !EndsIt(s.phase)
    ensures Enabled(s, step) && Apply(s, step).next <= |s.sent| && Left(Apply(s, step)) < Left(s)
  {
    step :=
      if s.passed.Some? then Queues
      else if s.next < |s.sent| then Looks
      else if s.phase == Reading && s.queue != [] then Takes
      else if s.terminal.None? && !s.lost then Publishes
      else if s.phase == Reading then StopsReading
      else if s.lost then Aborts
      else Finishes;
  }

  // ---------------------------------------------------------------- every prefix can be what arrives

  lemma OneMore(s: Server, step: Step, rest: seq<Step>)
    requires Enabled(s, step) && Possible(Apply(s, step), rest)
    ensures Possible(s, [step] + rest) && After(s, [step] + rest) == After(Apply(s, step), rest)
  {
    assert ([step] + rest)[0] == step && ([step] + rest)[1..] == rest;
  }

  /** A stopped stream discards the remaining frames and finishes with what its body has. */
  lemma {:induction false} DiscardsTheRest(s: Server) returns (run: seq<Step>)
    requires s.phase == Reading && s.queue == [] && s.passed.None? && s.stopped && !s.lost && s.terminal.None?
    requires s.next <= |s.sent|
    ensures Possible(s, run) && After(s, run).phase == Finished && After(s, run).body == s.body
    decreases |s.sent| - s.next
  {
    if s.next < |s.sent| {
      var rest := DiscardsTheRest(Apply(s, Looks));
      OneMore(s, Looks, rest);
      run := [Looks] + rest;
    } else {
      var published := Apply(s, Publishes);
      var awaiting := Apply(published, StopsReading);
      assert Possible(Apply(awaiting, Finishes), []);
      OneMore(awaiting, Finishes, []);
      OneMore(published, StopsReading, [Finishes] + []);
      run := [Publishes] + ([StopsReading] + ([Finishes] + []));
      OneMore(s, Publishes, [StopsReading] + ([Finishes] + []));
    }
  }

  /** Without a stop the whole output can arrive. */
  lemma {:induction false} EverythingCanArrive(s: Server) returns (run: seq<Step>)
    requires s.phase == Reading && s.queue == [] && s.passed.None? && !s.stopped && !s.closed && !s.lost && s.terminal.None?
    requires |s.body| == s.next <= |s.sent| && s.body == s.sent[..s.next]
    ensures Possible(s, run) && After(s, run).phase == Finished && After(s, run).body == s.sent && !After(s, run).stopped
    decreases |s.sent| - s.next
  {
    if s.next == |s.sent| {
      var published := Apply(s, Publishes);
      var awaiting := Apply(published, StopsReading);
      assert Possible(Apply(awaiting, Finishes), []);
      OneMore(awaiting, Finishes, []);
      OneMore(published, StopsReading, [Finishes] + []);
      run := [Publishes] + ([StopsReading] + ([Finishes] + []));
      OneMore(s, Publishes, [StopsReading] + ([Finishes] + []));
    } else {
      var passed := Apply(s, Looks);
      var queued := Apply(passed, Queues);
      var taken := Apply(queued, Takes);
      assert s.sent[..s.next + 1] == s.sent[..s.next] + [s.sent[s.next]];
      var rest := EverythingCanArrive(taken);
      OneMore(queued, Takes, rest);
      OneMore(passed, Queues, [Takes] + rest);
      OneMore(s, Looks, [Queues] + ([Takes] + rest));
      run := [Looks] + ([Queues] + ([Takes] + rest));
    }
  }

  /** Whatever part of the output one picks, a cancel request can make it the part that arrives. */
  lemma {:induction false} AnyPrefixCanArrive(s: Server, n: nat) returns (run: seq<Step>)
    requires s.phase == Reading && s.queue == [] && s.passed.None? && !s.stopped && !s.closed && !s.lost && s.terminal.None?
    requires |s.body| == s.next <= n <= |s.sent| && s.body == s.sent[..s.next]
    ensures Possible(s, run) && After(s, run).phase == Finished && After(s, run).body == s.sent[..n]
    decreases n - s.next
  {
    if s.next == n {
      var rest := DiscardsTheRest(Apply(s, Stops));
      OneMore(s, Stops, rest);
      run := [Stops] + rest;
    } else {
      var passed := Apply(s, Looks);
      var queued := Apply(passed, Queues);
      var taken := Apply(queued, Takes);
      assert s.sent[..s.next + 1] == s.sent[..s.next] + [s.sent[s.next]];
      var rest := AnyPrefixCanArrive(taken, n);
      OneMore(queued, Takes, rest);
      OneMore(passed, Queues, [Takes] + rest);
      OneMore(s, Looks, [Queues] + ([Takes] + rest));
      run := [Looks] + ([Queues] + ([Takes] + rest));
    }
  }
}

/**
 * `WorktreeStatusBatcher`: one status request at a time for all rows that ask, as a state
 * machine driven by loads, the batch timer, responses, failures and aborts.
 */
module WorktreeBatcher {
  import opened Common
  import opened WaitingRows

  /** The agent's verdict on one checkout. */
  datatype Verdict = Counted(changed: nat, untracked: nat, truncated: bool) | Failed(message: string)

  datatype Status = Status(path: string, verdict: Verdict)

  /** How a row's promise was settled. */
  datatype Outcome = Answered(verdict: Verdict) | NothingCounted | RequestFailed | Aborted

  datatype Settlement = Settlement(waiter: Waiter, outcome: Outcome)

  datatype State = State(
    queued: Rows,
    inFlight: Option<Rows>,
    cancelled: bool,             // the request in flight was told to stop
    scheduled: bool,
    listening: set<Waiter>,      // waiters whose abort listener is still attached
    loaded: seq<Waiter>,         // every call of load, in order
    settled: seq<Settlement>,    // every resolve and reject, in order
    requests: seq<seq<string>>)  // the paths of every request sent

  const Idle := State([], None, false, false, {}, [], [], [])

  function Flying(s: State): Rows {
    if s.inFlight.Some? then s.inFlight.value else []
  }

  // ---------------------------------------------------------------- the steps

  function Schedule(s: State): State {
    if s.scheduled || s.inFlight.Some? then s else s.(scheduled := true)
  }

  function Load(s: State, path: string, aborted: bool): State {
    var waiter := Waiter(|s.loaded|, path);
    var known := s.(loaded := s.loaded + [waiter]);
    if aborted then known.(settled := s.settled + [Settlement(waiter, Aborted)])
    else Schedule(known.(listening := s.listening + {waiter}, queued := Added(s.queued, path, waiter)))
  }

  function Send(s: State): State {
    if s.inFlight.Some? || s.queued == [] then s
    else s.(queued := [], inFlight := Some(s.queued), cancelled := false, requests := s.requests + [Paths(s.queued)])
  }

  function Fire(s: State): State {
    Send(s.(scheduled := false))
  }

  function SettledAs(waiters: seq<Waiter>, outcome: Outcome): (log: seq<Settlement>)
    ensures |log| == |waiters|
    ensures forall i :: 0 <= i < |waiters| ==> log[i] == Settlement(waiters[i], outcome)
  {
    seq(|waiters|, i requires 0 <= i < |waiters| => Settlement(waiters[i], outcome))
  }

  /** The rows left and the rows settled once the first statuses of a response were handed out. */
  function HandedOut(rows: Rows, statuses: seq<Status>): (Rows, seq<Settlement>) {
    if statuses == [] then (rows, [])
    else
      var (left, log) := HandedOut(rows, statuses[..|statuses| - 1]);
      var last := statuses[|statuses| - 1];
      (Taken(left, last.path), log + SettledAs(TakenWaiters(left, last.path), Answered(last.verdict)))
  }

  function AllRejected(rows: Rows, outcome: Outcome): seq<Settlement> {
    if rows == [] then [] else SettledAs(rows[0].waiters, outcome) + AllRejected(rows[1..], outcome)
  }

  function WaitersOf(log: seq<Settlement>): set<Waiter> {
    set entry | entry in log :: entry.waiter
  }

  /** The end of a request: the rows it left unanswered go in front of the queue. */
  function Ended(s: State, left: Rows, log: seq<Settlement>): State {
    Schedule(s.(queued := Appended(left, s.queued), inFlight := None,
                listening := s.listening - WaitersOf(log), settled := s.settled + log))
  }

  function Respond(s: State, statuses: seq<Status>): State
    requires s.inFlight.Some?
  {
    var (left, log) := HandedOut(s.inFlight.value, statuses);
    if statuses == [] then Ended(s, [], AllRejected(left, NothingCounted))
    else Ended(s, left, log)
  }

  function Fail(s: State): State
    requires s.inFlight.Some?
  {
    var log := AllRejected(s.inFlight.value, RequestFailed);
    Schedule(s.(inFlight := None, listening := s.listening - WaitersOf(log), settled := s.settled + log))
  }

  function Abandon(s: State, waiter: Waiter): State {
    var rejected := s.(
      settled := s.settled + [Settlement(waiter, Aborted)],
      listening := s.listening - {waiter},
      queued := Removed(s.queued, waiter.path, waiter));
    if s.inFlight == None then rejected
    else
      var left := Removed(s.inFlight.value, waiter.path, waiter);
      rejected.(inFlight := Some(left), cancelled := s.cancelled || left == [])
  }

  datatype Event =
    | Loads(path: string, aborted: bool)
    | TimerFires
    | Responds(statuses: seq<Status>)
    | RequestFails
    | Aborts(waiter: Waiter)

  /** An event that cannot happen now, such as a response without a request, changes nothing. */
  function Step(s: State, event: Event): State {
    match event
    case Loads(path, aborted) => Load(s, path, aborted)
    case TimerFires => if s.scheduled then Fire(s) else s
    case Responds(statuses) => if s.inFlight.Some? then Respond(s, statuses) else s
    case RequestFails => if s.inFlight.Some? then Fail(s) else s
    case Aborts(waiter) => if waiter in s.listening then Abandon(s, waiter) else s
  }

  function Run(s: State, events: seq<Event>): State {
    if events == [] then s else Step(Run(s, events[..|events| - 1]), events[|events| - 1])
  }

  // ---------------------------------------------------------------- what every step keeps

  /** How often a waiter's promise was settled. */
  function Settled(log: seq<Settlement>, w: Waiter): nat {
    if log == [] then 0
    else Settled(log[..|log| - 1], w) + (if log[|log| - 1].waiter == w then 1 else 0)
  }

  /** How often `load` handed out this waiter: once for each one it ever made, never otherwise. */
  function TimesLoaded(loaded: seq<Waiter>, w: Waiter): nat {
    if w.id < |loaded| && loaded[w.id] == w then 1 else 0
  }

  /** How often a waiter was settled, is queued and is in flight, added up. */
  function Places(s: State, w: Waiter): nat {
    Settled(s.settled, w) + Waiting(s.queued, w) + Waiting(Flying(s), w)
  }

  /** Every row ever loaded is settled, queued or in flight, exactly once in all. */
  ghost predicate Conserved(s: State) {
    && (forall i :: 0 <= i < |s.loaded| ==> s.loaded[i].id == i)
    && forall w :: Places(s, w) == TimesLoaded(s.loaded, w)
  }

  /** An abort listener is attached exactly to the rows that still wait. */
  ghost predicate Shape(s: State) {
    && Proper(s.queued) && Proper(Flying(s))
    && (forall w :: w in s.listening <==> Waiting(s.queued, w) + Waiting(Flying(s), w) > 0)
  }

  /** No lost wake-up, never a timer beside a request, and a request is stopped once nobody waits for it. */
  ghost predicate Awake(s: State) {
    && (s.queued != [] ==> s.scheduled || s.inFlight.Some?)
    && !(s.scheduled && s.inFlight.Some?)
    && (s.inFlight.Some? ==> (s.cancelled <==> s.inFlight.value == []))
  }

  ghost predicate Inv(s: State) {
    Conserved(s) && Shape(s) && Awake(s)
  }

  lemma SettledOne(log: seq<Settlement>, entry: Settlement, w: Waiter)
    ensures Settled(log + [entry], w) == Settled(log, w) + (if entry.waiter == w then 1 else 0)
  {
    assert (log + [entry])[..|log|] == log;
  }

  lemma {:induction false} SettledConcat(a: seq<Settlement>, b: seq<Settlement>, w: Waiter)
    ensures Settled(a + b, w) == Settled(a, w) + Settled(b, w)
  {
    if b == [] {
      assert a + b == a;
    } else {
      var front, last := b[..|b| - 1], b[|b| - 1];
      SettledConcat(a, front, w);
      assert a + b == (a + front) + [last];
      SettledOne(a + front, last, w);
    }
  }

  lemma {:induction false} SettledAsCount(waiters: seq<Waiter>, outcome: Outcome, w: Waiter)
    ensures Settled(SettledAs(waiters, outcome), w) == Count(waiters, w)
  {
    if waiters != [] {
      var front := waiters[..|waiters| - 1];
      SettledAsCount(front, outcome, w);
      assert SettledAs(waiters, outcome)[..|waiters| - 1] == SettledAs(front, outcome);
    }
  }

  lemma {:induction false} SettledMember(log: seq<Settlement>, w: Waiter)
    ensures w in WaitersOf(log) <==> Settled(log, w) > 0
  {
    if log != [] {
      var front, last := log[..|log| - 1], log[|log| - 1];
      SettledMember(front, w);
      assert log == front + [last];
      assert WaitersOf(log) == WaitersOf(front) + {last.waiter};
    }
  }

  lemma LoadedOneMore(loaded: seq<Waiter>, waiter: Waiter, w: Waiter)
    requires waiter.id == |loaded|
    ensures TimesLoaded(loaded + [waiter], w) == TimesLoaded(loaded, w) + (if w == waiter then 1 else 0)
  {
  }

  lemma LoadPlaces(s: State, path: string, aborted: bool, w: Waiter)
    ensures var waiter := Waiter(|s.loaded|, path);
      var after := Load(s, path, aborted);
      && Places(after, w) == Places(s, w) + (if w == waiter then 1 else 0)
      && Waiting(after.queued, w) == Waiting(s.queued, w) + (if w == waiter && !aborted then 1 else 0)
      && Flying(after) == Flying(s)
  {
    var waiter := Waiter(|s.loaded|, path);
    AddedWaiting(s.queued, path, waiter, w);
    SettledOne(s.settled, Settlement(waiter, Aborted), w);
  }

  lemma LoadKeeps(s: State, path: string, aborted: bool)
    requires Inv(s)
    ensures Inv(Load(s, path, aborted))
  {
    var waiter := Waiter(|s.loaded|, path);
    var after := Load(s, path, aborted);
    AddedProper(s.queued, waiter);
    hide Added, Waiting, Settled, Proper, Places;
    forall w
      ensures Places(after, w) == TimesLoaded(after.loaded, w)
      ensures w in after.listening <==> Waiting(after.queued, w) + Waiting(Flying(after), w) > 0
    {
      assert Places(s, w) == TimesLoaded(s.loaded, w);
      LoadPlaces(s, path, aborted, w);
      LoadedOneMore(s.loaded, waiter, w);
    }
  }

  lemma FireKeeps(s: State)
    requires Inv(s) && s.scheduled
    ensures Inv(Fire(s))
  {
    var after := Fire(s);
    forall w
      ensures Places(after, w) == TimesLoaded(after.loaded, w)
    {
      assert Places(s, w) == TimesLoaded(s.loaded, w);
    }
  }

  /** Handing out statuses leaves a part of the rows. */
  lemma {:induction false} HandedOutProper(rows: Rows, statuses: seq<Status>)
    requires Proper(rows)
    ensures var left := HandedOut(rows, statuses).0;
      Proper(left) && |left| <= |rows| && forall p <- Paths(left) :: p in Paths(rows)
  {
    if statuses != [] {
      var front := statuses[..|statuses| - 1];
      HandedOutProper(rows, front);
      TakenProper(HandedOut(rows, front).0, statuses[|statuses| - 1].path);
    }
  }

  /** Handing out statuses settles exactly the waiters it takes away. */
  lemma {:induction false} HandedOutSettles(rows: Rows, statuses: seq<Status>, w: Waiter)
    ensures var (left, log) := HandedOut(rows, statuses);
      Waiting(rows, w) == Waiting(left, w) + Settled(log, w)
  {
    if statuses != [] {
      var front, last := statuses[..|statuses| - 1], statuses[|statuses| - 1];
      HandedOutSettles(rows, front, w);
      var (left, log) := HandedOut(rows, front);
      var taken := TakenWaiters(left, last.path);
      TakenWaiting(left, last.path, w);
      SettledConcat(log, SettledAs(taken, Answered(last.verdict)), w);
      SettledAsCount(taken, Answered(last.verdict), w);
    }
  }

  lemma {:induction false} AllRejectedSettles(rows: Rows, outcome: Outcome, w: Waiter)
    ensures Settled(AllRejected(rows, outcome), w) == Waiting(rows, w)
  {
    if rows != [] {
      AllRejectedSettles(rows[1..], outcome, w);
      SettledAsCount(rows[0].waiters, outcome, w);
      SettledConcat(SettledAs(rows[0].waiters, outcome), AllRejected(rows[1..], outcome), w);
    }
  }

  /** The end of a request, answered or failed: what it settles and what it leaves make up what was in flight. */
  lemma EndedKeeps(s: State, left: Rows, log: seq<Settlement>)
    requires Inv(s) && Proper(left)
    requires forall w :: Waiting(Flying(s), w) == Waiting(left, w) + Settled(log, w)
    ensures Inv(Ended(s, left, log))
  {
    var after := Ended(s, left, log);
    AppendedProper(left, s.queued);
    forall w
      ensures Places(after, w) == TimesLoaded(after.loaded, w)
      ensures w in after.listening <==> Waiting(after.queued, w) + Waiting(Flying(after), w) > 0
    {
      assert Places(s, w) == TimesLoaded(s.loaded, w);
      AppendedWaiting(left, s.queued, w);
      SettledConcat(s.settled, log, w);
      SettledMember(log, w);
    }
  }

  lemma RespondKeeps(s: State, statuses: seq<Status>)
    requires Inv(s) && s.inFlight.Some?
    ensures Inv(Respond(s, statuses))
  {
    InvShape(s);
    hide Inv, Ended, Proper;
    var (left, log) := HandedOut(s.inFlight.value, statuses);
    HandedOutProper(s.inFlight.value, statuses);
    EmptyProper();
    forall w
      ensures Waiting(Flying(s), w) == Waiting(left, w) + Settled(log, w)
      ensures Settled(AllRejected(left, NothingCounted), w) == Waiting(left, w)
    {
      HandedOutSettles(s.inFlight.value, statuses, w);
      AllRejectedSettles(left, NothingCounted, w);
    }
    if statuses == [] {
      EndedKeeps(s, [], AllRejected(left, NothingCounted));
    } else {
      EndedKeeps(s, left, log);
    }
  }

  lemma InvShape(s: State)
    requires Inv(s)
    ensures Proper(s.queued) && Proper(Flying(s))
  {
  }

  lemma EmptyProper()
    ensures Proper([])
  {
  }

  lemma FailKeeps(s: State)
    requires Inv(s) && s.inFlight.Some?
    ensures Inv(Fail(s))
  {
    var log := AllRejected(s.inFlight.value, RequestFailed);
    forall w
      ensures Waiting(Flying(s), w) == Waiting([], w) + Settled(log, w)
    {
      AllRejectedSettles(s.inFlight.value, RequestFailed, w);
    }
    EmptyProper();
    EndedKeeps(s, [], log);
    InvShape(s);
    AppendedToNothing(s.queued);
  }

  lemma {:induction false} AppendedToNothing(rows: Rows)
    requires Proper(rows)
    ensures Appended([], rows) == rows
  {
    if rows != [] {
      var front, last := rows[..|rows| - 1], rows[|rows| - 1];
      ProperFront(rows);
      AppendedToNothing(front);
      assert rows == front + [last];
      assert last.path !in Paths(front);
      AddedBehind(front, last.path, last.waiters);
    }
  }

  lemma {:induction false} AddedBehind(rows: Rows, path: string, waiters: seq<Waiter>)
    requires path !in Paths(rows) && waiters != []
    ensures AddedAll(rows, path, waiters) == rows + [Row(path, waiters)]
  {
    var front, last := waiters[..|waiters| - 1], waiters[|waiters| - 1];
    assert waiters == front + [last];
    if front == [] {
      AddedToEnd(rows, path, [], last);
    } else {
      AddedBehind(rows, path, front);
      AddedToEnd(rows, path, front, last);
    }
  }

  lemma {:induction false} AddedToEnd(rows: Rows, path: string, front: seq<Waiter>, last: Waiter)
    requires path !in Paths(rows)
    ensures Added(if front == [] then rows else rows + [Row(path, front)], path, last) == rows + [Row(path, front + [last])]
  {
    if rows != [] {
      assert Paths(rows)[0] == rows[0].path;
      assert rows == [rows[0]] + rows[1..];
      PathsCons(rows[0], rows[1..]);
      AddedToEnd(rows[1..], path, front, last);
      assert (rows + [Row(path, front)])[1..] == rows[1..] + [Row(path, front)];
      assert rows + [Row(path, front + [last])] == [rows[0]] + (rows[1..] + [Row(path, front + [last])]);
    } else {
      assert [] + [Row(path, front)] == [Row(path, front)];
      assert front == [] ==> front + [last] == [last];
    }
  }

  lemma AbandonKeeps(s: State, waiter: Waiter)
    requires Inv(s) && waiter in s.listening
    ensures Inv(Abandon(s, waiter))
  {
    var after := Abandon(s, waiter);
    RemovedProper(s.queued, waiter);
    RemovedProper(Flying(s), waiter);
    assert Flying(after) == Removed(Flying(s), waiter.path, waiter);
    forall w
      ensures Places(after, w) == TimesLoaded(after.loaded, w)
      ensures w in after.listening <==> Waiting(after.queued, w) + Waiting(Flying(after), w) > 0
    {
      assert Places(s, w) == TimesLoaded(s.loaded, w);
      RemovedWaiting(s.queued, waiter, w);
      RemovedWaiting(Flying(s), waiter, w);
      SettledOne(s.settled, Settlement(waiter, Aborted), w);
    }
  }

  lemma StepKeeps(s: State, event: Event)
    requires Inv(s)
    ensures Inv(Step(s, event))
  {
    match event
    case Loads(path, aborted) => LoadKeeps(s, path, aborted);
    case TimerFires => if s.scheduled { FireKeeps(s); }
    case Responds(statuses) => if s.inFlight.Some? { RespondKeeps(s, statuses); }
    case RequestFails => if s.inFlight.Some? { FailKeeps(s); }
    case Aborts(waiter) => if waiter in s.listening { AbandonKeeps(s, waiter); }
  }

  /** Every run of loads, timer firings, responses, failures and aborts keeps the invariant. */
  lemma {:induction false} RunKeeps(events: seq<Event>)
    ensures Inv(Run(Idle, events))
  {
    if events != [] {
      RunKeeps(events[..|events| - 1]);
      StepKeeps(Run(Idle, events[..|events| - 1]), events[|events| - 1]);
    }
  }

  /** In every run a row's promise is settled at most once, and it is unsettled exactly while it waits in one place. */
  lemma SettledExactlyOnce(events: seq<Event>, i: nat)
    requires i < |Run(Idle, events).loaded|
    ensures var s := Run(Idle, events);
      var w := s.loaded[i];
      && Settled(s.settled, w) <= 1
      && (Settled(s.settled, w) == 0 <==> Waiting(s.queued, w) + Waiting(Flying(s), w) == 1)
      && (Settled(s.settled, w) == 1 <==> w !in s.listening)
  {
    RunKeeps(events);
    var s := Run(Idle, events);
    assert Places(s, s.loaded[i]) == TimesLoaded(s.loaded, s.loaded[i]);
  }

  // ---------------------------------------------------------------- what a response does

  /** The verdict a row gets: that of the first status for its path. */
  function FirstFor(statuses: seq<Status>, path: string): Option<Verdict> {
    if statuses == [] then None
    else
      var earlier := FirstFor(statuses[..|statuses| - 1], path);
      var last := statuses[|statuses| - 1];
      if earlier.Some? then earlier else if last.path == path then Some(last.verdict) else None
  }

  function Unanswered(paths: seq<string>, statuses: seq<Status>): seq<string> {
    if paths == [] then []
    else
      var front := Unanswered(paths[..|paths| - 1], statuses);
      var last := paths[|paths| - 1];
      if FirstFor(statuses, last) == None then front + [last] else front
  }

  /** A row gets the verdict on its own path, or stays. */
  lemma {:induction false} RowGetsItsVerdict(rows: Rows, statuses: seq<Status>, w: Waiter)
    requires Proper(rows) && Waiting(rows, w) > 0
    ensures var (left, log) := HandedOut(rows, statuses);
      match FirstFor(statuses, w.path)
      case Some(verdict) => Waiting(left, w) == 0 && Settlement(w, Answered(verdict)) in log
      case None => Waiting(left, w) == Waiting(rows, w) && Settled(log, w) == 0
  {
    HandedOutSettles(rows, statuses, w);
    if statuses != [] {
      var front, last := statuses[..|statuses| - 1], statuses[|statuses| - 1];
      RowGetsItsVerdict(rows, front, w);
      var (left, log) := HandedOut(rows, front);
      HandedOutProper(rows, front);
      TakenProper(left, last.path);
      TakenWaiting(left, last.path, w);
      var taken := TakenWaiters(left, last.path);
      CountMember(taken, w);
      if FirstFor(front, w.path) == None && last.path == w.path {
        NotUnderOtherPaths(Taken(left, last.path), w);
        var j :| 0 <= j < |taken| && taken[j] == w;
        assert SettledAs(taken, Answered(last.verdict))[j] == Settlement(w, Answered(last.verdict));
      }
    }
  }

  lemma {:induction false} UnansweredStep(paths: seq<string>, statuses: seq<Status>)
    requires statuses != []
    ensures Unanswered(paths, statuses)
         == ExceptPath(Unanswered(paths, statuses[..|statuses| - 1]), statuses[|statuses| - 1].path)
  {
    if paths != [] {
      UnansweredStep(paths[..|paths| - 1], statuses);
    }
  }

  function ExceptPath(paths: seq<string>, path: string): seq<string> {
    if paths == [] then []
    else
      var front := ExceptPath(paths[..|paths| - 1], path);
      if paths[|paths| - 1] == path then front else front + [paths[|paths| - 1]]
  }

  lemma {:induction false} ExceptPathConcat(a: seq<string>, b: seq<string>, path: string)
    ensures ExceptPath(a + b, path) == ExceptPath(a, path) + ExceptPath(b, path)
  {
    if b == [] {
      assert a + b == a;
    } else {
      var front := b[..|b| - 1];
      ExceptPathConcat(a, front, path);
      assert (a + b)[..|a + b| - 1] == a + front;
    }
  }

  lemma {:induction false} ExceptPathAbsent(paths: seq<string>, path: string)
    requires path !in paths
    ensures ExceptPath(paths, path) == paths
  {
    if paths != [] {
      ExceptPathAbsent(paths[..|paths| - 1], path);
    }
  }

  lemma ExceptSingle(only: string, path: string)
    ensures ExceptPath([only], path) == if only == path then [] else [only]
  {
    assert ExceptPath([], path) == [];
  }

  lemma {:induction false} TakenPaths(rows: Rows, path: string)
    requires Proper(rows)
    ensures Paths(Taken(rows, path)) == ExceptPath(Paths(rows), path)
  {
    if rows == [] {
      assert Paths([]) == [];
    } else {
      var first, rest := rows[0], rows[1..];
      ProperTail(rows);
      assert rows == [first] + rest;
      assert Taken(rows, path) == if first.path == path then rest else [first] + Taken(rest, path);
      hide Paths, Proper, Taken;
      PathsCons(first, rest);
      ExceptPathConcat([first.path], Paths(rest), path);
      ExceptSingle(first.path, path);
      hide ExceptPath;
      if first.path == path {
        ExceptPathAbsent(Paths(rest), path);
        assert [] + Paths(rest) == Paths(rest);
      } else {
        TakenPaths(rest, path);
        PathsCons(first, Taken(rest, path));
      }
    }
  }

  lemma {:induction false} NothingAnswered(paths: seq<string>)
    ensures Unanswered(paths, []) == paths
  {
    if paths != [] {
      NothingAnswered(paths[..|paths| - 1]);
    }
  }

  /** What a response leaves is exactly what it did not answer, in the order asked. */
  lemma {:induction false} LeftPaths(rows: Rows, statuses: seq<Status>)
    requires Proper(rows)
    ensures Paths(HandedOut(rows, statuses).0) == Unanswered(Paths(rows), statuses)
  {
    if statuses == [] {
      NothingAnswered(Paths(rows));
    } else {
      var front := statuses[..|statuses| - 1];
      LeftPaths(rows, front);
      HandedOutProper(rows, front);
      TakenPaths(HandedOut(rows, front).0, statuses[|statuses| - 1].path);
      UnansweredStep(Paths(rows), statuses);
    }
  }

  /** The next request asks for the unanswered paths first, in their order, then for the newer ones. */
  lemma UnansweredGoFirst(s: State, statuses: seq<Status>)
    requires Inv(s) && s.inFlight.Some? && statuses != []
    ensures var after := Respond(s, statuses);
      && after.scheduled
      && Unanswered(Paths(Flying(s)), statuses) <= Paths(after.queued)
      && (after.queued != [] ==> Fire(after).requests == s.requests + [Paths(after.queued)])
  {
    InvShape(s);
    var left := HandedOut(s.inFlight.value, statuses).0;
    LeftPaths(s.inFlight.value, statuses);
    HandedOutProper(s.inFlight.value, statuses);
    AppendedProper(left, s.queued);
  }

  // ---------------------------------------------------------------- bounded progress

  /** The paths still to be answered, asked for or not. */
  function Pending(s: State): nat {
    |Flying(s)| + |s.queued|
  }

  /** Lets the batch timer fire, then answers the request it sent. */
  function Round(s: State, statuses: seq<Status>): State {
    var sent := Sent(s);
    if sent.inFlight.Some? then Respond(sent, statuses) else sent
  }

  function Rounds(s: State, responses: seq<seq<Status>>): State {
    if responses == [] then s else Round(Rounds(s, responses[..|responses| - 1]), responses[|responses| - 1])
  }

  /** The responses still needed: one for each pending path, and one for a request nobody waits for any more. */
  function Effort(s: State): nat {
    Pending(s) + (if s.inFlight == Some([]) then 1 else 0)
  }

  ghost predicate AnswersOne(rows: Rows, statuses: seq<Status>) {
    rows != [] ==> exists status <- statuses :: status.path in Paths(rows)
  }

  function Sent(s: State): State {
    if s.scheduled then Fire(s) else s
  }

  /** Every response answers at least one path of the request it belongs to, as the agent promises. */
  ghost predicate AllAnswer(s: State, responses: seq<seq<Status>>) {
    responses == [] ||
    var front := responses[..|responses| - 1];
    AllAnswer(s, front) && AnswersOne(Flying(Sent(Rounds(s, front))), responses[|responses| - 1])
  }

  lemma {:induction false} AnsweredShrinks(rows: Rows, statuses: seq<Status>, i: nat)
    requires Proper(rows) && i < |statuses| && statuses[i].path in Paths(rows)
    ensures |HandedOut(rows, statuses).0| < |rows|
  {
    var front, last := statuses[..|statuses| - 1], statuses[|statuses| - 1];
    HandedOutProper(rows, front);
    var left := HandedOut(rows, front).0;
    TakenProper(left, last.path);
    if i < |front| {
      AnsweredShrinks(rows, front, i);
    } else if last.path !in Paths(left) {
      LeftPaths(rows, front);
      hide Proper, HandedOut, Taken, FirstFor;
      if |left| == |rows| {
        AllLeft(Paths(rows), front);
      }
    }
  }

  lemma {:induction false} AllLeft(paths: seq<string>, statuses: seq<Status>)
    ensures |Unanswered(paths, statuses)| <= |paths|
    ensures |Unanswered(paths, statuses)| == |paths| ==> Unanswered(paths, statuses) == paths
  {
    if paths != [] {
      AllLeft(paths[..|paths| - 1], statuses);
    }
  }

  lemma RoundProgress(s: State, statuses: seq<Status>)
    requires Inv(s) && AnswersOne(Flying(Sent(s)), statuses)
    ensures Inv(Round(s, statuses))
    ensures Effort(Round(s, statuses)) <= if Effort(s) == 0 then 0 else Effort(s) - 1
    ensures Round(s, statuses).loaded == s.loaded
  {
    var sent := Sent(s);
    if s.scheduled {
      FireKeeps(s);
    }
    assert Effort(sent) == Effort(s) && sent.loaded == s.loaded;
    if sent.inFlight.Some? {
      RespondKeeps(sent, statuses);
      ResponseProgress(sent, statuses);
    }
  }

  lemma ResponseProgress(s: State, statuses: seq<Status>)
    requires Inv(s) && s.inFlight.Some? && AnswersOne(s.inFlight.value, statuses)
    ensures Effort(Respond(s, statuses)) < Effort(s)
  {
    InvShape(s);
    hide Inv;
    var rows := s.inFlight.value;
    HandedOutProper(rows, statuses);
    EmptyProper();
    AppendedProper(HandedOut(rows, statuses).0, s.queued);
    AppendedProper([], s.queued);
    if rows != [] {
      var status :| status in statuses && status.path in Paths(rows);
      var i :| 0 <= i < |statuses| && statuses[i] == status;
      AnsweredShrinks(rows, statuses, i);
    }
  }

  lemma {:induction false} RoundsProgress(s: State, responses: seq<seq<Status>>)
    requires Inv(s) && AllAnswer(s, responses)
    ensures Inv(Rounds(s, responses)) && Rounds(s, responses).loaded == s.loaded
    ensures Effort(Rounds(s, responses)) <= if Effort(s) <= |responses| then 0 else Effort(s) - |responses|
  {
    if responses != [] {
      var front := responses[..|responses| - 1];
      RoundsProgress(s, front);
      RoundProgress(Rounds(s, front), responses[|responses| - 1]);
    }
  }

  /** With no new rows, n pending paths are all settled once n requests were answered. */
  lemma AllSettledWithin(s: State, responses: seq<seq<Status>>, i: nat)
    requires Inv(s) && AllAnswer(s, responses) && Effort(s) <= |responses|
    requires i < |s.loaded|
    ensures Pending(Rounds(s, responses)) == 0
    ensures Settled(Rounds(s, responses).settled, s.loaded[i]) == 1
  {
    RoundsProgress(s, responses);
    var end := Rounds(s, responses);
    assert Places(end, end.loaded[i]) == TimesLoaded(end.loaded, end.loaded[i]);
    assert Flying(end) == [] && end.queued == [];
  }
}

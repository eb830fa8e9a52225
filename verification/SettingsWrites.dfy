/** Settings changes are shown before they are written; writes wait for each other. */
module SettingsWrites {
  import opened Common

  /** One scheduled write. `version` tells which of the states so far it sent. */
  datatype Write = Waiting | Running(version: nat) | Settled(version: nat, ok: bool) | Released(version: nat, ok: bool)

  /** `history` holds every state the cache had; the last one is what is shown. */
  datatype Settings<S> = Settings(history: seq<S>, writes: seq<Write>, pending: nat)

  /** `same` tells whether an update gave back the very object that is shown. */
  datatype Event<S> = Updates(next: S, same: bool) | Starts(k: nat) | Ends(k: nat, ok: bool) | Releases(k: nat)

  function Start<S>(shown: S): Settings<S> {
    Settings([shown], [], 0)
  }

  function Shown<S>(s: Settings<S>): S
    requires s.history != []
  {
    s.history[|s.history| - 1]
  }

  predicate Ended(write: Write) {
    write.Settled? || write.Released?
  }

  /** A write starts once the one before it has ended: that is what chaining the promises means. */
  predicate Enabled<S(==)>(s: Settings<S>, event: Event<S>) {
    match event
    case Updates(next, same) => s.history != [] && (same ==> next == Shown(s))
    case Starts(k) => k < |s.writes| && s.writes[k].Waiting? && s.history != [] && (k > 0 ==> Ended(s.writes[k - 1]))
    case Ends(k, _) => k < |s.writes| && s.writes[k].Running?
    case Releases(k) => k < |s.writes| && s.writes[k].Settled? && s.pending > 0
  }

  function Step<S(==)>(s: Settings<S>, event: Event<S>): Settings<S>
    requires Enabled(s, event)
  {
    match event
    case Updates(next, same) =>
      if same then s else Settings(s.history + [next], s.writes + [Waiting], s.pending + 1)
    case Starts(k) => s.(writes := s.writes[k := Running(|s.history| - 1)])
    case Ends(k, ok) => s.(writes := s.writes[k := Settled(s.writes[k].version, ok)])
    case Releases(k) =>
      s.(writes := s.writes[k := Released(s.writes[k].version, s.writes[k].ok)], pending := s.pending - 1)
  }

  function Unreleased(writes: seq<Write>): nat {
    if writes == [] then 0
    else Unreleased(writes[..|writes| - 1]) + if writes[|writes| - 1].Released? then 0 else 1
  }

  /** Writes run in order, one at a time, and each sends at least the state it was scheduled for. */
  ghost predicate InOrder(writes: seq<Write>, versions: nat) {
    && (forall i, j :: 0 <= i < j < |writes| && !writes[j].Waiting? ==> Ended(writes[i]))
    && (forall k :: 0 <= k < |writes| && !writes[k].Waiting? ==> k < writes[k].version < versions)
    && (forall i, j :: 0 <= i < j < |writes| && !writes[i].Waiting? && !writes[j].Waiting? ==>
          writes[i].version <= writes[j].version)
  }

  ghost predicate Inv<S(!new)>(s: Settings<S>) {
    && |s.history| == |s.writes| + 1 && InOrder(s.writes, |s.history|)
    && s.pending == Unreleased(s.writes)
  }

  lemma {:induction false} UnreleasedUpdate(writes: seq<Write>, k: nat, write: Write)
    requires k < |writes|
    ensures Unreleased(writes[k := write])
      == Unreleased(writes) + (if writes[k].Released? then 1 else 0) - (if write.Released? then 1 else 0)
  {
    var n := |writes| - 1;
    if k < n {
      UnreleasedUpdate(writes[..n], k, write);
      assert writes[k := write][..n] == writes[..n][k := write];
    } else {
      assert writes[k := write][..n] == writes[..n];
    }
  }

  lemma StartsInOrder(writes: seq<Write>, versions: nat, k: nat)
    requires InOrder(writes, versions) && k < |writes| < versions && writes[k].Waiting? && (k > 0 ==> Ended(writes[k - 1]))
    ensures InOrder(writes[k := Running(versions - 1)], versions)
  {
    assert forall i :: 0 <= i < k - 1 ==> Ended(writes[i]);
    assert forall j :: k < j < |writes| ==> writes[j].Waiting?;
  }

  lemma EndsInOrder(writes: seq<Write>, versions: nat, k: nat, write: Write)
    requires InOrder(writes, versions) && k < |writes| && !writes[k].Waiting?
    requires Ended(write) && write.version == writes[k].version
    ensures InOrder(writes[k := write], versions)
  {
  }

  lemma AppendsInOrder(writes: seq<Write>, versions: nat)
    requires InOrder(writes, versions)
    ensures InOrder(writes + [Waiting], versions + 1) && Unreleased(writes + [Waiting]) == Unreleased(writes) + 1
  {
    assert (writes + [Waiting])[..|writes|] == writes;
  }

  lemma StepKeeps<S(!new)>(s: Settings<S>, event: Event<S>)
    requires Inv(s) && Enabled(s, event)
    ensures Inv(Step(s, event))
  {
    hide InOrder, Unreleased;
    match event
    case Updates(next, _) =>
      AppendsInOrder(s.writes, |s.history|);
    case Starts(k) =>
      UnreleasedUpdate(s.writes, k, Running(|s.history| - 1));
      StartsInOrder(s.writes, |s.history|, k);
    case Ends(k, ok) =>
      UnreleasedUpdate(s.writes, k, Settled(s.writes[k].version, ok));
      EndsInOrder(s.writes, |s.history|, k, Settled(s.writes[k].version, ok));
    case Releases(k) =>
      UnreleasedUpdate(s.writes, k, Released(s.writes[k].version, s.writes[k].ok));
      EndsInOrder(s.writes, |s.history|, k, Released(s.writes[k].version, s.writes[k].ok));
  }

  ghost predicate Possible<S(!new)>(s: Settings<S>, run: seq<Event<S>>)
    decreases |run|
  {
    run == [] || (Enabled(s, run[0]) && Possible(Step(s, run[0]), run[1..]))
  }

  ghost function After<S(!new)>(s: Settings<S>, run: seq<Event<S>>): Settings<S>
    requires Possible(s, run)
    decreases |run|
  {
    if run == [] then s else After(Step(s, run[0]), run[1..])
  }

  lemma {:induction false} RunKeeps<S(!new)>(s: Settings<S>, run: seq<Event<S>>)
    requires Inv(s) && Possible(s, run)
    ensures Inv(After(s, run))
    decreases |run|
  {
    if run != [] {
      StepKeeps(s, run[0]);
      RunKeeps(Step(s, run[0]), run[1..]);
    }
  }

  lemma {:induction false} AllReleased(writes: seq<Write>, k: nat)
    requires Unreleased(writes) == 0 && k < |writes|
    ensures writes[k].Released?
  {
    if k < |writes| - 1 {
      AllReleased(writes[..|writes| - 1], k);
    }
  }

  /**
   * In every run at most one write is in flight, no write sends an older state than one before it,
   * and when none is pending the last write sent what is shown.
   */
  lemma WritesConverge<S(!new)>(shown: S, run: seq<Event<S>>, i: nat, j: nat)
    requires Possible(Start(shown), run)
    ensures var s := After(Start(shown), run);
      && s.history != []
      && (i < j < |s.writes| ==> !(s.writes[i].Running? && s.writes[j].Running?))
      && (i < j < |s.writes| && !s.writes[j].Waiting? ==>
            !s.writes[i].Waiting? && s.writes[i].version <= s.writes[j].version < |s.history|)
      && (s.pending == 0 && s.writes != [] ==>
            var last := s.writes[|s.writes| - 1];
            last.Released? && last.version < |s.history| && s.history[last.version] == Shown(s))
  {
    RunKeeps(Start(shown), run);
    var s := After(Start(shown), run);
    hide After, Possible;
    if s.pending == 0 && s.writes != [] {
      AllReleased(s.writes, |s.writes| - 1);
    }
  }

  /** The module's counter and promise chain, with the query cache they read. */
  class SettingsWriter<S(==, !new)> {
    var cache: S
    var persistPending: nat
    var persistChain: seq<Write>
    var versions: nat
    ghost var history: seq<S>

    ghost function State(): Settings<S>
      reads this
    {
      Settings(history, persistChain, persistPending)
    }

    ghost predicate Valid()
      reads this
    {
      Inv(State()) && versions == |history| && cache == Shown(State())
    }

    constructor (shown: S)
      ensures Valid() && State() == Start(shown)
    {
      cache, persistPending, persistChain, versions, history := shown, 0, [], 1, [shown];
    }

    predicate IsPersistPending()
      reads this
    {
      persistPending > 0
    }

    /** `updateUserState`: only the shown object itself is not written again. */
    method Update(next: S, same: bool)
      requires Valid() && (same ==> next == cache)
      modifies this
      ensures Valid() && State() == Step(old(State()), Updates(next, same)) && cache == next
    {
      StepKeeps(State(), Updates(next, same));
      hide Inv;
      if same {
        return;
      }
      cache, history, versions := next, history + [next], versions + 1;
      persistPending := persistPending + 1;
      persistChain := persistChain + [Waiting];
    }

    /** A write reaches its turn and reads the latest state. */
    method WriteStarts(k: nat) returns (payload: S)
      requires Valid() && Enabled(State(), Starts(k))
      modifies this
      ensures Valid() && State() == Step(old(State()), Starts(k)) && payload == old(cache) == cache
    {
      StepKeeps(State(), Starts(k));
      payload := cache;
      persistChain := persistChain[k := Running(versions - 1)];
    }

    method WriteEnds(k: nat, ok: bool)
      requires Valid() && Enabled(State(), Ends(k, ok))
      modifies this
      ensures Valid() && State() == Step(old(State()), Ends(k, ok)) && cache == old(cache)
    {
      StepKeeps(State(), Ends(k, ok));
      persistChain := persistChain[k := Settled(persistChain[k].version, ok)];
    }

    /** The counter is lowered after the write has ended. */
    method Release(k: nat)
      requires Valid() && Enabled(State(), Releases(k))
      modifies this
      ensures Valid() && State() == Step(old(State()), Releases(k)) && cache == old(cache)
    {
      StepKeeps(State(), Releases(k));
      persistChain := persistChain[k := Released(persistChain[k].version, persistChain[k].ok)];
      persistPending := persistPending - 1;
    }
  }
}

/** Which of the registered keyboard shortcuts gets a key press, and what it does to the press. */
module Shortcuts {
  import opened Common

  datatype Phase = Capture | Bubble

  datatype Effect = Prevent | Swallow | Shield

  /** A key press; `typing` tells whether its target is a text control, the terminal or the editor. */
  datatype KeyPress = KeyPress(id: nat, key: nat, typing: bool)

  /** `handles` tells whether the command took the key once it was offered. */
  datatype Binding = Binding(
    phase: Phase, priority: int, skipTypingTargets: bool, effect: Effect, matches: KeyPress -> bool, handles: KeyPress -> bool)

  datatype Entry = Entry(binding: Binding, order: nat)

  predicate Offered(entry: Entry, press: KeyPress) {
    !(entry.binding.skipTypingTargets && press.typing) && entry.binding.matches(press)
  }

  predicate Applies(entry: Entry, press: KeyPress) {
    Offered(entry, press) && entry.binding.handles(press)
  }

  /** The higher priority first, then the earlier registration. */
  predicate Precedes(a: Entry, b: Entry) {
    a.binding.priority > b.binding.priority || (a.binding.priority == b.binding.priority && a.order < b.order)
  }

  function InPhase(entries: seq<Entry>, phase: Phase): seq<Entry> {
    if entries == [] then []
    else (if entries[0].binding.phase == phase then [entries[0]] else []) + InPhase(entries[1..], phase)
  }

  function Insert(sorted: seq<Entry>, entry: Entry): seq<Entry> {
    if sorted == [] || Precedes(entry, sorted[0]) then [entry] + sorted else [sorted[0]] + Insert(sorted[1..], entry)
  }

  function Sort(entries: seq<Entry>): seq<Entry> {
    if entries == [] then [] else Insert(Sort(entries[1..]), entries[0])
  }

  /** The entries a phase is offered to, best first. */
  function Candidates(entries: seq<Entry>, phase: Phase): seq<Entry> {
    Sort(InPhase(entries, phase))
  }

  ghost predicate DistinctOrders(entries: seq<Entry>) {
    forall i, j :: 0 <= i < j < |entries| ==> entries[i].order != entries[j].order
  }

  ghost predicate Sorted(entries: seq<Entry>) {
    forall i, j :: 0 <= i < j < |entries| ==> Precedes(entries[i], entries[j])
  }

  lemma {:induction false} InPhaseIs(entries: seq<Entry>, phase: Phase)
    ensures forall e :: e in InPhase(entries, phase) <==> e in entries && e.binding.phase == phase
    ensures DistinctOrders(entries) ==> DistinctOrders(InPhase(entries, phase))
  {
    if entries != [] {
      InPhaseIs(entries[1..], phase);
      assert entries == [entries[0]] + entries[1..];
      if DistinctOrders(entries) {
        assert forall e <- entries[1..] :: e.order != entries[0].order;
        var rest := InPhase(entries[1..], phase);
        assert forall i :: 0 <= i < |rest| ==> rest[i] in rest;
      }
    }
  }

  lemma {:induction false} InsertIs(sorted: seq<Entry>, entry: Entry)
    requires Sorted(sorted) && forall e <- sorted :: e.order != entry.order
    ensures Sorted(Insert(sorted, entry))
    ensures forall e :: e in Insert(sorted, entry) <==> e in sorted || e == entry
  {
    if sorted == [] {
    } else if Precedes(entry, sorted[0]) {
      assert forall j :: 0 < j < |sorted| ==> Precedes(entry, sorted[j]);
    } else {
      InsertIs(sorted[1..], entry);
      assert sorted == [sorted[0]] + sorted[1..];
      var rest := Insert(sorted[1..], entry);
      assert Precedes(sorted[0], entry);
      assert forall j :: 0 <= j < |sorted| - 1 ==> sorted[1..][j] == sorted[j + 1];
      assert forall e <- sorted[1..] :: Precedes(sorted[0], e);
      assert forall j :: 0 <= j < |rest| ==> rest[j] in rest;
    }
  }

  lemma {:induction false} SortIs(entries: seq<Entry>)
    requires DistinctOrders(entries)
    ensures Sorted(Sort(entries)) && forall e :: e in Sort(entries) <==> e in entries
  {
    if entries != [] {
      SortIs(entries[1..]);
      assert forall i :: 1 <= i < |entries| ==> entries[1..][i - 1] == entries[i];
      assert forall e <- entries[1..] :: e.order != entries[0].order;
      InsertIs(Sort(entries[1..]), entries[0]);
      assert entries == [entries[0]] + entries[1..];
    }
  }

  /** `winner` applies in the phase, and everything else that applies there comes after it. */
  ghost predicate Wins(entries: seq<Entry>, phase: Phase, press: KeyPress, winner: Entry) {
    && winner in entries && winner.binding.phase == phase && Applies(winner, press)
    && forall e <- entries :: e.binding.phase == phase && Applies(e, press) ==> e == winner || Precedes(winner, e)
  }

  ghost predicate NobodyApplies(entries: seq<Entry>, phase: Phase, press: KeyPress) {
    forall e <- entries :: e.binding.phase == phase ==> !Applies(e, press)
  }

  /** There is one winner at most. */
  lemma WinnerIsUnique(entries: seq<Entry>, phase: Phase, press: KeyPress, a: Entry, b: Entry)
    requires Wins(entries, phase, press, a) && Wins(entries, phase, press, b)
    ensures a == b
  {
  }

  /** The first candidate that applies is the winner. */
  lemma FirstApplyingWins(entries: seq<Entry>, phase: Phase, press: KeyPress, i: nat)
    requires DistinctOrders(entries) && i < |Candidates(entries, phase)|
    requires Applies(Candidates(entries, phase)[i], press)
    requires forall k :: 0 <= k < i ==> !Applies(Candidates(entries, phase)[k], press)
    ensures Wins(entries, phase, press, Candidates(entries, phase)[i])
  {
    InPhaseIs(entries, phase);
    SortIs(InPhase(entries, phase));
    hide InPhase, Sort, Applies;
    var candidates := Candidates(entries, phase);
    assert candidates[i] in candidates;
    forall e <- entries | e.binding.phase == phase && Applies(e, press)
      ensures e == candidates[i] || Precedes(candidates[i], e)
    {
      assert e in candidates;
      var k :| 0 <= k < |candidates| && candidates[k] == e;
    }
  }

  lemma NoneApplies(entries: seq<Entry>, phase: Phase, press: KeyPress)
    requires DistinctOrders(entries)
    requires forall k :: 0 <= k < |Candidates(entries, phase)| ==> !Applies(Candidates(entries, phase)[k], press)
    ensures NobodyApplies(entries, phase, press)
  {
    InPhaseIs(entries, phase);
    SortIs(InPhase(entries, phase));
    hide InPhase, Sort, Applies;
    forall e <- entries | e.binding.phase == phase
      ensures !Applies(e, press)
    {
      assert e in Candidates(entries, phase);
    }
  }

  class ShortcutRegistry {
    var registered: seq<Entry>
    var claimed: set<nat>
    var nextOrder: nat
    var isAttached: bool
    var prevented: set<nat>
    var stopped: set<nat>
    /** Who claimed which key press. */
    ghost var claims: map<nat, Entry>

    ghost predicate Valid()
      reads this
    {
      && DistinctOrders(registered) && (forall i :: 0 <= i < |registered| ==> registered[i].order < nextOrder)
      && isAttached == (|registered| > 0) && claimed == claims.Keys
      && prevented <= claimed && stopped <= claimed
    }

    constructor ()
      ensures Valid() && registered == [] && claimed == {}
    {
      registered, claimed, nextOrder, isAttached := [], {}, 0, false;
      prevented, stopped, claims := {}, {}, map[];
    }

    method Register(binding: Binding) returns (entry: Entry)
      requires Valid()
      modifies this`registered, this`nextOrder, this`isAttached
      ensures Valid() && entry == Entry(binding, old(nextOrder)) && registered == old(registered) + [entry] && isAttached
    {
      entry := Entry(binding, nextOrder);
      nextOrder := nextOrder + 1;
      registered := registered + [entry];
      isAttached := true;
    }

    /** The function `register` returned for the entry of this order; calling it again changes nothing. */
    method Unregister(order: nat)
      requires Valid()
      modifies this`registered, this`isAttached
      ensures Valid()
      ensures forall e :: e in registered <==> e in old(registered) && e.order != order
    {
      var kept: seq<Entry> := [];
      for i := 0 to |registered|
        invariant registered == old(registered) && |kept| <= i
        invariant forall e :: e in kept <==> e in registered[..i] && e.order != order
        invariant DistinctOrders(kept) && forall k :: 0 <= k < |kept| ==> kept[k] in registered[..i]
      {
        assert registered[..i + 1] == registered[..i] + [registered[i]];
        if registered[i].order != order {
          assert forall k :: 0 <= k < i ==> registered[k].order != registered[i].order;
          kept := kept + [registered[i]];
        }
      }
      assert registered[..|registered|] == registered;
      registered := kept;
      if |registered| == 0 {
        isAttached := false;
      }
    }

    /** Offers the press to one entry; if that applies, the press is claimed with its effect. */
    method TryBinding(entry: Entry, press: KeyPress) returns (claims': bool)
      modifies this`claimed, this`claims, this`prevented, this`stopped
      ensures claims' == Applies(entry, press)
      ensures claims' ==>
        && claimed == old(claimed) + {press.id} && claims == old(claims)[press.id := entry]
        && prevented == old(prevented) + (if entry.binding.effect == Shield then {} else {press.id})
        && stopped == old(stopped) + (if entry.binding.effect == Prevent then {} else {press.id})
      ensures !claims' ==>
        claimed == old(claimed) && claims == old(claims) && prevented == old(prevented) && stopped == old(stopped)
    {
      if entry.binding.skipTypingTargets && press.typing {
        return false;
      }
      if !entry.binding.matches(press) || !entry.binding.handles(press) {
        return false;
      }
      claimed, claims := claimed + {press.id}, claims[press.id := entry];
      if entry.binding.effect != Shield {
        prevented := prevented + {press.id};
      }
      if entry.binding.effect != Prevent {
        stopped := stopped + {press.id};
      }
      return true;
    }

    /** A press that nobody claimed yet is claimed by the phase's winner, if there is one. */
    method Dispatch(press: KeyPress, phase: Phase)
      requires Valid()
      modifies this`claimed, this`claims, this`prevented, this`stopped
      ensures Valid()
      ensures press.id in old(claimed) ==> claims == old(claims) && prevented == old(prevented) && stopped == old(stopped)
      ensures press.id !in old(claimed) && press.id !in claimed ==>
        NobodyApplies(registered, phase, press) && claims == old(claims)
      ensures press.id !in old(claimed) && press.id in claimed ==>
        Wins(registered, phase, press, claims[press.id]) && claims == old(claims)[press.id := claims[press.id]]
      ensures forall winner :: press.id !in old(claimed) && Wins(registered, phase, press, winner) ==>
        press.id in claimed && claims[press.id] == winner
    {
      if press.id in claimed {
        return;
      }
      var candidates := Candidates(registered, phase);
      for i := 0 to |candidates|
        invariant Valid() && claims == old(claims) && claimed == old(claimed)
        invariant prevented == old(prevented) && stopped == old(stopped)
        invariant forall k :: 0 <= k < i ==> !Applies(candidates[k], press)
      {
        var claimedIt := TryBinding(candidates[i], press);
        if claimedIt {
          FirstApplyingWins(registered, phase, press, i);
          forall winner | Wins(registered, phase, press, winner)
            ensures winner == candidates[i]
          {
            WinnerIsUnique(registered, phase, press, winner, candidates[i]);
          }
          return;
        }
      }
      NoneApplies(registered, phase, press);
    }

    /**
     * Both phases of one new press: the capture winner claims it, otherwise the bubble winner.
     * `bubbles` tells whether nothing on the page keeps the press from bubbling up.
     */
    method Press(press: KeyPress, bubbles: bool)
      requires Valid() && press.id !in claimed
      modifies this`claimed, this`claims, this`prevented, this`stopped
      ensures Valid()
      ensures press.id in claimed ==>
        || Wins(registered, Capture, press, claims[press.id])
        || (bubbles && NobodyApplies(registered, Capture, press) && Wins(registered, Bubble, press, claims[press.id]))
      ensures press.id !in claimed ==>
        NobodyApplies(registered, Capture, press) && (bubbles ==> NobodyApplies(registered, Bubble, press))
      ensures forall winner :: Wins(registered, Capture, press, winner) ==> press.id in claimed && claims[press.id] == winner
      ensures forall winner :: bubbles && NobodyApplies(registered, Capture, press) && Wins(registered, Bubble, press, winner) ==>
        press.id in claimed && claims[press.id] == winner
    {
      if !isAttached {
        return;
      }
      Dispatch(press, Capture);
      if press.id in stopped || !bubbles {
        return;
      }
      Dispatch(press, Bubble);
    }
  }
}

/** The order devices are shown in, and what moving one of them saves. */
module DeviceOrder {
  import opened Common

  function Keep(ids: seq<string>, inventory: seq<string>): (kept: seq<string>)
    ensures forall id <- kept :: id in ids && id in inventory
  {
    if ids == [] then [] else (if ids[0] in inventory then [ids[0]] else []) + Keep(ids[1..], inventory)
  }

  function Without(ids: seq<string>, saved: seq<string>): (left: seq<string>)
    ensures forall id <- left :: id in ids && id !in saved
  {
    if ids == [] then [] else (if ids[0] in saved then [] else [ids[0]]) + Without(ids[1..], saved)
  }

  /** Saved devices first, then the rest of the inventory. */
  function Resolved(saved: seq<string>, inventory: seq<string>): seq<string> {
    Keep(Distinct(saved), inventory) + Without(Distinct(inventory), saved)
  }

  /** Every remembered device, and the inventory's new ones behind them. */
  function Complete(saved: seq<string>, inventory: seq<string>): seq<string> {
    Distinct(saved) + Without(Distinct(inventory), saved)
  }

  ghost predicate NoDuplicates(ids: seq<string>) {
    forall i, j :: 0 <= i < j < |ids| ==> ids[i] != ids[j]
  }

  // ---------------------------------------------------------------- the loops

  lemma {:induction false} KeepConcat(a: seq<string>, b: seq<string>, inventory: seq<string>)
    ensures Keep(a + b, inventory) == Keep(a, inventory) + Keep(b, inventory)
  {
    if a == [] {
      assert a + b == b;
    } else {
      KeepConcat(a[1..], b, inventory);
      assert (a + b)[1..] == a[1..] + b && (a + b)[0] == a[0];
      ConcatAssoc(if a[0] in inventory then [a[0]] else [], Keep(a[1..], inventory), Keep(b, inventory));
    }
  }

  lemma {:induction false} WithoutConcat(a: seq<string>, b: seq<string>, saved: seq<string>)
    ensures Without(a + b, saved) == Without(a, saved) + Without(b, saved)
  {
    if a == [] {
      assert a + b == b;
    } else {
      WithoutConcat(a[1..], b, saved);
      assert (a + b)[1..] == a[1..] + b && (a + b)[0] == a[0];
      ConcatAssoc(if a[0] in saved then [] else [a[0]], Without(a[1..], saved), Without(b, saved));
    }
  }

  method DedupeIds(ids: seq<string>) returns (ordered: seq<string>)
    ensures ordered == Distinct(ids)
  {
    var seen: set<string> := {};
    ordered := [];
    for i := 0 to |ids|
      invariant ordered == Distinct(ids[..i])
      invariant forall id :: id in seen <==> id in ordered
    {
      DistinctMore(ids[..i], ids[i]);
      assert ids[..i + 1] == ids[..i] + [ids[i]];
      if ids[i] !in seen {
        seen := seen + {ids[i]};
        ordered := ordered + [ids[i]];
      }
    }
    assert ids[..|ids|] == ids;
  }

  /** One more inventory id is appended unless it was saved or is already there. */
  lemma UnsavedMore(ids: seq<string>, id: string, saved: seq<string>)
    ensures Without(Distinct(ids + [id]), saved)
      == Without(Distinct(ids), saved) + if id in saved || id in ids then [] else [id]
  {
    DistinctMore(ids, id);
    assert id in Distinct(ids) <==> id in ids by { DistinctIs(ids); }
    WithoutConcat(Distinct(ids), [id], saved);
    assert Without([id], saved) == if id in saved then [] else [id];
  }

  /** The saved devices that are there. */
  method KeepPresent(ids: seq<string>, inventory: seq<string>) returns (ordered: seq<string>, seen: set<string>)
    ensures ordered == Keep(ids, inventory)
    ensures forall id :: id in seen <==> id in ids
  {
    seen := {};
    ordered := [];
    for i := 0 to |ids|
      invariant ordered == Keep(ids[..i], inventory)
      invariant forall id :: id in seen <==> id in ids[..i]
    {
      KeepConcat(ids[..i], [ids[i]], inventory);
      assert ids[..i + 1] == ids[..i] + [ids[i]];
      assert Keep([ids[i]], inventory) == if ids[i] in inventory then [ids[i]] else [];
      seen := seen + {ids[i]};
      if ids[i] in inventory {
        ordered := ordered + [ids[i]];
      }
    }
    assert ids[..|ids|] == ids;
  }

  /** The rest of the inventory behind the saved devices. */
  method AppendUnsaved(kept: seq<string>, savedIds: set<string>, inventory: seq<string>, ghost saved: seq<string>)
    returns (ordered: seq<string>)
    requires forall id :: id in savedIds <==> id in saved
    ensures ordered == kept + Without(Distinct(inventory), saved)
  {
    var seen := savedIds;
    ordered := kept;
    NoneLeft(saved);
    hide Distinct, Without;
    assert inventory[..0] == [] && kept + [] == kept;
    for i := 0 to |inventory|
      invariant ordered == kept + Without(Distinct(inventory[..i]), saved)
      invariant forall id :: id in seen <==> id in saved || id in inventory[..i]
    {
      UnsavedMore(inventory[..i], inventory[i], saved);
      assert inventory[..i + 1] == inventory[..i] + [inventory[i]];
      if inventory[i] !in seen {
        seen := seen + {inventory[i]};
        ordered := ordered + [inventory[i]];
      }
    }
    assert inventory[..|inventory|] == inventory;
  }

  method ResolveDeviceOrder(saved: seq<string>, inventory: seq<string>) returns (ordered: seq<string>)
    ensures ordered == Resolved(saved, inventory)
  {
    var deduped := DedupeIds(saved);
    var kept, seen := KeepPresent(deduped, inventory);
    assert forall id :: id in seen <==> id in saved by { DistinctIs(saved); }
    hide Distinct, Keep, Without;
    ordered := AppendUnsaved(kept, seen, inventory, saved);
  }

  lemma NoneLeft(saved: seq<string>)
    ensures Without(Distinct([]), saved) == []
  {
  }

  // ---------------------------------------------------------------- what the order is

  lemma {:induction false} KeepHolds(ids: seq<string>, inventory: seq<string>)
    ensures forall id :: id in Keep(ids, inventory) <==> id in ids && id in inventory
    ensures (forall id <- ids :: id in inventory) ==> Keep(ids, inventory) == ids
    ensures (forall id <- ids :: id !in inventory) ==> Keep(ids, inventory) == []
  {
    if ids != [] {
      KeepHolds(ids[1..], inventory);
      assert ids == [ids[0]] + ids[1..];
    }
  }

  lemma {:induction false} KeepDistinct(ids: seq<string>, inventory: seq<string>)
    requires NoDuplicates(ids)
    ensures NoDuplicates(Keep(ids, inventory))
  {
    if ids != [] {
      KeepDistinct(ids[1..], inventory);
      assert ids[0] !in ids[1..];
      JoinNoDuplicates(if ids[0] in inventory then [ids[0]] else [], Keep(ids[1..], inventory));
    }
  }

  lemma {:induction false} WithoutHolds(ids: seq<string>, saved: seq<string>)
    ensures forall id :: id in Without(ids, saved) <==> id in ids && id !in saved
    ensures NoDuplicates(ids) ==> NoDuplicates(Without(ids, saved))
    ensures (forall id <- ids :: id in saved) ==> Without(ids, saved) == []
  {
    if ids != [] {
      WithoutHolds(ids[1..], saved);
      assert forall i :: 1 <= i < |ids| ==> ids[i] == ids[1..][i - 1];
      assert forall id <- ids[1..] :: id in ids;
      assert NoDuplicates(ids) ==> ids[0] !in ids[1..];
    }
  }

  lemma DistinctHas(ids: seq<string>)
    ensures NoDuplicates(Distinct(ids)) && forall id :: id in Distinct(ids) <==> id in ids
  {
    DistinctIs(ids);
  }

  lemma {:induction false} DistinctStays(ids: seq<string>)
    requires NoDuplicates(ids)
    ensures Distinct(ids) == ids
  {
    if ids != [] {
      var front, last := ids[..|ids| - 1], ids[|ids| - 1];
      DistinctStays(front);
      assert last !in front;
      assert ids == front + [last];
    }
  }

  lemma JoinNoDuplicates(a: seq<string>, b: seq<string>)
    requires NoDuplicates(a) && NoDuplicates(b) && forall id <- b :: id !in a
    ensures NoDuplicates(a + b)
  {
    forall i, j | 0 <= i < j < |a + b|
      ensures (a + b)[i] != (a + b)[j]
    {
      if i < |a| <= j {
        assert b[j - |a|] in b && a[i] in a;
      }
    }
  }

  /** The order shows every device of the inventory once and no other. */
  lemma ResolvedIsInventory(saved: seq<string>, inventory: seq<string>)
    ensures NoDuplicates(Resolved(saved, inventory))
    ensures forall id :: id in Resolved(saved, inventory) <==> id in inventory
  {
    DistinctHas(saved);
    DistinctHas(inventory);
    KeepHolds(Distinct(saved), inventory);
    KeepDistinct(Distinct(saved), inventory);
    WithoutHolds(Distinct(inventory), saved);
    hide Distinct, Keep, Without;
    JoinNoDuplicates(Keep(Distinct(saved), inventory), Without(Distinct(inventory), saved));
  }

  /** An order without duplicates that holds the whole inventory is shown as its visible part. */
  lemma WholeOrderShown(order: seq<string>, inventory: seq<string>)
    requires NoDuplicates(order) && forall id <- inventory :: id in order
    ensures Resolved(order, inventory) == Keep(order, inventory)
  {
    DistinctStays(order);
    DistinctHas(inventory);
    WithoutHolds(Distinct(inventory), order);
    assert Keep(order, inventory) + [] == Keep(order, inventory);
  }

  /** Saving the shown order shows it again. */
  lemma ResolvedIsStable(saved: seq<string>, inventory: seq<string>)
    ensures Resolved(Resolved(saved, inventory), inventory) == Resolved(saved, inventory)
  {
    ResolvedIsInventory(saved, inventory);
    WholeOrderShown(Resolved(saved, inventory), inventory);
    KeepHolds(Resolved(saved, inventory), inventory);
  }

  lemma CompleteShows(saved: seq<string>, inventory: seq<string>)
    ensures NoDuplicates(Complete(saved, inventory)) && forall id <- inventory :: id in Complete(saved, inventory)
    ensures Keep(Complete(saved, inventory), inventory) == Resolved(saved, inventory)
  {
    DistinctHas(saved);
    DistinctHas(inventory);
    var unsaved := Without(Distinct(inventory), saved);
    WithoutHolds(Distinct(inventory), saved);
    KeepConcat(Distinct(saved), unsaved, inventory);
    KeepHolds(unsaved, inventory);
    hide Distinct, Keep, Without;
    JoinNoDuplicates(Distinct(saved), unsaved);
  }

  // ---------------------------------------------------------------- moving a device

  /** The first place of `id`, or the length. */
  function Place(ids: seq<string>, id: string): (i: nat)
    ensures i <= |ids| && id !in ids[..i] && (i < |ids| ==> ids[i] == id) && (i == |ids| ==> id !in ids)
  {
    if ids == [] || ids[0] == id then 0 else 1 + Place(ids[1..], id)
  }

  /** `moveKeyedItems`: taken out at `active`'s place, put in where `over` was. */
  function Moved(ids: seq<string>, active: string, over: string): (moved: seq<string>)
    ensures |moved| == |ids|
  {
    var from, to := Place(ids, active), Place(ids, over);
    if from == |ids| || to == |ids| || from == to then ids
    else
      var rest := ids[..from] + ids[from + 1..];
      rest[..to] + [ids[from]] + rest[to..]
  }

  /** Writes a reordered visible part back into the visible slots. */
  function WriteBack(ids: seq<string>, inventory: seq<string>, visible: seq<string>): (written: seq<string>)
    requires |visible| == |Keep(ids, inventory)|
    ensures |written| == |ids|
  {
    if ids == [] then []
    else if ids[0] in inventory then [visible[0]] + WriteBack(ids[1..], inventory, visible[1..])
    else [ids[0]] + WriteBack(ids[1..], inventory, visible)
  }

  /** `commitDeviceOrder`. */
  function Commit(saved: seq<string>, inventory: seq<string>, active: string, over: string): seq<string> {
    if active !in inventory || over !in inventory then saved
    else
      var complete := Complete(saved, inventory);
      var visible := Keep(complete, inventory);
      var from, to := Place(visible, active), Place(visible, over);
      if from == to || from == |visible| || to == |visible| then saved
      else WriteBack(complete, inventory, Moved(visible, active, over))
  }

  lemma CompleteHas(saved: seq<string>, inventory: seq<string>, id: string)
    ensures id in Complete(saved, inventory) <==> id in saved || id in inventory
  {
    DistinctHas(saved);
    DistinctHas(inventory);
    WithoutHolds(Distinct(inventory), saved);
  }

  lemma CompleteMore(saved: seq<string>, inventory: seq<string>, id: string)
    ensures Complete(saved, inventory + [id])
      == Complete(saved, inventory) + if id in Complete(saved, inventory) then [] else [id]
  {
    CompleteHas(saved, inventory, id);
    UnsavedMore(inventory, id, saved);
    hide Distinct, Without;
    ConcatAssoc(Distinct(saved), Without(Distinct(inventory), saved), if id in saved || id in inventory then [] else [id]);
  }

  lemma CompleteAtFirst(saved: seq<string>)
    ensures Complete(saved, []) == Distinct(saved)
  {
    NoneLeft(saved);
  }

  method CompleteOrder(saved: seq<string>, inventory: seq<string>) returns (complete: seq<string>)
    ensures complete == Complete(saved, inventory)
  {
    complete := DedupeIds(saved);
    CompleteAtFirst(saved);
    hide Complete;
    assert inventory[..0] == [];
    for i := 0 to |inventory|
      invariant complete == Complete(saved, inventory[..i])
    {
      CompleteMore(saved, inventory[..i], inventory[i]);
      assert inventory[..i + 1] == inventory[..i] + [inventory[i]];
      if inventory[i] !in complete {
        complete := complete + [inventory[i]];
      }
    }
    assert inventory[..|inventory|] == inventory;
  }

  lemma SlotsLeft(ids: seq<string>, inventory: seq<string>, visible: seq<string>, i: nat, index: nat)
    requires i < |ids| && index <= |visible| && |visible[index..]| == |Keep(ids[i..], inventory)|
    ensures ids[i] in inventory ==> index < |visible| && |visible[index + 1..]| == |Keep(ids[i + 1..], inventory)|
    ensures ids[i] !in inventory ==> |visible[index..]| == |Keep(ids[i + 1..], inventory)|
    ensures WriteBack(ids[i..], inventory, visible[index..]) ==
      if ids[i] in inventory then [visible[index]] + WriteBack(ids[i + 1..], inventory, visible[index + 1..])
      else [ids[i]] + WriteBack(ids[i + 1..], inventory, visible[index..])
  {
    assert ids[i..][1..] == ids[i + 1..];
    if ids[i] in inventory {
      assert visible[index..][1..] == visible[index + 1..];
    }
  }

  /** `moveKeyedSubsequence`'s second half: a running index into the reordered part. */
  method WriteSlots(ids: seq<string>, inventory: seq<string>, visible: seq<string>) returns (written: seq<string>)
    requires |visible| == |Keep(ids, inventory)|
    ensures written == WriteBack(ids, inventory, visible)
  {
    written := [];
    var index := 0;
    assert ids[0..] == ids && visible[0..] == visible && WriteBack([], inventory, []) == [];
    hide Keep;
    for i := 0 to |ids|
      invariant index <= |visible| && |visible[index..]| == |Keep(ids[i..], inventory)|
      invariant written + WriteBack(ids[i..], inventory, visible[index..]) == WriteBack(ids, inventory, visible)
    {
      SlotsLeft(ids, inventory, visible, i, index);
      if ids[i] !in inventory {
        ConcatAssoc(written, [ids[i]], WriteBack(ids[i + 1..], inventory, visible[index..]));
        written := written + [ids[i]];
      } else {
        ConcatAssoc(written, [visible[index]], WriteBack(ids[i + 1..], inventory, visible[index + 1..]));
        written := written + [visible[index]];
        index := index + 1;
      }
    }
    assert WriteBack(ids[|ids|..], inventory, visible[index..]) == [];
  }

  method CommitDeviceOrder(saved: seq<string>, inventory: seq<string>, active: string, over: string) returns (next: seq<string>)
    ensures next == Commit(saved, inventory, active, over)
  {
    if active !in inventory || over !in inventory {
      return saved;
    }
    var complete := CompleteOrder(saved, inventory);
    var visible := Keep(complete, inventory);
    var from, to := Place(visible, active), Place(visible, over);
    if from == |visible| || to == |visible| || from == to {
      return saved;
    }
    next := WriteSlots(complete, inventory, Moved(visible, active, over));
  }

  /** The written order shows the reordered part. */
  lemma {:induction false} WrittenBackShows(ids: seq<string>, inventory: seq<string>, visible: seq<string>)
    requires |visible| == |Keep(ids, inventory)| && forall i :: 0 <= i < |visible| ==> visible[i] in inventory
    ensures Keep(WriteBack(ids, inventory, visible), inventory) == visible
  {
    if ids != [] {
      var rest := if ids[0] in inventory then visible[1..] else visible;
      WrittenBackShows(ids[1..], inventory, rest);
      assert WriteBack(ids, inventory, visible)[1..] == WriteBack(ids[1..], inventory, rest);
    }
  }

  /** What is not shown keeps its slot. */
  lemma {:induction false} WrittenBackSlots(ids: seq<string>, inventory: seq<string>, visible: seq<string>, i: nat)
    requires |visible| == |Keep(ids, inventory)| && i < |ids| && ids[i] !in inventory
    ensures WriteBack(ids, inventory, visible)[i] == ids[i]
  {
    if i > 0 {
      WrittenBackSlots(ids[1..], inventory, if ids[0] in inventory then visible[1..] else visible, i - 1);
    }
  }

  lemma {:induction false} WrittenBackFrom(ids: seq<string>, inventory: seq<string>, visible: seq<string>, i: nat)
    requires |visible| == |Keep(ids, inventory)| && i < |ids|
    ensures var id := WriteBack(ids, inventory, visible)[i];
      id in visible || (id in ids && id !in inventory)
  {
    if i > 0 {
      WrittenBackFrom(ids[1..], inventory, if ids[0] in inventory then visible[1..] else visible, i - 1);
    }
  }

  lemma {:induction false} WrittenBackDistinct(ids: seq<string>, inventory: seq<string>, visible: seq<string>)
    requires |visible| == |Keep(ids, inventory)| && forall i :: 0 <= i < |visible| ==> visible[i] in inventory
    requires NoDuplicates(ids) && NoDuplicates(visible)
    ensures NoDuplicates(WriteBack(ids, inventory, visible))
  {
    if ids != [] {
      var rest := if ids[0] in inventory then visible[1..] else visible;
      WrittenBackDistinct(ids[1..], inventory, rest);
      var tail := WriteBack(ids[1..], inventory, rest);
      var head := if ids[0] in inventory then visible[0] else ids[0];
      assert WriteBack(ids, inventory, visible) == [head] + tail;
      hide WriteBack, Keep;
      HeadIsNew(ids, inventory, visible, rest, head, tail);
      JoinNoDuplicates([head], tail);
    }
  }

  lemma HeadIsNew(ids: seq<string>, inventory: seq<string>, visible: seq<string>, rest: seq<string>, head: string,
                  tail: seq<string>)
    requires ids != [] && |visible| == |Keep(ids, inventory)|
    requires forall i :: 0 <= i < |visible| ==> visible[i] in inventory
    requires NoDuplicates(ids) && NoDuplicates(visible)
    requires rest == if ids[0] in inventory then visible[1..] else visible
    requires head == if ids[0] in inventory then visible[0] else ids[0]
    requires tail == WriteBack(ids[1..], inventory, rest)
    ensures forall id <- tail :: id !in [head]
  {
    forall i | 0 <= i < |tail|
      ensures tail[i] != head
    {
      WrittenBackFrom(ids[1..], inventory, rest, i);
      hide WriteBack, Keep;
      if tail[i] in rest {
        var k :| 0 <= k < |rest| && rest[k] == tail[i];
        assert ids[0] in inventory ==> rest[k] == visible[k + 1];
      } else {
        var k :| 0 <= k < |ids| - 1 && ids[1..][k] == tail[i];
        assert ids[k + 1] == tail[i];
      }
    }
  }

  lemma TakenOut(ids: seq<string>, from: nat)
    requires NoDuplicates(ids) && from < |ids|
    ensures var rest := ids[..from] + ids[from + 1..];
      && NoDuplicates(rest) && ids[from] !in rest
      && forall id :: id in ids <==> id in rest || id == ids[from]
  {
    var rest := ids[..from] + ids[from + 1..];
    assert forall i :: 0 <= i < |rest| ==> rest[i] == ids[if i < from then i else i + 1];
    assert ids == ids[..from] + [ids[from]] + ids[from + 1..];
  }

  lemma PutIn(rest: seq<string>, id: string, to: nat)
    requires NoDuplicates(rest) && id !in rest && to <= |rest|
    ensures var all := rest[..to] + [id] + rest[to..];
      NoDuplicates(all) && forall other :: other in all <==> other in rest || other == id
  {
    var all := rest[..to] + [id] + rest[to..];
    assert forall i :: 0 <= i < |all| ==> all[i] == if i < to then rest[i] else if i == to then id else rest[i - 1];
    assert rest == rest[..to] + rest[to..];
  }

  /** A move rearranges: nothing appears, nothing is lost. */
  lemma MovedRearranges(ids: seq<string>, active: string, over: string)
    requires NoDuplicates(ids)
    ensures NoDuplicates(Moved(ids, active, over))
    ensures forall id :: id in Moved(ids, active, over) <==> id in ids
  {
    var from, to := Place(ids, active), Place(ids, over);
    if from != |ids| && to != |ids| && from != to {
      TakenOut(ids, from);
      PutIn(ids[..from] + ids[from + 1..], ids[from], to);
    }
  }

  /**
   * A committed move shows exactly the moved order, and every device that is not shown keeps its
   * slot; a move of or onto a device that is not shown saves nothing.
   */
  lemma CommitShowsTheMove(saved: seq<string>, inventory: seq<string>, active: string, over: string)
    ensures var next, shown := Commit(saved, inventory, active, over), Resolved(saved, inventory);
      && (active !in inventory || over !in inventory || active == over ==> next == saved)
      && (active in inventory && over in inventory ==>
            && Resolved(next, inventory) == Moved(shown, active, over)
            && (active != over ==>
                  && |next| == |Complete(saved, inventory)|
                  && forall i :: 0 <= i < |next| && Complete(saved, inventory)[i] !in inventory ==>
                       next[i] == Complete(saved, inventory)[i]))
  {
    if active in inventory && over in inventory {
      var complete, shown := Complete(saved, inventory), Resolved(saved, inventory);
      CompleteShows(saved, inventory);
      ResolvedIsInventory(saved, inventory);
      hide Complete, Resolved, Keep, Distinct;
      assert active in shown && over in shown;
      if active != over {
        MovedRearranges(shown, active, over);
        var moved := Moved(shown, active, over);
        assert Place(shown, active) != Place(shown, over);
        assert forall i :: 0 <= i < |moved| ==> moved[i] in moved;
        WrittenBackShows(complete, inventory, moved);
        WrittenBackDistinct(complete, inventory, moved);
        forall i | 0 <= i < |complete| && complete[i] !in inventory
          ensures WriteBack(complete, inventory, moved)[i] == complete[i]
        {
          WrittenBackSlots(complete, inventory, moved, i);
        }
        CommitHoldsInventory(complete, inventory, moved);
        WholeOrderShown(WriteBack(complete, inventory, moved), inventory);
      }
    }
  }

  lemma CommitHoldsInventory(complete: seq<string>, inventory: seq<string>, moved: seq<string>)
    requires |moved| == |Keep(complete, inventory)| && forall id :: id in moved <==> id in inventory
    ensures forall id <- inventory :: id in WriteBack(complete, inventory, moved)
  {
    assert forall i :: 0 <= i < |moved| ==> moved[i] in moved;
    WrittenBackShows(complete, inventory, moved);
    var written := WriteBack(complete, inventory, moved);
    forall id <- inventory
      ensures id in written
    {
      assert id in moved && moved == Keep(written, inventory);
    }
  }
}

/** View state kept for the most recently written history entries. */
module HistoryEntries {
  import opened Common

  datatype Slot<T> = Slot(key: string, value: T)

  /** A JavaScript map in insertion order, without one key. */
  function Deleted<T>(slots: seq<Slot<T>>, key: string): seq<Slot<T>> {
    if slots == [] then []
    else (if slots[0].key == key then [] else [slots[0]]) + Deleted(slots[1..], key)
  }

  function Lookup<T>(slots: seq<Slot<T>>, key: string): Option<T> {
    if slots == [] then None
    else if slots[0].key == key then Some(slots[0].value) else Lookup(slots[1..], key)
  }

  class HistoryEntryStore<T> {
    var values: seq<Slot<T>>
    const maxEntries: nat
    /** Every write so far, oldest first. */
    ghost var writes: seq<Slot<T>>

    ghost predicate Valid()
      reads this
    {
      values == Newest(All(writes), maxEntries)
    }

    constructor (maxEntries: nat)
      ensures Valid() && writes == [] && this.maxEntries == maxEntries
    {
      values, writes := [], [];
      this.maxEntries := maxEntries;
    }

    function Get(key: string): Option<T>
      reads this
    {
      Lookup(values, key)
    }

    /** Afterwards the store holds the newest keys of all writes, this one last. */
    method Set(key: string, value: T)
      requires Valid()
      modifies this
      ensures Valid() && writes == old(writes) + [Slot(key, value)]
    {
      BoundedSet(writes, maxEntries, key, value);
      values := Deleted(values, key) + [Slot(key, value)];
      if |values| > maxEntries {
        values := values[1..];
      }
      writes := writes + [Slot(key, value)];
    }
  }

  // ---------------------------------------------------------------- the store against all writes

  /** What a store without a limit would hold, least recently written first. */
  ghost function All<T>(writes: seq<Slot<T>>): seq<Slot<T>> {
    if writes == [] then []
    else Deleted(All(writes[..|writes| - 1]), writes[|writes| - 1].key) + [writes[|writes| - 1]]
  }

  ghost function Newest<T>(slots: seq<Slot<T>>, n: nat): seq<Slot<T>> {
    if |slots| <= n then slots else slots[|slots| - n..]
  }

  ghost predicate DistinctKeys<T>(slots: seq<Slot<T>>) {
    forall i, j :: 0 <= i < j < |slots| ==> slots[i].key != slots[j].key
  }

  lemma {:induction false} DeletedConcat<T>(a: seq<Slot<T>>, b: seq<Slot<T>>, key: string)
    ensures Deleted(a + b, key) == Deleted(a, key) + Deleted(b, key)
  {
    if a == [] {
      assert a + b == b;
    } else {
      DeletedConcat(a[1..], b, key);
      assert (a + b)[1..] == a[1..] + b && (a + b)[0] == a[0];
      ConcatAssoc(if a[0].key == key then [] else [a[0]], Deleted(a[1..], key), Deleted(b, key));
    }
  }

  ghost predicate NoKey<T>(slots: seq<Slot<T>>, key: string) {
    forall i :: 0 <= i < |slots| ==> slots[i].key != key
  }

  lemma {:induction false} DeletedAbsent<T>(slots: seq<Slot<T>>, key: string)
    requires NoKey(slots, key)
    ensures Deleted(slots, key) == slots
  {
    if slots != [] {
      DeletedAbsent(slots[1..], key);
      assert slots == [slots[0]] + slots[1..];
    }
  }

  lemma {:induction false} DeletedKeys<T>(slots: seq<Slot<T>>, key: string, other: string)
    ensures NoKey(Deleted(slots, key), key)
    ensures NoKey(slots, other) ==> NoKey(Deleted(slots, key), other)
  {
    if slots != [] {
      DeletedKeys(slots[1..], key, other);
      var head := if slots[0].key == key then [] else [slots[0]];
      var rest := Deleted(slots[1..], key);
      assert Deleted(slots, key) == head + rest;
      assert NoKey(slots, other) ==> NoKey(slots[1..], other) && slots[0].key != other;
      hide Deleted;
      assert forall i :: 0 <= i < |head + rest| ==> (head + rest)[i] == if i < |head| then head[i] else rest[i - |head|];
    }
  }

  lemma DistinctTail<T>(slots: seq<Slot<T>>)
    requires DistinctKeys(slots) && slots != []
    ensures DistinctKeys(slots[1..]) && NoKey(slots[1..], slots[0].key)
  {
  }

  lemma DistinctHead<T>(slot: Slot<T>, rest: seq<Slot<T>>)
    requires DistinctKeys(rest) && NoKey(rest, slot.key)
    ensures DistinctKeys([slot] + rest)
  {
  }

  lemma DistinctLast<T>(front: seq<Slot<T>>, slot: Slot<T>)
    requires DistinctKeys(front) && NoKey(front, slot.key)
    ensures DistinctKeys(front + [slot])
  {
  }

  /** With distinct keys, deleting removes the one slot of the key, if there is one. */
  lemma {:induction false} DeletedOne<T>(slots: seq<Slot<T>>, key: string)
    requires DistinctKeys(slots)
    ensures DistinctKeys(Deleted(slots, key))
    ensures |Deleted(slots, key)| == if NoKey(slots, key) then |slots| else |slots| - 1
  {
    if slots != [] {
      var rest := slots[1..];
      DistinctTail(slots);
      DeletedOne(rest, key);
      if slots[0].key == key {
        DeletedAbsent(rest, key);
        assert !NoKey(slots, key);
      } else {
        DeletedKeys(rest, key, slots[0].key);
        DistinctHead(slots[0], Deleted(rest, key));
        assert NoKey(slots, key) <==> NoKey(rest, key) by {
          assert forall i :: 1 <= i < |slots| ==> slots[i] == rest[i - 1];
        }
      }
    }
  }

  lemma {:induction false} AllDistinct<T>(writes: seq<Slot<T>>)
    ensures DistinctKeys(All(writes))
  {
    if writes != [] {
      var front, last := writes[..|writes| - 1], writes[|writes| - 1];
      AllDistinct(front);
      DeletedOne(All(front), last.key);
      DeletedKeys(All(front), last.key, last.key);
      DistinctLast(Deleted(All(front), last.key), last);
    }
  }

  lemma AllMore<T>(writes: seq<Slot<T>>, slot: Slot<T>)
    ensures All(writes + [slot]) == Deleted(All(writes), slot.key) + [slot]
  {
    assert (writes + [slot])[..|writes|] == writes;
  }

  /** Deleting, appending and evicting one keeps exactly the newest of all keys. */
  lemma BoundedSet<T>(writes: seq<Slot<T>>, n: nat, key: string, value: T)
    ensures var slot := Slot(key, value);
      var updated := Deleted(Newest(All(writes), n), key) + [slot];
      Newest(All(writes + [slot]), n) == if |updated| > n then updated[1..] else updated
  {
    AllMore(writes, Slot(key, value));
    AllDistinct(writes);
    EvictsOldest(All(writes), n, Slot(key, value));
  }

  lemma NewestBehind<T>(front: seq<Slot<T>>, back: seq<Slot<T>>, n: nat)
    requires n <= |back|
    ensures Newest(front + back, n) == Newest(back, n)
  {
    assert (front + back)[|front + back| - n..] == back[|back| - n..];
    assert back[0..] == back;
  }

  lemma EvictsOldest<T>(all: seq<Slot<T>>, n: nat, slot: Slot<T>)
    requires DistinctKeys(all)
    ensures var updated := Deleted(Newest(all, n), slot.key) + [slot];
      Newest(Deleted(all, slot.key) + [slot], n) == if |updated| > n then updated[1..] else updated
  {
    var newest, key := Newest(all, n), slot.key;
    var older := all[..|all| - |newest|];
    assert all == older + newest;
    DeletedConcat(older, newest, key);
    SplitDistinct(older, newest, key);
    DeletedOne(newest, key);
    var updated := Deleted(newest, key) + [slot];
    ConcatAssoc(Deleted(older, key), Deleted(newest, key), [slot]);
    OneOver(updated, n);
    if older != [] {
      hide Deleted, DistinctKeys, NoKey;
      NewestBehind(Deleted(older, key), updated, n);
      hide Newest;
    } else {
      assert newest == all;
    }
  }

  lemma OneOver<T>(slots: seq<Slot<T>>, n: nat)
    requires |slots| <= n + 1
    ensures Newest(slots, n) == if |slots| > n then slots[1..] else slots
  {
  }

  lemma SplitDistinct<T>(older: seq<Slot<T>>, newest: seq<Slot<T>>, key: string)
    requires DistinctKeys(older + newest)
    ensures DistinctKeys(newest) && (NoKey(older, key) || NoKey(newest, key))
  {
    var all := older + newest;
    assert forall i :: 0 <= i < |newest| ==> newest[i] == all[|older| + i];
    assert forall i :: 0 <= i < |older| ==> older[i] == all[i];
  }

  // ---------------------------------------------------------------- what a reader finds

  ghost function KeysOf<T>(slots: seq<Slot<T>>): set<string> {
    if slots == [] then {} else KeysOf(slots[..|slots| - 1]) + {slots[|slots| - 1].key}
  }

  /** `i` is the last write of its key. */
  ghost predicate LastWrite<T>(writes: seq<Slot<T>>, i: nat) {
    i < |writes| && forall j :: i < j < |writes| ==> writes[j].key != writes[i].key
  }

  lemma KeysMore<T>(slots: seq<Slot<T>>, slot: Slot<T>)
    ensures KeysOf(slots + [slot]) == KeysOf(slots) + {slot.key}
  {
    assert (slots + [slot])[..|slots|] == slots;
  }

  lemma {:induction false} KeysHave<T>(slots: seq<Slot<T>>, key: string)
    ensures key in KeysOf(slots) <==> !NoKey(slots, key)
  {
    if slots != [] {
      KeysHave(slots[..|slots| - 1], key);
      assert forall i :: 0 <= i < |slots| - 1 ==> slots[i] == slots[..|slots| - 1][i];
    }
  }

  lemma {:induction false} DistinctCount<T>(slots: seq<Slot<T>>)
    requires DistinctKeys(slots)
    ensures |KeysOf(slots)| == |slots|
  {
    if slots != [] {
      var front, last := slots[..|slots| - 1], slots[|slots| - 1];
      DistinctCount(front);
      KeysHave(front, last.key);
    }
  }

  /** After deleting a key and writing it again, it is among the keys either way. */
  lemma {:induction false} KeysRewritten<T>(slots: seq<Slot<T>>, slot: Slot<T>)
    ensures KeysOf(Deleted(slots, slot.key) + [slot]) == KeysOf(slots) + {slot.key}
  {
    KeysMore(Deleted(slots, slot.key), slot);
    if slots == [] {
    } else {
      var front, last := slots[..|slots| - 1], slots[|slots| - 1];
      KeysRewritten(front, slot);
      KeysMore(Deleted(front, slot.key), slot);
      assert slots == front + [last];
      DeletedConcat(front, [last], slot.key);
      assert Deleted([last], slot.key) == if last.key == slot.key then [] else [last];
      hide Deleted;
      if last.key == slot.key {
        assert Deleted(front, slot.key) + [] == Deleted(front, slot.key);
      } else {
        KeysMore(Deleted(front, slot.key), last);
      }
    }
  }

  /** Behind a key's slot are exactly the keys written after its last write. */
  lemma {:induction false} PlaceOf<T>(writes: seq<Slot<T>>, i: nat) returns (p: nat)
    requires LastWrite(writes, i)
    ensures p < |All(writes)| && All(writes)[p] == writes[i]
    ensures KeysOf(All(writes)[p + 1..]) == KeysOf(writes[i + 1..])
  {
    var n := |writes| - 1;
    var front, last := writes[..n], writes[n];
    assert All(writes) == Deleted(All(front), last.key) + [last];
    hide All, Deleted;
    if i == n {
      p := |Deleted(All(front), last.key)|;
      assert All(writes)[p + 1..] == [] && writes[i + 1..] == [];
    } else {
      assert LastWrite(front, i) && front[i] == writes[i];
      var q := PlaceOf(front, i);
      p := PlaceAfter(All(front), q, last);
      assert writes[i + 1..] == front[i + 1..] + [last];
      KeysMore(front[i + 1..], last);
    }
  }

  /** Writing another key leaves a slot where it is, up to what is in front of it. */
  lemma PlaceAfter<T>(all: seq<Slot<T>>, q: nat, last: Slot<T>) returns (p: nat)
    requires q < |all| && all[q].key != last.key
    ensures var after := Deleted(all, last.key) + [last];
      p < |after| && after[p] == all[q] && KeysOf(after[p + 1..]) == KeysOf(all[q + 1..]) + {last.key}
  {
    var a, slot, b := all[..q], all[q], all[q + 1..];
    assert all == a + ([slot] + b);
    DeletedConcat(a, [slot] + b, last.key);
    DeletedConcat([slot], b, last.key);
    assert Deleted([slot], last.key) == [slot];
    p := |Deleted(a, last.key)|;
    KeysRewritten(b, last);
    hide Deleted;
    var after := Deleted(all, last.key) + [last];
    assert after == Deleted(a, last.key) + ([slot] + (Deleted(b, last.key) + [last]));
    assert after[p + 1..] == Deleted(b, last.key) + [last];
  }

  lemma {:induction false} LookupAt<T>(slots: seq<Slot<T>>, p: nat)
    requires DistinctKeys(slots) && p < |slots|
    ensures Lookup(slots, slots[p].key) == Some(slots[p].value)
  {
    if p > 0 {
      LookupAt(slots[1..], p - 1);
    }
  }

  lemma {:induction false} LookupNone<T>(slots: seq<Slot<T>>, key: string)
    requires NoKey(slots, key)
    ensures Lookup(slots, key) == None
  {
    if slots != [] {
      LookupNone(slots[1..], key);
    }
  }

  lemma LookupNewest<T>(all: seq<Slot<T>>, n: nat, p: nat)
    requires DistinctKeys(all) && p < |all|
    ensures Lookup(Newest(all, n), all[p].key) == if |all| - 1 - p < n then Some(all[p].value) else None
  {
    var kept := Newest(all, n);
    var cut := |all| - |kept|;
    assert forall k :: 0 <= k < |kept| ==> kept[k] == all[cut + k];
    hide Newest, Lookup;
    if p >= cut {
      LookupAt(kept, p - cut);
    } else {
      LookupNone(kept, all[p].key);
    }
  }

  lemma CountBehind<T>(all: seq<Slot<T>>, p: nat)
    requires DistinctKeys(all) && p < |all|
    ensures |KeysOf(all[p + 1..])| == |all| - 1 - p
  {
    DistinctCount(all[p + 1..]);
  }

  /** A written key is found, with its last value, exactly while fewer than `n` other keys were written after it. */
  lemma FoundWhileRecent<T>(writes: seq<Slot<T>>, n: nat, i: nat)
    requires LastWrite(writes, i)
    ensures Lookup(Newest(All(writes), n), writes[i].key)
      == if |KeysOf(writes[i + 1..])| < n then Some(writes[i].value) else None
  {
    var p := PlaceOf(writes, i);
    AllDistinct(writes);
    hide All, Newest, KeysOf, Lookup, DistinctKeys;
    CountBehind(All(writes), p);
    LookupNewest(All(writes), n, p);
  }

  /** A key that was never written is not found. */
  lemma NeverWritten<T>(writes: seq<Slot<T>>, n: nat, key: string)
    requires NoKey(writes, key)
    ensures Lookup(Newest(All(writes), n), key) == None
  {
    NeverWrittenAnywhere(writes, key);
    LookupNone(Newest(All(writes), n), key);
  }

  lemma {:induction false} NeverWrittenAnywhere<T>(writes: seq<Slot<T>>, key: string)
    requires NoKey(writes, key)
    ensures NoKey(All(writes), key)
  {
    if writes != [] {
      var front, last := writes[..|writes| - 1], writes[|writes| - 1];
      NeverWrittenAnywhere(front, key);
      DeletedKeys(All(front), last.key, key);
    }
  }
}

/** The end of a process's output, and the waits between retries. */
module Retries {
  import opened Common

  /** The last `n` octets. */
  function Tail(data: seq<byte>, n: nat): seq<byte> {
    if |data| <= n then data else data[|data| - n..]
  }

  lemma TailMore(data: seq<byte>, more: seq<byte>, n: nat)
    ensures Tail(Tail(data, n) + more, n) == Tail(data + more, n)
  {
  }

  /** Whatever the chunks, the last `limit` octets of the whole stream remain. */
  method ReadBoundedTail(chunks: seq<seq<byte>>, limit: nat) returns (tail: seq<byte>)
    ensures tail == Tail(Flatten(chunks), limit)
  {
    tail := [];
    for i := 0 to |chunks|
      invariant tail == Tail(Flatten(chunks[..i]), limit)
    {
      assert chunks[..i + 1] == chunks[..i] + [chunks[i]];
      FlattenMore(chunks[..i], chunks[i]);
      TailMore(Flatten(chunks[..i]), chunks[i], limit);
      tail := tail + chunks[i];
      if |tail| > limit {
        var excess := |tail| - limit;
        tail := tail[excess..];
      }
    }
    assert chunks[..|chunks|] == chunks;
  }

  // Waits are in milliseconds.
  const INITIAL_BACKOFF := 1000
  const MAX_BACKOFF := 30000
  const STABLE_RUNTIME := 30000

  function Power(k: nat): nat {
    if k == 0 then 1 else 2 * Power(k - 1)
  }

  /** The bound of the wait after `k` waits since the last reset. */
  function BackoffStep(k: nat): nat {
    if Power(k) * INITIAL_BACKOFF < MAX_BACKOFF then Power(k) * INITIAL_BACKOFF else MAX_BACKOFF
  }

  lemma {:induction false} PowerGrows(k: nat)
    ensures Power(k) >= 1 && (k >= 5 ==> Power(k) >= 32)
  {
    if k > 0 {
      PowerGrows(k - 1);
      if k == 5 {
        assert Power(4) == 16;
      }
    }
  }

  class Backoff {
    var current: nat
    /** Waits since the schedule started over. */
    ghost var waits: nat

    ghost predicate Valid()
      reads this
    {
      current == BackoffStep(waits)
    }

    constructor ()
      ensures Valid() && waits == 0
    {
      current, waits := INITIAL_BACKOFF, 0;
    }

    /** `draw` is the random part of the wait. */
    method NextDelay(draw: nat) returns (delay: nat)
      requires Valid() && draw <= current / 2
      modifies this
      ensures Valid() && waits == old(waits) + 1
      ensures BackoffStep(old(waits)) / 2 <= delay <= BackoffStep(old(waits)) <= MAX_BACKOFF
    {
      PowerGrows(waits);
      var step := current;
      current := if current * 2 < MAX_BACKOFF then current * 2 else MAX_BACKOFF;
      waits := waits + 1;
      delay := step / 2 + draw;
    }

    method Saturate()
      modifies this
      ensures Valid() && current == MAX_BACKOFF
    {
      current, waits := MAX_BACKOFF, 5;
      PowerGrows(5);
    }

    method ResetIfStable(ranFor: nat)
      requires Valid()
      modifies this
      ensures Valid() && waits == if ranFor >= STABLE_RUNTIME then 0 else old(waits)
    {
      if ranFor >= STABLE_RUNTIME {
        current, waits := INITIAL_BACKOFF, 0;
      }
    }
  }
}

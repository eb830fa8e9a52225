/** An insertion-ordered map from paths to the queries that wait for them, as a sequence of its entries. */
module WaitingRows {
  import opened Common

  /** A promise handed out by `load`, told apart from all others by its id. */
  datatype Waiter = Waiter(id: nat, path: string)

  /** One key of the insertion-ordered map with its waiters. */
  datatype Row = Row(path: string, waiters: seq<Waiter>)

  type Rows = seq<Row>

  function Paths(rows: Rows): (paths: seq<string>)
    ensures |paths| == |rows| && forall i :: 0 <= i < |rows| ==> paths[i] == rows[i].path
  {
    seq(|rows|, i requires 0 <= i < |rows| => rows[i].path)
  }

  /** How often a waiter occurs in a list. */
  function Count(waiters: seq<Waiter>, w: Waiter): nat {
    if waiters == [] then 0
    else Count(waiters[..|waiters| - 1], w) + (if waiters[|waiters| - 1] == w then 1 else 0)
  }

  /** How often a waiter waits in any row. */
  function Waiting(rows: Rows, w: Waiter): nat {
    if rows == [] then 0 else Count(rows[0].waiters, w) + Waiting(rows[1..], w)
  }

  function Added(rows: Rows, path: string, waiter: Waiter): Rows {
    if rows == [] then [Row(path, [waiter])]
    else if rows[0].path == path then [Row(path, rows[0].waiters + [waiter])] + rows[1..]
    else [rows[0]] + Added(rows[1..], path, waiter)
  }

  function AddedAll(rows: Rows, path: string, waiters: seq<Waiter>): Rows {
    if waiters == [] then rows
    else Added(AddedAll(rows, path, waiters[..|waiters| - 1]), path, waiters[|waiters| - 1])
  }

  function Appended(rows: Rows, other: Rows): Rows {
    if other == [] then rows
    else
      var last := other[|other| - 1];
      AddedAll(Appended(rows, other[..|other| - 1]), last.path, last.waiters)
  }

  function Without(waiters: seq<Waiter>, waiter: Waiter): seq<Waiter> {
    if waiters == [] then []
    else
      var kept := Without(waiters[..|waiters| - 1], waiter);
      var last := waiters[|waiters| - 1];
      if last == waiter then kept else kept + [last]
  }

  function Removed(rows: Rows, path: string, waiter: Waiter): Rows {
    if rows == [] then []
    else if rows[0].path != path then [rows[0]] + Removed(rows[1..], path, waiter)
    else
      var remaining := Without(rows[0].waiters, waiter);
      (if remaining == [] then [] else [Row(path, remaining)]) + rows[1..]
  }

  function TakenWaiters(rows: Rows, path: string): seq<Waiter> {
    if rows == [] then []
    else if rows[0].path == path then rows[0].waiters
    else TakenWaiters(rows[1..], path)
  }

  function Taken(rows: Rows, path: string): Rows {
    if rows == [] then []
    else if rows[0].path == path then rows[1..]
    else [rows[0]] + Taken(rows[1..], path)
  }

  // ---------------------------------------------------------------- what every operation keeps

  /** Distinct paths, no empty row, every waiter under its own path. */
  ghost predicate Proper(rows: Rows) {
    && (forall i, j :: 0 <= i < j < |rows| ==> rows[i].path != rows[j].path)
    && (forall i :: 0 <= i < |rows| ==> rows[i].waiters != [])
    && (forall i, w :: 0 <= i < |rows| && w in rows[i].waiters ==> w.path == rows[i].path)
  }

  lemma ProperTail(rows: Rows)
    requires Proper(rows) && rows != []
    ensures Proper(rows[1..]) && rows[0].path !in Paths(rows[1..])
  {
  }

  lemma ProperCons(row: Row, rest: Rows)
    requires Proper(rest) && row.waiters != [] && (forall w <- row.waiters :: w.path == row.path)
    requires row.path !in Paths(rest)
    ensures Proper([row] + rest)
  {
    var rows := [row] + rest;
    forall i, j | 0 <= i < j < |rows|
      ensures rows[i].path != rows[j].path
    {
      assert Paths(rest)[j - 1] == rows[j].path;
    }
  }

  lemma CountSnoc(waiters: seq<Waiter>, last: Waiter, w: Waiter)
    ensures Count(waiters + [last], w) == Count(waiters, w) + (if last == w then 1 else 0)
  {
    assert (waiters + [last])[..|waiters|] == waiters;
  }

  lemma {:induction false} CountMember(waiters: seq<Waiter>, w: Waiter)
    ensures Count(waiters, w) > 0 <==> w in waiters
  {
    if waiters != [] {
      var front := waiters[..|waiters| - 1];
      CountMember(front, w);
      assert waiters == front + [waiters[|waiters| - 1]];
    }
  }

  lemma {:induction false} CountConcat(a: seq<Waiter>, b: seq<Waiter>, w: Waiter)
    ensures Count(a + b, w) == Count(a, w) + Count(b, w)
  {
    if b == [] {
      assert a + b == a;
    } else {
      var front, last := b[..|b| - 1], b[|b| - 1];
      CountConcat(a, front, w);
      assert a + b == (a + front) + [last];
      CountSnoc(a + front, last, w);
    }
  }

  lemma PathsCons(row: Row, rest: Rows)
    ensures Paths([row] + rest) == [row.path] + Paths(rest)
  {
  }

  lemma WaitingCons(row: Row, rest: Rows, w: Waiter)
    ensures Waiting([row] + rest, w) == Count(row.waiters, w) + Waiting(rest, w)
  {
    assert ([row] + rest)[1..] == rest;
  }

  lemma {:induction false} AddedWaiting(rows: Rows, path: string, waiter: Waiter, w: Waiter)
    ensures Waiting(Added(rows, path, waiter), w) == Waiting(rows, w) + (if w == waiter then 1 else 0)
  {
    if rows == [] {
      CountSnoc([], waiter, w);
      assert [] + [waiter] == [waiter];
    } else {
      var rest := rows[1..];
      if rows[0].path == path {
        CountSnoc(rows[0].waiters, waiter, w);
        WaitingCons(Row(path, rows[0].waiters + [waiter]), rest, w);
      } else {
        AddedWaiting(rest, path, waiter, w);
        WaitingCons(rows[0], Added(rest, path, waiter), w);
      }
    }
  }

  lemma {:induction false} AddedPaths(rows: Rows, path: string, waiter: Waiter)
    ensures Paths(Added(rows, path, waiter)) == Paths(rows) + (if path in Paths(rows) then [] else [path])
  {
    if rows != [] {
      var rest := rows[1..];
      assert rows == [rows[0]] + rest;
      PathsCons(rows[0], rest);
      if rows[0].path == path {
        PathsCons(Row(path, rows[0].waiters + [waiter]), rest);
      } else {
        AddedPaths(rest, path, waiter);
        PathsCons(rows[0], Added(rest, path, waiter));
      }
    }
  }

  lemma {:induction false} AddedProper(rows: Rows, waiter: Waiter)
    requires Proper(rows)
    ensures Proper(Added(rows, waiter.path, waiter))
  {
    if rows != [] {
      ProperTail(rows);
      if rows[0].path == waiter.path {
        ProperCons(Row(waiter.path, rows[0].waiters + [waiter]), rows[1..]);
      } else {
        AddedProper(rows[1..], waiter);
        AddedPaths(rows[1..], waiter.path, waiter);
        ProperCons(rows[0], Added(rows[1..], waiter.path, waiter));
      }
    }
  }

  lemma {:induction false} AddedAllProper(rows: Rows, path: string, waiters: seq<Waiter>)
    requires Proper(rows) && (forall w <- waiters :: w.path == path)
    ensures var after := AddedAll(rows, path, waiters);
      && Proper(after)
      && Paths(rows) <= Paths(after)
      && |after| <= |rows| + (if waiters == [] then 0 else 1)
      && (waiters != [] ==> path in Paths(after))
  {
    hide Proper, Paths;
    if waiters != [] {
      var front, last := waiters[..|waiters| - 1], waiters[|waiters| - 1];
      assert waiters == front + [last];
      AddedAllProper(rows, path, front);
      AddedProper(AddedAll(rows, path, front), last);
      AddedPaths(AddedAll(rows, path, front), path, last);
      PathCount(rows, AddedAll(rows, path, front), AddedAll(rows, path, waiters));
    }
  }

  lemma PathCount(a: Rows, b: Rows, c: Rows)
    ensures |Paths(a)| == |a| && |Paths(b)| == |b| && |Paths(c)| == |c|
  {
  }

  lemma {:induction false} AddedAllWaiting(rows: Rows, path: string, waiters: seq<Waiter>, w: Waiter)
    ensures Waiting(AddedAll(rows, path, waiters), w) == Waiting(rows, w) + Count(waiters, w)
  {
    if waiters != [] {
      var front := waiters[..|waiters| - 1];
      AddedAllWaiting(rows, path, front, w);
      AddedWaiting(AddedAll(rows, path, front), path, waiters[|waiters| - 1], w);
    }
  }

  /** The rows of `other` go behind these: nobody is lost, and the older paths stay first. */
  lemma {:induction false} AppendedProper(rows: Rows, other: Rows)
    requires Proper(rows) && Proper(other)
    ensures var after := Appended(rows, other);
      && Proper(after)
      && Paths(rows) <= Paths(after)
      && |after| <= |rows| + |other|
  {
    if other != [] {
      var front, last := other[..|other| - 1], other[|other| - 1];
      ProperFront(other);
      hide Proper, Paths;
      AppendedProper(rows, front);
      AddedAllProper(Appended(rows, front), last.path, last.waiters);
    }
  }

  lemma ProperFront(rows: Rows)
    requires Proper(rows) && rows != []
    ensures Proper(rows[..|rows| - 1])
    ensures forall w <- rows[|rows| - 1].waiters :: w.path == rows[|rows| - 1].path
  {
  }

  lemma {:induction false} WaitingSnoc(front: Rows, last: Row, w: Waiter)
    ensures Waiting(front + [last], w) == Waiting(front, w) + Count(last.waiters, w)
  {
    if front == [] {
      assert [] + [last] == [last] + [];
      WaitingCons(last, [], w);
    } else {
      WaitingSnoc(front[1..], last, w);
      assert front + [last] == [front[0]] + (front[1..] + [last]);
      WaitingCons(front[0], front[1..] + [last], w);
    }
  }

  lemma {:induction false} AppendedWaiting(rows: Rows, other: Rows, w: Waiter)
    ensures Waiting(Appended(rows, other), w) == Waiting(rows, w) + Waiting(other, w)
  {
    if other != [] {
      var front, last := other[..|other| - 1], other[|other| - 1];
      AppendedWaiting(rows, front, w);
      AddedAllWaiting(Appended(rows, front), last.path, last.waiters, w);
      assert other == front + [last];
      WaitingSnoc(front, last, w);
    }
  }

  lemma {:induction false} WithoutCount(waiters: seq<Waiter>, waiter: Waiter, w: Waiter)
    ensures Count(Without(waiters, waiter), w) == if w == waiter then 0 else Count(waiters, w)
    ensures forall x <- Without(waiters, waiter) :: x in waiters
  {
    if waiters != [] {
      var front, last := waiters[..|waiters| - 1], waiters[|waiters| - 1];
      WithoutCount(front, waiter, w);
      CountSnoc(Without(front, waiter), last, w);
    }
  }

  /** A row's abort removes that row, wherever it is, and nobody else. */
  lemma {:induction false} RemovedWaiting(rows: Rows, waiter: Waiter, w: Waiter)
    requires Proper(rows)
    ensures Waiting(Removed(rows, waiter.path, waiter), w) == if w == waiter then 0 else Waiting(rows, w)
  {
    if rows != [] {
      var rest := rows[1..];
      ProperTail(rows);
      if rows[0].path == waiter.path {
        NotUnderOtherPaths(rest, waiter);
        WithoutCount(rows[0].waiters, waiter, w);
        WaitingCons(Row(waiter.path, Without(rows[0].waiters, waiter)), rest, w);
        assert [] + rest == rest;
      } else {
        CountMember(rows[0].waiters, waiter);
        RemovedWaiting(rest, waiter, w);
        WaitingCons(rows[0], Removed(rest, waiter.path, waiter), w);
      }
    }
  }

  lemma {:induction false} RemovedProper(rows: Rows, waiter: Waiter)
    requires Proper(rows)
    ensures var after := Removed(rows, waiter.path, waiter);
      Proper(after) && |after| <= |rows| && forall p <- Paths(after) :: p in Paths(rows)
  {
    if rows != [] {
      var rest := rows[1..];
      ProperTail(rows);
      assert rows == [rows[0]] + rest;
      PathsCons(rows[0], rest);
      if rows[0].path == waiter.path {
        var kept := Row(waiter.path, Without(rows[0].waiters, waiter));
        WithoutCount(rows[0].waiters, waiter, waiter);
        if kept.waiters != [] {
          ProperCons(kept, rest);
          PathsCons(kept, rest);
        } else {
          assert [] + rest == rest;
        }
      } else {
        RemovedProper(rest, waiter);
        ProperCons(rows[0], Removed(rest, waiter.path, waiter));
        PathsCons(rows[0], Removed(rest, waiter.path, waiter));
      }
    }
  }

  lemma {:induction false} NotUnderOtherPaths(rows: Rows, waiter: Waiter)
    requires Proper(rows) && waiter.path !in Paths(rows)
    ensures Waiting(rows, waiter) == 0
  {
    if rows != [] {
      ProperTail(rows);
      assert rows == [rows[0]] + rows[1..];
      PathsCons(rows[0], rows[1..]);
      CountMember(rows[0].waiters, waiter);
      NotUnderOtherPaths(rows[1..], waiter);
    }
  }

  lemma {:induction false} TakenProper(rows: Rows, path: string)
    requires Proper(rows)
    ensures var after := Taken(rows, path);
      && Proper(after)
      && (forall p :: p in Paths(after) <==> p in Paths(rows) && p != path)
      && |after| == |rows| - (if path in Paths(rows) then 1 else 0)
    ensures forall w <- TakenWaiters(rows, path) :: w.path == path
  {
    if rows != [] {
      var rest := rows[1..];
      ProperTail(rows);
      assert rows == [rows[0]] + rest;
      PathsCons(rows[0], rest);
      if rows[0].path != path {
        TakenProper(rest, path);
        ProperCons(rows[0], Taken(rest, path));
        PathsCons(rows[0], Taken(rest, path));
      }
    }
  }

  lemma {:induction false} TakenWaiting(rows: Rows, path: string, w: Waiter)
    ensures Waiting(rows, w) == Waiting(Taken(rows, path), w) + Count(TakenWaiters(rows, path), w)
  {
    if rows != [] && rows[0].path != path {
      TakenWaiting(rows[1..], path, w);
      WaitingCons(rows[0], Taken(rows[1..], path), w);
    }
  }
}

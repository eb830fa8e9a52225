/** Values shared by every module of the model. */
module Common {
  datatype Option<+T> = None | Some(value: T)

  /** One octet of a file, an archive or a pipe. */
  type byte = x: int | 0 <= x < 256

  /** `n` zero octets. */
  function Zeros(n: nat): (z: seq<byte>)
    ensures |z| == n
    ensures forall i :: 0 <= i < n ==> z[i] == 0
  {
    seq(n, i => 0)
  }

  lemma ConcatAssoc<T>(a: seq<T>, b: seq<T>, c: seq<T>)
    ensures (a + b) + c == a + (b + c)
  {
  }

  function Flatten<T>(parts: seq<seq<T>>): seq<T> {
    if parts == [] then [] else Flatten(parts[..|parts| - 1]) + parts[|parts| - 1]
  }

  lemma FlattenMore<T>(parts: seq<seq<T>>, part: seq<T>)
    ensures Flatten(parts + [part]) == Flatten(parts) + part
  {
    assert (parts + [part])[..|parts|] == parts;
  }

  // ---------------------------------------------------------------- splitting at a separator

  /** The pieces between separators, empty ones included. */
  function Split<T(==)>(s: seq<T>, separator: T): (pieces: seq<seq<T>>)
    ensures |pieces| > 0
  {
    if s == [] then [[]]
    else
      var rest := Split(s[1..], separator);
      if s[0] == separator then [[]] + rest else Longer(s[0], rest)
  }

  /** The pieces with one more element in front of the first. */
  function Longer<T>(first: T, pieces: seq<seq<T>>): (longer: seq<seq<T>>)
    requires |pieces| > 0
    ensures |longer| == |pieces|
  {
    [[first] + pieces[0]] + pieces[1..]
  }

  lemma {:induction false} SplitFree<T>(s: seq<T>, separator: T)
    requires separator !in s
    ensures Split(s, separator) == [s]
  {
    if s != [] {
      SplitFree(s[1..], separator);
      assert [s[0]] + s[1..] == s;
    }
  }

  lemma LongerPrefix<T>(first: T, left: seq<seq<T>>, right: seq<seq<T>>)
    requires |left| > 0
    ensures Longer(first, left + right) == Longer(first, left) + right
  {
    assert (left + right)[1..] == left[1..] + right;
    ConcatAssoc([[first] + left[0]], left[1..], right);
  }

  lemma {:induction false} SplitAt<T>(a: seq<T>, b: seq<T>, separator: T)
    ensures Split(a + [separator] + b, separator) == Split(a, separator) + Split(b, separator)
  {
    var whole := a + [separator] + b;
    if a == [] {
      assert whole[1..] == b;
    } else {
      SplitAt(a[1..], b, separator);
      assert whole[0] == a[0] && whole[1..] == a[1..] + [separator] + b;
      var left, right := Split(a[1..], separator), Split(b, separator);
      LongerPrefix(a[0], left, right);
      ConcatAssoc([[]], left, right);
    }
  }

  lemma {:induction false} SplitPieces<T>(s: seq<T>, separator: T)
    ensures forall i :: 0 <= i < |Split(s, separator)| ==> separator !in Split(s, separator)[i]
  {
    if s != [] {
      SplitPieces(s[1..], separator);
    }
  }

  /** The pieces with `tail` behind the last. */
  function Tailed<T>(pieces: seq<seq<T>>, tail: seq<T>): (tailed: seq<seq<T>>)
    requires |pieces| > 0
    ensures |tailed| == |pieces|
  {
    pieces[..|pieces| - 1] + [pieces[|pieces| - 1] + tail]
  }

  lemma LongerTailed<T>(first: T, pieces: seq<seq<T>>, tail: seq<T>)
    requires |pieces| > 0
    ensures Longer(first, Tailed(pieces, tail)) == Tailed(Longer(first, pieces), tail)
  {
    ConcatAssoc([first], pieces[0], tail);
  }

  /** A tail without separators only makes the last piece longer. */
  lemma {:induction false} SplitTail<T>(s: seq<T>, tail: seq<T>, separator: T)
    requires separator !in tail
    ensures Split(s + tail, separator) == Tailed(Split(s, separator), tail)
  {
    if s == [] {
      assert s + tail == tail && [] + tail == tail;
      SplitFree(tail, separator);
    } else {
      assert (s + tail)[1..] == s[1..] + tail && (s + tail)[0] == s[0];
      SplitTail(s[1..], tail, separator);
      var rest := Split(s[1..], separator);
      LongerTailed(s[0], rest, tail);
      assert [[]] + Tailed(rest, tail) == Tailed([[]] + rest, tail);
    }
  }

  /** More elements continue the last piece. */
  lemma {:induction false} SplitContinues<T>(a: seq<T>, b: seq<T>, separator: T)
    ensures var pieces := Split(a, separator);
      Split(a + b, separator) == pieces[..|pieces| - 1] + Split(pieces[|pieces| - 1] + b, separator)
  {
    if a == [] {
      assert a + b == b && [] + b == b;
    } else {
      assert (a + b)[1..] == a[1..] + b && (a + b)[0] == a[0];
      SplitContinues(a[1..], b, separator);
      var rest := Split(a[1..], separator);
      var n := |rest| - 1;
      var behind := Split(rest[n] + b, separator);
      if a[0] == separator {
        ConcatAssoc([[]], rest[..n], behind);
        assert ([[]] + rest)[..n + 1] == [[]] + rest[..n];
      } else if n == 0 {
        ConcatAssoc([a[0]], rest[0], b);
        assert ([a[0]] + (rest[0] + b))[1..] == rest[0] + b;
        assert rest[..0] + behind == behind;
      } else {
        LongerPrefix(a[0], rest[..n], behind);
        assert Longer(a[0], rest)[..n] == Longer(a[0], rest[..n]);
      }
    }
  }

  // ---------------------------------------------------------------- distinct elements

  /** The distinct elements in the order of their first occurrence. */
  function Distinct<T(==)>(s: seq<T>): seq<T> {
    if s == [] then []
    else
      var front, last := Distinct(s[..|s| - 1]), s[|s| - 1];
      if last in front then front else front + [last]
  }

  lemma DistinctMore<T>(s: seq<T>, x: T)
    ensures Distinct(s + [x]) == if x in Distinct(s) then Distinct(s) else Distinct(s) + [x]
  {
    assert (s + [x])[..|s|] == s;
  }

  /** Each element once, none lost, none added. */
  lemma {:induction false} DistinctIs<T>(s: seq<T>)
    ensures var d := Distinct(s);
      && (forall i, j :: 0 <= i < j < |d| ==> d[i] != d[j])
      && (forall x :: x in d <==> x in s) && (s != [] ==> d != [])
  {
    if s != [] {
      var front, last := Distinct(s[..|s| - 1]), s[|s| - 1];
      DistinctIs(s[..|s| - 1]);
      assert s == s[..|s| - 1] + [last];
      forall i, j | 0 <= i < j < |Distinct(s)|
        ensures Distinct(s)[i] != Distinct(s)[j]
      {
        assert Distinct(s) == if last in front then front else front + [last];
        assert Distinct(s)[i] == front[i] && front[i] in front;
      }
    }
  }
}

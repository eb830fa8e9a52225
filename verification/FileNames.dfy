/** Names of files and directories: trimming, validation and free variants of a taken name. */
module FileNames {
  import opened Common
  import opened UploadPaths

  // ---------------------------------------------------------------- trimming

  /** The characters `String.prototype.trim` removes. */
  predicate IsSpace(c: char) {
    var code := c as int;
    || 9 <= code <= 13 || code == 32 || code == 0xA0 || code == 0x1680 || 0x2000 <= code <= 0x200A
    || code == 0x2028 || code == 0x2029 || code == 0x202F || code == 0x205F || code == 0x3000 || code == 0xFEFF
  }

  function TrimStart(s: string): string {
    if s != "" && IsSpace(s[0]) then TrimStart(s[1..]) else s
  }

  function TrimEnd(s: string): string {
    if s != "" && IsSpace(s[|s| - 1]) then TrimEnd(s[..|s| - 1]) else s
  }

  function Trim(s: string): string {
    TrimEnd(TrimStart(s))
  }

  /** Neither end is a space. */
  predicate TrimStable(s: string) {
    s != "" ==> !IsSpace(s[0]) && !IsSpace(s[|s| - 1])
  }

  lemma {:induction false} TrimEndIs(s: string)
    ensures TrimEnd(s) <= s && (TrimEnd(s) != "" ==> !IsSpace(TrimEnd(s)[|TrimEnd(s)| - 1]))
  {
    if s != "" && IsSpace(s[|s| - 1]) {
      TrimEndIs(s[..|s| - 1]);
    }
  }

  lemma {:induction false} TrimStartIs(s: string)
    ensures var t := TrimStart(s);
      |t| <= |s| && t == s[|s| - |t|..] && (t != "" ==> !IsSpace(t[0]))
  {
    if s != "" && IsSpace(s[0]) {
      TrimStartIs(s[1..]);
    }
  }

  /** Trimming leaves a name alone exactly when neither end is a space, and its result is such a name. */
  lemma TrimIs(s: string)
    ensures TrimStable(Trim(s)) && (Trim(s) == s <==> TrimStable(s))
    ensures forall c <- Trim(s) :: c in s
  {
    TrimStartIs(s);
    TrimEndIs(TrimStart(s));
  }

  // ---------------------------------------------------------------- counters in names

  function Digit(d: nat): (c: char)
    requires d < 10
    ensures '0' <= c <= '9'
  {
    '0' + d as char
  }

  function Decimal(n: nat): (s: string)
    ensures s != ""
    ensures forall c <- s :: '0' <= c <= '9'
  {
    if n < 10 then [Digit(n)] else Decimal(n / 10) + [Digit(n % 10)]
  }

  lemma {:induction false} DecimalInjective(a: nat, b: nat)
    requires Decimal(a) == Decimal(b)
    ensures a == b
  {
    var s, t := Decimal(a), Decimal(b);
    assert s[|s| - 1] == Digit(a % 10) && t[|t| - 1] == Digit(b % 10);
    assert a % 10 == b % 10;
    if a >= 10 && b >= 10 {
      assert s[..|s| - 1] == Decimal(a / 10) && t[..|t| - 1] == Decimal(b / 10);
      DecimalInjective(a / 10, b / 10);
    }
  }

  function Candidate(stem: string, extension: string, counter: nat): string {
    stem + "_" + Decimal(counter) + extension
  }

  lemma CandidateInjective(stem: string, extension: string, a: nat, b: nat)
    requires Candidate(stem, extension, a) == Candidate(stem, extension, b)
    ensures a == b
  {
    var n := |stem| + 1;
    var s, t := Candidate(stem, extension, a), Candidate(stem, extension, b);
    assert s[n..n + |Decimal(a)|] == Decimal(a) && t[n..n + |Decimal(b)|] == Decimal(b);
    DecimalInjective(a, b);
  }

  datatype EntryType = FileEntry | DirectoryEntry

  /** The index of the first dot from `from` on, or the end. */
  function DotFrom(name: string, from: nat): (i: nat)
    requires from <= |name|
    ensures from <= i <= |name|
    decreases |name| - from
  {
    if from == |name| || name[from] == '.' then from else DotFrom(name, from + 1)
  }

  /** The length of a name up to its counter, which a file has in front of its extension. */
  function StemLength(name: string, entryType: EntryType): (n: nat)
    ensures n <= |name| && (name != "" ==> n > 0)
  {
    if entryType == FileEntry && name != "" then DotFrom(name, 1) else |name|
  }

  function Variant(name: string, entryType: EntryType, counter: nat): string {
    var n := StemLength(name, entryType);
    Candidate(name[..n], name[n..], counter)
  }

  /** `counter` gives the first free variant from 2 on. */
  ghost predicate FirstFree(name: string, entryType: EntryType, taken: set<string>, counter: nat) {
    && counter >= 2 && Variant(name, entryType, counter) !in taken
    && (forall k :: 2 <= k < counter ==> Variant(name, entryType, k) in taken)
  }

  lemma SubsetSize<T>(a: set<T>, b: set<T>)
    requires a <= b
    ensures |a| <= |b|
  {
    assert b == a + (b - a);
  }

  lemma FirstFreeUnique(name: string, entryType: EntryType, taken: set<string>, a: nat, b: nat)
    requires FirstFree(name, entryType, taken, a) && FirstFree(name, entryType, taken, b)
    ensures a == b
  {
  }

  /** The counting loop always ends: it skips distinct taken names, and there are only so many. */
  method SuggestAvailableFileName(name: string, entryType: EntryType, taken: set<string>)
    returns (suggestion: string)
    ensures suggestion == FreeVariant(name, entryType, taken)
  {
    var n := StemLength(name, entryType);
    var stem, extension := name[..n], name[n..];
    var next := 2;
    ghost var skipped: set<string> := {};
    while Candidate(stem, extension, next) in taken
      invariant next >= 2 && skipped <= taken && |skipped| == next - 2
      invariant forall k :: 2 <= k < next ==> Candidate(stem, extension, k) in taken
      invariant forall c <- skipped :: exists k :: 2 <= k < next && c == Candidate(stem, extension, k)
      decreases |taken| - |skipped|
    {
      var candidate := Candidate(stem, extension, next);
      if candidate in skipped {
        ghost var k :| 2 <= k < next && candidate == Candidate(stem, extension, k);
        CandidateInjective(stem, extension, k, next);
      }
      skipped := skipped + {candidate};
      SubsetSize(skipped, taken);
      next := next + 1;
    }
    suggestion := Candidate(stem, extension, next);
    assert FirstFree(name, entryType, taken, next) && suggestion == Variant(name, entryType, next);
    ghost var counter: nat :| FirstFree(name, entryType, taken, counter)
      && FreeVariant(name, entryType, taken) == Variant(name, entryType, counter);
    FirstFreeUnique(name, entryType, taken, counter, next);
  }

  lemma VariantFree(name: string, entryType: EntryType, taken: set<string>)
    ensures exists counter: nat :: FirstFree(name, entryType, taken, counter)
  {
    var counter := SkipTaken(name, entryType, taken, 2, {});
  }

  lemma {:induction false} SkipTaken(name: string, entryType: EntryType, taken: set<string>, from: nat, skipped: set<string>)
    returns (counter: nat)
    requires from >= 2 && skipped <= taken
    requires forall k :: 2 <= k < from ==> Variant(name, entryType, k) in skipped
    requires forall c <- skipped :: exists k :: 2 <= k < from && c == Variant(name, entryType, k)
    ensures FirstFree(name, entryType, taken, counter)
    decreases taken - skipped
  {
    counter := from;
    var variant := Variant(name, entryType, from);
    if variant in taken {
      forall k | 2 <= k < from
        ensures Variant(name, entryType, k) != variant
      {
        VariantInjective(name, entryType, k, from);
      }
      assert variant !in skipped;
      assert variant in taken - skipped;
      counter := SkipTaken(name, entryType, taken, from + 1, skipped + {variant});
    }
  }

  lemma VariantInjective(name: string, entryType: EntryType, a: nat, b: nat)
    ensures Variant(name, entryType, a) == Variant(name, entryType, b) ==> a == b
  {
    var n := StemLength(name, entryType);
    if Variant(name, entryType, a) == Variant(name, entryType, b) {
      CandidateInjective(name[..n], name[n..], a, b);
    }
  }

  /** The suggestion as a function of its arguments. */
  ghost function FreeVariant(name: string, entryType: EntryType, taken: set<string>): (variant: string)
    ensures variant !in taken
    ensures exists counter :: FirstFree(name, entryType, taken, counter) && variant == Variant(name, entryType, counter)
  {
    VariantFree(name, entryType, taken);
    var counter: nat :| FirstFree(name, entryType, taken, counter);
    Variant(name, entryType, counter)
  }

  // ---------------------------------------------------------------- what a variant keeps

  /** A variant of a valid name is a valid name, with no space at either end. */
  lemma VariantValid(name: string, entryType: EntryType, counter: nat)
    requires PlainComponent(name) && TrimStable(name)
    ensures PlainComponent(Variant(name, entryType, counter)) && TrimStable(Variant(name, entryType, counter))
  {
    var n := StemLength(name, entryType);
    var stem, middle, extension := name[..n], Decimal(counter), name[n..];
    var variant := Variant(name, entryType, counter);
    assert variant == stem + "_" + middle + extension;
    assert variant[0] == name[0] && variant[n] == '_';
    assert forall c <- middle :: c != SLASH && !IsSpace(c);
    assert SLASH !in stem && SLASH !in extension;
    var last := variant[|variant| - 1];
    assert last == if extension == "" then middle[|middle| - 1] else name[|name| - 1];
    assert middle[|middle| - 1] in middle;
  }
}

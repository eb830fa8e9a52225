/**
 * The 512-byte header of a tar member, as `archive.rs` fills it and reads it back.
 *
 * Field positions and the octal field syntax are those of the ustar Interchange Format in the
 * pax section of IEEE Std 1003.1; sizes that do not fit eleven octal digits use the GNU
 * base-256 form, and names longer than the name field use a GNU `L` record.
 */
module TarFormat {
  import opened Common

  const BLOCK := 512
  const NAME_FIELD := 100
  const DIRECTORY_FLAG: byte := 53   // '5'
  const REGULAR_FLAG: byte := 48     // '0'
  const LONG_NAME_FLAG: byte := 76   // 'L'
  const U64_LIMIT := 0x1_0000_0000_0000_0000
  const EXTENDED_SIZE_LIMIT := 0x2_0000_0000 // 8 GiB, the first size eleven octal digits cannot hold

  // ---------------------------------------------------------------- positional numbers

  function Pow(base: nat, width: nat): nat {
    if width == 0 then 1 else base * Pow(base, width - 1)
  }

  /** Quotient and remainder, so that no proof below sees a division by a variable. */
  function DivMod(n: nat, base: nat): (r: (nat, nat))
    requires base > 0
    ensures r.0 * base + r.1 == n && r.1 < base
  {
    (n / base, n % base)
  }

  /** The last `width` digits of `n`, most significant first. */
  function Digits(n: nat, base: nat, width: nat): (ds: seq<nat>)
    requires base > 0
    ensures |ds| == width
    ensures forall i :: 0 <= i < width ==> ds[i] < base
    decreases width
  {
    if width == 0 then []
    else
      var (rest, digit) := DivMod(n, base);
      Digits(rest, base, width - 1) + [digit]
  }

  function ValueOf(ds: seq<nat>, base: nat): nat {
    if ds == [] then 0 else ValueOf(ds[..|ds| - 1], base) * base + ds[|ds| - 1]
  }

  lemma {:induction false} DigitsRoundTrip(n: nat, base: nat, width: nat)
    requires base > 0 && n < Pow(base, width)
    ensures ValueOf(Digits(n, base, width), base) == n
    decreases width
  {
    if width > 0 {
      var (rest, digit) := DivMod(n, base);
      QuotientBound(n, base, Pow(base, width - 1), rest, digit);
      DigitsRoundTrip(rest, base, width - 1);
      var ds := Digits(n, base, width);
      assert ds[..|ds| - 1] == Digits(rest, base, width - 1);
    }
  }

  lemma QuotientBound(n: nat, base: nat, limit: nat, rest: nat, digit: nat)
    requires n < base * limit && rest * base + digit == n
    ensures rest < limit
  {
    if rest >= limit {
      MulMonotonic(base, limit, rest);
    }
  }

  lemma MulMonotonic(k: nat, a: nat, b: nat)
    requires a <= b
    ensures k * a <= k * b
  {
  }

  // ---------------------------------------------------------------- numeric fields

  /** An octal field: the digits fill all but the last byte, which stays NUL. */
  function OctalField(n: nat, width: nat): (f: seq<byte>)
    requires width > 0
    ensures |f| == width
  {
    var ds := Digits(n, 8, width - 1);
    seq(width - 1, i requires 0 <= i < width - 1 => (ds[i] + 48) as byte) + [0]
  }

  /** The bytes before the first NUL. */
  function Truncate(s: seq<byte>): (t: seq<byte>)
    ensures |t| <= |s| && t == s[..|t|] && 0 !in t
    ensures |t| < |s| ==> s[|t|] == 0
  {
    if s == [] || s[0] == 0 then [] else [s[0]] + Truncate(s[1..])
  }

  function TrimSpaces(s: seq<byte>): seq<byte> {
    if s != [] && s[0] == 32 then TrimSpaces(s[1..])
    else if s != [] && s[|s| - 1] == 32 then TrimSpaces(s[..|s| - 1])
    else s
  }

  predicate OctalDigit(b: byte) { 48 <= b <= 55 }

  function OctalValue(s: seq<byte>): Option<nat> {
    var t := TrimSpaces(Truncate(s));
    if t == [] || exists i :: 0 <= i < |t| && !OctalDigit(t[i]) then None
    else
      assert forall i :: 0 <= i < |t| ==> OctalDigit(t[i]);
      var v := ValueOf(seq(|t|, i requires 0 <= i < |t| => t[i] - 48), 8);
      if v < U64_LIMIT then Some(v) else None
  }

  lemma OctalFieldDigits(n: nat, width: nat)
    requires width > 1
    ensures Truncate(OctalField(n, width)) == OctalField(n, width)[..width - 1]
    ensures TrimSpaces(OctalField(n, width)[..width - 1]) == OctalField(n, width)[..width - 1]
  {
    var f := OctalField(n, width);
    var t := Truncate(f);
    assert forall i :: 0 <= i < width - 1 ==> f[i] >= 48;
    assert f[width - 1] == 0;
    assert 0 in f && (|t| == width ==> t == f);
  }

  lemma OctalRoundTrip(n: nat, width: nat)
    requires width > 1 && n < Pow(8, width - 1) && n < U64_LIMIT
    ensures OctalValue(OctalField(n, width)) == Some(n)
  {
    OctalFieldDigits(n, width);
    DigitsRoundTrip(n, 8, width - 1);
    var t := OctalField(n, width)[..width - 1];
    assert forall i :: 0 <= i < |t| ==> OctalDigit(t[i]);
    assert seq(|t|, i requires 0 <= i < |t| => t[i] - 48) == Digits(n, 8, width - 1);
  }

  /** The size field: octal while it fits, otherwise eight big-endian octets behind a marker. */
  function SizeField(n: nat): (f: seq<byte>)
    requires n < U64_LIMIT
    ensures |f| == 12
  {
    if n < EXTENDED_SIZE_LIMIT then OctalField(n, 12)
    else
      var ds := Digits(n, 256, 8);
      [128, 0, 0, 0] + seq(8, i requires 0 <= i < 8 => ds[i] as byte)
  }

  function SizeValue(f: seq<byte>): Option<nat>
    requires |f| == 12
  {
    if f[0] >= 128 then Some(ValueOf(f[4..], 256)) else OctalValue(f)
  }

  lemma SizeRoundTrip(n: nat)
    requires n < U64_LIMIT
    ensures SizeValue(SizeField(n)) == Some(n)
  {
    if n < EXTENDED_SIZE_LIMIT {
      OctalSizeRoundTrip(n);
    } else {
      ExtendedSizeRoundTrip(n);
    }
  }

  lemma OctalSizeRoundTrip(n: nat)
    requires n < EXTENDED_SIZE_LIMIT
    ensures SizeValue(OctalField(n, 12)) == Some(n)
  {
    PowerOfEight();
    OctalRoundTrip(n, 12);
    assert OctalField(n, 12)[0] < 56;
  }

  lemma ExtendedSizeRoundTrip(n: nat)
    requires EXTENDED_SIZE_LIMIT <= n < U64_LIMIT
    ensures SizeValue(SizeField(n)) == Some(n)
  {
    PowerOf256();
    DigitsRoundTrip(n, 256, 8);
    assert SizeField(n)[4..] == Digits(n, 256, 8);
  }

  lemma PowerOfEight()
    ensures Pow(8, 11) == EXTENDED_SIZE_LIMIT && Pow(8, 7) == 0x20_0000
  {
    assert Pow(8, 3) == 512;
    assert Pow(8, 5) == 8 * (8 * Pow(8, 3));
    assert Pow(8, 7) == 8 * (8 * Pow(8, 5));
    assert Pow(8, 9) == 8 * (8 * Pow(8, 7));
    assert Pow(8, 11) == 8 * (8 * Pow(8, 9));
  }

  lemma PowerOf256()
    ensures Pow(256, 8) == U64_LIMIT
  {
    assert Pow(256, 2) == 0x1_0000;
    assert Pow(256, 4) == 256 * (256 * Pow(256, 2));
    assert Pow(256, 6) == 256 * (256 * Pow(256, 4));
    assert Pow(256, 8) == 256 * (256 * Pow(256, 6));
  }

  // ---------------------------------------------------------------- header blocks

  function Sum(s: seq<byte>): nat {
    if s == [] then 0 else s[0] + Sum(s[1..])
  }

  /** The sum of all header bytes with the checksum field counted as eight spaces. */
  function Checksum(block: seq<byte>): nat
    requires |block| == BLOCK
  {
    Sum(block[..148]) + 8 * 32 + Sum(block[156..])
  }

  function ChecksumField(block: seq<byte>): seq<byte>
    requires |block| == BLOCK
  {
    block[148..156]
  }

  /** The checksum test of `extract`: the field parses and equals the sum. */
  predicate ChecksumMatches(block: seq<byte>)
    requires |block| == BLOCK
  {
    OctalValue(ChecksumField(block)) == Some(Checksum(block))
  }

  function HeaderName(block: seq<byte>): seq<byte>
    requires |block| == BLOCK
  {
    Truncate(block[..100])
  }

  function HeaderMode(block: seq<byte>): Option<nat>
    requires |block| == BLOCK
  {
    OctalValue(block[100..108])
  }

  function HeaderSize(block: seq<byte>): Option<nat>
    requires |block| == BLOCK
  {
    SizeValue(block[124..136])
  }

  function HeaderFlag(block: seq<byte>): byte
    requires |block| == BLOCK
  {
    block[156]
  }

  /** What `extract` reads out of a header it accepts. */
  ghost predicate Describes(block: seq<byte>, name: seq<byte>, mode: Option<nat>, size: nat, flag: byte)
  {
    && |block| == BLOCK
    && block != Zeros(BLOCK)
    && ChecksumMatches(block)
    && HeaderName(block) == name
    && HeaderMode(block) == mode
    && HeaderSize(block) == Some(size)
    && HeaderFlag(block) == flag
  }

  // ---------------------------------------------------------------- building a header

  /** The bytes before the checksum field: name, mode, owner ids, size, modification time. */
  function HeaderFront(name: seq<byte>, modeField: seq<byte>, size: nat, mtime: nat): (f: seq<byte>)
    requires |name| <= NAME_FIELD && |modeField| == 8 && size < U64_LIMIT && mtime < U64_LIMIT
    ensures |f| == 148
  {
    name + Zeros(NAME_FIELD - |name|) + modeField + Zeros(16) + SizeField(size) + SizeField(mtime)
  }

  const GNU_MAGIC: seq<byte> := [117, 115, 116, 97, 114, 32, 32, 0] // "ustar  \0"

  /** The bytes behind the checksum field: typeflag, link name, magic and unused space. */
  function HeaderBack(flag: byte): (b: seq<byte>)
    ensures |b| == 356 && b[0] == flag
  {
    [flag] + Zeros(100) + GNU_MAGIC + Zeros(247)
  }

  /** `set_cksum`: sums the header around the field, then fills the field. */
  function Seal(front: seq<byte>, back: seq<byte>): (block: seq<byte>)
    requires |front| == 148 && |back| == 356
    ensures |block| == BLOCK
  {
    front + OctalField(Sum(front) + 8 * 32 + Sum(back), 8) + back
  }

  lemma {:induction false} SumBound(s: seq<byte>)
    ensures Sum(s) <= 255 * |s|
  {
    if s != [] {
      SumBound(s[1..]);
    }
  }

  lemma SealMatches(front: seq<byte>, back: seq<byte>)
    requires |front| == 148 && |back| == 356
    ensures ChecksumMatches(Seal(front, back))
    ensures Seal(front, back) != Zeros(BLOCK)
  {
    hide Digits, OctalField;
    var sum := Sum(front) + 8 * 32 + Sum(back);
    var field := OctalField(sum, 8);
    var block := Seal(front, back);
    SumBound(front);
    SumBound(back);
    PowerOfEight();
    OctalRoundTrip(sum, 8);
    assert block[..148] == front && block[156..] == back && block[148..156] == field;
    ParsedFieldStartsNonZero(field);
    assert block[148] == field[0];
  }

  lemma {:induction false} TruncatePadded(name: seq<byte>, n: nat)
    requires 0 !in name
    ensures Truncate(name + Zeros(n)) == name
  {
    if name == [] {
      assert name + Zeros(n) == Zeros(n);
    } else {
      TruncatePadded(name[1..], n);
      assert (name + Zeros(n))[1..] == name[1..] + Zeros(n);
    }
  }

  /** A sealed header reads back exactly as it was filled. */
  lemma SealedHeaderDescribes(name: seq<byte>, modeField: seq<byte>, size: nat, mtime: nat, flag: byte)
    requires |name| <= NAME_FIELD && 0 !in name && |modeField| == 8 && size < U64_LIMIT && mtime < U64_LIMIT
    ensures Describes(Seal(HeaderFront(name, modeField, size, mtime), HeaderBack(flag)),
                      name, OctalValue(modeField), size, flag)
  {
    hide OctalValue, SizeValue, SizeField, Truncate, Zeros;
    var front := HeaderFront(name, modeField, size, mtime);
    var block := Seal(front, HeaderBack(flag));
    SealMatches(front, HeaderBack(flag));
    FrontFields(name, modeField, size, mtime);
    assert block[..100] == front[..100] && block[100..108] == front[100..108] && block[124..136] == front[124..136];
    assert block[156] == HeaderBack(flag)[0];
  }

  lemma FrontFields(name: seq<byte>, modeField: seq<byte>, size: nat, mtime: nat)
    requires |name| <= NAME_FIELD && 0 !in name && |modeField| == 8 && size < U64_LIMIT && mtime < U64_LIMIT
    ensures var front := HeaderFront(name, modeField, size, mtime);
      Truncate(front[..100]) == name && front[100..108] == modeField && SizeValue(front[124..136]) == Some(size)
  {
    hide SizeValue;
    var front := HeaderFront(name, modeField, size, mtime);
    TruncatePadded(name, NAME_FIELD - |name|);
    SizeRoundTrip(size);
    assert front[..100] == name + Zeros(NAME_FIELD - |name|);
    assert front[124..136] == SizeField(size);
  }

  lemma {:induction false} SumUpdate(s: seq<byte>, i: nat, v: byte)
    requires i < |s|
    ensures Sum(s[i := v]) == Sum(s) - s[i] + v
  {
    if i > 0 {
      SumUpdate(s[1..], i - 1, v);
      assert s[i := v][1..] == s[1..][i - 1 := v];
    } else {
      assert s[i := v][1..] == s[1..];
    }
  }

  /** Any change of one header byte outside the checksum field is noticed. */
  lemma SingleByteCorruptionDetected(block: seq<byte>, i: nat, v: byte)
    requires |block| == BLOCK && ChecksumMatches(block)
    requires i < BLOCK && !(148 <= i < 156) && v != block[i]
    ensures !ChecksumMatches(block[i := v])
    ensures block[i := v] != Zeros(BLOCK)
  {
    var changed := block[i := v];
    if i < 148 {
      SumUpdate(block[..148], i, v);
      assert changed[..148] == block[..148][i := v];
      assert changed[156..] == block[156..];
    } else {
      SumUpdate(block[156..], i - 156, v);
      assert changed[..148] == block[..148];
      assert changed[156..] == block[156..][i - 156 := v];
    }
    assert ChecksumField(changed) == ChecksumField(block);
    ParsedFieldStartsNonZero(ChecksumField(block));
    assert changed[148] == block[148] != 0;
  }

  lemma ParsedFieldStartsNonZero(f: seq<byte>)
    requires OctalValue(f).Some?
    ensures f != [] && f[0] != 0
  {
  }
}

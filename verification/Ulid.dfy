/** Event identities: the base-32 encoding of 128 bits and the monotonic generator. */
module Ulid {
  import opened Lines
  import opened Values

  const ALPHABET: string := "0123456789ABCDEFGHJKMNPQRSTVWXYZ"

  // ---------------------------------------------------------------------------
  // Numbers, digits, strings
  // ---------------------------------------------------------------------------

  /** Big-endian value of bytes. */
  function BytesValue(b: Bytes): nat {
    if b == [] then 0 else BytesValue(b[..|b| - 1]) * 256 + b[|b| - 1] as int
  }

  predicate Digits(ds: seq<nat>) {
    forall i :: 0 <= i < |ds| ==> ds[i] < 32
  }

  function DigitsValue(ds: seq<nat>): nat {
    if ds == [] then 0 else DigitsValue(ds[..|ds| - 1]) * 32 + ds[|ds| - 1]
  }

  /** The last `n` base-32 digits of a number. */
  function ToDigits(v: nat, n: nat): (ds: seq<nat>)
    ensures |ds| == n && Digits(ds)
  {
    if n == 0 then [] else ToDigits(v / 32, n - 1) + [v % 32]
  }

  function Spell(ds: seq<nat>): (s: string)
    requires Digits(ds)
    ensures |s| == |ds| && forall i :: 0 <= i < |s| ==> s[i] == ALPHABET[ds[i]]
  {
    if ds == [] then "" else Spell(ds[..|ds| - 1]) + [ALPHABET[ds[|ds| - 1]]]
  }

  /** The 26 characters of 16 bytes. */
  function Encoded(b: Bytes): string {
    Spell(ToDigits(BytesValue(b), 26))
  }

  function DigitOf(c: char, n: nat): nat
    requires n <= 32
  {
    if n == 0 then 0 else if ALPHABET[n - 1] == c then n - 1 else DigitOf(c, n - 1)
  }

  function ReadDigits(s: string): (ds: seq<nat>)
    ensures |ds| == |s|
  {
    if s == "" then [] else ReadDigits(s[..|s| - 1]) + [DigitOf(s[|s| - 1], 32)]
  }

  function ToBytes(v: nat, n: nat): (b: Bytes)
    ensures |b| == n
  {
    if n == 0 then [] else ToBytes(v / 256, n - 1) + [(v % 256) as byte]
  }

  /** Reads an encoded identity back into bytes. */
  function Decoded(s: string): Bytes {
    ToBytes(DigitsValue(ReadDigits(s)), 16)
  }

  function Pow(base: nat, n: nat): nat {
    if n == 0 then 1 else Pow(base, n - 1) * base
  }

  // ---------------------------------------------------------------------------
  // The encoder
  // ---------------------------------------------------------------------------

  /** Packs bytes into five-bit groups from the top, two zero bits in front. Shifts and
      masks appear as division and remainder by powers of two; `acc` never needs more than
      twelve bits. */
  method Encode(b: Bytes) returns (id: string)
    requires |b| == 16
    ensures id == Encoded(b)
  {
    hide Pow, DigitsValue, BytesValue, Encoded;
    var out := new char[26](_ => '0');
    ghost var ds: seq<nat> := [];
    var acc, bits, pos := 0, 2, 0;
    Empty(b);
    for i := 0 to 16
      invariant 0 <= bits < 5 && pos == |ds| && 5 * pos + bits == 8 * i + 2
      invariant 0 <= acc < Pow(2, bits)
      invariant Digits(ds) && forall j :: 0 <= j < pos ==> out[j] == ALPHABET[ds[j]]
      invariant DigitsValue(ds) * Pow(2, bits) + acc == BytesValue(b[..i])
    {
      TakeByte(DigitsValue(ds), b, i, acc, bits);
      acc := acc * 256 + b[i] as int;
      assert acc < 4096;
      bits := bits + 8;
      while bits >= 5
        invariant 0 <= bits <= 12 && pos == |ds| && 5 * pos + bits == 8 * (i + 1) + 2
        invariant 0 <= acc < Pow(2, bits)
        invariant Digits(ds) && forall j :: 0 <= j < pos ==> out[j] == ALPHABET[ds[j]]
        invariant DigitsValue(ds) * Pow(2, bits) + acc == BytesValue(b[..i + 1])
        decreases bits
      {
        bits := bits - 5;
        GiveDigit(ds, acc, bits);
        var unit := Pow(2, bits);
        var digit := acc / unit % 32;
        out[pos] := ALPHABET[digit];
        ds := ds + [digit];
        pos := pos + 1;
        acc := acc % unit;
      }
    }
    SmallPowers();
    Complete(b, ds);
    id := out[..];
  }

  lemma Empty(b: Bytes)
    ensures DigitsValue([]) == 0 && BytesValue(b[..0]) == 0 && 0 < Pow(2, 2)
  {
  }

  lemma Complete(b: Bytes, ds: seq<nat>)
    requires |b| == 16 && Digits(ds) && |ds| == 26 && DigitsValue(ds) == BytesValue(b[..16])
    ensures Encoded(b) == Spell(ds)
  {
    hide ToDigits, BytesValue, DigitsValue, Spell;
    assert b[..16] == b;
    DigitsAreUnique(ds);
  }

  lemma SmallPowers()
    ensures Pow(2, 0) == 1 && Pow(2, 1) == 2 && Pow(2, 2) == 4 && Pow(2, 3) == 8 && Pow(2, 4) == 16
    ensures Pow(2, 5) == 32 && Pow(2, 8) == 256
  {
    assert Pow(2, 3) == Pow(2, 2) * 2;
    assert Pow(2, 5) == Pow(2, 4) * 2 && Pow(2, 6) == Pow(2, 5) * 2 && Pow(2, 7) == Pow(2, 6) * 2;
  }

  lemma {:induction false} PowSum(base: nat, m: nat, n: nat)
    ensures Pow(base, m + n) == Pow(base, m) * Pow(base, n)
  {
    if n > 0 {
      PowSum(base, m, n - 1);
      Regroup(Pow(base, m), Pow(base, n - 1), base);
    }
  }

  lemma Regroup(x: int, y: int, z: int)
    ensures (x * y) * z == x * (y * z)
  {
  }

  lemma TakeByte(value: nat, b: Bytes, i: nat, acc: nat, bits: nat)
    requires i < |b| && bits < 5 && acc < Pow(2, bits)
    requires value * Pow(2, bits) + acc == BytesValue(b[..i])
    ensures value * Pow(2, bits + 8) + (acc * 256 + b[i] as int) == BytesValue(b[..i + 1])
    ensures acc * 256 + b[i] as int < Pow(2, bits + 8) <= 4096
  {
    SmallPowers();
    PowSum(2, bits, 8);
    Regroup(value, Pow(2, bits), 256);
    assert b[..i + 1][..i] == b[..i];
  }

  lemma GiveDigit(ds: seq<nat>, acc: nat, bits: nat)
    requires acc < Pow(2, bits + 5)
    ensures Pow(2, bits) > 0
    ensures
      var unit := Pow(2, bits);
      var digit := acc / unit % 32;
      && 0 <= acc % unit < unit
      && DigitsValue(ds + [digit]) * unit + acc % unit == DigitsValue(ds) * Pow(2, bits + 5) + acc
  {
    SmallPowers();
    PowSum(2, bits, 5);
    PowPositive(2, bits);
    var unit := Pow(2, bits);
    DivisionFacts(acc, unit);
    var value, digit := DigitsValue(ds), acc / unit;
    assert (ds + [digit])[..|ds|] == ds;
    Expand(value * 32, digit, unit);
    Regroup(value, 32, unit);
    Swap(32, unit);
  }

  lemma PowPositive(base: nat, n: nat)
    requires base > 0
    ensures Pow(base, n) > 0
  {
  }

  lemma DivisionFacts(acc: nat, unit: nat)
    requires unit > 0 && acc < unit * 32
    ensures 0 <= acc / unit < 32 && acc / unit * unit + acc % unit == acc && 0 <= acc % unit < unit
  {
  }

  lemma Expand(x: int, y: int, z: int)
    ensures (x + y) * z == x * z + y * z
  {
  }

  lemma Swap(x: int, y: int)
    ensures x * y == y * x
  {
  }

  // ---------------------------------------------------------------------------
  // Decoding and order
  // ---------------------------------------------------------------------------

  lemma {:induction false} DigitsAreUnique(ds: seq<nat>)
    requires Digits(ds)
    ensures ToDigits(DigitsValue(ds), |ds|) == ds
  {
    if ds != [] {
      var init := ds[..|ds| - 1];
      DigitsAreUnique(init);
      assert DigitsValue(ds) / 32 == DigitsValue(init) && DigitsValue(ds) % 32 == ds[|ds| - 1];
    }
  }

  lemma {:induction false} DigitsHoldValue(v: nat, n: nat)
    requires v < Pow(32, n)
    ensures DigitsValue(ToDigits(v, n)) == v
  {
    if n > 0 {
      DigitsHoldValue(v / 32, n - 1);
      assert ToDigits(v, n)[..n - 1] == ToDigits(v / 32, n - 1);
    }
  }

  lemma {:induction false} BytesHoldValue(b: Bytes)
    ensures BytesValue(b) < Pow(256, |b|)
    ensures ToBytes(BytesValue(b), |b|) == b
  {
    if b != [] {
      var init := b[..|b| - 1];
      BytesHoldValue(init);
      assert BytesValue(b) / 256 == BytesValue(init);
    }
  }

  /** Sixteen bytes fit in 26 digits. */
  lemma SixteenBytesFit()
    ensures Pow(256, 16) < Pow(32, 26)
  {
    assert Pow(256, 4) == 0x1_0000_0000 by {
      assert Pow(256, 1) == 256 && Pow(256, 2) == 65536 && Pow(256, 3) == 16777216;
    }
    PowSum(256, 4, 4);
    PowSum(256, 8, 8);
    assert Pow(32, 4) == 1048576 by {
      assert Pow(32, 1) == 32 && Pow(32, 2) == 1024 && Pow(32, 3) == 32768;
    }
    PowSum(32, 4, 4);
    PowSum(32, 8, 8);
    PowSum(32, 16, 8);
    PowSum(32, 24, 2);
    assert Pow(32, 2) == Pow(32, 1) * 32;
  }

  lemma DigitsAscend(j: nat)
    requires 1 <= j < 10
    ensures ALPHABET[j - 1] < ALPHABET[j]
  {
  }

  lemma ToHAscend(j: nat)
    requires 10 <= j < 18
    ensures ALPHABET[j - 1] < ALPHABET[j]
  {
  }

  lemma FromJAscend(j: nat)
    requires 18 <= j < 32
    ensures ALPHABET[j - 1] < ALPHABET[j]
  {
  }

  lemma {:induction false} AlphabetAscends(i: nat, j: nat)
    requires i < j < 32
    ensures ALPHABET[i] < ALPHABET[j]
  {
    if i + 1 < j { AlphabetAscends(i, j - 1); }
    if j < 10 { DigitsAscend(j); } else if j < 18 { ToHAscend(j); } else { FromJAscend(j); }
  }

  lemma {:induction false} DigitReadsBack(d: nat, n: nat)
    requires d < n <= 32
    ensures DigitOf(ALPHABET[d], n) == d
  {
    if d < n - 1 {
      AlphabetAscends(d, n - 1);
      DigitReadsBack(d, n - 1);
    }
  }

  lemma ReadAppend(s: string, x: char)
    ensures ReadDigits(s + [x]) == ReadDigits(s) + [DigitOf(x, 32)]
  {
    hide DigitOf;
    assert (s + [x])[..|s|] == s;
  }

  lemma {:induction false} SpellingReadsBack(ds: seq<nat>)
    requires Digits(ds)
    ensures ReadDigits(Spell(ds)) == ds
  {
    if ds != [] {
      hide DigitOf;
      var init, last := ds[..|ds| - 1], ds[|ds| - 1];
      SpellingReadsBack(init);
      DigitReadsBack(last, 32);
      ReadAppend(Spell(init), ALPHABET[last]);
      assert ds == init + [last];
    }
  }

  /** Encoding loses nothing. */
  lemma EncodingDecodes(b: Bytes)
    requires |b| == 16
    ensures Decoded(Encoded(b)) == b
  {
    BytesHoldValue(b);
    SixteenBytesFit();
    SpellingReadsBack(ToDigits(BytesValue(b), 26));
    DigitsHoldValue(BytesValue(b), 26);
  }

  lemma {:induction false} LessByLast(a: string, b: string, x: char, y: char)
    requires |a| == |b|
    ensures Less(a + [x], b + [y]) <==> Less(a, b) || (a == b && x < y)
  {
    if a != "" {
      assert (a + [x])[1..] == a[1..] + [x] && (b + [y])[1..] == b[1..] + [y];
      LessByLast(a[1..], b[1..], x, y);
      assert a == [a[0]] + a[1..] && b == [b[0]] + b[1..];
    }
  }

  /** For spellings of the same length, the string order is the numeric order. */
  lemma {:induction false} SpellingKeepsOrder(a: seq<nat>, b: seq<nat>)
    requires Digits(a) && Digits(b) && |a| == |b|
    ensures Less(Spell(a), Spell(b)) <==> DigitsValue(a) < DigitsValue(b)
    ensures Spell(a) == Spell(b) <==> DigitsValue(a) == DigitsValue(b)
  {
    if a != [] {
      var a0, b0, x, y := a[..|a| - 1], b[..|b| - 1], a[|a| - 1], b[|b| - 1];
      SpellingKeepsOrder(a0, b0);
      LessByLast(Spell(a0), Spell(b0), ALPHABET[x], ALPHABET[y]);
      if x < y { AlphabetAscends(x, y); }
      if y < x { AlphabetAscends(y, x); }
      SnocEquality(Spell(a0), Spell(b0), ALPHABET[x], ALPHABET[y]);
    }
  }

  lemma SnocEquality(a: string, b: string, x: char, y: char)
    requires |a| == |b|
    ensures a + [x] == b + [y] <==> a == b && x == y
  {
    if a + [x] == b + [y] {
      assert a == (a + [x])[..|a|] && b == (b + [y])[..|b|];
      assert (a + [x])[|a|] == x && (b + [y])[|b|] == y;
    }
  }

  /** The order of identities is the order of their 128 bits. */
  lemma EncodingKeepsOrder(a: Bytes, b: Bytes)
    requires |a| == 16 && |b| == 16
    ensures Less(Encoded(a), Encoded(b)) <==> BytesValue(a) < BytesValue(b)
  {
    BytesHoldValue(a);
    BytesHoldValue(b);
    SixteenBytesFit();
    DigitsHoldValue(BytesValue(a), 26);
    DigitsHoldValue(BytesValue(b), 26);
    SpellingKeepsOrder(ToDigits(BytesValue(a), 26), ToDigits(BytesValue(b), 26));
  }

  // ---------------------------------------------------------------------------
  // The generator
  // ---------------------------------------------------------------------------

  /** The low six bytes of a millisecond count, high byte first. */
  function MsBytes(ms: nat): (b: Bytes)
    ensures |b| == 6
  {
    ToBytes(ms, 6)
  }

  /** One more, as a big-endian counter that wraps. */
  function Incremented(r: Bytes): (s: Bytes)
    ensures |s| == |r|
  {
    if r == [] then []
    else if r[|r| - 1] == 255 then Incremented(r[..|r| - 1]) + [0]
    else r[..|r| - 1] + [r[|r| - 1] + 1]
  }

  predicate AllOnes(r: Bytes) {
    forall i :: 0 <= i < |r| ==> r[i] == 255
  }

  datatype Clock = Clock(ms: nat, rand: Bytes)

  /** The low byte of a number shifted right by whole bytes. */
  function ShiftedByte(v: nat, bytes: nat): byte {
    PowPositive(256, bytes);
    (v / Pow(256, bytes) % 256) as byte
  }

  /** The six shifts, high byte first. */
  function ShiftedBytes(ms: nat): Bytes {
    [ShiftedByte(ms, 5), ShiftedByte(ms, 4), ShiftedByte(ms, 3),
     ShiftedByte(ms, 2), ShiftedByte(ms, 1), ShiftedByte(ms, 0)]
  }

  /** The random part a failing random source leaves: bytes of the time, over and over. */
  function FallbackRand(ms: nat, n: nat): (b: Bytes)
    ensures |b| == n && forall i :: 0 <= i < n ==> b[i] == ShiftedByte(ms, i % 8)
  {
    if n == 0 then [] else FallbackRand(ms, n - 1) + [ShiftedByte(ms, (n - 1) % 8)]
  }

  /** The generator's state after a call; `entropy` is what the random source would give, if
      it does not fail. */
  function Ticked(c: Clock, ms: nat, entropy: Option<Bytes>): Clock {
    Clock(ms, if ms == c.ms then Incremented(c.rand) else if entropy.Some? then entropy.value else FallbackRand(ms, 10))
  }

  predicate Drawn(entropy: Option<Bytes>) {
    entropy.Some? ==> |entropy.value| == 10
  }

  function Identity(c: Clock): string {
    Encoded(MsBytes(c.ms) + c.rand)
  }

  class Generator {
    var lastMs: nat
    const lastRand: array<byte>

    constructor ()
      ensures lastMs == 0 && lastRand.Length == 10 && fresh(lastRand)
      ensures forall i :: 0 <= i < 10 ==> lastRand[i] == 0
    {
      lastMs := 0;
      lastRand := new byte[10](_ => 0);
    }

    method NewAt(ms: nat, entropy: Option<Bytes>) returns (id: string)
      requires lastRand.Length == 10 && Drawn(entropy)
      modifies this, lastRand
      ensures Clock(lastMs, lastRand[..]) == Ticked(old(Clock(lastMs, lastRand[..])), ms, entropy)
      ensures id == Identity(Clock(lastMs, lastRand[..]))
    {
      hide Encoded, MsBytes, ShiftedByte;
      if ms == lastMs {
        Increment();
      } else {
        lastMs := ms;
        Draw(ms, entropy);
      }
      ShiftsAreBytes(ms);
      var head := ShiftedBytes(ms);
      id := Encode(head + lastRand[..]);
    }

    /** Takes the random part from the source or, should that fail, from the time. */
    method Draw(ms: nat, entropy: Option<Bytes>)
      requires lastRand.Length == 10 && Drawn(entropy)
      modifies lastRand
      ensures lastRand[..] == if entropy.Some? then entropy.value else FallbackRand(ms, 10)
    {
      hide FallbackRand, ShiftedByte;
      for i := 0 to 10
        invariant forall k :: 0 <= k < i ==>
          lastRand[k] == if entropy.Some? then entropy.value[k] else ShiftedByte(ms, k % 8)
      {
        lastRand[i] := if entropy.Some? then entropy.value[i] else ShiftedByte(ms, i % 8);
      }
    }

    /** Adds one to the random part, carrying from the last byte up. */
    method Increment()
      requires lastRand.Length == 10
      modifies lastRand
      ensures lastRand[..] == Incremented(old(lastRand[..]))
    {
      hide Incremented;
      ghost var was := lastRand[..];
      var i := 9;
      assert was[..10] == was && lastRand[10..] == [] && Incremented(was) + [] == Incremented(was);
      while i >= 0
        invariant -1 <= i <= 9
        invariant lastRand[..i + 1] == was[..i + 1]
        invariant Incremented(was) == Incremented(was[..i + 1]) + lastRand[i + 1..]
        decreases i
      {
        ghost var low := lastRand[i + 1..];
        CarryStep(was, i, low);
        assert lastRand[i] == lastRand[..i + 1][i] == was[..i + 1][i] == was[i];
        lastRand[i] := ((lastRand[i] as int + 1) % 256) as byte;
        assert lastRand[i..] == [lastRand[i]] + low && lastRand[..i] == was[..i];
        assert lastRand[..] == lastRand[..i] + lastRand[i..];
        if lastRand[i] != 0 {
          return;
        }
        i := i - 1;
      }
      assert lastRand[..] == lastRand[0..];
    }
  }

  lemma {:induction false} CarryStep(was: Bytes, i: nat, low: Bytes)
    requires i < |was| && Incremented(was) == Incremented(was[..i + 1]) + low
    ensures was[i] == 255 ==> Incremented(was) == Incremented(was[..i]) + ([0] + low)
    ensures was[i] != 255 ==> Incremented(was) == was[..i] + ([was[i] + 1] + low)
  {
    var front := was[..i + 1];
    assert front[..i] == was[..i] && front[i] == was[i];
  }

  lemma {:induction false} ValueOfBytes(v: nat, n: nat)
    requires v < Pow(256, n)
    ensures BytesValue(ToBytes(v, n)) == v
  {
    if n > 0 {
      ValueOfBytes(v / 256, n - 1);
      assert ToBytes(v, n)[..n - 1] == ToBytes(v / 256, n - 1);
    }
  }

  lemma MsBytesHold(ms: nat)
    requires ms < 0x1_0000_0000_0000
    ensures BytesValue(MsBytes(ms)) == ms
  {
    assert Pow(256, 6) == 0x1_0000_0000_0000 by {
      assert Pow(256, 1) == 256 && Pow(256, 2) == 0x1_0000 && Pow(256, 3) == 0x100_0000;
      assert Pow(256, 4) == 0x1_0000_0000 && Pow(256, 5) == 0x100_0000_0000;
    }
    hide ToBytes, BytesValue, Pow;
    ValueOfBytes(ms, 6);
  }

  lemma {:induction false} QuotientIs(v: nat, d: nat, q: nat)
    requires d > 0 && d * q <= v < d * q + d
    ensures v / d == q
  {
    Cancel(d, v / d, q);
    Cancel(d, q, v / d);
  }

  lemma {:induction false} Cancel(d: nat, a: nat, b: nat)
    requires d > 0 && d * a < d * b + d
    ensures a <= b
  {
    if a > b {
      Multiple(b + 1, a, d);
      Expand(b, 1, d);
    }
  }

  lemma Multiple(a: nat, b: nat, d: nat)
    requires a <= b
    ensures a * d <= b * d
  {
  }

  lemma {:induction false} DivideTwice(v: nat, p: nat)
    requires p > 0
    ensures v / 256 / p == v / (256 * p)
  {
    var q := v / 256;
    var r := q / p;
    assert p * r <= q < p * r + p;
    Regroup(256, p, r);
    QuotientIs(v, 256 * p, r);
  }

  /** Each byte is the number shifted right by the bytes after it. */
  lemma {:induction false} BytesAreShifts(v: nat, n: nat, k: nat)
    requires k < n
    ensures ToBytes(v, n)[k] == ShiftedByte(v, n - 1 - k)
  {
    PowPositive(256, n - 1 - k);
    if k < n - 1 {
      BytesAreShifts(v / 256, n - 1, k);
      DivideTwice(v, Pow(256, n - 2 - k));
      Swap(256, Pow(256, n - 2 - k));
    }
  }

  /** The six shifts spell the low six bytes of the time. */
  lemma ShiftsAreBytes(ms: nat)
    ensures
      ShiftedBytes(ms) == MsBytes(ms)
  {
    hide ShiftedByte, ToBytes;
    BytesAreShifts(ms, 6, 0);
    BytesAreShifts(ms, 6, 1);
    BytesAreShifts(ms, 6, 2);
    BytesAreShifts(ms, 6, 3);
    BytesAreShifts(ms, 6, 4);
    BytesAreShifts(ms, 6, 5);
  }

  lemma {:induction false} BytesConcat(a: Bytes, b: Bytes)
    ensures BytesValue(a + b) == BytesValue(a) * Pow(256, |b|) + BytesValue(b)
  {
    if b == [] {
      assert a + b == a;
    } else {
      var init := b[..|b| - 1];
      BytesConcat(a, init);
      assert (a + b)[..|a + b| - 1] == a + init;
      Expand(BytesValue(a) * Pow(256, |init|), BytesValue(init), 256);
      Regroup(BytesValue(a), Pow(256, |init|), 256);
    }
  }

  lemma ValueByLast(b: Bytes, x: byte)
    ensures BytesValue(b + [x]) == BytesValue(b) * 256 + x as int
  {
    assert (b + [x])[..|b|] == b;
  }

  /** Incrementing counts up by one, except from all ones, where it wraps to zero. */
  lemma {:induction false} IncrementCounts(r: Bytes)
    ensures BytesValue(Incremented(r)) == if AllOnes(r) then 0 else BytesValue(r) + 1
    ensures AllOnes(r) ==> BytesValue(r) + 1 == Pow(256, |r|)
  {
    if r != [] {
      hide AllOnes;
      var init, last := r[..|r| - 1], r[|r| - 1];
      IncrementCounts(init);
      if last == 255 { ValueByLast(Incremented(init), 0); } else { ValueByLast(init, last + 1); }
    }
  }

  lemma {:induction false} CompareByHigh(h0: nat, h1: nat, l0: nat, l1: nat, unit: nat)
    requires l0 < unit && l1 < unit
    ensures h0 * unit + l0 < h1 * unit + l1 <==> h0 < h1 || (h0 == h1 && l0 < l1)
  {
    if h0 < h1 { AheadByUnit(h0, h1, unit); }
    if h1 < h0 { AheadByUnit(h1, h0, unit); }
  }

  lemma {:induction false} AheadByUnit(a: nat, b: nat, unit: nat)
    requires a < b
    ensures a * unit + unit <= b * unit
  {
    Expand(a + 1, b - a - 1, unit);
    Expand(a, 1, unit);
  }

  predicate ValidClock(c: Clock) {
    c.ms < 0x1_0000_0000_0000 && |c.rand| == 10
  }

  /** Identities compare by time first, then by the random part. */
  lemma IdentityOrder(a: Clock, b: Clock)
    requires ValidClock(a) && ValidClock(b)
    ensures Less(Identity(a), Identity(b)) <==>
            a.ms < b.ms || (a.ms == b.ms && BytesValue(a.rand) < BytesValue(b.rand))
  {
    hide Encoded, Less, Pow, BytesValue, MsBytes;
    EncodingKeepsOrder(MsBytes(a.ms) + a.rand, MsBytes(b.ms) + b.rand);
    BytesConcat(MsBytes(a.ms), a.rand);
    BytesConcat(MsBytes(b.ms), b.rand);
    MsBytesHold(a.ms);
    MsBytesHold(b.ms);
    BytesHoldValue(a.rand);
    BytesHoldValue(b.rand);
    CompareByHigh(a.ms, b.ms, BytesValue(a.rand), BytesValue(b.rand), Pow(256, 10));
  }

  /** The alphabet is the digits and the capital letters but I, L, O and U, in order. */
  lemma AlphabetIs(c: char)
    ensures c in ALPHABET <==> '0' <= c <= '9' || ('A' <= c <= 'Z' && c !in {'I', 'L', 'O', 'U'})
  {
  }

  /** An identity tells the millisecond it was made in, and its random part. */
  lemma {:induction false} IdentityTells(c: Clock)
    requires ValidClock(c)
    ensures
      var b := Decoded(Identity(c));
      |b| == 16 && BytesValue(b[..6]) == c.ms && b[6..] == c.rand
  {
    hide MsBytes, Decoded, Encoded, BytesValue;
    EncodingDecodes(MsBytes(c.ms) + c.rand);
    MsBytesHold(c.ms);
  }

  /** A call gives a larger identity exactly when the clock moved on, or stood still and
      the random part had room left. */
  lemma NextIsLargerIff(c: Clock, ms: nat, entropy: Option<Bytes>)
    requires ValidClock(c) && ms < 0x1_0000_0000_0000 && Drawn(entropy)
    ensures Less(Identity(c), Identity(Ticked(c, ms, entropy))) <==>
            c.ms < ms || (c.ms == ms && !AllOnes(c.rand))
  {
    hide Identity, Less, BytesValue;
    IdentityOrder(c, Ticked(c, ms, entropy));
    IncrementCounts(c.rand);
  }

  /** After a call the identity holds its millisecond and, in the same millisecond as before,
      the random part counted up, wrapping around; in any other what the source gave or,
      should that fail, the bytes of the time over and over. */
  lemma {:induction false} IdentityIsDrawn(c: Clock, ms: nat, entropy: Option<Bytes>)
    requires ValidClock(c) && ms < 0x1_0000_0000_0000 && Drawn(entropy)
    ensures
      var b := Decoded(Identity(Ticked(c, ms, entropy)));
      && |b| == 16 && BytesValue(b[..6]) == ms
      && if ms == c.ms then BytesValue(b[6..]) == (BytesValue(c.rand) + 1) % Pow(256, 10)
         else if entropy.Some? then b[6..] == entropy.value
         else forall i :: 0 <= i < 10 ==> b[6..][i] as int == (if i % 8 < 6 then MsBytes(ms)[5 - i % 8] as int else 0)
  {
    hide Decoded, Identity, BytesValue, MsBytes, Pow, ShiftedByte, Incremented;
    IdentityTells(Ticked(c, ms, entropy));
    if ms == c.ms {
      CountsAround(c.rand);
    } else if entropy.None? {
      forall i | 0 <= i < 10
        ensures FallbackRand(ms, 10)[i] as int == (if i % 8 < 6 then MsBytes(ms)[5 - i % 8] as int else 0)
      {
        hide FallbackRand;
        FallbackByte(ms, i % 8);
      }
    }
  }

  lemma {:induction false} CountsAround(r: Bytes)
    requires |r| == 10
    ensures BytesValue(Incremented(r)) == (BytesValue(r) + 1) % Pow(256, 10)
  {
    hide Incremented, BytesValue, Pow, ToBytes, AllOnes;
    IncrementCounts(r);
    BytesHoldValue(r);
    BytesHoldValue(Incremented(r));
  }

  lemma SixBytes()
    ensures Pow(256, 6) == 0x1_0000_0000_0000
  {
    assert Pow(256, 1) == 256 && Pow(256, 2) == 0x1_0000 && Pow(256, 3) == 0x100_0000;
    assert Pow(256, 4) == 0x1_0000_0000 && Pow(256, 5) == 0x100_0000_0000;
  }

  /** The time has six bytes; the two beyond are zero. */
  lemma {:induction false} FallbackByte(ms: nat, k: nat)
    requires ms < 0x1_0000_0000_0000 && k < 8
    ensures ShiftedByte(ms, k) as int == if k < 6 then MsBytes(ms)[5 - k] as int else 0
  {
    if k < 6 {
      BytesAreShifts(ms, 6, 5 - k);
    } else {
      SixBytes();
      assert Pow(256, 7) == Pow(256, 6) * 256;
    }
  }

  /** One call, by the process of the one before or by a new one: the time and what the
      random source would give. */
  datatype Call = Call(reopened: bool, ms: nat, entropy: Option<Bytes>)

  /** The state a process starts from. */
  function NewClock(): Clock {
    Clock(0, [0, 0, 0, 0, 0, 0, 0, 0, 0, 0])
  }

  function Called(c: Clock, call: Call): Clock {
    Ticked(if call.reopened then NewClock() else c, call.ms, call.entropy)
  }

  /** Once the clock has moved on, a new process gives what the old one would have given. */
  lemma NewProcessDrawsAlike(c: Clock, call: Call)
    requires c.ms < call.ms
    ensures Called(c, call) == Ticked(c, call.ms, call.entropy)
  {
  }

  function Clocks(c: Clock, calls: seq<Call>): (cs: seq<Clock>)
    ensures |cs| == |calls|
    decreases |calls|
  {
    if calls == [] then []
    else
      var next := Called(c, calls[0]);
      [next] + Clocks(next, calls[1..])
  }

  /** The clock never goes back and stays below 2^48; it has moved on when a new process calls;
      and no millisecond exhausts the random part. */
  predicate Steady(c: Clock, calls: seq<Call>)
    decreases |calls|
  {
    calls == [] ||
    (&& c.ms <= calls[0].ms < 0x1_0000_0000_0000 && Drawn(calls[0].entropy)
     && (calls[0].ms == c.ms ==> !AllOnes(c.rand) && !calls[0].reopened)
     && Steady(Called(c, calls[0]), calls[1..]))
  }

  lemma {:induction false} IdentityTransitive(a: Clock, b: Clock, c: Clock)
    requires ValidClock(a) && ValidClock(b) && ValidClock(c)
    requires Less(Identity(a), Identity(b)) && Less(Identity(b), Identity(c))
    ensures Less(Identity(a), Identity(c))
  {
    hide Identity, Less, BytesValue;
    IdentityOrder(a, b);
    IdentityOrder(b, c);
    IdentityOrder(a, c);
  }

  lemma {:induction false} AllLarger(c: Clock, calls: seq<Call>, i: nat)
    requires ValidClock(c) && Steady(c, calls) && i < |calls|
    ensures ValidClock(Clocks(c, calls)[i]) && Less(Identity(c), Identity(Clocks(c, calls)[i]))
    decreases i
  {
    hide Identity, Less, AllOnes;
    var next := Called(c, calls[0]);
    if c.ms < calls[0].ms { NewProcessDrawsAlike(c, calls[0]); }
    NextIsLargerIff(c, calls[0].ms, calls[0].entropy);
    if i > 0 {
      AllLarger(next, calls[1..], i - 1);
      IdentityTransitive(c, next, Clocks(c, calls)[i]);
    }
  }

  /** Over any run of calls with a steady clock, by one process or by many, every later
      identity is larger. */
  lemma {:induction false} IdentitiesIncrease(c: Clock, calls: seq<Call>, i: nat, j: nat)
    requires ValidClock(c) && Steady(c, calls) && i < j < |calls|
    ensures Less(Identity(Clocks(c, calls)[i]), Identity(Clocks(c, calls)[j]))
    decreases i
  {
    hide Identity, Less, AllOnes;
    var next := Called(c, calls[0]);
    if i == 0 {
      AllLarger(next, calls[1..], j - 1);
    } else {
      IdentitiesIncrease(next, calls[1..], i - 1, j - 1);
    }
  }
}

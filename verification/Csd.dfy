/** Decoding the 128-bit card-specific data register (Csd.h; SD Physical Layer Simplified
    Specification, section 5.3). Words are integers; a shift of an unsigned word is a product or a
    quotient, cut to the word's width. */
module Csd {

  const WORD: nat := 0x1_0000_0000
  const DOUBLE: nat := 0x1_0000_0000_0000_0000

  function Pow2(n: nat): (r: nat)
    ensures r > 0
  {
    if n == 0 then 1 else 2 * Pow2(n - 1)
  }

  /** The inclusive field [hi:lo] of a value, as the datasheet numbers bits. */
  function Field(value: nat, hi: nat, lo: nat): nat
    requires lo <= hi
  {
    value / Pow2(lo) % Pow2(hi - lo + 1)
  }

  /** The bitwise or of two words that share no bit. */
  function Or(high: nat, low: nat, split: nat): nat
    requires split > 0 && high % split == 0 && low < split
  {
    high + low
  }

  // ---- the source's functions -----------------------------------------------------------------

  /** A CSD as four words, the least significant first. */
  datatype Csd128 = Csd128(w0: nat, w1: nat, w2: nat, w3: nat)

  function WordAt(csd: Csd128, i: nat): nat {
    if i == 0 then csd.w0 else if i == 1 then csd.w1 else if i == 2 then csd.w2 else if i == 3 then csd.w3 else 0
  }

  function Bits(csd: Csd128, hi: nat, lo: nat): nat
    requires lo <= hi
  {
    var width, wordLo, bitLo := hi - lo + 1, lo / 32, lo % 32;
    var low := WordAt(csd, wordLo);
    var high := if wordLo + 1 < 4 then WordAt(csd, wordLo + 1) else 0;
    var window := low + high * WORD;
    var v := window / Pow2(bitLo);
    if width >= 32 then v % WORD else v % Pow2(width)
  }

  /** The response registers hold the register without its low eight bits. */
  function R2(value: nat, i: nat): nat { value / 256 / PowWord(i) % WORD }

  function PowWord(i: nat): (r: nat)
    ensures r > 0
  {
    if i == 0 then 1 else WORD * PowWord(i - 1)
  }

  function ShiftedLeft8(word: nat): (r: nat)
    ensures r % 256 == 0 && r < WORD
  {
    word * 256 % WORD
  }

  function TopByte(word: nat): nat { word / 0x100_0000 }

  function ReassembleR2(r0: nat, r1: nat, r2: nat, r3: nat): Csd128
    requires r0 < WORD && r1 < WORD && r2 < WORD
  {
    Csd128(ShiftedLeft8(r0),
           Or(ShiftedLeft8(r1), TopByte(r0), 256),
           Or(ShiftedLeft8(r2), TopByte(r1), 256),
           Or(ShiftedLeft8(r3), TopByte(r2), 256))
  }

  datatype Geometry = Geometry(capacityBytes: nat, blockCount: nat, structure: nat, valid: bool)

  /** A left shift of a 64-bit word. */
  function ShiftLeft64(x: nat, n: nat): nat { x * Pow2(n) % DOUBLE }

  function DecodeCsd(csd: Csd128): Geometry {
    var structure := Bits(csd, 127, 126);
    var capacity :=
      if structure == 1 then (Bits(csd, 69, 48) + 1) * 524_288 % DOUBLE
      else
        var readBlLen, cSize, cSizeMult := Bits(csd, 83, 80), Bits(csd, 73, 62), Bits(csd, 49, 47);
        ShiftLeft64(ShiftLeft64(cSize + 1, cSizeMult + 2), readBlLen);
    Geometry(capacity, capacity / 512, structure, capacity > 0)
  }

  // ---- integer lemmas ----------------------------------------------------------------------------

  lemma Grows(a: nat, k: int)
    requires a > 0
    ensures k >= 1 ==> a * k >= a
    ensures k <= -1 ==> a * k <= 0 - a
  {
    if k >= 1 {
      assert a * k == a + a * (k - 1);
      assert a * (k - 1) >= 0;
    }
    if k <= -1 {
      assert a * k == a * (k + 1) - a;
      assert a * (k + 1) <= 0;
    }
  }

  /** Quotient and remainder are unique. */
  lemma Division(x: int, a: nat, q: int, r: int)
    requires a > 0 && x == a * q + r && 0 <= r < a
    ensures x / a == q && x % a == r
  {
    var q1, r1 := x / a, x % a;
    assert x == a * q1 + r1;
    assert a * (q - q1) == r1 - r;
    Grows(a, q - q1);
  }

  lemma DivisionOf(x: nat, a: nat)
    requires a > 0
    ensures x == a * (x / a) + x % a && 0 <= x % a < a
  {
  }

  /** Dividing twice is dividing by the product. */
  lemma DivDiv(x: nat, a: nat, b: nat)
    requires a > 0 && b > 0
    ensures a * b > 0 && x / (a * b) == x / a / b
  {
    var q, r := x / a, x % a;
    var q2, r2 := q / b, q % b;
    DivisionOf(x, a);
    DivisionOf(q, b);
    assert a * q == a * (b * q2) + a * r2;
    assert a * (b * q2) == (a * b) * q2;
    assert x == (a * b) * q2 + (a * r2 + r);
    Bound(a, b, r2, r);
    Division(x, a * b, q2, a * r2 + r);
  }

  lemma Bound(a: nat, b: nat, r2: nat, r: nat)
    requires r < a && r2 < b
    ensures a * r2 + r < a * b && a * b > 0
  {
    assert a * b == a * r2 + a * (b - r2);
    Grows(a, b - r2);
  }

  /** A field survives cutting the value above it. */
  lemma CutAbove(x: nat, a: nat, w: nat, rest: nat)
    requires a > 0 && w > 0 && rest > 0 && a * w * rest > 0
    ensures x % (a * w * rest) / a % w == x / a % w
  {
    var c := a * w * rest;
    var q, y := x / c, x % c;
    DivisionOf(x, c);
    var m := w * rest * q;
    assert c * q == a * m by {
      assert a * w * rest == a * (w * rest);
    }
    var z, r := y / a, y % a;
    DivisionOf(y, a);
    assert x == a * (m + z) + r by { assert a * (m + z) == a * m + a * z; }
    Division(x, a, m + z, r);
    var k := rest * q;
    assert m == w * k;
    DivisionOf(z, w);
    assert m + z == w * (k + z / w) + z % w by { assert w * (k + z / w) == w * k + w * (z / w); }
    Division(m + z, w, k + z / w, z % w);
  }

  lemma {:induction false} Pow2Add(a: nat, b: nat)
    ensures Pow2(a + b) == Pow2(a) * Pow2(b)
  {
    if a > 0 {
      Pow2Add(a - 1, b);
      assert 2 * (Pow2(a - 1) * Pow2(b)) == (2 * Pow2(a - 1)) * Pow2(b);
    }
  }

  lemma Pow2Values()
    ensures Pow2(8) == 256 && Pow2(32) == WORD && Pow2(64) == DOUBLE
  {
    Pow2Four();
    hide Pow2;
    Pow2Add(4, 4);
    Pow2Add(8, 8);
    Pow2Add(16, 16);
    Pow2Add(32, 32);
  }

  lemma Pow2Four()
    ensures Pow2(4) == 16
  {
  }

  lemma {:induction false} PowWordIsPow2(i: nat)
    ensures PowWord(i) == Pow2(32 * i)
  {
    if i > 0 {
      PowWordIsPow2(i - 1);
      Pow2Values();
      Pow2Add(32, 32 * (i - 1));
    }
  }

  // ---- the words -----------------------------------------------------------------------------------

  /** The value without its lowest `i` words. */
  function From(value: nat, i: nat): nat { value / PowWord(i) }

  lemma FromNext(value: nat, i: nat)
    ensures From(value, i + 1) == From(value, i) / WORD
  {
    DivDiv(value, PowWord(i), WORD);
  }

  lemma R2IsFrom(value: nat, i: nat)
    ensures R2(value, i) == From(value, i) / 256 % WORD
  {
    DivDiv(value, 256, PowWord(i));
    DivDiv(value, PowWord(i), 256);
    assert 256 * PowWord(i) == PowWord(i) * 256;
  }

  /** Putting the shifted register together with the top byte of the one below. */
  lemma Splice(y: nat)
    ensures var x := y / WORD;
      ShiftedLeft8(x / 256 % WORD) + TopByte(y / 256 % WORD) == x % WORD
  {
    TopByteOf(y);
    Shifted(y / WORD);
  }

  lemma TopByteOf(y: nat)
    ensures TopByte(y / 256 % WORD) == y / WORD % 256
  {
    var a := y / 256;
    var b := a / 0x100_0000;
    assert b == y / WORD;
    assert a % WORD / 0x100_0000 == b % 256;
  }

  lemma Shifted(x: nat)
    ensures ShiftedLeft8(x / 256 % WORD) == x % WORD - x % 256
  {
    var h := x / 256;
    var q, s := h / WORD, h % WORD;
    var t, u := s / 0x100_0000, s % 0x100_0000;
    Division(s * 256, WORD, t, 256 * u);
    Division(x, WORD, 256 * q + t, 256 * u + x % 256);
  }

  function Reassembled(value: nat): Csd128 {
    ReassembleR2(R2(value, 0), R2(value, 1), R2(value, 2), R2(value, 3))
  }

  /** The words of a reassembled register are those of the value, but for its low eight bits. */
  lemma WordsOf(value: nat, i: nat)
    requires i < 4
    ensures WordAt(Reassembled(value), i) == From(value, i) % WORD - if i == 0 then value % 256 else 0
  {
    R2IsFrom(value, i);
    if i == 0 {
      assert From(value, 0) == value;
      Shifted(value);
    } else {
      R2IsFrom(value, i - 1);
      FromNext(value, i - 1);
      Splice(From(value, i - 1));
    }
    hide R2, From, ShiftedLeft8, TopByte;
  }

  lemma TwoWords(x: nat)
    ensures x % WORD + x / WORD % WORD * WORD == x % DOUBLE
  {
    var q, r := x / WORD, x % WORD;
    var q2, r2 := q / WORD, q % WORD;
    assert x == DOUBLE * q2 + (WORD * r2 + r);
  }

  lemma LastWord(value: nat)
    requires value < PowWord(4)
    ensures From(value, 4) == 0
  {
  }

  /** The 64-bit window starting at a word. */
  function Window(csd: Csd128, k: nat): nat {
    WordAt(csd, k) + (if k + 1 < 4 then WordAt(csd, k + 1) else 0) * WORD
  }

  lemma WindowOf(value: nat, k: nat)
    requires k < 4 && value < PowWord(4)
    ensures Window(Reassembled(value), k) == From(value, k) % DOUBLE - if k == 0 then value % 256 else 0
  {
    hide R2, From, ShiftedLeft8, TopByte, ReassembleR2, PowWord, WordAt;
    WordsOf(value, k);
    if k + 1 < 4 { WordsOf(value, k + 1); }
    FromNext(value, k);
    TwoWords(From(value, k));
    LastWord(value);
  }

  // ---- the fields ------------------------------------------------------------------------------------

  /** The low eight bits do not reach a field that starts above them. */
  lemma WithoutLowByte(y: nat, b: nat)
    requires b >= 8
    ensures (y - y % 256) / Pow2(b) == y / Pow2(b)
  {
    Pow2Values();
    Pow2Add(8, b - 8);
    DivDiv(y - y % 256, 256, Pow2(b - 8));
    DivDiv(y, 256, Pow2(b - 8));
    assert (y - y % 256) / 256 == y / 256;
  }

  lemma CutTo64(x: nat, b: nat, w: nat)
    requires b < 32 && 1 <= w <= 32
    ensures x % DOUBLE / Pow2(b) % Pow2(w) == x / Pow2(b) % Pow2(w)
  {
    hide Pow2;
    Pow2Values();
    Pow2Add(b, w);
    Pow2Add(b + w, 64 - b - w);
    CutAbove(x, Pow2(b), Pow2(w), Pow2(64 - b - w));
  }

  lemma FromShifted(value: nat, k: nat, b: nat)
    ensures From(value, k) / Pow2(b) == value / Pow2(32 * k + b)
  {
    hide Pow2;
    PowWordIsPow2(k);
    Pow2Add(32 * k, b);
    DivDiv(value, Pow2(32 * k), Pow2(b));
  }

  lemma LowByteOf(value: nat)
    ensures value % DOUBLE % 256 == value % 256
  {
  }

  /** Every field that lies above the low byte and is at most 32 bits wide comes out as the datasheet
      numbers it, across word boundaries. */
  lemma BitsAreTheField(value: nat, hi: nat, lo: nat)
    requires value < PowWord(4) && 8 <= lo <= hi <= 127 && hi - lo < 32
    ensures Bits(Reassembled(value), hi, lo) == Field(value, hi, lo)
  {
    hide Pow2, R2, ShiftedLeft8, TopByte, ReassembleR2, PowWord, WordAt, From, Reassembled;
    var k, b, w := lo / 32, lo % 32, hi - lo + 1;
    var window := Window(Reassembled(value), k);
    assert Bits(Reassembled(value), hi, lo) == window / Pow2(b) % Pow2(w) by { Pow2Values(); }
    WindowOf(value, k);
    var x := From(value, k);
    if k == 0 {
      FirstWord(value);
      LowByteOf(value);
      WithoutLowByte(x % DOUBLE, b);
    }
    CutTo64(x, b, w);
    FromShifted(value, k, b);
  }

  lemma FirstWord(value: nat)
    ensures From(value, 0) == value
  {
  }

  // ---- the capacity ------------------------------------------------------------------------------------

  /** The capacity in bytes as the specification gives it, on unbounded integers. */
  function SpecifiedCapacity(value: nat): int {
    if Field(value, 127, 126) == 1 then (Field(value, 69, 48) + 1) * 524_288
    else
      (Field(value, 73, 62) + 1) * Pow2(Field(value, 49, 47) + 2) * Pow2(Field(value, 83, 80))
  }

  lemma FieldBound(value: nat, hi: nat, lo: nat)
    requires lo <= hi
    ensures Field(value, hi, lo) < Pow2(hi - lo + 1)
  {
  }

  lemma {:induction false} Pow2Monotone(a: nat, b: nat)
    requires a <= b
    ensures Pow2(a) <= Pow2(b)
  {
    if a < b { Pow2Monotone(a, b - 1); }
  }

  lemma ProductBound(x: nat, y: nat, a: nat, b: nat)
    requires x <= a && y <= b
    ensures x * y <= a * b
  {
    assert a * b - x * y == a * (b - y) + (a - x) * y;
    assert a * (b - y) >= 0 && (a - x) * y >= 0;
  }

  /** No shift of a version 1 capacity leaves the 64-bit word. */
  lemma ShiftsFit(cSize: nat, cSizeMult: nat, readBlLen: nat)
    requires cSize < 4096 && cSizeMult < 8 && readBlLen < 16
    ensures var blocks := (cSize + 1) * Pow2(cSizeMult + 2);
      && blocks < DOUBLE && blocks * Pow2(readBlLen) < DOUBLE
      && blocks > 0 && blocks * Pow2(readBlLen) > 0
  {
    SmallPowers();
    Pow2Monotone(cSizeMult + 2, 9);
    Pow2Monotone(readBlLen, 15);
    hide Pow2;
    var blocks := (cSize + 1) * Pow2(cSizeMult + 2);
    ProductBound(cSize + 1, Pow2(cSizeMult + 2), 4096, 512);
    ProductBound(blocks, Pow2(readBlLen), 2097152, 32768);
    Grows(Pow2(cSizeMult + 2), cSize + 1);
    Grows(Pow2(readBlLen), blocks);
  }

  lemma SmallPowers()
    ensures Pow2(2) == 4 && Pow2(3) == 8 && Pow2(4) == 16 && Pow2(9) == 512
    ensures Pow2(12) == 4096 && Pow2(15) == 32768 && Pow2(22) == 4194304
  {
    Pow2Values();
    Pow2Add(1, 8);
    Pow2Add(4, 8);
    Pow2Add(7, 8);
    Pow2Add(8, 8);
    Pow2Add(6, 16);
  }

  /** Decoding the reassembled register gives the capacity of the specification, for both versions and
      without overflow, and always a valid one. */
  lemma DecodedCapacity(value: nat)
    requires value < PowWord(4)
    ensures var g := DecodeCsd(Reassembled(value));
      && g.capacityBytes == SpecifiedCapacity(value) < DOUBLE
      && g.valid && g.structure == Field(value, 127, 126) && g.blockCount == g.capacityBytes / 512
  {
    hide Pow2, Bits, Field, Reassembled, PowWord;
    BitsAreTheField(value, 127, 126);
    if Field(value, 127, 126) == 1 {
      Version2Capacity(value);
    } else {
      Version1Capacity(value);
    }
  }

  lemma Version2Capacity(value: nat)
    requires value < PowWord(4)
    ensures var n := (Bits(Reassembled(value), 69, 48) + 1) * 524_288;
      n == (Field(value, 69, 48) + 1) * 524_288 && 0 < n < DOUBLE
  {
    hide Pow2, Bits, Field, Reassembled, PowWord;
    BitsAreTheField(value, 69, 48);
    FieldBound(value, 69, 48);
    SmallPowers();
  }

  lemma Version1Capacity(value: nat)
    requires value < PowWord(4)
    ensures var csd := Reassembled(value);
      var readBlLen, cSize, cSizeMult := Bits(csd, 83, 80), Bits(csd, 73, 62), Bits(csd, 49, 47);
      && ShiftLeft64(ShiftLeft64(cSize + 1, cSizeMult + 2), readBlLen)
         == (Field(value, 73, 62) + 1) * Pow2(Field(value, 49, 47) + 2) * Pow2(Field(value, 83, 80))
      && 0 < ShiftLeft64(ShiftLeft64(cSize + 1, cSizeMult + 2), readBlLen) < DOUBLE
  {
    hide Pow2, Bits, Field, Reassembled, PowWord;
    BitsAreTheField(value, 83, 80);
    BitsAreTheField(value, 73, 62);
    BitsAreTheField(value, 49, 47);
    FieldBound(value, 83, 80);
    FieldBound(value, 73, 62);
    FieldBound(value, 49, 47);
    SmallPowers();
    ShiftsFit(Field(value, 73, 62), Field(value, 49, 47), Field(value, 83, 80));
  }
}

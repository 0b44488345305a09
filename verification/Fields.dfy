/**
 * Bit fields of native memory (sdk/Public/API/Fields.h): a shift and a mask to read one, a mask and
 * a merge to write one. A machine word is its 64 bits, least significant first.
 */
module Fields {
  import opened Arithmetic

  const SIZE: nat := 64

  type Word = w: seq<bool> | |w| == 64 witness seq(64, _ => false)

  // ----- the machine's operations on words -----

  function ShiftRight(w: Word, n: nat): Word {
    seq(SIZE, i requires 0 <= i < SIZE => i + n < SIZE && w[i + n])
  }

  function ShiftLeft(w: Word, n: nat): Word {
    seq(SIZE, i requires 0 <= i < SIZE => i >= n && w[i - n])
  }

  function And(a: Word, b: Word): Word {
    seq(SIZE, i requires 0 <= i < SIZE => a[i] && b[i])
  }

  function Or(a: Word, b: Word): Word {
    seq(SIZE, i requires 0 <= i < SIZE => a[i] || b[i])
  }

  function Not(a: Word): Word {
    seq(SIZE, i requires 0 <= i < SIZE => !a[i])
  }

  const ALL: Word := seq(64, _ => true)

  /** A word seen through an unsigned type of `width` bits. */
  function Cast(w: Word, width: nat): Word {
    seq(SIZE, i requires 0 <= i < SIZE => i < width && w[i])
  }

  /** The shift of a signed word: the topmost bit moves in from above. */
  function ArithmeticShiftRight(w: Word, n: nat): Word {
    seq(SIZE, i requires 0 <= i < SIZE => if i + n < SIZE then w[i + n] else w[SIZE - 1])
  }

  /** A word of a signed type of `width` bits, widened to 64: its topmost bit fills the rest. */
  function SignExtend(w: Word, width: nat): Word
    requires 1 <= width <= SIZE
  {
    seq(SIZE, i requires 0 <= i < SIZE => if i < width then w[i] else w[width - 1])
  }

  // ----- fields -----

  datatype BitField = BitField(position: nat, bits: nat)

  predicate AreDisjoint(f: BitField, g: BitField) {
    f.position + f.bits <= g.position || g.position + g.bits <= f.position
  }

  predicate IsIn(f: BitField, i: nat) {
    f.position <= i < f.position + f.bits
  }

  /** A word in memory, of a type that is `width` bits wide; `value` holds its bits, and zeros above. */
  class NativeWord {
    const width: nat
    const signed: bool
    var value: Word

    ghost predicate Valid()
      reads this
    {
      width <= SIZE && Cast(value, width) == value
    }

    constructor (width: nat, signed: bool, value: Word)
      requires width <= SIZE
      ensures Valid() && this.width == width && this.signed == signed && this.value == Cast(value, width)
    {
      this.width, this.signed, this.value := width, signed, Cast(value, width);
    }

    /** The word as an operand of 64-bit arithmetic. */
    function Widened(): Word
      requires 1 <= width <= SIZE
      reads this`value
    {
      if signed then SignExtend(value, width) else value
    }

    /** The bits of the field moved down, and zeros above them. */
    method GetNativeBitField(f: BitField) returns (result: Word)
      requires Valid() && 1 <= f.bits && f.position + f.bits <= width
      ensures result == Extracted(value, f)
    {
      var shifted := if signed then ArithmeticShiftRight(Widened(), f.position) else ShiftRight(Widened(), f.position);
      result := Cast(And(shifted, ShiftRight(ALL, SIZE - f.bits)), width);
    }

    /** The field takes the value's lowest bits; every other bit stays. */
    method SetNativeBitField(f: BitField, newValue: Word)
      requires Valid() && 1 <= f.bits && f.position + f.bits <= width
      modifies this`value
      ensures Valid() && value == Replaced(old(value), f, newValue)
    {
      var mask := ShiftLeft(ShiftRight(ALL, SIZE - f.bits), f.position);
      value := Cast(Or(And(Widened(), Not(mask)), And(ShiftLeft(Cast(newValue, width), f.position), mask)), width);
    }
  }

  function Extracted(w: Word, f: BitField): Word {
    seq(SIZE, i requires 0 <= i < SIZE => i < f.bits && f.position + i < SIZE && w[f.position + i])
  }

  function Replaced(w: Word, f: BitField, v: Word): Word {
    seq(SIZE, i requires 0 <= i < SIZE => if IsIn(f, i) then v[i - f.position] else w[i])
  }

  // ----- what words stand for -----

  function Bit(b: bool): nat {
    if b then 1 else 0
  }

  function Value(w: seq<bool>): nat {
    if w == [] then 0 else Bit(w[0]) + 2 * Value(w[1..])
  }

  lemma {:induction false} ValueOfParts(a: seq<bool>, b: seq<bool>)
    ensures Value(a + b) == Value(a) + Pow2(|a|) * Value(b)
    ensures Value(a) < Pow2(|a|)
  {
    if a == [] {
      assert a + b == b;
    } else {
      ValueOfParts(a[1..], b);
      assert (a + b)[1..] == a[1..] + b;
      TwiceProduct(Pow2(|a| - 1), Value(b));
    }
  }

  lemma {:induction false} ValueOfZeros(w: seq<bool>)
    requires forall i :: 0 <= i < |w| ==> !w[i]
    ensures Value(w) == 0
  {
    if w != [] { ValueOfZeros(w[1..]); }
  }

  /** Splitting a word in two splits its value into a remainder and a quotient. */
  lemma ValueSplits(w: seq<bool>, n: nat)
    requires n <= |w|
    ensures Pow2(n) > 0 && Value(w[..n]) == Value(w) % Pow2(n) && Value(w[n..]) == Value(w) / Pow2(n)
  {
    assert w == w[..n] + w[n..];
    ValueOfParts(w[..n], w[n..]);
    RestAndQuotient(Value(w), Pow2(n), Value(w[n..]), Value(w[..n]));
  }

  lemma LowestBit(w: seq<bool>)
    requires w != []
    ensures Value(w) % 2 == if w[0] then 1 else 0
  {
    var rest := Value(w[1..]);
    QuotientAndRest(Bit(w[0]) + 2 * rest, 2, rest, Bit(w[0]));
  }

  /** A word's value in binary has its bits for digits. */
  lemma BitsAreDigits(w: seq<bool>, i: nat)
    requires i < |w|
    ensures Pow2(i) > 0 && (Value(w) / Pow2(i)) % 2 == if w[i] then 1 else 0
  {
    hide Value, Pow2;
    ValueSplits(w, i);
    LowestBit(w[i..]);
  }

  /** Reading a field is dividing by its position and taking the rest by its width. */
  lemma ExtractedIsQuotient(w: Word, f: BitField)
    requires f.position + f.bits <= 64
    ensures Pow2(f.position) > 0 && Pow2(f.bits) > 0
    ensures Value(Extracted(w, f)) == Value(w) / Pow2(f.position) % Pow2(f.bits)
  {
    var high := w[f.position..];
    var r := Extracted(w, f);
    assert r == high[..f.bits] + r[f.bits..];
    ValueOfZeros(r[f.bits..]);
    ValueOfParts(high[..f.bits], r[f.bits..]);
    ValueSplits(w, f.position);
    ValueSplits(high, f.bits);
  }

  /** Writing a field changes the word's value by the difference of the two field values, at its position. */
  lemma ReplacedAddsDifference(w: Word, f: BitField, v: Word)
    requires f.position + f.bits <= 64
    ensures Pow2(f.bits) > 0
    ensures Value(Replaced(w, f, v))
            == Value(w) + Pow2(f.position) * (Value(v) % Pow2(f.bits)) - Pow2(f.position) * Value(Extracted(w, f))
  {
    hide Value, Pow2;
    var r, p, n := Replaced(w, f, v), f.position, f.position + f.bits;
    assert r == w[..p] + (v[..f.bits] + w[n..]);
    assert w == w[..p] + (w[p..n] + w[n..]);
    ValueOfThree(w[..p], v[..f.bits], w[n..]);
    ValueOfThree(w[..p], w[p..n], w[n..]);
    ValueSplits(v, f.bits);
    var x := Extracted(w, f);
    assert x == w[p..n] + x[f.bits..];
    ValueOfZeros(x[f.bits..]);
    ValueOfParts(w[p..n], x[f.bits..]);
  }

  lemma ValueOfThree(a: seq<bool>, b: seq<bool>, c: seq<bool>)
    ensures Value(a + (b + c)) == Value(a) + Pow2(|a|) * Value(b) + Pow2(|a|) * (Pow2(|b|) * Value(c))
  {
    ValueOfParts(a, b + c);
    ValueOfParts(b, c);
    ProductOfSum(Pow2(|a|), Value(b), Pow2(|b|) * Value(c));
  }

  /** The shift to the right is a division, and the one to the left a product cut to the word's size. */
  lemma ShiftsAreArithmetic(w: Word, n: nat)
    requires n <= SIZE
    ensures Pow2(n) > 0 && Value(ShiftRight(w, n)) == Value(w) / Pow2(n)
    ensures Pow2(SIZE - n) > 0 && Value(ShiftLeft(w, n)) == Pow2(n) * (Value(w) % Pow2(SIZE - n))
  {
    var r, l := ShiftRight(w, n), ShiftLeft(w, n);
    assert r == w[n..] + r[SIZE - n..];
    ValueOfZeros(r[SIZE - n..]);
    ValueOfParts(w[n..], r[SIZE - n..]);
    ValueSplits(w, n);
    assert l == l[..n] + w[..SIZE - n];
    ValueOfZeros(l[..n]);
    ValueOfParts(l[..n], w[..SIZE - n]);
    ValueSplits(w, SIZE - n);
  }

  // ----- the laws -----

  /** Reading back a field gives the written value modulo two to the field's width. */
  lemma GetAfterSet(w: Word, f: BitField, v: Word)
    requires f.position + f.bits <= 64
    ensures Pow2(f.bits) > 0
    ensures Value(Extracted(Replaced(w, f, v), f)) == Value(v) % Pow2(f.bits)
  {
    var r := Extracted(Replaced(w, f, v), f);
    assert r == v[..f.bits] + r[f.bits..];
    ValueOfZeros(r[f.bits..]);
    ValueOfParts(v[..f.bits], r[f.bits..]);
    ValueSplits(v, f.bits);
  }

  /** A write is invisible to every field it does not overlap. */
  lemma SetSparesDisjoint(w: Word, f: BitField, g: BitField, v: Word)
    requires AreDisjoint(f, g)
    ensures Extracted(Replaced(w, f, v), g) == Extracted(w, g)
  {
  }

  /** Fields that a write may not touch are exactly the disjoint ones. */
  lemma SparesOnlyDisjoint(f: BitField, g: BitField)
    requires 1 <= f.bits && f.position + f.bits <= 64 && 1 <= g.bits && g.position + g.bits <= 64
    requires !AreDisjoint(f, g)
    ensures exists w: Word, v: Word :: Extracted(Replaced(w, f, v), g) != Extracted(w, g)
  {
    var zeros := Not(ALL);
    var i := if f.position >= g.position then f.position else g.position;
    assert Extracted(Replaced(zeros, f, ALL), g)[i - g.position] && !Extracted(zeros, g)[i - g.position];
  }

  /** Writes to fields that do not overlap can be made in either order. */
  lemma DisjointSetsCommute(w: Word, f: BitField, g: BitField, v: Word, u: Word)
    requires AreDisjoint(f, g)
    ensures Replaced(Replaced(w, f, v), g, u) == Replaced(Replaced(w, g, u), f, v)
  {
  }

  /** The last write to a field counts, and writing back what was read changes nothing. */
  lemma SetOverwrites(w: Word, f: BitField, v: Word, u: Word)
    requires f.position + f.bits <= 64
    ensures Replaced(Replaced(w, f, v), f, u) == Replaced(w, f, u)
    ensures Replaced(w, f, Extracted(w, f)) == w
  {
  }
}

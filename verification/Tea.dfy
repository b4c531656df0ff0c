/** XXTEA: the coder of dinemeter.crypto.Tea, on words and on the integers of the targets it is compiled to. */
module Tea {
  import opened Bits
  import opened Coder

  const DELTA: Word := 0x9e37_79b9

  type Key = k: seq<Word> | |k| == 4 witness [0, 0, 0, 0]

  lemma XorOfTwoBits(a: int, b: int)
    requires 0 <= a < 4 && 0 <= b < 4
    ensures 0 <= Xor(a, b) < 4
  {
    Powers();
    XorRange(a, b, 2);
  }

  /** The key word at (p & 3) ^ e, where e is bits 2 and 3 of the running sum. */
  function KeyWord(k: Key, p: nat, e: int): Word
    requires 0 <= e < 4
  {
    XorOfTwoBits(p % 4, e);
    k[Xor(p % 4, e)]
  }

  /** The change of a word v[p] between y == v[p+1] and z == v[p-1]; shifts drop the bits above bit 31. */
  function Mix(y: Word, z: Word, sum: Word, key: Word): int {
    Xor(Wrap(Xor(z / 32, Wrap(y * 4)) + Xor(y / 8, Wrap(z * 16))), Wrap(Xor(sum, y) + Xor(key, z)))
  }

  function StirrerOf(k: Key): Word -> Stirrer {
    (sum: Word) => (y: Word, z: Word, p: nat) => Mix(y, z, sum, KeyWord(k, p, sum / 4 % 4))
  }

  function Rounds(n: nat): nat
    requires n > 0
  {
    6 + 52 / n
  }

  /** What btea leaves in v: words beyond the first |n| are untouched, and |n| < 2 changes nothing. */
  function Coded(v: seq<Word>, n: int, k: Key): (w: seq<Word>)
    requires -|v| <= n <= |v|
    ensures |w| == |v|
  {
    if n > 1 then Encode(v, n, Rounds(n), DELTA, StirrerOf(k))
    else if n < -1 then Decode(v, -n, Rounds(-n), DELTA, StirrerOf(k))
    else v
  }

  /** Coding with n and with -n are inverse to each other, in either order and for every n. */
  lemma CodingIsInvertible(v: seq<Word>, n: int, k: Key)
    requires -|v| <= n <= |v|
    ensures Coded(Coded(v, n, k), -n, k) == v
  {
    if n > 1 {
      DecodeEncode(v, n, Rounds(n), DELTA, StirrerOf(k));
    } else if n < -1 {
      EncodeDecode(v, -n, Rounds(-n), DELTA, StirrerOf(k));
    }
  }

  /**
    DELTA is odd, hence invertible modulo 2^32, and no vector takes more than 32 rounds: during
    decoding the running sum is zero after the last round is undone and never before.
   */
  lemma DecodingStopsOnTime(n: nat, r: nat)
    requires n >= 2 && r <= Rounds(n)
    ensures Schedule(DELTA, r) == 0 <==> r == 0
  {
    assert 6 <= Rounds(n) <= 32;
    ScheduleZero(DELTA, 0x144c_bc89, 0x0c8b_c280, r);
  }

  // ---------- the kinds of target ----------

  /**
    The targets that Haxe compiles to wrap Int at 32 bits themselves, or compute on 64-bit integers
    (PHP), or on doubles whose bit operations alone are at 32 bits (JavaScript).
   */
  datatype Target = Wrapping | Php | JavaScript

  /** The constant in a program for a target: a literal beyond 31 bits is read as the negative number. */
  function Step(target: Target): (d: Change)
    ensures Wrap(d) == DELTA
  {
    if target.Wrapping? then DELTA else DELTA - TWO32
  }

  lemma Signed(value: int)
    requires 0 <= value < TWO32
    ensures Wrap(value) == value && Wrap(value - TWO32) == value
    ensures value / TWO31 % 2 == if value < TWO31 then 0 else 1
    ensures value > 0 ==> (-value) % TWO32 == TWO32 - value
  {
    if value > 0 {
      ModUnique(-value, TWO32, -1, TWO32 - value);
    }
    ModUnique(value - TWO32, TWO32, -1, value);
  }

  /** The number that bit operations at 32 bits give for a word. */
  function ToInt32(x: int): (r: int)
    ensures Wrap(r) == Wrap(x) && -TWO31 <= r < TWO31
  {
    Signed(Wrap(x));
    if Wrap(x) < TWO31 then Wrap(x) else Wrap(x) - TWO32
  }

  /** b32, where x & 0xffffffff on a two's complement integer is the remainder modulo 2^32. */
  function B32(target: Target, x: Number): (r: Number)
    ensures Wrap(r) == Wrap(x)
    ensures if target.JavaScript? then r == x else -TWO31 <= r < TWO32
    ensures target.Php? ==> r < TWO31
  {
    Signed(Wrap(x));
    match target
    case Wrapping => Wrap(x)
    case Php =>
      var value: int := Wrap(x);
      if value / TWO31 % 2 == 0 then value else -((-value) % TWO32)
    case JavaScript => x
  }

  function Norm(target: Target): Number -> Number {
    (x: Number) => B32(target, x)
  }

  /** On the targets that reduce at all, the result depends on the word alone. */
  lemma B32Subtracts(target: Target, x: Cell, d: Cell)
    ensures B32(target, B32(target, x) - d) == B32(target, x - d)
  {
    WrapOfSum(B32(target, x), d, x, d);
  }

  lemma NormKeepsWord(target: Target, x: Number)
    ensures Norm(target)(x) == B32(target, x) && KeepsWord(Norm(target), x)
  {
    hide Wrap;
  }

  lemma B32OfZero(target: Target)
    ensures B32(target, 0) == 0
  {
  }

  lemma B32Normalizes(target: Target)
    ensures Normalizes(Norm(target))
  {
    hide B32;
    hide Wrap;
    hide KeepsWord;
    var norm := Norm(target);
    forall x: Number
      ensures KeepsWord(norm, x)
    {
      NormKeepsWord(target, x);
    }
    forall x: Cell, d: Cell
      ensures Subtracts(norm, x, d)
    {
      NormKeepsWord(target, x);
      B32Subtracts(target, x, d);
    }
    NormKeepsWord(target, 0);
    B32OfZero(target);
  }

  lemma LowMask(high: int, half: int)
    requires high > 0 && half > 0 && half * high == TWO31
    ensures 0x7FFF_FFFF / half + 1 == high
  {
    assert (high - 1) * half + (half - 1) == 0x7FFF_FFFF;
    ModUnique(0x7FFF_FFFF, half, high - 1, half - 1);
  }

  lemma Pow31()
    ensures Pow2(31) == TWO31
  {
    Powers();
    assert Pow2(32) == 2 * Pow2(31);
  }

  lemma QuotientBelow(r: int, low: int, bound: int)
    requires low > 0 && 0 <= r < bound
    ensures 0 <= r / low < bound
  {
    var x := r / low;
    assert 0 <= r - x * low < low;
    assert x < 0 ==> x * low <= -low;
    assert x <= x * low;
  }

  lemma Between(x: int, low: int, s: int, high: int)
    requires 0 <= s < low && 0 <= x * low + s < low * high
    ensures 0 <= x < high
  {
    assert x >= high ==> x * low >= high * low;
    assert x < 0 ==> x * low <= -low;
  }

  /** Dividing by low and keeping the rest modulo high reads the upper part of a modulo low * high. */
  lemma ShiftOfLow(a: int, low: int, high: int)
    requires low > 0 && high > 0
    ensures low * high > 0
    ensures a / low % high == a % (low * high) / low
  {
    var m := low * high;
    assert m > 0;
    var q, r := a / m, a % m;
    var x, s := r / low, r % low;
    assert r == x * low + s;
    assert a == q * m + r;
    assert q * m == q * high * low;
    assert (q * high + x) * low == q * high * low + x * low;
    ModUnique(a, low, q * high + x, s);
    Between(x, low, s, high);
    ModUnique(q * high + x, high, q, x);
  }

  lemma ShiftedOut(a: Cell, b: nat)
    requires 0 < b < 32
    ensures a / Pow2(b) % (0x7FFF_FFFF / Pow2(b - 1) + 1) == Wrap(a) / Pow2(b)
    ensures 0 <= Wrap(a) / Pow2(b) < TWO32
  {
    hide Pow2;
    Powers();
    PowerSum(b, 32 - b);
    PowerSum(b - 1, 32 - b);
    Pow31();
    ShiftOfLow(a, Pow2(b), Pow2(32 - b));
    LowMask(Pow2(32 - b), Pow2(b - 1));
    QuotientBelow(Wrap(a), Pow2(b), TWO32);
  }

  /** rs: a right shift bringing in zeros; on PHP an arithmetic shift with the upper bits masked away. */
  function Rs(target: Target, a: Cell, b: nat): (r: Cell)
    requires 0 < b < 32
    ensures r == Wrap(a) / Pow2(b)
  {
    ShiftedOut(a, b);
    if target.Php? then a / Pow2(b) % (0x7FFF_FFFF / Pow2(b - 1) + 1) else Wrap(a) / Pow2(b)
  }

  lemma ShiftFits(x: Cell, m: nat)
    requires m <= 16
    ensures -0x1000_0000_0000 < x * m < 0x1000_0000_0000
  {
    assert m * (0x100_0000_0000 - x) >= 0 && m * (0x100_0000_0000 + x) >= 0;
    assert m * (0x100_0000_0000 - x) == m * 0x100_0000_0000 - x * m;
    assert m * (0x100_0000_0000 + x) == m * 0x100_0000_0000 + x * m;
    assert m > 0 ==> m * (0x100_0000_0000 - x) > 0 && m * (0x100_0000_0000 + x) > 0;
  }

  lemma ShiftOfWrap(x: int, m: nat)
    ensures Wrap(x * m) == Wrap(Wrap(x) * m)
  {
    var q, w := x / TWO32, Wrap(x) * m;
    assert x == q * TWO32 + Wrap(x);
    assert x * m == q * m * TWO32 + w;
    var d := w / TWO32;
    assert w == d * TWO32 + Wrap(w);
    assert (q * m + d) * TWO32 == q * m * TWO32 + d * TWO32;
    ModUnique(x * m, TWO32, q * m + d, Wrap(w));
  }

  /** x << 2 or x << 4, given the power of two. */
  function ShiftLeft(target: Target, x: Cell, m: nat): (r: Number)
    requires m <= 16
    ensures Wrap(r) == Wrap(Wrap(x) * m)
  {
    ShiftOfWrap(x, m);
    ShiftFits(x, m);
    if target.JavaScript? then ToInt32(x * m) else x * m
  }

  /** The same as it stands in the expressions: wrapped, but for y << 2 at word 0 of the decoder. */
  function Shifted(target: Target, x: Cell, m: nat, bare: bool): (r: Number)
    requires m <= 16
    ensures Wrap(r) == Wrap(Wrap(x) * m)
    ensures -0x1000_0000_0000 <= r < 0x1000_0000_0000
  {
    ShiftFits(x, m);
    if bare && target.Php? then ShiftLeft(target, x, m) else B32(target, ShiftLeft(target, x, m))
  }

  lemma XorSmall(a: int, b: int)
    requires -0x1000_0000_0000 <= a < 0x1000_0000_0000 && -0x1000_0000_0000 <= b < 0x1000_0000_0000
    ensures -0x1000_0000_0000 <= Xor(a, b) < 0x1000_0000_0000
  {
    Powers();
    PowerSum(32, 12);
    assert Pow2(12) == 4096;
    XorRange(a, b, 44);
  }

  /** Exclusive or; on JavaScript of the 32-bit integers that its operands stand for. */
  function XorOn(target: Target, a: int, b: int): (r: int)
    ensures target.JavaScript? ==> -TWO31 <= r < TWO31
  {
    if target.JavaScript? then ToInt32(Xor(ToInt32(a), ToInt32(b))) else Xor(a, b)
  }

  lemma XorOnIsXor(target: Target, a: int, b: int)
    ensures Wrap(XorOn(target, a, b)) == Wrap(Xor(a, b))
  {
    hide Wrap;
    hide Xor;
    hide ToInt32;
    XorWrap(a, b);
    XorWrap(ToInt32(a), ToInt32(b));
  }

  lemma XorCells(a: int, b: int)
    requires -TWO32 <= a < TWO32 && -TWO32 <= b < TWO32
    ensures -TWO32 <= Xor(a, b) < TWO32
    ensures -TWO31 <= a < TWO31 && -TWO31 <= b < TWO31 ==> -TWO31 <= Xor(a, b) < TWO31
    ensures a >= 0 && b >= 0 ==> Xor(a, b) >= 0
  {
    Powers();
    XorRange(a, b, 32);
    assert Pow2(32) == 2 * Pow2(31);
    if -TWO31 <= a < TWO31 && -TWO31 <= b < TWO31 {
      XorRange(a, b, 31);
    }
  }

  lemma MixFits(target: Target, left: Number, right: Number)
    ensures -TWO32 <= XorOn(target, B32(target, left), B32(target, right)) < TWO32
  {
    hide Xor;
    if !target.JavaScript? {
      XorCells(B32(target, left), B32(target, right));
    }
  }

  function CellSum(target: Target, a: int, b: int, c: int, d: int): Number
    requires -0x1000_0000_0000 <= a < 0x1000_0000_0000 && -0x1000_0000_0000 <= b < 0x1000_0000_0000
    requires -0x1000_0000_0000 <= c < 0x1000_0000_0000 && -0x1000_0000_0000 <= d < 0x1000_0000_0000
  {
    XorSmall(a, b);
    XorSmall(c, d);
    XorOn(target, a, b) + XorOn(target, c, d)
  }

  /** The change of a word as a target computes it; no sum leaves the range of exact numbers. */
  function CellMix(target: Target, y: Cell, z: Cell, sum: Cell, key: Cell, bare: bool): Change {
    var y2, z4 := Shifted(target, y, 4, bare), Shifted(target, z, 16, false);
    var left := CellSum(target, Rs(target, z, 5), y2, Rs(target, y, 3), z4);
    var right := CellSum(target, sum, y, key, z);
    MixFits(target, left, right);
    XorOn(target, B32(target, left), B32(target, right))
  }

  lemma WrapTwice(x: int)
    ensures Wrap(Wrap(x)) == Wrap(x)
  {
  }

  lemma SumOfXors(target: Target, a: int, b: int, c: int, d: int)
    ensures Wrap(XorOn(target, a, b) + XorOn(target, c, d)) == Wrap(Xor(Wrap(a), Wrap(b)) + Xor(Wrap(c), Wrap(d)))
  {
    hide Wrap;
    hide Xor;
    hide XorOn;
    XorOnIsXor(target, a, b);
    XorOnIsXor(target, c, d);
    XorWrap(a, b);
    XorWrap(c, d);
    WrapTwice(Xor(Wrap(a), Wrap(b)));
    WrapTwice(Xor(a, b));
    WrapTwice(Xor(c, d));
    WrapOfSum(XorOn(target, a, b), XorOn(target, c, d), Wrap(Xor(a, b)), Wrap(Xor(c, d)));
  }

  lemma ShiftsInWords()
    ensures Pow2(5) == 32 && Pow2(3) == 8
  {
  }

  lemma QuotientIsWord(w: Word, m: int)
    requires m > 0
    ensures Wrap(w / m) == w / m
  {
    QuotientBelow(w, m, TWO32);
  }

  /** Every target changes a word by the same amount modulo 2^32, with y << 2 wrapped or not. */
  lemma CellMixFollows(target: Target, y: Cell, z: Cell, sum: Cell, key: Cell, bare: bool)
    ensures Wrap(CellMix(target, y, z, sum, key, bare)) == Wrap(Mix(Wrap(y), Wrap(z), Wrap(sum), Wrap(key)))
  {
    hide Wrap;
    hide Xor;
    hide B32;
    hide Rs;
    hide Shifted;
    ShiftsInWords();
    hide XorOn;
    var y2, z4 := Shifted(target, y, 4, bare), Shifted(target, z, 16, false);
    SumOfXors(target, Rs(target, z, 5), y2, Rs(target, y, 3), z4);
    SumOfXors(target, sum, y, key, z);
    QuotientIsWord(Wrap(z), 32);
    QuotientIsWord(Wrap(y), 8);
    var left: Number := CellSum(target, Rs(target, z, 5), y2, Rs(target, y, 3), z4);
    var right: Number := CellSum(target, sum, y, key, z);
    XorOnIsXor(target, B32(target, left), B32(target, right));
    XorWrap(B32(target, left), B32(target, right));
    WrapTwice(Xor(B32(target, left), B32(target, right)));
  }

  // ---------- btea ----------

  type CellKey = k: seq<Cell> | |k| == 4 witness [0, 0, 0, 0]

  function KeyCell(k: CellKey, p: nat, e: int): Cell
    requires 0 <= e < 4
  {
    XorOfTwoBits(p % 4, e);
    k[Xor(p % 4, e)]
  }

  function CellStirrerOf(target: Target, k: CellKey, bare: bool): Cell -> CellStirrer {
    (sum: Cell) => (y: Cell, z: Cell, p: nat) =>
      CellMix(target, y, z, sum, KeyCell(k, p, Rs(target, sum, 2) % 4), bare)
  }

  lemma CellStirrersFollow(target: Target, k: CellKey, bare: bool)
    ensures AllFollow(CellStirrerOf(target, k, bare), StirrerOf(Words(k)))
  {
    hide Wrap;
    hide CellMix;
    hide Mix;
    var h, g := CellStirrerOf(target, k, bare), StirrerOf(Words(k));
    forall sum: Cell
      ensures Follows(h(sum), g(Wrap(sum)))
    {
      assert Rs(target, sum, 2) == Wrap(sum) / 4;
      forall y: Cell, z: Cell, p: nat
        ensures Wrap(h(sum)(y, z, p)) == Wrap(g(Wrap(sum))(Wrap(y), Wrap(z), p))
      {
        var e := Wrap(sum) / 4 % 4;
        XorOfTwoBits(p % 4, e);
        assert Wrap(KeyCell(k, p, e)) == KeyWord(Words(k), p, e);
        CellMixFollows(target, y, z, sum, KeyCell(k, p, e), bare);
        assert h(sum)(y, z, p) == CellMix(target, y, z, sum, KeyCell(k, p, e), bare);
      }
    }
  }

  lemma WithinMore(v: seq<Cell>, a: int, b: int)
    requires Within(v, 0, a, a) && a <= b
    ensures Within(v, 0, b, b)
  {
  }

  /**
    btea on any target: in place, a negative n asking for decoding. Whatever cells stand for the
    words of v and of the key, the words left in v are those of the specification; that the decoder
    ends, and that every number is exact, is part of this method being accepted.
   */
  method Btea(target: Target, v: array<Cell>, n: int, k: CellKey, ghost b: int)
    requires -v.Length <= n <= v.Length
    requires TWO32 <= b <= START_LIMIT && Within(v[..], 0, b, b)
    modifies v
    ensures Words(v[..]) == Coded(Words(old(v[..])), n, Words(k))
    ensures Within(v[..], 0, b + GROWTH, b + GROWTH)
  {
    hide Within;
    hide Encode;
    hide Decode;
    hide Normalizes;
    hide AllFollow;
    hide Words;
    var norm := Norm(target);
    var h, h0 := CellStirrerOf(target, k, false), CellStirrerOf(target, k, true);
    B32Normalizes(target);
    CellStirrersFollow(target, k, false);
    CellStirrersFollow(target, k, true);
    if n > 1 {
      EncodeInPlace(v, n, Rounds(n), Step(target), norm, h, StirrerOf(Words(k)), b);
    } else if n < -1 {
      forall r: nat | r <= Rounds(-n)
        ensures Schedule(DELTA, r) == 0 <==> r == 0
      {
        DecodingStopsOnTime(-n, r);
      }
      DecodeInPlace(v, -n, Rounds(-n), Step(target), norm, h, h0, StirrerOf(Words(k)), b);
    } else {
      WithinMore(v[..], b, b + GROWTH);
    }
  }

  /** What one target encodes, any other decodes. */
  method EncodeThenDecode(here: Target, there: Target, v: array<Cell>, n: int, k: CellKey)
    requires 0 <= n <= v.Length && Within(v[..], 0, TWO32, TWO32)
    modifies v
    ensures Words(v[..]) == Words(old(v[..]))
  {
    CodingIsInvertible(Words(v[..]), n, Words(k));
    Btea(here, v, n, k, TWO32);
    Btea(there, v, -n, k, TWO32 + GROWTH);
  }
}

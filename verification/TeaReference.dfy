/**
  Which cipher it is: every round, number of rounds and sum written out with its shifts, its constant and
  exclusive or told from the bits, for any number of words; and how texts and digests become its words.
 */
module TeaReference {
  import opened Bits
  import opened Coder
  import opened Tea
  import opened Text
  import opened TextCoder

  // ---------- exclusive or, bit by bit ----------

  /** Exclusive or of four bits. */
  function Xor4(a: int, b: int): int {
    (a / 8 + b / 8) % 2 * 8 + (a / 4 + b / 4) % 2 * 4 + (a / 2 + b / 2) % 2 * 2 + (a + b) % 2
  }

  lemma Xor4Is(a: int, b: int)
    ensures Xor(a, b) == 16 * Xor(a / 16, b / 16) + Xor4(a, b)
  {
    hide Xor;
    XorStep(a, b);
    XorStep(a / 2, b / 2);
    XorStep(a / 4, b / 4);
    XorStep(a / 8, b / 8);
    assert a / 2 / 2 == a / 4 && a / 4 / 2 == a / 8 && a / 8 / 2 == a / 16;
    assert b / 2 / 2 == b / 4 && b / 4 / 2 == b / 8 && b / 8 / 2 == b / 16;
  }

  function Xor16(a: int, b: int): int {
    Xor4(a / 0x1000, b / 0x1000) * 0x1000 + Xor4(a / 0x100, b / 0x100) * 0x100
    + Xor4(a / 0x10, b / 0x10) * 0x10 + Xor4(a, b)
  }

  lemma Xor16Is(a: int, b: int)
    ensures Xor(a, b) == 0x1_0000 * Xor(a / 0x1_0000, b / 0x1_0000) + Xor16(a, b)
  {
    hide Xor;
    hide Xor4;
    Xor4Is(a, b);
    Xor4Is(a / 0x10, b / 0x10);
    Xor4Is(a / 0x100, b / 0x100);
    Xor4Is(a / 0x1000, b / 0x1000);
    assert a / 0x10 / 16 == a / 0x100 && a / 0x100 / 16 == a / 0x1000 && a / 0x1000 / 16 == a / 0x1_0000;
    assert b / 0x10 / 16 == b / 0x100 && b / 0x100 / 16 == b / 0x1000 && b / 0x1000 / 16 == b / 0x1_0000;
  }

  /** Exclusive or of words, told from their bits. */
  function XorBits(a: int, b: int): int {
    Xor16(a / 0x1_0000, b / 0x1_0000) * 0x1_0000 + Xor16(a, b)
  }

  lemma XorOfNothing()
    ensures Xor(0, 0) == 0
  {
  }

  lemma UpperHalf(x: int, y: int)
    requires 0 <= x < 0x1_0000 && 0 <= y < 0x1_0000
    ensures Xor(x, y) == Xor16(x, y)
  {
    hide Xor;
    hide Xor16;
    Xor16Is(x, y);
    assert x / 0x1_0000 == 0 && y / 0x1_0000 == 0;
    XorOfNothing();
  }

  lemma XorIsBits(a: Word, b: Word)
    ensures Xor(a, b) == XorBits(a, b)
  {
    hide Xor;
    hide Xor16;
    var x, y := a / 0x1_0000, b / 0x1_0000;
    Xor16Is(a, b);
    UpperHalf(x, y);
  }

  // ---------- one round ----------

  /** The formula of the cipher for one word, on bits. */
  function MixBits(y: int, z: int, sum: int, key: int): int {
    XorBits(
      (XorBits(z / 32, y * 4 % 0x1_0000_0000) + XorBits(y / 8, z * 16 % 0x1_0000_0000)) % 0x1_0000_0000,
      (XorBits(sum, y) + XorBits(key, z)) % 0x1_0000_0000)
  }

  lemma MixIsBits(y: Word, z: Word, sum: Word, key: Word)
    ensures Mix(y, z, sum, key) == MixBits(y, z, sum, key)
  {
    hide Xor;
    hide XorBits;
    XorIsBits(z / 32, Wrap(y * 4));
    XorIsBits(y / 8, Wrap(z * 16));
    XorIsBits(sum, y);
    XorIsBits(key, z);
    XorIsBits(Wrap(Xor(z / 32, Wrap(y * 4)) + Xor(y / 8, Wrap(z * 16))), Wrap(Xor(sum, y) + Xor(key, z)));
  }

  // ---------- whole rounds ----------

  ghost function NewWord(v: seq<Word>, w: seq<Word>, n: nat, sum: int, k: Key, p: nat): int
    requires 2 <= n <= |v| == |w| && p < n
  {
    var y := if p + 1 < n then v[p + 1] else w[0];
    var z := if p > 0 then w[p - 1] else v[n - 1];
    var place := Xor4(p % 4, sum / 4 % 4);
    (v[p] + MixBits(y, z, sum, if 0 <= place < 4 then k[place] else 0)) % 0x1_0000_0000
  }

  /**
    How the words w after a round come from the words v before it: each from its own, the following one,
    which for the last is the new first, and the preceding one, which is new but for the first.
   */
  ghost predicate IsRound(v: seq<Word>, w: seq<Word>, n: nat, sum: int, k: Key)
    requires 2 <= n <= |v| == |w|
  {
    && (forall p :: 0 <= p < n ==> w[p] == NewWord(v, w, n, sum, k, p))
    && (forall p :: n <= p < |v| ==> w[p] == v[p])
  }

  ghost function BumpedWord(v: seq<Word>, w: seq<Word>, n: nat, i: nat, f: Stirrer): Word
    requires 2 <= n <= |v| == |w| && i < n
  {
    Wrap(v[i] + f(if i + 1 < n then v[i + 1] else w[0], if i > 0 then w[i - 1] else v[n - 1], i))
  }

  /** What the first p words have become, and that the others are still as they were. */
  ghost predicate PartOfRound(v: seq<Word>, w: seq<Word>, n: nat, p: nat, f: Stirrer)
    requires 2 <= n <= |v| == |w| && p <= n
  {
    && (forall i :: 0 <= i < p ==> w[i] == BumpedWord(v, w, n, i, f))
    && (forall i :: p <= i < |v| ==> w[i] == v[i])
  }

  lemma OneMorePart(v: seq<Word>, w: seq<Word>, n: nat, p: nat, f: Stirrer)
    requires 2 <= n <= |v| == |w| && p < n && PartOfRound(v, w, n, p, f)
    ensures PartOfRound(v, Bump(w, n, p, f), n, p + 1, f)
  {
    hide Wrap;
    var u := Bump(w, n, p, f);
    assert w[Next(n, p)] == if p + 1 < n then v[p + 1] else w[0];
    assert w[Prev(n, p)] == if p > 0 then w[p - 1] else v[n - 1];
    assert u == w[p := Wrap(w[p] + f(w[Next(n, p)], w[Prev(n, p)], p))];
    forall i | 0 <= i < p + 1
      ensures u[i] == BumpedWord(v, u, n, i, f)
    {
      if i < p {
        assert w[i] == BumpedWord(v, w, n, i, f);
      }
    }
  }

  lemma {:induction false} RoundInParts(v: seq<Word>, n: nat, p: nat, f: Stirrer)
    requires 2 <= n <= |v| && p <= n
    ensures PartOfRound(v, Round(v, n, p, f), n, p, f)
  {
    hide Bump;
    hide BumpedWord;
    if p == 0 {
    } else {
      RoundInParts(v, n, p - 1, f);
      OneMorePart(v, Round(v, n, p - 1, f), n, p - 1, f);
    }
  }

  lemma XorOfDigits(a: int, b: int)
    requires 0 <= a < 16 && 0 <= b < 16
    ensures Xor(a, b) == Xor4(a, b)
  {
    hide Xor;
    hide Xor4;
    Xor4Is(a, b);
    assert a / 16 == 0 && b / 16 == 0;
    XorOfNothing();
  }

  lemma PlaceOfKey(k: Key, p: nat, e: int)
    requires 0 <= e < 4
    ensures 0 <= Xor4(p % 4, e) < 4 && KeyWord(k, p, e) == k[Xor4(p % 4, e)]
  {
    XorOfTwoBits(p % 4, e);
    XorOfDigits(p % 4, e);
  }

  lemma RoundIsWritten(v: seq<Word>, n: nat, sum: Word, k: Key)
    requires 2 <= n <= |v|
    ensures IsRound(v, Round(v, n, n, StirrerOf(k)(sum)), n, sum, k)
  {
    hide Mix;
    hide MixBits;
    hide KeyWord;
    hide Xor4;
    hide Round;
    var f := StirrerOf(k)(sum);
    var w := Round(v, n, n, f);
    RoundInParts(v, n, n, f);
    forall p | 0 <= p < n
      ensures w[p] == NewWord(v, w, n, sum, k, p)
    {
      var y := if p + 1 < n then v[p + 1] else w[0];
      var z := if p > 0 then w[p - 1] else v[n - 1];
      PlaceOfKey(k, p, sum / 4 % 4);
      MixIsBits(y, z, sum, KeyWord(k, p, sum / 4 % 4));
      assert w[p] == BumpedWord(v, w, n, p, f);
    }
  }

  /** The words after each round of encoding. */
  ghost function EncodedBy(v: seq<Word>, n: nat, k: Key, r: nat): (w: seq<Word>)
    requires 2 <= n <= |v|
    ensures |w| == |v|
  {
    Encode(v, n, r, DELTA, StirrerOf(k))
  }

  /**
    Encoding n words runs 6 + 52 / n rounds, round r with r times the constant as its sum; fewer than two
    words stay as they are.
   */
  lemma CodingIsWritten(v: seq<Word>, n: int, k: Key, r: nat)
    requires -|v| <= n <= |v|
    ensures -2 < n < 2 ==> Coded(v, n, k) == v
    ensures n >= 2 ==>
              && EncodedBy(v, n, k, 0) == v && Coded(v, n, k) == EncodedBy(v, n, k, 6 + 52 / n)
              && (r > 0 ==> IsRound(EncodedBy(v, n, k, r - 1), EncodedBy(v, n, k, r), n,
                                    r * 0x9e37_79b9 % 0x1_0000_0000, k))
  {
    hide IsRound;
    hide StirrerOf;
    if n >= 2 && r > 0 {
      ScheduleClosed(DELTA, r);
      RoundIsWritten(EncodedBy(v, n, k, r - 1), n, Schedule(DELTA, r), k);
    }
  }

  // ---------- texts and digests ----------

  /** Four characters make a word with the first highest. */
  lemma PackedExample()
    ensures Pack([1, 2, 3, 4, 5, 6, 7, 8]) == [0x0102_0304, 0x0506_0708]
  {
    assert [1, 2, 3, 4, 5, 6, 7, 8][4..] == [5, 6, 7, 8];
    assert Pack([5, 6, 7, 8]) == [0x0506_0708] + Pack([]);
  }

  const GROUP0: Text := [48, 56, 48, 52, 48, 50, 48, 49]
  const GROUP1: Text := [56, 48, 52, 48, 50, 48, 49, 48]
  const GROUP2: Text := [102, 56, 102, 99, 102, 101, 102, 102]
  const GROUP3: Text := [56, 48, 99, 48, 101, 48, 102, 48]

  lemma FourDigits(t: Text)
    requires |t| == 4 && AllHex(t)
    ensures Value(t) ==
            DigitValue(t[0]) * 0x1000 + DigitValue(t[1]) * 0x100 + DigitValue(t[2]) * 0x10 + DigitValue(t[3])
  {
    hide DigitValue;
    assert t[..3][..2] == t[..2] && t[..2][..1] == t[..1] && t[..1][..0] == [];
    assert Value(t[..1]) == DigitValue(t[0]);
    assert Value(t[..2]) == Value(t[..1]) * 16 + DigitValue(t[1]);
    assert Value(t[..3]) == Value(t[..2]) * 16 + DigitValue(t[2]);
  }

  /** A numeral of eight digits, by its places. */
  lemma EightDigits(t: Text)
    requires |t| == 8 && AllHex(t)
    ensures ParseHex(t) ==
            DigitValue(t[0]) * 0x1000_0000 + DigitValue(t[1]) * 0x100_0000 + DigitValue(t[2]) * 0x10_0000
            + DigitValue(t[3]) * 0x1_0000 + DigitValue(t[4]) * 0x1000 + DigitValue(t[5]) * 0x100
            + DigitValue(t[6]) * 0x10 + DigitValue(t[7])
  {
    hide DigitValue;
    FourDigits(t[..4]);
    assert t[..8] == t && t[..7][..6] == t[..6] && t[..6][..5] == t[..5] && t[..5][..4] == t[..4];
    assert Value(t) == Value(t[..7]) * 16 + DigitValue(t[7]);
    assert Value(t[..7]) == Value(t[..6]) * 16 + DigitValue(t[6]);
    assert Value(t[..6]) == Value(t[..5]) * 16 + DigitValue(t[5]);
    assert Value(t[..5]) == Value(t[..4]) * 16 + DigitValue(t[4]);
  }

  lemma Group0()
    ensures ParseHex(GROUP0) == 0x0804_0201
  {
    EightDigits(GROUP0);
  }

  lemma Group1()
    ensures ParseHex(GROUP1) == 0x8040_2010
  {
    EightDigits(GROUP1);
  }

  lemma Group2()
    ensures ParseHex(GROUP2) == 0xf8fc_feff
  {
    EightDigits(GROUP2);
  }

  lemma Group3()
    ensures ParseHex(GROUP3) == 0x80c0_e0f0
  {
    EightDigits(GROUP3);
  }

  /** The digest "0804020180402010f8fcfeff80c0e0f0" stands for the words of the key in that order. */
  lemma KeyExample()
    ensures KeyOf(GROUP0 + GROUP1 + GROUP2 + GROUP3) == [0x0804_0201, 0x8040_2010, 0xf8fc_feff, 0x80c0_e0f0]
  {
    hide ParseHex;
    Group0();
    Group1();
    Group2();
    Group3();
    var digest := GROUP0 + GROUP1 + GROUP2 + GROUP3;
    assert digest[0..8] == GROUP0 && digest[8..16] == GROUP1;
    assert digest[16..24] == GROUP2 && digest[24..32] == GROUP3;
  }

  /** Words are printed as unpadded upper-case numerals with a dash between. */
  lemma PrintedExample()
    ensures Joined(Numerals([0xab, 0x7])) == [65, 66, 45, 55]
  {
    assert Hex(0xab) == [65, 66] && Hex(0x7) == [55];
    assert [0xab, 0x7][1..] == [0x7] && [0x7][1..] == [];
    assert Numerals([0xab, 0x7]) == [[65, 66], [55]];
    assert [[65, 66], [55]][1..] == [[55]];
  }
}

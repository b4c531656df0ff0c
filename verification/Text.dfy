/** Texts of 8-bit characters: splitting at a separator and hexadecimal numerals. */
module Text {
  import opened Bits

  type Byte = x: int | 0 <= x < 256
  type Text = seq<Byte>

  const COLON: Byte := 58
  const DASH: Byte := 45

  // ---------- splitting ----------

  /** Position of the first separator, or the length of the text. */
  function Find(t: Text, sep: Byte): (i: nat)
    ensures i <= |t| && sep !in t[..i] && (i < |t| ==> t[i] == sep)
  {
    if t == [] || t[0] == sep then 0 else 1 + Find(t[1..], sep)
  }

  /** The pieces between separators; a text without one is a single piece, even when empty. */
  function Split(t: Text, sep: Byte): (pieces: seq<Text>)
    ensures pieces != []
    decreases |t|
  {
    var i := Find(t, sep);
    if i == |t| then [t] else [t[..i]] + Split(t[i + 1..], sep)
  }

  /** Every piece preceded by a separator, in order. */
  function Flat(pieces: seq<Text>, sep: Byte): Text {
    if pieces == [] then [] else [sep] + pieces[0] + Flat(pieces[1..], sep)
  }

  lemma {:induction false} FindOfConcat(a: Text, b: Text, sep: Byte)
    requires sep !in a
    ensures Find(a + [sep] + b, sep) == |a|
  {
    if a == [] {
    } else {
      assert (a + [sep] + b)[1..] == a[1..] + [sep] + b;
      FindOfConcat(a[1..], b, sep);
    }
  }

  lemma SplitWithout(a: Text, sep: Byte)
    requires sep !in a
    ensures Split(a, sep) == [a]
  {
    assert Find(a, sep) == |a|;
  }

  lemma SplitOfConcat(a: Text, b: Text, sep: Byte)
    requires sep !in a
    ensures Split(a + [sep] + b, sep) == [a] + Split(b, sep)
  {
    var t := a + [sep] + b;
    FindOfConcat(a, b, sep);
    assert t[..|a|] == a && t[|a| + 1..] == b;
  }

  /** There is one piece more than there are separators. */
  lemma {:induction false} SplitCount(t: Text, sep: Byte)
    ensures |Split(t, sep)| == multiset(t)[sep] + 1
    decreases |t|
  {
    var i := Find(t, sep);
    if i == |t| {
      assert t[..i] == t;
    } else {
      SplitCount(t[i + 1..], sep);
      assert t == t[..i] + [sep] + t[i + 1..];
    }
  }

  /** Two pieces are what stands before and after the only separator. */
  lemma SplitInTwo(t: Text, sep: Byte)
    requires |Split(t, sep)| == 2
    ensures var pieces := Split(t, sep);
            t == pieces[0] + [sep] + pieces[1] && sep !in pieces[0] && sep !in pieces[1]
  {
    var i := Find(t, sep);
    var rest := t[i + 1..];
    SplitCount(t, sep);
    SplitCount(rest, sep);
    assert t == t[..i] + [sep] + rest;
    SplitWithout(rest, sep);
  }

  lemma FlatOpens(pieces: seq<Text>, sep: Byte)
    requires pieces != []
    ensures Flat(pieces, sep) == [sep] + (pieces[0] + Flat(pieces[1..], sep))
  {
  }

  lemma SplitFlatStep(pieces: seq<Text>, rest: Text, sep: Byte)
    requires |pieces| > 1 && sep !in pieces[0] && rest == Flat(pieces[1..], sep)
    requires rest != [] && Split(rest[1..], sep) == pieces[1..]
    ensures Split(Flat(pieces, sep)[1..], sep) == pieces
  {
    hide Split;
    hide Flat;
    FlatOpens(pieces, sep);
    FlatOpens(pieces[1..], sep);
    var a := pieces[0];
    assert Flat(pieces, sep)[1..] == a + rest;
    assert rest == [sep] + rest[1..];
    assert a + rest == a + [sep] + rest[1..];
    SplitOfConcat(a, rest[1..], sep);
  }

  lemma {:induction false} SplitFlat(pieces: seq<Text>, sep: Byte)
    requires pieces != [] && forall i :: 0 <= i < |pieces| ==> sep !in pieces[i]
    ensures Flat(pieces, sep) != [] && Split(Flat(pieces, sep)[1..], sep) == pieces
  {
    if |pieces| == 1 {
      assert Flat(pieces, sep)[1..] == pieces[0];
      SplitWithout(pieces[0], sep);
    } else {
      SplitFlat(pieces[1..], sep);
      SplitFlatStep(pieces, Flat(pieces[1..], sep), sep);
    }
  }

  // ---------- hexadecimal ----------

  predicate IsHex(c: Byte) {
    48 <= c <= 57 || 65 <= c <= 70 || 97 <= c <= 102
  }

  function DigitValue(c: Byte): (d: nat)
    requires IsHex(c)
    ensures d < 16
  {
    if c <= 57 then c - 48 else if c <= 70 then c - 55 else c - 87
  }

  /** Upper-case, as printed by StringTools.hex. */
  function Digit(d: nat): (c: Byte)
    requires d < 16
    ensures IsHex(c) && DigitValue(c) == d && c != DASH
  {
    if d < 10 then d + 48 else d + 55
  }

  /** The digits, in either case. */
  lemma DigitsAre(d: nat)
    ensures d < 10 ==> DigitValue(48 + d) == d && Digit(d) == 48 + d
    ensures 10 <= d < 16 ==> DigitValue(65 + d - 10) == DigitValue(97 + d - 10) == d && Digit(d) == 65 + d - 10
  {
  }

  predicate AllHex(t: Text) {
    forall i :: 0 <= i < |t| ==> IsHex(t[i])
  }

  /** The numeral without leading zeros, and "0" for zero. */
  function Hex(x: nat): (t: Text)
    ensures t != [] && AllHex(t) && DASH !in t
  {
    if x < 16 then [Digit(x)] else Hex(x / 16) + [Digit(x % 16)]
  }

  function Value(t: Text): nat
    requires AllHex(t)
  {
    if t == [] then 0 else Value(t[..|t| - 1]) * 16 + DigitValue(t[|t| - 1])
  }

  /** Std.parseInt("0x" + t) as a word; a piece that is no hexadecimal numeral reads as 0. */
  function ParseHex(t: Text): Word {
    if AllHex(t) then Wrap(Value(t)) else 0
  }

  lemma {:induction false} ValueOfHex(x: nat)
    ensures Value(Hex(x)) == x
  {
    if x >= 16 {
      ValueOfHex(x / 16);
      assert Hex(x)[..|Hex(x)| - 1] == Hex(x / 16);
    }
  }

  /** The letters A to F in lower case. */
  function Lower(t: Text): (l: Text)
    ensures |l| == |t|
    ensures forall i :: 0 <= i < |t| ==> l[i] == if 65 <= t[i] <= 70 then t[i] + 32 else t[i]
  {
    seq(|t|, i requires 0 <= i < |t| => if 65 <= t[i] <= 70 then t[i] + 32 else t[i])
  }

  /** Case does not matter to the value of a numeral, nor to whether it is one. */
  lemma {:induction false} CaseIrrelevant(t: Text)
    ensures AllHex(Lower(t)) <==> AllHex(t)
    ensures AllHex(t) ==> Value(Lower(t)) == Value(t)
  {
    if t == [] {
    } else {
      var n := |t| - 1;
      CaseIrrelevant(t[..n]);
      assert Lower(t)[..n] == Lower(t[..n]);
      if AllHex(t) {
        assert forall i :: 0 <= i < |t| ==> IsHex(t[i]);
      } else {
        var i :| 0 <= i < |t| && !IsHex(t[i]);
        assert !IsHex(Lower(t)[i]);
      }
    }
  }

  /** Numerals are printed in upper case. */
  lemma {:induction false} PrintedUpperCase(x: nat)
    ensures forall c :: c in Hex(x) ==> 48 <= c <= 57 || 65 <= c <= 70
  {
    if x < 16 {
    } else {
      PrintedUpperCase(x / 16);
    }
  }
}

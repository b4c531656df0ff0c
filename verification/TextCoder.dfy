/** encrypt and decrypt of dinemeter.crypto.Tea: texts packed into words, coded, and printed in hexadecimal. */
module TextCoder {
  import opened Bits
  import opened Coder
  import opened Tea
  import opened Text

  // ---------- packing four characters into a word ----------

  function PackWord(a: Byte, b: Byte, c: Byte, d: Byte): Word {
    a * 0x100_0000 + b * 0x1_0000 + c * 0x100 + d
  }

  function Pack(t: Text): (w: seq<Word>)
    requires |t| % 4 == 0
    ensures |w| == |t| / 4
  {
    if t == [] then [] else [PackWord(t[0], t[1], t[2], t[3])] + Pack(t[4..])
  }

  /** The four characters of a cell, the highest first; shifts keep the sign and & 0xFF drops it again. */
  function UnpackCell(x: Cell): Text {
    [x / 0x100_0000 % 256, x / 0x1_0000 % 256, x / 0x100 % 256, x % 256]
  }

  function Unpack(w: seq<Cell>): Text {
    if w == [] then [] else UnpackCell(w[0]) + Unpack(w[1..])
  }

  /** How many characters a text lacks to fill whole words. */
  function Missing(t: Text): nat {
    (4 - |t| % 4) % 4
  }

  function Padded(t: Text): (p: Text)
    ensures |p| % 4 == 0 && |t| <= |p| < |t| + 4 && p[..|t|] == t
    ensures forall i :: |t| <= i < |p| ==> p[i] == 0
  {
    t + seq(Missing(t), _ => 0)
  }

  function Numerals(w: seq<Word>): (pieces: seq<Text>)
    ensures |pieces| == |w| && forall i :: 0 <= i < |w| ==> pieces[i] == Hex(w[i])
  {
    if w == [] then [] else [Hex(w[0])] + Numerals(w[1..])
  }

  function Parsed(pieces: seq<Text>): (w: seq<Word>)
    ensures |w| == |pieces| && forall i :: 0 <= i < |w| ==> w[i] == ParseHex(pieces[i])
  {
    if pieces == [] then [] else [ParseHex(pieces[0])] + Parsed(pieces[1..])
  }

  /** Pieces separated by dashes; nothing at all for no pieces. */
  function Joined(pieces: seq<Text>): Text {
    var flat := Flat(pieces, DASH);
    if flat == [] then [] else flat[1..]
  }

  function Encrypted(t: Text, k: Key): Text {
    var w := Pack(Padded(t));
    Joined(Numerals(Coded(w, |w|, k)))
  }

  function Decrypted(t: Text, k: Key): Text {
    var w := Parsed(Split(t, DASH));
    Unpack(Coded(w, -|w|, k))
  }

  // ---------- round trips ----------

  lemma UnpackWord(a: Byte, b: Byte, c: Byte, d: Byte)
    ensures UnpackCell(PackWord(a, b, c, d)) == [a, b, c, d]
  {
    var x := PackWord(a, b, c, d);
    ModUnique(x, 0x100_0000, a, b * 0x1_0000 + c * 0x100 + d);
    ModUnique(x, 0x1_0000, a * 0x100 + b, c * 0x100 + d);
    ModUnique(x, 0x100, a * 0x1_0000 + b * 0x100 + c, d);
    ModUnique(a * 0x100 + b, 256, a, b);
    ModUnique(a * 0x1_0000 + b * 0x100 + c, 256, a * 0x100 + b, c);
  }

  lemma {:induction false} UnpackPack(t: Text)
    requires |t| % 4 == 0
    ensures Unpack(Pack(t)) == t
  {
    if t == [] {
    } else {
      UnpackPack(t[4..]);
      UnpackWord(t[0], t[1], t[2], t[3]);
      assert t == [t[0], t[1], t[2], t[3]] + t[4..];
    }
  }

  lemma ByteOfSum(w: int, q: int, low: int, high: int)
    requires low > 0 && low * high == TWO32 && high % 256 == 0
    ensures (q * TWO32 + w) / low % 256 == w / low % 256
  {
    var d, r, h := w / low, w % low, high / 256;
    assert q * TWO32 == q * high * low && q * high == q * h * 256;
    assert q * TWO32 + w == (q * high + d) * low + r;
    ModUnique(q * TWO32 + w, low, q * high + d, r);
    ModUnique(q * high + d, 256, q * h + d / 256, d % 256);
  }

  /** A cell has the characters of the word it stands for. */
  lemma UnpackSigned(x: Cell)
    ensures UnpackCell(x) == UnpackCell(Wrap(x))
  {
    var q, w := x / TWO32, Wrap(x);
    assert x == q * TWO32 + w;
    hide Wrap;
    ByteOfSum(w, q, 0x100_0000, 0x100);
    ByteOfSum(w, q, 0x1_0000, 0x1_0000);
    ByteOfSum(w, q, 0x100, 0x100_0000);
    ByteOfSum(w, q, 1, TWO32);
  }

  lemma {:induction false} UnpackWords(v: seq<Cell>)
    ensures Unpack(v) == Unpack(Words(v))
  {
    if v == [] {
    } else {
      UnpackSigned(v[0]);
      UnpackWords(v[1..]);
      assert Words(v)[1..] == Words(v[1..]);
    }
  }

  lemma HexParses(x: Word)
    ensures ParseHex(Hex(x)) == x
  {
    ValueOfHex(x);
  }

  lemma ParsedNumerals(w: seq<Word>)
    ensures Parsed(Numerals(w)) == w
  {
    hide Hex;
    hide ParseHex;
    forall i | 0 <= i < |w|
      ensures ParseHex(Hex(w[i])) == w[i]
    {
      HexParses(w[i]);
    }
  }

  lemma WordWraps(x: Word)
    ensures Wrap(x) == x
  {
  }

  lemma UnpackFour(x: Cell)
    ensures |UnpackCell(x)| == 4
  {
  }

  /** No words print as the empty text, which reads as one numeral and so as four characters. */
  lemma EmptyComesBackLonger(k: Key)
    ensures Encrypted([], k) == [] && |Decrypted([], k)| == 4
  {
    hide UnpackCell;
    SplitWithout([], DASH);
    assert Numerals([]) == [];
    var w := Parsed([[]]);
    assert Coded(w, -1, k) == w;
    assert Unpack(w) == UnpackCell(w[0]) + Unpack(w[1..]);
    UnpackFour(w[0]);
  }

  /** Decrypting gives back the text padded with NULs, unless it was empty. */
  lemma DecryptEncrypt(t: Text, k: Key)
    ensures Decrypted(Encrypted(t, k), k) == Padded(t) <==> t != []
  {
    var w := Pack(Padded(t));
    var c := Coded(w, |w|, k);
    if t == [] {
      EmptyComesBackLonger(k);
    } else {
      SplitFlat(Numerals(c), DASH);
      ParsedNumerals(c);
      CodingIsInvertible(w, |w|, k);
      UnpackPack(Padded(t));
    }
  }

  // ---------- the methods ----------

  /** The four key words of a digest. */
  function KeyOf(digest: Text): Key
    requires |digest| == 32
  {
    [ParseHex(digest[0..8]), ParseHex(digest[8..16]), ParseHex(digest[16..24]), ParseHex(digest[24..32])]
  }

  method KeyArray(hashedKey: Text) returns (keyArray: CellKey)
    requires |hashedKey| == 32
    ensures Words(keyArray) == KeyOf(hashedKey)
  {
    hide ParseHex;
    hide Wrap;
    var out: seq<Cell> := [];
    for i := 0 to 4
      invariant |out| == i
      invariant forall j :: 0 <= j < i ==> out[j] == Wrap(out[j]) == ParseHex(hashedKey[j * 8..j * 8 + 8])
    {
      WordWraps(ParseHex(hashedKey[i * 8..i * 8 + 8]));
      out := out + [ParseHex(hashedKey[i * 8..i * 8 + 8])];
    }
    keyArray := out;
  }

  lemma MissingFalls(n: nat)
    requires n % 4 != 0
    ensures (4 - (n + 1) % 4) % 4 == (4 - n % 4) % 4 - 1
  {
  }

  lemma PadStep(data: Text)
    requires |data| % 4 != 0
    ensures Missing(data + [0]) == Missing(data) - 1
    ensures Padded(data + [0]) == Padded(data)
  {
    MissingFalls(|data|);
    hide Missing;
  }

  lemma PadDone(data: Text)
    requires |data| % 4 == 0
    ensures Padded(data) == data
  {
  }

  method Pad(data0: Text) returns (data: Text)
    ensures data == Padded(data0)
  {
    hide Wrap;
    hide Padded;
    hide Missing;
    data := data0;
    while |data| % 4 != 0
      invariant Padded(data) == Padded(data0)
      decreases Missing(data)
    {
      PadStep(data);
      data := data + [0];
    }
    PadDone(data);
  }

  /** Four characters shifted together and joined by or, which gives a signed number on JavaScript. */
  function PackCell(target: Target, w: Word): (x: Cell)
    ensures Wrap(x) == w && -TWO32 <= x <= TWO32
  {
    WordWraps(w);
    if target.JavaScript? then ToInt32(w) else w
  }

  lemma PackStep(data: Text, i: nat)
    requires |data| % 4 == 0 && i < |data| / 4
    ensures Pack(data[4 * i..]) ==
            [PackWord(data[i * 4], data[i * 4 + 1], data[i * 4 + 2], data[i * 4 + 3])] + Pack(data[4 * (i + 1)..])
  {
    hide PackWord;
    assert data[4 * i..][4..] == data[4 * (i + 1)..];
  }

  lemma PackNone(data: Text)
    requires data == []
    ensures Pack(data) == []
  {
  }

  method PackData(target: Target, data: Text) returns (dataArray: array<Cell>)
    requires |data| % 4 == 0
    ensures fresh(dataArray) && Words(dataArray[..]) == Pack(data)
    ensures Within(dataArray[..], 0, TWO32, TWO32)
  {
    hide PackWord;
    hide Wrap;
    hide Pack;
    var words := |data| / 4;
    dataArray := new Cell[words];
    for i := 0 to words
      invariant Pack(data) == Words(dataArray[..i]) + Pack(data[4 * i..])
      invariant Within(dataArray[..i], 0, TWO32, TWO32)
    {
      dataArray[i] := PackCell(target, PackWord(data[i * 4], data[i * 4 + 1], data[i * 4 + 2], data[i * 4 + 3]));
      PackStep(data, i);
      assert Words(dataArray[..i + 1]) == Words(dataArray[..i]) + [Wrap(dataArray[i])];
    }
    assert dataArray[..] == dataArray[..words];
    PackNone(data[4 * words..]);
  }

  lemma FlatStep(w: seq<Word>, i: nat)
    requires i < |w|
    ensures Flat(Numerals(w[i..]), DASH) == [DASH] + Hex(w[i]) + Flat(Numerals(w[i + 1..]), DASH)
  {
    assert w[i..][1..] == w[i + 1..];
  }

  lemma FlatEnd()
    ensures Flat(Numerals([]), DASH) == []
  {
  }

  /** Numerals show the word of a cell, whatever its sign. */
  method Print(dataArray: array<Cell>) returns (out: Text)
    ensures out == Joined(Numerals(Words(dataArray[..])))
  {
    hide Wrap;
    hide Hex;
    hide Flat;
    hide Numerals;
    out := [];
    ghost var w := Words(dataArray[..]);
    for i := 0 to dataArray.Length
      invariant Flat(Numerals(w), DASH) == out + Flat(Numerals(w[i..]), DASH)
    {
      FlatStep(w, i);
      out := out + [DASH] + Hex(Wrap(dataArray[i]));
    }
    FlatEnd();
    out := if out == [] then [] else out[1..];
  }

  method ReadNumerals(target: Target, pieces: seq<Text>) returns (dataArray: array<Cell>)
    ensures fresh(dataArray) && Words(dataArray[..]) == Parsed(pieces)
    ensures Within(dataArray[..], 0, TWO32, TWO32)
  {
    hide ParseHex;
    hide B32;
    dataArray := new Cell[|pieces|];
    for i := 0 to |pieces|
      invariant forall j :: 0 <= j < i ==> Wrap(dataArray[j]) == ParseHex(pieces[j]) && -TWO32 <= dataArray[j] <= TWO32
    {
      WordWraps(ParseHex(pieces[i]));
      var x: Cell := B32(target, ParseHex(pieces[i]));
      dataArray[i] := x;
    }
  }

  lemma UnpackStep(v: seq<Cell>, i: nat)
    requires i < |v|
    ensures Unpack(v[i..]) == UnpackCell(v[i]) + Unpack(v[i + 1..])
  {
    hide UnpackCell;
    assert v[i..][1..] == v[i + 1..];
  }

  lemma UnpackNone(v: seq<Cell>)
    requires v == []
    ensures Unpack(v) == []
  {
  }

  method UnpackData(dataArray: array<Cell>) returns (out: Text)
    ensures out == Unpack(Words(dataArray[..]))
  {
    hide Wrap;
    hide Unpack;
    out := [];
    for i := 0 to dataArray.Length
      invariant Unpack(dataArray[..]) == out + Unpack(dataArray[..][i..])
    {
      UnpackStep(dataArray[..], i);
      var x := dataArray[i];
      out := out + [x / 0x100_0000 % 256] + [x / 0x1_0000 % 256] + [x / 0x100 % 256] + [x % 256];
    }
    UnpackNone(dataArray[..][dataArray.Length..]);
    UnpackWords(dataArray[..]);
  }

  method Encrypt(target: Target, data0: Text, hashedKey: Text) returns (out: Text)
    requires |hashedKey| == 32
    ensures out == Encrypted(data0, KeyOf(hashedKey))
  {
    var data := Pad(data0);
    var dataArray := PackData(target, data);
    var keyArray := KeyArray(hashedKey);
    Btea(target, dataArray, dataArray.Length, keyArray, TWO32);
    out := Print(dataArray);
  }

  method Decrypt(target: Target, data: Text, hashedKey: Text) returns (out: Text)
    requires |hashedKey| == 32
    ensures out == Decrypted(data, KeyOf(hashedKey))
  {
    var dataArray := ReadNumerals(target, Split(data, DASH));
    var keyArray := KeyArray(hashedKey);
    Btea(target, dataArray, -dataArray.Length, keyArray, TWO32);
    out := UnpackData(dataArray);
  }
}

/** When a line of the address list means what its prefix notation says (section 3.1 of RFC 4632). */
module Cidr {
  import opened Bits
  import opened IpFilter

  predicate IsAddress(o: Octets) {
    0 <= o.a < 256 && 0 <= o.b < 256 && 0 <= o.c < 256 && 0 <= o.d < 256
  }

  /** A line whose octets form an address and whose prefix length is at most 32. */
  predicate WellFormed(line: Line) {
    IsAddress(Octets(line.i1, line.i2, line.i3, line.i4)) && PrefixLength(line) <= 32
  }

  /** The address as a 32-bit number in network order. */
  function Number(o: Octets): int {
    ((o.a * 256 + o.b) * 256 + o.c) * 256 + o.d
  }

  /** The address and the line agree in their first p bits. */
  predicate InBlock(line: Line, o: Octets)
    requires PrefixLength(line) <= 32
  {
    var size := Pow2(32 - PrefixLength(line));
    Number(o) / size == Number(Octets(line.i1, line.i2, line.i3, line.i4)) / size
  }

  /** The packed form of an address, first octet lowest; SplitIp reads it back. */
  function Packed(o: Octets): int {
    o.a + o.b * 0x100 + o.c * 0x1_0000 + o.d * 0x100_0000
  }

  lemma SplitPacked(o: Octets)
    requires IsAddress(o)
    ensures SplitIp(Packed(o)) == o
  {
    ModUnique(Packed(o), 256, o.b + o.c * 256 + o.d * 0x1_0000, o.a);
    ModUnique(Packed(o), 0x1_0000, o.c + o.d * 256, o.a + o.b * 256);
    ModUnique(Packed(o), 0x100_0000, o.d, o.a + o.b * 256 + o.c * 0x1_0000);
    ModUnique(o.b + o.c * 256 + o.d * 0x1_0000, 256, o.c + o.d * 256, o.b);
    ModUnique(o.c + o.d * 256, 256, o.d, o.c);
  }

  lemma SplitIsAddress(ip: int)
    ensures IsAddress(SplitIp(ip))
  {
  }

  lemma {:induction false} PowersDivide(n: nat, m: nat)
    requires n <= m
    ensures Pow2(m) % Pow2(n) == 0
  {
    PowerSum(n, m - n);
    ModUnique(Pow2(m), Pow2(n), Pow2(m - n), 0);
  }

  lemma QuotientOfSum(x: int, n: int, size: int, d: int)
    requires size > 0 && n * size == 256
    ensures (x * 256 + d) / size == x * n + d / size
  {
    assert x * 256 == x * n * size;
    ModUnique(x * 256 + d, size, x * n + d / size, d % size);
  }

  lemma OctetQuotient(d: int, n: int, size: int)
    requires size > 0 && n * size == 256 && 0 <= d < 256
    ensures 0 <= d / size < n
  {
    var q := d / size;
    assert q * size <= d < (q + 1) * size;
    assert q >= n ==> q * size >= n * size;
    assert q < 0 ==> (q + 1) * size <= 0;
  }

  lemma SameQuotient(x: int, y: int, n: int, r: int, s: int)
    requires 0 <= r < n && 0 <= s < n && x * n + r == y * n + s
    ensures x == y && r == s
  {
    ModUnique(x * n + r, n, x, r);
    ModUnique(x * n + r, n, y, s);
  }

  /** Division by a divisor of 256 sees the last octet and the others apart. */
  lemma BlocksWithinOctet(x: int, y: int, d: int, e: int, size: int)
    requires size > 0 && 256 % size == 0 && 0 <= d < 256 && 0 <= e < 256
    ensures (x * 256 + d) / size == (y * 256 + e) / size <==> x == y && d / size == e / size
  {
    var n := 256 / size;
    assert n * size == 256;
    QuotientOfSum(x, n, size, d);
    QuotientOfSum(y, n, size, e);
    OctetQuotient(d, n, size);
    OctetQuotient(e, n, size);
    if x * n + d / size == y * n + e / size {
      SameQuotient(x, y, n, d / size, e / size);
    }
  }

  /** An aligned range is a block. */
  lemma AlignedRange(d: int, base: int, size: int)
    requires size > 0 && base % size == 0
    ensures d / size == base / size <==> base <= d <= base + size - 1
  {
    var q := base / size;
    assert base == q * size;
    if base <= d <= base + size - 1 {
      ModUnique(d, size, q, d - base);
    }
    if d / size == q {
      assert d == q * size + d % size;
    }
  }

  lemma LongPrefix(line: Line, o: Octets)
    requires WellFormed(line) && IsAddress(o) && PrefixLength(line) >= 24
    ensures InBlock(line, o) <==>
            o.a == line.i1 && o.b == line.i2 && o.c == line.i3
            && o.d / Pow2(32 - PrefixLength(line)) == line.i4 / Pow2(32 - PrefixLength(line))
  {
    var size := Pow2(32 - PrefixLength(line));
    Powers();
    PowersDivide(32 - PrefixLength(line), 8);
    BlocksWithinOctet((o.a * 256 + o.b) * 256 + o.c, (line.i1 * 256 + line.i2) * 256 + line.i3, o.d, line.i4, size);
  }

  /** An address outside the named /24 that a shorter prefix still contains. */
  function Neighbour(line: Line): Octets {
    Octets(line.i1, line.i2, if line.i3 % 2 == 0 then line.i3 + 1 else line.i3 - 1, line.i4)
  }

  lemma CoarserQuotient(n: int, m: int, k: int, size: int)
    requires k > 0 && size == 512 * k && n / 512 == m / 512
    ensures n / size == m / size
  {
    var h := n / 512;
    var q, r := h / k, h % k;
    assert n == q * size + (r * 512 + n % 512) by { assert h * 512 == q * k * 512 + r * 512; }
    assert m == q * size + (r * 512 + m % 512) by { assert h * 512 == q * k * 512 + r * 512; }
    ModUnique(n, size, q, r * 512 + n % 512);
    ModUnique(m, size, q, r * 512 + m % 512);
  }

  lemma ShortPrefix(line: Line)
    requires WellFormed(line) && PrefixLength(line) < 24
    ensures IsAddress(Neighbour(line)) && InBlock(line, Neighbour(line)) && !Covers(line, Neighbour(line))
  {
    var size, o := Pow2(32 - PrefixLength(line)), Neighbour(line);
    var n, m := Number(o), Number(Octets(line.i1, line.i2, line.i3, line.i4));
    assert Pow2(9) == 512 by { Powers(); }
    PowersDivide(9, 32 - PrefixLength(line));
    var high := ((line.i1 * 256 + line.i2) * 256 + line.i3) / 2;
    assert n / 512 == high && m / 512 == high by {
      var low := line.i4 + (line.i3 % 2) * 256;
      ModUnique(m, 512, high, low);
      ModUnique(n, 512, high, if low < 256 then low + 256 else low - 256);
    }
    CoarserQuotient(n, m, size / 512, size);
  }

  predicate MeansItsBlock(line: Line)
    requires PrefixLength(line) <= 32
  {
    PrefixLength(line) >= 24 && line.i4 % Pow2(32 - PrefixLength(line)) == 0
  }

  lemma BlockStart(d: int, size: int)
    requires size > 0 && d >= 0
    ensures 0 <= d - d % size <= d && (d - d % size) / size == d / size
  {
    var q := d / size;
    assert d == q * size + d % size;
    assert q >= 0 by { assert q < 0 ==> q * size <= -size; }
    assert q * size >= 0;
    ModUnique(q * size, size, q, 0);
  }

  /**
    A line decides prefix membership for every packed address exactly when its prefix is not
    shorter than 24 bits and its last octet has no bits after the prefix.
   */
  lemma DecidesMembership(line: Line)
    requires WellFormed(line)
    ensures MeansItsBlock(line) <==> forall ip: int :: Covers(line, SplitIp(ip)) <==> InBlock(line, SplitIp(ip))
  {
    var size := Pow2(32 - PrefixLength(line));
    if MeansItsBlock(line) {
      forall ip: int
        ensures Covers(line, SplitIp(ip)) <==> InBlock(line, SplitIp(ip))
      {
        SplitIsAddress(ip);
        LongPrefix(line, SplitIp(ip));
        AlignedRange(SplitIp(ip).d, line.i4, size);
      }
    } else if PrefixLength(line) < 24 {
      ShortPrefix(line);
      SplitPacked(Neighbour(line));
      var ip := Packed(Neighbour(line));
      assert InBlock(line, SplitIp(ip)) && !Covers(line, SplitIp(ip));
    } else {
      var o := Octets(line.i1, line.i2, line.i3, line.i4 - line.i4 % size);
      BlockStart(line.i4, size);
      SplitPacked(o);
      LongPrefix(line, o);
      var ip := Packed(o);
      assert InBlock(line, SplitIp(ip)) && !Covers(line, SplitIp(ip));
    }
  }

  /** A list of such lines, in any order and with overlaps, covers exactly the union of their blocks. */
  lemma ListDecidesMembership(lines: seq<Line>, ip: int)
    requires forall k :: 0 <= k < |lines| ==> WellFormed(lines[k]) && MeansItsBlock(lines[k])
    ensures (exists k :: 0 <= k < |lines| && Covers(lines[k], SplitIp(ip))) <==>
            exists k :: 0 <= k < |lines| && WellFormed(lines[k]) && InBlock(lines[k], SplitIp(ip))
  {
    hide MeansItsBlock;
    hide Covers;
    hide InBlock;
    forall k | 0 <= k < |lines|
      ensures Covers(lines[k], SplitIp(ip)) <==> InBlock(lines[k], SplitIp(ip))
    {
      DecidesMembership(lines[k]);
    }
  }

  /** The first octet is the highest. */
  lemma NumberExample()
    ensures Number(Octets(1, 2, 3, 4)) == 0x0102_0304
  {
  }

  /** A line written with an address, and with a prefix that is missing, 0, or between 24 and 32 and aligned. */
  predicate WellWritten(line: Line) {
    && line.i1 < 256 && line.i2 < 256 && line.i3 < 256 && line.i4 < 256
    && match line.prefix
       case Missing => true
       case Length(p) => p == 0 || (24 <= p <= 32 && line.i4 % Pow2(32 - p) == 0)
  }

  /** The packed address is the one written, or agrees with it in the first p bits as written. */
  predicate InWrittenBlock(line: Line, ip: int) {
    var here := Number(Octets(ip % 256, ip / 0x100 % 256, ip / 0x1_0000 % 256, ip / 0x100_0000 % 256));
    var there := Number(Octets(line.i1, line.i2, line.i3, line.i4));
    match line.prefix
    case Missing => here == there
    case Length(p) => if p == 0 then here == there else p <= 32 && here / Pow2(32 - p) == there / Pow2(32 - p)
  }

  lemma SplitIs(ip: int)
    ensures SplitIp(ip) == Octets(ip % 256, ip / 0x100 % 256, ip / 0x1_0000 % 256, ip / 0x100_0000 % 256)
  {
  }

  lemma OneAddress(line: Line, ip: int)
    ensures Pow2(0) == 1 && line.i4 % Pow2(0) == 0
    ensures forall o :: Number(o) / Pow2(0) == Number(o)
  {
  }

  lemma BlockAsWritten(line: Line, ip: int)
    requires WellWritten(line)
    ensures WellFormed(line) && MeansItsBlock(line)
    ensures InBlock(line, SplitIp(ip)) <==> InWrittenBlock(line, ip)
  {
    hide Pow2;
    hide Number;
    hide SplitIp;
    OneAddress(line, ip);
    var o := SplitIp(ip);
    SplitIs(ip);
  }

  /** The search of the structure read from such a list decides membership in some block of it. */
  method SearchBlocks(lines: seq<Line>, ip: int) returns (found: bool)
    requires forall k :: 0 <= k < |lines| ==> WellWritten(lines[k])
    ensures found <==> exists k :: 0 <= k < |lines| && InWrittenBlock(lines[k], ip)
  {
    hide WellWritten;
    hide MeansItsBlock;
    hide InBlock;
    hide InWrittenBlock;
    hide Covers;
    forall k | 0 <= k < |lines|
      ensures WellFormed(lines[k]) && MeansItsBlock(lines[k])
      ensures InBlock(lines[k], SplitIp(ip)) <==> InWrittenBlock(lines[k], ip)
    {
      BlockAsWritten(lines[k], ip);
    }
    ListDecidesMembership(lines, ip);
    found := MatchList(lines, ip);
  }
}

/**
  In-place coding of a word vector in rounds, where each word is changed by a function of its two
  cyclic neighbours and of a running sum. The order of the changes, and how they are undone, are
  what is proved here, for an arbitrary stirring function g and step delta of the sum.
 */
module Coder {
  import opened Bits

  /** The change of word p, from the next word y, the previous word z and p itself. */
  type Stirrer = (Word, Word, nat) -> int

  function Next(n: nat, p: nat): nat {
    if p + 1 == n then 0 else p + 1
  }

  function Prev(n: nat, p: nat): nat {
    if p > 0 then p - 1 else if n > 0 then n - 1 else 0
  }

  /** What word p is changed by, given its cyclic neighbours among the first n words. */
  function Stir(v: seq<Word>, n: nat, p: nat, f: Stirrer): int
    requires p < n && 2 <= n <= |v|
  {
    f(v[Next(n, p)], v[Prev(n, p)], p)
  }

  function Bump(v: seq<Word>, n: nat, p: nat, f: Stirrer): seq<Word>
    requires p < n && 2 <= n <= |v|
  {
    v[p := Wrap(v[p] + Stir(v, n, p, f))]
  }

  function Unbump(v: seq<Word>, n: nat, p: nat, f: Stirrer): seq<Word>
    requires p < n && 2 <= n <= |v|
  {
    v[p := Wrap(v[p] - Stir(v, n, p, f))]
  }

  /** Words 0 .. p-1 bumped in ascending order. */
  function Round(v: seq<Word>, n: nat, p: nat, f: Stirrer): (w: seq<Word>)
    requires p <= n && 2 <= n <= |v|
    ensures |w| == |v| && w[n..] == v[n..]
  {
    if p == 0 then v else Bump(Round(v, n, p - 1, f), n, p - 1, f)
  }

  /** Words p-1 .. 0 unbumped in descending order. */
  function Unround(v: seq<Word>, n: nat, p: nat, f: Stirrer): (w: seq<Word>)
    requires p <= n && 2 <= n <= |v|
    ensures |w| == |v| && w[n..] == v[n..]
    decreases p
  {
    if p == 0 then v else Unround(Unbump(v, n, p - 1, f), n, p - 1, f)
  }

  /** The running sum of round r. */
  function Schedule(delta: Word, r: nat): Word {
    if r == 0 then 0 else Wrap(Schedule(delta, r - 1) + delta)
  }

  /** Rounds 1 .. r. */
  function Encode(v: seq<Word>, n: nat, r: nat, delta: Word, g: Word -> Stirrer): (w: seq<Word>)
    requires 2 <= n <= |v|
    ensures |w| == |v| && w[n..] == v[n..]
  {
    if r == 0 then v else Round(Encode(v, n, r - 1, delta, g), n, n, g(Schedule(delta, r)))
  }

  /** Rounds r .. 1 undone. */
  function Decode(v: seq<Word>, n: nat, r: nat, delta: Word, g: Word -> Stirrer): (w: seq<Word>)
    requires 2 <= n <= |v|
    ensures |w| == |v| && w[n..] == v[n..]
    decreases r
  {
    if r == 0 then v else Decode(Unround(v, n, n, g(Schedule(delta, r))), n, r - 1, delta, g)
  }

  // ---------- one step, one round, one run, each undone by its opposite ----------

  lemma WrapCancels(x: Word, m: int)
    ensures Wrap(Wrap(x + m) - m) == x && Wrap(Wrap(x - m) + m) == x
  {
    ModUnique(Wrap(x + m) - m, TWO32, -((x + m) / TWO32), x);
    ModUnique(Wrap(x - m) + m, TWO32, -((x - m) / TWO32), x);
  }

  lemma StepsCancel(v: seq<Word>, n: nat, p: nat, f: Stirrer)
    requires p < n && 2 <= n <= |v|
    ensures Unbump(Bump(v, n, p, f), n, p, f) == v
    ensures Bump(Unbump(v, n, p, f), n, p, f) == v
  {
    assert Next(n, p) != p && Prev(n, p) != p;
    WrapCancels(v[p], Stir(v, n, p, f));
  }

  lemma {:induction false} UnroundRound(v: seq<Word>, n: nat, p: nat, f: Stirrer)
    requires p <= n && 2 <= n <= |v|
    ensures Unround(Round(v, n, p, f), n, p, f) == v
  {
    if p == 0 {
    } else {
      StepsCancel(Round(v, n, p - 1, f), n, p - 1, f);
      UnroundRound(v, n, p - 1, f);
    }
  }

  lemma {:induction false} RoundUnround(v: seq<Word>, n: nat, p: nat, f: Stirrer)
    requires p <= n && 2 <= n <= |v|
    ensures Round(Unround(v, n, p, f), n, p, f) == v
    decreases p
  {
    if p == 0 {
    } else {
      RoundUnround(Unbump(v, n, p - 1, f), n, p - 1, f);
      StepsCancel(v, n, p - 1, f);
    }
  }

  lemma {:induction false} DecodeEncode(v: seq<Word>, n: nat, r: nat, delta: Word, g: Word -> Stirrer)
    requires 2 <= n <= |v|
    ensures Decode(Encode(v, n, r, delta, g), n, r, delta, g) == v
  {
    hide Round;
    hide Unround;
    if r == 0 {
    } else {
      UnroundRound(Encode(v, n, r - 1, delta, g), n, n, g(Schedule(delta, r)));
      DecodeEncode(v, n, r - 1, delta, g);
    }
  }

  lemma {:induction false} EncodeDecode(v: seq<Word>, n: nat, r: nat, delta: Word, g: Word -> Stirrer)
    requires 2 <= n <= |v|
    ensures Encode(Decode(v, n, r, delta, g), n, r, delta, g) == v
    decreases r
  {
    if r == 0 {
    } else {
      EncodeDecode(Unround(v, n, n, g(Schedule(delta, r))), n, r - 1, delta, g);
      RoundUnround(v, n, n, g(Schedule(delta, r)));
    }
  }

  // ---------- the running sum ----------

  lemma {:induction false} ScheduleClosed(delta: Word, r: nat)
    ensures Schedule(delta, r) == Wrap(r * delta)
  {
    if r == 0 {
    } else {
      ScheduleClosed(delta, r - 1);
      var q := (r - 1) * delta / TWO32;
      var s := Schedule(delta, r - 1) + delta;
      assert r * delta == q * TWO32 + s;
      ModUnique(r * delta, TWO32, q + s / TWO32, s % TWO32);
    }
  }

  lemma UnitCancels(delta: int, inverse: int, quotient: int, r: int, q: int)
    requires delta * inverse == 1 + quotient * TWO32
    requires r * delta == q * TWO32
    ensures r % TWO32 == 0
  {
    calc {
      r;
      r * (delta * inverse) - r * (quotient * TWO32);
      r * delta * inverse - r * quotient * TWO32;
      q * TWO32 * inverse - r * quotient * TWO32;
      (q * inverse - r * quotient) * TWO32;
    }
    ModUnique(r, TWO32, q * inverse - r * quotient, 0);
  }

  lemma MultipleOfMultiple(r: int, delta: int, q: int)
    requires r == q * TWO32
    ensures r * delta % TWO32 == 0
  {
    assert r * delta == q * delta * TWO32;
    ModUnique(r * delta, TWO32, q * delta, 0);
  }

  /**
    A step that is invertible modulo 2^32 brings the running sum back to zero only after a
    multiple of 2^32 rounds.
   */
  lemma ScheduleZero(delta: Word, inverse: int, quotient: int, r: nat)
    requires delta * inverse == 1 + quotient * TWO32
    ensures Schedule(delta, r) == 0 <==> r % TWO32 == 0
  {
    ScheduleClosed(delta, r);
    if Schedule(delta, r) == 0 {
      UnitCancels(delta, inverse, quotient, r, r * delta / TWO32);
    }
    if r % TWO32 == 0 {
      MultipleOfMultiple(r, delta, r / TWO32);
    }
  }

  // ---------- the loops ----------

  /**
    What a target stores for a word: an integer congruent to it modulo 2^32. Targets that do not
    reduce their results let it grow from round to round, but never to this bound.
   */
  type Cell = x: int | -0x100_0000_0000 < x < 0x100_0000_0000

  /** An intermediate result: exact in a double, and within the 64-bit integers of PHP. */
  type Number = x: int | -0x20_0000_0000_0000 < x < 0x20_0000_0000_0000

  /** What one step changes a word by. */
  type Change = x: int | -0x1_0000_0000 <= x < 0x1_0000_0000

  type CellStirrer = (Cell, Cell, nat) -> Change

  /** The most that cells can be when coding starts, and the most that they grow by. */
  const START_LIMIT := 0x40_0000_0000
  const GROWTH := 0x20_0000_0000

  /** The words that cells stand for. */
  function Words(v: seq<Cell>): (w: seq<Word>)
    ensures |w| == |v| && forall i :: 0 <= i < |v| ==> w[i] == Wrap(v[i])
  {
    seq(|v|, i requires 0 <= i < |v| => Wrap(v[i]))
  }

  /** norm keeps the word of a number, and leaves it alone or brings it below 2^32. */
  predicate KeepsWord(norm: Number -> Number, x: Number) {
    Wrap(norm(x)) == Wrap(x) && (norm(x) == x || -TWO32 < norm(x) < TWO32)
  }

  /** Before a subtraction it makes no difference to the number that norm leaves after one. */
  predicate Subtracts(norm: Number -> Number, x: Cell, d: Cell) {
    KeepsWord(norm, x) && norm(norm(x) - d) == norm(x - d)
  }

  ghost predicate Normalizes(norm: Number -> Number) {
    && norm(0) == 0
    && (forall x: Number :: KeepsWord(norm, x))
    && (forall x: Cell, d: Cell :: Subtracts(norm, x, d))
  }

  ghost predicate Follows(h: CellStirrer, f: Stirrer) {
    forall y: Cell, z: Cell, p: nat {:trigger h(y, z, p)} :: Wrap(h(y, z, p)) == Wrap(f(Wrap(y), Wrap(z), p))
  }

  ghost predicate AllFollow(h: Cell -> CellStirrer, g: Word -> Stirrer) {
    forall sum: Cell {:trigger h(sum)} :: Follows(h(sum), g(Wrap(sum)))
  }

  /** The first p cells are at most a in magnitude, and the others at most b. */
  ghost predicate Within(v: seq<Cell>, p: int, a: int, b: int) {
    forall i :: 0 <= i < |v| ==> if i < p then -a <= v[i] <= a else -b <= v[i] <= b
  }

  lemma ChangeFits(norm: Number -> Number, c: Cell, m: Change, b: int)
    requires Normalizes(norm) && -b <= c <= b && TWO32 <= b < 0x80_0000_0000
    ensures -b - TWO32 <= norm(c + m) <= b + TWO32 && -b - TWO32 <= norm(c - m) <= b + TWO32
  {
    assert KeepsWord(norm, c + m) && KeepsWord(norm, c - m);
  }

  lemma WordsAfterBump(v: seq<Cell>, n: nat, p: nat, norm: Number -> Number, y: Cell, z: Cell, h: CellStirrer,
                       f: Stirrer, x: Cell)
    requires p < n && 2 <= n <= |v| && y == v[Next(n, p)] && z == v[Prev(n, p)]
    requires Normalizes(norm) && Follows(h, f)
    ensures x == norm(v[p] + h(y, z, p)) ==> Words(v[p := x]) == Bump(Words(v), n, p, f)
    ensures x == norm(v[p] - h(y, z, p)) ==> Words(v[p := x]) == Unbump(Words(v), n, p, f)
  {
    assert KeepsWord(norm, v[p] + h(y, z, p)) && KeepsWord(norm, v[p] - h(y, z, p));
    WrapOfSum(v[p], h(y, z, p), Wrap(v[p]), f(Wrap(y), Wrap(z), p));
    assert Stir(Words(v), n, p, f) == f(Wrap(y), Wrap(z), p);
  }

  lemma RoundNone(v: seq<Word>, n: nat, f: Stirrer)
    requires 2 <= n <= |v|
    ensures Round(v, n, 0, f) == v
  {
  }

  lemma RoundTurn(v: seq<Word>, n: nat, p: nat, f: Stirrer)
    requires p < n && 2 <= n <= |v|
    ensures Round(v, n, p + 1, f) == Bump(Round(v, n, p, f), n, p, f)
  {
  }

  lemma UnroundTurn(v: seq<Word>, n: nat, p: nat, f: Stirrer)
    requires p < n && 2 <= n <= |v|
    ensures Unround(v, n, p + 1, f) == Unround(Unbump(v, n, p, f), n, p, f)
    ensures p == 0 ==> Unround(v, n, p + 1, f) == Unbump(v, n, p, f)
  {
  }

  /** One encoding round; z enters and leaves as the last of the n words. */
  method RoundInPlace(v: array<Cell>, n: nat, z0: Cell, norm: Number -> Number, h: CellStirrer, ghost f: Stirrer,
                      ghost b: int)
    returns (z: Cell)
    requires 2 <= n <= v.Length && z0 == v[n - 1]
    requires Normalizes(norm) && Follows(h, f)
    requires TWO32 <= b < 0x80_0000_0000 && Within(v[..], 0, b, b)
    modifies v
    ensures Words(v[..]) == Round(Words(old(v[..])), n, n, f)
    ensures z == v[n - 1] && Within(v[..], 0, b + TWO32, b + TWO32)
  {
    hide Wrap;
    hide Round;
    hide Bump;
    hide Normalizes;
    hide Follows;
    z := z0;
    var p := 0;
    ghost var v0 := Words(v[..]);
    RoundNone(v0, n, f);
    while p < n - 1
      invariant 0 <= p <= n - 1
      invariant z == v[Prev(n, p)]
      invariant Within(v[..], p, b + TWO32, b)
      invariant Words(v[..]) == Round(v0, n, p, f)
    {
      RoundTurn(v0, n, p, f);
      var y := v[p + 1];
      ChangeFits(norm, v[p], h(y, z, p), b);
      var x: Cell := norm(v[p] + h(y, z, p));
      WordsAfterBump(v[..], n, p, norm, y, z, h, f, x);
      v[p] := x;
      z := v[p];
      p := p + 1;
    }
    RoundTurn(v0, n, n - 1, f);
    var y := v[0];
    ChangeFits(norm, v[n - 1], h(y, z, p), b);
    var x: Cell := norm(v[n - 1] + h(y, z, p));
    WordsAfterBump(v[..], n, n - 1, norm, y, z, h, f, x);
    v[n - 1] := x;
    z := v[n - 1];
  }

  /** One decoding round; y enters and leaves as the first word, which has a stirrer h0 of its own. */
  method UnroundInPlace(v: array<Cell>, n: nat, y0: Cell, norm: Number -> Number, h: CellStirrer, h0: CellStirrer,
                        ghost f: Stirrer, ghost b: int)
    returns (y: Cell)
    requires 2 <= n <= v.Length && y0 == v[0]
    requires Normalizes(norm) && Follows(h, f) && Follows(h0, f)
    requires TWO32 <= b < 0x80_0000_0000 && Within(v[..], 0, b, b)
    modifies v
    ensures Words(v[..]) == Unround(Words(old(v[..])), n, n, f)
    ensures y == v[0] && Within(v[..], 0, b + TWO32, b + TWO32)
  {
    hide Wrap;
    hide Unround;
    hide Unbump;
    hide Normalizes;
    hide Follows;
    y := y0;
    var p := n - 1;
    ghost var goal := Unround(Words(v[..]), n, n, f);
    while p > 0
      invariant 0 <= p <= n - 1
      invariant y == v[Next(n, p)]
      invariant Within(v[..], p + 1, b, b + TWO32)
      invariant Unround(Words(v[..]), n, p + 1, f) == goal
    {
      var z := v[p - 1];
      ChangeFits(norm, v[p], h(y, z, p), b);
      var x: Cell := norm(v[p] - h(y, z, p));
      WordsAfterBump(v[..], n, p, norm, y, z, h, f, x);
      UnroundTurn(Words(v[..]), n, p, f);
      ghost var after := Unbump(Words(v[..]), n, p, f);
      v[p] := x;
      assert Words(v[..]) == after;
      y := v[p];
      p := p - 1;
    }
    var z := v[n - 1];
    ChangeFits(norm, v[0], h0(y, z, p), b);
    var x: Cell := norm(v[0] - h0(y, z, p));
    WordsAfterBump(v[..], n, 0, norm, y, z, h0, f, x);
    UnroundTurn(Words(v[..]), n, 0, f);
    v[0] := x;
    y := v[0];
  }

  lemma ZeroWraps()
    ensures Wrap(0) == 0
  {
  }

  lemma ScheduleStep(delta: Word, r: nat)
    ensures Schedule(delta, r + 1) == Wrap(Schedule(delta, r) + delta)
    ensures Wrap(Schedule(delta, r)) == Schedule(delta, r) && Wrap(delta) == delta
  {
  }

  lemma SumAdvances(sum: Cell, step: Change, r: nat, norm: Number -> Number)
    requires Normalizes(norm) && Wrap(sum) == Schedule(Wrap(step), r)
    ensures Wrap(norm(sum + step)) == Schedule(Wrap(step), r + 1)
  {
    hide Wrap;
    assert KeepsWord(norm, sum + step);
    ScheduleStep(Wrap(step), r);
    WrapOfSum(sum, step, Schedule(Wrap(step), r), Wrap(step));
  }

  lemma StepsFit(r: nat, step: int)
    requires r <= 32 && -TWO32 <= step <= TWO32
    ensures -32 * TWO32 <= r * step <= 32 * TWO32
  {
    assert r * (TWO32 - step) >= 0 && r * (TWO32 + step) >= 0;
    assert r * (TWO32 - step) == r * TWO32 - r * step && r * (TWO32 + step) == r * TWO32 + r * step;
  }

  /** A number of steps at once. */
  function Steps(r: nat, step: Change): (x: Cell)
    requires r <= 32
    ensures x == r * step
  {
    StepsFit(r, step);
    r * step
  }

  /** The sum of r + 1 steps, counted down by one, is what the target makes of r steps. */
  lemma SumRetreats(sum: Cell, step: Change, r: nat, norm: Number -> Number)
    requires Normalizes(norm) && r < 32 && sum == norm(Steps(r + 1, step))
    ensures norm(sum - step) == norm(Steps(r, step))
  {
    var x, d: Cell := Steps(r + 1, step), step;
    assert x - d == Steps(r, step);
    assert Subtracts(norm, x, d);
  }

  lemma WrapOfMultiple(a: int, q: int, c: int)
    requires a == q * TWO32 + c
    ensures Wrap(a) == Wrap(c)
  {
    ModUnique(a, TWO32, q + c / TWO32, Wrap(c));
  }

  lemma ProductWraps(r: nat, x: int)
    ensures Wrap(r * x) == Wrap(r * Wrap(x))
  {
    var q := x / TWO32;
    assert x == q * TWO32 + Wrap(x);
    assert r * x == r * (q * TWO32) + r * Wrap(x);
    WrapOfMultiple(r * x, r * q, r * Wrap(x));
  }

  lemma SumIsSchedule(step: Change, r: nat, norm: Number -> Number)
    requires Normalizes(norm) && r <= 32
    ensures -0x80_0000_0000 <= norm(Steps(r, step)) <= 0x80_0000_0000
    ensures Wrap(norm(Steps(r, step))) == Schedule(Wrap(step), r)
    ensures r == 0 ==> norm(Steps(r, step)) == 0
  {
    hide Wrap;
    ScheduleClosed(Wrap(step), r);
    StepsFit(r, step);
    var x := Steps(r, step);
    assert KeepsWord(norm, x);
    ProductWraps(r, step);
  }

  lemma EncodeTurn(v: seq<Word>, n: nat, r: nat, delta: Word, g: Word -> Stirrer, before: seq<Word>, after: seq<Word>)
    requires 2 <= n <= |v| && r > 0 && before == Encode(v, n, r - 1, delta, g)
    requires after == Round(before, n, n, g(Schedule(delta, r)))
    ensures after == Encode(v, n, r, delta, g)
  {
  }

  lemma DecodeNone(v: seq<Word>, n: nat, delta: Word, g: Word -> Stirrer)
    requires 2 <= n <= |v|
    ensures Decode(v, n, 0, delta, g) == v
  {
  }

  lemma DecodeTurn(n: nat, r: nat, delta: Word, g: Word -> Stirrer, before: seq<Word>, after: seq<Word>)
    requires 2 <= n <= |before| && r > 0
    requires after == Unround(before, n, n, g(Schedule(delta, r)))
    ensures Decode(after, n, r - 1, delta, g) == Decode(before, n, r, delta, g)
  {
  }

  lemma EncodeNone(v: seq<Word>, n: nat, delta: Word, g: Word -> Stirrer)
    requires 2 <= n <= |v|
    ensures Encode(v, n, 0, delta, g) == v && Wrap(0) == Schedule(delta, 0)
  {
  }

  /** The encoder, counting rounds down. */
  method EncodeInPlace(v: array<Cell>, n: nat, total: nat, step: Change, norm: Number -> Number,
                       h: Cell -> CellStirrer, ghost g: Word -> Stirrer, ghost b: int)
    requires 2 <= n <= v.Length && 0 < total <= 32
    requires Normalizes(norm) && AllFollow(h, g)
    requires TWO32 <= b <= START_LIMIT && Within(v[..], 0, b, b)
    modifies v
    ensures Words(v[..]) == Encode(Words(old(v[..])), n, total, Wrap(step), g)
    ensures Within(v[..], 0, b + GROWTH, b + GROWTH)
  {
    hide Wrap;
    hide Encode;
    hide Schedule;
    hide Round;
    hide Normalizes;
    var rounds := total;
    var sum: Cell := 0;
    ghost var delta, v0 := Wrap(step), Words(v[..]);
    EncodeNone(v0, n, delta, g);
    var z := v[n - 1];
    ghost var r := 0;
    while rounds != 0
      invariant rounds + r == total
      invariant Wrap(sum) == Schedule(delta, r) && -(r + 1) * TWO32 <= sum <= (r + 1) * TWO32
      invariant z == v[n - 1]
      invariant Within(v[..], 0, b + r * TWO32, b + r * TWO32)
      invariant Words(v[..]) == Encode(v0, n, r, delta, g)
      decreases rounds
    {
      SumAdvances(sum, step, r, norm);
      ChangeFits(norm, sum, step, (r + 1) * TWO32);
      sum := norm(sum + step);
      r := r + 1;
      ghost var before := Words(v[..]);
      z := RoundInPlace(v, n, z, norm, h(sum), g(Schedule(delta, r)), b + (r - 1) * TWO32);
      EncodeTurn(v0, n, r, delta, g, before, Words(v[..]));
      rounds := rounds - 1;
    }
  }

  /**
    The decoder. Nothing counts its rounds: it stops when the running sum is zero, which it must
    not be before the first round is undone.
   */
  method DecodeInPlace(v: array<Cell>, n: nat, total: nat, step: Change, norm: Number -> Number,
                       h: Cell -> CellStirrer, h0: Cell -> CellStirrer, ghost g: Word -> Stirrer, ghost b: int)
    requires 2 <= n <= v.Length && 0 < total <= 32
    requires Normalizes(norm) && AllFollow(h, g) && AllFollow(h0, g)
    requires forall r: nat :: r <= total ==> (Schedule(Wrap(step), r) == 0 <==> r == 0)
    requires TWO32 <= b <= START_LIMIT && Within(v[..], 0, b, b)
    modifies v
    ensures Words(v[..]) == Decode(Words(old(v[..])), n, total, Wrap(step), g)
    ensures Within(v[..], 0, b + GROWTH, b + GROWTH)
  {
    hide Wrap;
    hide Decode;
    hide Unround;
    hide Schedule;
    hide Normalizes;
    ZeroWraps();
    SumIsSchedule(step, total, norm);
    var sum: Cell := norm(Steps(total, step));
    var y := v[0];
    var again := true;
    ghost var r, delta, v0 := total, Wrap(step), Words(v[..]);
    while again
      invariant 0 <= r <= total
      invariant sum == norm(Steps(r, step)) && Wrap(sum) == Schedule(delta, r)
      invariant again <==> r != 0
      invariant y == v[0]
      invariant Within(v[..], 0, b + (total - r) * TWO32, b + (total - r) * TWO32)
      invariant Decode(Words(v[..]), n, r, delta, g) == Decode(v0, n, total, delta, g)
      decreases r
    {
      ghost var before := Words(v[..]);
      y := UnroundInPlace(v, n, y, norm, h(sum), h0(sum), g(Schedule(delta, r)), b + (total - r) * TWO32);
      DecodeTurn(n, r, delta, g, before, Words(v[..]));
      r := r - 1;
      SumRetreats(sum, step, r, norm);
      SumIsSchedule(step, r, norm);
      sum := norm(sum - step);
      again := sum != 0;
    }
    DecodeNone(Words(v[..]), n, delta, g);
  }
}

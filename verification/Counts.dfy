/** The four byte counters of a record, and finite sums of them. */
module Counts {
  datatype Counts = Counts(down: int, up: int, uDown: int, uUp: int)

  const ZERO := Counts(0, 0, 0, 0)

  function Plus(a: Counts, b: Counts): Counts {
    Counts(a.down + b.down, a.up + b.up, a.uDown + b.uDown, a.uUp + b.uUp)
  }

  function Minus(a: Counts, b: Counts): Counts {
    Counts(a.down - b.down, a.up - b.up, a.uDown - b.uDown, a.uUp - b.uUp)
  }

  predicate NonNegative(a: Counts) {
    a.down >= 0 && a.up >= 0 && a.uDown >= 0 && a.uUp >= 0
  }

  /** Field by field. */
  predicate AtMost(a: Counts, b: Counts) {
    a.down <= b.down && a.up <= b.up && a.uDown <= b.uDown && a.uUp <= b.uUp
  }

  lemma AtMostPlus(a: Counts, b: Counts, c: Counts)
    ensures AtMost(a, b) ==> AtMost(Plus(a, c), Plus(b, c))
    ensures Plus(a, c) == Plus(b, c) <==> a == b
    ensures NonNegative(c) ==> AtMost(a, Plus(a, c))
  {
  }

  lemma PlusZero(a: Counts)
    ensures Plus(a, ZERO) == a == Plus(ZERO, a)
  {
  }

  lemma PlusCommutes(a: Counts, b: Counts)
    ensures Plus(a, b) == Plus(b, a)
  {
  }

  lemma PlusAssociative(a: Counts, b: Counts, c: Counts)
    ensures Plus(a, Plus(b, c)) == Plus(Plus(a, b), c)
  {
  }

  lemma MinusCancels(a: Counts, b: Counts)
    ensures Plus(b, Minus(a, b)) == a
  {
  }

  lemma MinusOfPlus(a: Counts, b: Counts)
    ensures Minus(Plus(a, b), a) == b && Minus(a, ZERO) == a
  {
  }

  lemma PlusNonNegative(a: Counts, b: Counts)
    requires NonNegative(a) && NonNegative(b)
    ensures NonNegative(Plus(a, b))
    ensures Plus(a, b) == ZERO ==> a == ZERO && b == ZERO
  {
    var c := Plus(a, b);
    if c == ZERO {
      assert c.down == 0 && c.up == 0 && c.uDown == 0 && c.uUp == 0;
      assert a == Counts(0, 0, 0, 0);
    }
  }

  lemma PlusSwap(a: Counts, b: Counts, c: Counts)
    ensures Plus(a, Plus(b, c)) == Plus(b, Plus(a, c)) == Plus(Plus(a, b), c)
  {
  }

  lemma PlusMiddle(a: Counts, b: Counts, c: Counts)
    ensures Plus(Plus(a, b), c) == Plus(Plus(a, c), b)
  {
  }

  lemma PlusFour(a: Counts, b: Counts, c: Counts, d: Counts)
    ensures Plus(Plus(a, b), Plus(c, d)) == Plus(Plus(a, c), Plus(b, d))
  {
  }

  // ---------- sums over a finite set ----------

  ghost function Sum<K(!new)>(ks: set<K>, f: K -> Counts): Counts {
    if ks == {} then ZERO else
      var k :| k in ks;
      Plus(f(k), Sum(ks - {k}, f))
  }

  lemma {:induction false} SumRemove<K(!new)>(ks: set<K>, f: K -> Counts, k: K)
    requires k in ks
    ensures Sum(ks, f) == Plus(f(k), Sum(ks - {k}, f))
    decreases ks
  {
    var j :| j in ks && Sum(ks, f) == Plus(f(j), Sum(ks - {j}, f));
    if j == k {
    } else {
      SumRemove(ks - {j}, f, k);
      SumRemove(ks - {k}, f, j);
      var rest := ks - {j} - {k};
      assert ks - {k} - {j} == rest;
      PlusSwap(f(j), f(k), Sum(rest, f));
    }
  }

  lemma {:induction false} SumPlus<K(!new)>(ks: set<K>, f: K -> Counts, g: K -> Counts, h: K -> Counts)
    requires forall k :: k in ks ==> h(k) == Plus(f(k), g(k))
    ensures Sum(ks, h) == Plus(Sum(ks, f), Sum(ks, g))
    decreases ks
  {
    if ks == {} {
    } else {
      var k :| k in ks;
      SumRemove(ks, f, k);
      SumRemove(ks, g, k);
      SumRemove(ks, h, k);
      SumPlus(ks - {k}, f, g, h);
      hide Sum;
      hide Plus;
      PlusFour(f(k), g(k), Sum(ks - {k}, f), Sum(ks - {k}, g));
    }
  }

  lemma {:induction false} SumEqual<K(!new)>(ks: set<K>, f: K -> Counts, g: K -> Counts)
    requires forall k :: k in ks ==> f(k) == g(k)
    ensures Sum(ks, f) == Sum(ks, g)
    decreases ks
  {
    if ks == {} {
    } else {
      var k :| k in ks;
      SumRemove(ks, f, k);
      SumRemove(ks, g, k);
      SumEqual(ks - {k}, f, g);
    }
  }

  lemma {:induction false} SumOfZeros<K(!new)>(ks: set<K>, f: K -> Counts)
    requires forall k :: k in ks ==> f(k) == ZERO
    ensures Sum(ks, f) == ZERO
    decreases ks
  {
    if ks == {} {
    } else {
      var k :| k in ks;
      SumRemove(ks, f, k);
      SumOfZeros(ks - {k}, f);
    }
  }

  lemma {:induction false} SumUnion<K(!new)>(ks: set<K>, ls: set<K>, f: K -> Counts)
    requires ks !! ls
    ensures Sum(ks + ls, f) == Plus(Sum(ks, f), Sum(ls, f))
    decreases ks
  {
    if ks == {} {
      assert ks + ls == ls;
    } else {
      var k :| k in ks;
      SumRemove(ks, f, k);
      SumRemove(ks + ls, f, k);
      assert ks + ls - {k} == (ks - {k}) + ls;
      SumUnion(ks - {k}, ls, f);
    }
  }

  /** Elements outside a part contribute nothing. */
  lemma SumPart<K(!new)>(ks: set<K>, part: set<K>, f: K -> Counts)
    requires part <= ks
    requires forall k :: k in ks - part ==> f(k) == ZERO
    ensures Sum(ks, f) == Sum(part, f)
  {
    assert ks == part + (ks - part);
    SumUnion(part, ks - part, f);
    SumOfZeros(ks - part, f);
  }

  lemma {:induction false} SumNonNegative<K(!new)>(ks: set<K>, f: K -> Counts)
    requires forall k :: k in ks ==> NonNegative(f(k))
    ensures NonNegative(Sum(ks, f))
    ensures forall k :: k in ks && f(k) != ZERO ==> Sum(ks, f) != ZERO
    decreases ks
  {
    if ks == {} {
      assert Sum(ks, f) == ZERO;
    } else {
      var j :| j in ks;
      SumRemove(ks, f, j);
      SumNonNegative(ks - {j}, f);
      hide Sum;
      hide Plus;
      hide NonNegative;
      assert forall k :: k in ks && k != j ==> k in ks - {j};
      PlusNonNegative(f(j), Sum(ks - {j}, f));
    }
  }

  /** The sum of integers over a finite set. */
  ghost function IntSumOver<K(!new)>(ks: set<K>, f: K -> int): int {
    if ks == {} then 0 else
      var k :| k in ks;
      f(k) + IntSumOver(ks - {k}, f)
  }

  lemma {:induction false} IntSumRemove<K(!new)>(ks: set<K>, f: K -> int, k: K)
    requires k in ks
    ensures IntSumOver(ks, f) == f(k) + IntSumOver(ks - {k}, f)
    decreases ks
  {
    var j :| j in ks && IntSumOver(ks, f) == f(j) + IntSumOver(ks - {j}, f);
    if j == k {
    } else {
      IntSumRemove(ks - {j}, f, k);
      IntSumRemove(ks - {k}, f, j);
      assert ks - {j} - {k} == ks - {k} - {j};
    }
  }

  /** Pairs of integers counted as unmetered for a part of a set and as metered for the rest, summed by field. */
  lemma {:induction false} SumByField<K(!new)>(ks: set<K>, part: set<K>, f: K -> Counts, d: K -> int, u: K -> int)
    requires part <= ks
    requires forall k :: k in ks ==> f(k) == if k in part then Counts(0, 0, d(k), u(k)) else Counts(d(k), u(k), 0, 0)
    ensures Sum(ks, f).down == IntSumOver(ks - part, d) && Sum(ks, f).up == IntSumOver(ks - part, u)
    ensures Sum(ks, f).uDown == IntSumOver(part, d) && Sum(ks, f).uUp == IntSumOver(part, u)
    decreases ks
  {
    if ks == {} {
    } else {
      var k :| k in ks;
      SumRemove(ks, f, k);
      if k in part {
        IntSumRemove(part, d, k);
        IntSumRemove(part, u, k);
        assert (ks - {k}) - (part - {k}) == ks - part;
        SumByField(ks - {k}, part - {k}, f, d, u);
      } else {
        IntSumRemove(ks - part, d, k);
        IntSumRemove(ks - part, u, k);
        assert (ks - {k}) - part == (ks - part) - {k};
        SumByField(ks - {k}, part, f, d, u);
      }
    }
  }

  // ---------- sums over a sequence ----------

  ghost function SeqSum<K(!new)>(ks: seq<K>, f: K -> Counts): Counts {
    if ks == [] then ZERO else Plus(SeqSum(ks[..|ks| - 1], f), f(ks[|ks| - 1]))
  }

  ghost predicate Distinct<K>(ks: seq<K>) {
    forall i, j :: 0 <= i < j < |ks| ==> ks[i] != ks[j]
  }

  ghost function Elements<K(!new)>(ks: seq<K>): set<K> {
    set i | 0 <= i < |ks| :: ks[i]
  }

  /** A sequence without repeats sums to the same as the set of its elements. */
  lemma {:induction false} SeqSumIsSum<K(!new)>(ks: seq<K>, f: K -> Counts)
    requires Distinct(ks)
    ensures SeqSum(ks, f) == Sum(Elements(ks), f)
  {
    if ks == [] {
    } else {
      var n := |ks| - 1;
      SeqSumIsSum(ks[..n], f);
      assert Elements(ks) - {ks[n]} == Elements(ks[..n]) by {
        assert forall i :: 0 <= i < n ==> ks[..n][i] == ks[i];
      }
      SumRemove(Elements(ks), f, ks[n]);
    }
  }
}

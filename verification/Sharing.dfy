/** How putData of dinemeter.master.backend.Controller splits one record among several users. */
module Sharing {
  import opened Counts
  import opened Totals
  import opened TotalLaws

  datatype User = User(id: nat, downQuota: real, upQuota: real)

  /** Math.round(x / (whole / part)); dividing by a zero part gives an infinite divisor and so nothing. */
  function Proportional(x: int, whole: real, part: real): int {
    if part == 0.0 || whole == 0.0 then 0 else Round(x as real / (whole / part))
  }

  /** All that the branches of putData look at for one user. */
  datatype Basis = Basis(n: int, limitDown: real, limitUp: real, grand: Counts, user: User, used: Counts)

  function DownShare(x: int, b: Basis): int
    requires b.n > 0
  {
    if b.limitDown == 0.0 then Round(x as real / b.n as real)
    else if b.grand.down == 0 then Proportional(x, b.limitDown, b.user.downQuota)
    else if b.used.down > 0 then Proportional(x, b.grand.down as real, b.used.down as real)
    else 0
  }

  /** The upload branch also asks whether the download total is zero. */
  function UpShare(x: int, b: Basis): int
    requires b.n > 0
  {
    if b.limitUp == 0.0 then Round(x as real / b.n as real)
    else if b.grand.down == 0 then Proportional(x, b.limitUp, b.user.upQuota)
    else if b.used.up > 0 then Proportional(x, b.grand.up as real, b.used.up as real)
    else 0
  }

  function UnmeteredShare(x: int, n: int, grand: int, used: int): int
    requires n > 0
  {
    if grand == 0 then Round(x as real / n as real)
    else if used > 0 then Proportional(x, grand as real, used as real)
    else 0
  }

  function SharesOf(c: Counts, b: Basis): Counts
    requires b.n > 0
  {
    Counts(DownShare(c.down, b), UpShare(c.up, b),
           UnmeteredShare(c.uDown, b.n, b.grand.uDown, b.used.uDown),
           UnmeteredShare(c.uUp, b.n, b.grand.uUp, b.used.uUp))
  }

  // ---------- sums over the users ----------

  function RealSum(ws: seq<real>): real {
    if ws == [] then 0.0 else RealSum(ws[..|ws| - 1]) + ws[|ws| - 1]
  }

  function IntSum(xs: seq<int>): int {
    if xs == [] then 0 else IntSum(xs[..|xs| - 1]) + xs[|xs| - 1]
  }

  function CountsSum(cs: seq<Counts>): Counts {
    if cs == [] then ZERO else Plus(CountsSum(cs[..|cs| - 1]), cs[|cs| - 1])
  }

  function DownQuotas(users: seq<User>): seq<real> {
    seq(|users|, i requires 0 <= i < |users| => users[i].downQuota)
  }

  function UpQuotas(users: seq<User>): seq<real> {
    seq(|users|, i requires 0 <= i < |users| => users[i].upQuota)
  }

  function BasisFor(users: seq<User>, useds: seq<Counts>, i: nat): Basis
    requires i < |users| == |useds|
  {
    Basis(|users|, RealSum(DownQuotas(users)), RealSum(UpQuotas(users)), CountsSum(useds), users[i], useds[i])
  }

  /** The shares of all users, from their quotas and what each has used. */
  function AllShares(c: Counts, users: seq<User>, useds: seq<Counts>): (shares: seq<Counts>)
    requires |users| == |useds|
    ensures |shares| == |users|
  {
    seq(|users|, i requires 0 <= i < |users| => SharesOf(c, BasisFor(users, useds, i)))
  }

  function Picks(cs: seq<Counts>, f: Field): (xs: seq<int>)
    ensures |xs| == |cs| && forall i :: 0 <= i < |cs| ==> xs[i] == Pick(cs[i], f)
  {
    seq(|cs|, i requires 0 <= i < |cs| => Pick(cs[i], f))
  }

  // ---------- proportional shares sum to the whole, but for rounding ----------

  lemma RoundClose(v: real)
    ensures -0.5 <= Round(v) as real - v <= 0.5
  {
  }

  function ExactPart(x: int, w: real, total: real): real
    requires total != 0.0
  {
    x as real * w / total
  }

  /** A share is within one half of its exact part x * w / total, and nothing for a part of nothing. */
  ghost predicate IsShare(share: int, x: int, w: real, total: real)
    requires total != 0.0
  {
    WithinHalf(share, ExactPart(x, w, total))
  }

  lemma ProportionalIsShare(x: int, whole: real, part: real)
    requires whole > 0.0 && part >= 0.0
    ensures IsShare(Proportional(x, whole, part), x, part, whole)
  {
    if part > 0.0 {
      QuotientScaled(x as real, whole, part);
      var v := x as real / (whole / part);
      assert v == x as real * part / whole;
      RoundClose(v);
    }
  }

  lemma NoPart(x: int, total: real)
    requires total > 0.0
    ensures ExactPart(x, 0.0, total) == 0.0
  {
  }

  lemma Distribute(x: int, a: real, b: real, total: real)
    requires total > 0.0
    ensures ExactPart(x, a + b, total) == ExactPart(x, a, total) + ExactPart(x, b, total)
  {
    var r := x as real;
    assert r * (a + b) == r * a + r * b;
  }

  /** Shares by weights that sum to the total sum to within half a byte per user of the whole. */
  lemma {:induction false} SharesSum(shares: seq<int>, x: int, ws: seq<real>, total: real)
    requires |shares| == |ws| && total > 0.0
    requires forall i :: 0 <= i < |ws| ==> IsShare(shares[i], x, ws[i], total)
    ensures WithinHalves(IntSum(shares), ExactPart(x, RealSum(ws), total), |ws|)
  {
    hide ExactPart;
    if ws == [] {
      NoPart(x, total);
    } else {
      var n := |ws| - 1;
      SharesSum(shares[..n], x, ws[..n], total);
      Distribute(x, RealSum(ws[..n]), ws[n], total);
      assert IsShare(shares[n], x, ws[n], total);
    }
  }

  /** Twice the distance from x is at most n. */
  predicate WithinHalfEach(sum: int, x: int, n: int) {
    -n <= 2 * (sum - x) <= n
  }

  lemma AllOfIt(x: int, total: real)
    requires total > 0.0
    ensures ExactPart(x, total, total) == x as real
  {
  }

  lemma CastHalves(e: int, n: int)
    requires -0.5 * n as real <= e as real <= 0.5 * n as real
    ensures -n <= 2 * e <= n
  {
    assert (2 * e) as real == 2.0 * e as real;
  }

  lemma WholeShared(shares: seq<int>, x: int, ws: seq<real>)
    requires |shares| == |ws| && RealSum(ws) > 0.0
    requires forall i :: 0 <= i < |ws| ==> IsShare(shares[i], x, ws[i], RealSum(ws))
    ensures WithinHalfEach(IntSum(shares), x, |ws|)
  {
    hide ExactPart;
    hide IsShare;
    SharesSum(shares, x, ws, RealSum(ws));
    AllOfIt(x, RealSum(ws));
    CastHalves(IntSum(shares) - x, |ws|);
  }

  lemma {:induction false} EqualWeights(n: nat)
    ensures RealSum(seq(n, _ => 1.0)) == n as real
  {
    if n == 0 {
    } else {
      EqualWeights(n - 1);
      assert seq(n, _ => 1.0)[..n - 1] == seq(n - 1, _ => 1.0);
    }
  }

  lemma EqualSplit(x: int, shares: seq<int>)
    requires |shares| > 0
    requires forall i :: 0 <= i < |shares| ==> shares[i] == Round(x as real / |shares| as real)
    ensures WithinHalfEach(IntSum(shares), x, |shares|)
  {
    var n := |shares|;
    var ws := seq(n, _ => 1.0);
    EqualWeights(n);
    RoundClose(x as real / n as real);
    assert x as real * 1.0 / n as real == x as real / n as real;
    WholeShared(shares, x, ws);
  }

  function Reals(xs: seq<int>): (ws: seq<real>)
    ensures |ws| == |xs| && forall i :: 0 <= i < |xs| ==> ws[i] == xs[i] as real
  {
    seq(|xs|, i requires 0 <= i < |xs| => xs[i] as real)
  }

  lemma {:induction false} SumOfReals(xs: seq<int>)
    ensures RealSum(Reals(xs)) == IntSum(xs) as real
  {
    if xs == [] {
    } else {
      SumOfReals(xs[..|xs| - 1]);
      assert Reals(xs)[..|xs| - 1] == Reals(xs[..|xs| - 1]);
    }
  }

  lemma {:induction false} SumSign(ws: seq<real>)
    requires forall i :: 0 <= i < |ws| ==> ws[i] >= 0.0
    ensures RealSum(ws) >= 0.0
    ensures RealSum(ws) == 0.0 ==> forall i :: 0 <= i < |ws| ==> ws[i] == 0.0
  {
    if ws == [] {
    } else {
      var n := |ws| - 1;
      SumSign(ws[..n]);
      assert forall i :: 0 <= i < n ==> ws[..n][i] == ws[i];
    }
  }

  lemma QuotaSplit(x: int, shares: seq<int>, quotas: seq<real>)
    requires |shares| == |quotas| && forall i :: 0 <= i < |quotas| ==> quotas[i] >= 0.0
    requires RealSum(quotas) != 0.0
    requires forall i :: 0 <= i < |shares| ==> shares[i] == Proportional(x, RealSum(quotas), quotas[i])
    ensures WithinHalfEach(IntSum(shares), x, |shares|)
  {
    SumSign(quotas);
    forall i | 0 <= i < |quotas|
      ensures IsShare(shares[i], x, quotas[i], RealSum(quotas))
    {
      ProportionalIsShare(x, RealSum(quotas), quotas[i]);
    }
    WholeShared(shares, x, quotas);
  }

  lemma UsageSplit(x: int, shares: seq<int>, used: seq<int>)
    requires |shares| == |used| && forall i :: 0 <= i < |used| ==> used[i] >= 0
    requires IntSum(used) != 0
    requires forall i :: 0 <= i < |shares| ==>
               shares[i] == if used[i] > 0 then Proportional(x, IntSum(used) as real, used[i] as real) else 0
    ensures WithinHalfEach(IntSum(shares), x, |shares|)
  {
    SumOfReals(used);
    QuotaSplit(x, shares, Reals(used));
  }

  lemma {:induction false} PickSum(cs: seq<Counts>, f: Field)
    ensures Pick(CountsSum(cs), f) == IntSum(Picks(cs, f))
  {
    if cs == [] {
    } else {
      var n := |cs| - 1;
      PickSum(cs[..n], f);
      PickPlus(CountsSum(cs[..n]), cs[n], f);
      assert Picks(cs, f)[..n] == Picks(cs[..n], f);
    }
  }

  // ---------- the split of a record ----------

  ghost predicate Sensible(users: seq<User>, useds: seq<Counts>) {
    && |users| == |useds| > 0
    && (forall i :: 0 <= i < |users| ==> users[i].downQuota >= 0.0 && users[i].upQuota >= 0.0)
    && (forall i :: 0 <= i < |useds| ==> NonNegative(useds[i]))
  }

  /** Uploads go nowhere: something was downloaded, nothing uploaded, and there are upload quotas. */
  predicate UploadsVanish(users: seq<User>, useds: seq<Counts>) {
    CountsSum(useds).down != 0 && CountsSum(useds).up == 0 && RealSum(UpQuotas(users)) != 0.0
  }

  lemma DownSplit(c: Counts, users: seq<User>, useds: seq<Counts>)
    requires Sensible(users, useds)
    ensures WithinHalfEach(IntSum(Picks(AllShares(c, users, useds), Down)), c.down, |users|)
  {
    var shares, grand := Picks(AllShares(c, users, useds), Down), CountsSum(useds).down;
    hide Round;
    hide Proportional;
    hide WithinHalfEach;
    if RealSum(DownQuotas(users)) == 0.0 {
      EqualSplit(c.down, shares);
    } else if grand == 0 {
      QuotaSplit(c.down, shares, DownQuotas(users));
    } else {
      PickSum(useds, Down);
      UsageSplit(c.down, shares, Picks(useds, Down));
    }
  }

  /** Where uploads vanish every single share is nothing. */
  lemma VanishedShare(c: Counts, users: seq<User>, useds: seq<Counts>, i: nat)
    requires Sensible(users, useds) && UploadsVanish(users, useds) && i < |users|
    ensures AllShares(c, users, useds)[i].up == 0
  {
    PickSum(useds, Up);
    SumOfReals(Picks(useds, Up));
    SumSign(Reals(Picks(useds, Up)));
    assert Reals(Picks(useds, Up))[i] == 0.0;
    assert useds[i].up == 0;
  }

  lemma {:induction false} SumOfNothing(xs: seq<int>)
    requires forall i :: 0 <= i < |xs| ==> xs[i] == 0
    ensures IntSum(xs) == 0
  {
    if xs == [] {
    } else {
      SumOfNothing(xs[..|xs| - 1]);
    }
  }

  lemma UpSplit(c: Counts, users: seq<User>, useds: seq<Counts>)
    requires Sensible(users, useds)
    ensures var sum := IntSum(Picks(AllShares(c, users, useds), Up));
            if UploadsVanish(users, useds) then sum == 0 else WithinHalfEach(sum, c.up, |users|)
  {
    var shares, grand := Picks(AllShares(c, users, useds), Up), CountsSum(useds);
    hide Round;
    hide Proportional;
    hide WithinHalfEach;
    PickSum(useds, Up);
    if RealSum(UpQuotas(users)) == 0.0 {
      EqualSplit(c.up, shares);
    } else if grand.down == 0 {
      QuotaSplit(c.up, shares, UpQuotas(users));
    } else if grand.up != 0 {
      UsageSplit(c.up, shares, Picks(useds, Up));
    } else {
      forall i | 0 <= i < |shares|
        ensures shares[i] == 0
      {
        VanishedShare(c, users, useds, i);
      }
      SumOfNothing(shares);
    }
  }

  lemma UnmeteredSplit(c: Counts, users: seq<User>, useds: seq<Counts>, f: Field)
    requires Sensible(users, useds) && (f == UDown || f == UUp)
    ensures WithinHalfEach(IntSum(Picks(AllShares(c, users, useds), f)), Pick(c, f), |users|)
  {
    var shares, grand := Picks(AllShares(c, users, useds), f), Pick(CountsSum(useds), f);
    hide Round;
    hide Proportional;
    hide WithinHalfEach;
    PickSum(useds, f);
    if grand == 0 {
      EqualSplit(Pick(c, f), shares);
    } else {
      UsageSplit(Pick(c, f), shares, Picks(useds, f));
    }
  }

  /**
    The shares of a record sum to within half a byte per user of it, for every count of every field,
    except that all upload is dropped exactly when uploads vanish.
   */
  lemma SplitBounds(c: Counts, users: seq<User>, useds: seq<Counts>, f: Field)
    requires Sensible(users, useds)
    ensures var sum := IntSum(Picks(AllShares(c, users, useds), f));
            if f == Up && UploadsVanish(users, useds) then sum == 0 else WithinHalfEach(sum, Pick(c, f), |users|)
  {
    match f
    case Down => DownSplit(c, users, useds);
    case Up => UpSplit(c, users, useds);
    case UDown => UnmeteredSplit(c, users, useds, f);
    case UUp => UnmeteredSplit(c, users, useds, f);
  }

  /** The split conserves every upload count to that precision if and only if uploads do not vanish. */
  lemma UploadsConserved(users: seq<User>, useds: seq<Counts>)
    requires Sensible(users, useds)
    ensures !UploadsVanish(users, useds) <==>
            forall c: Counts :: WithinHalfEach(IntSum(Picks(AllShares(c, users, useds), Up)), c.up, |users|)
  {
    hide AllShares;
    if UploadsVanish(users, useds) {
      var c := Counts(0, |users| + 1, 0, 0);
      SplitBounds(c, users, useds, Up);
      assert !WithinHalfEach(IntSum(Picks(AllShares(c, users, useds), Up)), c.up, |users|);
    } else {
      forall c: Counts
        ensures WithinHalfEach(IntSum(Picks(AllShares(c, users, useds), Up)), c.up, |users|)
      {
        SplitBounds(c, users, useds, Up);
      }
    }
  }

  // ---------- every user's own share ----------

  /** A part of a whole. */
  datatype Fraction = Fraction(part: real, whole: real)

  /** What a user's share of a field is in proportion to: equal parts, quotas, or usage. */
  function FractionOf(b: Basis, f: Field): Fraction {
    var limit := if f == Down then b.limitDown else b.limitUp;
    var quota := if f == Down then b.user.downQuota else b.user.upQuota;
    var quotas := f == Down || f == Up;
    if quotas && limit != 0.0 && b.grand.down == 0 then Fraction(quota, limit)
    else if (if quotas then limit == 0.0 else Pick(b.grand, f) == 0) then Fraction(1.0, b.n as real)
    else Fraction(Pick(b.used, f) as real, Pick(b.grand, f) as real)
  }

  lemma {:induction false} CountsSumNonNegative(cs: seq<Counts>)
    requires forall i :: 0 <= i < |cs| ==> NonNegative(cs[i])
    ensures NonNegative(CountsSum(cs))
  {
    if cs == [] {
    } else {
      CountsSumNonNegative(cs[..|cs| - 1]);
    }
  }

  lemma EqualIsShare(x: int, n: nat)
    requires n > 0
    ensures IsShare(Round(x as real / n as real), x, 1.0, n as real)
  {
    RoundClose(x as real / n as real);
    assert x as real * 1.0 / n as real == x as real / n as real;
  }

  lemma NoneOfIt(x: int, whole: real)
    requires whole > 0.0
    ensures IsShare(0, x, 0.0, whole)
  {
  }

  /** Unless uploads vanish, each user gets, to half a byte, the proportional part of every field. */
  lemma EachShare(c: Counts, users: seq<User>, useds: seq<Counts>, i: nat, f: Field)
    requires Sensible(users, useds) && i < |users| && (f == Up ==> !UploadsVanish(users, useds))
    ensures var b := BasisFor(users, useds, i);
            var q := FractionOf(b, f);
            q.whole > 0.0 && IsShare(Pick(AllShares(c, users, useds)[i], f), Pick(c, f), q.part, q.whole)
  {
    hide Round;
    hide Proportional;
    hide RealSum;
    hide CountsSum;
    hide IsShare;
    var b := BasisFor(users, useds, i);
    var x := Pick(c, f);
    SumSign(DownQuotas(users));
    SumSign(UpQuotas(users));
    CountsSumNonNegative(useds);
    EqualIsShare(x, |users|);
    if f == Down && b.limitDown != 0.0 {
      ProportionalIsShare(x, b.limitDown, b.user.downQuota);
    }
    if f == Up && b.limitUp != 0.0 {
      ProportionalIsShare(x, b.limitUp, b.user.upQuota);
    }
    if Pick(b.grand, f) != 0 {
      ProportionalIsShare(x, Pick(b.grand, f) as real, Pick(b.used, f) as real);
      NoneOfIt(x, Pick(b.grand, f) as real);
    }
  }

  lemma {:induction false} CountsSumOfConcat(cs: seq<Counts>, ds: seq<Counts>)
    ensures CountsSum(cs + ds) == Plus(CountsSum(cs), CountsSum(ds))
  {
    hide Plus;
    if ds == [] {
      assert cs + ds == cs;
      PlusZero(CountsSum(cs));
    } else {
      var n := |ds| - 1;
      CountsSumOfConcat(cs, ds[..n]);
      assert (cs + ds)[..|cs + ds| - 1] == cs + ds[..n];
      assert CountsSum(cs + ds) == Plus(CountsSum(cs + ds[..n]), ds[n]);
      PlusAssociative(CountsSum(cs), CountsSum(ds[..n]), ds[n]);
    }
  }

  // ---------- shares worked out ----------

  /** With no use yet, downloads follow the download quotas and uploads the upload quotas; the rest is even. */
  lemma QuotaExample()
    ensures var b := Basis(2, 4.0, 5.0, Counts(0, 0, 0, 0), User(7, 1.0, 2.0), Counts(0, 0, 0, 0));
            SharesOf(Counts(400, 500, 60, 70), b) == Counts(100, 200, 30, 35)
  {
    assert 400.0 / (4.0 / 1.0) == 100.0 && 500.0 / (5.0 / 2.0) == 200.0;
    assert 60.0 / 2.0 == 30.0 && 70.0 / 2.0 == 35.0;
  }

  /** Without quotas metered shares are even whatever was used; unmetered ones follow the use. */
  lemma EvenExample()
    ensures var b := Basis(2, 0.0, 0.0, Counts(8, 8, 4, 5), User(7, 0.0, 0.0), Counts(1, 2, 1, 2));
            SharesOf(Counts(400, 500, 60, 70), b) == Counts(200, 250, 15, 28)
  {
    assert 400.0 / 2.0 == 200.0 && 500.0 / 2.0 == 250.0;
    assert 60.0 / (4.0 / 1.0) == 15.0 && 70.0 / (5.0 / 2.0) == 28.0;
  }

  /** Where there are quotas and use, every share follows the use of its own counter. */
  lemma UseExample()
    ensures var b := Basis(2, 4.0, 5.0, Counts(8, 10, 4, 5), User(7, 1.0, 2.0), Counts(2, 4, 1, 2));
            SharesOf(Counts(400, 500, 60, 70), b) == Counts(100, 200, 15, 28)
  {
    assert 400.0 / (8.0 / 2.0) == 100.0 && 500.0 / (10.0 / 4.0) == 200.0;
    assert 60.0 / (4.0 / 1.0) == 15.0 && 70.0 / (5.0 / 2.0) == 28.0;
  }
}

/** The block subsidy, which halves at fixed intervals, and the supply it adds up to. */
module Subsidy {
  import opened Params

  function Halved(x: nat, n: nat): nat
    decreases n
  {
    if n == 0 then x else Halved(x, n - 1) / 2
  }

  function BlockSubsidy(p: Params, height: nat): nat
  {
    var halvings := height / p.halvingInterval;
    if halvings >= 64 then 0 else Halved(p.initialSubsidy, halvings)
  }

  /** The sum of the subsidies of blocks 0..n-1. */
  function Issued(p: Params, n: nat): nat
    decreases n
  {
    if n == 0 then 0 else Issued(p, n - 1) + BlockSubsidy(p, n - 1)
  }

  /** What get_max_supply sums: interval * subsidy, halving until nothing is left. */
  function SupplyFrom(interval: nat, subsidy: nat): nat {
    if subsidy == 0 then 0 else subsidy * interval + SupplyFrom(interval, subsidy / 2)
  }

  method GetBlockSubsidy(p: Params, height: nat) returns (subsidy: nat)
    ensures subsidy == BlockSubsidy(p, height)
  {
    var halvings := height / p.halvingInterval;
    if halvings >= 64 {
      return 0;
    }
    subsidy := p.initialSubsidy;
    for i := 0 to halvings
      invariant subsidy == Halved(p.initialSubsidy, i)
    {
      subsidy := subsidy / 2;
    }
  }

  lemma NextHalving(height: nat, interval: nat)
    requires interval > 0
    ensures height < (height / interval + 1) * interval <= height + interval
    ensures forall h: nat :: height <= h < (height / interval + 1) * interval ==> h / interval == height / interval
  {
    var k := height / interval;
    assert height == k * interval + height % interval;
    assert (k + 1) * interval == k * interval + interval;
    forall h: nat | height <= h < (k + 1) * interval
      ensures h / interval == k
    {
      Quotient(h, interval, k);
    }
  }

  lemma Quotient(h: nat, d: nat, k: nat)
    requires d > 0 && k * d <= h < k * d + d
    ensures h / d == k
  {
    var q := h / d;
    assert h == q * d + h % d;
    if q < k {
      Scale(q + 1, k, d);
    } else if k < q {
      Scale(k + 1, q, d);
    }
  }

  lemma Scale(a: nat, b: nat, d: nat)
    requires a <= b
    ensures a * d <= b * d
  {
  }

  lemma Distribute(a: nat, b: nat, d: nat)
    ensures (a + b) * d == a * d + b * d
    ensures d * (a + b) == d * a + d * b
  {
  }

  /** Blocks of one halving period add the same subsidy each. */
  lemma {:induction false} IssuedFlat(p: Params, n: nat, m: nat, each: nat)
    requires n <= m
    requires forall h: nat :: n <= h < m ==> BlockSubsidy(p, h) == each
    ensures Issued(p, m) == Issued(p, n) + each * (m - n)
    decreases m
  {
    hide BlockSubsidy;
    if n < m {
      IssuedFlat(p, n, m - 1, each);
      Distribute(m - 1 - n, 1, each);
    } else {
      assert each * (m - n) == 0;
    }
  }

  /** get_total_supply walks from halving to halving and still sums every block of 0..height. */
  method GetTotalSupply(p: Params, height: nat) returns (total: nat)
    ensures total == Issued(p, height + 1)
  {
    total := 0;
    var current := 0;
    while current <= height
      invariant total == Issued(p, if current <= height + 1 then current else height + 1)
      decreases height + 1 - current
    {
      var subsidy := GetBlockSubsidy(p, current);
      var next := (current / p.halvingInterval + 1) * p.halvingInterval;
      var end := if next < height + 1 then next else height + 1;
      NextHalving(current, p.halvingInterval);
      IssuedFlat(p, current, end, subsidy);
      total := total + subsidy * (end - current);
      current := next;
    }
  }

  method GetMaxSupply(p: Params) returns (total: nat)
    ensures total == SupplyFrom(p.halvingInterval, p.initialSubsidy)
  {
    total := 0;
    var subsidy: nat := p.initialSubsidy;
    while subsidy > 0
      invariant total + SupplyFrom(p.halvingInterval, subsidy) == SupplyFrom(p.halvingInterval, p.initialSubsidy)
      decreases subsidy
    {
      total := total + subsidy * p.halvingInterval;
      subsidy := subsidy / 2;
    }
  }

  /** Supply still to come after n halvings. */
  lemma {:induction false} IssuedPeriods(p: Params, k: nat)
    ensures Issued(p, k * p.halvingInterval) + SupplyFrom(p.halvingInterval, Halved(p.initialSubsidy, k))
            <= SupplyFrom(p.halvingInterval, p.initialSubsidy)
    decreases k
  {
    if k > 0 {
      IssuedPeriods(p, k - 1);
      IssuedPeriod(p, k - 1);
      var whole := Halved(p.initialSubsidy, k - 1);
      hide Issued, Halved;
      Distribute(k - 1, 1, p.halvingInterval);
      assert Halved(p.initialSubsidy, k) == whole / 2 by {
        HalvedNext(p.initialSubsidy, k - 1);
      }
    }
  }

  lemma HalvedNext(x: nat, k: nat)
    ensures Halved(x, k + 1) == Halved(x, k) / 2
  {
  }

  /** One halving period issues at most its subsidy times its length. */
  lemma IssuedPeriod(p: Params, k: nat)
    ensures Issued(p, (k + 1) * p.halvingInterval)
            <= Issued(p, k * p.halvingInterval) + Halved(p.initialSubsidy, k) * p.halvingInterval
  {
    hide Issued, Halved;
    var start, n := k * p.halvingInterval, p.halvingInterval;
    var each := if k >= 64 then 0 else Halved(p.initialSubsidy, k);
    Distribute(k, 1, n);
    forall h: nat | start <= h < start + n
      ensures BlockSubsidy(p, h) == each
    {
      Quotient(h, n, k);
    }
    IssuedFlat(p, start, start + n, each);
    Scale(each, Halved(p.initialSubsidy, k), n);
  }

  lemma {:induction false} IssuedMonotone(p: Params, n: nat, m: nat)
    requires n <= m
    ensures Issued(p, n) <= Issued(p, m)
    decreases m
  {
    if n < m {
      IssuedMonotone(p, n, m - 1);
    }
  }

  /** No number of blocks issues more than the maximum supply. */
  lemma IssuedWithinMaxSupply(p: Params, n: nat)
    ensures Issued(p, n) <= SupplyFrom(p.halvingInterval, p.initialSubsidy)
  {
    hide Issued, Halved, BlockSubsidy;
    var k := n / p.halvingInterval + 1;
    assert n <= k * p.halvingInterval by {
      NextHalving(n, p.halvingInterval);
    }
    IssuedMonotone(p, n, k * p.halvingInterval);
    IssuedPeriods(p, k);
  }

  /** _initial_subsidy_for_cap. */
  function SubsidyForCap(maxMoney: nat, interval: nat): nat {
    var n := maxMoney / (if 2 * interval > 1 then 2 * interval else 1);
    if n > 1 then n else 1
  }

  lemma {:induction false} SupplyBelowTwice(interval: nat, subsidy: nat)
    ensures SupplyFrom(interval, subsidy) <= 2 * subsidy * interval
    ensures subsidy > 0 ==> SupplyFrom(interval, subsidy) <= (2 * subsidy - 1) * interval
    decreases subsidy
  {
    if subsidy > 0 {
      SupplyBelowTwice(interval, subsidy / 2);
      var half := subsidy / 2;
      if half > 0 {
        Scale(2 * half - 1 + subsidy, 2 * subsidy - 1, interval);
        Distribute(2 * half - 1, subsidy, interval);
      } else {
        assert subsidy == 1;
      }
      Scale(2 * subsidy - 1, 2 * subsidy, interval);
    }
  }

  /** A subsidy derived from the cap stays within the cap exactly when the cap pays one unit
      for each block of an interval. */
  lemma SupplyWithinCap(maxMoney: nat, interval: nat)
    requires interval > 0
    ensures SupplyFrom(interval, SubsidyForCap(maxMoney, interval)) <= maxMoney <==> maxMoney >= interval
  {
    var d := 2 * interval;
    var q := maxMoney / d;
    hide SupplyFrom;
    if maxMoney < d {
      Quotient(maxMoney, d, 0);
      assert SupplyFrom(interval, 1) == interval by {
        SupplyOfOne(interval);
      }
    } else {
      SupplyBelowTwice(interval, SubsidyForCap(maxMoney, interval));
      assert maxMoney == q * d + maxMoney % d;
      QuotientPositive(maxMoney, d);
      assert 2 * q * interval == q * d;
    }
  }

  lemma QuotientPositive(a: nat, d: nat)
    requires 0 < d <= a
    ensures a / d >= 1
  {
  }

  lemma SupplyOfOne(interval: nat)
    ensures SupplyFrom(interval, 1) == interval
  {
    assert SupplyFrom(interval, 0) == 0;
  }

  /** The initial subsidy for the first interval, then half of it, rounded down, interval after interval, and nothing from
      the sixty-fourth on. */
  lemma SubsidyHalves(p: Params, height: nat)
    ensures height < p.halvingInterval ==> BlockSubsidy(p, height) == p.initialSubsidy
    ensures height + p.halvingInterval < 64 * p.halvingInterval ==>
              BlockSubsidy(p, height + p.halvingInterval) == BlockSubsidy(p, height) / 2
    ensures height >= 64 * p.halvingInterval ==> BlockSubsidy(p, height) == 0
  {
    var d := p.halvingInterval;
    var k := height / d;
    assert height == k * d + height % d;
    assert (k + 1) * d == k * d + d;
    Quotient(height, d, k);
    Quotient(height + d, d, k + 1);
    if height + d < 64 * d {
      Below(k + 1, 64, d, height + d);
    }
    if height >= 64 * d && k < 64 {
      Scale(k + 1, 64, d);
    }
    if height < d {
      Quotient(height, d, 0);
    }
  }

  lemma Below(k: nat, n: nat, d: nat, h: nat)
    requires d > 0 && k * d <= h < n * d
    ensures k < n
  {
    if k >= n {
      Scale(n, k, d);
    }
  }

  function Pow2(n: nat): nat {
    if n == 0 then 1 else 2 * Pow2(n - 1)
  }

  lemma {:induction false} HalvedBelow(x: nat, n: nat, k: nat)
    requires x < Pow2(n) && k <= n
    ensures Halved(x, k) < Pow2(n - k)
    decreases k
  {
    if k > 0 {
      HalvedBelow(x, n, k - 1);
    }
  }

  lemma IssuedPeriodExactly(p: Params, k: nat)
    requires k < 64
    ensures Issued(p, (k + 1) * p.halvingInterval) == Issued(p, k * p.halvingInterval) + Halved(p.initialSubsidy, k) * p.halvingInterval
  {
    hide Issued, Halved;
    var start, n := k * p.halvingInterval, p.halvingInterval;
    var each := Halved(p.initialSubsidy, k);
    Distribute(k, 1, n);
    forall h: nat | start <= h < start + n
      ensures BlockSubsidy(p, h) == each
    {
      Quotient(h, n, k);
    }
    IssuedFlat(p, start, start + n, each);
  }

  lemma {:induction false} IssuedPeriodsExactly(p: Params, k: nat)
    requires k <= 64
    ensures Issued(p, k * p.halvingInterval) + SupplyFrom(p.halvingInterval, Halved(p.initialSubsidy, k))
            == SupplyFrom(p.halvingInterval, p.initialSubsidy)
    decreases k
  {
    if k > 0 {
      IssuedPeriodsExactly(p, k - 1);
      IssuedPeriodExactly(p, k - 1);
      var whole := Halved(p.initialSubsidy, k - 1);
      hide Issued, Halved;
      assert Halved(p.initialSubsidy, k) == whole / 2 by {
        HalvedNext(p.initialSubsidy, k - 1);
      }
    }
  }

  /** With an initial subsidy below 2^64 the maximum supply is just what all blocks of the first sixty-four intervals issue. */
  lemma MaxSupplyReached(p: Params)
    requires p.initialSubsidy < 0x1_0000_0000_0000_0000
    ensures Issued(p, 64 * p.halvingInterval) == SupplyFrom(p.halvingInterval, p.initialSubsidy)
  {
    hide Issued, Halved, SupplyFrom, Pow2;
    IssuedPeriodsExactly(p, 64);
    PowerOf64();
    HalvedBelow(p.initialSubsidy, 64, 64);
    NoSupply(p.halvingInterval);
  }

  lemma NoSupply(interval: nat)
    ensures SupplyFrom(interval, 0) == 0 && Pow2(0) == 1
  {
  }

  lemma PowerOf64()
    ensures Pow2(64) == 0x1_0000_0000_0000_0000
  {
    assert Pow2(8) == 0x100;
    PowersAdd(8, 8);
    PowersAdd(16, 16);
    PowersAdd(32, 32);
  }

  lemma {:induction false} PowersAdd(m: nat, n: nat)
    ensures Pow2(m + n) == Pow2(m) * Pow2(n)
    decreases n
  {
    if n > 0 {
      PowersAdd(m, n - 1);
    }
  }

  /** The subsidy for a cap is the cap over twice the interval, rounded down, and at least 1. */
  lemma CapExactly(maxMoney: nat, interval: nat, d: nat)
    requires interval > 0 && d == 2 * interval
    ensures var s := SubsidyForCap(maxMoney, interval);
            if maxMoney < 2 * d then s == 1 else s * d <= maxMoney < s * d + d
  {
    var q, r := DivMod(maxMoney, d);
    assert SubsidyForCap(maxMoney, interval) == if q > 1 then q else 1;
    Twice(maxMoney, d, q, r);
  }

  lemma DivMod(a: nat, d: nat) returns (q: nat, r: nat)
    requires d > 0
    ensures q == a / d && a == q * d + r && r < d
  {
    q, r := a / d, a % d;
  }

  lemma Twice(a: nat, d: nat, q: nat, r: nat)
    requires a == q * d + r && r < d
    ensures a >= 2 * d <==> q >= 2
  {
    if q >= 2 {
      Scale(2, q, d);
    } else if q == 1 {
      assert q * d == d;
    } else {
      assert q * d == 0;
    }
  }
}

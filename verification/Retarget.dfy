/** Difficulty retargeting, which the repository computes in four places, and
    the median time past. */
module Retarget {
  import opened Ledger
  import opened Params
  import opened Compact

  datatype Header = Header(bits: nat, time: int)

  // ------------------------------------------------------------------ the rule

  function Clamp(p: Params, timespan: int): (c: int)
    ensures c >= 1
  {
    var lo, hi := Max(1, p.powTargetTimespan / 4), Max(1, p.powTargetTimespan * 4);
    if timespan < lo then lo else if timespan > hi then hi else timespan
  }

  function NextTarget(p: Params, parent: nat, timespan: int): (t: nat)
    ensures t >= 1
  {
    var t := parent * Clamp(p, timespan) / Max(1, p.powTargetTimespan);
    var t := if t > p.powLimit then p.powLimit else t;
    if t < 1 then 1 else t
  }

  /** The bits of the block after tip `height`, from the headers of the last interval. */
  function NextWork(p: Params, headers: seq<Header>, height: int): nat {
    if headers == [] then p.genesisBits
    else
      var first, last := headers[0], headers[|headers| - 1];
      if p.powNoRetargeting || (height + 1) % p.RetargetInterval() != 0 then last.bits
      else Bits(p, NextTarget(p, GetTarget(p, last.bits), last.time - first.time))
  }

  /** ProofOfWork.get_next_work_required. */
  method GetNextWorkRequired(p: Params, headers: seq<Header>, height: int) returns (bits: nat)
    requires p.powLimit < TWO_POW_256
    ensures bits == NextWork(p, headers, height)
  {
    if headers == [] {
      return p.genesisBits;
    }
    var last := headers[|headers| - 1];
    if p.powNoRetargeting {
      return last.bits;
    }
    var interval := p.RetargetInterval();
    if (height + 1) % interval != 0 {
      return last.bits;
    }
    var timespan, span := last.time - headers[0].time, p.powTargetTimespan;
    var minTimespan, maxTimespan := Max(1, span / 4), Max(1, span * 4);
    if timespan < minTimespan {
      timespan := minTimespan;
    } else if timespan > maxTimespan {
      timespan := maxTimespan;
    }
    var current := GetTarget(p, last.bits);
    assert timespan == Clamp(p, last.time - headers[0].time);
    var target := current * timespan / Max(1, span);
    if target > p.powLimit {
      target := p.powLimit;
    }
    if target < 1 {
      target := 1;
    }
    bits := GetBits(p, target);
  }

  lemma DivMonotone(x: int, y: int, d: int)
    requires x <= y && d > 0
    ensures x / d <= y / d
  {
    var a, b := x / d, y / d;
    assert x == d * a + x % d && y == d * b + y % d;
    if b < a {
      MulMonotone(d, b + 1, a);
    }
  }

  lemma QuarterOf(a: nat, q: nat)
    requires q > 0
    ensures a * q / (4 * q) == a / 4
  {
    var m, r := a / 4, a % 4;
    assert a * q == 4 * q * m + r * q;
    MulMonotone(q, r, 3);
    DivUnique(a * q, 4 * q, m, r * q);
  }

  lemma MultipleOf(a: nat, c: nat, d: nat)
    requires d > 0
    ensures a * (c * d) / d == a * c
  {
    assert a * (c * d) == d * (a * c);
    DivUnique(a * (c * d), d, a * c, 0);
  }

  /** Slower blocks never give a harder target. */
  lemma NextTargetMonotone(p: Params, parent: nat, span: int, longer: int)
    requires span <= longer
    ensures NextTarget(p, parent, span) <= NextTarget(p, parent, longer)
  {
    MulMonotone(parent, Clamp(p, span), Clamp(p, longer));
    DivMonotone(parent * Clamp(p, span), parent * Clamp(p, longer), Max(1, p.powTargetTimespan));
  }

  /** The exact target stays within a factor of four of its parent and below the limit. */
  lemma NextTargetBounds(p: Params, parent: nat, span: int)
    requires p.powTargetTimespan >= 4 && p.powTargetTimespan % 4 == 0
    requires 4 <= parent <= p.powLimit
    ensures parent / 4 <= NextTarget(p, parent, span) <= p.powLimit
    ensures NextTarget(p, parent, span) <= 4 * parent
  {
    var T := p.powTargetTimespan;
    var q, c := T / 4, Clamp(p, span);
    assert q <= c <= 4 * T;
    MulMonotone(parent, q, c);
    MulMonotone(parent, c, 4 * T);
    DivMonotone(parent * q, parent * c, T);
    DivMonotone(parent * c, parent * (4 * T), T);
    QuarterOf(parent, q);
    MultipleOf(parent, 4, T);
  }

  /** The next bits decode to a canonical target that is at most four times the parent's and the limit,
      and at least a quarter of the parent's less the compact truncation. */
  lemma RetargetBounds(p: Params, parentBits: nat, span: int)
    requires p.powTargetTimespan >= 4 && p.powTargetTimespan % 4 == 0 && p.powLimit < TWO_POW_255
    requires GetTarget(p, parentBits) >= 0x4_0000
    ensures var parent := GetTarget(p, parentBits);
            var exact := NextTarget(p, parent, span);
            var next := Rounded(p, exact);
            && Decode(p, Bits(p, exact), true) == Target(next)
            && next <= p.powLimit && next <= 4 * parent
            && parent / 4 <= exact && next <= exact && 0x8000 * (exact - next) < exact
  {
    NextTargetBounds(p, GetTarget(p, parentBits), span);
    RoundTrip(p, NextTarget(p, GetTarget(p, parentBits), span));
  }

  lemma RetargetMonotone(p: Params, parentBits: nat, span: int, longer: int)
    requires p.powTargetTimespan >= 4 && p.powTargetTimespan % 4 == 0 && p.powLimit < TWO_POW_255
    requires GetTarget(p, parentBits) >= 0x4_0000 && span <= longer
    ensures var parent := GetTarget(p, parentBits);
            Rounded(p, NextTarget(p, parent, span)) <= Rounded(p, NextTarget(p, parent, longer))
  {
    var parent := GetTarget(p, parentBits);
    NextTargetBounds(p, parent, span);
    NextTargetBounds(p, parent, longer);
    NextTargetMonotone(p, parent, span, longer);
    RoundedMonotone(p, NextTarget(p, parent, span), NextTarget(p, parent, longer));
  }

  /** An interval that took exactly the target time keeps the target. */
  lemma RetargetOnSchedule(p: Params, parentBits: nat)
    requires p.powTargetTimespan >= 4 && p.powLimit < TWO_POW_255
    requires GetTarget(p, parentBits) >= 0x1_0000
    ensures Rounded(p, NextTarget(p, GetTarget(p, parentBits), p.powTargetTimespan)) == GetTarget(p, parentBits)
  {
    var parent := GetTarget(p, parentBits);
    MultipleOf(parent, 1, p.powTargetTimespan);
    assert parent * (1 * p.powTargetTimespan) == parent * Clamp(p, p.powTargetTimespan);
    DecodedIsExact(p, parentBits);
  }

  // ------------------------------------------------- DifficultyCalculator's copy

  /** bits_to_target: no validity checks, only the limit. */
  function BitsToTarget(p: Params, bits: nat): nat {
    var exponent, coefficient := bits / 0x100_0000, bits % 0x80_0000;
    var target := if exponent <= 3 then Shr(coefficient, 3 - exponent) else Shl(coefficient, exponent - 3);
    if target < p.powLimit then target else p.powLimit
  }

  /** target_to_bits: non-positive targets count as 1. */
  function TargetToBits(p: Params, target: int): nat {
    var t := if target <= 0 then 1 else target;
    var t := if t > p.powLimit then p.powLimit else t;
    if t == 0 then p.genesisBits else Bits(p, t)
  }

  /** target_to_bits, with its own copy of the byte loop. */
  method CalculatorTargetToBits(p: Params, target: int) returns (bits: nat)
    requires p.powLimit < TWO_POW_256
    ensures bits == TargetToBits(p, target)
  {
    hide Shl, ByteLen;
    var t := target;
    if t <= 0 {
      t := 1;
    }
    if t > p.powLimit {
      t := p.powLimit;
    }
    ByteLenBound(t, 32);
    ByteLenZero(t);
    Pow256();
    var firstNonZero, coefficient := ScanBytes(t, 32);
    if firstNonZero == 32 {
      return p.genesisBits;
    }
    var exponent := 32 - firstNonZero;
    if coefficient >= 0x80_0000 {
      if exponent < 3 {
        ShortIsSmall(t);
      }
      coefficient := coefficient / 256;
      exponent := exponent + 1;
    }
    bits := exponent * 0x100_0000 + coefficient;
  }

  function CalculatorNextWork(p: Params, headers: seq<Header>, height: int): nat
    requires headers != [] && p.powTargetTimespan > 0
  {
    var first, last, span := headers[0], headers[|headers| - 1], p.powTargetTimespan;
    if p.powNoRetargeting || (height + 1) % p.RetargetInterval() != 0 then last.bits
    else
      var timespan := Max(span / 4, if last.time - first.time < span * 4 then last.time - first.time else span * 4);
      var target := BitsToTarget(p, last.bits) * timespan / span;
      TargetToBits(p, if target > p.powLimit then p.powLimit else target)
  }

  lemma CalculatorAgrees(p: Params, headers: seq<Header>, height: int)
    requires headers != [] && p.powTargetTimespan >= 4 && p.powLimit > 0
    requires GetTarget(p, headers[|headers| - 1].bits) > 0
    ensures CalculatorNextWork(p, headers, height) == NextWork(p, headers, height)
  {
    var first, last, span := headers[0], headers[|headers| - 1], p.powTargetTimespan;
    assert BitsToTarget(p, last.bits) == GetTarget(p, last.bits);
    var timespan := Max(span / 4, if last.time - first.time < span * 4 then last.time - first.time else span * 4);
    assert timespan == Clamp(p, last.time - first.time);
    hide Bits, GetTarget, BitsToTarget;
    NonNegative(GetTarget(p, last.bits), timespan, span);
  }

  lemma NonNegative(a: nat, b: nat, d: nat)
    requires d > 0
    ensures a * b / d >= 0
  {
  }

  // ------------------------------------------- who calls it, with which headers

  // The active chain as seen through the height map.
  type View = map<nat, Header>

  /** The headers of heights from..end, or None as soon as one is missing. */
  function Window(view: View, from: nat, end: nat): Option<seq<Header>>
    requires from <= end
    decreases end - from
  {
    if from == end then Some([])
    else
      match Window(view, from, end - 1)
      case None => None
      case Some(hs) => if end - 1 in view then Some(hs + [view[end - 1]]) else None
  }

  /** BlockValidator._expected_bits_for_height. */
  function ExpectedBits(p: Params, view: View, height: int, prevBits: nat): Option<nat> {
    var interval := p.RetargetInterval();
    if height <= 0 then None
    else if p.powNoRetargeting || height % interval != 0 || height < interval then Some(prevBits)
    else
      match Window(view, height - interval, height)
      case None => None
      case Some(headers) => Some(if headers == [] then prevBits else NextWork(p, headers, height - 1))
  }

  method ExpectedBitsForHeight(p: Params, view: View, height: int, prevBits: nat) returns (bits: Option<nat>)
    requires p.powLimit < TWO_POW_256
    ensures bits == ExpectedBits(p, view, height, prevBits)
  {
    if height <= 0 {
      return None;
    }
    if p.powNoRetargeting {
      return Some(prevBits);
    }
    var interval := p.RetargetInterval();
    if height % interval != 0 {
      return Some(prevBits);
    }
    var start := height - interval;
    if start < 0 {
      return Some(prevBits);
    }
    var headers, h := [], start;
    while h < height
      invariant start <= h <= height
      invariant Window(view, start, h) == Some(headers)
    {
      if h !in view {
        WindowStops(view, start, h, height);
        return None;
      }
      headers := headers + [view[h]];
      h := h + 1;
    }
    if headers == [] {
      return Some(prevBits);
    }
    var b := GetNextWorkRequired(p, headers, height - 1);
    return Some(b);
  }

  /** Where no header is missing the rule always names bits. */
  lemma {:induction false} BitsDemanded(p: Params, view: View, height: nat, prevBits: nat)
    requires height > 0 && forall h: nat :: h < height ==> h in view
    ensures ExpectedBits(p, view, height, prevBits).Some?
  {
    hide NextWork;
    var interval := p.RetargetInterval();
    if height >= interval {
      WindowFull(view, height - interval, height);
    }
  }

  lemma {:induction false} WindowFull(view: View, from: nat, end: nat)
    requires from <= end && forall h: nat :: h < end ==> h in view
    ensures Window(view, from, end).Some?
    decreases end
  {
    if from < end {
      WindowFull(view, from, end - 1);
    }
  }

  lemma {:induction false} WindowStops(view: View, from: nat, h: nat, end: nat)
    requires from <= h < end && h !in view
    ensures Window(view, from, end).None?
    decreases end
  {
    if h < end - 1 {
      WindowStops(view, from, h, end - 1);
    }
  }

  /** The miner: falls back to the tip's bits when a header is missing. */
  function MinerBits(p: Params, view: View, best: Header, height: nat): nat {
    if height == 0 then p.genesisBits
    else
      match ExpectedBits(p, view, height, best.bits)
      case Some(b) => b
      case None => best.bits
  }

  method MinerNextBits(p: Params, view: View, best: Header, height: nat) returns (bits: nat)
    requires p.powLimit < TWO_POW_256
    ensures bits == MinerBits(p, view, best, height)
  {
    if height == 0 {
      return p.genesisBits;
    }
    if p.powNoRetargeting {
      return best.bits;
    }
    var interval := p.RetargetInterval();
    if height % interval != 0 {
      return best.bits;
    }
    var start := height - interval;
    if start < 0 {
      return best.bits;
    }
    var headers, h := [], start;
    while h < height
      invariant start <= h <= height
      invariant Window(view, start, h) == Some(headers) && |headers| == h - start
    {
      if h !in view {
        WindowStops(view, start, h, height);
        return best.bits;
      }
      headers := headers + [view[h]];
      h := h + 1;
    }
    bits := GetNextWorkRequired(p, headers, height - 1);
  }

  /** The headers of heights from..end that are there, in order. */
  function Present(view: View, from: nat, end: nat): seq<Header>
    requires from <= end
    decreases end - from
  {
    if from == end then []
    else Present(view, from, end - 1) + if end - 1 in view then [view[end - 1]] else []
  }

  /** The block assembler: skips missing headers and keeps the last bits while the window is short. */
  function AssemblerBits(p: Params, view: View, bestHeight: int): nat {
    var interval := p.RetargetInterval();
    var start := Max(0, bestHeight - (interval - 1));
    var headers := if start <= bestHeight + 1 then Present(view, start, bestHeight + 1) else [];
    if |headers| < interval then (if headers == [] then p.genesisBits else headers[|headers| - 1].bits)
    else NextWork(p, headers, bestHeight)
  }

  method AssemblerNextBits(p: Params, view: View, bestHeight: int) returns (bits: nat)
    requires p.powLimit < TWO_POW_256
    ensures bits == AssemblerBits(p, view, bestHeight)
  {
    var interval := p.RetargetInterval();
    var start := Max(0, bestHeight - (interval - 1));
    var headers, h := [], start;
    while h < bestHeight + 1
      invariant start <= h && (h <= bestHeight + 1 || h == start)
      invariant headers == Present(view, start, h)
    {
      if h in view {
        headers := headers + [view[h]];
      }
      h := h + 1;
    }
    if |headers| < interval {
      return if headers == [] then p.genesisBits else headers[|headers| - 1].bits;
    }
    bits := GetNextWorkRequired(p, headers, bestHeight);
  }

  /** The height map of a chain of headers. */
  function ViewOf(chain: seq<Header>): View {
    map i: nat | i < |chain| :: chain[i]
  }

  lemma {:induction false} ViewWindow(chain: seq<Header>, from: nat, end: nat)
    requires from <= end <= |chain|
    ensures Window(ViewOf(chain), from, end) == Some(chain[from..end])
    ensures Present(ViewOf(chain), from, end) == chain[from..end]
    decreases end - from
  {
    if from == end {
      assert chain[from..end] == [];
    } else {
      ViewWindow(chain, from, end - 1);
      assert ViewOf(chain)[end - 1] == chain[end - 1];
      assert chain[from..end] == chain[from..end - 1] + [chain[end - 1]];
    }
  }

  /** On a full chain with a valid tip all four implementations name the same bits for the next block. */
  lemma FourAgree(p: Params, chain: seq<Header>)
    requires chain != [] && p.powTargetTimespan >= 4 && p.powLimit > 0
    requires GetTarget(p, chain[|chain| - 1].bits) > 0
    ensures var height, tip, view, n := |chain|, chain[|chain| - 1], ViewOf(chain), p.RetargetInterval();
            var start: nat := if height < n then 0 else height - n;
            && ExpectedBits(p, view, height, tip.bits).Some?
            && MinerBits(p, view, tip, height) == ExpectedBits(p, view, height, tip.bits).value
            && AssemblerBits(p, view, height - 1) == ExpectedBits(p, view, height, tip.bits).value
            && CalculatorNextWork(p, chain[start..], height - 1) == ExpectedBits(p, view, height, tip.bits).value
  {
    var height, n := |chain|, p.RetargetInterval();
    var start: nat := if height < n then 0 else height - n;
    hide NextWork, CalculatorNextWork, GetTarget, ViewOf, Window, Present;
    ViewWindow(chain, start, height);
    assert chain[start..height] == chain[start..];
    CalculatorAgrees(p, chain[start..], height - 1);
    if height % n != 0 || height < n {
      IdleKeepsBits(p, chain[start..], height - 1);
      if 0 < height < n {
        SmallMod(height, n);
      }
    }
  }

  lemma IdleKeepsBits(p: Params, headers: seq<Header>, height: int)
    requires headers != [] && (p.powNoRetargeting || (height + 1) % p.RetargetInterval() != 0 || 0 < height + 1 < p.RetargetInterval())
    ensures NextWork(p, headers, height) == headers[|headers| - 1].bits
  {
    if 0 < height + 1 < p.RetargetInterval() {
      SmallMod(height + 1, p.RetargetInterval());
    }
  }

  lemma SmallMod(a: int, n: int)
    requires 0 < a < n
    ensures a % n == a
  {
  }

  // ---------------------------------------------------------- median time past

  predicate Sorted(s: seq<int>) {
    forall i, j :: 0 <= i < j < |s| ==> s[i] <= s[j]
  }

  function Insert(x: int, s: seq<int>): (r: seq<int>)
    requires Sorted(s)
    ensures Sorted(r) && |r| == |s| + 1 && forall y :: y in r ==> y == x || y in s
  {
    if s == [] || x <= s[0] then [x] + s
    else
      var r := Insert(x, s[1..]);
      HeadStaysFirst(x, s, r);
      [s[0]] + r
  }

  lemma HeadStaysFirst(x: int, s: seq<int>, r: seq<int>)
    requires Sorted(s) && s != [] && s[0] < x
    requires Sorted(r) && forall y :: y in r ==> y == x || y in s[1..]
    ensures Sorted([s[0]] + r)
  {
    forall i | 0 <= i < |r|
      ensures s[0] <= r[i]
    {
      if r[i] != x {
        assert r[i] in r && r[i] in s[1..];
        var k :| 0 <= k < |s[1..]| && s[1..][k] == r[i];
        assert s[k + 1] == r[i];
      }
    }
  }

  function Sort(s: seq<int>): (r: seq<int>)
    ensures Sorted(r) && |r| == |s|
  {
    if s == [] then [] else Insert(s[0], Sort(s[1..]))
  }

  lemma {:induction false} InsertKeeps(x: int, s: seq<int>)
    requires Sorted(s)
    ensures multiset(Insert(x, s)) == multiset(s) + multiset{x}
  {
    if s != [] && x > s[0] {
      InsertKeeps(x, s[1..]);
      assert s == [s[0]] + s[1..];
    }
  }

  lemma {:induction false} SortKeeps(s: seq<int>)
    ensures multiset(Sort(s)) == multiset(s)
  {
    hide Insert;
    if s != [] {
      SortKeeps(s[1..]);
      InsertKeeps(s[0], Sort(s[1..]));
      assert s == [s[0]] + s[1..];
    }
  }

  function Times(headers: seq<Header>): seq<int> {
    seq(|headers|, i requires 0 <= i < |headers| => headers[i].time)
  }

  /** _get_median_time_past: the middle of the sorted timestamps before `height`. */
  function MedianTimePast(p: Params, view: View, height: nat): int {
    var window := Max(1, p.medianTimeWindow);
    var times := Times(Present(view, Max(0, height - window), height));
    if times == [] then 0 else Sort(times)[|times| / 2]
  }

  // --------------------------------------------------------- the rule on its own terms

  /** The next target is the parent's times the observed timespan, kept between a quarter and four times the wanted one, over
      the wanted timespan, rounded down, but at most the limit and at least 1. */
  lemma NextTargetExactly(p: Params, parent: nat, span: int)
    requires p.powTargetTimespan >= 4 && p.powLimit >= 1
    ensures var wanted, t := p.powTargetTimespan, NextTarget(p, parent, span);
            var used := if span < wanted / 4 then wanted / 4 else if span > 4 * wanted then 4 * wanted else span;
            if parent * used >= (p.powLimit + 1) * wanted then t == p.powLimit
            else if parent * used < wanted then t == 1
            else t * wanted <= parent * used < (t + 1) * wanted
  {
    var wanted := p.powTargetTimespan;
    var used := if span < wanted / 4 then wanted / 4 else if span > 4 * wanted then 4 * wanted else span;
    assert Clamp(p, span) == used;
    FloorBetween(parent * used, wanted, p.powLimit);
  }

  lemma FloorBetween(x: int, d: int, limit: int)
    requires x >= 0 && d > 0 && limit >= 1
    ensures x >= (limit + 1) * d ==> x / d > limit
    ensures x < d ==> x / d == 0
    ensures d <= x < (limit + 1) * d ==> 1 <= x / d <= limit
    ensures (x / d) * d <= x < (x / d + 1) * d
  {
    var q := x / d;
    assert x == q * d + x % d;
    assert (q + 1) * d == q * d + d;
    if q < 0 {
      MulMonotone(d, q, -1);
    }
    if x >= (limit + 1) * d && q <= limit {
      MulMonotone(d, q + 1, limit + 1);
    }
    if x < d && q >= 1 {
      MulMonotone(d, 1, q);
    }
    if x >= d && q <= 0 {
      MulMonotone(d, q + 1, 1);
    }
    if x < (limit + 1) * d && q > limit {
      MulMonotone(d, limit + 1, q);
    }
  }

  /** The headers of heights from..end-1. */
  function Slice(view: View, from: nat, end: nat): (s: seq<Header>)
    requires from <= end && forall h: nat :: h < end ==> h in view
    ensures |s| == end - from && forall i :: 0 <= i < |s| ==> s[i] == view[from + i]
    decreases end
  {
    if from == end then [] else Slice(view, from, end - 1) + [view[end - 1]]
  }

  lemma {:induction false} FullWindow(view: View, from: nat, end: nat)
    requires from <= end && forall h: nat :: h < end ==> h in view
    ensures Window(view, from, end) == Some(Slice(view, from, end)) && Present(view, from, end) == Slice(view, from, end)
    decreases end
  {
    if from < end {
      FullWindow(view, from, end - 1);
    }
  }

  /** Where no header is missing: off the boundary, or with retargeting switched off, the bits are those of the parent; on it
      they encode the target that the first and the last time of the interval ask for. */
  lemma BitsExactly(p: Params, view: View, height: nat, prevBits: nat)
    requires height > 0 && forall h: nat :: h < height ==> h in view
    ensures var n := p.RetargetInterval();
            ExpectedBits(p, view, height, prevBits) == Some(
              if p.powNoRetargeting || height % n != 0 then prevBits
              else
                assert height >= n by { WholeInterval(height, n); }
                Bits(p, NextTarget(p, GetTarget(p, view[height - 1].bits), view[height - 1].time - view[height - n].time)))
  {
    hide Bits, GetTarget, NextTarget;
    var n := p.RetargetInterval();
    if height % n == 0 {
      WholeInterval(height, n);
      FullWindow(view, height - n, height);
    }
  }

  lemma WholeInterval(h: nat, n: nat)
    requires h > 0 && n > 0 && h % n == 0
    ensures h >= n
  {
    if h < n {
      SmallMod(h, n);
    }
  }

  /** How many of these are at most m. */
  function AtMost(s: seq<int>, m: int): nat {
    if s == [] then 0 else AtMost(s[1..], m) + if s[0] <= m then 1 else 0
  }

  /** How many of these are at least m. */
  function AtLeastMany(s: seq<int>, m: int): nat {
    if s == [] then 0 else AtLeastMany(s[1..], m) + if s[0] >= m then 1 else 0
  }

  lemma {:induction false} InsertCounts(x: int, s: seq<int>, m: int)
    requires Sorted(s)
    ensures AtMost(Insert(x, s), m) == AtMost(s, m) + if x <= m then 1 else 0
    ensures AtLeastMany(Insert(x, s), m) == AtLeastMany(s, m) + if x >= m then 1 else 0
    decreases |s|
  {
    var r := Insert(x, s);
    if s == [] || x <= s[0] {
      assert r == [x] + s && r[1..] == s;
    } else {
      InsertCounts(x, s[1..], m);
      assert r == [s[0]] + Insert(x, s[1..]) && r[1..] == Insert(x, s[1..]);
    }
  }

  lemma {:induction false} SortCounts(s: seq<int>, m: int)
    ensures AtMost(Sort(s), m) == AtMost(s, m) && AtLeastMany(Sort(s), m) == AtLeastMany(s, m)
    decreases |s|
  {
    hide Insert;
    if s != [] {
      SortCounts(s[1..], m);
      InsertCounts(s[0], Sort(s[1..]), m);
    }
  }

  lemma {:induction false} SortedCounts(s: seq<int>, k: nat)
    requires Sorted(s) && k < |s|
    ensures AtMost(s, s[k]) >= k + 1 && AtLeastMany(s, s[k]) >= |s| - k
    decreases |s|
  {
    if k > 0 {
      SortedCounts(s[1..], k - 1);
    } else {
      AllAtLeast(s, s[0]);
    }
  }

  lemma {:induction false} AllAtLeast(s: seq<int>, m: int)
    requires forall i :: 0 <= i < |s| ==> s[i] >= m
    ensures AtLeastMany(s, m) == |s|
    decreases |s|
  {
    if s != [] {
      AllAtLeast(s[1..], m);
    }
  }

  /** The median time of the last headers, as many as the window asks for or as there are: it is one of their times, more than
      half of them are at most it, and at least half are at least it. */
  lemma MedianExactly(p: Params, view: View, height: nat)
    requires height > 0 && forall h: nat :: h < height ==> h in view
    ensures var n := if height < p.medianTimeWindow then height else if p.medianTimeWindow < 1 then 1 else p.medianTimeWindow;
            var times := seq(n, i requires 0 <= i < n => view[height - n + i].time);
            var m := MedianTimePast(p, view, height);
            m in times && 2 * AtMost(times, m) > n && 2 * AtLeastMany(times, m) >= n
  {
    hide Sort, AtMost, AtLeastMany;
    var n: nat := if height < p.medianTimeWindow then height else if p.medianTimeWindow < 1 then 1 else p.medianTimeWindow;
    FullWindow(view, height - n, height);
    var times := seq(n, i requires 0 <= i < n => view[height - n + i].time);
    assert Times(Slice(view, height - n, height)) == times;
    MiddleExactly(times);
  }

  lemma MiddleExactly(times: seq<int>)
    requires times != []
    ensures var n, m := |times|, Sort(times)[|times| / 2];
            m in times && 2 * AtMost(times, m) > n && 2 * AtLeastMany(times, m) >= n
  {
    hide Sort, AtMost, AtLeastMany;
    var sorted := Sort(times);
    var m := sorted[|times| / 2];
    SortCounts(times, m);
    SortedCounts(sorted, |times| / 2);
    SortKeeps(times);
    assert m in multiset(sorted);
  }
}

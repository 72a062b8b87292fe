/** Compact difficulty encoding: `bits` hold a byte count and a 23-bit coefficient. */
module Compact {
  import opened Ledger
  import opened Params

  // Shifting by whole bytes.
  function Shl(c: nat, k: nat): nat
    decreases k
  {
    if k == 0 then c else 256 * Shl(c, k - 1)
  }

  function Shr(t: nat, k: nat): nat
    decreases k
  {
    if k == 0 then t else Shr(t, k - 1) / 256
  }

  const TWO_POW_255: nat := 0x8000_0000_0000_0000_0000_0000_0000_0000_0000_0000_0000_0000_0000_0000_0000_0000

  const TWO_POW_256: nat := 2 * TWO_POW_255

  datatype Reason = ZeroTarget | NegativeCompact | OverflowCompact | TargetAbovePowLimit | NonCanonicalCompact
  datatype Decoded = Target(target: nat) | Rejected(reason: Reason)

  function ByteLen(t: nat): nat {
    if t == 0 then 0 else 1 + ByteLen(t / 256)
  }

  /** What get_bits returns: the leading three bytes, fewer if the number has fewer, moved down one
      byte when they would look negative. */
  function Bits(p: Params, target: int): nat {
    if target <= 0 then 0
    else
      var t := if target > p.powLimit then p.powLimit else target;
      var n := ByteLen(t);
      var c := if n < 3 then t else Shr(t, n - 3);
      if n == 0 then 0
      else if c >= 0x80_0000 then (n + 1) * 0x100_0000 + c / 256
      else n * 0x100_0000 + c
  }

  function Decode(p: Params, bits: nat, requireCanonical: bool): Decoded {
    var exponent, coefficient, negative := bits / 0x100_0000, bits % 0x80_0000, (bits / 0x80_0000) % 2 == 1;
    if coefficient == 0 then Rejected(ZeroTarget)
    else if negative then Rejected(NegativeCompact)
    else
      var target := if exponent <= 3 then Shr(coefficient, 3 - exponent) else Shl(coefficient, exponent - 3);
      if exponent > 34 || (coefficient > 0xff && exponent > 33) || (coefficient > 0xffff && exponent > 32) then
        Rejected(OverflowCompact)
      else if target == 0 then Rejected(ZeroTarget)
      else if target > p.powLimit then Rejected(TargetAbovePowLimit)
      else if requireCanonical && Bits(p, target) != bits then Rejected(NonCanonicalCompact)
      else Target(target)
  }

  function GetTarget(p: Params, bits: nat): nat {
    match Decode(p, bits, false)
    case Target(t) => t
    case Rejected(_) => 0
  }

  /** calculate_block_work. */
  function BlockWork(p: Params, bits: nat): nat {
    var target := GetTarget(p, bits);
    if target == 0 then 0 else p.powLimit / (target + 1)
  }

  // ------------------------------------------------------------ the byte loop

  function ToBytes(t: nat, n: nat): (s: seq<Byte>)
    ensures |s| == n
    decreases n
  {
    if n == 0 then [] else ToBytes(t / 256, n - 1) + [t % 256]
  }

  function FromBytes(s: seq<Byte>): nat {
    if s == [] then 0 else FromBytes(s[..|s| - 1]) * 256 + s[|s| - 1]
  }

  lemma {:induction false} ShrFirst(t: nat, k: nat)
    ensures Shr(t / 256, k) == Shr(t, k + 1)
    decreases k
  {
    if k > 0 {
      ShrFirst(t, k - 1);
    }
  }

  /** The first bytes of a big-endian number are the number shifted right. */
  lemma {:induction false} BytePrefix(t: nat, n: nat, k: nat)
    requires k <= n && ByteLen(t) <= n
    ensures FromBytes(ToBytes(t, n)[..k]) == Shr(t, n - k)
    decreases n
  {
    var s := ToBytes(t, n);
    if n > 0 {
      if k == n {
        BytePrefix(t / 256, n - 1, n - 1);
        assert s[..n] == s && s[..n - 1] == ToBytes(t / 256, n - 1);
        assert ToBytes(t / 256, n - 1)[..n - 1] == ToBytes(t / 256, n - 1);
      } else {
        BytePrefix(t / 256, n - 1, k);
        assert s[..k] == ToBytes(t / 256, n - 1)[..k];
        ShrFirst(t, n - 1 - k);
      }
    }
  }

  lemma {:induction false} ByteLenShr(t: nat, k: nat)
    ensures Shr(t, k) == 0 <==> ByteLen(t) <= k
    decreases k
  {
    if k > 0 {
      ShrFirst(t, k - 1);
      ByteLenShr(t / 256, k - 1);
    }
  }

  lemma {:induction false} FromBytesSkipsZeros(s: seq<Byte>, i: nat)
    requires i <= |s| && FromBytes(s[..i]) == 0
    ensures FromBytes(s) == FromBytes(s[i..])
    decreases |s|
  {
    if i < |s| {
      var init := s[..|s| - 1];
      assert init[..i] == s[..i] && s[i..][..|s| - i - 1] == init[i..];
      FromBytesSkipsZeros(init, i);
    } else {
      assert s[..i] == s && s[i..] == [];
    }
  }

  function Min(a: nat, b: nat): nat {
    if a < b then a else b
  }

  /** The first non-zero byte tells the length, and the slice from there holds the leading bytes. */
  lemma LeadingSlice(t: nat, n: nat, i: nat)
    requires ByteLen(t) <= n && i < n
    requires FromBytes(ToBytes(t, n)[..i]) == 0 && ToBytes(t, n)[i] != 0
    ensures ByteLen(t) == n - i
    ensures FromBytes(ToBytes(t, n)[i..Min(i + 3, n)]) == Shr(t, n - Min(i + 3, n))
  {
    var bytes, end := ToBytes(t, n), Min(i + 3, n);
    hide ToBytes, ByteLen, Shr;
    BytePrefix(t, n, i);
    ByteLenShr(t, n - i);
    assert bytes[..i + 1][..i] == bytes[..i];
    BytePrefix(t, n, i + 1);
    ByteLenShr(t, n - i - 1);
    BytePrefix(t, n, end);
    assert bytes[..end][..i] == bytes[..i] && bytes[..end][i..] == bytes[i..end];
    FromBytesSkipsZeros(bytes[..end], i);
  }

  /** The loop over the n big-endian bytes of t: the number of leading zeros and the first three bytes after them. */
  method ScanBytes(t: nat, n: nat) returns (i: nat, coefficient: nat)
    requires ByteLen(t) <= n
    ensures i == n - ByteLen(t)
    ensures i < n ==> coefficient == Shr(t, n - Min(i + 3, n))
  {
    hide ToBytes, ByteLen, Shr;
    var bytes := ToBytes(t, n);
    i := 0;
    while i < n && bytes[i] == 0
      invariant 0 <= i <= n
      invariant FromBytes(bytes[..i]) == 0
    {
      assert bytes[..i + 1][..i] == bytes[..i];
      i := i + 1;
    }
    if i == n {
      BytePrefix(t, n, n);
      ByteLenShr(t, 0);
      coefficient := 0;
    } else {
      LeadingSlice(t, n, i);
      coefficient := FromBytes(bytes[i..Min(i + 3, n)]);
    }
  }

  /** get_bits: finds the first non-zero byte and packs it with the two that follow. */
  method GetBits(p: Params, target: int) returns (bits: nat)
    requires p.powLimit < TWO_POW_256
    ensures bits == Bits(p, target)
  {
    hide Shl, ByteLen;
    if target <= 0 {
      return 0;
    }
    var t: nat := target;
    if t > p.powLimit {
      t := p.powLimit;
    }
    ByteLenBound(t, 32);
    ByteLenZero(t);
    Pow256();
    var i, coefficient := ScanBytes(t, 32);
    if i == 32 {
      return 0;
    }
    var exponent := 32 - i;
    if coefficient >= 0x80_0000 {
      if exponent < 3 {
        ShortIsSmall(t);
      }
      coefficient := coefficient / 256;
      exponent := exponent + 1;
    }
    bits := exponent * 0x100_0000 + coefficient;
  }

  lemma ShortIsSmall(t: nat)
    requires ByteLen(t) < 3
    ensures t < 0x1_0000
  {
    if t > 0 {
      assert ByteLen(t) == 1 + ByteLen(t / 256);
    }
  }

  lemma {:induction false} ByteLenBound(t: nat, n: nat)
    ensures t < Shl(1, n) ==> ByteLen(t) <= n
    decreases n
  {
    if n > 0 {
      ByteLenBound(t / 256, n - 1);
    }
  }

  lemma ByteLenZero(t: nat)
    ensures ByteLen(t) == 0 <==> t == 0
  {
  }

  lemma Pow256()
    ensures Shl(1, 32) == TWO_POW_256
  {
    assert Shl(1, 11) == 0x1_0000_0000_0000_0000_0000_00;
    ShlSplit(1, 11, 22);
    ShlSplit(1, 11, 32);
    assert Shl(0x1_0000_0000_0000_0000_0000_00, 11) == 0x1_0000_0000_0000_0000_0000_0000_0000_0000_0000_0000_0000;
    assert Shl(0x1_0000_0000_0000_0000_0000_0000_0000_0000_0000_0000_0000, 10) == TWO_POW_256;
  }

  // ---------------------------------------------------------------- round trip

  lemma {:induction false} ShrMonotone(t: nat, u: nat, k: nat)
    requires t <= u
    ensures Shr(t, k) <= Shr(u, k)
    decreases k
  {
    if k > 0 {
      ShrMonotone(t, u, k - 1);
    }
  }

  lemma {:induction false} ShlMonotone(c: nat, d: nat, k: nat)
    requires c <= d
    ensures Shl(c, k) <= Shl(d, k)
    decreases k
  {
    if k > 0 {
      ShlMonotone(c, d, k - 1);
    }
  }

  lemma {:induction false} ShlAdds(c: nat, d: nat, k: nat)
    ensures Shl(c + d, k) == Shl(c, k) + Shl(d, k)
    decreases k
  {
    if k > 0 {
      ShlAdds(c, d, k - 1);
    }
  }

  lemma {:induction false} ShlInner(c: nat, k: nat)
    ensures Shl(256 * c, k) == Shl(c, k + 1)
    decreases k
  {
    if k > 0 {
      ShlInner(c, k - 1);
    }
  }

  lemma {:induction false} ShrShl(c: nat, k: nat)
    ensures Shr(Shl(c, k), k) == c
    decreases k
  {
    if k > 0 {
      ShlInner(c, k - 1);
      ShrShl(256 * c, k - 1);
    }
  }

  /** Shifting right and back rounds down to a multiple. */
  lemma {:induction false} Floor(t: nat, k: nat)
    ensures Shl(Shr(t, k), k) <= t < Shl(Shr(t, k) + 1, k)
    decreases k
  {
    if k > 0 {
      Floor(t, k - 1);
      var c := Shr(t, k - 1);
      ShlInner(c / 256, k - 1);
      ShlMonotone(256 * (c / 256), c, k - 1);
      ShlInner(c / 256 + 1, k - 1);
      ShlMonotone(c + 1, 256 * (c / 256 + 1), k - 1);
    }
  }

  lemma {:induction false} LeadingBytes(t: nat, k: nat)
    requires ByteLen(t) == k + 1
    ensures 1 <= Shr(t, k) < 256
    decreases k
  {
    ByteLenShr(t, k);
    ByteLenShr(t, k + 1);
  }

  /** Every target of three bytes or more is encoded as a coefficient of at least 2^15 and a byte count. */
  lemma {:induction false} Normal(p: Params, t: nat) returns (k: nat, c: nat)
    requires 0x1_0000 <= t <= p.powLimit
    ensures c == Shr(t, k) && 0x8000 <= c < 0x80_0000
    ensures Bits(p, t) == (k + 3) * 0x100_0000 + c
  {
    var n := ByteLen(t);
    if n < 3 {
      ShortIsSmall(t);
    }
    LeadingBytes(t, n - 1);
    assert Shr(t, n - 1) == Shr(t, n - 3) / 256 / 256;
    k, c := n - 3, Shr(t, n - 3);
    if c >= 0x80_0000 {
      k, c := n - 2, c / 256;
    }
  }

  lemma Pow255()
    ensures Shl(0x8000, 30) == TWO_POW_255
  {
    assert Shl(0x8000, 10) == 0x8000_0000_0000_0000_0000_0000;
    ShlSplit(0x8000, 10, 20);
    ShlSplit(0x8000, 10, 30);
    assert Shl(0x8000_0000_0000_0000_0000_0000, 10) == 0x8000_0000_0000_0000_0000_0000_0000_0000_0000_0000_0000;
    assert Shl(0x8000_0000_0000_0000_0000_0000_0000_0000_0000_0000_0000, 10) == TWO_POW_255;
  }

  lemma {:induction false} ShlGrows(c: nat, j: nat, k: nat)
    requires j <= k
    ensures Shl(c, j) <= Shl(c, k)
    decreases k
  {
    if j < k {
      ShlGrows(c, j, k - 1);
    }
  }

  /** The value a target has after a trip through its compact form. */
  function Rounded(p: Params, t: nat): nat {
    GetTarget(p, Bits(p, t))
  }

  lemma {:induction false} NormalDecodes(p: Params, t: nat) returns (k: nat, c: nat)
    requires 0x1_0000 <= t <= p.powLimit < TWO_POW_255
    ensures c == Shr(t, k) && 0x8000 <= c < 0x80_0000
    ensures Bits(p, t) == (k + 3) * 0x100_0000 + c
    ensures Decode(p, Bits(p, t), false) == Target(Shl(c, k)) && Shl(c, k) <= t
  {
    hide Bits, Shr, ByteLen, Shl;
    k, c := Normal(p, t);
    Floor(t, k);
    assert k < 30 by {
      ShlMonotone(0x8000, c, k);
      Pow255();
      if k >= 30 {
        ShlGrows(0x8000, 30, k);
      }
    }
    NormalFits(p, k, c);
  }

  lemma DivUnique(x: int, d: int, m: int, r: int)
    requires x == d * m + r && 0 <= r < d
    ensures x / d == m
  {
    var q := x / d;
    assert x == d * q + x % d;
    if q < m {
      MulMonotone(d, q + 1, m);
    } else if m < q {
      MulMonotone(d, m + 1, q);
    }
  }

  lemma MulMonotone(d: int, a: int, b: int)
    requires d >= 0 && a <= b
    ensures d * a <= d * b && a * d <= b * d
  {
  }

  lemma SplitBits(e: nat, c: nat)
    requires c < 0x80_0000
    ensures var bits := e * 0x100_0000 + c;
            bits / 0x100_0000 == e && bits % 0x80_0000 == c && (bits / 0x80_0000) % 2 == 0
  {
    var bits := e * 0x100_0000 + c;
    DivUnique(bits, 0x100_0000, e, c);
    DivUnique(bits, 0x80_0000, 2 * e, c);
  }

  /** A coefficient of at least 2^15 over k bytes decodes to itself shifted, as long as it is within the limit. */
  lemma NormalFits(p: Params, k: nat, c: nat)
    requires 0x8000 <= c < 0x80_0000 && k < 30 && Shl(c, k) <= p.powLimit
    ensures Decode(p, (k + 3) * 0x100_0000 + c, false) == Target(Shl(c, k))
  {
    hide Bits, Shr, Shl;
    SplitBits(k + 3, c);
    AtLeast(c, k);
    ShiftNone(c);
  }

  lemma ShiftNone(c: nat)
    ensures Shl(c, 0) == Shr(c, 0) == c
  {
  }

  lemma AtLeast(c: nat, k: nat)
    ensures Shl(c, k) >= c
  {
    ShlGrows(c, 0, k);
  }

  /** Encoding loses less than one part in 2^15 and always decodes to a canonical target. */
  lemma {:induction false} RoundTrip(p: Params, t: nat)
    requires 0x1_0000 <= t <= p.powLimit < TWO_POW_255
    ensures Decode(p, Bits(p, t), true) == Target(Rounded(p, t))
    ensures Rounded(p, t) <= t && 0x8000 * (t - Rounded(p, t)) < t
  {
    var k, c := NormalDecodes(p, t);
    var d := Shl(c, k);
    Floor(t, k);
    ShlAdds(c, 1, k);
    ShlMonotone(0x8000, c, k);
    ShlScale(1, k);
    RoundedLarge(c, k, t);
    var j, e := Normal(p, d);
    SameNormal(t, k, c, d, j, e);
  }

  lemma {:induction false} ShlScale(x: nat, k: nat)
    ensures Shl(0x8000 * x, k) == 0x8000 * Shl(x, k)
    decreases k
  {
    if k > 0 {
      ShlScale(x, k - 1);
    }
  }

  lemma {:induction false} RoundedLarge(c: nat, k: nat, t: nat)
    requires t >= 0x1_0000 && c == Shr(t, k) && c >= 0x8000
    ensures Shl(c, k) >= 0x1_0000
  {
    if k > 0 {
      ShlGrows(0x8000, 1, k);
      ShlMonotone(0x8000, c, k);
      assert Shl(0x8000, 1) == 256 * Shl(0x8000, 0);
    }
  }

  /** A number has one normal form. */
  lemma {:induction false} SameNormal(t: nat, k: nat, c: nat, d: nat, j: nat, e: nat)
    requires c == Shr(t, k) && d == Shl(c, k) && 0x8000 <= c < 0x80_0000
    requires e == Shr(d, j) && 0x8000 <= e < 0x80_0000
    ensures j == k && e == c
  {
    ShrShl(c, k);
    if j < k {
      ShrApart(d, j, k);
    } else if k < j {
      ShrApart(d, k, j);
    }
  }

  lemma {:induction false} ShrApart(d: nat, j: nat, k: nat)
    requires j < k
    ensures Shr(d, k) <= Shr(d, j) / 256
    decreases k
  {
    if j < k - 1 {
      ShrApart(d, j, k - 1);
    }
  }

  /** Rounding keeps the order of targets. */
  lemma {:induction false} RoundedMonotone(p: Params, t: nat, u: nat)
    requires 0x1_0000 <= t <= u <= p.powLimit < TWO_POW_255
    ensures Rounded(p, t) <= Rounded(p, u)
  {
    var k, c := NormalDecodes(p, t);
    var j, e := NormalDecodes(p, u);
    if k == j {
      ShrMonotone(t, u, k);
      ShlMonotone(c, e, k);
    } else if k < j {
      Floor(t, k);
      ShlMonotone(c + 1, 0x80_0000, k);
      ShlInner(0x8000, k);
      ShlGrows(0x8000, k + 1, j);
      ShlMonotone(0x8000, e, j);
    } else {
      ShrMonotone(t, u, j);
      ShrApart(t, j, k);
    }
  }

  /** A target that came out of compact bits goes through the encoding unchanged. */
  lemma {:induction false} DecodedIsExact(p: Params, bits: nat)
    requires p.powLimit < TWO_POW_255 && GetTarget(p, bits) >= 0x1_0000
    ensures Rounded(p, GetTarget(p, bits)) == GetTarget(p, bits)
  {
    var d := GetTarget(p, bits);
    var exponent, c0 := bits / 0x100_0000, bits % 0x80_0000;
    var k, c := NormalDecodes(p, d);
    if exponent <= 3 {
      ShrLess(c0, 3 - exponent);
      if k > 0 {
        ShrApart(d, 0, k);
      }
    } else {
      Representable(c0, exponent - 3, k);
    }
  }

  lemma {:induction false} ShrLess(c: nat, k: nat)
    ensures Shr(c, k) <= c
    decreases k
  {
    if k > 0 {
      ShrLess(c, k - 1);
    }
  }

  lemma {:induction false} Representable(c0: nat, m: nat, k: nat)
    requires c0 < 0x80_0000 && 0x8000 <= Shr(Shl(c0, m), k) < 0x80_0000
    ensures Shl(Shr(Shl(c0, m), k), k) == Shl(c0, m)
  {
    var d := Shl(c0, m);
    ShrShl(c0, m);
    if k > m {
      ShrApart(d, m, k);
    } else {
      ShlSplit(c0, k, m);
      ShrShl(Shl(c0, m - k), k);
    }
  }

  lemma {:induction false} ShlSplit(c: nat, k: nat, m: nat)
    requires k <= m
    ensures Shl(c, m) == Shl(Shl(c, m - k), k)
    decreases k
  {
    if k > 0 {
      ShlSplit(c, k - 1, m - 1);
    }
  }

  /** With the limit that all three networks use, every acceptable header adds work. */
  lemma {:induction false} WorkIsPositive(p: Params, bits: nat)
    requires p.powLimit == TWO_POW_255 - 1 && GetTarget(p, bits) > 0
    ensures BlockWork(p, bits) >= 1
  {
    var exponent, c := bits / 0x100_0000, bits % 0x80_0000;
    var d := GetTarget(p, bits);
    if exponent <= 3 {
      ShrLess(c, 3 - exponent);
    } else {
      assert d == 256 * Shl(c, exponent - 4);
    }
    assert d + 1 <= p.powLimit;
    assert p.powLimit / (d + 1) >= 1 by {
      DivAtLeastOne(p.powLimit, d + 1);
    }
  }

  lemma DivAtLeastOne(a: nat, b: nat)
    requires 0 < b <= a
    ensures a / b >= 1
  {
  }

  /** Below three bytes get_bits does not pad, so the decoded value is far too small: the round trip
      is good exactly from 2^16 on. */
  lemma {:induction false} RoundTripExactly(p: Params, t: nat)
    requires 0 < t <= p.powLimit < TWO_POW_255
    ensures 0x8000 * (t - Rounded(p, t)) < t <==> t >= 0x1_0000
  {
    if t >= 0x1_0000 {
      RoundTrip(p, t);
    } else if t < 256 {
      assert ByteLen(t) == 1;
      assert Bits(p, t) == 0x100_0000 + t;
      assert Shr(t, 2) == 0;
    } else {
      assert ByteLen(t) == 1 + ByteLen(t / 256) && ByteLen(t / 256) == 1;
      assert Bits(p, t) == 0x200_0000 + t;
      assert Shr(t, 1) == t / 256;
    }
  }

  /** The work of a decodable target is the limit divided by the target plus one, rounded down; bits that do not decode
      contribute none. */
  lemma WorkExactly(p: Params, bits: nat)
    ensures var t, w := GetTarget(p, bits), BlockWork(p, bits);
            if t == 0 then w == 0 else w * (t + 1) <= p.powLimit < (w + 1) * (t + 1)
  {
    var t := GetTarget(p, bits);
    assert p.powLimit == (p.powLimit / (t + 1)) * (t + 1) + p.powLimit % (t + 1);
  }

  /** A lower target means at least as much work. */
  lemma WorkOrder(p: Params, bits: nat, other: nat)
    requires 0 < GetTarget(p, bits) <= GetTarget(p, other)
    ensures BlockWork(p, bits) >= BlockWork(p, other)
  {
    hide GetTarget, BlockWork;
    WorkExactly(p, bits);
    WorkExactly(p, other);
    var t, u, w, v := GetTarget(p, bits), GetTarget(p, other), BlockWork(p, bits), BlockWork(p, other);
    if w < v {
      MulMonotone(t + 1, w + 1, v);
      MulMonotone(v, t + 1, u + 1);
    }
  }

  /** Bits with byte count e, sign s and mantissa m decode to m * 256^(e - 3), the last digits cut off for a negative power,
      exactly when the sign is clear, that number is not zero, fits 32 bytes and is within the limit. */
  lemma DecodeExactly(p: Params, e: nat, s: nat, m: nat)
    requires s < 2 && m < 0x80_0000
    ensures var bits := e * 0x100_0000 + s * 0x80_0000 + m;
            var t := if e <= 3 then Shr(m, 3 - e) else Shl(m, e - 3);
            && (Decode(p, bits, false).Target? <==>
                  && s == 0 && 0 < t <= p.powLimit
                  && (e <= 32 || (e == 33 && m < 0x1_0000) || (e == 34 && m < 0x100)))
            && (Decode(p, bits, false).Target? ==> Decode(p, bits, false).target == t)
  {
    hide Shr, Shl, Bits;
    var bits := e * 0x100_0000 + s * 0x80_0000 + m;
    DivUnique(bits, 0x100_0000, e, s * 0x80_0000 + m);
    DivUnique(bits, 0x80_0000, 2 * e + s, m);
    if m == 0 {
      ShiftsOfNone(if e <= 3 then 3 - e else e - 3);
    }
  }

  lemma {:induction false} ShiftsOfNone(k: nat)
    ensures Shr(0, k) == 0 && Shl(0, k) == 0
    decreases k
  {
    if k > 0 {
      ShiftsOfNone(k - 1);
    }
  }
}

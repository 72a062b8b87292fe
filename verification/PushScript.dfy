/** The two scanners of signature scripts: push-only and minimal push.  A script is
    a sequence of pushed items; the minimal-push scanner is shown to accept exactly
    the canonical print-outs of item lists. */
module PushScript {
  import opened Ledger

  const OP_PUSHDATA1 := 0x4c
  const OP_PUSHDATA2 := 0x4d
  const OP_PUSHDATA4 := 0x4e
  const OP_1NEGATE := 0x4f
  const OP_1 := 0x51
  const OP_16 := 0x60

  // Little-endian numbers of two and four bytes.
  function Little2(a: int, b: int): int {
    a + 0x100 * b
  }

  function Little4(a: int, b: int, c: int, d: int): int {
    a + 0x100 * (b + 0x100 * Little2(c, d))
  }

  datatype Push = Push(item: Script, size: nat)

  /** Length of the first push's opcode and length bytes, and of its data; None when they are cut short or no push. */
  function Header(s: Script): Option<(nat, nat)>
    requires s != []
  {
    if s[0] <= 0x4b then Some((1, s[0]))
    else if s[0] == OP_PUSHDATA1 then if |s| < 2 then None else Some((2, s[1]))
    else if s[0] == OP_PUSHDATA2 then if |s| < 3 then None else Some((3, Little2(s[1], s[2])))
    else if s[0] == OP_PUSHDATA4 then
      if |s| < 5 then None else Some((5, Little4(s[1], s[2], s[3], s[4])))
    else None
  }

  /** What the first opcode pushes, and how many bytes of script that takes. */
  function FirstPush(s: Script): (r: Option<Push>)
    requires s != []
    ensures r.Some? ==> 0 < r.value.size <= |s| && |r.value.item| < 0x1_0000_0000
  {
    if s[0] == OP_1NEGATE then Some(Push([0x81], 1))
    else if OP_1 <= s[0] <= OP_16 then Some(Push([s[0] - 0x50], 1))
    else
      match Header(s)
      case None => None
      case Some((h, n)) => if h + n > |s| then None else Some(Push(s[h..h + n], h + n))
  }

  /** The items a script pushes, if it does nothing but push. */
  function Parse(s: Script): Option<seq<Script>>
    decreases |s|
  {
    if s == [] then Some([])
    else
      match FirstPush(s)
      case None => None
      case Some(p) =>
        match Parse(s[p.size..])
        case None => None
        case Some(rest) => Some([p.item] + rest)
  }

  /** The shortest way to push an item. */
  function PrintItem(item: Script): Script {
    var n := |item|;
    if n == 1 && item[0] == 0x81 then [OP_1NEGATE]
    else if n == 1 && 1 <= item[0] <= 16 then [item[0] + 0x50]
    else if n <= 0x4b then [n] + item
    else if n <= 0xff then [OP_PUSHDATA1, n] + item
    else if n <= 0xffff then [OP_PUSHDATA2, n % 0x100, n / 0x100] + item
    else [OP_PUSHDATA4, n % 0x100, n / 0x100 % 0x100, n / 0x100 / 0x100 % 0x100, n / 0x100 / 0x100 / 0x100 % 0x100] + item
  }

  function Print(items: seq<Script>): Script
    decreases |items|
  {
    if items == [] then [] else PrintItem(items[0]) + Print(items[1..])
  }

  /** A minimal script: the print-out of the items it pushes, none of them the single byte zero. */
  predicate Canonical(s: Script) {
    Parse(s).Some? && [0] !in Parse(s).value && Print(Parse(s).value) == s
  }

  // ------------------------------------------------------------------- one push

  lemma PrintThenFirst(item: Script, rest: Script)
    requires |item| < 0x1_0000_0000
    ensures PrintItem(item) != []
    ensures FirstPush(PrintItem(item) + rest) == Some(Push(item, |PrintItem(item)|))
  {
    var s := PrintItem(item) + rest;
    var n := |item|;
    if n == 1 && (item[0] == 0x81 || 1 <= item[0] <= 16) {
      assert item == [item[0]];
    } else if n > 0xffff {
      Base256(n);
    }
  }

  lemma Base256(n: nat)
    requires n < 0x1_0000_0000
    ensures n == Little4(n % 0x100, n / 0x100 % 0x100, n / 0x100 / 0x100 % 0x100, n / 0x100 / 0x100 / 0x100 % 0x100)
  {
  }

  /** The conditions the scanner checks on one push: no longer form than needed, and small numbers by their opcodes. */
  predicate ScanOk(s: Script)
    requires s != [] && FirstPush(s).Some?
  {
    var op, n := s[0], |FirstPush(s).value.item|;
    if op == 1 then !(s[1] <= 16 || s[1] == 0x81)
    else if op == OP_PUSHDATA1 then n >= OP_PUSHDATA1
    else if op == OP_PUSHDATA2 then n >= 0x100
    else if op == OP_PUSHDATA4 then n >= 0x1_0000
    else true
  }

  lemma ScanIsCanonical(s: Script)
    requires s != [] && FirstPush(s).Some?
    ensures var p := FirstPush(s).value;
            ScanOk(s) <==> s[..p.size] == PrintItem(p.item) && p.item != [0]
  {
    var p := FirstPush(s).value;
    assert s[..p.size][0] == s[0];
    if s[0] == 1 {
      assert p.item == [s[1]];
    }
    if ScanOk(s) {
      ScanPrints(s);
    }
  }

  lemma ScanPrints(s: Script)
    requires s != [] && FirstPush(s).Some? && ScanOk(s)
    ensures s[..FirstPush(s).value.size] == PrintItem(FirstPush(s).value.item)
  {
    var p := FirstPush(s).value;
    if s[0] == OP_PUSHDATA4 {
      assert s[..p.size] == s[..5] + p.item;
      Digits(s[1], s[2], s[3], s[4]);
    } else if s[0] == OP_PUSHDATA2 {
      assert s[..p.size] == s[..3] + p.item;
      Digit(s[1], s[2]);
    } else if s[0] == OP_PUSHDATA1 {
      assert s[..p.size] == s[..2] + p.item;
    } else if s[0] <= 0x4b {
      assert s[..p.size] == s[..1] + p.item;
    }
  }

  lemma Digit(a: Byte, q: int)
    ensures (a + 0x100 * q) % 0x100 == a && (a + 0x100 * q) / 0x100 == q
  {
  }

  lemma Digits(a: Byte, b: Byte, c: Byte, d: Byte)
    ensures var n := Little4(a, b, c, d);
            && n % 0x100 == a && n / 0x100 % 0x100 == b
            && n / 0x100 / 0x100 % 0x100 == c && n / 0x100 / 0x100 / 0x100 % 0x100 == d
  {
    Digit(a, b + 0x100 * Little2(c, d));
    Digit(b, Little2(c, d));
    Digit(c, d);
  }

  // ----------------------------------------------------------------- whole scripts

  lemma CanonicalStep(s: Script)
    requires s != []
    ensures Canonical(s) <==> FirstPush(s).Some? && ScanOk(s) && Canonical(s[FirstPush(s).value.size..])
  {
    hide PrintItem, ScanOk, FirstPush;
    if FirstPush(s).Some? && Parse(s).Some? {
      var p := FirstPush(s).value;
      var rest := Parse(s[p.size..]).value;
      ScanIsCanonical(s);
      assert Print(Parse(s).value) == PrintItem(p.item) + Print(rest);
      PrintThenFirst(p.item, Print(rest));
      assert s == s[..p.size] + s[p.size..];
      if Print(Parse(s).value) == s {
        assert |PrintItem(p.item)| == p.size;
        assert s[..p.size] == PrintItem(p.item) && s[p.size..] == Print(rest);
      }
      assert [0] in Parse(s).value <==> p.item == [0] || [0] in rest;
    }
  }

  method IsPushOnly(script: Script) returns (ok: bool)
    ensures ok == Parse(script).Some?
  {
    hide Parse;
    var i := 0;
    ParseStep([]);
    assert script[0..] == script;
    while i < |script|
      invariant 0 <= i <= |script|
      invariant Parse(script).Some? == Parse(script[i..]).Some?
    {
      ghost var s := script[i..];
      ParseStep(s);
      var opcode := script[i];
      i := i + 1;
      if opcode <= 0x4b {
        i := i + opcode;
      } else if opcode == OP_PUSHDATA1 {
        if i >= |script| {
          return false;
        }
        i := i + 1 + script[i];
      } else if opcode == OP_PUSHDATA2 {
        if i + 1 >= |script| {
          return false;
        }
        i := i + 2 + Little2(script[i], script[i + 1]);
      } else if opcode == OP_PUSHDATA4 {
        if i + 3 >= |script| {
          return false;
        }
        i := i + 4 + Little4(script[i], script[i + 1], script[i + 2], script[i + 3]);
      } else if opcode == OP_1NEGATE || OP_1 <= opcode <= OP_16 {
      } else {
        return false;
      }
      if i > |script| {
        return false;
      }
      assert s[FirstPush(s).value.size..] == script[i..];
    }
    assert script[i..] == [];
    return true;
  }

  lemma ParseStep(s: Script)
    ensures s == [] ==> Parse(s) == Some([])
    ensures s != [] ==> (Parse(s).Some? <==> FirstPush(s).Some? && Parse(s[FirstPush(s).value.size..]).Some?)
    ensures s != [] && Parse(s).Some? ==>
              Parse(s).value == [FirstPush(s).value.item] + Parse(s[FirstPush(s).value.size..]).value
  {
  }

  /** One round of the scan: the push at position i, if it is there in full and no longer than needed. */
  method ScanPush(script: Script, i: nat) returns (ok: bool, next: nat)
    requires i < |script|
    ensures ok == (FirstPush(script[i..]).Some? && ScanOk(script[i..]))
    ensures ok ==> next == i + FirstPush(script[i..]).value.size
  {
    next := i + 1;
    var opcode := script[i];
    if opcode <= 0x4b {
      if next + opcode > |script| {
        return false, next;
      }
      if opcode == 1 {
        var value := script[next];
        if 0 <= value < 17 || value == 0x81 {
          return false, next;
        }
      }
      next := next + opcode;
    } else if opcode == OP_PUSHDATA1 {
      if next >= |script| {
        return false, next;
      }
      var length := script[next];
      if length < OP_PUSHDATA1 {
        return false, next;
      }
      next := next + 1 + length;
    } else if opcode == OP_PUSHDATA2 {
      if next + 1 >= |script| {
        return false, next;
      }
      var length := Little2(script[next], script[next + 1]);
      if length < 0x100 {
        return false, next;
      }
      next := next + 2 + length;
    } else if opcode == OP_PUSHDATA4 {
      if next + 3 >= |script| {
        return false, next;
      }
      var length := Little4(script[next], script[next + 1], script[next + 2], script[next + 3]);
      if length < 0x1_0000 {
        return false, next;
      }
      next := next + 4 + length;
    } else if opcode == OP_1NEGATE || OP_1 <= opcode <= OP_16 {
    } else {
      return false, next;
    }
    ok := next <= |script|;
  }

  /** Accepts exactly the canonical scripts; in particular nothing that IsPushOnly refuses. */
  method IsMinimalPush(script: Script) returns (ok: bool)
    ensures ok == Canonical(script)
    ensures ok ==> Parse(script).Some?
  {
    hide Canonical, FirstPush, ScanOk;
    var i := 0;
    CanonicalEmpty();
    CanonicalParses(script);
    assert script[0..] == script;
    while i < |script|
      invariant 0 <= i <= |script|
      invariant Canonical(script) == Canonical(script[i..])
    {
      CanonicalStep(script[i..]);
      var next;
      ok, next := ScanPush(script, i);
      if !ok {
        return false;
      }
      assert script[i..][next - i..] == script[next..];
      i := next;
    }
    assert script[i..] == [];
    return true;
  }

  lemma CanonicalEmpty()
    ensures Canonical([])
  {
  }

  lemma CanonicalParses(s: Script)
    ensures Canonical(s) ==> Parse(s).Some?
  {
  }

  // ------------------------------------------------------------------ main results

  predicate Printable(items: seq<Script>) {
    forall i :: 0 <= i < |items| ==> |items[i]| < 0x1_0000_0000
  }

  lemma {:induction false} ParsedIsPrintable(s: Script)
    requires Parse(s).Some?
    ensures Printable(Parse(s).value)
    decreases |s|
  {
    if s != [] {
      ParsedIsPrintable(s[FirstPush(s).value.size..]);
    }
  }

  lemma {:induction false} PrintParses(items: seq<Script>)
    requires Printable(items)
    ensures Parse(Print(items)) == Some(items)
    decreases |items|
  {
    hide PrintItem, FirstPush;
    if items != [] {
      var rest := Print(items[1..]);
      PrintThenFirst(items[0], rest);
      PrintParses(items[1..]);
      assert Print(items)[|PrintItem(items[0])|..] == rest;
      ParseStep(Print(items));
      assert items == [items[0]] + items[1..];
    }
  }

  /** Parsing undoes printing exactly when every item's length fits four bytes. */
  lemma RoundTrip(items: seq<Script>)
    ensures Parse(Print(items)) == Some(items) <==> Printable(items)
  {
    if Printable(items) {
      PrintParses(items);
    } else if Parse(Print(items)).Some? {
      ParsedIsPrintable(Print(items));
    }
  }

  /** The minimal-push scanner accepts a print-out exactly when no item is the single byte zero: by rule 3
      of BIP 62 the script 01 00 is the minimal way to push that byte, but the scanner refuses it. */
  lemma PrintIsMinimal(items: seq<Script>)
    requires Printable(items)
    ensures Canonical(Print(items)) <==> [0] !in items
  {
    PrintParses(items);
  }

  /** Of two accepted scripts that push the same items neither differs from the other. */
  lemma MinimalIsUnique(s: Script, t: Script)
    requires Canonical(s) && Canonical(t) && Parse(s) == Parse(t)
    ensures s == t
  {
  }

  /** No script that pushes the same items is shorter than their print-out, hence than an accepted script. */
  lemma {:induction false} MinimalIsShortest(s: Script)
    requires Parse(s).Some?
    ensures |Print(Parse(s).value)| <= |s|
    decreases |s|
  {
    if s != [] {
      hide PrintItem, FirstPush;
      var p := FirstPush(s).value;
      PrintItemShortest(s);
      MinimalIsShortest(s[p.size..]);
      assert Parse(s).value[1..] == Parse(s[p.size..]).value;
    }
  }

  lemma PrintItemShortest(s: Script)
    requires s != [] && FirstPush(s).Some?
    ensures |PrintItem(FirstPush(s).value.item)| <= FirstPush(s).value.size
  {
  }

  /** The byte zero alone can be pushed, but by no accepted script. */
  lemma ZeroByteRefused(s: Script)
    ensures Parse([1, 0]) == Some([[0]])
    ensures Canonical(s) ==> Parse(s) != Some([[0]])
  {
    var zero: Script := [0];
    assert [zero][1..] == [];
    assert PrintItem(zero) + [] == [1, 0];
    assert Print([zero]) == [1, 0];
    PrintParses([zero]);
    assert [0] in [[0]];
  }

  /** How an item is pushed: -1 and 1..16 by one opcode each, the rest behind its length in as few bytes as it takes. */
  lemma PrintForms(item: Script)
    ensures item == [] ==> PrintItem(item) == [0]
    ensures item == [0x81] ==> PrintItem(item) == [0x4f]
    ensures |item| == 1 && 1 <= item[0] <= 16 ==> PrintItem(item) == [0x50 + item[0]]
    ensures |item| == 1 && (item[0] == 0 || 16 < item[0] != 0x81) ==> PrintItem(item) == [1, item[0]]
    ensures 1 < |item| <= 75 ==> PrintItem(item) == [|item|] + item
    ensures 75 < |item| <= 255 ==> PrintItem(item) == [0x4c, |item|] + item
    ensures 255 < |item| <= 65535 ==> exists a: Byte, b: Byte :: |item| == a + 256 * b && PrintItem(item) == [0x4d, a, b] + item
  {
    assert |item| == 1 ==> item == [item[0]];
    var n := |item|;
    if 255 < n <= 65535 {
      var a: Byte, b: Byte := n % 0x100, n / 0x100;
      assert PrintItem(item) == [0x4d, a, b] + item;
    }
  }

  /** A longer item stands behind its length in four bytes, lowest first. */
  lemma PrintLong(item: Script)
    requires 65535 < |item| < 0x1_0000_0000
    ensures exists a: Byte, b: Byte, c: Byte, d: Byte ::
              |item| == a + 256 * (b + 256 * (c + 256 * d)) && PrintItem(item) == [0x4e, a, b, c, d] + item
  {
    var n := |item|;
    Base256(n);
    var a: Byte, b: Byte, c: Byte, d: Byte := n % 0x100, n / 0x100 % 0x100, n / 0x100 / 0x100 % 0x100, n / 0x100 / 0x100 / 0x100 % 0x100;
    assert PrintItem(item) == [0x4e, a, b, c, d] + item;
  }
}

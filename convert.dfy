/** `int2hex` and the `_map2url` escape table of mo_logs' convert module.
    Python's `hex` is written out: lowercase digits after a `0x` prefix, and
    a `-0x` prefix for negative values. */
module Convert {
  import opened IntMath

  /** A lowercase hexadecimal digit, as Python's `hex` writes them. */
  predicate IsHexChar(c: char)
  {
    '0' <= c <= '9' || 'a' <= c <= 'f'
  }

  /** The digit for `d < 16`. */
  function HexChar(d: nat): (c: char)
    requires d < 16
    ensures IsHexChar(c)
  {
    if d < 10 then ('0' as int + d) as char else ('a' as int + d - 10) as char
  }

  function HexValue(c: char): (r: nat)
    requires IsHexChar(c)
    ensures r < 16 && HexChar(r) == c
  {
    if '0' <= c <= '9' then c as int - '0' as int else c as int - 'a' as int + 10
  }

  function Pow16(k: nat): (r: nat)
    ensures r >= 1
  {
    if k == 0 then 1 else 16 * Pow16(k - 1)
  }

  lemma {:induction false} Pow16Monotone(a: nat, b: nat)
    requires a <= b
    ensures Pow16(a) <= Pow16(b)
    decreases b - a
  {
    if a < b {
      Pow16Monotone(a, b - 1);
    }
  }

  /** The lowercase hexadecimal digits of `n`, without leading zeros. */
  function HexDigits(n: nat): (r: string)
    ensures |r| >= 1 && forall i :: 0 <= i < |r| ==> IsHexChar(r[i])
    decreases n
  {
    if n < 16 then [HexChar(n)] else HexDigits(n / 16) + [HexChar(n % 16)]
  }

  /** The value of a string of lowercase hex digits (most significant first). */
  function ParseHex(s: string): (r: nat)
    requires forall i :: 0 <= i < |s| ==> IsHexChar(s[i])
    decreases |s|
  {
    if |s| == 0 then 0 else 16 * ParseHex(s[..|s| - 1]) + HexValue(s[|s| - 1])
  }

  /** Python's `hex(value)`. */
  function PyHex(value: int): string
  {
    if value < 0 then "-0x" + HexDigits(-value) else "0x" + HexDigits(value)
  }

  function Zeros(n: nat): (r: string)
    ensures |r| == n && forall i :: 0 <= i < n ==> r[i] == '0'
  {
    if n == 0 then [] else Zeros(n - 1) + "0"
  }

  /** Python's `"0" * size`: empty for a non-positive count. */
  function PyRepeatZero(size: int): string
  {
    if size <= 0 then [] else Zeros(size)
  }

  /** Python's slice `s[k:]`: a negative start counts from the end, and both
      ends are clamped to the string. */
  function PySliceFrom(s: string, k: int): (r: string)
    ensures |r| <= |s|
  {
    if k < 0 then (if |s| + k < 0 then s else s[|s| + k..])
    else if k > |s| then []
    else s[k..]
  }

  /** `int2hex(value, size) = (("0" * size) + hex(value)[2:])[-size:]`. */
  function Int2Hex(value: int, size: int): string
  {
    var h := PyHex(value);
    PySliceFrom(PyRepeatZero(size) + h[2..], -size)
  }

  // ----- properties of the digit functions -----

  /** `HexDigits(n)` has exactly the length needed: `n < 16^|r|`, and when it
      has more than one digit the leading one is not zero. */
  lemma {:induction false} HexDigitsBounds(n: nat)
    ensures var r := HexDigits(n);
      && n < Pow16(|r|)
      && (|r| > 1 ==> Pow16(|r| - 1) <= n)
    decreases n
  {
    var r := HexDigits(n);
    if n >= 16 {
      HexDigitsBounds(n / 16);
      var q := HexDigits(n / 16);
      DivMod(n, 16);
    }
  }

  lemma {:induction false} ParseHexDigits(n: nat)
    ensures ParseHex(HexDigits(n)) == n
    decreases n
  {
    var r := HexDigits(n);
    if n >= 16 {
      var q := HexDigits(n / 16);
      assert r[..|r| - 1] == q;
      ParseHexDigits(n / 16);
      DivMod(n, 16);
    }
  }

  lemma {:induction false} ParseHexBound(s: string)
    requires forall i :: 0 <= i < |s| ==> IsHexChar(s[i])
    ensures ParseHex(s) < Pow16(|s|)
    decreases |s|
  {
    if |s| > 0 {
      ParseHexBound(s[..|s| - 1]);
    }
  }

  /** Concatenation of digit strings: `ParseHex(a + b) == ParseHex(a) * 16^|b| + ParseHex(b)`. */
  lemma {:induction false} ParseHexAppend(a: string, b: string)
    requires forall i :: 0 <= i < |a| ==> IsHexChar(a[i])
    requires forall i :: 0 <= i < |b| ==> IsHexChar(b[i])
    ensures ParseHex(a + b) == ParseHex(a) * Pow16(|b|) + ParseHex(b)
    decreases |b|
  {
    if |b| == 0 {
      assert a + b == a;
    } else {
      var init := b[..|b| - 1];
      assert (a + b)[..|a + b| - 1] == a + init;
      ParseHexAppend(a, init);
      HexStep(ParseHex(a), Pow16(|init|), ParseHex(init), HexValue(b[|b| - 1]));
    }
  }

  lemma HexStep(pa: int, p: int, pi: int, d: int)
    ensures 16 * (pa * p + pi) + d == pa * (16 * p) + (16 * pi + d)
  {
  }

  lemma {:induction false} ParseHexZeros(n: nat)
    ensures ParseHex(Zeros(n)) == 0
  {
    if n > 0 {
      assert Zeros(n)[..n - 1] == Zeros(n - 1);
      ParseHexZeros(n - 1);
    }
  }

  // ----- int2hex -----

  /** The padded string `int2hex` slices: `size` zeros before the digits. */
  lemma Int2HexPadded(value: int, size: int)
    requires value >= 0 && size > 0
    ensures var padded := Zeros(size) + HexDigits(value);
      Int2Hex(value, size) == padded[|padded| - size..]
  {
    assert PyHex(value)[2..] == HexDigits(value);
  }

  /** A value with at most `size` digits comes out zero-padded. */
  lemma Int2HexShort(value: int, size: int)
    requires value >= 0 && size > 0 && |HexDigits(value)| <= size
    ensures Int2Hex(value, size) == Zeros(size - |HexDigits(value)|) + HexDigits(value)
  {
    Int2HexPadded(value, size);
    var h := HexDigits(value);
    var padded := Zeros(size) + h;
    assert padded[|padded| - size..] == Zeros(size - |h|) + h;
  }

  /** A value with more than `size` digits keeps its last `size` digits. */
  lemma Int2HexLong(value: int, size: int)
    requires value >= 0 && size > 0 && |HexDigits(value)| > size
    ensures var h := HexDigits(value); Int2Hex(value, size) == h[|h| - size..]
  {
    Int2HexPadded(value, size);
    var h := HexDigits(value);
    var padded := Zeros(size) + h;
    assert padded[|padded| - size..] == h[|h| - size..];
  }

  /** Zero padding does not change the value of the digits. */
  lemma {:induction false} PaddedValue(value: nat, size: nat)
    requires |HexDigits(value)| <= size
    ensures ParseHex(Zeros(size - |HexDigits(value)|) + HexDigits(value)) == value
    ensures value < Pow16(size)
  {
    var h := HexDigits(value);
    var z := Zeros(size - |h|);
    assert ParseHex(z + h) == ParseHex(h) by {
      ParseHexAppend(z, h);
      ParseHexZeros(size - |h|);
    }
    ParseHexDigits(value);
    HexDigitsBounds(value);
    Pow16Monotone(|h|, size);
  }

  /** The last `size` digits denote the value modulo `16^size`. */
  lemma {:induction false} SuffixValue(value: nat, size: nat)
    requires 0 < size < |HexDigits(value)|
    ensures var h := HexDigits(value); ParseHex(h[|h| - size..]) == value % Pow16(size)
    ensures value >= Pow16(size)
  {
    var h := HexDigits(value);
    var r := h[|h| - size..];
    var pre := h[..|h| - size];
    assert h == pre + r;
    ParseHexAppend(pre, r);
    ParseHexDigits(value);
    ParseHexBound(r);
    DivUnique(value, Pow16(size), ParseHex(pre));
    DivMod(value, Pow16(size));
    HexDigitsBounds(value);
    Pow16Monotone(size, |h| - 1);
  }

  /** For a non-negative value and a positive size, `int2hex` has exactly
      `size` lowercase hex digits and denotes `value mod 16^size`; when
      `value < 16^size` it is the zero-padded hex of `value`. */
  lemma {:induction false} Int2HexValue(value: int, size: int)
    requires value >= 0 && size > 0
    ensures |Int2Hex(value, size)| == size
    ensures forall i :: 0 <= i < |Int2Hex(value, size)| ==> IsHexChar(Int2Hex(value, size)[i])
    ensures ParseHex(Int2Hex(value, size)) == value % Pow16(size)
    ensures value < Pow16(size) ==>
      |HexDigits(value)| <= size && Int2Hex(value, size) == Zeros(size - |HexDigits(value)|) + HexDigits(value)
  {
    if |HexDigits(value)| <= size {
      Int2HexShort(value, size);
      PaddedValue(value, size);
      DivUnique(value, Pow16(size), 0);
      DivMod(value, Pow16(size));
    } else {
      Int2HexLong(value, size);
      SuffixValue(value, size);
    }
  }

  /** With `size == 0` the slice `[-0:]` keeps the whole string: the result
      is the unpadded hex of `value` (after the two-character prefix). */
  lemma Int2HexSizeZero(value: int)
    ensures Int2Hex(value, 0) == PyHex(value)[2..]
  {
  }

  /** A negative value keeps the `x` of Python's `-0x` prefix. */
  lemma Int2HexNegative(value: int)
    requires value < 0
    ensures Int2Hex(value, 0) == "x" + HexDigits(-value)
  {
  }

  // ----- the URL escape table -----

  /** The sixteen characters `_map2url` escapes. */
  const Reserved: string := " {}<>;/?:@&=+$,%"

  /** The one-character string of a Latin-1 code. */
  function Latin1(code: int): (r: string)
    requires 0 <= code < 256
    ensures |r| == 1 && r[0] as int == code
  {
    [code as char]
  }

  /** `_map2url`: the comprehension over codes 32..255 maps each byte to the
      character of the same code, then the loop overwrites the reserved ones
      with `"%" + int2hex(code, 2)`. */
  method Map2Url() returns (m: map<int, string>)
    ensures forall code :: code in m <==> 32 <= code < 256
    ensures forall code :: 32 <= code < 256 && (code as char) in Reserved ==> m[code] == "%" + Int2Hex(code, 2)
    ensures forall code :: 32 <= code < 256 && (code as char) !in Reserved ==> m[code] == Latin1(code)
  {
    m := map i | 32 <= i < 256 :: Latin1(i);
    var k := 0;
    while k < |Reserved|
      invariant 0 <= k <= |Reserved|
      invariant forall code :: code in m <==> 32 <= code < 256
      invariant forall code :: 32 <= code < 256 && (code as char) in Reserved[..k] ==> m[code] == "%" + Int2Hex(code, 2)
      invariant forall code :: 32 <= code < 256 && (code as char) !in Reserved[..k] ==> m[code] == Latin1(code)
    {
      var c := Reserved[k];
      m := m[c as int := "%" + Int2Hex(c as int, 2)];
      assert Reserved[..k + 1] == Reserved[..k] + [c];
      k := k + 1;
    }
    assert Reserved[..k] == Reserved;
  }

  /** Every escape is `%` and two hex digits that parse back to the code:
      the table can be inverted. */
  lemma EscapeRoundTrip(code: int)
    requires 32 <= code < 256
    ensures var e := "%" + Int2Hex(code, 2);
      && |e| == 3 && e[0] == '%'
      && (forall i :: 1 <= i < 3 ==> IsHexChar(e[i]))
      && ParseHex(e[1..]) == code
  {
    Int2HexValue(code, 2);
    var e := "%" + Int2Hex(code, 2);
    assert e[1..] == Int2Hex(code, 2);
    assert Pow16(2) == 256;
    DivUnique(code, 256, 0);
    DivMod(code, 256);
  }

  lemma EscapeExamples()
    ensures "%" + Int2Hex(32, 2) == "%20"
    ensures "%" + Int2Hex(37, 2) == "%25"
    ensures "%" + Int2Hex(123, 2) == "%7b"
  {
    assert HexDigits(32) == "20" by { assert HexDigits(2) == "2"; }
    assert HexDigits(37) == "25" by { assert HexDigits(2) == "2"; }
    assert HexDigits(123) == "7b" by { assert HexDigits(7) == "7"; }
  }
}

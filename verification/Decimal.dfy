// Decimal printing of a 32-bit int: a digit loop that fills a 12-byte buffer
// backwards and a reversal in place, against reading the text back.

module Decimal {

  import opened Wrappers

  const MIN_INT := -0x8000_0000
  const MAX_INT := 0x7FFF_FFFF

  predicate IsInt32(n: int) {
    MIN_INT <= n <= MAX_INT
  }

  // ----- C arithmetic -------------------------------------------------------

  /** Division and remainder round toward zero. */
  function Quotient(n: int): int {
    if n < 0 then -(-n / 10) else n / 10
  }

  function Remainder(n: int): (r: int)
    ensures -9 <= r <= 9
  {
    if n < 0 then -(-n % 10) else n % 10
  }

  /** Negation in two's complement: the least int has no positive counterpart. */
  function Negate(n: int): int
    requires IsInt32(n)
  {
    if n == MIN_INT then MIN_INT else -n
  }

  function Glyph(rem: int): char
    requires -9 <= rem <= 35
  {
    if rem > 9 then (rem - 10 + 'A' as int) as char else (rem + '0' as int) as char
  }

  // ----- the text and its meaning ------------------------------------------

  /** The glyphs of n, most significant first. */
  function Glyphs(n: int): string
    decreases if n < 0 then -n else n
  {
    if n == 0 then "" else Glyphs(Quotient(n)) + [Glyph(Remainder(n))]
  }

  function Render(num: int): string
    requires IsInt32(num)
  {
    if num == 0 then "0"
    else if num < 0 then "-" + Glyphs(Negate(num))
    else Glyphs(num)
  }

  predicate IsDigit(c: char) {
    '0' <= c <= '9'
  }

  predicate AllDigits(s: string) {
    forall i :: 0 <= i < |s| ==> IsDigit(s[i])
  }

  function Value(s: string): (v: nat)
    requires AllDigits(s)
  {
    if s == "" then 0 else 10 * Value(s[..|s| - 1]) + (s[|s| - 1] as int - '0' as int)
  }

  function Parse(s: string): Option<int> {
    if s != "" && s[0] == '-' then
      if s[1..] != "" && AllDigits(s[1..]) then Some(0 - Value(s[1..])) else None
    else
      if s != "" && AllDigits(s) then Some(Value(s)) else None
  }

  /** Written the way one writes numbers: no leading zero and no minus zero. */
  predicate Canonical(s: string) {
    || s == "0"
    || (s != "" && s[0] != '0' && s[0] != '-')
    || (|s| > 1 && s[0] == '-' && s[1] != '0')
  }

  // ----- printing and reading back -----------------------------------------

  lemma {:induction false} GlyphsOfNat(n: nat)
    ensures AllDigits(Glyphs(n))
    ensures Value(Glyphs(n)) == n
    ensures n > 0 ==> Glyphs(n) != "" && Glyphs(n)[0] != '0'
    decreases n
  {
    if n == 0 {
    } else {
      GlyphsOfNat(n / 10);
      var s := Glyphs(n);
      assert s[..|s| - 1] == Glyphs(n / 10);
    }
  }

  /** A negative remainder gives a glyph below '0', and no number ends in one. */
  lemma NegativeIsUnreadable(n: int)
    requires n < 0 && -n % 10 != 0
    ensures Parse("-" + Glyphs(n)) == None
  {
    var glyphs := Glyphs(n);
    var s := "-" + glyphs;
    assert glyphs[|glyphs| - 1] == Glyph(Remainder(n));
    assert s[1..] == glyphs;
    assert !IsDigit(s[1..][|glyphs| - 1]);
  }

  /** The least int is its own negation, so the digit loop sees a negative number
      and what comes out cannot be read. */
  lemma LeastIntIsUnreadable()
    ensures Parse(Render(MIN_INT)) == None
  {
    NegativeIsUnreadable(MIN_INT);
    hide Parse;
  }

  lemma {:induction false} GlyphsLength(n: int, bound: int, digits: nat)
    requires -bound < n < bound
    requires bound == Power10(digits)
    ensures |Glyphs(n)| <= digits
    decreases digits
  {
    if n != 0 {
      GlyphsLength(Quotient(n), Power10(digits - 1), digits - 1);
    }
  }

  function Power10(k: nat): (p: nat)
    ensures p > 0
  {
    if k == 0 then 1 else 10 * Power10(k - 1)
  }

  /** The text always fits the 12-byte buffer with its terminator, the least int included. */
  lemma Fits(num: int)
    requires IsInt32(num)
    ensures 1 <= |Render(num)| <= 11
  {
    assert Power10(5) == 100_000;
    assert Power10(10) == 10_000_000_000;
    if num > 0 {
      GlyphsLength(num, 10_000_000_000, 10);
    } else if num < 0 {
      GlyphsLength(Negate(num), 10_000_000_000, 10);
    }
  }

  lemma ZeroReads()
    ensures AllDigits("0") && Value("0") == 0
  {
    assert Value("0") == 10 * Value("") + 0;
  }

  /** The text reads back as the number for every int but the least one. */
  lemma ParsesBack(num: int)
    requires IsInt32(num)
    ensures Parse(Render(num)) == Some(num) <==> num != MIN_INT
    ensures num != MIN_INT ==> Canonical(Render(num))
  {
    hide Glyphs, Value, AllDigits;
    if num == MIN_INT {
      LeastIntIsUnreadable();
    } else if num < 0 {
      GlyphsOfNat(-num);
      assert Render(num)[1..] == Glyphs(-num);
    } else if num == 0 {
      ZeroReads();
    } else {
      GlyphsOfNat(num);
      DigitsHaveNoMinus(Glyphs(num));
    }
  }

  lemma DigitsHaveNoMinus(s: string)
    requires AllDigits(s) && s != ""
    ensures s[0] != '-'
  {
  }

  lemma {:induction false} DigitsAreGlyphs(s: string)
    requires AllDigits(s)
    requires s != "" ==> s[0] != '0'
    ensures Glyphs(Value(s)) == s
    decreases |s|
  {
    if s == "" {
    } else {
      var front := s[..|s| - 1];
      DigitsAreGlyphs(front);
      var v := Value(s);
      assert Quotient(v) == Value(front);
      if front == "" {
        assert v > 0;
      } else {
        assert Value(front) > 0;
      }
      assert s == front + [Glyph(Remainder(v))];
    }
  }

  lemma NumberIsGlyphs(s: string)
    requires AllDigits(s) && s != "" && s[0] != '0'
    ensures Value(s) != 0 && Glyphs(Value(s)) == s
  {
    DigitsAreGlyphs(s);
  }

  /** Printing is the only canonical writing: whatever canonical text reads as an
      int in range is exactly what the program prints for it. */
  lemma CanonicalIsRendered(s: string, num: int)
    requires MIN_INT < num <= MAX_INT
    requires Canonical(s) && Parse(s) == Some(num)
    ensures s == Render(num)
  {
    hide Glyphs, Value, AllDigits;
    if s[0] == '-' {
      NumberIsGlyphs(s[1..]);
      assert s == "-" + s[1..];
    } else if s != "0" {
      NumberIsGlyphs(s);
    } else {
      ZeroReads();
    }
  }

  lemma {:induction false} GlyphsArePlain(n: int)
    ensures Plain(Glyphs(n))
    decreases if n < 0 then -n else n
  {
    if n != 0 {
      GlyphsArePlain(Quotient(n));
    }
  }

  /** ASCII, with no terminator inside. */
  predicate Plain(s: string) {
    forall i :: 0 <= i < |s| ==> '\0' < s[i] < '\U{80}'
  }

  lemma RenderIsPlain(num: int)
    requires IsInt32(num)
    ensures Plain(Render(num))
  {
    if num != 0 {
      GlyphsArePlain(if num < 0 then Negate(num) else num);
    }
  }

  // ----- the loops ----------------------------------------------------------

  /** The digit loop: least significant glyph first. */
  method FillBackwards(str: array<char>, start: int) returns (i: nat)
    requires str.Length == 12
    requires IsInt32(start)
    modifies str
    ensures i == |Glyphs(start)| <= 10
    ensures forall k :: 0 <= k < i ==> str[k] == Glyphs(start)[i - 1 - k]
  {
    ghost var glyphs := Glyphs(start);
    assert Power10(5) == 100_000;
    GlyphsLength(start, 10_000_000_000, 10);
    var num := start;
    i := 0;
    while num != 0
      invariant IsInt32(num)
      invariant i + |Glyphs(num)| == |glyphs|
      invariant Glyphs(num) == glyphs[..|glyphs| - i]
      invariant forall k :: 0 <= k < i ==> str[k] == glyphs[|glyphs| - 1 - k]
      decreases if num < 0 then -num else num
    {
      var rem := Remainder(num);
      assert Glyphs(num)[|Glyphs(num)| - 1] == Glyph(rem);
      str[i] := Glyph(rem);
      i := i + 1;
      num := Quotient(num);
    }
  }

  method ReverseInPlace(str: array<char>, len: nat)
    requires 1 <= len <= str.Length
    modifies str
    ensures forall k :: 0 <= k < len ==> str[k] == old(str[len - 1 - k])
    ensures forall k :: len <= k < str.Length ==> str[k] == old(str[k])
  {
    var start, end := 0, len - 1;
    while start < end
      invariant 0 <= start <= len && start + end == len - 1
      invariant start <= end + 2
      invariant forall k :: 0 <= k < start ==> str[k] == old(str[len - 1 - k])
      invariant forall k :: end < k < len ==> str[k] == old(str[len - 1 - k])
      invariant forall k :: start <= k <= end ==> str[k] == old(str[k])
      invariant forall k :: len <= k < str.Length ==> str[k] == old(str[k])
    {
      var temp := str[start];
      str[start] := str[end];
      str[end] := temp;
      start, end := start + 1, end - 1;
    }
  }

  /** The buffer that is printed: the text of the number, then a terminator, with
      no terminator before it. */
  method Format(value: int) returns (str: array<char>)
    requires IsInt32(value)
    ensures fresh(str) && str.Length == 12
    ensures |Render(value)| < 12
    ensures str[..|Render(value)|] == Render(value)
    ensures str[|Render(value)|] == '\0'
    ensures Plain(Render(value))
  {
    RenderIsPlain(value);
    str := new char[12];
    var i := 0;
    var num := value;
    if num == 0 {
      str[i] := '0';
      i := i + 1;
      str[i] := '\0';
    } else {
      var isNegative := false;
      if num < 0 {
        isNegative := true;
        num := Negate(num);
      }
      i := FillBackwards(str, num);
      if isNegative {
        str[i] := '-';
        i := i + 1;
      }
      str[i] := '\0';
      label filled:
      ReverseInPlace(str, i);
      assert forall k :: 0 <= k < i ==> str[k] == old@filled(str[i - 1 - k]);
      assert str[..i] == Render(value);
    }
  }
}

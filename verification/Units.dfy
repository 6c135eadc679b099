/** Decimal text and the conversion of a decimal amount into the smallest
    currency unit (18 decimals), as the client does with ethers'
    `parseUnits` before every price it sends, and the decimal text in which
    the contract's unsigned integers reach the client. */
module Units {
  import opened Common

  /** `parseUnits` with no unit argument scales by 10^18. */
  const DECIMALS: nat := 18
  const WEI_PER_UNIT: nat := 1_000_000_000_000_000_000

  function Pow10(k: nat): (r: nat)
    ensures r >= 1
  {
    if k == 0 then 1 else 10 * Pow10(k - 1)
  }

  lemma Pow10Decimals()
    ensures Pow10(DECIMALS) == WEI_PER_UNIT
  {
    assert Pow10(9) == 1_000_000_000;
  }

  predicate IsDigit(c: char) {
    '0' <= c <= '9'
  }

  predicate AllDigits(s: string) {
    forall i :: 0 <= i < |s| ==> IsDigit(s[i])
  }

  function DigitChar(d: nat): (c: char)
    requires d < 10
    ensures IsDigit(c) && (c as int) - ('0' as int) == d
  {
    ('0' as int + d) as char
  }

  /** The number a string of decimal digits denotes ("" denotes 0). */
  function DigitsValue(s: string): nat
    requires AllDigits(s)
  {
    if s == [] then 0
    else DigitsValue(s[..|s| - 1]) * 10 + ((s[|s| - 1] as int) - ('0' as int))
  }

  /** The decimal rendering of a natural number, as a template string
      `${n}` or a contract's unsigned integer result reads. */
  function DecimalText(n: nat): (s: string)
    ensures |s| > 0 && AllDigits(s)
  {
    if n < 10 then [DigitChar(n)] else DecimalText(n / 10) + [DigitChar(n % 10)]
  }

  /** Reading the rendering of `n` gives back `n`. */
  lemma {:induction false} DecimalTextValue(n: nat)
    ensures DigitsValue(DecimalText(n)) == n
  {
    var s := DecimalText(n);
    if n >= 10 {
      DecimalTextValue(n / 10);
      assert s[..|s| - 1] == DecimalText(n / 10);
    }
  }

  /** The rendering of `n` has just enough digits: `n` is below 10 to the
      power of its length. */
  lemma {:induction false} DecimalTextLength(n: nat)
    ensures n < Pow10(|DecimalText(n)|)
  {
    if n >= 10 {
      DecimalTextLength(n / 10);
    }
  }

  /** Reading two digit strings written one after the other. */
  lemma {:induction false} DigitsConcat(a: string, b: string)
    requires AllDigits(a) && AllDigits(b)
    ensures AllDigits(a + b)
    ensures DigitsValue(a + b) == DigitsValue(a) * Pow10(|b|) + DigitsValue(b)
  {
    if b != [] {
      var ab := a + b;
      var b' := b[..|b| - 1];
      assert ab[..|ab| - 1] == a + b';
      assert ab[|ab| - 1] == b[|b| - 1];
      DigitsConcat(a, b');
      var x, p, y := DigitsValue(a), Pow10(|b'|), DigitsValue(b');
      var d := (b[|b| - 1] as int) - ('0' as int);
      assert DigitsValue(ab) == (x * p + y) * 10 + d;
      assert DigitsValue(b) == y * 10 + d;
      ShiftDigit(x, p, y, d);
    } else {
      assert a + b == a;
    }
  }

  lemma ShiftDigit(x: int, p: int, y: int, d: int)
    ensures (x * p + y) * 10 + d == x * (10 * p) + (y * 10 + d)
  {
  }

  /** Position of the first '.' in `t`, or |t| when there is none. */
  function DotIndex(t: string): (k: nat)
    ensures k <= |t|
    ensures k < |t| ==> t[k] == '.'
    ensures forall j :: 0 <= j < k ==> t[j] != '.'
  {
    if t == [] then 0 else if t[0] == '.' then 0 else 1 + DotIndex(t[1..])
  }

  /** `f` with its trailing '0' characters removed. */
  function TrimTrailingZeros(f: string): (g: string)
    ensures |g| <= |f| && g == f[..|g|]
    ensures g == [] || g[|g| - 1] != '0'
    ensures forall j :: |g| <= j < |f| ==> f[j] == '0'
    ensures AllDigits(f) ==> AllDigits(g)
  {
    if f == [] then f
    else if f[|f| - 1] == '0' then TrimTrailingZeros(f[..|f| - 1])
    else f
  }

  /** The characters an amount may contain at all: digits and '.'. */
  predicate AmountChars(t: string) {
    forall i :: 0 <= i < |t| ==> IsDigit(t[i]) || t[i] == '.'
  }

  /** A whole part and a fraction of at most 18 digits, in units of
      10^-18. */
  function Scaled(whole: string, fraction: string): nat
    requires AllDigits(whole) && AllDigits(fraction) && |fraction| <= DECIMALS
  {
    DigitsValue(whole) * WEI_PER_UNIT + DigitsValue(fraction) * Pow10(DECIMALS - |fraction|)
  }

  /** The unsigned part of `parseUnits`: a non-empty run of digits and
      points other than "." alone, with at most one point; an empty whole
      part reads as 0; trailing zeros of the fraction are dropped, and more
      than 18 remaining fraction digits are refused. */
  function ParseUnsigned(t: string): (r: Option<nat>)
    ensures r.Some? ==> |t| > 0 && AmountChars(t) && t != "."
  {
    if t == [] || !AmountChars(t) || t == "." then None
    else
      var k := DotIndex(t);
      var whole := t[..k];
      var rest := if k < |t| then t[k + 1..] else [];
      if DotIndex(rest) < |rest| then None
      else
        var fraction := TrimTrailingZeros(rest);
        if |fraction| > DECIMALS then None
        else
          assert AllDigits(whole);
          assert AllDigits(fraction);
          Some(Scaled(whole, fraction))
  }

  /** ethers `parseUnits(text)`: the amount `text` names, in units of
      10^-18; `None` where ethers throws. */
  function ParseUnits(text: string): (r: Option<int>)
    ensures r.Some? ==> |text| > 0
    ensures r.Some? ==> forall i :: 0 <= i < |text| ==> IsDigit(text[i]) || text[i] == '.' || (i == 0 && text[i] == '-')
  {
    if |text| > 0 && text[0] == '-' then
      match ParseUnsigned(text[1..])
      case Some(w) => Some(-(w as int))
      case None => None
    else
      match ParseUnsigned(text)
      case Some(w) => Some(w)
      case None => None
  }

  /** Any non-empty run of digits, leading zeros included, parses to the
      number it denotes times 10^18. */
  lemma ParseUnitsDigits(w: string)
    requires |w| > 0 && AllDigits(w)
    ensures ParseUnits(w) == Some(DigitsValue(w) * WEI_PER_UNIT)
  {
    assert IsDigit(w[0]);
    assert AmountChars(w);
    assert w != "." by { assert IsDigit(w[0]); }
    NoDotInDigits(w);
    assert w[..|w|] == w;
    assert TrimTrailingZeros([]) == [];
    assert Scaled(w, []) == DigitsValue(w) * WEI_PER_UNIT;
    ParseUnitsUnsigned(w);
  }

  /** The rendering of a whole number of currency units parses to that many
      units times 10^18. */
  lemma ParseUnitsWhole(n: nat)
    ensures ParseUnits(DecimalText(n)) == Some(n * WEI_PER_UNIT)
  {
    ParseUnitsDigits(DecimalText(n));
    DecimalTextValue(n);
  }

  /** A minus sign in front negates the amount. */
  lemma ParseUnitsNegative(n: nat)
    ensures ParseUnits("-" + DecimalText(n)) == Some(-(n * WEI_PER_UNIT))
  {
    var t := DecimalText(n);
    assert ("-" + t)[1..] == t;
    ParseUnitsWhole(n);
  }

  lemma {:induction false} NoDotInDigits(t: string)
    requires AllDigits(t)
    ensures DotIndex(t) == |t|
  {
    if t != [] {
      NoDotInDigits(t[1..]);
    }
  }

  /** The first point of a text that starts with digits lies after them. */
  lemma {:induction false} DotIndexAfterDigits(w: string, s: string)
    requires AllDigits(w)
    ensures DotIndex(w + s) == |w| + DotIndex(s)
  {
    if w != [] {
      var ws := w + s;
      assert ws[0] == w[0] && IsDigit(w[0]);
      assert ws[1..] == w[1..] + s;
      DotIndexAfterDigits(w[1..], s);
      assert DotIndex(ws) == 1 + DotIndex(ws[1..]);
    } else {
      assert w + s == s;
    }
  }

  lemma {:induction false} Pow10Add(a: nat, b: nat)
    ensures Pow10(a) * Pow10(b) == Pow10(a + b)
  {
    if a > 0 {
      Pow10Add(a - 1, b);
      assert Pow10(a) * Pow10(b) == 10 * (Pow10(a - 1) * Pow10(b));
    }
  }

  /** How `ParseUnsigned` splits a text of digits, a point and digits. */
  lemma FractionTextParts(w: string, f: string)
    requires AllDigits(w) && AllDigits(f)
    ensures var t := w + "." + f;
      && |t| > 0 && t[0] != '-' && AmountChars(t)
      && (t == "." <==> w == [] && f == [])
      && DotIndex(t) == |w| && t[..|w|] == w && t[|w| + 1..] == f && DotIndex(f) == |f|
  {
    var t := w + "." + f;
    assert w == [] ==> t[0] == '.';
    assert w != [] ==> t[0] == w[0];
    assert AmountChars(t) by {
      forall i | 0 <= i < |t| ensures IsDigit(t[i]) || t[i] == '.' {
        if i < |w| { assert t[i] == w[i]; }
        else if i > |w| { assert t[i] == f[i - |w| - 1]; }
      }
    }
    assert t == w + ("." + f);
    DotIndexAfterDigits(w, "." + f);
    NoDotInDigits(f);
  }

  /** A whole part and a fraction of at most 18 digits scaled to 18
      decimals are the digits with the point removed, shifted by the
      missing places. */
  lemma FixedPointValue(w: string, g: string)
    requires AllDigits(w) && AllDigits(g) && |g| <= DECIMALS
    ensures AllDigits(w + g)
    ensures Scaled(w, g) == DigitsValue(w + g) * Pow10(DECIMALS - |g|)
  {
    DigitsConcat(w, g);
    Pow10Add(|g|, DECIMALS - |g|);
    Pow10Decimals();
    ScaleSum(DigitsValue(w), DigitsValue(g), DigitsValue(w + g), Pow10(|g|), Pow10(DECIMALS - |g|), WEI_PER_UNIT);
  }

  lemma ScaleSum(x: int, y: int, v: int, p: int, q: int, m: int)
    requires v == x * p + y && p * q == m
    ensures x * m + y * q == v * q
  {
    calc {
      v * q;
      (x * p + y) * q;
      x * (p * q) + y * q;
    }
  }

  /** `ParseUnsigned` on a text already split at its only point. */
  lemma ParseUnsignedSplit(t: string, w: string, f: string)
    requires AllDigits(w) && AllDigits(f)
    requires |t| > 0 && AmountChars(t) && t != "."
    requires DotIndex(t) == |w| < |t| && t[..|w|] == w && t[|w| + 1..] == f && DotIndex(f) == |f|
    ensures var g := TrimTrailingZeros(f);
      ParseUnsigned(t) == if |g| > DECIMALS then None else Some(Scaled(w, g))
  {
  }

  /** Without a leading minus `ParseUnits` is `ParseUnsigned`. */
  lemma ParseUnitsUnsigned(t: string)
    requires t == [] || t[0] != '-'
    ensures ParseUnits(t) == if ParseUnsigned(t).Some? then Some(ParseUnsigned(t).value as int) else None
  {
  }

  lemma FractionRefused(w: string, f: string)
    requires AllDigits(w) && AllDigits(f)
    requires (w == [] && f == []) || |TrimTrailingZeros(f)| > DECIMALS
    ensures ParseUnits(w + "." + f).None?
  {
    var t := w + "." + f;
    FractionTextParts(w, f);
    ParseUnitsUnsigned(t);
    if !(w == [] && f == []) {
      ParseUnsignedSplit(t, w, f);
    }
  }

  lemma FractionValue(w: string, f: string)
    requires AllDigits(w) && AllDigits(f) && !(w == [] && f == [])
    requires |TrimTrailingZeros(f)| <= DECIMALS
    ensures AllDigits(w + TrimTrailingZeros(f))
    ensures ParseUnits(w + "." + f)
         == Some(DigitsValue(w + TrimTrailingZeros(f)) * Pow10(DECIMALS - |TrimTrailingZeros(f)|))
  {
    var t := w + "." + f;
    var g := TrimTrailingZeros(f);
    FractionTextParts(w, f);
    ParseUnitsUnsigned(t);
    ParseUnsignedSplit(t, w, f);
    assert ParseUnits(t) == Some(Scaled(w, g) as int);
    FixedPointValue(w, g);
  }

  /** A text of digits, a point and digits. It is refused when it is the
      point alone or when more than 18 fraction digits remain once trailing
      zeros are dropped. Otherwise it denotes its digits with the point
      removed, shifted to 18 decimals. */
  lemma ParseUnitsFraction(w: string, f: string)
    requires AllDigits(w) && AllDigits(f)
    ensures var g := TrimTrailingZeros(f);
      && ((w == [] && f == []) || |g| > DECIMALS ==> ParseUnits(w + "." + f).None?)
      && (!(w == [] && f == []) && |g| <= DECIMALS ==>
            AllDigits(w + g) && ParseUnits(w + "." + f) == Some(DigitsValue(w + g) * Pow10(DECIMALS - |g|)))
  {
    if (w == [] && f == []) || |TrimTrailingZeros(f)| > DECIMALS {
      FractionRefused(w, f);
    } else {
      FractionValue(w, f);
    }
  }

  /** A second point anywhere after the first refuses the text. */
  lemma ParseUnitsSecondPoint(w: string, f: string, h: string)
    requires AllDigits(w) && AllDigits(f)
    ensures ParseUnits(w + "." + f + "." + h).None?
  {
    var t := w + "." + f + "." + h;
    assert w == [] ==> t[0] == '.';
    assert w != [] ==> t[0] == w[0];
    if |t| > 0 && AmountChars(t) && t != "." {
      DotIndexAfterDigits(w, "." + f + "." + h);
      assert t == w + ("." + f + "." + h);
      assert t[|w| + 1..] == f + ("." + h);
      DotIndexAfterDigits(f, "." + h);
    }
  }

  /** Trailing zeros after the point change nothing. */
  lemma ParseUnitsTrailingZero(w: string, f: string)
    requires AllDigits(w) && AllDigits(f)
    ensures w != [] || f != [] ==> ParseUnits(w + "." + f + "0") == ParseUnits(w + "." + f)
  {
    var f0 := f + "0";
    assert AllDigits(f0);
    assert f0[..|f0| - 1] == f;
    assert w + "." + f + "0" == w + "." + f0;
    ParseUnitsFraction(w, f);
    ParseUnitsFraction(w, f0);
  }

  /** With a leading minus `ParseUnits` negates `ParseUnsigned` of the
      rest. */
  lemma ParseUnitsMinus(t: string)
    requires |t| > 0 && t[0] == '-'
    ensures ParseUnits(t) == if ParseUnsigned(t[1..]).Some? then Some(-(ParseUnsigned(t[1..]).value as int)) else None
  {
  }

  /** One leading minus negates whatever the rest reads as; a second minus
      is refused. */
  lemma ParseUnitsSign(t: string)
    ensures |t| > 0 && t[0] == '-' ==> ParseUnits("-" + t).None?
    ensures (t == [] || t[0] != '-') ==>
      ParseUnits("-" + t) == if ParseUnits(t).Some? then Some(-ParseUnits(t).value) else None
  {
    var mt := "-" + t;
    assert mt[0] == '-' && mt[1..] == t;
    ParseUnitsMinus(mt);
    if |t| > 0 && t[0] == '-' {
      assert !(IsDigit(t[0]) || t[0] == '.');
      assert ParseUnsigned(t).None?;
    } else {
      ParseUnitsUnsigned(t);
    }
  }
}

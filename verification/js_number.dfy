/** Integer parsing and rendering as the front end performs them: the global
    `parseInt` without a radix (section 19.2.5 of ECMA-262) and the
    conversion of an integral Number to a decimal or hexadecimal string
    (`String(n)`, `n.toString(16)`). Numbers are unbounded integers here. */
module JsNumber {
  import opened Wrappers
  import Js

  /** The value of `c` as a digit in any radix up to 36 (letters in either
      case), or 36 when `c` is not a digit at all. */
  function DigitValue(c: char): (d: nat)
    ensures d <= 36
  {
    if '0' <= c <= '9' then c as int - '0' as int
    else if 'a' <= c <= 'z' then c as int - 'a' as int + 10
    else if 'A' <= c <= 'Z' then c as int - 'A' as int + 10
    else 36
  }

  /** The two radixes the front end reads and writes. */
  predicate IsRadix(radix: nat)
  {
    radix == 10 || radix == 16
  }

  /** `x * radix`, written per radix so that it stays linear. */
  function Scale(x: nat, radix: nat): (r: nat)
    requires IsRadix(radix)
  {
    if radix == 10 then x * 10 else x * 16
  }

  /** `floor(n / radix)` and `n % radix`, written per radix. */
  function Quot(n: nat, radix: nat): nat
    requires IsRadix(radix)
  {
    if radix == 10 then n / 10 else n / 16
  }

  function Rem(n: nat, radix: nat): nat
    requires IsRadix(radix)
  {
    if radix == 10 then n % 10 else n % 16
  }

  /** `c` is a digit of the given radix. */
  predicate IsDigit(c: char, radix: nat)
  {
    DigitValue(c) < radix
  }

  /** The length of the longest prefix of `s` made of radix digits. */
  function DigitRun(s: string, radix: nat): (n: nat)
    ensures n <= |s|
    ensures forall i :: 0 <= i < n ==> IsDigit(s[i], radix)
    ensures n < |s| ==> !IsDigit(s[n], radix)
  {
    if |s| > 0 && IsDigit(s[0], radix) then 1 + DigitRun(s[1..], radix) else 0
  }

  /** The mathematical value of a digit string, most significant digit first. */
  function DigitsValue(ds: string, radix: nat): nat
    requires IsRadix(radix)
    requires forall i :: 0 <= i < |ds| ==> IsDigit(ds[i], radix)
  {
    if ds == [] then 0
    else Scale(DigitsValue(ds[..|ds| - 1], radix), radix) + DigitValue(ds[|ds| - 1])
  }

  /** `parseInt(s)` with the radix left undefined: leading white space is
      skipped and one sign is taken, then the rest is read by
      `ParseUnsigned`; with no digit at all the result is NaN, written
      `None`. */
  function ParseInt(s: string): (r: Option<int>)
    ensures Js.TrimStart(s) == [] ==> r.None?
    ensures r.Some? ==> var t := Js.TrimStart(s);
      IsDigit(t[0], 10) || (|t| >= 2 && (t[0] == '-' || t[0] == '+') && IsDigit(t[1], 10))
    ensures r.Some? && r.value < 0 ==> Js.TrimStart(s)[0] == '-'
  {
    var t := Js.TrimStart(s);
    var sign := if |t| > 0 && t[0] == '-' then -1 else 1;
    var u := if |t| > 0 && (t[0] == '-' || t[0] == '+') then t[1..] else t;
    match ParseUnsigned(u)
    case None => None
    case Some(v) => Some(sign * v)
  }

  /** The unsigned part of `parseInt`: a `0x`/`0X` prefix selects radix 16
      (radix 10 otherwise) and the longest run of digits is read. */
  function ParseUnsigned(u: string): (r: Option<nat>)
    ensures r.Some? ==> u != [] && IsDigit(u[0], 10)
  {
    var hex := |u| >= 2 && u[0] == '0' && (u[1] == 'x' || u[1] == 'X');
    var radix := if hex then 16 else 10;
    var body := if hex then u[2..] else u;
    var n := DigitRun(body, radix);
    if n == 0 then None else Some(DigitsValue(body[..n], radix))
  }

  /** The lower-case digit character of value `d`. */
  function DigitChar(d: nat): (c: char)
    requires d < 16
    ensures DigitValue(c) == d
    ensures '0' <= c <= '9' || 'a' <= c <= 'f'
  {
    if d < 10 then ('0' as int + d) as char else ('a' as int + d - 10) as char
  }

  /** The digits of `n` in the given radix, without leading zeros, in
      lower case (`n.toString(radix)` for an integral Number). */
  function NatDigits(n: nat, radix: nat): (r: string)
    requires IsRadix(radix)
    ensures |r| >= 1
    ensures forall i :: 0 <= i < |r| ==> IsDigit(r[i], radix)
    decreases n
  {
    if n < radix then [DigitChar(n)]
    else NatDigits(Quot(n, radix), radix) + [DigitChar(Rem(n, radix))]
  }

  /** `String(n)` for an integral Number: decimal, with a minus sign when
      negative. */
  function ShowInt(n: int): (r: string)
    ensures |r| >= 1 && (r[0] == '-' <==> n < 0)
    ensures n < 0 ==> |r| >= 2
    ensures forall i :: (if n < 0 then 1 else 0) <= i < |r| ==> IsDigit(r[i], 10)
  {
    if n < 0 then "-" + NatDigits(-n, 10) else NatDigits(n, 10)
  }

  /** `n.toString(16)`: lower-case hexadecimal without leading zeros. */
  function ToHex(n: nat): string
  {
    NatDigits(n, 16)
  }

  /** Euclidean division by a radix: `n` is quotient times radix plus
      a remainder below the radix. */
  lemma DivMod(n: nat, radix: nat)
    requires IsRadix(radix)
    ensures Scale(Quot(n, radix), radix) + Rem(n, radix) == n && Rem(n, radix) < radix
    ensures n >= radix ==> 1 <= Quot(n, radix) < n
  {
  }

  /** Appending one digit scales the value by the radix and adds the
      digit. */
  lemma DigitsValueSnoc(hi: string, c: char, radix: nat)
    requires IsRadix(radix)
    requires forall i :: 0 <= i < |hi| ==> IsDigit(hi[i], radix)
    requires IsDigit(c, radix)
    ensures DigitsValue(hi + [c], radix) == Scale(DigitsValue(hi, radix), radix) + DigitValue(c)
  {
    assert (hi + [c])[..|hi|] == hi;
  }

  /** Reading back the digits of `n` yields `n`. */
  lemma {:induction false} NatDigitsValue(n: nat, radix: nat)
    requires IsRadix(radix)
    ensures DigitsValue(NatDigits(n, radix), radix) == n
    decreases n
  {
    if n >= radix {
      var q := Quot(n, radix);
      var d := Rem(n, radix);
      DivMod(n, radix);
      var hi := NatDigits(q, radix);
      NatDigitsValue(q, radix);
      DigitsValueSnoc(hi, DigitChar(d), radix);
    }
  }

  /** Only zero is rendered with a leading `0`. */
  lemma {:induction false} NatDigitsLeadingZero(n: nat, radix: nat)
    requires IsRadix(radix)
    ensures NatDigits(n, radix)[0] == '0' <==> n == 0
    decreases n
  {
    if n >= radix {
      DivMod(n, radix);
      NatDigitsLeadingZero(Quot(n, radix), radix);
    }
  }

  /** A number below `radix^k` has at most `k` digits. */
  lemma {:induction false} NatDigitsLength(n: nat, radix: nat, k: nat)
    requires IsRadix(radix)
    requires k >= 1 && n < Power(radix, k)
    ensures |NatDigits(n, radix)| <= k
    decreases k
  {
    if n >= radix {
      DivMod(n, radix);
      assert Quot(n, radix) < Power(radix, k - 1);
      NatDigitsLength(Quot(n, radix), radix, k - 1);
    }
  }

  /** `radix` raised to the `k`-th power. */
  function Power(radix: nat, k: nat): nat
    requires IsRadix(radix)
  {
    if k == 0 then 1 else Scale(Power(radix, k - 1), radix)
  }

  /** A run of digits followed by a non-digit is read to its end. */
  lemma {:induction false} DigitRunStopsAfter(ds: string, tail: string, radix: nat)
    requires forall i :: 0 <= i < |ds| ==> IsDigit(ds[i], radix)
    requires tail == [] || !IsDigit(tail[0], radix)
    ensures DigitRun(ds + tail, radix) == |ds|
  {
    if ds != [] {
      assert (ds + tail)[1..] == ds[1..] + tail;
      DigitRunStopsAfter(ds[1..], tail, radix);
    } else {
      assert ds + tail == tail;
    }
  }

  /** A string starting with something other than white space is left
      alone by `TrimStart`. */
  lemma NoLeadingSpace(s: string)
    requires s != [] && !Js.IsWhiteSpace(s[0])
    ensures Js.TrimStart(s) == s
  {
  }

  /** Decimal digits not starting with `0` (or a lone `0` not followed by
      `x`/`X`), then a non-digit, are read as a decimal number. */
  lemma ParseUnsignedDecimal(ds: string, tail: string)
    requires |ds| >= 1 && forall i :: 0 <= i < |ds| ==> IsDigit(ds[i], 10)
    requires tail == [] || !IsDigit(tail[0], 10)
    requires ds[0] == '0' ==> |ds| == 1 && (tail == [] || (tail[0] != 'x' && tail[0] != 'X'))
    ensures ParseUnsigned(ds + tail) == Some(DigitsValue(ds, 10))
  {
    var u := ds + tail;
    assert u[0] == ds[0];
    assert |u| >= 2 && u[0] == '0' ==> u[1] == tail[0];
    DigitRunStopsAfter(ds, tail, 10);
    assert u[..|ds|] == ds;
  }

  /** Text starting with a decimal digit is read without a sign. */
  lemma ParseIntFromDigit(s: string, v: nat)
    requires s != [] && '0' <= s[0] <= '9'
    requires ParseUnsigned(s) == Some(v)
    ensures ParseInt(s) == Some(v)
  {
    NoLeadingSpace(s);
  }

  /** Text of a minus sign then a decimal digit is read as a negative number. */
  lemma ParseIntFromMinus(s: string, v: nat)
    requires |s| >= 2 && s[0] == '-' && '0' <= s[1] <= '9'
    requires ParseUnsigned(s[1..]) == Some(v)
    ensures ParseInt(s) == Some(0 - v as int)
  {
    NoLeadingSpace(s);
  }

  /** The decimal digits of `m`, then a tail that cannot continue them,
      are read back as `m` by the unsigned reader. */
  lemma ParseUnsignedNatDigits(m: nat, tail: string)
    requires tail == [] || !IsDigit(tail[0], 10)
    requires m == 0 && tail != [] ==> tail[0] != 'x' && tail[0] != 'X'
    ensures ParseUnsigned(NatDigits(m, 10) + tail) == Some(m)
    ensures '0' <= NatDigits(m, 10)[0] <= '9'
  {
    var ds := NatDigits(m, 10);
    NatDigitsValue(m, 10);
    NatDigitsLeadingZero(m, 10);
    if ds[0] == '0' {
      assert m == 0;
      assert ds == [DigitChar(0)];
    }
    ParseUnsignedDecimal(ds, tail);
    assert IsDigit(ds[0], 10);
  }

  /** `parseInt` reads back the decimal digits of a natural number. */
  lemma ParseIntNatDigits(m: nat, tail: string)
    requires tail == [] || !IsDigit(tail[0], 10)
    requires m == 0 && tail != [] ==> tail[0] != 'x' && tail[0] != 'X'
    ensures ParseInt(NatDigits(m, 10) + tail) == Some(m)
  {
    var u := NatDigits(m, 10) + tail;
    ParseUnsignedNatDigits(m, tail);
    assert u[0] == NatDigits(m, 10)[0];
    ParseIntFromDigit(u, m);
  }

  /** `parseInt` reads back a minus sign and the decimal digits of a
      natural number as its negation. */
  lemma ParseIntMinusNatDigits(m: nat, tail: string)
    requires tail == [] || !IsDigit(tail[0], 10)
    requires m == 0 && tail != [] ==> tail[0] != 'x' && tail[0] != 'X'
    ensures ParseInt("-" + NatDigits(m, 10) + tail) == Some(0 - m)
  {
    var u := NatDigits(m, 10) + tail;
    var s := "-" + NatDigits(m, 10) + tail;
    ParseUnsignedNatDigits(m, tail);
    assert s == "-" + u && s[1..] == u && s[1] == u[0];
    ParseIntFromMinus(s, m);
  }

  /** `parseInt` reads back `String(n)`, and stops at the first character
      that is not a digit: `parseInt("12abc") == 12`. Only after a lone
      `0` does a following `x` or `X` change the reading, into hexadecimal. */
  lemma ParseIntShowInt(n: int, tail: string)
    requires tail == [] || !IsDigit(tail[0], 10)
    requires n == 0 && tail != [] ==> tail[0] != 'x' && tail[0] != 'X'
    ensures ParseInt(ShowInt(n) + tail) == Some(n)
  {
    var s := ShowInt(n) + tail;
    if n < 0 {
      var m: nat := -n;
      assert s == "-" + NatDigits(m, 10) + tail;
      ParseIntMinusNatDigits(m, tail);
    } else {
      var m: nat := n;
      assert s == NatDigits(m, 10) + tail;
      ParseIntNatDigits(m, tail);
    }
  }

  /** The unsigned reader takes `"0x" + n.toString(16)` back to `n`. */
  lemma ParseUnsignedHex(n: nat, tail: string)
    requires tail == [] || !IsDigit(tail[0], 16)
    ensures ParseUnsigned("0x" + ToHex(n) + tail) == Some(n)
  {
    var ds := ToHex(n);
    var body := ds + tail;
    NatDigitsValue(n, 16);
    DigitRunStopsAfter(ds, tail, 16);
    assert body[..|ds|] == ds;
    var s := "0x" + ds + tail;
    assert s[0] == '0' && s[1] == 'x' && s[2..] == body;
  }

  /** `parseInt` reads back `"0x" + n.toString(16)`. */
  lemma ParseIntHex(n: nat, tail: string)
    requires tail == [] || !IsDigit(tail[0], 16)
    ensures ParseInt("0x" + ToHex(n) + tail) == Some(n)
  {
    var s := "0x" + ToHex(n) + tail;
    ParseUnsignedHex(n, tail);
    assert s[0] == '0';
    ParseIntFromDigit(s, n);
  }

  /** A trailing suffix is ignored: `parseInt("12abc") == 12`. */
  lemma ParseIntIgnoresSuffix()
    ensures ParseInt("12abc") == Some(12)
  {
    assert DigitChar(1) == '1' && DigitChar(2) == '2';
    assert NatDigits(12, 10) == "12";
    assert "12abc" == ShowInt(12) + "abc";
    ParseIntShowInt(12, "abc");
  }

  /** A sign is honoured: `parseInt("-5") == -5`. */
  lemma ParseIntNegative()
    ensures ParseInt("-5") == Some(-5)
  {
    assert DigitChar(5) == '5';
    assert "-5" == ShowInt(-5) + "";
    ParseIntShowInt(-5, "");
  }

  /** A `0x` prefix switches to hexadecimal: `parseInt("0x1f") == 31`. */
  lemma ParseIntHexPrefix()
    ensures ParseInt("0x1f") == Some(31)
  {
    assert DigitChar(1) == '1' && DigitChar(15) == 'f';
    assert NatDigits(31, 16) == "1f";
    assert "0x1f" == "0x" + ToHex(31) + "";
    ParseIntHex(31, "");
  }

  /** Text with no digit where one is needed is NaN. */
  lemma ParseIntNaN(s: string)
    requires forall i :: 0 <= i < |s| ==> !IsDigit(s[i], 16)
    ensures ParseInt(s) == None
  {
    var t := Js.TrimStart(s);
    assert forall i :: 0 <= i < |t| ==> t[i] == s[|s| - |t| + i];
    var u := if |t| > 0 && (t[0] == '-' || t[0] == '+') then t[1..] else t;
    assert forall i :: 0 <= i < |u| ==> !IsDigit(u[i], 16);
    assert u == [] || DigitValue(u[0]) >= 16;
    assert ParseUnsigned(u) == None;
  }
}

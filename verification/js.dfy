/** The JavaScript values, truthiness rules and `String.prototype` built-ins
    that the front-end components depend on, as ECMA-262 defines them. */
module Js {
  import opened Wrappers

  /** A JavaScript value as the components inspect it. Numbers are modelled
      as integers, with NaN kept apart; every object or array is `Obj`. */
  datatype Value = Undefined | Null | Bool(b: bool) | Num(n: int) | NaN | Str(s: string) | Obj

  /** ToBoolean (section 7.1.2 of ECMA-262): what `if (v)`, `!v`, `a || b`
      and `a && b` test. */
  predicate Truthy(v: Value)
  {
    match v
    case Undefined => false
    case Null => false
    case NaN => false
    case Bool(b) => b
    case Num(n) => n != 0
    case Str(s) => s != ""
    case Obj => true
  }

  /** The WhiteSpace and LineTerminator code points of sections 12.2 and
      12.3 of ECMA-262: the characters `trim` removes. */
  predicate IsWhiteSpace(c: char)
  {
    || ('\t' <= c <= '\r')
    || c == ' ' || c == '\U{A0}' || c == '\U{1680}'
    || ('\U{2000}' <= c <= '\U{200A}')
    || c == '\U{2028}' || c == '\U{2029}' || c == '\U{202F}' || c == '\U{205F}'
    || c == '\U{3000}' || c == '\U{FEFF}'
  }

  /** How many white-space characters `s` starts with. */
  function LeadingBlanks(s: string): (n: nat)
    ensures n <= |s|
    ensures forall i :: 0 <= i < n ==> IsWhiteSpace(s[i])
    ensures n == |s| || !IsWhiteSpace(s[n])
  {
    if |s| > 0 && IsWhiteSpace(s[0]) then 1 + LeadingBlanks(s[1..]) else 0
  }

  /** How many characters are left of `s` once its trailing white space
      is cut off. */
  function KeptLength(s: string): (n: nat)
    ensures n <= |s|
    ensures forall i :: n <= i < |s| ==> IsWhiteSpace(s[i])
    ensures n == 0 || !IsWhiteSpace(s[n - 1])
  {
    if |s| > 0 && IsWhiteSpace(s[|s| - 1]) then KeptLength(s[..|s| - 1]) else |s|
  }

  /** `s` without its leading white space (TrimString with `start`). */
  function TrimStart(s: string): (r: string)
    ensures |r| <= |s| && r == s[|s| - |r|..]
    ensures r == [] || !IsWhiteSpace(r[0])
    ensures forall i :: 0 <= i < |s| - |r| ==> IsWhiteSpace(s[i])
  {
    s[LeadingBlanks(s)..]
  }

  /** `s` without its trailing white space (TrimString with `end`). */
  function TrimEnd(s: string): (r: string)
    ensures |r| <= |s| && r == s[..|r|]
    ensures r == [] || !IsWhiteSpace(r[|r| - 1])
    ensures forall i :: |r| <= i < |s| ==> IsWhiteSpace(s[i])
  {
    s[..KeptLength(s)]
  }

  /** `s.trim()`: the longest infix of `s` that neither starts nor ends
      with white space (`TrimIsInfix` pins it to that infix). */
  function Trim(s: string): (r: string)
    ensures r == [] || (!IsWhiteSpace(r[0]) && !IsWhiteSpace(r[|r| - 1]))
    ensures r == [] <==> forall i :: 0 <= i < |s| ==> IsWhiteSpace(s[i])
  {
    TrimIsBlankIff(s);
    TrimEnd(TrimStart(s))
  }

  /** Both trims leave nothing exactly when every character is white space. */
  lemma {:induction false} TrimIsBlankIff(s: string)
    ensures TrimEnd(TrimStart(s)) == [] <==> forall i :: 0 <= i < |s| ==> IsWhiteSpace(s[i])
  {
    var t := TrimStart(s);
    var k := |s| - |t|;
    if TrimEnd(t) == [] {
      if t != [] {
        assert false;
      }
    } else {
      assert t != [] && !IsWhiteSpace(t[0]) && t[0] == s[k];
    }
  }

  /** `r` is the infix of `s` at `k`, with only white space before and
      after it. */
  predicate InfixBetweenBlanks(s: string, k: nat, r: string)
  {
    && k + |r| <= |s| && (forall j :: 0 <= j < |r| ==> r[j] == s[k + j])
    && (forall i :: 0 <= i < k ==> IsWhiteSpace(s[i]))
    && (forall i :: k + |r| <= i < |s| ==> IsWhiteSpace(s[i]))
  }

  /** The trim of `s` is the infix left once its leading white space
      (`LeadingBlanks(s)` characters) and its trailing white space are cut
      off. */
  lemma TrimIsInfix(s: string)
    ensures InfixBetweenBlanks(s, LeadingBlanks(s), Trim(s))
  {
    var t := TrimStart(s);
    var r := TrimEnd(t);
    assert InfixBetweenBlanks(s, |s| - |t|, t) by {
      assert forall j :: 0 <= j < |t| ==> t[j] == s[|s| - |t| + j];
    }
    assert InfixBetweenBlanks(t, 0, r) by {
      assert forall j :: 0 <= j < |r| ==> r[j] == t[j];
    }
    InfixOfTrims(s, t, r);
  }

  /** A prefix `r` of a suffix `t` of `s` sits in `s` where `t` starts;
      white space before `t` and after `r` in `t` surrounds it in `s`. */
  lemma InfixOfTrims(s: string, t: string, r: string)
    requires |t| <= |s| && InfixBetweenBlanks(s, |s| - |t|, t)
    requires InfixBetweenBlanks(t, 0, r)
    ensures InfixBetweenBlanks(s, |s| - |t|, r)
  {
    var k := |s| - |t|;
    forall j | 0 <= j < |r|
      ensures r[j] == s[k + j]
    {
      assert r[j] == t[j];
    }
    forall i | k + |r| <= i < |s|
      ensures IsWhiteSpace(s[i])
    {
      assert s[i] == t[i - k];
    }
  }

  /** `!s.trim()`: the string is empty once trimmed. */
  predicate IsBlank(s: string)
  {
    Trim(s) == []
  }

  /** A string that does not start or end with white space is its own trim. */
  lemma TrimUnchanged(s: string)
    requires s == [] || (!IsWhiteSpace(s[0]) && !IsWhiteSpace(s[|s| - 1]))
    ensures Trim(s) == s
  {
  }

  /** Trimming twice is trimming once. */
  lemma TrimIdempotent(s: string)
    ensures Trim(Trim(s)) == Trim(s)
  {
    TrimUnchanged(Trim(s));
  }

  /** Leading white space makes no difference to `TrimStart`. */
  lemma {:induction false} TrimStartSkipsBlank(lead: string, x: string)
    requires forall i :: 0 <= i < |lead| ==> IsWhiteSpace(lead[i])
    ensures TrimStart(lead + x) == TrimStart(x)
    decreases |lead|
  {
    if lead != [] {
      var s := lead + x;
      assert s[0] == lead[0] && s[1..] == lead[1..] + x;
      assert TrimStart(s) == TrimStart(s[1..]);
      TrimStartSkipsBlank(lead[1..], x);
    } else {
      assert lead + x == x;
    }
  }

  /** Behind a word that does not end in white space, `TrimEnd` only
      trims the tail. */
  lemma {:induction false} TrimEndAfterWord(word: string, tail: string)
    requires word != [] && !IsWhiteSpace(word[|word| - 1])
    ensures TrimEnd(word + tail) == word + TrimEnd(tail)
    decreases |tail|
  {
    var s := word + tail;
    if tail == [] {
      assert s == word;
    } else if IsWhiteSpace(tail[|tail| - 1]) {
      var shorter := tail[..|tail| - 1];
      assert s[|s| - 1] == tail[|tail| - 1] && s[..|s| - 1] == word + shorter;
      assert TrimEnd(s) == TrimEnd(word + shorter);
      assert TrimEnd(tail) == TrimEnd(shorter);
      TrimEndAfterWord(word, shorter);
    } else {
      assert s[|s| - 1] == tail[|tail| - 1];
    }
  }

  /** Trimming a word preceded by white space and followed by any tail
      removes the leading white space and the tail's trailing white space. */
  lemma TrimKeepsTail(lead: string, word: string, tail: string)
    requires forall i :: 0 <= i < |lead| ==> IsWhiteSpace(lead[i])
    requires word != [] && !IsWhiteSpace(word[0]) && !IsWhiteSpace(word[|word| - 1])
    ensures Trim(lead + word + tail) == word + TrimEnd(tail)
  {
    var rest := word + tail;
    assert lead + word + tail == lead + rest;
    TrimStartSkipsBlank(lead, rest);
    assert TrimStart(rest) == rest by {
      assert rest[0] == word[0];
    }
    TrimEndAfterWord(word, tail);
  }

  /** `x` clamped into `[0, len]`, as `substring` treats its arguments. */
  function Clamp(x: int, len: nat): (r: nat)
    ensures r <= len
    ensures 0 <= x <= len ==> r == x
  {
    if x < 0 then 0 else if x > len then len else x
  }

  /** `s.substring(start, end)`: both bounds clamped into the string and
      swapped when the start lies after the end. */
  function Substring(s: string, start: int, end: int): (r: string)
    ensures exists a :: OccursAt(s, r, a)
    ensures 0 <= start <= end <= |s| ==> r == s[start..end]
    ensures 0 <= end <= start <= |s| ==> r == s[end..start]
    ensures start <= 0 && end <= 0 ==> r == []
    ensures start >= |s| && end >= |s| ==> r == []
  {
    var a := Clamp(start, |s|);
    var b := Clamp(end, |s|);
    if a <= b then
      assert OccursAt(s, s[a..b], a);
      s[a..b]
    else
      assert OccursAt(s, s[b..a], b);
      s[b..a]
  }

  /** `pat` occurs in `s` starting at index `i`. */
  predicate OccursAt(s: string, pat: string, i: int)
  {
    0 <= i && i + |pat| <= |s| && s[i..i + |pat|] == pat
  }

  /** `s.indexOf(pat, from)`: the first index at or after `from` where
      `pat` occurs, `None` for -1. */
  function IndexOf(s: string, pat: string, from: nat): (r: Option<nat>)
    ensures r.Some? ==> from <= r.value && OccursAt(s, pat, r.value)
    ensures r.Some? ==> forall j :: from <= j < r.value ==> !OccursAt(s, pat, j)
    ensures r.None? ==> forall j :: from <= j ==> !OccursAt(s, pat, j)
    decreases |s| - from
  {
    if from + |pat| > |s| then None
    else if s[from..from + |pat|] == pat then Some(from)
    else IndexOf(s, pat, from + 1)
  }

  /** `s.replace(pat, rep)` with a string pattern: only the first
      occurrence is replaced (`rep` holds no `$` substitution patterns). */
  function ReplaceFirst(s: string, pat: string, rep: string): (r: string)
    ensures (forall j :: !OccursAt(s, pat, j)) ==> r == s
    ensures forall i :: OccursAt(s, pat, i) && (forall j :: 0 <= j < i ==> !OccursAt(s, pat, j)) ==>
      r == s[..i] + rep + s[i + |pat|..]
  {
    match IndexOf(s, pat, 0)
    case None => s
    case Some(i) => s[..i] + rep + s[i + |pat|..]
  }

  /** The character class `[A-Fa-f0-9]`. */
  predicate IsHexDigit(c: char)
  {
    ('0' <= c <= '9') || ('a' <= c <= 'f') || ('A' <= c <= 'F')
  }

  /** `s` matches the regular expression `^0x[A-Fa-f0-9]{n}$` (no flags:
      the prefix is a lower-case `x` and `$` anchors at the very end). */
  predicate IsPrefixedHex(s: string, n: nat)
  {
    |s| == n + 2 && s[0] == '0' && s[1] == 'x'
    && forall i :: 2 <= i < |s| ==> IsHexDigit(s[i])
  }

  /** A string that passes the hex pattern has nothing for `trim` to remove. */
  lemma PrefixedHexIsTrimmed(s: string, n: nat)
    requires IsPrefixedHex(s, n)
    ensures Trim(s) == s
  {
    assert IsHexDigit(s[|s| - 1]) || |s| - 1 == 1;
    TrimUnchanged(s);
  }
}

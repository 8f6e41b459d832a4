/** The JavaScript string operations the pages rely on, on `seq<char>`:
    `includes`, `trim`, `Array.prototype.join`, `split` with a one-character
    separator, and `Number.prototype.toString` for integers. Each comes with
    an independent characterisation or an inverse. */
module Text {

  /* ---------------------------------------------------------------- includes */

  /** `hay.includes(needle)`: `needle` occurs as a contiguous block of `hay`. */
  predicate Includes(hay: string, needle: string)
    decreases |hay|
  {
    needle <= hay || (|hay| > 0 && Includes(hay[1..], needle))
  }

  /** `needle` occurs in `hay` starting at index `k`. */
  ghost predicate OccursAt(hay: string, needle: string, k: int)
  {
    0 <= k && k + |needle| <= |hay| && hay[k..k + |needle|] == needle
  }

  /** `Includes` agrees with the positional definition of a substring. */
  lemma {:induction false} IncludesIffOccurs(hay: string, needle: string)
    ensures Includes(hay, needle) <==> exists k :: OccursAt(hay, needle, k)
    decreases |hay|
  {
    if |hay| > 0 {
      IncludesIffOccurs(hay[1..], needle);
      forall k | OccursAt(hay[1..], needle, k)
        ensures OccursAt(hay, needle, k + 1)
      {
        assert hay[1..][k..k + |needle|] == hay[k + 1..k + 1 + |needle|];
      }
      forall k | OccursAt(hay, needle, k) && k > 0
        ensures OccursAt(hay[1..], needle, k - 1)
      {
        assert hay[1..][k - 1..k - 1 + |needle|] == hay[k..k + |needle|];
      }
    }
    assert OccursAt(hay, needle, 0) <==> needle <= hay;
  }

  /* -------------------------------------------------------------------- trim */

  /** The code points `String.prototype.trim` strips: ECMAScript WhiteSpace
      (TAB, VT, FF, SP, NBSP, ZWNBSP and the Unicode Space_Separator class)
      and LineTerminator (LF, CR, LS, PS). */
  predicate IsJsWhitespace(c: char)
  {
    || c == '\t' || c == '\U{000B}' || c == '\U{000C}' || c == ' '
    || c == '\U{00A0}' || c == '\U{FEFF}' || c == '\U{1680}'
    || ('\U{2000}' <= c <= '\U{200A}')
    || c == '\U{202F}' || c == '\U{205F}' || c == '\U{3000}'
    || c == '\n' || c == '\r' || c == '\U{2028}' || c == '\U{2029}'
  }

  ghost predicate AllWhitespace(s: string)
  {
    forall i :: 0 <= i < |s| ==> IsJsWhitespace(s[i])
  }

  /** Drops leading whitespace: the result is the suffix that starts at the
      first non-whitespace character. */
  function TrimStart(s: string): (r: string)
    ensures |r| <= |s| && r == s[|s| - |r|..]
    ensures forall i :: 0 <= i < |s| - |r| ==> IsJsWhitespace(s[i])
    ensures r == [] || !IsJsWhitespace(r[0])
  {
    if |s| > 0 && IsJsWhitespace(s[0]) then TrimStart(s[1..]) else s
  }

  /** Drops trailing whitespace: the result is the prefix that ends at the
      last non-whitespace character. */
  function TrimEnd(s: string): (r: string)
    ensures |r| <= |s| && r == s[..|r|]
    ensures forall i :: |r| <= i < |s| ==> IsJsWhitespace(s[i])
    ensures r == [] || !IsJsWhitespace(r[|r| - 1])
  {
    if |s| > 0 && IsJsWhitespace(s[|s| - 1]) then TrimEnd(s[..|s| - 1]) else s
  }

  /** `s.trim()`: the block of `s` left after removing a whitespace-only
      prefix and a whitespace-only suffix, and it neither starts nor ends
      with whitespace. */
  function Trim(s: string): (r: string)
    ensures |r| <= |s|
    ensures exists k :: (0 <= k && k + |r| <= |s| && r == s[k..k + |r|] &&
                         AllWhitespace(s[..k]) && AllWhitespace(s[k + |r|..]))
    ensures r == [] <==> AllWhitespace(s)
    ensures r != [] ==> !IsJsWhitespace(r[0]) && !IsJsWhitespace(r[|r| - 1])
  {
    var t := TrimStart(s);
    var r := TrimEnd(t);
    InnerBlock(s, t, r);
    r
  }

  /** If `t` is `s` minus a whitespace prefix, and `r` is `t` minus a
      whitespace suffix, then `r` is the block of `s` between the two, and
      it is empty exactly when `s` is all whitespace. */
  lemma InnerBlock(s: string, t: string, r: string)
    requires |t| <= |s| && t == s[|s| - |t|..]
    requires forall i :: 0 <= i < |s| - |t| ==> IsJsWhitespace(s[i])
    requires t == [] || !IsJsWhitespace(t[0])
    requires |r| <= |t| && r == t[..|r|]
    requires forall i :: |r| <= i < |t| ==> IsJsWhitespace(t[i])
    ensures var k := |s| - |t|;
      && r == s[k..k + |r|] && AllWhitespace(s[..k]) && AllWhitespace(s[k + |r|..])
    ensures r == [] <==> AllWhitespace(s)
  {
    var k := |s| - |t|;
    assert s[k + |r|..] == t[|r|..];
    if r == [] {
      assert t == [];
      assert s[..k] == s;
    } else {
      assert s[k] == t[0] == r[0];
    }
  }

  /** JavaScript's `!s.trim()`: the string is empty after trimming. */
  predicate IsBlank(s: string)
  {
    Trim(s) == []
  }

  /** A string is blank exactly when every character is whitespace; in
      particular the empty string is blank and one visible character is
      enough to make a string non-blank. */
  lemma BlankIffAllWhitespace(s: string)
    ensures IsBlank(s) <==> AllWhitespace(s)
    ensures s == [] ==> IsBlank(s)
    ensures (exists i :: 0 <= i < |s| && !IsJsWhitespace(s[i])) ==> !IsBlank(s)
  {
  }

  /* ----------------------------------------------------------- join / split */

  /** `xs.join(sep)` on an array of strings: the empty array gives "". */
  function Join(sep: string, xs: seq<string>): string
  {
    if |xs| == 0 then ""
    else if |xs| == 1 then xs[0]
    else xs[0] + sep + Join(sep, xs[1..])
  }

  /** `s.split(c)` with a one-character separator; "" splits into [""]. */
  function Split(s: string, c: char): (r: seq<string>)
    ensures |r| >= 1
    ensures forall i :: 0 <= i < |r| ==> c !in r[i]
  {
    if |s| == 0 then [""]
    else
      var rest := Split(s[1..], c);
      if s[0] == c then [""] + rest else [[s[0]] + rest[0]] + rest[1..]
  }

  lemma JoinCons(sep: string, x: string, xs: seq<string>)
    requires |xs| >= 1
    ensures Join(sep, [x] + xs) == x + sep + Join(sep, xs)
  {
  }

  /** A character that is in neither the separator nor any part is not in
      the joined string. */
  lemma {:induction false} JoinAvoids(sep: string, xs: seq<string>, c: char)
    requires c !in sep
    requires forall i :: 0 <= i < |xs| ==> c !in xs[i]
    ensures c !in Join(sep, xs)
  {
    if |xs| > 1 {
      JoinAvoids(sep, xs[1..], c);
    }
  }

  /** Joining a part that itself contains the separator gives the same text
      as joining its two halves as separate parts. */
  lemma {:induction false} JoinPartWithSeparator(sep: string, pre: seq<string>, a: string, b: string, rest: seq<string>)
    ensures Join(sep, pre + [a + sep + b] + rest) == Join(sep, pre + [a, b] + rest)
    decreases |pre|
  {
    if |pre| == 0 {
      assert pre + [a + sep + b] + rest == [a + sep + b] + rest;
      assert pre + [a, b] + rest == [a] + ([b] + rest);
      if |rest| > 0 {
        JoinCons(sep, a + sep + b, rest);
        JoinCons(sep, b, rest);
      }
      JoinCons(sep, a, [b] + rest);
    } else {
      JoinPartWithSeparator(sep, pre[1..], a, b, rest);
      assert pre + [a + sep + b] + rest == [pre[0]] + (pre[1..] + [a + sep + b] + rest);
      assert pre + [a, b] + rest == [pre[0]] + (pre[1..] + [a, b] + rest);
      JoinCons(sep, pre[0], pre[1..] + [a + sep + b] + rest);
      JoinCons(sep, pre[0], pre[1..] + [a, b] + rest);
    }
  }

  /** Splitting a string with no separator in it gives the string alone. */
  lemma {:induction false} SplitNoSeparator(s: string, c: char)
    requires c !in s
    ensures Split(s, c) == [s]
  {
    if |s| > 0 {
      SplitNoSeparator(s[1..], c);
      assert [s[0]] + s[1..] == s;
    }
  }

  /** Splitting stops at the first separator. */
  lemma {:induction false} SplitAtFirst(a: string, c: char, t: string)
    requires c !in a
    ensures Split(a + [c] + t, c) == [a] + Split(t, c)
  {
    var s := a + [c] + t;
    if |a| == 0 {
      assert s[0] == c && s[1..] == t;
    } else {
      assert s[0] == a[0] && s[1..] == a[1..] + [c] + t;
      SplitAtFirst(a[1..], c, t);
      assert [a[0]] + a[1..] == a;
    }
  }

  /** Splitting undoes joining when no part contains the separator. */
  lemma {:induction false} SplitJoin(xs: seq<string>, c: char)
    requires |xs| >= 1
    requires forall i :: 0 <= i < |xs| ==> c !in xs[i]
    ensures Split(Join([c], xs), c) == xs
  {
    if |xs| == 1 {
      SplitNoSeparator(xs[0], c);
    } else {
      SplitJoin(xs[1..], c);
      SplitAtFirst(xs[0], c, Join([c], xs[1..]));
      assert [xs[0]] + xs[1..] == xs;
    }
  }

  /** Joining undoes splitting, for every string. */
  lemma {:induction false} JoinSplit(s: string, c: char)
    ensures Join([c], Split(s, c)) == s
  {
    if |s| > 0 {
      var rest := Split(s[1..], c);
      JoinSplit(s[1..], c);
      if s[0] == c {
        JoinCons([c], "", rest);
      } else if |rest| == 1 {
        assert Split(s, c) == [[s[0]] + rest[0]];
      } else {
        assert rest == [rest[0]] + rest[1..];
        JoinCons([c], rest[0], rest[1..]);
        JoinCons([c], [s[0]] + rest[0], rest[1..]);
      }
    }
  }

  /* ------------------------------------------------------ integer to string */

  predicate IsDigit(c: char)
  {
    '0' <= c <= '9'
  }

  function DigitChar(d: int): (c: char)
    requires 0 <= d < 10
    ensures IsDigit(c)
  {
    (d + '0' as int) as char
  }

  function DigitValue(c: char): int
    requires IsDigit(c)
  {
    c as int - '0' as int
  }

  /** Decimal digits of a natural number, most significant first, with no
      leading zero. */
  function NatToDecimal(n: nat): (r: string)
    ensures |r| >= 1
    ensures forall i :: 0 <= i < |r| ==> IsDigit(r[i])
    ensures |r| > 1 ==> r[0] != '0'
    decreases n
  {
    if n < 10 then [DigitChar(n)] else NatToDecimal(n / 10) + [DigitChar(n % 10)]
  }

  /** The value of a string of decimal digits. */
  function DecimalValue(s: string): nat
    requires forall i :: 0 <= i < |s| ==> IsDigit(s[i])
  {
    if |s| == 0 then 0 else DecimalValue(s[..|s| - 1]) * 10 + DigitValue(s[|s| - 1])
  }

  /** Reading back the printed digits gives the number: printing is injective. */
  lemma {:induction false} DecimalRoundTrip(n: nat)
    ensures DecimalValue(NatToDecimal(n)) == n
    decreases n
  {
    var r := NatToDecimal(n);
    if n >= 10 {
      DecimalRoundTrip(n / 10);
      assert r[..|r| - 1] == NatToDecimal(n / 10);
    }
  }

  /** `String(n)` for an integer `n` of magnitude below 10^21: a minus sign
      exactly for negative numbers, followed by the digits of `|n|`. */
  function IntToDecimal(n: int): (r: string)
    ensures |r| >= 1
    ensures r[0] == '-' <==> n < 0
    ensures n >= 0 ==> IsDigit(r[0])
    ensures forall i :: 0 < i < |r| ==> IsDigit(r[i])
    ensures n < 0 ==> |r| >= 2 && DecimalValue(r[1..]) == -n
    ensures n >= 0 ==> DecimalValue(r) == n
    ensures n < 0 ==> |r| > 2 ==> r[1] != '0'
    ensures n >= 0 ==> |r| > 1 ==> r[0] != '0'
  {
    if n < 0 then
      DecimalRoundTrip(-n);
      assert ("-" + NatToDecimal(-n))[1..] == NatToDecimal(-n);
      "-" + NatToDecimal(-n)
    else
      DecimalRoundTrip(n);
      NatToDecimal(n)
  }
}

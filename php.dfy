/** The PHP string primitives the library leans on, written out with PHP's own
    edge cases: loose truthiness of strings, `mb_substr` with negative or
    out-of-range starts, the `/u` whitespace class, `explode`, `trim`,
    `str_replace`, `is_numeric`, `filter_var(FILTER_VALIDATE_INT)` and the
    decimal rendering of integers. */
module Php {

  datatype Option<T> = None | Some(value: T)

  datatype Result<T, E> = Ok(value: T) | Err(error: E)

  /** `if ($s)` for a string: only "" and "0" are false. */
  predicate Truthy(s: string)
  {
    s != "" && s != "0"
  }

  /** `mb_substr($s, $i, 1)`: a negative start counts back from the end (clamped
      to the first character), a start past the end gives "". */
  function CharAt(s: string, i: int): (r: string)
    ensures |r| <= 1
    ensures 0 <= i < |s| ==> r == [s[i]]
    ensures i >= |s| ==> r == ""
    ensures i == -1 && |s| > 0 ==> r == [s[|s| - 1]]
  {
    var j := if i >= 0 then i else if |s| + i >= 0 then |s| + i else 0;
    if j < |s| then [s[j]] else ""
  }

  /** `mb_substr($s, $i, $n)` for a non-negative start and length. */
  function Substr(s: string, i: nat, n: nat): (r: string)
    ensures |r| <= n
    ensures i + n <= |s| ==> r == s[i..i + n]
    ensures i + n > |s| && n > 0 ==> |r| < n
  {
    if i >= |s| then "" else if i + n <= |s| then s[i..i + n] else s[i..]
  }

  /** One character of `[\s\t\n]` under PHP's `/u` flag (Unicode properties on):
      PCRE's `\s` with Unicode properties is `\p{Z}`, `\h` and `\v`: tab, line
      feed, vertical tab, form feed, carriage return, next line (U+0085), the
      Mongolian vowel separator (U+180E), and every character of the Unicode
      separator categories Zs, Zl and Zp. */
  predicate IsSpace(c: char)
  {
    c == '\t' || c == '\n' || c == '\U{000B}' || c == '\U{000C}' || c == '\r' || c == '\U{0085}'
    || c == ' ' || c == '\U{00A0}' || c == '\U{1680}' || c == '\U{180E}'
    || ('\U{2000}' <= c <= '\U{200A}')
    || c == '\U{2028}' || c == '\U{2029}' || c == '\U{202F}' || c == '\U{205F}' || c == '\U{3000}'
  }

  /** `preg_match('/[\s\t\n]/u', $symbol)` for a symbol of at most one character. */
  predicate IsSpaceSymbol(symbol: string)
  {
    |symbol| == 1 && IsSpace(symbol[0])
  }

  predicate IsDigit(c: char)
  {
    '0' <= c <= '9'
  }

  function LowerChar(c: char): char
  {
    if 'A' <= c <= 'Z' then (c as int + 32) as char else c
  }

  /** `mb_strtolower` as far as the library can observe it: every string it
      lowers is compared against an ASCII word. */
  function ToLower(s: string): (r: string)
    ensures |r| == |s|
    ensures forall i :: 0 <= i < |s| ==> r[i] == LowerChar(s[i])
  {
    if s == [] then [] else [LowerChar(s[0])] + ToLower(s[1..])
  }

  /** Lowering twice is lowering once. */
  lemma {:induction false} ToLowerIdempotent(s: string)
    ensures ToLower(ToLower(s)) == ToLower(s)
  {
    var t := ToLower(s);
    assert |ToLower(t)| == |t|;
    forall i | 0 <= i < |t| ensures ToLower(t)[i] == t[i] {
      assert t[i] == LowerChar(s[i]);
    }
  }

  function DigitChar(d: nat): (c: char)
    requires d < 10
    ensures IsDigit(c) && c as int - '0' as int == d
  {
    (d + '0' as int) as char
  }

  /** Decimal digits of a natural number, without leading zeros. */
  function NatToString(n: nat): (r: string)
    ensures |r| >= 1
    decreases n
  {
    if n < 10 then [DigitChar(n)] else NatToString(n / 10) + [DigitChar(n % 10)]
  }

  /** `(string) $n` for an integer. */
  function IntToString(n: int): string
  {
    if n < 0 then "-" + NatToString(-n) else NatToString(n)
  }

  predicate AllDigits(s: string)
  {
    forall i :: 0 <= i < |s| ==> IsDigit(s[i])
  }

  /** Value of a string of decimal digits. */
  function DigitsValue(s: string): nat
    requires AllDigits(s)
  {
    DigitsValueUpTo(s, |s|)
  }

  /** Value of the first `k` digits of `s`. */
  function DigitsValueUpTo(s: string, k: nat): nat
    requires k <= |s| && AllDigits(s)
  {
    if k == 0 then 0
    else
      assert IsDigit(s[k - 1]);
      DigitsValueUpTo(s, k - 1) * 10 + (s[k - 1] as int - '0' as int)
  }

  /** Appending digits does not change the value of a prefix. */
  lemma {:induction false} DigitsValueUpToAppend(a: string, b: string, k: nat)
    requires AllDigits(a) && AllDigits(b) && k <= |a|
    ensures AllDigits(a + b)
    ensures DigitsValueUpTo(a + b, k) == DigitsValueUpTo(a, k)
  {
    if k > 0 {
      DigitsValueUpToAppend(a, b, k - 1);
      assert (a + b)[k - 1] == a[k - 1];
    }
  }

  lemma {:induction false} NatToStringIsCanonical(n: nat)
    ensures AllDigits(NatToString(n))
    ensures DigitsValue(NatToString(n)) == n
    ensures NatToString(n)[0] == '0' ==> n == 0
    decreases n
  {
    if n >= 10 {
      NatToStringIsCanonical(n / 10);
      var a := NatToString(n / 10);
      var c := DigitChar(n % 10);
      assert AllDigits([c]);
      DigitsValueUpToAppend(a, [c], |a|);
      var r := a + [c];
      assert NatToString(n) == r;
      assert r[|a|] == c;
      assert DigitsValueUpTo(r, |r|) == DigitsValueUpTo(a, |a|) * 10 + n % 10;
      assert r[0] == a[0];
    } else {
      assert AllDigits(NatToString(n));
      assert DigitsValueUpTo(NatToString(n), 0) == 0;
    }
  }

  const Int64Min: int := -0x8000_0000_0000_0000
  const Int64Max: int := 0x7FFF_FFFF_FFFF_FFFF

  predicate InInt64(n: int)
  {
    Int64Min <= n <= Int64Max
  }

  /** PHP's `%` on integers: the remainder truncates toward zero, so it takes
      the sign of the dividend (Dafny's own `%` is Euclidean). */
  function IntRem(a: int, b: int): (r: int)
    requires b > 0
    ensures -b < r < b
    ensures a >= 0 ==> r == a % b
    ensures a <= 0 ==> r <= 0
  {
    if a >= 0 then a % b else -((-a) % b)
  }

  /** The three sets of blanks PHP trims in different places: `filter_var`
      before validating an integer, `is_numeric` around a number, and `trim`
      with its default character list. */
  datatype Blanks = FilterBlanks | NumericBlanks | TrimBlanks

  predicate IsBlank(c: char, blanks: Blanks)
  {
    match blanks
    case FilterBlanks => c == ' ' || c == '\t' || c == '\r' || c == '\U{000B}' || c == '\n'
    case NumericBlanks => c == ' ' || c == '\t' || c == '\n' || c == '\r' || c == '\U{000B}' || c == '\U{000C}'
    case TrimBlanks => c == ' ' || c == '\t' || c == '\n' || c == '\r' || c == '\U{0000}' || c == '\U{000B}'
  }

  function TrimLeft(s: string, blanks: Blanks): (r: string)
    ensures r == [] || !IsBlank(r[0], blanks)
  {
    if s != [] && IsBlank(s[0], blanks) then TrimLeft(s[1..], blanks) else s
  }

  function TrimRight(s: string, blanks: Blanks): (r: string)
    ensures r == [] || !IsBlank(r[|r| - 1], blanks)
  {
    if s != [] && IsBlank(s[|s| - 1], blanks) then TrimRight(s[..|s| - 1], blanks) else s
  }

  /** Trimming on the right keeps a prefix. */
  lemma {:induction false} TrimRightIsPrefix(s: string, blanks: Blanks)
    ensures |TrimRight(s, blanks)| <= |s|
    ensures TrimRight(s, blanks) == s[..|TrimRight(s, blanks)|]
    decreases |s|
  {
    if s != [] && IsBlank(s[|s| - 1], blanks) {
      TrimRightIsPrefix(s[..|s| - 1], blanks);
    }
  }

  /** What remains of a trimmed string once one leading sign is dropped. */
  function Unsigned(t: string): (u: string)
  {
    if |t| > 0 && (t[0] == '-' || t[0] == '+') then t[1..] else t
  }

  /** The value of canonical digits under a sign, if it fits in 64 bits. */
  function SignedValue(negative: bool, digits: string): (r: Option<int>)
    ensures r.Some? ==> InInt64(r.value)
  {
    if |digits| == 0 || !AllDigits(digits) then None
    else if digits[0] == '0' && |digits| > 1 then None
    else
      var n: int := if negative then 0 - DigitsValue(digits) else DigitsValue(digits);
      if InInt64(n) then Some(n) else None
  }

  /** `filter_var($s, FILTER_VALIDATE_INT)`: surrounding blanks, an optional
      sign, then "0" or digits without a leading zero, inside the 64-bit range. */
  function FilterInt(s: string): (r: Option<int>)
    ensures r.Some? ==> InInt64(r.value)
  {
    var t := TrimRight(TrimLeft(s, FilterBlanks), FilterBlanks);
    SignedValue(|t| > 0 && t[0] == '-', Unsigned(t))
  }

  lemma FilterIntOfIntToString(n: int)
    requires InInt64(n)
    ensures FilterInt(IntToString(n)) == Some(n)
  {
    var m: nat := if n < 0 then -n else n;
    NatToStringIsCanonical(m);
    if n < 0 {
      FilterIntOfNegativeDigits(NatToString(m));
    } else {
      FilterIntOfDigits(NatToString(m));
    }
  }

  /** Canonical digits pass filter_var with their value... */
  lemma FilterIntOfDigits(d: string)
    requires |d| >= 1 && AllDigits(d)
    requires d[0] == '0' ==> |d| == 1
    requires InInt64(DigitsValue(d))
    ensures FilterInt(d) == Some(DigitsValue(d))
  {
    assert TrimRight(TrimLeft(d, FilterBlanks), FilterBlanks) == d by {
      assert IsDigit(d[0]);
      assert IsDigit(d[|d| - 1]);
      TrimLeftStops(d, FilterBlanks);
      TrimRightStops(d, FilterBlanks);
    }
    assert Unsigned(d) == d by {
      assert IsDigit(d[0]);
    }
  }

  /** ...and so do they behind a minus sign. */
  lemma FilterIntOfNegativeDigits(d: string)
    requires |d| >= 1 && AllDigits(d)
    requires d[0] == '0' ==> |d| == 1
    requires InInt64(0 - DigitsValue(d))
    ensures FilterInt(['-'] + d) == Some(0 - DigitsValue(d))
  {
    var s := ['-'] + d;
    assert TrimRight(TrimLeft(s, FilterBlanks), FilterBlanks) == s by {
      assert s[|s| - 1] == d[|d| - 1];
      assert IsDigit(d[|d| - 1]);
      TrimLeftStops(s, FilterBlanks);
      TrimRightStops(s, FilterBlanks);
    }
    assert Unsigned(s) == d by {
      assert s[1..] == d;
    }
  }

  lemma TrimLeftStops(s: string, blanks: Blanks)
    requires s == [] || !IsBlank(s[0], blanks)
    ensures TrimLeft(s, blanks) == s
  {
  }

  lemma TrimRightStops(s: string, blanks: Blanks)
    requires s == [] || !IsBlank(s[|s| - 1], blanks)
    ensures TrimRight(s, blanks) == s
  {
  }

  /** Index just past the run of decimal digits that starts at `i`. */
  function DigitRunEnd(s: string, i: nat): (j: nat)
    requires i <= |s|
    ensures i <= j <= |s|
    ensures forall k :: i <= k < j ==> IsDigit(s[k])
    ensures j == |s| || !IsDigit(s[j])
    decreases |s| - i
  {
    if i < |s| && IsDigit(s[i]) then DigitRunEnd(s, i + 1) else i
  }

  /** An exponent part: `e` or `E`, an optional sign, at least one digit. */
  predicate IsExponent(s: string)
  {
    |s| >= 2 && (s[0] == 'e' || s[0] == 'E')
    && var k := if s[1] == '+' || s[1] == '-' then 2 else 1;
       k < |s| && DigitRunEnd(s, k) == |s|
  }

  /** An unsigned decimal number: digits with an optional fraction (at least one
      digit on one side of the point), then an optional exponent. */
  predicate IsUnsignedDecimal(u: string)
  {
    var i1 := DigitRunEnd(u, 0);
    var i2 := if i1 < |u| && u[i1] == '.' then DigitRunEnd(u, i1 + 1) else i1;
    (i1 > 0 || i2 > i1 + 1) && (i2 == |u| || IsExponent(u[i2..]))
  }

  /** `is_numeric($s)` for a string. */
  predicate IsNumeric(s: string)
  {
    var t := TrimRight(TrimLeft(s, NumericBlanks), NumericBlanks);
    var u := if |t| > 0 && (t[0] == '+' || t[0] == '-') then t[1..] else t;
    IsUnsignedDecimal(u)
  }

  lemma IntToStringIsNumeric(n: int)
    ensures IsNumeric(IntToString(n))
  {
    var m: nat := if n < 0 then -n else n;
    NatToStringIsCanonical(m);
    if n < 0 {
      DigitsAreNumeric("-", NatToString(m));
    } else {
      assert IntToString(n) == "" + NatToString(m);
      DigitsAreNumeric("", NatToString(m));
    }
  }

  /** An optional minus sign and digits make a numeric string. */
  lemma DigitsAreNumeric(sign: string, d: string)
    requires sign == "" || sign == "-"
    requires |d| >= 1 && AllDigits(d)
    ensures IsNumeric(sign + d)
  {
    var s := sign + d;
    assert TrimRight(TrimLeft(s, NumericBlanks), NumericBlanks) == s by {
      assert IsDigit(d[0]) && IsDigit(d[|d| - 1]);
      assert IsDigit(s[0]) || s[0] == '-';
      assert s[|s| - 1] == d[|d| - 1];
      TrimLeftStops(s, NumericBlanks);
      TrimRightStops(s, NumericBlanks);
    }
    assert (if |s| > 0 && (s[0] == '+' || s[0] == '-') then s[1..] else s) == d by {
      if sign == "-" {
        assert s[1..] == d;
      } else {
        assert s == d;
      }
    }
    assert forall k :: 0 <= k < |d| ==> IsDigit(d[k]);
    DigitRunCovers(d, 0);
  }

  lemma {:induction false} DigitRunCovers(s: string, i: nat)
    requires i <= |s|
    requires forall k :: i <= k < |s| ==> IsDigit(s[k])
    ensures DigitRunEnd(s, i) == |s|
    decreases |s| - i
  {
    if i < |s| {
      DigitRunCovers(s, i + 1);
    }
  }

  /** `trim($s)` with PHP's default character list. */
  function Trim(s: string): (r: string)
    ensures r == [] || (!IsBlank(r[0], TrimBlanks) && !IsBlank(r[|r| - 1], TrimBlanks))
  {
    TrimRightIsPrefix(TrimLeft(s, TrimBlanks), TrimBlanks);
    TrimRight(TrimLeft(s, TrimBlanks), TrimBlanks)
  }

  /** `str_replace($from, $to, $s)`: left-to-right, non-overlapping. */
  function ReplaceAll(s: string, from: string, to: string): string
    requires |from| > 0
    decreases |s|
  {
    if |s| < |from| then s
    else if s[..|from|] == from then to + ReplaceAll(s[|from|..], from, to)
    else [s[0]] + ReplaceAll(s[1..], from, to)
  }

  /** `from` occurs in `s` at index `i`. */
  predicate OccursAt(s: string, from: string, i: nat)
  {
    i + |from| <= |s| && s[i..i + |from|] == from
  }

  lemma {:induction false} ReplaceAllWithoutOccurrence(s: string, from: string, to: string)
    requires |from| > 0
    requires forall i: nat :: !OccursAt(s, from, i)
    ensures ReplaceAll(s, from, to) == s
    decreases |s|
  {
    if |s| >= |from| {
      assert !OccursAt(s, from, 0);
      assert s[..|from|] == s[0..0 + |from|];
      forall i: nat ensures !OccursAt(s[1..], from, i) {
        if i + |from| <= |s[1..]| {
          assert s[1..][i..i + |from|] == s[i + 1..i + 1 + |from|];
          assert !OccursAt(s, from, i + 1);
        }
      }
      ReplaceAllWithoutOccurrence(s[1..], from, to);
    }
  }

  /** `s` with a backslash put before every `q`: how a quote is written
      inside a string delimited by that quote. */
  function EscapeQuote(s: string, q: char): (r: string)
    ensures |r| >= |s|
  {
    if s == [] then []
    else (if s[0] == q then ['\\', q] else [s[0]]) + EscapeQuote(s[1..], q)
  }

  /** Replacing backslash-`q` by `q` undoes EscapeQuote, for every string:
      each backslash the escaping adds is followed by `q`, and a backslash of
      the string itself is never followed by `q` once escaped. */
  lemma {:induction false} ReplaceAllUndoesEscape(s: string, q: char)
    requires q != '\\'
    ensures ReplaceAll(EscapeQuote(s, q), ['\\', q], [q]) == s
    decreases |s|
  {
    if s != [] {
      var rest := EscapeQuote(s[1..], q);
      ReplaceAllUndoesEscape(s[1..], q);
      if s[0] == q {
        assert EscapeQuote(s, q) == ['\\', q] + rest;
        assert (['\\', q] + rest)[2..] == rest;
      } else {
        var e := [s[0]] + rest;
        assert EscapeQuote(s, q) == e;
        if |e| >= 2 {
          assert e[1] == rest[0];
          assert rest[0] != q by {
            if s[1] == q {
              assert rest == ['\\', q] + EscapeQuote(s[2..], q);
            } else {
              assert rest == [s[1]] + EscapeQuote(s[2..], q);
            }
          }
          assert e[..2] != ['\\', q];
          assert e[1..] == rest;
        }
      }
    }
  }

  /** `explode($sep, $s)` with a one-character separator. */
  function Explode(sep: char, s: string): (r: seq<string>)
    ensures |r| >= 1
    decreases |s|
  {
    if s == [] then [""]
    else
      var rest := Explode(sep, s[1..]);
      if s[0] == sep then [""] + rest else [[s[0]] + rest[0]] + rest[1..]
  }

  /** `implode($sep, $parts)`. */
  function Join(parts: seq<string>, sep: string): string
  {
    if parts == [] then ""
    else if |parts| == 1 then parts[0]
    else parts[0] + sep + Join(parts[1..], sep)
  }

  /** explode is undone by implode... */
  lemma {:induction false} ExplodeJoin(sep: char, s: string)
    ensures Join(Explode(sep, s), [sep]) == s
    decreases |s|
  {
    if s != [] {
      ExplodeJoin(sep, s[1..]);
      var rest := Explode(sep, s[1..]);
      var r := Explode(sep, s);
      if s[0] != sep {
        if |rest| == 1 {
          assert Join(r, [sep]) == r[0];
        } else {
          assert r[1..] == rest[1..];
          assert Join(rest, [sep]) == rest[0] + [sep] + Join(rest[1..], [sep]);
          assert Join(r, [sep]) == r[0] + [sep] + Join(r[1..], [sep]);
        }
      } else {
        assert r[1..] == rest;
      }
    }
  }

  /** No piece of `pieces` holds `sep`. */
  predicate NoPieceHolds(pieces: seq<string>, sep: char)
  {
    forall k, i :: 0 <= k < |pieces| && 0 <= i < |pieces[k]| ==> pieces[k][i] != sep
  }

  /** ...and no piece explode returns holds the separator. */
  lemma {:induction false} ExplodePiecesLackSeparator(sep: char, s: string)
    ensures NoPieceHolds(Explode(sep, s), sep)
    decreases |s|
  {
    if s != [] {
      ExplodePiecesLackSeparator(sep, s[1..]);
      var rest := Explode(sep, s[1..]);
      var r := Explode(sep, s);
      if s[0] != sep {
        forall k, i | 0 <= k < |r| && 0 <= i < |r[k]| ensures r[k][i] != sep {
          if k == 0 {
            if i > 0 { assert r[0][i] == rest[0][i - 1]; }
          } else {
            assert r[k] == rest[k];
          }
        }
      } else {
        forall k, i | 0 <= k < |r| && 0 <= i < |r[k]| ensures r[k][i] != sep {
          assert r[k] == rest[k - 1];
        }
      }
    }
  }

  /** A slice taken one character at a time: the first character, then the
      rest. */
  lemma SliceStep(a: string, s: string, c: int, e: int)
    requires 0 <= c < e <= |s|
    ensures a + [s[c]] + s[c + 1..e] == a + s[c..e]
  {
    assert s[c..e] == [s[c]] + s[c + 1..e];
  }
}

/** The `phone` specifier (src/Specifier/Phone.php): lays the digits of a
    value into a mask such as `+7(ddd)ddd-dddd`. Each `d` takes the next
    digit; a digit in the mask takes the next value digit while the value
    keeps agreeing with the mask's digits, and is copied from the mask once
    it has disagreed; anything else in the mask is copied. */
module Phone {
  import opened Php

  /** `preg_replace('/[^0-9]/', '', $value)`: the ASCII digits, in order. */
  function DigitsOf(s: string): (r: string)
    ensures AllDigits(r) && |r| <= |s|
    ensures forall c :: c in r ==> c in s
  {
    if s == [] then []
    else (if IsDigit(s[0]) then [s[0]] else []) + DigitsOf(s[1..])
  }

  /** A single character is kept exactly when it is a digit. */
  lemma DigitsOfChar(c: char)
    ensures DigitsOf([c]) == if IsDigit(c) then [c] else []
  {
    assert [c][1..] == [];
  }

  /** The reduction works piece by piece, in order: the digits of `a + b`
      are those of `a` followed by those of `b`. */
  lemma {:induction false} DigitsOfConcat(a: string, b: string)
    ensures DigitsOf(a + b) == DigitsOf(a) + DigitsOf(b)
    decreases |a|
  {
    if a == [] {
      assert a + b == b;
    } else {
      assert (a + b)[0] == a[0];
      assert (a + b)[1..] == a[1..] + b;
      DigitsOfConcat(a[1..], b);
    }
  }

  /** A value made of digits only is kept whole. */
  lemma {:induction false} DigitsOfDigits(s: string)
    requires AllDigits(s)
    ensures DigitsOf(s) == s
    decreases |s|
  {
    if s != [] {
      DigitsOfDigits(s[1..]);
      assert [s[0]] + s[1..] == s;
    }
  }

  /** The loop's state: the output so far, the position in the digits, the
      sticky flag that the value still agrees with the mask's digits, and the
      digits placed so far. */
  datatype Fill = Fill(result: string, index: nat, equals: bool, taken: string)

  /** One pass of the do-while over the mask character `symbol`. */
  function FillStep(digits: string, symbol: char, st: Fill): (r: Fill)
    ensures r.index <= st.index + 1
    ensures |r.result| <= |st.result| + 1
  {
    var matches := st.index < |digits| && digits[st.index] == symbol;
    var valueSymbol := if st.index < |digits| then [digits[st.index]] else "";
    var equals := st.equals && !(IsDigit(symbol) && !matches);
    if symbol == 'd' || (matches && equals) then
      Fill(st.result + valueSymbol, st.index + 1, equals, st.taken + valueSymbol)
    else
      Fill(st.result + [symbol], st.index, equals, st.taken)
  }

  /** The state after the first k characters of the mask. */
  function FillUpTo(format: string, digits: string, k: nat): (r: Fill)
    requires k <= |format|
  {
    if k == 0 then Fill("", 0, true, "")
    else FillStep(digits, format[k - 1], FillUpTo(format, digits, k - 1))
  }

  /** format(): exactly one modifier, a non-empty mask. */
  function Format(value: string, modifiers: seq<string>): (r: Result<string, string>)
    ensures r.Err? <==> |modifiers| != 1 || modifiers[0] == ""
  {
    if |modifiers| != 1 then Err("Нужно передать один модификатор")
    else if modifiers[0] == "" then Err("Формат телефона не может быть пустым")
    else
      var format := modifiers[0];
      Ok(FillUpTo(format, DigitsOf(value), |format|).result)
  }

  /** format() as written: a do-while over the mask. */
  method FormatPhone(value: string, modifiers: seq<string>) returns (r: Result<string, string>)
    ensures r == Format(value, modifiers)
  {
    if |modifiers| != 1 {
      return Err("Нужно передать один модификатор");
    }
    var format := modifiers[0];
    if format == "" {
      return Err("Формат телефона не может быть пустым");
    }
    var digits := DigitsOf(value);
    var current := 0;
    var index := 0;
    var result := "";
    var equals := true;
    ghost var taken := "";
    var again := true;
    while again
      invariant 0 <= current <= |format|
      invariant again <==> current < |format|
      invariant FillUpTo(format, digits, current) == Fill(result, index, equals, taken)
      decreases |format| - current
    {
      var symbol := format[current];
      current := current + 1;
      var valueSymbol := if index < |digits| then [digits[index]] else "";
      if IsDigit(symbol) && valueSymbol != [symbol] {
        equals := false;
      }
      if symbol == 'd' || (valueSymbol == [symbol] && equals) {
        index := index + 1;
        result := result + valueSymbol;
        taken := taken + valueSymbol;
      } else {
        result := result + [symbol];
      }
      again := current < |format|;
    }
    r := Ok(result);
  }

  /** Each mask character adds at most one character to the output, and
      moves at most one digit along. */
  lemma {:induction false} FillIsShort(format: string, digits: string, k: nat)
    requires k <= |format|
    ensures |FillUpTo(format, digits, k).result| <= k
    ensures FillUpTo(format, digits, k).index <= k
  {
    if k > 0 {
      FillIsShort(format, digits, k - 1);
    }
  }

  /** The output is never longer than the mask. */
  lemma FormatIsShort(value: string, modifiers: seq<string>)
    requires Format(value, modifiers).Ok?
    ensures |Format(value, modifiers).value| <= |modifiers[0]|
  {
    FillIsShort(modifiers[0], DigitsOf(value), |modifiers[0]|);
  }

  /** The digits placed in the output are the value's digits, in order, from
      the first: a prefix of them; the ones past the mask are dropped. */
  lemma {:induction false} TakenIsPrefix(format: string, digits: string, k: nat)
    requires k <= |format|
    ensures var st := FillUpTo(format, digits, k);
            st.taken == digits[..if st.index < |digits| then st.index else |digits|]
  {
    if k > 0 {
      TakenIsPrefix(format, digits, k - 1);
      var st := FillUpTo(format, digits, k - 1);
      var n := if st.index < |digits| then st.index else |digits|;
      if st.index < |digits| {
        assert digits[..n + 1] == digits[..n] + [digits[n]];
      }
    }
  }

  /** A mask character that is neither `d` nor a digit is copied as it is
      (the digits the value is reduced to never equal it). */
  lemma LiteralIsCopied(format: string, digits: string, k: nat)
    requires AllDigits(digits)
    requires k < |format| && format[k] != 'd' && !IsDigit(format[k])
    ensures FillUpTo(format, digits, k + 1).result == FillUpTo(format, digits, k).result + [format[k]]
  {
    var st := FillUpTo(format, digits, k);
    if st.index < |digits| {
      assert IsDigit(digits[st.index]);
    }
  }

  /** Once the value has disagreed with a digit of the mask, the flag stays
      down and every later digit of the mask is copied from the mask. */
  lemma {:induction false} MismatchIsSticky(format: string, digits: string, k: nat, m: nat)
    requires k <= m <= |format|
    requires !FillUpTo(format, digits, k).equals
    ensures !FillUpTo(format, digits, m).equals
    decreases m - k
  {
    if m > k {
      MismatchIsSticky(format, digits, k, m - 1);
    }
  }

  lemma MaskDigitCopiedAfterMismatch(format: string, digits: string, k: nat)
    requires k < |format| && IsDigit(format[k])
    requires !FillUpTo(format, digits, k).equals
    ensures FillUpTo(format, digits, k + 1).result == FillUpTo(format, digits, k).result + [format[k]]
  {
  }
}

/** The `declension` specifier (src/Specifier/Declension.php): picks the
    Russian noun form that goes with a number, from the three forms given as
    modifiers (for one, for two to four, for five and more). */
module Declension {
  import opened Php

  /** The number the rule looks at: the last two digits, and only the last
      one past the teens. */
  function RuleNumber(value: int): (n: int)
    ensures -100 < n < 100
    ensures 0 <= value ==> 0 <= n <= 19
  {
    var n := IntRem(value, 100);
    if n > 19 then IntRem(n, 10) else n
  }

  function Format(value: int, modifiers: seq<string>): (r: Result<string, string>)
    ensures r.Err? <==> |modifiers| != 3
    ensures r.Ok? ==> r.value in modifiers
  {
    if |modifiers| != 3 then Err("Необходимо передать три значения аргумента для склонения слова")
    else
      var number := RuleNumber(value);
      if number == 1 then Ok(modifiers[0])
      else if 1 < number < 5 then Ok(modifiers[1])
      else Ok(modifiers[2])
  }

  /** The choice depends on the value only through PHP's `$value % 100`. */
  lemma FormatDependsOnRemainder(a: int, b: int, modifiers: seq<string>)
    requires IntRem(a, 100) == IntRem(b, 100)
    ensures Format(a, modifiers) == Format(b, modifiers)
  {
  }

  /** The teens 11 to 19 take the third form. */
  lemma TeensTakeThirdForm(value: int, modifiers: seq<string>)
    requires |modifiers| == 3
    requires 11 <= IntRem(value, 100) <= 19
    ensures Format(value, modifiers) == Ok(modifiers[2])
  {
  }

  /** Outside the teens, a non-negative number's last digit decides: 1 takes
      the first form, 2 to 4 the second, anything else the third. */
  lemma LastDigitDecides(value: nat, modifiers: seq<string>)
    requires |modifiers| == 3
    requires !(11 <= value % 100 <= 19)
    ensures value % 10 == 1 ==> Format(value, modifiers) == Ok(modifiers[0])
    ensures 2 <= value % 10 <= 4 ==> Format(value, modifiers) == Ok(modifiers[1])
    ensures !(1 <= value % 10 <= 4) ==> Format(value, modifiers) == Ok(modifiers[2])
  {
    var h := value % 100;
    LastDigitOfLastTwo(value);
    if h > 19 {
      assert RuleNumber(value) == h % 10;
    } else {
      assert h < 10 || h == 10;
      assert RuleNumber(value) == h;
    }
  }

  lemma LastDigitOfLastTwo(value: nat)
    ensures value % 10 == (value % 100) % 10
  {
    var q := value / 100;
    var h := value % 100;
    assert value == 100 * q + h;
    var a := 10 * q + h / 10;
    assert h == 10 * (h / 10) + h % 10;
    assert value == 10 * a + h % 10;
    RemainderIsUnique(value, 10, a, h % 10);
  }

  lemma RemainderIsUnique(value: nat, d: nat, a: int, b: int)
    requires d > 0 && 0 <= b < d && value == d * a + b
    ensures value % d == b
  {
    var q := value / d;
    var r := value % d;
    assert value == d * q + r;
    assert d * (a - q) == r - b;
    MultipleBound(d, a - q);
  }

  lemma MultipleBound(d: int, x: int)
    requires d > 0
    ensures x >= 1 ==> d * x >= d
    ensures x <= -1 ==> d * x <= -d
  {
  }

  /** A negative number never takes the first or second form: PHP's remainder
      keeps the sign, so the rule number is never 1 to 4. */
  lemma NegativeTakesThirdForm(value: int, modifiers: seq<string>)
    requires |modifiers| == 3 && value < 0
    ensures Format(value, modifiers) == Ok(modifiers[2])
  {
  }

  /** 32345433343 ends in 43: "года" (tests/Specifier/DeclensionTest.php). */
  lemma FormatOfLargeYear()
    ensures Format(32345433343, ["год", "года", "лет"]) == Ok("года")
  {
    LastDigitDecides(32345433343, ["год", "года", "лет"]);
  }
}

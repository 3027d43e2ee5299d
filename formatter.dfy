/** The older formatter, src/Formatter.php: one pass over the tokens of a
    template that builds a positional `sprintf` format string and the list of
    its arguments, keeping the same stack of condition values as the template
    builder. It reads the token kinds of an older tokenizer (an opening `{{`,
    a condition and a format token among them), so it has its own token
    type here. */
module Formatting {
  import opened Php
  import opened Values
  import opened Conditions

  /** The token kinds the loop tells apart; `TOther` stands for every other
      kind the older tokenizer emits (the closing `}}` among them). */
  datatype Kind =
    | TText | TIf | TElseif | TElse | TEndif
    | TOpen | TVariable | TOpenParentheses | TCondition | TCloseParentheses
    | TFormat | TOther

  datatype Token = Token(kind: Kind, image: string)

  /** FormatErrorException, and the one case whose outcome rests on the
      collection class behind the condition stack, which is not modelled. */
  datatype Error = ConditionFormatError | Unmodelled

  /** The variables of the loop: the format string so far, the arguments, the
      automatic counter, the condition stack and the open-conditions count. */
  datatype State = State(formatted: string, variables: seq<string>, counter: nat,
                         conditions: seq<bool>, openConditions: int)

  const Start := State("", [], 0, [], 0)

  // Literal text and sprintf.

  /** Every `%` written twice, so that sprintf prints it once. */
  function DoublePercent(s: string): (r: string)
    ensures |r| >= |s|
    decreases |s|
  {
    if s == [] then []
    else (if s[0] == '%' then "%%" else [s[0]]) + DoublePercent(s[1..])
  }

  /** What sprintf prints for a stretch of its format string that holds no
      conversion: `%%` is one `%`, every other character itself. */
  function Printed(t: string): string
    decreases |t|
  {
    if t == [] then []
    else if |t| >= 2 && t[0] == '%' && t[1] == '%' then "%" + Printed(t[2..])
    else [t[0]] + Printed(t[1..])
  }

  /** `str_replace('%', '%%', $image)` is the doubling above. */
  lemma {:induction false} ReplacePercent(s: string)
    ensures ReplaceAll(s, "%", "%%") == DoublePercent(s)
    decreases |s|
  {
    if s != [] {
      assert s[..1] == [s[0]];
      ReplacePercent(s[1..]);
    }
  }

  /** Doubled text comes out of sprintf as it went in. */
  lemma {:induction false} PrintedDoubled(s: string)
    ensures Printed(DoublePercent(s)) == s
    decreases |s|
  {
    if s != [] {
      var d := DoublePercent(s[1..]);
      PrintedDoubled(s[1..]);
      if s[0] == '%' {
        assert DoublePercent(s) == "%%" + d;
        assert ("%%" + d)[2..] == d;
      } else {
        assert DoublePercent(s) == [s[0]] + d;
        assert ([s[0]] + d)[1..] == d;
      }
    }
  }

  // Looking values up.

  /** `getValue($values, $vars, $fullKey)`: the converted leaf the segments
      lead to, or nothing (PHP's `false`) when a segment is missing or a
      value on the way is no container. */
  function GetValue(values: Value, vars: seq<string>): (r: Option<string>)
    requires |vars| >= 1
    ensures r.None? <==> GetValueInternal(values, vars).Err?
    decreases |vars|
  {
    match Child(values, vars[0])
    case None => None
    case Some(v) => if |vars| > 1 then GetValue(v, vars[1..]) else Some(Convert(v))
  }

  /** The older lookup agrees with the one of the value nodes: it finds the
      same leaf and fails on the same paths, only it answers with the
      rendered leaf or nothing instead of a value or NotFoundKey. */
  lemma {:induction false} GetValueIsLookup(values: Value, vars: seq<string>)
    requires |vars| >= 1
    ensures GetValue(values, vars) == match GetValueInternal(values, vars)
                                      case Ok(v) => Some(Convert(v))
                                      case Err(_) => None
    decreases |vars|
  {
    match Child(values, vars[0])
    case None =>
    case Some(v) =>
      if |vars| > 1 {
        GetValueIsLookup(v, vars[1..]);
      }
  }

  /** `getValueWithKey`: the rendered value, or the placeholder written back
      as `{{fullKey}}` when there is none. */
  function GetValueWithKey(values: Value, vars: seq<string>, fullKey: string): (r: string)
    requires |vars| >= 1
    ensures GetValue(values, vars).None? ==> r == "{{" + fullKey + "}}"
    ensures GetValue(values, vars).Some? ==> r == GetValue(values, vars).value
  {
    match GetValue(values, vars)
    case None => "{{" + fullKey + "}}"
    case Some(s) => s
  }

  /** `(bool) getValue(...)` for the condition image split on `:`: false
      when the lookup fails, otherwise the truthiness of the rendered leaf. */
  function ConditionValue(values: Value, image: string): (r: bool)
    ensures GetValueInternal(values, Explode(':', image)).Err? ==> !r
    ensures GetValueInternal(values, Explode(':', image)).Ok? ==>
              (r <==> Truthy(Convert(GetValueInternal(values, Explode(':', image)).value)))
  {
    GetValueIsLookup(values, Explode(':', image));
    match GetValue(values, Explode(':', image))
    case None => false
    case Some(s) => Truthy(s)
  }

  /** A condition on a key that is there and holds `false` is true: the
      lookup renders the leaf as the word "false", and a non-empty word
      other than "0" is truthy; a missing key and the integer 0 are false. */
  lemma ConditionValueOfKey(entries: map<string, Value>, key: string)
    requires forall i :: 0 <= i < |key| ==> key[i] != ':'
    ensures key !in entries ==> !ConditionValue(Arr(entries), key)
    ensures key in entries && entries[key] == Bool(false) ==> ConditionValue(Arr(entries), key)
    ensures key in entries && entries[key] == Int(0) ==> !ConditionValue(Arr(entries), key)
  {
    ExplodeKey(key);
  }

  /** A key without a colon is one segment. */
  lemma {:induction false} ExplodeKey(key: string)
    requires forall i :: 0 <= i < |key| ==> key[i] != ':'
    ensures Explode(':', key) == [key]
    decreases |key|
  {
    if key != [] {
      ExplodeKey(key[1..]);
      assert [key[0]] + key[1..] == key;
    }
  }

  // The loop.

  /** `lookAtNextType(1..3)`: the `if`/`elseif` is followed by `(`, a
      condition and `)`. */
  predicate ConditionAhead(tokens: seq<Token>, pos: nat)
  {
    pos + 3 < |tokens| && tokens[pos + 1].kind.TOpenParentheses? && tokens[pos + 2].kind.TCondition?
    && tokens[pos + 3].kind.TCloseParentheses?
  }

  /** The suffix after `%N`: `$` and the image of the format token found
      `next` tokens ahead, or `$s`. */
  function Suffix(tokens: seq<Token>, pos: nat, next: nat): (r: string)
    ensures |r| >= 1 && r[0] == '$'
  {
    if pos + next < |tokens| && tokens[pos + next].kind.TFormat? then "$" + tokens[pos + next].image else "$s"
  }

  /** A token right after `{{` while the stack is satisfied: a variable token
      is the path of its value (split on `:`, and placed with the format
      token two ahead), any other token takes the automatic counter as its
      key (and the format token one ahead). The argument is appended and
      `%N` written with N its 1-based position. */
  function Placeholder(tokens: seq<Token>, pos: nat, values: Value, s: State): (r: State)
    requires pos < |tokens|
  {
    var t := tokens[pos];
    var isVariable := t.kind.TVariable?;
    var vars := if isVariable then Explode(':', t.image) else [IntToString(s.counter)];
    var variables := s.variables + [GetValueWithKey(values, vars, t.image)];
    s.(formatted := s.formatted + "%" + IntToString(|variables|) + Suffix(tokens, pos, if isVariable then 2 else 1),
       variables := variables,
       counter := if isVariable then s.counter else s.counter + 1)
  }

  /** One turn of the loop over the token at `pos`. */
  function Step(tokens: seq<Token>, pos: nat, values: Value, s: State): (r: Result<State, Error>)
    requires pos < |tokens|
  {
    var t := tokens[pos];
    var sat := IsSatisfies(s.conditions);
    var n := |s.conditions|;
    if t.kind.TText? && sat then Ok(s.(formatted := s.formatted + DoublePercent(t.image)))
    else if (t.kind.TIf? || t.kind.TElseif?) && ConditionAhead(tokens, pos) then
      var value := ConditionValue(values, tokens[pos + 2].image);
      if t.kind.TIf? then Ok(s.(conditions := s.conditions + [value], openConditions := s.openConditions + 1))
      else if n > 0 then Ok(s.(conditions := s.conditions[..n - 1] + [value]))
      else Ok(s)
    else if t.kind.TEndif? then
      if n == 0 then Err(Unmodelled)
      else Ok(s.(conditions := s.conditions[..n - 1], openConditions := s.openConditions - 1))
    else if t.kind.TElse? then
      if n > 0 then Ok(s.(conditions := s.conditions[..n - 1] + [!s.conditions[n - 1]])) else Ok(s)
    else if pos > 0 && tokens[pos - 1].kind.TOpen? && sat then Ok(Placeholder(tokens, pos, values, s))
    else Ok(s)
  }

  /** The loop from `pos` to the end of the tokens. */
  function Walk(tokens: seq<Token>, pos: nat, values: Value, s: State): (r: Result<State, Error>)
    requires pos <= |tokens|
    decreases |tokens| - pos
  {
    if pos == |tokens| then Ok(s)
    else match Step(tokens, pos, values, s)
      case Err(e) => Err(e)
      case Ok(c) => Walk(tokens, pos + 1, values, c)
  }

  /** `format($string, $values)` up to the call of sprintf: the format string
      followed by its arguments, or FormatErrorException when the
      conditions do not balance. */
  function FormatArguments(tokens: seq<Token>, values: Value): Result<seq<string>, Error>
  {
    match Walk(tokens, 0, values, Start)
    case Err(e) => Err(e)
    case Ok(s) => if s.openConditions != 0 then Err(ConditionFormatError) else Ok([s.formatted] + s.variables)
  }

  /** The loop as written, over the tokens of the older tokenizer. */
  method Format(tokens: seq<Token>, values: Value) returns (r: Result<seq<string>, Error>)
    ensures r == FormatArguments(tokens, values)
  {
    var formatted := "";
    var variables: seq<string> := [];
    var counter: nat := 0;
    var conditions: seq<bool> := [];
    var openConditions := 0;
    var p := 0;
    while p < |tokens|
      invariant p <= |tokens|
      invariant Walk(tokens, 0, values, Start)
                == Walk(tokens, p, values, State(formatted, variables, counter, conditions, openConditions))
      decreases |tokens| - p
    {
      var next := TakeToken(tokens, p, values, State(formatted, variables, counter, conditions, openConditions));
      if next.Err? {
        return Err(next.error);
      }
      formatted, variables, counter := next.value.formatted, next.value.variables, next.value.counter;
      conditions, openConditions := next.value.conditions, next.value.openConditions;
      p := p + 1;
    }
    if openConditions != 0 {
      return Err(ConditionFormatError);
    }
    r := Ok([formatted] + variables);
  }

  /** The body of the loop, branch by branch as in the source. */
  method TakeToken(tokens: seq<Token>, pos: nat, values: Value, s: State) returns (r: Result<State, Error>)
    requires pos < |tokens|
    ensures r == Step(tokens, pos, values, s)
  {
    var t := tokens[pos];
    var sat := IsSatisfies(s.conditions);
    if t.kind.TText? && sat {
      ReplacePercent(t.image);
      return Ok(s.(formatted := s.formatted + ReplaceAll(t.image, "%", "%%")));
    }
    if (t.kind.TIf? || t.kind.TElseif?) && ConditionAhead(tokens, pos) {
      r := TakeCondition(tokens, pos, values, s);
      return;
    }
    if t.kind.TEndif? {
      if |s.conditions| == 0 {
        return Err(Unmodelled);
      }
      return Ok(s.(conditions := s.conditions[..|s.conditions| - 1], openConditions := s.openConditions - 1));
    }
    if t.kind.TElse? {
      var n := |s.conditions|;
      if n > 0 {
        return Ok(s.(conditions := s.conditions[..n - 1] + [!s.conditions[n - 1]]));
      }
      return Ok(s);
    }
    if pos > 0 && tokens[pos - 1].kind.TOpen? && sat {
      r := TakePlaceholder(tokens, pos, values, s);
      return Ok(r.value);
    }
    r := Ok(s);
  }

  /** An `if` pushes the value of its condition and counts it open, an
      `elseif` overwrites the top of a non-empty stack. */
  method TakeCondition(tokens: seq<Token>, pos: nat, values: Value, s: State) returns (r: Result<State, Error>)
    requires pos < |tokens| && (tokens[pos].kind.TIf? || tokens[pos].kind.TElseif?) && ConditionAhead(tokens, pos)
    ensures r == Step(tokens, pos, values, s)
  {
    var image := tokens[pos + 2].image;
    var vars := Explode(':', image);
    var found := GetValue(values, vars);
    var value := found.Some? && Truthy(found.value);
    if tokens[pos].kind.TIf? {
      return Ok(s.(conditions := s.conditions + [value], openConditions := s.openConditions + 1));
    }
    if |s.conditions| != 0 {
      return Ok(s.(conditions := s.conditions[..|s.conditions| - 1] + [value]));
    }
    r := Ok(s);
  }

  /** The placeholder branch: choose the key, push the argument, write `%N`
      and the suffix. */
  method TakePlaceholder(tokens: seq<Token>, pos: nat, values: Value, s: State) returns (r: Result<State, Error>)
    requires pos < |tokens|
    ensures r == Ok(Placeholder(tokens, pos, values, s))
  {
    var t := tokens[pos];
    var nextIndex := 2;
    var vars := Explode(':', t.image);
    var counter := s.counter;
    if !t.kind.TVariable? {
      vars := [IntToString(counter)];
      counter := counter + 1;
      nextIndex := 1;
    }
    var variables := s.variables + [GetValueWithKey(values, vars, t.image)];
    var formatted := s.formatted + "%" + IntToString(|variables|);
    if !(pos + nextIndex < |tokens| && tokens[pos + nextIndex].kind.TFormat?) {
      return Ok(s.(formatted := formatted + "$s", variables := variables, counter := counter));
    }
    assert formatted + "$" + tokens[pos + nextIndex].image == formatted + ("$" + tokens[pos + nextIndex].image);
    formatted := formatted + "$" + tokens[pos + nextIndex].image;
    r := Ok(s.(formatted := formatted, variables := variables, counter := counter));
  }

  // What a turn of the loop does.

  /** Shown text is copied with every `%` doubled, so that sprintf prints it
      unchanged; hidden text is dropped. */
  lemma TextStep(tokens: seq<Token>, pos: nat, values: Value, s: State)
    requires pos < |tokens| && tokens[pos].kind.TText?
    ensures IsSatisfies(s.conditions) ==>
              exists d :: Step(tokens, pos, values, s) == Ok(s.(formatted := s.formatted + d))
                          && Printed(d) == tokens[pos].image
    ensures !IsSatisfies(s.conditions) ==> Step(tokens, pos, values, s) == Ok(s)
  {
    if IsSatisfies(s.conditions) {
      var d := DoublePercent(tokens[pos].image);
      PrintedDoubled(tokens[pos].image);
      assert Step(tokens, pos, values, s) == Ok(s.(formatted := s.formatted + d));
    }
  }

  /** With `(`, a condition and `)` ahead, `if` pushes the value of the
      condition and counts it open; `elseif` overwrites the top entry of a
      non-empty stack, whether or not the stack was satisfied, and counts
      nothing. */
  lemma ConditionStep(tokens: seq<Token>, pos: nat, values: Value, s: State)
    requires pos < |tokens| && ConditionAhead(tokens, pos)
    ensures var value := ConditionValue(values, tokens[pos + 2].image);
            var n := |s.conditions|;
            && (tokens[pos].kind.TIf? ==>
                  Step(tokens, pos, values, s)
                  == Ok(s.(conditions := s.conditions + [value], openConditions := s.openConditions + 1)))
            && (tokens[pos].kind.TElseif? && n > 0 ==>
                  Step(tokens, pos, values, s) == Ok(s.(conditions := s.conditions[..n - 1] + [value]))
                  && |s.conditions[..n - 1] + [value]| == n && (s.conditions[..n - 1] + [value])[n - 1] == value)
  {
  }

  /** Without `(`, a condition and `)` right behind it an `if` or `elseif`
      is no statement: it is taken as a placeholder when it follows `{{`
      on a satisfied stack, and changes nothing otherwise. */
  lemma BareConditionWord(tokens: seq<Token>, pos: nat, values: Value, s: State)
    requires pos < |tokens| && (tokens[pos].kind.TIf? || tokens[pos].kind.TElseif?) && !ConditionAhead(tokens, pos)
    ensures Step(tokens, pos, values, s)
            == if pos > 0 && tokens[pos - 1].kind.TOpen? && IsSatisfies(s.conditions)
               then Ok(Placeholder(tokens, pos, values, s)) else Ok(s)
  {
  }

  /** `endif` pops the top entry and counts one condition closed; `else`
      negates the top entry of a non-empty stack and leaves an empty one
      alone. */
  lemma EndifElseStep(tokens: seq<Token>, pos: nat, values: Value, s: State)
    requires pos < |tokens| && |s.conditions| > 0
    ensures var n := |s.conditions|;
            && (tokens[pos].kind.TEndif? ==>
                  Step(tokens, pos, values, s)
                  == Ok(s.(conditions := s.conditions[..n - 1], openConditions := s.openConditions - 1)))
            && (tokens[pos].kind.TElse? ==>
                  exists c :: Step(tokens, pos, values, s) == Ok(s.(conditions := c))
                              && |c| == n && c[..n - 1] == s.conditions[..n - 1] && c[n - 1] == !s.conditions[n - 1])
  {
    var n := |s.conditions|;
    if tokens[pos].kind.TElse? {
      var c := s.conditions[..n - 1] + [!s.conditions[n - 1]];
      assert c[..n - 1] == s.conditions[..n - 1];
      assert Step(tokens, pos, values, s) == Ok(s.(conditions := c));
    }
  }

  /** A placeholder appends exactly one argument and writes `%N` with N the
      new number of arguments, so the N-th placeholder refers to the N-th
      argument. A variable token is looked up by its path and leaves the
      counter alone; any other token is looked up by the counter, written in
      decimal, and advances it. A value that is not found is written back
      as `{{image}}`. */
  lemma PlaceholderStep(tokens: seq<Token>, pos: nat, values: Value, s: State)
    requires pos < |tokens|
    ensures var r := Placeholder(tokens, pos, values, s);
            var t := tokens[pos];
            var vars := if t.kind.TVariable? then Explode(':', t.image) else [IntToString(s.counter)];
            && |r.variables| == |s.variables| + 1 && r.variables[..|s.variables|] == s.variables
            && r.variables[|s.variables|] == (match GetValue(values, vars)
                                              case Some(v) => v
                                              case None => "{{" + t.image + "}}")
            && (exists suffix :: r.formatted == s.formatted + "%" + IntToString(|s.variables| + 1) + suffix
                                 && suffix[0] == '$')
            && r.counter == (if t.kind.TVariable? then s.counter else s.counter + 1)
            && r.conditions == s.conditions && r.openConditions == s.openConditions
  {
    var r := Placeholder(tokens, pos, values, s);
    assert r.variables[..|s.variables|] == s.variables;
    var suffix := Suffix(tokens, pos, if tokens[pos].kind.TVariable? then 2 else 1);
    assert r.formatted == s.formatted + "%" + IntToString(|s.variables| + 1) + suffix;
  }

  /** A key that is missing is written back into the text as it was typed. */
  lemma MissingKeyWrittenBack(entries: map<string, Value>, key: string)
    requires forall i :: 0 <= i < |key| ==> key[i] != ':'
    requires key !in entries
    ensures GetValueWithKey(Arr(entries), Explode(':', key), key) == "{{" + key + "}}"
  {
    ExplodeKey(key);
  }

  // What the whole loop keeps.

  /** The loop invariants of the source: the format string and the argument
      list only grow, the automatic counter never passes the number of
      arguments, and the depth of the stack minus the open-conditions count
      does not change. */
  predicate Grows(s: State, c: State)
  {
    s.formatted <= c.formatted && s.variables <= c.variables
    && (s.counter <= |s.variables| ==> c.counter <= |c.variables|)
    && |c.conditions| - c.openConditions == |s.conditions| - s.openConditions
  }

  lemma StepGrows(tokens: seq<Token>, pos: nat, values: Value, s: State)
    requires pos < |tokens|
    ensures Step(tokens, pos, values, s).Ok? ==> Grows(s, Step(tokens, pos, values, s).value)
  {
    if pos > 0 && tokens[pos - 1].kind.TOpen? && IsSatisfies(s.conditions) {
      PlaceholderStep(tokens, pos, values, s);
    }
  }

  lemma {:induction false} WalkGrows(tokens: seq<Token>, pos: nat, values: Value, s: State)
    requires pos <= |tokens|
    ensures Walk(tokens, pos, values, s).Ok? ==> Grows(s, Walk(tokens, pos, values, s).value)
    decreases |tokens| - pos
  {
    if pos < |tokens| {
      StepGrows(tokens, pos, values, s);
      var c := Step(tokens, pos, values, s);
      if c.Ok? {
        WalkGrows(tokens, pos + 1, values, c.value);
      }
    }
  }

  /** The format string comes first, the arguments after it, at most as many
      automatic keys used as there are arguments, and FormatErrorException
      exactly when an `if` was left without its `endif`. */
  lemma FormatOutcome(tokens: seq<Token>, values: Value)
    ensures var w := Walk(tokens, 0, values, Start);
            && (w.Err? ==> FormatArguments(tokens, values) == Err(w.error))
            && (w.Ok? ==> |w.value.conditions| == w.value.openConditions
                          && w.value.counter <= |w.value.variables|
                          && (FormatArguments(tokens, values) == Err(ConditionFormatError) <==> w.value.conditions != [])
                          && (FormatArguments(tokens, values).Ok? ==>
                                FormatArguments(tokens, values).value == [w.value.formatted] + w.value.variables))
  {
    WalkGrows(tokens, 0, values, Start);
  }
}

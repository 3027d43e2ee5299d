/** The nodes the AST builder produces and how each resolves its value
    against the values of the template: Modifier (src/AST/Modifier.php),
    ConditionPart (src/AST/ConditionPart.php), Variable (src/AST/Variable.php),
    and the plain records Specifier (src/AST/Specifier.php) and Text
    (src/AST/Text.php). The getters of the PHP classes (getKey, getSpecifier,
    getSpecifiers, getName, getModifiers, getText) return what the constructor
    stored; here they are the fields of the datatypes. */
module Nodes {
  import opened Php
  import opened Values
  import opened Paths

  /** A modifier of a specifier: a literal, the values of the template, and
      whether the literal names a path into those values. */
  datatype Modifier = Modifier(value: Literal, values: map<string, Value>, isVariable: bool)

  /** `|name(modifier, ...)` after a variable or a condition part. */
  datatype Specifier = Specifier(name: string, modifiers: seq<Modifier>)

  /** A run of template text. */
  datatype Text = Text(text: string)

  /** A part of a condition: a modifier that also carries specifiers. */
  datatype ConditionPart = ConditionPart(value: Literal, modifierValues: map<string, Value>,
                                         isVariable: bool, specifiers: seq<Specifier>)

  /** A `{{path|specifier}}` placeholder. */
  datatype Variable = Variable(key: string, values: map<string, Value>, specifier: Option<Specifier>)

  /** `format($value, ...$modifiers)` of the specifier registered under a name.
      The registry (`Formatter::getSpecifier`) and the specifiers themselves
      are parameters of the model: `known` says which names are registered. */
  type Format = (string, Value, seq<Value>) -> Result<Value, Failure>

  /** The lookup Modifier and Variable share: the path is split with a plain
      `explode(':')`, so a backslash stays in the key. */
  function PlainLookup(values: map<string, Value>, path: string): (r: Result<Value, Failure>)
    ensures r.Err? ==> r.error == NotFoundKey
  {
    GetValueInternal(Arr(values), Explode(':', path))
  }

  /** Resolving colon-joined keys descends one key per segment. */
  lemma PlainLookupOfJoin(values: map<string, Value>, keys: seq<string>)
    requires |keys| >= 1 && NoPieceHolds(keys, ':')
    ensures PlainLookup(values, Join(keys, ":")) == GetValueInternal(Arr(values), keys)
  {
    ExplodeOfJoin(':', keys);
  }

  /** A path without a colon is one direct lookup. */
  lemma PlainLookupOfKey(values: map<string, Value>, key: string)
    requires forall i :: 0 <= i < |key| ==> key[i] != ':'
    ensures PlainLookup(values, key) == if key in values then Ok(values[key]) else Err(NotFoundKey)
  {
    ExplodeWithoutSeparator(':', key);
  }

  /** Modifier::getValue(): a variable modifier is looked up, any other
      returns its literal; a missing key is not caught. */
  function ModifierValue(m: Modifier): (r: Result<Value, Failure>)
    ensures !m.isVariable ==> r == Ok(LiteralValue(m.value))
    ensures r.Err? ==> m.isVariable && r.error == NotFoundKey
  {
    if m.isVariable then PlainLookup(m.values, LiteralString(m.value))
    else Ok(LiteralValue(m.value))
  }

  /** A variable modifier naming `k1:k2:...` reads the nested entry. */
  lemma ModifierResolvesPath(values: map<string, Value>, keys: seq<string>)
    requires |keys| >= 1 && NoPieceHolds(keys, ':')
    ensures ModifierValue(Modifier(LStr(Join(keys, ":")), values, true))
            == GetValueInternal(Arr(values), keys)
  {
    PlainLookupOfJoin(values, keys);
  }

  /** A variable modifier naming an absent key fails with NotFoundKey; an
      integer literal is looked up under its decimal form. */
  lemma ModifierOfMissingKey(values: map<string, Value>, value: Literal)
    requires value.LStr? || value.LInt?
    requires LiteralString(value) !in values
    requires forall i :: 0 <= i < |LiteralString(value)| ==> LiteralString(value)[i] != ':'
    ensures ModifierValue(Modifier(value, values, true)) == Err(NotFoundKey)
  {
    PlainLookupOfKey(values, LiteralString(value));
  }

  /** The values of a modifier list, left to right; the first failing
      modifier's exception escapes. */
  function ModifierValues(ms: seq<Modifier>): (r: Result<seq<Value>, Failure>)
    ensures r.Ok? <==> forall i :: 0 <= i < |ms| ==> ModifierValue(ms[i]).Ok?
    ensures r.Ok? ==> |r.value| == |ms| && forall i :: 0 <= i < |ms| ==> ModifierValue(ms[i]) == Ok(r.value[i])
    ensures r.Err? ==> r.error == NotFoundKey
    decreases |ms|
  {
    if ms == [] then Ok([])
    else
      var init := ms[..|ms| - 1];
      assert forall i :: 0 <= i < |init| ==> init[i] == ms[i];
      match ModifierValues(init)
      case Err(e) => Err(e)
      case Ok(vs) =>
        match ModifierValue(ms[|ms| - 1])
        case Err(e) => Err(e)
        case Ok(v) => Ok(vs + [v])
  }

  /** The first failure decides: once a prefix fails, the whole list fails
      with the same exception. */
  lemma {:induction false} ModifierValuesFailEarly(ms: seq<Modifier>, j: nat)
    requires j <= |ms| && ModifierValues(ms[..j]).Err?
    ensures ModifierValues(ms) == ModifierValues(ms[..j])
    decreases |ms| - j
  {
    if j < |ms| {
      assert ms[..j + 1][..j] == ms[..j];
      ModifierValuesFailEarly(ms, j + 1);
    } else {
      assert ms[..j] == ms;
    }
  }

  /** The inner foreach of applySpecifier: the modifier values, in order. */
  method CollectArguments(ms: seq<Modifier>) returns (r: Result<seq<Value>, Failure>)
    ensures r == ModifierValues(ms)
  {
    var args: seq<Value> := [];
    var j := 0;
    while j < |ms|
      invariant 0 <= j <= |ms|
      invariant ModifierValues(ms[..j]) == Ok(args)
    {
      assert ms[..j + 1][..j] == ms[..j];
      var v := ModifierValue(ms[j]);
      if v.Err? {
        ModifierValuesFailEarly(ms, j + 1);
        return Err(v.error);
      }
      args := args + [v.value];
      j := j + 1;
    }
    assert ms[..j] == ms;
    return Ok(args);
  }

  /** One specifier applied to a value: unknown names fail before any
      modifier is read; then the value and the modifier values, in declared
      order, are passed to the specifier. */
  function ApplyOne(known: string -> bool, format: Format, value: Value, s: Specifier): Result<Value, Failure>
  {
    if !known(s.name) then Err(UnknownSpecifier(s.name))
    else match ModifierValues(s.modifiers)
      case Err(e) => Err(e)
      case Ok(args) => format(s.name, value, args)
  }

  /** The specifiers applied left to right, each to the previous output. */
  function ApplySpecifiers(known: string -> bool, format: Format, value: Value, specifiers: seq<Specifier>): (r: Result<Value, Failure>)
    ensures specifiers == [] ==> r == Ok(value)
    decreases |specifiers|
  {
    if specifiers == [] then Ok(value)
    else match ApplyOne(known, format, value, specifiers[0])
      case Err(e) => Err(e)
      case Ok(v) => ApplySpecifiers(known, format, v, specifiers[1..])
  }

  /** Applying `a + b` applies `a`, then `b` to its output. */
  lemma {:induction false} ApplySpecifiersConcat(known: string -> bool, format: Format, value: Value,
                                                 a: seq<Specifier>, b: seq<Specifier>)
    ensures ApplySpecifiers(known, format, value, a + b) ==
              match ApplySpecifiers(known, format, value, a)
              case Err(e) => Err(e)
              case Ok(v) => ApplySpecifiers(known, format, v, b)
    decreases |a|
  {
    if a == [] {
      assert a + b == b;
    } else {
      assert (a + b)[0] == a[0];
      assert (a + b)[1..] == a[1..] + b;
      match ApplyOne(known, format, value, a[0]) {
        case Err(_) =>
        case Ok(v) => ApplySpecifiersConcat(known, format, v, a[1..], b);
      }
    }
  }

  /** One turn of the foreach: the prefix result grows by one specifier, and
      a failing specifier decides the whole result. */
  lemma ApplyStep(known: string -> bool, format: Format, value: Value, specifiers: seq<Specifier>,
                  i: nat, current: Value)
    requires i < |specifiers|
    requires ApplySpecifiers(known, format, value, specifiers[..i]) == Ok(current)
    ensures ApplySpecifiers(known, format, value, specifiers[..i + 1])
            == ApplyOne(known, format, current, specifiers[i])
    ensures ApplyOne(known, format, current, specifiers[i]).Err? ==>
              ApplySpecifiers(known, format, value, specifiers) == ApplyOne(known, format, current, specifiers[i])
  {
    var s := specifiers[i];
    assert specifiers[..i + 1] == specifiers[..i] + [s];
    assert specifiers == specifiers[..i + 1] + specifiers[i + 1..];
    ApplySpecifiersConcat(known, format, value, specifiers[..i], [s]);
    assert [s][1..] == [];
    ApplySpecifiersConcat(known, format, value, specifiers[..i + 1], specifiers[i + 1..]);
  }

  /** applySpecifier(): the foreach over the specifiers. */
  method ApplySpecifier(known: string -> bool, format: Format, value: Value, specifiers: seq<Specifier>)
    returns (r: Result<Value, Failure>)
    ensures r == ApplySpecifiers(known, format, value, specifiers)
  {
    var current := value;
    var i := 0;
    while i < |specifiers|
      invariant 0 <= i <= |specifiers|
      invariant ApplySpecifiers(known, format, value, specifiers[..i]) == Ok(current)
    {
      var s := specifiers[i];
      ApplyStep(known, format, value, specifiers, i, current);
      if !known(s.name) {
        return Err(UnknownSpecifier(s.name));
      }
      var args := CollectArguments(s.modifiers);
      if args.Err? {
        return Err(args.error);
      }
      var out := format(s.name, current, args.value);
      if out.Err? {
        return out;
      }
      current := out.value;
      i := i + 1;
    }
    assert specifiers[..i] == specifiers;
    return Ok(current);
  }

  /** `is_numeric($this->value)` for the literal a condition part holds. */
  predicate IsNumericLiteral(l: Literal)
  {
    match l
    case LInt(_) => true
    case LStr(s) => IsNumeric(s)
    case _ => false
  }

  /** A string found by the lookup passes through `htmlspecialchars`
      (given as `escape`); other values pass unchanged. */
  function Escaped(escape: string -> string, v: Value): (r: Value)
    ensures !v.Str? ==> r == v
  {
    if v.Str? then Str(escape(v.s)) else v
  }

  /** ConditionPart::getValue(): a variable part is looked up with the
      escape-aware path splitter and run through its specifiers; a
      NotFoundKey from either falls back to the literal when it is numeric
      and escapes otherwise; other failures escape. */
  function ConditionPartValue(escape: string -> string, known: string -> bool, format: Format,
                              p: ConditionPart): (r: Result<Value, Failure>)
    ensures !p.isVariable ==> r == Ok(LiteralValue(p.value))
    ensures r == Err(NotFoundKey) ==> p.isVariable && !IsNumericLiteral(p.value)
  {
    if !p.isVariable then Ok(LiteralValue(p.value))
    else
      var attempt :=
        match GetValueInternal(Arr(p.modifierValues), PathSegments(LiteralString(p.value)))
        case Err(e) => Err(e)
        case Ok(v) => ApplySpecifiers(known, format, Escaped(escape, v), p.specifiers);
      if attempt == Err(NotFoundKey) && IsNumericLiteral(p.value) then Ok(LiteralValue(p.value))
      else attempt
  }

  /** A found key without specifiers gives the (escaped) entry. */
  lemma ConditionPartOfKey(escape: string -> string, known: string -> bool, format: Format,
                           key: string, values: map<string, Value>)
    requires PlainKey(key) && key in values
    ensures ConditionPartValue(escape, known, format, ConditionPart(LStr(key), values, true, []))
            == Ok(Escaped(escape, values[key]))
  {
    PathSegmentsOfKey(key);
  }

  /** A missing key gives the literal back when it is numeric and fails with
      NotFoundKey otherwise, whatever the specifiers. */
  lemma ConditionPartOfMissingKey(escape: string -> string, known: string -> bool, format: Format,
                                  key: string, values: map<string, Value>, specifiers: seq<Specifier>)
    requires PlainKey(key) && key !in values
    ensures ConditionPartValue(escape, known, format, ConditionPart(LStr(key), values, true, specifiers))
            == if IsNumeric(key) then Ok(Str(key)) else Err(NotFoundKey)
  {
    PathSegmentsOfKey(key);
  }

  /** An integer part (castValue keeps int-like words variable) never fails
      with NotFoundKey: an unknown key gives the integer itself. */
  lemma ConditionPartOfInteger(escape: string -> string, known: string -> bool, format: Format,
                               n: int, values: map<string, Value>, specifiers: seq<Specifier>)
    ensures ConditionPartValue(escape, known, format, ConditionPart(LInt(n), values, true, specifiers))
            != Err(NotFoundKey)
  {
  }

  /** Variable::getValue() splits its key with the plain explode. */
  function VariableValue(x: Variable): (r: Result<Value, Failure>)
    ensures r.Err? ==> r.error == NotFoundKey
  {
    PlainLookup(x.values, x.key)
  }

  /** A variable naming `k1:k2:...` reads the nested entry, and fails with
      NotFoundKey exactly where the descent does. */
  lemma VariableResolvesPath(values: map<string, Value>, keys: seq<string>, specifier: Option<Specifier>)
    requires |keys| >= 1 && NoPieceHolds(keys, ':')
    ensures VariableValue(Variable(Join(keys, ":"), values, specifier)) == GetValueInternal(Arr(values), keys)
  {
    PlainLookupOfJoin(values, keys);
  }

  /** Variable and ConditionPart read `a\:b` differently: the variable looks
      for `a\` then `b`, the condition part for the single key `a:b`. */
  lemma EscapedColonSplitsOnlyInConditions(escape: string -> string, known: string -> bool, format: Format,
                                           a: string, b: string, values: map<string, Value>)
    requires PlainKey(a) && PlainKey(b)
    requires a + ":" + b in values
    ensures VariableValue(Variable(a + "\\:" + b, values, None))
            == GetValueInternal(Arr(values), [a + "\\", b])
    ensures ConditionPartValue(escape, known, format, ConditionPart(LStr(a + "\\:" + b), values, true, []))
            == Ok(Escaped(escape, values[a + ":" + b]))
  {
    var x := a + "\\";
    assert forall i :: 0 <= i < |x| ==> x[i] != ':';
    assert forall i :: 0 <= i < |b| ==> b[i] != ':';
    assert a + "\\:" + b == x + [':'] + b;
    ExplodeConcat(':', x, b);
    ExplodeWithoutSeparator(':', x);
    ExplodeWithoutSeparator(':', b);
    PathSegmentsEscapedColon(a, b);
  }
}

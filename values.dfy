/** Values substituted into templates and the two helpers every node uses to
    reach them: the colon path splitter and the recursive lookup
    (src/AST/ValueTrait.php, with its older copy src/AST/TValue.php), plus the
    rendering of a value as a string. */
module Values {
  import opened Php

  /** A PHP value as the library can meet it. Array keys are strings: PHP stores
      a key that is a canonical decimal integer as that integer, and looks it
      up again from the same decimal string, so the string stands for both. */
  datatype Value =
    | Null
    | Bool(b: bool)
    | Int(i: int)
    | Str(s: string)
    | Arr(entries: map<string, Value>)
    | ArrayObject(storage: map<string, Value>)
    | Object(className: string, props: map<string, Value>, toString: Option<string>)

  /** The literal a token turns into (see castValue in src/AST/AST.php). */
  datatype Literal = LNull | LBool(b: bool) | LInt(i: int) | LStr(s: string)

  function LiteralValue(l: Literal): (v: Value)
    ensures v.Null? || v.Bool? || v.Int? || v.Str?
  {
    match l
    case LNull => Null
    case LBool(b) => Bool(b)
    case LInt(i) => Int(i)
    case LStr(s) => Str(s)
  }

  /** `(string) $literal`. */
  function LiteralString(l: Literal): string
  {
    match l
    case LNull => ""
    case LBool(b) => if b then "1" else ""
    case LInt(i) => IntToString(i)
    case LStr(s) => s
  }

  /** The exceptions a lookup or a specifier can raise: NotFoundKey, the
      SpecifierNotFoundException of the specifier registry, and whatever a
      specifier's own format() throws. */
  datatype Failure = NotFoundKey | UnknownSpecifier(name: string) | SpecifierError(message: string)

  /** One step of the lookup: the entry `key` of an array, of an ArrayObject's
      storage or of an object's properties; nothing for any other value. */
  function Child(values: Value, key: string): Option<Value>
  {
    match values
    case Arr(m) => if key in m then Some(m[key]) else None
    case ArrayObject(m) => if key in m then Some(m[key]) else None
    case Object(_, props, _) => if key in props then Some(props[key]) else None
    case _ => None
  }

  /** `getValueInternal($values, $vars)`: take the first segment as the key,
      fail with NotFoundKey when the value is no container or lacks the key,
      descend while segments remain. Every caller passes the result of
      `explode` or `explodePath`, which has at least one segment. */
  function GetValueInternal(values: Value, vars: seq<string>): (r: Result<Value, Failure>)
    requires |vars| >= 1
    ensures r.Err? ==> r.error == NotFoundKey
    ensures |vars| == 1 ==> r == match Child(values, vars[0])
                                 case Some(v) => Ok(v)
                                 case None => Err(NotFoundKey)
    decreases |vars|
  {
    match Child(values, vars[0])
    case None => Err(NotFoundKey)
    case Some(v) => if |vars| > 1 then GetValueInternal(v, vars[1..]) else Ok(v)
  }

  /** Lookup descends one segment at a time: resolving `p + q` is resolving `q`
      from wherever `p` leads, and fails if `p` already fails. */
  lemma {:induction false} GetValueInternalConcat(values: Value, p: seq<string>, q: seq<string>)
    requires |p| >= 1 && |q| >= 1
    ensures GetValueInternal(values, p + q) ==
              match GetValueInternal(values, p)
              case Ok(v) => GetValueInternal(v, q)
              case Err(e) => Err(e)
    decreases |p|
  {
    assert (p + q)[0] == p[0];
    match Child(values, p[0])
    case None =>
    case Some(v) =>
      if |p| > 1 {
        assert (p + q)[1..] == p[1..] + q;
        GetValueInternalConcat(v, p[1..], q);
      } else {
        assert (p + q)[1..] == q;
      }
  }

  /** A scalar or null has no entries, whatever the path. */
  lemma GetValueInternalOfScalar(values: Value, vars: seq<string>)
    requires values.Null? || values.Bool? || values.Int? || values.Str?
    requires |vars| >= 1
    ensures GetValueInternal(values, vars) == Err(NotFoundKey)
  {
  }

  /** `convert($value)`: how a value is rendered into the output. */
  function Convert(v: Value): (r: string)
    ensures v.Bool? ==> r == (if v.b then "true" else "false")
    ensures v.Null? ==> r == "null"
    ensures v.Arr? ==> r == "array"
    ensures v.Int? ==> r == IntToString(v.i)
    ensures v.Str? ==> r == v.s
  {
    match v
    case Bool(b) => if b then "true" else "false"
    case Null => "null"
    case Arr(_) => "array"
    case ArrayObject(_) => "ArrayObject"
    case Object(cls, _, toString) => if toString.None? then cls else toString.value
    case Int(i) => if i == 0 then "0" else IntToString(i)
    case Str(s) => s
  }

  /** Every value but a string or a stringable object renders as a non-empty
      word, truthy unless it is the integer 0; in particular false renders as
      the truthy string "false". */
  lemma ConvertIsWord(v: Value)
    requires !v.Str? && !(v.Object? && v.toString.Some?)
    requires v.Object? ==> Truthy(v.className)
    ensures Convert(v) != ""
    ensures !(v.Int? && v.i == 0) ==> Truthy(Convert(v))
  {
    if v.Int? {
      var m: nat := if v.i < 0 then -v.i else v.i;
      NatToStringIsCanonical(m);
      if v.i > 0 {
        assert NatToString(m)[0] != '0';
      } else if v.i < 0 {
        assert IntToString(v.i)[0] == '-';
      }
    }
  }
}

/** The template builder src/AST/AST.php: it drives the tokenizer over a
    template and turns the tokens into text and variable nodes, keeping the
    balance of `{{`/`}}`, the automatic argument counter, the number of open
    conditions and the condition stack on the way.

    The token cursor of the tokenizer base class (`next`, `lookAtNextType`,
    `lookAtPrevType`, `lookAtPrevImage`) is an index into the token list:
    `next()` reads the token at the index and moves past it, and gives T_EOF
    (None) once the list is exhausted. */
module Ast {
  import opened Php
  import opened Tokens
  import opened Values
  import opened Nodes
  import opened Conditions
  import opened Counters
  import Scanner
  import Tokenizing
  import ScanFacts

  /** The FormatErrorException messages of the builder, one per exit. */
  datatype Reason =
    | ClosedStatements
    | OpenedStatements
    | ConditionsError
    | SpecifierNotSet
    | SpecifierSyntaxError
    | QuoteSyntaxError
    | CommaSeparatorSyntaxError
    | ConditionSyntaxError
    | NoOpenParentheses
    | NoCloseParentheses
    | EmptyCondition

  /** How a build stops: a FormatErrorException, a failure of a specifier
      raised while a condition part is evaluated, or a Collection operation
      on an empty condition stack, whose outcome the library does not fix. */
  datatype Error = FormatError(reason: Reason) | ValueError(failure: Failure) | Unmodelled

  /** The nodes of the tree. A variable node keeps the list of specifiers
      the builder collected after it. */
  datatype Node =
    | TextNode(text: Text)
    | VariableNode(key: string, values: map<string, Value>, specifiers: seq<Specifier>)

  /** What the constructor receives besides the template, and the calls into
      code outside the model: `Safe::unescape` for text, the escaping of
      condition values (htmlspecialchars when `$escape` is set, the identity
      otherwise), `var_export`, the evaluation of the finished condition
      (`expression()`), and the specifier registry. */
  datatype Env = Env(
    values: map<string, Value>,
    modifierValues: map<string, Value>,
    unescape: string -> string,
    escape: string -> string,
    exported: Value -> string,
    eval: string -> bool,
    known: string -> bool,
    format: Format)

  // ---------------------------------------------------------------------
  // The token cursor.

  /** A token read (None for T_EOF) and the index after it. */
  datatype At = At(token: Option<Token>, pos: nat)

  function Next(tokens: seq<Token>, pos: nat): (r: At)
    requires pos <= |tokens|
    ensures r.pos <= |tokens|
    ensures r.token.Some? <==> pos < |tokens|
    ensures r.token.Some? ==> r.token.value == tokens[pos] && r.pos == pos + 1
    ensures r.token.None? ==> r.pos == pos
  {
    if pos < |tokens| then At(Some(tokens[pos]), pos + 1) else At(None, pos)
  }

  /** A whitespace token just read gives way to the token after it. */
  function SkipWhitespace(tokens: seq<Token>, a: At): (r: At)
    requires a.pos <= |tokens|
    ensures a.pos <= r.pos <= |tokens|
  {
    if a.token.Some? && a.token.value.kind.TWhitespace? then Next(tokens, a.pos) else a
  }

  // ---------------------------------------------------------------------
  // castValue.

  /** castValue(): the literal a token stands for, and whether it still
      names a path. Both callers start from the token's image and
      isVariable = true. */
  function CastValue(kind: Kind, value: string, isQuote: bool, isSingle: bool): (r: (Literal, bool))
  {
    if kind.TTrue? then (LBool(true), false)
    else if kind.TFalse? then (LBool(false), false)
    else if kind.TNull? then (LNull, false)
    else if isQuote then (LStr(ReplaceAll(value, "\\\"", "\"")), false)
    else if isSingle then (LStr(ReplaceAll(value, "\\'", "'")), false)
    else match FilterInt(value)
      case Some(n) => (LInt(n), true)
      case None => (LStr(value), true)
  }

  /** The outcomes of castValue: true/false/null and quoted images are
      literals, everything else still names a path; an integer image becomes
      the integer, any other image stays the string. */
  lemma CastValueOutcomes(kind: Kind, value: string, isQuote: bool, isSingle: bool)
    ensures var r := CastValue(kind, value, isQuote, isSingle);
            (!r.1 <==> (kind.TTrue? || kind.TFalse? || kind.TNull? || isQuote || isSingle))
            && (kind.TTrue? ==> r.0 == LBool(true))
            && (kind.TFalse? ==> r.0 == LBool(false))
            && (kind.TNull? ==> r.0 == LNull)
            && (r.1 ==> (r.0.LInt? <==> FilterInt(value).Some?))
            && (r.1 && r.0.LInt? ==> r.0.i == FilterInt(value).value && InInt64(r.0.i))
            && (r.1 && !r.0.LInt? ==> r.0 == LStr(value))
            && (!r.1 && (isQuote || isSingle) && !kind.TTrue? && !kind.TFalse? && !kind.TNull? ==> r.0.LStr?)
  {
  }

  /** An unquoted image that spells a 64-bit integer becomes that integer,
      and stays a path. */
  lemma CastIntegerImage(kind: Kind, n: int)
    requires !kind.TTrue? && !kind.TFalse? && !kind.TNull? && InInt64(n)
    ensures CastValue(kind, IntToString(n), false, false) == (LInt(n), true)
  {
    FilterIntOfIntToString(n);
  }

  /** A quoted image without backslashes is taken as it is. */
  lemma CastQuotedPlain(kind: Kind, value: string, isSingle: bool)
    requires !kind.TTrue? && !kind.TFalse? && !kind.TNull?
    requires forall i :: 0 <= i < |value| ==> value[i] != '\\'
    ensures CastValue(kind, value, true, isSingle) == (LStr(value), false)
  {
    forall i: nat ensures !OccursAt(value, "\\\"", i) {
      if i + 2 <= |value| {
        assert value[i..i + 2][0] == value[i];
      }
    }
    ReplaceAllWithoutOccurrence(value, "\\\"", "\"");
  }

  /** A quoted value comes back unescaped: the image of a value written
      between double quotes with its double quotes escaped gives the text
      itself, and likewise for single quotes; nothing else is touched. */
  lemma CastQuotedEscaped(kind: Kind, text: string, isSingle: bool)
    requires !kind.TTrue? && !kind.TFalse? && !kind.TNull?
    ensures CastValue(kind, EscapeQuote(text, '"'), true, isSingle) == (LStr(text), false)
    ensures CastValue(kind, EscapeQuote(text, '\''), false, true) == (LStr(text), false)
  {
    ReplaceAllUndoesEscape(text, '"');
    ReplaceAllUndoesEscape(text, '\'');
  }

  // ---------------------------------------------------------------------
  // specifier(): `|name`, then an optional `(modifier, ...)` list.
  //
  // The do-while over the modifiers is the cluster ModifierList (a pass
  // starts: whitespace, the empty list `()`), ModifierAt (the value, maybe
  // between quotes) and ModifierEnd (the closing quote, then `,` for
  // another pass or `)` for the last).

  /** The specifier `name` whose modifier loop starts a pass at `pos`,
      after the modifiers `done` of the passes before. */
  function ModifierList(tokens: seq<Token>, pos: nat, mv: map<string, Value>, name: string, done: seq<Modifier>)
    : (r: Result<(Specifier, nat), Error>)
    requires pos <= |tokens|
    ensures r.Ok? ==> pos < r.value.1 <= |tokens|
    decreases |tokens| - pos, 0
  {
    var a := SkipWhitespace(tokens, Next(tokens, pos));
    if a.token.None? then Err(FormatError(SpecifierNotSet))
    else if (a.token.Some? && a.token.value.kind.TCloseParentheses?) && |done| == 0 then Ok((Specifier(name, []), a.pos))
    else ModifierAt(tokens, a, mv, name, done)
  }

  predicate IsModifierKind(kind: Kind)
  {
    kind.TModifier? || kind.TTrue? || kind.TFalse? || kind.TNull? || kind.TQuote? || kind.TCloseParentheses?
  }

  /** A pass from the first token `a` of its modifier on. */
  function ModifierAt(tokens: seq<Token>, a: At, mv: map<string, Value>, name: string, done: seq<Modifier>)
    : (r: Result<(Specifier, nat), Error>)
    requires a.pos <= |tokens| && a.token.Some?
    ensures r.Ok? ==> a.pos <= r.value.1 <= |tokens|
    decreases |tokens| - a.pos, 2
  {
    var isQuote := (a.token.Some? && a.token.value.kind.TQuote?) && a.token.value.image == "\"";
    var isSingle := (a.token.Some? && a.token.value.kind.TQuote?) && a.token.value.image == "'";
    var b := if a.token.Some? && a.token.value.kind.TQuote? then Next(tokens, a.pos) else a;
    if b.token.None? then Err(FormatError(SpecifierNotSet))
    else if !IsModifierKind(b.token.value.kind) then Err(FormatError(SpecifierSyntaxError))
    else
      var t := b.token.value;
      var c := if !t.kind.TQuote? then Next(tokens, b.pos) else b;
      ModifierEnd(tokens, c, t, isQuote, isSingle, mv, name, done)
  }

  /** The modifier castValue() makes of the value token `t`. */
  function MakeModifier(t: Token, isQuote: bool, isSingle: bool, mv: map<string, Value>): Modifier
  {
    var cast := CastValue(t.kind, if t.kind.TQuote? then "" else t.image, isQuote, isSingle);
    Modifier(cast.0, mv, cast.1)
  }

  /** The end of a pass, from the token `c` after the value token `t`. */
  function ModifierEnd(tokens: seq<Token>, c: At, t: Token, isQuote: bool, isSingle: bool, mv: map<string, Value>,
                       name: string, done: seq<Modifier>): (r: Result<(Specifier, nat), Error>)
    requires c.pos <= |tokens|
    ensures r.Ok? ==> c.pos <= r.value.1 <= |tokens|
    decreases |tokens| - c.pos, 1
  {
    if c.token.None? || (isQuote && c.token.value.image != "\"") || (isSingle && c.token.value.image != "'") then
      Err(FormatError(QuoteSyntaxError))
    else
      var e := AfterClose(tokens, c);
      if e.token.None? then Err(FormatError(SpecifierNotSet))
      else if e.token.Some? && e.token.value.kind.TCloseParentheses? then Ok((Specifier(name, done + [MakeModifier(t, isQuote, isSingle, mv)]), e.pos))
      else if !(e.token.Some? && e.token.value.kind.TCommaSeparator?) then Err(FormatError(CommaSeparatorSyntaxError))
      else ModifierList(tokens, e.pos, mv, name, done + [MakeModifier(t, isQuote, isSingle, mv)])
  }

  /** The token the end of a pass looks at, from the token `c` after the
      value: a closing quote and then one whitespace token are passed over. */
  function AfterClose(tokens: seq<Token>, c: At): (r: At)
    requires c.pos <= |tokens|
    ensures c.pos <= r.pos <= |tokens|
  {
    SkipWhitespace(tokens, if c.token.Some? && c.token.value.kind.TQuote? then Next(tokens, c.pos) else c)
  }

  /** specifier(), called just after a `|`: the name (a whitespace token may
      come first), then the modifier list when `(` follows. */
  function SpecifierAt(tokens: seq<Token>, pos: nat, mv: map<string, Value>): (r: Result<(Specifier, nat), Error>)
    requires pos <= |tokens|
    ensures r.Ok? ==> pos < r.value.1 <= |tokens|
  {
    var a := SkipWhitespace(tokens, Next(tokens, pos));
    if !(a.token.Some? && a.token.value.kind.TSpecifier?) then Err(FormatError(SpecifierNotSet))
    else SpecifierNamed(tokens, a.pos, mv, a.token.value.image)
  }

  /** The rest of specifier() once its name is read, up to `pos`. */
  function SpecifierNamed(tokens: seq<Token>, pos: nat, mv: map<string, Value>, name: string)
    : (r: Result<(Specifier, nat), Error>)
    requires pos <= |tokens|
    ensures r.Ok? ==> pos <= r.value.1 <= |tokens|
  {
    if !(pos < |tokens| && tokens[pos].kind.TOpenParentheses?) then Ok((Specifier(name, []), pos))
    else ModifierList(tokens, pos + 1, mv, name, [])
  }

  /** The loop `while lookAtNextType() === T_SEPARATOR` that collects the
      specifiers after a variable or a condition part. */
  function Specifiers(tokens: seq<Token>, pos: nat, mv: map<string, Value>, done: seq<Specifier>)
    : (r: Result<(seq<Specifier>, nat), Error>)
    requires pos <= |tokens|
    ensures r.Ok? ==> pos <= r.value.1 <= |tokens|
    decreases |tokens| - pos
  {
    if !(pos < |tokens| && tokens[pos].kind.TSeparator?) then Ok((done, pos))
    else match SpecifierAt(tokens, pos + 1, mv)
      case Err(e) => Err(e)
      case Ok(s) => Specifiers(tokens, s.1, mv, done + [s.0])
  }

  /** What one pass of the modifier loop leaves: the modifier read (none
      when the list closes at once), whether a comma asks for another pass,
      and the cursor. */
  datatype ModifierPass = ModifierPass(modifier: Option<Modifier>, more: bool, pos: nat)

  /** The rest of the modifier loop once a pass has given `pass`. */
  function AfterPass(tokens: seq<Token>, pass: Result<ModifierPass, Error>, mv: map<string, Value>,
                     name: string, done: seq<Modifier>): Result<(Specifier, nat), Error>
    requires pass.Ok? ==> pass.value.pos <= |tokens|
  {
    match pass
    case Err(e) => Err(e)
    case Ok(ModifierPass(m, more, p)) =>
      var done' := if m.Some? then done + [m.value] else done;
      if more then ModifierList(tokens, p, mv, name, done') else Ok((Specifier(name, done'), p))
  }

  // The exits of a pass, read off the token list by index. This is the
  // reference the cursor-based functions above are checked against: a pass
  // fails exactly where PassError names a reason, and with that reason.

  /** The index reached from `k` once the one whitespace token the loop
      skips there is passed. */
  function SpaceSkipped(tokens: seq<Token>, k: nat): (j: nat)
    requires k <= |tokens|
    ensures k <= j <= |tokens|
  {
    if k < |tokens| && tokens[k].kind.TWhitespace? then k + 1 else k
  }

  /** After the value, from index `m` on (a closing quote already passed):
      the end of input is "specifier not set", and anything but `)` or `,`
      is a comma separator error. */
  function SeparatorError(tokens: seq<Token>, m: nat): Option<Reason>
    requires m <= |tokens|
  {
    var j := SpaceSkipped(tokens, m);
    if j == |tokens| then Some(SpecifierNotSet)
    else if tokens[j].kind.TCloseParentheses? || tokens[j].kind.TCommaSeparator? then None
    else Some(CommaSeparatorSyntaxError)
  }

  /** The token at index `i` ends a value opened by the quote `q` ("" for
      none): the end of input, or a different quote when `q` is one, is a
      quote syntax error. */
  function CloseError(tokens: seq<Token>, i: nat, q: string): Option<Reason>
    requires i <= |tokens|
  {
    if i == |tokens| then Some(QuoteSyntaxError)
    else if (q == "\"" || q == "'") && tokens[i].image != q then Some(QuoteSyntaxError)
    else SeparatorError(tokens, if tokens[i].kind.TQuote? then i + 1 else i)
  }

  /** The error a pass of the modifier loop starting at index `pos` ends
      with, or None when the pass succeeds; `first` says no modifier was read
      before, so that `)` closes an empty list. */
  function PassError(tokens: seq<Token>, pos: nat, first: bool): Option<Reason>
    requires pos <= |tokens|
  {
    var k := SpaceSkipped(tokens, pos);
    if k == |tokens| then Some(SpecifierNotSet)
    else if tokens[k].kind.TCloseParentheses? && first then None
    else ValueExit(tokens, k)
  }

  /** The error of a pass whose value starts at index `k`, maybe with an
      opening quote. */
  function ValueExit(tokens: seq<Token>, k: nat): Option<Reason>
    requires k < |tokens|
  {
    if tokens[k].kind.TQuote? then
      if k + 1 == |tokens| then Some(SpecifierNotSet)
      else if !IsModifierKind(tokens[k + 1].kind) then Some(SpecifierSyntaxError)
      else CloseError(tokens, if tokens[k + 1].kind.TQuote? then k + 1 else k + 2, tokens[k].image)
    else if !IsModifierKind(tokens[k].kind) then Some(SpecifierSyntaxError)
    else CloseError(tokens, k + 1, "")
  }

  /** The cursor-based end of a pass agrees with CloseError, for the token
      `c` read at index `i` after a value opened by the quote `q`. */
  lemma CloseErrorAt(tokens: seq<Token>, c: At, i: nat, q: string, isQuote: bool, isSingle: bool)
    requires i <= |tokens| && c.pos <= |tokens|
    requires c.token.Some? <==> i < |tokens|
    requires c.token.Some? ==> c.token.value == tokens[i] && c.pos == i + 1
    requires isQuote <==> q == "\""
    requires isSingle <==> q == "'"
    ensures var closed := c.token.Some? && !(isQuote && c.token.value.image != "\"") && !(isSingle && c.token.value.image != "'");
            var e := AfterClose(tokens, c);
            var x := CloseError(tokens, i, q);
            && (x == Some(QuoteSyntaxError) <==> !closed)
            && (x == Some(SpecifierNotSet) <==> closed && e.token.None?)
            && (x == Some(CommaSeparatorSyntaxError) <==>
                  closed && e.token.Some? && !e.token.value.kind.TCloseParentheses? && !e.token.value.kind.TCommaSeparator?)
            && (x.None? <==> closed && e.token.Some? && (e.token.value.kind.TCloseParentheses? || e.token.value.kind.TCommaSeparator?))
  {
  }

  /** One pass of the do-while of specifier(), as written. */
  method ReadModifier(tokens: seq<Token>, pos: nat, mv: map<string, Value>, name: string, done: seq<Modifier>)
    returns (r: Result<ModifierPass, Error>)
    requires pos <= |tokens|
    ensures r.Ok? ==> pos < r.value.pos <= |tokens|
    ensures r.Err? <==> PassError(tokens, pos, |done| == 0).Some?
    ensures r.Err? ==> r.error == FormatError(PassError(tokens, pos, |done| == 0).value)
    ensures ModifierList(tokens, pos, mv, name, done) == AfterPass(tokens, r, mv, name, done)
  {
    var a := Next(tokens, pos);
    if a.token.None? {
      return Err(FormatError(SpecifierNotSet));
    }
    if a.token.Some? && a.token.value.kind.TWhitespace? {
      a := Next(tokens, a.pos);
      if a.token.None? {
        return Err(FormatError(SpecifierNotSet));
      }
    }
    if (a.token.Some? && a.token.value.kind.TCloseParentheses?) && |done| == 0 {
      return Ok(ModifierPass(None, false, a.pos));
    }
    assert ModifierList(tokens, pos, mv, name, done) == ModifierAt(tokens, a, mv, name, done);
    assert a.pos == SpaceSkipped(tokens, pos) + 1;
    r := ReadValue(tokens, a, mv, name, done);
  }

  /** The rest of a pass, from the token `a` its value starts with. */
  method ReadValue(tokens: seq<Token>, a: At, mv: map<string, Value>, name: string, done: seq<Modifier>)
    returns (r: Result<ModifierPass, Error>)
    requires 1 <= a.pos <= |tokens| && a.token == Some(tokens[a.pos - 1])
    ensures r.Ok? ==> a.pos <= r.value.pos <= |tokens|
    ensures r.Err? <==> ValueExit(tokens, a.pos - 1).Some?
    ensures r.Err? ==> r.error == FormatError(ValueExit(tokens, a.pos - 1).value)
    ensures ModifierAt(tokens, a, mv, name, done) == AfterPass(tokens, r, mv, name, done)
  {
    var isQuote := (a.token.Some? && a.token.value.kind.TQuote?) && a.token.value.image == "\"";
    var isSingle := (a.token.Some? && a.token.value.kind.TQuote?) && a.token.value.image == "'";
    var b := a;
    if a.token.Some? && a.token.value.kind.TQuote? {
      b := Next(tokens, a.pos);
      if b.token.None? {
        return Err(FormatError(SpecifierNotSet));
      }
    }
    var t := b.token.value;
    if !IsModifierKind(t.kind) {
      return Err(FormatError(SpecifierSyntaxError));
    }
    var c := b;
    if !t.kind.TQuote? {
      c := Next(tokens, b.pos);
    }
    assert ModifierAt(tokens, a, mv, name, done) == ModifierEnd(tokens, c, t, isQuote, isSingle, mv, name, done);
    CloseErrorAt(tokens, c, if t.kind.TQuote? then b.pos - 1 else b.pos,
                 if a.token.value.kind.TQuote? then a.token.value.image else "", isQuote, isSingle);
    r := ReadModifierEnd(tokens, c, t, isQuote, isSingle, mv, name, done);
  }

  /** The end of a pass of the do-while of specifier(), as written. */
  method ReadModifierEnd(tokens: seq<Token>, c: At, t: Token, isQuote: bool, isSingle: bool, mv: map<string, Value>,
                         name: string, done: seq<Modifier>) returns (r: Result<ModifierPass, Error>)
    requires c.pos <= |tokens|
    ensures var closed := c.token.Some? && !(isQuote && c.token.value.image != "\"") && !(isSingle && c.token.value.image != "'");
            var e := AfterClose(tokens, c);
            && (r == Err(FormatError(QuoteSyntaxError)) <==> !closed)
            && (r == Err(FormatError(SpecifierNotSet)) <==> closed && e.token.None?)
            && (r == Err(FormatError(CommaSeparatorSyntaxError)) <==>
                  closed && e.token.Some? && !e.token.value.kind.TCloseParentheses? && !e.token.value.kind.TCommaSeparator?)
            && (r.Ok? <==> closed && e.token.Some? && (e.token.value.kind.TCloseParentheses? || e.token.value.kind.TCommaSeparator?))
            && (r.Ok? ==> r.value == ModifierPass(Some(MakeModifier(t, isQuote, isSingle, mv)),
                                                  e.token.value.kind.TCommaSeparator?, e.pos))
    ensures r.Ok? ==> c.pos <= r.value.pos <= |tokens|
    ensures ModifierEnd(tokens, c, t, isQuote, isSingle, mv, name, done) == AfterPass(tokens, r, mv, name, done)
  {
    if c.token.None? || (isQuote && c.token.value.image != "\"") || (isSingle && c.token.value.image != "'") {
      return Err(FormatError(QuoteSyntaxError));
    }
    var e := c;
    if e.token.Some? && e.token.value.kind.TQuote? {
      e := Next(tokens, e.pos);
      if e.token.None? {
        return Err(FormatError(SpecifierNotSet));
      }
    }
    if e.token.Some? && e.token.value.kind.TWhitespace? {
      e := Next(tokens, e.pos);
      if e.token.None? {
        return Err(FormatError(SpecifierNotSet));
      }
    }
    var loop := !(e.token.Some? && e.token.value.kind.TCloseParentheses?);
    if loop && !(e.token.Some? && e.token.value.kind.TCommaSeparator?) {
      return Err(FormatError(CommaSeparatorSyntaxError));
    }
    var value := if t.kind.TQuote? then "" else t.image;
    var cast := CastValue(t.kind, value, isQuote, isSingle);
    return Ok(ModifierPass(Some(Modifier(cast.0, mv, cast.1)), loop, e.pos));
  }

  /** The do-while over the modifiers of specifier(), from just after `(`. */
  method ParseModifiers(tokens: seq<Token>, pos: nat, mv: map<string, Value>, name: string)
    returns (r: Result<(Specifier, nat), Error>)
    requires pos <= |tokens|
    ensures r == ModifierList(tokens, pos, mv, name, [])
    ensures PassError(tokens, pos, true).Some? ==> r == Err(FormatError(PassError(tokens, pos, true).value))
    ensures r.Err? ==> r.error.FormatError?
  {
    var modifiers: seq<Modifier> := [];
    var p: nat := pos;
    while true
      invariant p <= |tokens|
      invariant ModifierList(tokens, pos, mv, name, []) == ModifierList(tokens, p, mv, name, modifiers)
      invariant (p == pos && modifiers == []) || PassError(tokens, pos, true).None?
      decreases |tokens| - p
    {
      var pass := ReadModifier(tokens, p, mv, name, modifiers);
      if pass.Err? {
        return Err(pass.error);
      }
      if pass.value.modifier.Some? {
        modifiers := modifiers + [pass.value.modifier.value];
      }
      if !pass.value.more {
        return Ok((Specifier(name, modifiers), pass.value.pos));
      }
      p := pass.value.pos;
    }
  }

  /** specifier() as written: the name, then the modifiers when `(` follows. */
  method ParseSpecifier(tokens: seq<Token>, pos: nat, mv: map<string, Value>) returns (r: Result<(Specifier, nat), Error>)
    requires pos <= |tokens|
    ensures r == SpecifierAt(tokens, pos, mv)
  {
    var a := SkipWhitespace(tokens, Next(tokens, pos));
    if !(a.token.Some? && a.token.value.kind.TSpecifier?) {
      return Err(FormatError(SpecifierNotSet));
    }
    r := ParseNamedSpecifier(tokens, a.pos, mv, a.token.value.image);
  }

  /** specifier() after the name: the modifiers when `(` follows. */
  method ParseNamedSpecifier(tokens: seq<Token>, pos: nat, mv: map<string, Value>, name: string)
    returns (r: Result<(Specifier, nat), Error>)
    requires pos <= |tokens|
    ensures r == SpecifierNamed(tokens, pos, mv, name)
  {
    if !(pos < |tokens| && tokens[pos].kind.TOpenParentheses?) {
      return Ok((Specifier(name, []), pos));
    }
    r := ParseModifiers(tokens, pos + 1, mv, name);
  }

  /** The specifier loop after a variable or a condition part. */
  method ParseSpecifiers(tokens: seq<Token>, pos: nat, mv: map<string, Value>) returns (r: Result<(seq<Specifier>, nat), Error>)
    requires pos <= |tokens|
    ensures r == Specifiers(tokens, pos, mv, [])
  {
    var specifiers: seq<Specifier> := [];
    var p: nat := pos;
    while p < |tokens| && tokens[p].kind.TSeparator?
      invariant p <= |tokens|
      invariant Specifiers(tokens, pos, mv, []) == Specifiers(tokens, p, mv, specifiers)
      decreases |tokens| - p
    {
      var s := ParseSpecifier(tokens, p + 1, mv);
      if s.Err? {
        return Err(s.error);
      }
      specifiers := specifiers + [s.value.0];
      p := s.value.1;
    }
    return Ok((specifiers, p));
  }

  // ---------------------------------------------------------------------
  // condition(): `if`/`elseif`, `(`, the condition text, `)`.
  //
  // The do-while over the condition is the cluster ConditionText (one
  // token) and PartText (a condition part with its specifiers).

  predicate IsPart(kind: Kind)
  {
    kind.TConditionPart? || kind.TTrue? || kind.TFalse? || kind.TNull?
  }

  /** The condition text from `pos` up to the closing parenthesis, after
      the text `text` of the passes before. */
  function ConditionText(tokens: seq<Token>, pos: nat, env: Env, text: string): (r: Result<(string, nat), Error>)
    requires pos <= |tokens|
    ensures r.Ok? ==> pos < r.value.1 <= |tokens|
    decreases |tokens| - pos, 0
  {
    var a := Next(tokens, pos);
    if a.token.None? then Err(FormatError(NoCloseParentheses))
    else if a.token.Some? && a.token.value.kind.TCloseParentheses? then Ok((text, a.pos))
    else ConditionToken(tokens, a.pos, env, text)
  }

  /** A token of the condition just read, at `pos - 1`: a quote adds
      nothing, a part adds its exported value, any other token its image. */
  function ConditionToken(tokens: seq<Token>, pos: nat, env: Env, text: string): (r: Result<(string, nat), Error>)
    requires 1 <= pos <= |tokens|
    ensures r.Ok? ==> pos < r.value.1 <= |tokens|
    decreases |tokens| - pos, 2
  {
    var t := tokens[pos - 1];
    if t.kind.TQuote? then ConditionText(tokens, pos, env, text)
    else if IsPart(t.kind) then PartText(tokens, pos, env, text)
    else ConditionText(tokens, pos, env, text + t.image)
  }

  /** Whether the token before the one at `pos - 1` is the quote `mark`
      (`lookAtPrevType`/`lookAtPrevImage`). */
  predicate QuotedBy(tokens: seq<Token>, pos: nat, mark: string)
  {
    2 <= pos <= |tokens| + 1 && tokens[pos - 2].kind.TQuote? && tokens[pos - 2].image == mark
  }

  /** The value a condition part gives to the condition text: the
      exported value, or `false` when its key is missing. */
  function PartValue(env: Env, p: ConditionPart): (r: Result<string, Error>)
    ensures ConditionPartValue(env.escape, env.known, env.format, p) == Err(NotFoundKey) ==> r == Ok("false")
  {
    match ConditionPartValue(env.escape, env.known, env.format, p)
    case Ok(v) => Ok(env.exported(v))
    case Err(f) => if f == NotFoundKey then Ok("false") else Err(ValueError(f))
  }

  /** A condition part (or true/false/null) just read, at `pos - 1`: cast,
      its specifiers when it is still a path, and its value. */
  function PartText(tokens: seq<Token>, pos: nat, env: Env, text: string): (r: Result<(string, nat), Error>)
    requires 1 <= pos <= |tokens|
    ensures r.Ok? ==> pos < r.value.1 <= |tokens|
    decreases |tokens| - pos, 1
  {
    var t := tokens[pos - 1];
    var cast := CastValue(t.kind, t.image, QuotedBy(tokens, pos, "\""), QuotedBy(tokens, pos, "'"));
    match (if cast.1 then Specifiers(tokens, pos, env.modifierValues, []) else Ok(([], pos)))
    case Err(e) => Err(e)
    case Ok(specs) =>
      match PartValue(env, ConditionPart(cast.0, env.values, cast.1, specs.0))
      case Err(e) => Err(e)
      case Ok(s) => ConditionText(tokens, specs.1, env, text + s)
  }

  /** condition(), called just after the `if` or `elseif` token: the value
      of the condition and the index after its `)`. */
  function ConditionAt(tokens: seq<Token>, pos: nat, env: Env): (r: Result<(bool, nat), Error>)
    requires pos <= |tokens|
    ensures r.Ok? ==> pos < r.value.1 <= |tokens|
  {
    var a := Next(tokens, pos);
    if a.token.None? then Err(FormatError(ConditionSyntaxError))
    else
      var b := SkipWhitespace(tokens, a);
      if b.token.None? then Err(FormatError(ConditionSyntaxError))
      else if !(b.token.Some? && b.token.value.kind.TOpenParentheses?) then Err(FormatError(NoOpenParentheses))
      else match ConditionText(tokens, b.pos, env, "")
        case Err(e) => Err(e)
        case Ok(c) =>
          var condition := Trim(c.0);
          if condition == "" then Err(FormatError(EmptyCondition)) else Ok((env.eval(condition), c.1))
  }

  /** A condition part as condition() reads it: its text and the cursor. */
  method ReadPart(tokens: seq<Token>, pos: nat, env: Env) returns (r: Result<(string, nat), Error>)
    requires 1 <= pos <= |tokens|
    ensures r.Ok? ==> pos <= r.value.1 <= |tokens|
    ensures forall text: string {:trigger PartText(tokens, pos, env, text)} ::
              PartText(tokens, pos, env, text)
              == match r case Err(e) => Err(e) case Ok((s, q)) => ConditionText(tokens, q, env, text + s)
  {
    var token := tokens[pos - 1];
    var isQuote := QuotedBy(tokens, pos, "\"");
    var isSingle := QuotedBy(tokens, pos, "'");
    var cast := CastValue(token.kind, token.image, isQuote, isSingle);
    var specifiers: seq<Specifier> := [];
    var p := pos;
    if cast.1 {
      var s := ParseSpecifiers(tokens, pos, env.modifierValues);
      if s.Err? {
        return Err(s.error);
      }
      specifiers, p := s.value.0, s.value.1;
    }
    var value := PartValue(env, ConditionPart(cast.0, env.values, cast.1, specifiers));
    if value.Err? {
      return Err(value.error);
    }
    return Ok((value.value, p));
  }

  /** The token of the condition at `pos - 1`, as the do-while of
      condition() reads it: the text it adds and the cursor. */
  method ReadConditionToken(tokens: seq<Token>, pos: nat, env: Env) returns (r: Result<(string, nat), Error>)
    requires 1 <= pos <= |tokens|
    ensures r.Ok? ==> pos <= r.value.1 <= |tokens|
    ensures forall text: string {:trigger ConditionToken(tokens, pos, env, text)} ::
              ConditionToken(tokens, pos, env, text)
              == match r case Err(e) => Err(e) case Ok((s, q)) => ConditionText(tokens, q, env, text + s)
  {
    var token := tokens[pos - 1];
    if token.kind.TQuote? {
      r := Ok(("", pos));
      assert forall text: string :: text + "" == text;
    } else if IsPart(token.kind) {
      r := ReadPart(tokens, pos, env);
    } else {
      r := Ok((token.image, pos));
    }
  }

  /** The do-while of condition() that collects the condition text, from
      just after `(`: the text and the cursor after `)`. */
  method ParseConditionText(tokens: seq<Token>, pos: nat, env: Env) returns (r: Result<(string, nat), Error>)
    requires pos <= |tokens|
    ensures r == ConditionText(tokens, pos, env, "")
  {
    var condition := "";
    var p: nat := pos;
    while p < |tokens| && !tokens[p].kind.TCloseParentheses?
      invariant p <= |tokens|
      invariant ConditionText(tokens, pos, env, "") == ConditionText(tokens, p, env, condition)
      decreases |tokens| - p
    {
      var value := ReadConditionToken(tokens, p + 1, env);
      if value.Err? {
        return Err(value.error);
      }
      condition, p := condition + value.value.0, value.value.1;
    }
    if p == |tokens| {
      return Err(FormatError(NoCloseParentheses));
    }
    return Ok((condition, p + 1));
  }

  /** condition() as written, up to the value of the expression. */
  method ParseCondition(tokens: seq<Token>, pos: nat, env: Env) returns (r: Result<(bool, nat), Error>)
    requires pos <= |tokens|
    ensures r == ConditionAt(tokens, pos, env)
  {
    var a := Next(tokens, pos);
    if a.token.None? {
      return Err(FormatError(ConditionSyntaxError));
    }
    if a.token.Some? && a.token.value.kind.TWhitespace? {
      a := Next(tokens, a.pos);
      if a.token.None? {
        return Err(FormatError(ConditionSyntaxError));
      }
    }
    if !(a.token.Some? && a.token.value.kind.TOpenParentheses?) {
      return Err(FormatError(NoOpenParentheses));
    }
    var text := ParseConditionText(tokens, a.pos, env);
    if text.Err? {
      return Err(text.error);
    }
    var condition := text.value.0;
    var p := text.value.1;
    condition := Trim(condition);
    if condition == "" {
      return Err(FormatError(EmptyCondition));
    }
    return Ok((env.eval(condition), p));
  }

  // ---------------------------------------------------------------------
  // variable(): the key, an optional whitespace token, the specifiers.

  /** variable(), called just after the variable token with image `image`:
      the node, the automatic counter after it, and the cursor. An empty
      image takes the counter as its key and moves the counter on. */
  function VariableAt(tokens: seq<Token>, pos: nat, env: Env, counter: int, image: string)
    : (r: Result<(Node, int, nat), Error>)
    requires pos <= |tokens|
    ensures r.Ok? ==> pos <= r.value.2 <= |tokens| && r.value.0.VariableNode?
  {
    var key := if image == "" then IntToString(counter) else image;
    var next := if image == "" then counter + 1 else counter;
    var q := if pos < |tokens| && tokens[pos].kind.TWhitespace? then pos + 1 else pos;
    match Specifiers(tokens, q, env.modifierValues, [])
    case Err(e) => Err(e)
    case Ok((specifiers, p)) => Ok((VariableNode(key, env.values, specifiers), next, p))
  }

  /** variable() as written, with the automatic counter as an object. */
  method ParseVariable(tokens: seq<Token>, pos: nat, env: Env, counter: Counter, image: string)
    returns (r: Result<(Node, nat), Error>)
    requires pos <= |tokens|
    modifies counter
    ensures var v := VariableAt(tokens, pos, env, old(counter.counter), image);
            (r.Err? <==> v.Err?)
            && (r.Err? ==> r.error == v.error)
            && (r.Ok? ==> r.value == (v.value.0, v.value.2) && counter.counter == v.value.1)
  {
    var key := image;
    if key == "" {
      key := IntToString(counter.counter);
      counter.Increment();
    }
    var p := pos;
    if p < |tokens| && tokens[p].kind.TWhitespace? {
      p := p + 1;
    }
    var specifiers := ParseSpecifiers(tokens, p, env.modifierValues);
    if specifiers.Err? {
      return Err(specifiers.error);
    }
    return Ok((VariableNode(key, env.values, specifiers.value.0), specifiers.value.1));
  }

  // ---------------------------------------------------------------------
  // The constructor: the loop over the tokens.

  /** The locals of the constructor: the balance of `{{` and `}}`, the
      automatic counter, the open-conditions counter, the condition stack,
      and the nodes built so far. */
  datatype Build = Build(statements: int, counter: int, openConditions: int, conditions: seq<bool>, nodes: seq<Node>)

  const Start := Build(0, 0, 0, [], [])

  /** The branches of the loop that change only the condition stack or the
      nodes, for the token `t`; the loop then goes on after `t`. */
  function PlainStep(b: Build, t: Token, env: Env): (r: Result<Build, Error>)
    ensures r.Ok? ==> r.value.statements == b.statements && r.value.counter == b.counter
  {
    var sat := IsSatisfies(b.conditions);
    var n := |b.conditions|;
    if t.kind.TElse? && !sat then
      if n == 0 then Ok(b) else Ok(b.(conditions := b.conditions[..n - 1] + [!b.conditions[n - 1]]))
    else if t.kind.TElse? then
      if n == 0 then Err(Unmodelled) else Ok(b.(conditions := b.conditions[..n - 1] + [false]))
    else if t.kind.TEndif? then
      if n == 0 then Err(Unmodelled)
      else Ok(b.(conditions := b.conditions[..n - 1], openConditions := b.openConditions - 1))
    else if t.kind.TText? && sat then Ok(b.(nodes := b.nodes + [TextNode(Text(env.unescape(t.image)))]))
    else Ok(b)
  }

  /** The condition branch: `if`, or `elseif` while the stack is not
      satisfied, after the condition read from `pos` on. */
  function ConditionStep(tokens: seq<Token>, pos: nat, env: Env, b: Build, isIf: bool): (r: Result<(Build, nat), Error>)
    requires pos <= |tokens|
    ensures r.Ok? ==> pos < r.value.1 <= |tokens|
  {
    match ConditionAt(tokens, pos, env)
    case Err(e) => Err(e)
    case Ok((v, p)) =>
      var n := |b.conditions|;
      if isIf then Ok((b.(conditions := b.conditions + [v], openConditions := b.openConditions + 1), p))
      else if n == 0 then Ok((b, p))
      else Ok((b.(conditions := b.conditions[..n - 1] + [v]), p))
  }

  /** One pass of the loop: the token at `pos` and the tokens its branch
      reads after it. */
  function Step(tokens: seq<Token>, pos: nat, env: Env, b: Build): (r: Result<(Build, nat), Error>)
    requires pos < |tokens|
    ensures r.Ok? ==> pos < r.value.1 <= |tokens|
  {
    var t := tokens[pos];
    var sat := IsSatisfies(b.conditions);
    if t.kind.TOpenStatement? then Ok((b.(statements := b.statements + 1), pos + 1))
    else if t.kind.TCloseStatement? then Ok((b.(statements := b.statements - 1), pos + 1))
    else if t.kind.TVariable? && sat then
      match VariableAt(tokens, pos + 1, env, b.counter, t.image)
      case Err(e) => Err(e)
      case Ok((node, counter, p)) => Ok((b.(counter := counter, nodes := b.nodes + [node]), p))
    else if t.kind.TIf? || (t.kind.TElseif? && !sat) then ConditionStep(tokens, pos + 1, env, b, t.kind.TIf?)
    else match PlainStep(b, t, env)
      case Err(e) => Err(e)
      case Ok(c) => Ok((c, pos + 1))
  }

  /** The loop from `pos` to the end of the tokens. */
  function Walk(tokens: seq<Token>, pos: nat, env: Env, b: Build): (r: Result<Build, Error>)
    requires pos <= |tokens|
    decreases |tokens| - pos, 1
  {
    if pos == |tokens| then Ok(b) else Advance(tokens, pos, env, b)
  }

  /** One turn of the loop, then the rest of it. */
  function Advance(tokens: seq<Token>, pos: nat, env: Env, b: Build): (r: Result<Build, Error>)
    requires pos < |tokens|
    decreases |tokens| - pos, 0
  {
    match Step(tokens, pos, env, b)
    case Err(e) => Err(e)
    case Ok((c, p)) => Walk(tokens, p, env, c)
  }

  /** A turn that succeeds hands its state to the rest of the loop. */
  lemma WalkOn(tokens: seq<Token>, pos: nat, env: Env, b: Build, c: Build, p: nat)
    requires pos < |tokens| && Step(tokens, pos, env, b) == Ok((c, p))
    ensures p <= |tokens| && Walk(tokens, pos, env, b) == Walk(tokens, p, env, c)
  {
    assert Walk(tokens, pos, env, b) == Advance(tokens, pos, env, b);
  }

  /** The checks after the loop. */
  function Finish(b: Build): (r: Result<seq<Node>, Error>)
    ensures r.Ok? <==> b.statements == 0 && b.openConditions == 0
    ensures r.Ok? ==> r.value == b.nodes
    ensures r == Err(FormatError(ClosedStatements)) <==> b.statements > 0
    ensures r == Err(FormatError(OpenedStatements)) <==> b.statements < 0
    ensures r == Err(FormatError(ConditionsError)) <==> b.statements == 0 && b.openConditions != 0
  {
    if b.statements > 0 then Err(FormatError(ClosedStatements))
    else if b.statements < 0 then Err(FormatError(OpenedStatements))
    else if b.openConditions != 0 then Err(FormatError(ConditionsError))
    else Ok(b.nodes)
  }

  /** The nodes the constructor builds for a template, or the reason it
      throws. */
  function BuildTokens(tokens: seq<Token>, env: Env): Result<seq<Node>, Error>
  {
    match Walk(tokens, 0, env, Start)
    case Err(e) => Err(e)
    case Ok(b) => Finish(b)
  }

  function BuildNodes(source: string, env: Env): Result<seq<Node>, Error>
  {
    BuildTokens(Scanner.Tokenize(source), env)
  }

  /** The condition branch of the loop as written: the condition is read,
      then `if` pushes its value and counts it as open, `elseif` replaces
      the top of the stack. */
  method TakeCondition(tokens: seq<Token>, pos: nat, env: Env, openConditions: Counter, conditions: seq<bool>, isIf: bool)
    returns (r: Result<(seq<bool>, nat), Error>)
    requires pos <= |tokens|
    modifies openConditions
    ensures var b := Build(0, 0, old(openConditions.counter), conditions, []);
            var c := ConditionStep(tokens, pos, env, b, isIf);
            (r.Err? <==> c.Err?)
            && (r.Err? ==> r.error == c.error)
            && (r.Ok? ==> r.value == (c.value.0.conditions, c.value.1) && openConditions.counter == c.value.0.openConditions)
  {
    var c := ParseCondition(tokens, pos, env);
    if c.Err? {
      return Err(c.error);
    }
    var stack := conditions;
    if isIf {
      stack := stack + [c.value.0];
      openConditions.Increment();
    } else if |stack| > 0 {
      stack := stack[..|stack| - 1] + [c.value.0];
    }
    return Ok((stack, c.value.1));
  }

  /** The `else`, `endif` and text branches of the loop as written. */
  method TakePlain(token: Token, env: Env, openConditions: Counter, conditions: seq<bool>, nodes: seq<Node>)
    returns (r: Result<(seq<bool>, seq<Node>), Error>)
    modifies openConditions
    ensures var c := PlainStep(Build(0, 0, old(openConditions.counter), conditions, nodes), token, env);
            (r.Err? <==> c.Err?)
            && (r.Err? ==> r.error == c.error)
            && (r.Ok? ==> r.value == (c.value.conditions, c.value.nodes) && openConditions.counter == c.value.openConditions)
  {
    var sat := IsSatisfies(conditions);
    var n := |conditions|;
    if token.kind.TElse? && !sat {
      if n > 0 {
        return Ok((conditions[..n - 1] + [!conditions[n - 1]], nodes));
      }
      return Ok((conditions, nodes));
    }
    if token.kind.TElse? {
      if n == 0 {
        return Err(Unmodelled);
      }
      return Ok((conditions[..n - 1] + [false], nodes));
    }
    if token.kind.TEndif? {
      if n == 0 {
        return Err(Unmodelled);
      }
      openConditions.Decrement();
      return Ok((conditions[..n - 1], nodes));
    }
    if token.kind.TText? && sat {
      return Ok((conditions, nodes + [TextNode(Text(env.unescape(token.image)))]));
    }
    return Ok((conditions, nodes));
  }

  /** One pass of the loop of the constructor as written: the token at
      `pos` is dispatched on its type; the statement balance, the stack,
      the nodes and the cursor come back, the counters change in place. */
  method TakeToken(tokens: seq<Token>, pos: nat, env: Env, statements: int, counter: Counter, openConditions: Counter,
                   conditions: seq<bool>, nodes: seq<Node>) returns (r: Result<(int, seq<bool>, seq<Node>, nat), Error>)
    requires pos < |tokens| && counter != openConditions
    modifies counter, openConditions
    ensures var s := Step(tokens, pos, env, Build(statements, old(counter.counter), old(openConditions.counter), conditions, nodes));
            (r.Err? <==> s.Err?)
            && (r.Err? ==> r.error == s.error)
            && (r.Ok? ==> s.value == (Build(r.value.0, counter.counter, openConditions.counter, r.value.1, r.value.2), r.value.3))
  {
    var token := tokens[pos];
    var sat := IsSatisfies(conditions);
    if token.kind.TOpenStatement? {
      return Ok((statements + 1, conditions, nodes, pos + 1));
    }
    if token.kind.TCloseStatement? {
      return Ok((statements - 1, conditions, nodes, pos + 1));
    }
    if token.kind.TVariable? && sat {
      var v := ParseVariable(tokens, pos + 1, env, counter, token.image);
      if v.Err? {
        return Err(v.error);
      }
      return Ok((statements, conditions, nodes + [v.value.0], v.value.1));
    }
    if token.kind.TIf? || (token.kind.TElseif? && !sat) {
      var c := TakeCondition(tokens, pos + 1, env, openConditions, conditions, token.kind.TIf?);
      if c.Err? {
        return Err(c.error);
      }
      return Ok((statements, c.value.0, nodes, c.value.1));
    }
    var next := TakePlain(token, env, openConditions, conditions, nodes);
    if next.Err? {
      return Err(next.error);
    }
    return Ok((statements, next.value.0, next.value.1, pos + 1));
  }

  /** The constructor as written: tokenize, run the loop with the two
      counters as objects, then check the balances. */
  method Construct(source: string, env: Env) returns (r: Result<seq<Node>, Error>)
    ensures r == BuildNodes(source, env)
  {
    var tokens := Tokenizing.TokenizeSource(source);
    var statements := 0;
    var counter := new Counter();
    var openConditions := new Counter();
    var conditions: seq<bool> := [];
    var nodes: seq<Node> := [];
    var p: nat := 0;
    while p < |tokens|
      invariant p <= |tokens|
      invariant Walk(tokens, 0, env, Start)
                == Walk(tokens, p, env, Build(statements, counter.counter, openConditions.counter, conditions, nodes))
      decreases |tokens| - p
    {
      var next := TakeToken(tokens, p, env, statements, counter, openConditions, conditions, nodes);
      if next.Err? {
        return Err(next.error);
      }
      statements, conditions, nodes, p := next.value.0, next.value.1, next.value.2, next.value.3;
    }
    if statements > 0 {
      return Err(FormatError(ClosedStatements));
    }
    if statements < 0 {
      return Err(FormatError(OpenedStatements));
    }
    var open := openConditions.Get();
    if open != 0 {
      return Err(FormatError(ConditionsError));
    }
    return Ok(nodes);
  }

  // ---------------------------------------------------------------------
  // What the loop keeps and what each branch does.

  /** Every pass keeps the stack exactly as deep as the open-conditions
      counter says, relative to where it started, and only appends nodes. */
  lemma StepKeepsDepth(tokens: seq<Token>, pos: nat, env: Env, b: Build)
    requires pos < |tokens|
    ensures var s := Step(tokens, pos, env, b);
            s.Ok? ==> |s.value.0.conditions| - s.value.0.openConditions == |b.conditions| - b.openConditions
                      && b.nodes <= s.value.0.nodes
  {
  }

  lemma {:induction false} WalkKeepsDepth(tokens: seq<Token>, pos: nat, env: Env, b: Build)
    requires pos <= |tokens|
    ensures var w := Walk(tokens, pos, env, b);
            w.Ok? ==> |w.value.conditions| - w.value.openConditions == |b.conditions| - b.openConditions
                      && b.nodes <= w.value.nodes
    decreases |tokens| - pos
  {
    if pos < |tokens| {
      StepKeepsDepth(tokens, pos, env, b);
      var s := Step(tokens, pos, env, b);
      if s.Ok? {
        WalkKeepsDepth(tokens, s.value.1, env, s.value.0);
      }
    }
  }

  /** After the loop the open-conditions counter is the depth of the stack,
      so "error in conditions" means exactly that an `{{if}}` was left
      without its `{{endif}}` (the balances of `{{`/`}}` being right). */
  lemma ConditionsErrorMeansUnclosed(tokens: seq<Token>, env: Env)
    ensures var w := Walk(tokens, 0, env, Start);
            w.Ok? ==> |w.value.conditions| == w.value.openConditions
                      && (w.value.statements == 0 ==>
                            (BuildTokens(tokens, env) == Err(FormatError(ConditionsError)) <==> w.value.conditions != []))
  {
    WalkKeepsDepth(tokens, 0, env, Start);
  }

  /** `{{` counts one statement open and `}}` one closed, whatever the
      condition stack says. */
  lemma StatementMarks(tokens: seq<Token>, pos: nat, env: Env, b: Build)
    requires pos < |tokens|
    ensures tokens[pos].kind.TOpenStatement? ==> Step(tokens, pos, env, b) == Ok((b.(statements := b.statements + 1), pos + 1))
    ensures tokens[pos].kind.TCloseStatement? ==> Step(tokens, pos, env, b) == Ok((b.(statements := b.statements - 1), pos + 1))
  {
  }

  /** While the stack is not satisfied, text and variables add nothing and
      leave every counter alone. */
  lemma HiddenAddsNothing(tokens: seq<Token>, pos: nat, env: Env, b: Build)
    requires pos < |tokens| && !IsSatisfies(b.conditions)
    requires tokens[pos].kind.TText? || tokens[pos].kind.TVariable?
    ensures Step(tokens, pos, env, b) == Ok((b, pos + 1))
  {
  }

  /** Shown text becomes one text node, unescaped. */
  lemma ShownText(tokens: seq<Token>, pos: nat, env: Env, b: Build)
    requires pos < |tokens| && IsSatisfies(b.conditions) && tokens[pos].kind.TText?
    ensures Step(tokens, pos, env, b) == Ok((b.(nodes := b.nodes + [TextNode(Text(env.unescape(tokens[pos].image)))]), pos + 1))
  {
  }

  /** An `{{elseif}}` met while the stack is satisfied is passed over: its
      condition is not read and the stack keeps its top, so the text that
      follows it is built too. */
  lemma SatisfiedElseifIgnored(tokens: seq<Token>, pos: nat, env: Env, b: Build)
    requires pos < |tokens| && IsSatisfies(b.conditions) && tokens[pos].kind.TElseif?
    ensures Step(tokens, pos, env, b) == Ok((b, pos + 1))
  {
  }

  /** `{{if}}` pushes the value of its condition and counts it open. */
  lemma IfPushes(tokens: seq<Token>, pos: nat, env: Env, b: Build)
    requires pos < |tokens| && tokens[pos].kind.TIf?
    ensures var c := ConditionAt(tokens, pos + 1, env);
            var s := Step(tokens, pos, env, b);
            (s.Err? <==> c.Err?)
            && (s.Ok? ==> s.value.0 == b.(conditions := b.conditions + [c.value.0], openConditions := b.openConditions + 1)
                          && s.value.1 == c.value.1)
  {
  }

  /** `{{elseif}}` under an unsatisfied stack reads its condition and puts
      its value in place of the top entry, leaving the counters alone: with
      every outer condition true, its branch is shown exactly when its
      condition holds. */
  lemma ElseifOverwrites(tokens: seq<Token>, pos: nat, env: Env, b: Build)
    requires pos < |tokens| && tokens[pos].kind.TElseif? && !IsSatisfies(b.conditions) && b.conditions != []
    ensures var n := |b.conditions|;
            var c := ConditionAt(tokens, pos + 1, env);
            var s := Step(tokens, pos, env, b);
            (s.Err? <==> c.Err?)
            && (s.Err? ==> s.error == c.error)
            && (s.Ok? ==> s.value.0 == b.(conditions := b.conditions[..n - 1] + [c.value.0]) && s.value.1 == c.value.1)
            && (s.Ok? && IsSatisfies(b.conditions[..n - 1]) ==> (IsSatisfies(s.value.0.conditions) <==> c.value.0))
  {
    var n := |b.conditions|;
    var c := ConditionAt(tokens, pos + 1, env);
    if c.Ok? {
      var d := b.conditions[..n - 1] + [c.value.0];
      TopDecides(d);
      assert d[..n - 1] == b.conditions[..n - 1];
    }
  }

  /** `{{else}}` under an unsatisfied stack flips the innermost condition:
      with every outer condition true, its branch is shown exactly when the
      `{{if}}` branch was not. */
  lemma ElseFlips(tokens: seq<Token>, pos: nat, env: Env, b: Build)
    requires pos < |tokens| && tokens[pos].kind.TElse? && !IsSatisfies(b.conditions) && b.conditions != []
    ensures var n := |b.conditions|;
            var s := Step(tokens, pos, env, b);
            s.Ok? && s.value.1 == pos + 1
            && s.value.0 == b.(conditions := b.conditions[..n - 1] + [!b.conditions[n - 1]])
            && (IsSatisfies(b.conditions[..n - 1]) ==> IsSatisfies(s.value.0.conditions))
  {
    var n := |b.conditions|;
    var c := b.conditions[..n - 1] + [!b.conditions[n - 1]];
    TopDecides(b.conditions);
    TopDecides(c);
    assert c[..n - 1] == b.conditions[..n - 1];
  }

  /** `{{else}}` under a satisfied stack turns its top to false, so what
      follows is hidden up to the `{{endif}}`. */
  lemma ElseAfterShownBranch(tokens: seq<Token>, pos: nat, env: Env, b: Build)
    requires pos < |tokens| && tokens[pos].kind.TElse? && IsSatisfies(b.conditions) && b.conditions != []
    ensures var s := Step(tokens, pos, env, b);
            s.Ok? && s.value.1 == pos + 1 && !IsSatisfies(s.value.0.conditions)
            && s.value.0 == b.(conditions := b.conditions[..|b.conditions| - 1] + [false])
  {
    var n := |b.conditions|;
    var c := b.conditions[..n - 1] + [false];
    assert c[n - 1] == false;
  }

  /** `{{endif}}` pops the stack and the open-conditions counter together. */
  lemma EndifPops(tokens: seq<Token>, pos: nat, env: Env, b: Build)
    requires pos < |tokens| && tokens[pos].kind.TEndif? && b.conditions != []
    ensures Step(tokens, pos, env, b)
            == Ok((b.(conditions := b.conditions[..|b.conditions| - 1], openConditions := b.openConditions - 1), pos + 1))
  {
  }

  /** A placeholder without a key is numbered by the automatic counter,
      which then moves on; a named one keeps the counter. */
  lemma VariableKey(tokens: seq<Token>, pos: nat, env: Env, counter: int, image: string)
    requires pos <= |tokens|
    ensures var v := VariableAt(tokens, pos, env, counter, image);
            v.Ok? ==> (image == "" ==> v.value.0.key == IntToString(counter) && v.value.1 == counter + 1)
                      && (image != "" ==> v.value.0.key == image && v.value.1 == counter)
                      && v.value.0.values == env.values
  {
  }

  // ---------------------------------------------------------------------
  // Specifiers and conditions.

  /** The exits of a pass of the modifier loop by the shape of its tokens,
      from `k`, the first token after `(` or `,` and one whitespace token:
      the end of input is "specifier not set"; a token that cannot start a
      value (a second comma, say) is a syntax error; a value opened by a
      quote and not closed by the same quote is a quote syntax error, and so
      is a bare value at the very end; two values with only whitespace
      between them are a comma separator error; a value followed by `,` or
      `)` ends the pass without error. */
  lemma ModifierListShapes(tokens: seq<Token>, pos: nat, first: bool)
    requires pos <= |tokens|
    ensures var k := SpaceSkipped(tokens, pos);
            k == |tokens| ==> PassError(tokens, pos, first) == Some(SpecifierNotSet)
    ensures var k := SpaceSkipped(tokens, pos);
            k < |tokens| && tokens[k].kind.TCommaSeparator? ==> PassError(tokens, pos, first) == Some(SpecifierSyntaxError)
    ensures var k := SpaceSkipped(tokens, pos);
            (k + 1 < |tokens| && tokens[k].kind.TQuote? && tokens[k].image == "\"" && tokens[k + 1].kind.TModifier?
             && (k + 2 == |tokens| || tokens[k + 2].image != "\""))
            ==> PassError(tokens, pos, first) == Some(QuoteSyntaxError)
    ensures var k := SpaceSkipped(tokens, pos);
            k + 1 == |tokens| && tokens[k].kind.TModifier? ==> PassError(tokens, pos, first) == Some(QuoteSyntaxError)
    ensures var k := SpaceSkipped(tokens, pos);
            (k + 4 < |tokens| && tokens[k].kind.TQuote? && tokens[k].image == "\"" && tokens[k + 1].kind.TModifier?
             && tokens[k + 2].kind.TQuote? && tokens[k + 2].image == "\"" && tokens[k + 3].kind.TWhitespace?
             && tokens[k + 4].kind.TQuote?)
            ==> PassError(tokens, pos, first) == Some(CommaSeparatorSyntaxError)
    ensures var k := SpaceSkipped(tokens, pos);
            (k + 2 < |tokens| && tokens[k].kind.TModifier? && tokens[k + 1].kind.TWhitespace? && tokens[k + 2].kind.TModifier?)
            ==> PassError(tokens, pos, first) == Some(CommaSeparatorSyntaxError)
    ensures var k := SpaceSkipped(tokens, pos);
            (k + 1 < |tokens| && tokens[k].kind.TModifier?
             && (tokens[k + 1].kind.TCommaSeparator? || tokens[k + 1].kind.TCloseParentheses?))
            ==> PassError(tokens, pos, first).None?
  {
  }

  /** A `|` not followed by a specifier name (after at most one whitespace
      token) is "specifier not set"; a name without `(` has no modifiers;
      an empty list `()` gives none either. */
  lemma SpecifierShapes(tokens: seq<Token>, pos: nat, mv: map<string, Value>)
    requires pos <= |tokens|
    ensures var a := SkipWhitespace(tokens, Next(tokens, pos));
            var r := SpecifierAt(tokens, pos, mv);
            (!(a.token.Some? && a.token.value.kind.TSpecifier?) ==> r == Err(FormatError(SpecifierNotSet)))
            && (a.token.Some? && a.token.value.kind.TSpecifier? && !(a.pos < |tokens| && tokens[a.pos].kind.TOpenParentheses?)
                ==> r == Ok((Specifier(a.token.value.image, []), a.pos)))
            && (a.token.Some? && a.token.value.kind.TSpecifier? && a.pos + 1 < |tokens|
                && tokens[a.pos].kind.TOpenParentheses? && tokens[a.pos + 1].kind.TCloseParentheses?
                ==> r == Ok((Specifier(a.token.value.image, []), a.pos + 2)))
  {
  }

  /** One unquoted modifier closing the list is cast and appended after the
      modifiers before it. */
  lemma LastModifier(tokens: seq<Token>, pos: nat, mv: map<string, Value>, name: string, done: seq<Modifier>)
    requires pos + 1 < |tokens| && done != []
    requires tokens[pos].kind.TModifier? && tokens[pos + 1].kind.TCloseParentheses?
    ensures var cast := CastValue(tokens[pos].kind, tokens[pos].image, false, false);
            ModifierList(tokens, pos, mv, name, done) == Ok((Specifier(name, done + [Modifier(cast.0, mv, cast.1)]), pos + 2))
  {
    var a := At(Some(tokens[pos]), pos + 1);
    var c := At(Some(tokens[pos + 1]), pos + 2);
    assert ModifierList(tokens, pos, mv, name, done) == ModifierAt(tokens, a, mv, name, done);
    assert ModifierAt(tokens, a, mv, name, done) == ModifierEnd(tokens, c, tokens[pos], false, false, mv, name, done);
  }

  /** A condition token that is neither a part, a quote nor `)`. */
  predicate PlainConditionToken(t: Token)
  {
    !t.kind.TCloseParentheses? && !t.kind.TQuote? && !IsPart(t.kind)
  }

  /** Condition text made of operators, whitespace and the like is copied
      image by image up to the closing parenthesis. */
  lemma {:induction false} PlainConditionText(tokens: seq<Token>, pos: nat, env: Env, text: string, close: nat)
    requires pos <= close < |tokens| && tokens[close].kind.TCloseParentheses?
    requires forall i :: pos <= i < close ==> PlainConditionToken(tokens[i])
    ensures ConditionText(tokens, pos, env, text) == Ok((text + Images(tokens[pos..close]), close + 1))
    decreases close - pos
  {
    if pos == close {
      assert tokens[pos..close] == [];
      assert text + Images([]) == text;
    } else {
      assert PlainConditionToken(tokens[pos]);
      PlainConditionText(tokens, pos + 1, env, text + tokens[pos].image, close);
      assert ConditionText(tokens, pos, env, text) == ConditionToken(tokens, pos + 1, env, text);
      assert ConditionToken(tokens, pos + 1, env, text) == ConditionText(tokens, pos + 1, env, text + tokens[pos].image);
      assert Images([tokens[pos]]) == tokens[pos].image;
      assert text + tokens[pos].image + Images(tokens[pos + 1..close]) == text + (tokens[pos].image + Images(tokens[pos + 1..close]));
      assert tokens[pos..close] == [tokens[pos]] + tokens[pos + 1..close];
      ImagesAppend([tokens[pos]], tokens[pos + 1..close]);
      assert [tokens[pos]][..0] == [];
    }
  }

  /** Without a closing parenthesis the condition is "no close parentheses". */
  lemma {:induction false} UnclosedCondition(tokens: seq<Token>, pos: nat, env: Env, text: string)
    requires pos <= |tokens|
    requires forall i :: pos <= i < |tokens| ==> PlainConditionToken(tokens[i])
    ensures ConditionText(tokens, pos, env, text) == Err(FormatError(NoCloseParentheses))
    decreases |tokens| - pos
  {
    if pos < |tokens| {
      UnclosedCondition(tokens, pos + 1, env, text + tokens[pos].image);
    }
  }

  /** condition(): end of input right after the keyword is a syntax error,
      anything but `(` (after one whitespace token) is "no open
      parentheses", and text that trims to nothing is "empty condition". */
  lemma ConditionShapes(tokens: seq<Token>, pos: nat, env: Env)
    requires pos <= |tokens|
    ensures pos == |tokens| ==> ConditionAt(tokens, pos, env) == Err(FormatError(ConditionSyntaxError))
    ensures var b := SkipWhitespace(tokens, Next(tokens, pos));
            b.token.Some? && !b.token.value.kind.TOpenParentheses?
            ==> ConditionAt(tokens, pos, env) == Err(FormatError(NoOpenParentheses))
    ensures var b := SkipWhitespace(tokens, Next(tokens, pos));
            b.token.Some? && b.token.value.kind.TOpenParentheses? && ConditionText(tokens, b.pos, env, "").Ok?
            && Trim(ConditionText(tokens, b.pos, env, "").value.0) == ""
            ==> ConditionAt(tokens, pos, env) == Err(FormatError(EmptyCondition))
  {
  }

  /** A condition part whose key is missing reads as `false`. */
  lemma MissingPartIsFalse(tokens: seq<Token>, pos: nat, env: Env, text: string)
    requires 1 <= pos <= |tokens| && !(pos < |tokens| && tokens[pos].kind.TSeparator?)
    requires var t := tokens[pos - 1];
             var cast := CastValue(t.kind, t.image, QuotedBy(tokens, pos, "\""), QuotedBy(tokens, pos, "'"));
             ConditionPartValue(env.escape, env.known, env.format, ConditionPart(cast.0, env.values, cast.1, []))
             == Err(NotFoundKey)
    ensures PartText(tokens, pos, env, text) == ConditionText(tokens, pos, env, text + "false")
  {
  }

  // ---------------------------------------------------------------------
  // Whole templates of text and `{{key}}` placeholders.

  /** The state after one segment of a template: its text, when there is
      one, becomes a text node, its placeholder a variable node without
      specifiers, an empty key taking the automatic counter. */
  function SegmentBuild(g: ScanFacts.Segment, env: Env, b: Build): (r: Build)
    ensures r.statements == b.statements && r.openConditions == b.openConditions && r.conditions == b.conditions
    ensures r.nodes == b.nodes + (if g.text == "" then [] else [TextNode(Text(env.unescape(g.text)))])
                       + [VariableNode(if g.key == "" then IntToString(b.counter) else g.key, env.values, [])]
    ensures r.counter == if g.key == "" then b.counter + 1 else b.counter
  {
    var shown := if g.text == "" then b.nodes else b.nodes + [TextNode(Text(env.unescape(g.text)))];
    var key := if g.key == "" then IntToString(b.counter) else g.key;
    var counter := if g.key == "" then b.counter + 1 else b.counter;
    b.(counter := counter, nodes := shown + [VariableNode(key, env.values, [])])
  }

  /** The state the loop reaches over the segments and the trailing text
      of a template whose placeholders are all variables. */
  function TemplateBuild(segments: seq<ScanFacts.Segment>, tail: string, env: Env, b: Build): (r: Build)
    ensures r.statements == b.statements && r.openConditions == b.openConditions && r.conditions == b.conditions
    ensures b.nodes <= r.nodes
    decreases |segments|
  {
    if segments == [] then
      if tail == "" then b else b.(nodes := b.nodes + [TextNode(Text(env.unescape(tail)))])
    else TemplateBuild(segments[1..], tail, env, SegmentBuild(segments[0], env, b))
  }

  predicate AllVariables(segments: seq<ScanFacts.Segment>)
  {
    forall k :: 0 <= k < |segments| ==> Keyword(segments[k].key).TVariable?
  }

  /** The tokens of one placeholder, `{{`, the key, `}}`, from `k` on: a
      variable node, the balance back where it was. */
  lemma PlaceholderWalk(tokens: seq<Token>, k: nat, env: Env, b: Build, key: string)
    requires k + 3 <= |tokens| && b.conditions == []
    requires tokens[k] == Token(TOpenStatement, "{{") && tokens[k + 1] == Token(TVariable, key)
    requires tokens[k + 2] == Token(TCloseStatement, "}}")
    ensures var name := if key == "" then IntToString(b.counter) else key;
            var counter := if key == "" then b.counter + 1 else b.counter;
            Walk(tokens, k, env, b)
            == Walk(tokens, k + 3, env, b.(counter := counter, nodes := b.nodes + [VariableNode(name, env.values, [])]))
  {
    var name := if key == "" then IntToString(b.counter) else key;
    var counter := if key == "" then b.counter + 1 else b.counter;
    var b1 := b.(statements := b.statements + 1);
    var b2 := b1.(counter := counter, nodes := b.nodes + [VariableNode(name, env.values, [])]);
    var k1: nat, k2: nat, k3: nat := k + 1, k + 2, k + 3;
    assert Walk(tokens, k, env, b) == Walk(tokens, k1, env, b1);
    assert Specifiers(tokens, k2, env.modifierValues, []) == Ok(([], k2));
    assert Step(tokens, k1, env, b1) == Ok((b2, k2));
    assert Walk(tokens, k1, env, b1) == Walk(tokens, k2, env, b2);
    assert Walk(tokens, k2, env, b2) == Walk(tokens, k3, env, b2.(statements := b.statements));
  }

  /** The tokens of one segment, from `k` on, give SegmentBuild. */
  lemma SegmentWalk(tokens: seq<Token>, k: nat, env: Env, b: Build, g: ScanFacts.Segment)
    requires k + |ScanFacts.SegmentTokens(g)| <= |tokens| && b.conditions == []
    requires tokens[k..k + |ScanFacts.SegmentTokens(g)|] == ScanFacts.SegmentTokens(g)
    requires Keyword(g.key).TVariable?
    ensures Walk(tokens, k, env, b) == Walk(tokens, k + |ScanFacts.SegmentTokens(g)|, env, SegmentBuild(g, env, b))
  {
    var seg := ScanFacts.SegmentTokens(g);
    var j := if g.text == "" then k else k + 1;
    var shown := if g.text == "" then b.nodes else b.nodes + [TextNode(Text(env.unescape(g.text)))];
    if g.text != "" {
      assert tokens[k] == seg[0] == Token(TText, g.text);
      ShownText(tokens, k, env, b);
    }
    assert tokens[j] == seg[j - k] && tokens[j + 1] == seg[j + 1 - k] && tokens[j + 2] == seg[j + 2 - k];
    PlaceholderWalk(tokens, j, env, b.(nodes := shown), g.key);
  }

  /** The trailing text, if any, is the last text node. */
  lemma TailWalk(tokens: seq<Token>, k: nat, env: Env, b: Build, tail: string)
    requires k <= |tokens| && tokens[k..] == ScanFacts.TailTokens(tail) && b.conditions == []
    ensures Walk(tokens, k, env, b) == Ok(TemplateBuild([], tail, env, b))
  {
    if tail != "" {
      assert tokens[k] == tokens[k..][0];
      assert |tokens| == k + 1;
      ShownText(tokens, k, env, b);
      WalkOn(tokens, k, env, b, b.(nodes := b.nodes + [TextNode(Text(env.unescape(tail)))]), k + 1);
    }
  }

  /** The tokens of a template from its first segment on split into that
      segment's tokens and the tokens of the rest. */
  lemma TemplateTokensSplit(tokens: seq<Token>, k: nat, segments: seq<ScanFacts.Segment>, tail: string)
    requires k <= |tokens| && tokens[k..] == ScanFacts.TemplateTokens(segments, tail) && segments != []
    ensures var n := |ScanFacts.SegmentTokens(segments[0])|;
            k + n <= |tokens| && tokens[k..k + n] == ScanFacts.SegmentTokens(segments[0])
            && tokens[k + n..] == ScanFacts.TemplateTokens(segments[1..], tail)
  {
    var seg := ScanFacts.SegmentTokens(segments[0]);
    var rest := ScanFacts.TemplateTokens(segments[1..], tail);
    var n := |seg|;
    assert tokens[k..] == seg + rest;
    assert tokens[k..k + n] == (seg + rest)[..n] == seg;
    assert tokens[k + n..] == (seg + rest)[n..] == rest;
  }

  /** One segment in front of a walk already known to give the rest. */
  lemma TemplateStep(tokens: seq<Token>, k: nat, env: Env, b: Build, segments: seq<ScanFacts.Segment>, tail: string)
    requires segments != [] && b.conditions == [] && Keyword(segments[0].key).TVariable?
    requires k + |ScanFacts.SegmentTokens(segments[0])| <= |tokens|
    requires tokens[k..k + |ScanFacts.SegmentTokens(segments[0])|] == ScanFacts.SegmentTokens(segments[0])
    requires Walk(tokens, k + |ScanFacts.SegmentTokens(segments[0])|, env, SegmentBuild(segments[0], env, b))
             == Ok(TemplateBuild(segments[1..], tail, env, SegmentBuild(segments[0], env, b)))
    ensures Walk(tokens, k, env, b) == Ok(TemplateBuild(segments, tail, env, b))
  {
    SegmentWalk(tokens, k, env, b, segments[0]);
  }

  /** The tokens of a whole template, from `k` on, give TemplateBuild. */
  lemma {:induction false} TemplateWalk(tokens: seq<Token>, k: nat, env: Env, b: Build,
                                        segments: seq<ScanFacts.Segment>, tail: string)
    requires k <= |tokens| && tokens[k..] == ScanFacts.TemplateTokens(segments, tail)
    requires AllVariables(segments) && b.conditions == []
    ensures Walk(tokens, k, env, b) == Ok(TemplateBuild(segments, tail, env, b))
    decreases |segments|
  {
    if segments == [] {
      TailWalk(tokens, k, env, b, tail);
    } else {
      var g := segments[0];
      var n := |ScanFacts.SegmentTokens(g)|;
      TemplateTokensSplit(tokens, k, segments, tail);
      assert Keyword(g.key).TVariable?;
      assert AllVariables(segments[1..]) by {
        forall j | 0 <= j < |segments[1..]| ensures Keyword(segments[1..][j].key).TVariable? {
          assert segments[1..][j] == segments[j + 1];
        }
      }
      TemplateWalk(tokens, k + n, env, SegmentBuild(g, env, b), segments[1..], tail);
      TemplateStep(tokens, k, env, b, segments, tail);
    }
  }

  /** End to end: a template of plain text and placeholders that are not
      statement words builds the text and variable nodes in order, the
      placeholders without a key numbered 0, 1, 2, ... */
  lemma BuildOfTemplate(segments: seq<ScanFacts.Segment>, tail: string, env: Env)
    requires ScanFacts.TemplateOk(segments, tail) && Truthy(ScanFacts.TemplateSource(segments, tail))
    requires AllVariables(segments)
    ensures BuildNodes(ScanFacts.TemplateSource(segments, tail), env) == Ok(TemplateBuild(segments, tail, env, Start).nodes)
  {
    var tokens := Scanner.Tokenize(ScanFacts.TemplateSource(segments, tail));
    ScanFacts.TokenizeTemplate(segments, tail);
    assert tokens[0..] == tokens;
    TemplateWalk(tokens, 0, env, Start, segments, tail);
  }
}

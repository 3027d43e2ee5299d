/** The `parse*` methods of src/Tokenizer/Tokenizer.php as loops, and the
    tokenizer object. Each method takes the state the source passes by
    reference (cursor, image, type, tokens, quote flags) together with the
    object's fields, as a scanner state, and hands back the state it leaves;
    every one is proved to compute the function of module Scanner that
    specifies it. The class holds the fields the source keeps on the object
    and drives the modes until the scan finishes. */
module Tokenizing {
  import opened Php
  import opened Tokens
  import opened Scanner

  /** parse(): copy text up to `{{` or `}}`. */
  method Parse(source: string, s: Scan) returns (r: Scan)
    requires -1 <= s.current
    ensures r == TextScan(source, s)
  {
    var current := s.current;
    var image := s.image;
    var kind := s.kind;
    while true
      invariant -1 <= current
      invariant TextScan(source, s.(current := current, image := image, kind := kind)) == TextScan(source, s)
      decreases |source| - current
    {
      current := current + 1;
      if !Truthy(source) || current >= |source| {
        return s.(current := current, image := image, kind := kind, finish := true);
      }
      var symbol := Symbol(source, current);
      var secondSymbol := Symbol(source, current + 1);
      if symbol == Some('{') && secondSymbol == Some('{') {
        return s.(current := current, image := image, kind := kind, mode := Mode.ParseOpenStatement);
      }
      if symbol == Some('}') && secondSymbol == Some('}') {
        return s.(current := current, image := image, kind := kind, mode := Mode.ParseCloseStatement);
      }
      kind := Some(TText);
      image := image + [source[current]];
    }
  }

  /** One pass of the loop of parseStatement(): the state the method
      returns with, or None when the character at the cursor joins the word. */
  method StatementStep(source: string, at: Scan) returns (e: Option<Scan>)
    requires 0 <= at.current
    ensures e == StatementExit(source, at)
  {
    var current := at.current;
    var image := at.image;
    var symbol := Symbol(source, current);
    var secondSymbol := Symbol(source, current + 1);
    var typed := if Truthy(image) then Some(Keyword(image)) else at.kind;
    if IsSpaceAt(symbol) {
      return Some(at.(kind := typed, mode := Mode.ParseWhitespace,
                      flags := at.flags.(whiteSpaceReturn := Mode.ParseStatement)));
    }
    if symbol == Some('|') {
      return Some(at.(kind := if LastTwoLackVariable(at.tokens) then Some(TVariable) else at.kind,
                      mode := Mode.ParseSeparator));
    }
    if symbol == Some('(') {
      return Some(at.(kind := typed, mode := Mode.ParseOpenParentheses,
                      flags := at.flags.(openParenthesesCount := at.flags.openParenthesesCount + 1,
                                         openParenthesesReturn := Mode.ParseConditions)));
    }
    if symbol == Some('}') && Falsy(secondSymbol) {
      return Some(at.(current := current - 1, kind := typed, mode := Mode.Parse));
    }
    var loop := (symbol != Some('}') || secondSymbol != Some('}')) && current < |source|;
    if loop {
      return None;
    }
    var kind := at.kind;
    if FollowsOpen(at.tokens) {
      kind := Some(TVariable);
      if Truthy(image) {
        kind := Some(Keyword(image));
      }
    }
    return Some(at.(current := current - 1, kind := kind, mode := Mode.Parse));
  }

  /** parseStatement(): read the statement word. */
  method ParseStatement(source: string, s: Scan) returns (r: Scan)
    requires 0 <= s.current
    ensures r == StatementScan(source, s)
  {
    var current := s.current;
    var image := s.image;
    while true
      invariant 0 <= current
      invariant StatementScan(source, s.(current := current, image := image)) == StatementScan(source, s)
      decreases |source| - current
    {
      var e := StatementStep(source, s.(current := current, image := image));
      if e.Some? {
        return e.value;
      }
      image := image + [source[current]];
      current := current + 1;
    }
  }

  /** parseWhitespace(): read a run of whitespace. */
  method ParseWhitespace(source: string, s: Scan) returns (r: Scan)
    requires 0 <= s.current <= |source|
    ensures r == WhitespaceScan(source, s)
  {
    var current := s.current;
    var image := s.image;
    while true
      invariant s.current <= current <= |source|
      invariant image == s.image + source[s.current..current]
      invariant forall i :: s.current <= i < current ==> IsSpace(source[i])
      decreases |source| - current
    {
      var symbol := Symbol(source, current);
      var loop := IsSpaceAt(symbol) && current < |source|;
      if !loop {
        break;
      }
      assert source[s.current..current + 1] == source[s.current..current] + [source[current]];
      image := image + [source[current]];
      current := current + 1;
    }
    WhitespaceRunEnds(source, s.(kind := Some(TWhitespace)), current);
    return s.(current := current, image := image, kind := Some(TWhitespace), mode := s.flags.whiteSpaceReturn);
  }

  /** The operator test of parseConditions(): some operator of the table, in
      order, fits at `c`. */
  method OperatorAhead(source: string, operators: seq<(string, Kind)>, c: nat) returns (found: bool)
    ensures found == OperatorStarts(source, operators, c)
  {
    var k := 0;
    while k < |operators|
      invariant 0 <= k <= |operators|
      invariant forall i :: 0 <= i < k ==> !OperatorFits(source, c, operators[i].0)
    {
      if OperatorFits(source, c, operators[k].0) {
        return true;
      }
      k := k + 1;
    }
    return false;
  }

  /** The value test of parseSpecifierModifiers(): true, false or null fits
      at `c`. */
  method ValueAhead(source: string, values: seq<(string, Kind)>, c: nat) returns (found: bool)
    ensures found == ValueStarts(source, values, c)
  {
    var k := 0;
    while k < |values|
      invariant 0 <= k <= |values|
      invariant !ValueStarts(source, values[..k], c)
    {
      if ValueFits(source, c, values[k].0) {
        ValueFitsStarts(source, values, c, k);
        return true;
      }
      ValueStartsSnoc(source, values, c, k);
      k := k + 1;
    }
    assert values[..k] == values;
    return false;
  }

  /** One pass of the loop of parseConditions(). */
  method ConditionsStep(source: string, words: Lexicon, at: Scan) returns (e: Option<Scan>)
    requires 0 <= at.current
    ensures e == ConditionsExit(source, words, at)
  {
    var current := at.current;
    var f := at.flags;
    var symbol := Symbol(source, current);
    var prevSymbol := Symbol(source, current - 1);
    var part := if Truthy(at.image) then Some(TConditionPart) else at.kind;
    if IsSpaceAt(symbol) && !f.quote && !f.single {
      return Some(at.(kind := part, mode := Mode.ParseWhitespace, flags := f.(whiteSpaceReturn := Mode.ParseConditions)));
    }
    if (symbol == Some('"') || symbol == Some('\'')) && prevSymbol != Some('\\') {
      return Some(at.(kind := part, mode := Mode.ParseQuote, flags := f.(quoteReturn := Mode.ParseConditions)));
    }
    if !f.quote && !f.single {
      var found := OperatorAhead(source, words.operators, current);
      if found {
        return Some(at.(kind := part, mode := Mode.ParseOperator));
      }
    }
    if symbol == Some('(') && !f.quote && !f.single {
      return Some(at.(mode := Mode.ParseOpenParenthesesCondition,
                      flags := f.(openParenthesesCount := f.openParenthesesCount + 1)));
    }
    if symbol == Some(')') && !f.quote && !f.single && f.openParenthesesCount > 1 {
      return Some(at.(kind := part, mode := Mode.ParseCloseParenthesesCondition,
                      flags := f.(openParenthesesCount := f.openParenthesesCount - 1)));
    }
    var loop := (symbol != Some(')') || f.quote || f.single) && current < |source|;
    if loop {
      return None;
    }
    return Some(at.(kind := part, mode := Mode.ParseCloseParentheses,
                    flags := f.(openParenthesesCount := f.openParenthesesCount - 1)));
  }

  /** parseConditions(): read a condition part. */
  method ParseConditions(source: string, words: Lexicon, s: Scan) returns (r: Scan)
    requires 0 <= s.current
    ensures r == ConditionsScan(source, words, s)
  {
    var current := s.current;
    var image := s.image;
    while true
      invariant 0 <= current
      invariant ConditionsScan(source, words, s.(current := current, image := image)) == ConditionsScan(source, words, s)
      decreases |source| - current
    {
      var e := ConditionsStep(source, words, s.(current := current, image := image));
      if e.Some? {
        return e.value;
      }
      image := image + [source[current]];
      current := current + 1;
    }
  }

  /** One pass of the loop of parseSpecifierModifiers(): the mode it hands
      over to, or None when the character joins the modifier. */
  method ModifiersStep(source: string, words: Lexicon, at: Scan) returns (e: Option<Scan>)
    requires 0 <= at.current
    ensures e == ModifiersExit(source, words, at)
  {
    var current := at.current;
    var f := at.flags;
    var symbol := Symbol(source, current);
    var prevSymbol := Symbol(source, current - 1);
    var modifier := if Truthy(at.image) then Some(TModifier) else at.kind;
    if IsSpaceAt(symbol) && !f.quote && !f.single {
      return Some(at.(kind := modifier, mode := Mode.ParseWhitespace,
                      flags := f.(whiteSpaceReturn := Mode.ParseSpecifierModifiers)));
    }
    if symbol == Some(',') && !f.quote && !f.single {
      return Some(at.(kind := if at.image != "" then Some(TModifier) else at.kind, mode := Mode.ParseCommaSeparator,
                      flags := f.(commaSeparatorReturn := Mode.ParseSpecifierModifiers)));
    }
    if (symbol == Some('"') && !f.single) || (symbol == Some('\'') && !f.quote && prevSymbol != Some('\\')) {
      return Some(at.(kind := modifier, mode := Mode.ParseQuote, flags := f.(quoteReturn := Mode.ParseSpecifierModifiers)));
    }
    if !f.quote && !f.single {
      var found := ValueAhead(source, words.values, current);
      if found {
        return Some(at.(mode := Mode.ParseValue));
      }
    }
    var loop := (symbol != Some(')') || f.quote || f.single) && current < |source|;
    if loop {
      return None;
    }
    return Some(at.(kind := modifier, mode := Mode.ParseCloseParentheses));
  }

  /** parseSpecifierModifiers(): read one modifier. */
  method ParseSpecifierModifiers(source: string, words: Lexicon, s: Scan) returns (r: Scan)
    requires 0 <= s.current
    ensures r == ModifiersScan(source, words, s)
  {
    var current := s.current;
    var image := s.image;
    while true
      invariant 0 <= current
      invariant ModifiersScan(source, words, s.(current := current, image := image)) == ModifiersScan(source, words, s)
      decreases |source| - current
    {
      var e := ModifiersStep(source, words, s.(current := current, image := image));
      if e.Some? {
        return e.value;
      }
      image := image + [source[current]];
      current := current + 1;
    }
  }

  /** parseSpecifier(): read the specifier name. */
  method ParseSpecifier(source: string, s: Scan) returns (r: Scan)
    requires 0 <= s.current
    ensures r == SpecifierScan(source, s)
  {
    var current := s.current;
    var image := s.image;
    var f := s.flags;
    while true
      invariant 0 <= current
      invariant SpecifierScan(source, s.(current := current, image := image)) == SpecifierScan(source, s)
      decreases |source| - current
    {
      var symbol := Symbol(source, current);
      var secondSymbol := Symbol(source, current + 1);
      var at := s.(current := current, image := image);
      if IsSpaceAt(symbol) {
        if Truthy(image) {
          return at.(kind := Some(TSpecifier), mode := Mode.ParseWhitespace,
                     flags := f.(openParenthesesReturn := Mode.ParseSpecifierModifiers,
                                 whiteSpaceReturn := Mode.ParseOpenParentheses));
        }
        return at.(mode := Mode.ParseWhitespace, flags := f.(whiteSpaceReturn := Mode.ParseSpecifier));
      }
      if symbol == Some('(') {
        return at.(kind := Some(TSpecifier), mode := Mode.ParseOpenParentheses,
                   flags := f.(openParenthesesReturn := Mode.ParseSpecifierModifiers));
      }
      var loop := (symbol != Some('}') || secondSymbol != Some('}')) && current < |source|;
      if !loop {
        return at.(kind := if Truthy(image) then Some(TSpecifier) else s.kind, mode := Mode.ParseStatement);
      }
      image := image + [source[current]];
      current := current + 1;
    }
  }

  /** The foreach of parseOperator() and parseValue(): the index of the
      first word of the table that starts at `c`, in any case. */
  method FirstWordAt(source: string, c: nat, table: seq<(string, Kind)>) returns (k: nat)
    requires KeyStarts(source, c, table)
    ensures k < |table| && KeyAt(source, c, table[k].0)
    ensures forall i :: 0 <= i < k ==> !KeyAt(source, c, table[i].0)
  {
    ghost var j :| 0 <= j < |table| && KeyAt(source, c, table[j].0);
    k := 0;
    while !KeyAt(source, c, table[k].0)
      invariant 0 <= k <= j
      invariant forall i :: 0 <= i < k ==> !KeyAt(source, c, table[i].0)
      decreases j - k
    {
      k := k + 1;
    }
  }

  /** parseOperator() and parseValue(): the word found becomes the token, in
      the case it is written in, and the cursor moves past it. */
  method TakeFirstWord(source: string, s: Scan, table: seq<(string, Kind)>, next: Mode) returns (r: Scan)
    requires 0 <= s.current && KeyStarts(source, s.current, table)
    requires forall k :: 0 <= k < |table| ==> |table[k].0| > 0
    ensures r == TakeWord(source, s, table, next)
  {
    var k := FirstWordAt(source, s.current, table);
    FirstKeyIs(source, s.current, table, 0, k);
    var word := table[k].0;
    r := s.(kind := Some(table[k].1), image := Substr(source, s.current, |word|), current := s.current + |word|, mode := next);
  }

  /** One call of the mode the state names. */
  method CallMode(source: string, words: Lexicon, s: Scan) returns (r: Scan)
    requires Ready(source, words, s) && !s.finish
    ensures r == Call(source, words, s)
  {
    match s.mode
    case Parse => r := Parse(source, s);
    case ParseStatement => r := ParseStatement(source, s);
    case ParseWhitespace => r := ParseWhitespace(source, s);
    case ParseConditions => r := ParseConditions(source, words, s);
    case ParseSpecifierModifiers => r := ParseSpecifierModifiers(source, words, s);
    case ParseSpecifier => r := ParseSpecifier(source, s);
    case ParseOperator => r := TakeFirstWord(source, s, words.operators, Mode.ParseConditions);
    case ParseValue => r := TakeFirstWord(source, s, words.values, Mode.ParseSpecifierModifiers);
    // The mark modes read a fixed mark and have no loop: the scanner's
    // function is their model.
    case ParseOpenStatement => r := OpenStatementScan(source, s);
    case ParseCloseStatement => r := CloseStatementScan(source, s);
    case ParseQuote => r := QuoteScan(source, s);
    case ParseCommaSeparator => r := CommaScan(source, s);
    case ParseCloseParentheses => r := CloseParenthesesScan(source, s);
    case ParseOpenParenthesesCondition => r := OpenConditionParenthesisScan(source, s);
    case ParseCloseParenthesesCondition => r := CloseConditionParenthesisScan(source, s);
    case ParseOpenParentheses => r := OpenParenthesesScan(source, s);
    case ParseSeparator => r := SeparatorScan(source, s);
  }

  /** The tokenizer object: the mode to call next, the modes to return to
      after whitespace, a quote, a comma and an opening parenthesis, the count
      of open parentheses, and the tokens read. */
  class Tokenizer {
    const source: string
    /** `static::$operators` and `static::$values`. */
    const words: Lexicon
    var parseFunction: Mode
    var whiteSpaceReturn: Mode
    var quoteReturn: Mode
    var commaSeparatorReturn: Mode
    var openParenthesesReturn: Mode
    var openParenthesesCount: int
    var tokens: seq<Token>

    /** The object's fields agree with those of a scanner state. */
    predicate Holds(s: Scan)
      reads this
    {
      parseFunction == s.mode && whiteSpaceReturn == s.flags.whiteSpaceReturn
      && quoteReturn == s.flags.quoteReturn && commaSeparatorReturn == s.flags.commaSeparatorReturn
      && openParenthesesReturn == s.flags.openParenthesesReturn
      && openParenthesesCount == s.flags.openParenthesesCount
    }

    constructor (source: string)
      ensures this.source == source && words == Words && tokens == [] && Holds(Start)
    {
      this.source := source;
      words := Words;
      parseFunction := Mode.Parse;
      whiteSpaceReturn := Mode.ParseStatement;
      quoteReturn := Mode.ParseConditions;
      commaSeparatorReturn := Mode.ParseSpecifierModifiers;
      openParenthesesReturn := Mode.ParseConditions;
      openParenthesesCount := 0;
      tokens := [];
    }

    /** The writes a mode makes to the object's fields. */
    method Keep(s: Scan)
      modifies this
      ensures Holds(s) && tokens == old(tokens)
    {
      parseFunction := s.mode;
      whiteSpaceReturn := s.flags.whiteSpaceReturn;
      quoteReturn := s.flags.quoteReturn;
      commaSeparatorReturn := s.flags.commaSeparatorReturn;
      openParenthesesReturn := s.flags.openParenthesesReturn;
      openParenthesesCount := s.flags.openParenthesesCount;
    }

    /** The driver: from the start of the source, call the current mode;
        when it has set a type, add a token with the image and start the
        next one empty; stop once `finish` is set. */
    method Run()
      requires words == Words && Holds(Start) && tokens == []
      modifies this
      ensures tokens == Tokenize(source)
    {
      TablesHaveWords();
      var s := Start;
      while !s.finish
        invariant Ready(source, words, s) && Holds(s)
        invariant Scanner.Run(source, words, s) == Scanner.Run(source, words, Start)
        decreases Measure(source, s)
      {
        CallProgress(source, words, s);
        s := CallMode(source, words, s);
        Keep(s);
        if s.kind.Some? {
          s := s.(tokens := s.tokens + [Token(s.kind.value, s.image)], image := "", kind := None);
        }
      }
      tokens := s.tokens;
    }
  }

  /** Tokenizing a source with a fresh tokenizer. */
  method TokenizeSource(source: string) returns (tokens: seq<Token>)
    ensures tokens == Tokenize(source)
  {
    var t := new Tokenizer(source);
    t.Run();
    tokens := t.tokens;
  }
}

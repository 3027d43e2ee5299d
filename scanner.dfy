/** The scan modes of src/Tokenizer/Tokenizer.php as functions on an explicit
    scanner state. Each `parse*` method of the source becomes one function
    here that takes the state a mode starts in and gives the state it hands
    over (the do-while loops of the source become recursion on the cursor),
    and `Run` is the driver of the base class: call the current mode, emit a
    token when the mode has set a type, stop once `finish` is set. */
module Scanner {
  import opened Php
  import opened Tokens

  /** The scan mode, named after the method the source hands to
      `setParseFunction`. */
  datatype Mode =
    | Parse
    | ParseOpenStatement
    | ParseCloseStatement
    | ParseStatement
    | ParseOperator
    | ParseValue
    | ParseConditions
    | ParseQuote
    | ParseSpecifierModifiers
    | ParseCommaSeparator
    | ParseCloseParentheses
    | ParseOpenParenthesesCondition
    | ParseCloseParenthesesCondition
    | ParseOpenParentheses
    | ParseSpecifier
    | ParseSeparator
    | ParseWhitespace

  /** The tokenizer's own fields that the modes read and set: the quote
      flags, the modes to return to after whitespace, a quote, a comma and
      an opening parenthesis, and the count of open parentheses. */
  datatype Flags = Flags(
    quote: bool,
    single: bool,
    whiteSpaceReturn: Mode,
    quoteReturn: Mode,
    commaSeparatorReturn: Mode,
    openParenthesesReturn: Mode,
    openParenthesesCount: int)

  /** Everything a mode reads or writes: the mode, the by-reference
      arguments of the `parse*` methods (finish, current, image, type,
      tokens) and the tokenizer's fields. */
  datatype Scan = Scan(
    mode: Mode,
    finish: bool,
    current: int,
    image: string,
    kind: Option<Kind>,
    flags: Flags,
    tokens: seq<Token>)

  /** `static::$operators`, in the order the foreach tries them. */
  const Operators: seq<(string, Kind)> := [
    ("false", TFalse), ("true", TTrue), ("null", TNull), ("and", TLogicalAnd),
    ("===", TIsIdentical), ("!==", TIsNotIdentical), ("or", TLogicalOr),
    (">=", TGte), ("<=", TLte), ("&&", TAnd), ("||", TOr), ("==", TIsEqual),
    ("!=", TIsNotEqual), (">", TGt), ("<", TLt), ("!", TNot), ("+", TPlus),
    ("-", TMinus), ("*", TMultiply), ("/", TDivide), ("%", TMod), (".", TConcat)]

  /** `static::$values`. */
  const Values: seq<(string, Kind)> := [("false", TFalse), ("true", TTrue), ("null", TNull)]

  /** `mb_substr($source, $i, 1)` as an optional character: a start of -1
      reads the last character, a start past the end reads nothing. */
  function Symbol(source: string, i: int): (r: Option<char>)
    ensures 0 <= i < |source| ==> r == Some(source[i])
    ensures i >= |source| ==> r == None
  {
    var j := if i >= 0 then i else if |source| + i >= 0 then |source| + i else 0;
    if j < |source| then Some(source[j]) else None
  }

  /** The symbol as the one-character string PHP works with. */
  function SymbolString(o: Option<char>): string
  {
    if o.Some? then [o.value] else ""
  }

  lemma SymbolIsCharAt(source: string, i: int)
    ensures SymbolString(Symbol(source, i)) == CharAt(source, i)
  {
  }

  /** `!$symbol`: no character, or the character "0". */
  predicate Falsy(o: Option<char>)
  {
    o.None? || o.value == '0'
  }

  /** `preg_match('/[\s\t\n]/mui', $symbol)`. */
  predicate IsSpaceAt(o: Option<char>)
  {
    o.Some? && IsSpace(o.value)
  }

  /** The boundary class around word operators in a condition,
      `[\s\t\n\(\)\!\+\-\/\*\%\&\|]`. */
  predicate ConditionBoundary(o: Option<char>)
  {
    o.Some? && (IsSpace(o.value) || o.value in "()!+-/*%&|")
  }

  /** The boundary class around true/false/null in a modifier list,
      `[\s\t\n\,\(\)]`. */
  predicate ModifierBoundary(o: Option<char>)
  {
    o.Some? && (IsSpace(o.value) || o.value in ",()")
  }

  /** A character of `\w` among the ASCII characters the tables use. */
  predicate WordChar(c: char)
  {
    'a' <= c <= 'z' || 'A' <= c <= 'Z' || '0' <= c <= '9' || c == '_'
  }

  /** `preg_match('/[\w]+/mui', $operator)`. */
  predicate HasWordChar(s: string)
  {
    s != [] && (WordChar(s[0]) || HasWordChar(s[1..]))
  }

  /** `mb_strtolower(mb_substr($source, $c, mb_strlen($word))) === $word`. */
  predicate KeyAt(source: string, c: nat, word: string)
  {
    ToLower(Substr(source, c, |word|)) == word
  }

  lemma KeyAtFits(source: string, c: nat, word: string)
    requires |word| > 0 && KeyAt(source, c, word)
    ensures c + |word| <= |source|
  {
  }

  /** The foreach of parseOperator/parseValue: the first entry of the table
      whose word starts at `c`, in any case. */
  function FirstKey(source: string, c: nat, table: seq<(string, Kind)>, k: nat): (r: Option<nat>)
    ensures r.Some? ==> k <= r.value < |table| && KeyAt(source, c, table[r.value].0)
    decreases |table| - k
  {
    if k >= |table| then None
    else if KeyAt(source, c, table[k].0) then Some(k)
    else FirstKey(source, c, table, k + 1)
  }

  /** The entry found is the first that starts at `c`; none found means no
      entry from `k` on starts there. */
  lemma {:induction false} FirstKeyFirst(source: string, c: nat, table: seq<(string, Kind)>, k: nat)
    ensures var r := FirstKey(source, c, table, k);
            (r.Some? ==> forall j :: k <= j < r.value ==> !KeyAt(source, c, table[j].0))
            && (r.None? ==> forall j :: k <= j < |table| ==> !KeyAt(source, c, table[j].0))
    decreases |table| - k
  {
    if k < |table| && !KeyAt(source, c, table[k].0) {
      FirstKeyFirst(source, c, table, k + 1);
    }
  }

  lemma {:induction false} FirstKeyFinds(source: string, c: nat, table: seq<(string, Kind)>, k: nat, j: nat)
    requires k <= j < |table| && KeyAt(source, c, table[j].0)
    ensures FirstKey(source, c, table, k).Some?
    decreases j - k
  {
    if !KeyAt(source, c, table[k].0) {
      FirstKeyFinds(source, c, table, k + 1, j);
    }
  }

  /** The first match found scanning from `k` is the only match at or after
      `k` with none before it. */
  lemma FirstKeyIs(source: string, c: nat, table: seq<(string, Kind)>, k: nat, j: nat)
    requires k <= j < |table| && KeyAt(source, c, table[j].0)
    requires forall i :: k <= i < j ==> !KeyAt(source, c, table[i].0)
    ensures FirstKey(source, c, table, k) == Some(j)
  {
    FirstKeyFinds(source, c, table, k, j);
    FirstKeyFirst(source, c, table, k);
    assert KeyAt(source, c, table[FirstKey(source, c, table, k).value].0);
  }

  /** The test parseConditions makes of one operator: it starts at `c`, and a
      word operator also needs a falsy next symbol or boundary characters on
      both sides. */
  predicate OperatorFits(source: string, c: nat, op: string)
  {
    var next := Symbol(source, c + |op|);
    KeyAt(source, c, op)
    && (!HasWordChar(op) || Falsy(next) || (ConditionBoundary(Symbol(source, c - 1)) && ConditionBoundary(next)))
  }

  /** Some operator of the table fits at `c`. */
  predicate OperatorStarts(source: string, operators: seq<(string, Kind)>, c: nat)
  {
    exists k :: 0 <= k < |operators| && OperatorFits(source, c, operators[k].0)
  }

  /** The test parseSpecifierModifiers makes of one of true/false/null. */
  predicate ValueFits(source: string, c: nat, value: string)
  {
    var next := Symbol(source, c + |value|);
    KeyAt(source, c, value) && (Falsy(next) || (ModifierBoundary(Symbol(source, c - 1)) && ModifierBoundary(next)))
  }

  predicate ValueStarts(source: string, values: seq<(string, Kind)>, c: nat)
  {
    exists k :: 0 <= k < |values| && ValueFits(source, c, values[k].0)
  }

  /** Some word of the table starts at `c`. */
  predicate KeyStarts(source: string, c: nat, table: seq<(string, Kind)>)
  {
    exists k :: 0 <= k < |table| && KeyAt(source, c, table[k].0)
  }

  lemma KeyStartsFindsKey(source: string, c: nat, table: seq<(string, Kind)>)
    requires KeyStarts(source, c, table)
    ensures FirstKey(source, c, table, 0).Some?
  {
    var k :| 0 <= k < |table| && KeyAt(source, c, table[k].0);
    FirstKeyFinds(source, c, table, 0, k);
  }

  lemma OperatorStartsIsKey(source: string, operators: seq<(string, Kind)>, c: nat)
    requires OperatorStarts(source, operators, c)
    ensures KeyStarts(source, c, operators)
  {
    var k :| 0 <= k < |operators| && OperatorFits(source, c, operators[k].0);
    assert KeyAt(source, c, operators[k].0);
  }

  lemma ValueFitsStarts(source: string, values: seq<(string, Kind)>, c: nat, k: nat)
    requires k < |values| && ValueFits(source, c, values[k].0)
    ensures ValueStarts(source, values, c)
  {
  }

  /** A table whose first k words do not fit, and whose word k does not
      either, has no fitting word among its first k + 1. */
  lemma ValueStartsSnoc(source: string, values: seq<(string, Kind)>, c: nat, k: nat)
    requires k < |values| && !ValueStarts(source, values[..k], c) && !ValueFits(source, c, values[k].0)
    ensures !ValueStarts(source, values[..k + 1], c)
  {
    var longer := values[..k + 1];
    forall i | 0 <= i < k + 1
      ensures !ValueFits(source, c, longer[i].0)
    {
      if i < k {
        assert longer[i] == values[..k][i];
      }
    }
  }

  lemma ValueStartsIsKey(source: string, values: seq<(string, Kind)>, c: nat)
    requires ValueStarts(source, values, c)
    ensures KeyStarts(source, c, values)
  {
    var k :| 0 <= k < |values| && ValueFits(source, c, values[k].0);
    assert KeyAt(source, c, values[k].0);
  }

  /** The two tables the scanner matches words against. */
  datatype Lexicon = Lexicon(operators: seq<(string, Kind)>, values: seq<(string, Kind)>)

  /** The tables of the source. */
  const Words := Lexicon(Operators, Values)

  /** No entry of either table is empty. */
  predicate HasWords(words: Lexicon)
  {
    (forall k :: 0 <= k < |words.operators| ==> |words.operators[k].0| > 0)
    && (forall k :: 0 <= k < |words.values| ==> |words.values[k].0| > 0)
  }

  lemma TablesHaveWords()
    ensures HasWords(Words)
  {
    forall k | 0 <= k < |Operators|
      ensures |Operators[k].0| > 0
    {
      if k < 11 {
        assert Operators[k] in Operators[..11];
      } else {
        assert Operators[k] in Operators[11..];
      }
    }
  }

  /** The `|` test of parseStatement: neither of the last two tokens is a
      variable. */
  predicate LastTwoLackVariable(tokens: seq<Token>)
  {
    var n := |tokens|;
    n == 0 || (tokens[n - 1].kind != TVariable && (n < 2 || tokens[n - 2].kind != TVariable))
  }

  /** The test at the end of parseStatement: the statement was just opened,
      possibly followed by whitespace. */
  predicate FollowsOpen(tokens: seq<Token>)
  {
    var n := |tokens|;
    (n > 0 && tokens[n - 1].kind == TOpenStatement)
    || (n > 1 && tokens[n - 2].kind == TOpenStatement && tokens[n - 1].kind == TWhitespace)
  }

  // ---------------------------------------------------------------------
  // What every mode may rely on when it is called, and the measure that
  // makes the driver terminate.

  /** Where the next unread character is: `parse` advances before it reads,
      every other mode reads at `current`. */
  function NextPos(mode: Mode, current: int): int
  {
    if mode == Parse then current + 1 else current
  }

  /** The order of the hand-overs that do not advance: a mode hands over at
      the same position only to a mode of lower rank. */
  function Rank(source: string, mode: Mode, current: int): nat
  {
    match mode
    case Parse => 1
    case ParseStatement => 2
    case ParseOpenParentheses => if Symbol(source, current) == Some('(') then 0 else 3
    case ParseSpecifier => 4
    case ParseConditions => 1
    case ParseSpecifierModifiers => 1
    case _ => 0
  }

  /** Decreases with every call of a mode; zero once the scan has finished. */
  function Measure(source: string, s: Scan): nat
  {
    var d := |source| + 2 - NextPos(s.mode, s.current);
    if s.finish || d < 0 then 0 else d * 5 + Rank(source, s.mode, s.current)
  }

  /** Where a mode may be entered. */
  predicate Entry(source: string, words: Lexicon, mode: Mode, c: int)
  {
    match mode
    case Parse => -1 <= c <= |source|
    case ParseStatement => 0 <= c <= |source| + 1
    case ParseOperator => 0 <= c && KeyStarts(source, c, words.operators)
    case ParseValue => 0 <= c && KeyStarts(source, c, words.values)
    case ParseWhitespace => 0 <= c < |source| && IsSpace(source[c])
    case ParseOpenStatement => 0 <= c < |source|
    case ParseCloseStatement => 0 <= c < |source|
    case ParseSeparator => 0 <= c < |source|
    case ParseQuote => 0 <= c < |source|
    case ParseCommaSeparator => 0 <= c < |source|
    case ParseOpenParenthesesCondition => 0 <= c < |source|
    case ParseCloseParenthesesCondition => 0 <= c < |source|
    case _ => 0 <= c <= |source|
  }

  /** The two quote flags are never both set, and the return modes are the
      ones the source stores in them. */
  predicate FlagsOk(f: Flags)
  {
    !(f.quote && f.single)
    && (f.whiteSpaceReturn == ParseStatement || f.whiteSpaceReturn == ParseConditions
        || f.whiteSpaceReturn == ParseSpecifierModifiers || f.whiteSpaceReturn == ParseSpecifier
        || f.whiteSpaceReturn == ParseOpenParentheses)
    && (f.quoteReturn == ParseConditions || f.quoteReturn == ParseSpecifierModifiers)
    && f.commaSeparatorReturn == ParseSpecifierModifiers
    && (f.openParenthesesReturn == ParseConditions || f.openParenthesesReturn == ParseSpecifierModifiers)
  }

  /** The scanner invariant: the flags are consistent and an unfinished scan
      is at a proper entry of its mode. */
  predicate Ready(source: string, words: Lexicon, s: Scan)
  {
    HasWords(words) && FlagsOk(s.flags) && (s.finish || Entry(source, words, s.mode, s.current))
  }

  /** A call made from state `s` that hands over state `r` keeps the
      invariant and brings the scan closer to its end. */
  predicate Progress(source: string, words: Lexicon, s: Scan, r: Scan)
  {
    Ready(source, words, r) && Measure(source, r) < Measure(source, s)
  }

  // ---------------------------------------------------------------------
  // The modes. Each function needs of its state only what its indexing
  // needs; that the driver only ever calls a mode in a state where the
  // mode may be entered is the business of the lemmas further down.

  /** parse(): text up to `{{` or `}}`, or to the end of the source. */
  function TextScan(source: string, s: Scan): Scan
    requires -1 <= s.current
    decreases |source| - s.current
  {
    var c := s.current + 1;
    if !Truthy(source) || c >= |source| then s.(current := c, finish := true)
    else if source[c] == '{' && Symbol(source, c + 1) == Some('{') then s.(current := c, mode := ParseOpenStatement)
    else if source[c] == '}' && Symbol(source, c + 1) == Some('}') then s.(current := c, mode := ParseCloseStatement)
    else TextScan(source, s.(current := c, kind := Some(TText), image := s.image + [source[c]]))
  }

  /** parseOpenStatement(): the two characters `{{`. */
  function OpenStatementScan(source: string, s: Scan): Scan
  {
    var c := s.current;
    s.(image := SymbolString(Symbol(source, c)) + SymbolString(Symbol(source, c + 1)),
       kind := Some(TOpenStatement), mode := ParseStatement, current := c + 2)
  }

  /** parseCloseStatement(): the two characters `}}`. */
  function CloseStatementScan(source: string, s: Scan): Scan
  {
    var c := s.current;
    s.(image := SymbolString(Symbol(source, c)) + SymbolString(Symbol(source, c + 1)),
       kind := Some(TCloseStatement), mode := Parse, current := c + 1)
  }

  /** One pass of the loop of parseStatement(): the state the loop is left
      with, or None when the character at `current` joins the word. */
  function StatementExit(source: string, s: Scan): (r: Option<Scan>)
    ensures r.None? ==> s.current < |source|
  {
    var c := s.current;
    var symbol := Symbol(source, c);
    var second := Symbol(source, c + 1);
    var typed := if Truthy(s.image) then Some(Keyword(s.image)) else s.kind;
    if IsSpaceAt(symbol) then
      Some(s.(mode := ParseWhitespace, kind := typed, flags := s.flags.(whiteSpaceReturn := ParseStatement)))
    else if symbol == Some('|') then
      Some(s.(mode := ParseSeparator, kind := if LastTwoLackVariable(s.tokens) then Some(TVariable) else s.kind))
    else if symbol == Some('(') then
      Some(s.(mode := ParseOpenParentheses, kind := typed,
              flags := s.flags.(openParenthesesCount := s.flags.openParenthesesCount + 1,
                                openParenthesesReturn := ParseConditions)))
    else if symbol == Some('}') && Falsy(second) then
      Some(s.(current := c - 1, mode := Parse, kind := typed))
    else if (symbol != Some('}') || second != Some('}')) && c < |source| then
      None
    else
      Some(s.(current := c - 1, mode := Parse,
              kind := if !FollowsOpen(s.tokens) then s.kind
                      else if Truthy(s.image) then Some(Keyword(s.image)) else Some(TVariable)))
  }

  /** parseStatement(): the word after `{{`, up to whitespace, `|`, `(`, a
      lone `}` at the end, or `}}`. */
  function StatementScan(source: string, s: Scan): Scan
    requires 0 <= s.current
    decreases |source| - s.current
  {
    match StatementExit(source, s)
    case Some(r) => r
    case None => StatementScan(source, s.(image := s.image + [source[s.current]], current := s.current + 1))
  }

  /** The loop of parseWhitespace(): the run of whitespace from `current`. */
  function WhitespaceRun(source: string, s: Scan): (r: Scan)
    requires 0 <= s.current <= |source|
    ensures s.current <= r.current <= |source|
    ensures r == s.(image := s.image + source[s.current..r.current], current := r.current)
    ensures forall i :: s.current <= i < r.current ==> IsSpace(source[i])
    ensures r.current == |source| || !IsSpace(source[r.current])
    decreases |source| - s.current
  {
    var c := s.current;
    if c < |source| && IsSpace(source[c]) then
      var r := WhitespaceRun(source, s.(image := s.image + [source[c]], current := c + 1));
      SliceStep(s.image, source, c, r.current);
      r
    else
      assert source[c..c] == [];
      s
  }

  /** The run of whitespace ends at the first character that is not
      whitespace. */
  lemma WhitespaceRunEnds(source: string, s: Scan, c: int)
    requires 0 <= s.current <= c <= |source|
    requires forall i :: s.current <= i < c ==> IsSpace(source[i])
    requires c == |source| || !IsSpace(source[c])
    ensures WhitespaceRun(source, s) == s.(image := s.image + source[s.current..c], current := c)
  {
  }

  /** parseWhitespace(): one WHITESPACE token for the whole run, then back to
      the mode that asked for it. */
  function WhitespaceScan(source: string, s: Scan): Scan
    requires 0 <= s.current <= |source|
  {
    WhitespaceRun(source, s.(kind := Some(TWhitespace))).(mode := s.flags.whiteSpaceReturn)
  }

  /** One pass of the loop of parseConditions(). */
  function ConditionsExit(source: string, words: Lexicon, s: Scan): (r: Option<Scan>)
    requires 0 <= s.current
    ensures r.None? ==> s.current < |source|
  {
    var c := s.current;
    var f := s.flags;
    var symbol := Symbol(source, c);
    var part := if Truthy(s.image) then Some(TConditionPart) else s.kind;
    var free := !f.quote && !f.single;
    if IsSpaceAt(symbol) && free then
      Some(s.(mode := ParseWhitespace, kind := part, flags := f.(whiteSpaceReturn := ParseConditions)))
    else if (symbol == Some('"') || symbol == Some('\'')) && Symbol(source, c - 1) != Some('\\') then
      Some(s.(mode := ParseQuote, kind := part, flags := f.(quoteReturn := ParseConditions)))
    else if free && OperatorStarts(source, words.operators, c) then
      Some(s.(mode := ParseOperator, kind := part))
    else if symbol == Some('(') && free then
      Some(s.(mode := ParseOpenParenthesesCondition, flags := f.(openParenthesesCount := f.openParenthesesCount + 1)))
    else if symbol == Some(')') && free && f.openParenthesesCount > 1 then
      Some(s.(mode := ParseCloseParenthesesCondition, kind := part,
              flags := f.(openParenthesesCount := f.openParenthesesCount - 1)))
    else if (symbol != Some(')') || !free) && c < |source| then
      None
    else
      Some(s.(mode := ParseCloseParentheses, kind := part,
              flags := f.(openParenthesesCount := f.openParenthesesCount - 1)))
  }

  /** parseConditions(): a condition part, up to whitespace, a quote, an
      operator, a parenthesis, or the `)` that closes the condition. */
  function ConditionsScan(source: string, words: Lexicon, s: Scan): Scan
    requires 0 <= s.current
    decreases |source| - s.current
  {
    match ConditionsExit(source, words, s)
    case Some(r) => r
    case None => ConditionsScan(source, words, s.(image := s.image + [source[s.current]], current := s.current + 1))
  }

  /** The foreach shared by parseOperator() and parseValue(): the first word
      of the table that starts here becomes the token, in the case it is
      written in, and the cursor moves past it. The modes are only entered
      when some word does start here. */
  function TakeWord(source: string, s: Scan, table: seq<(string, Kind)>, next: Mode): (r: Scan)
    requires 0 <= s.current && KeyStarts(source, s.current, table)
    requires forall k :: 0 <= k < |table| ==> |table[k].0| > 0
    ensures s.current < r.current <= |source|
    ensures r == s.(kind := r.kind, image := r.image, current := r.current, mode := next)
  {
    var c := s.current;
    KeyStartsFindsKey(source, c, table);
    var k := FirstKey(source, c, table, 0).value;
    var word := table[k].0;
    KeyAtFits(source, c, word);
    s.(kind := Some(table[k].1), image := Substr(source, c, |word|), current := c + |word|, mode := next)
  }

  /** parseOperator(): the first operator of the table that starts here. */
  function OperatorScan(source: string, words: Lexicon, s: Scan): Scan
    requires 0 <= s.current && KeyStarts(source, s.current, words.operators) && HasWords(words)
  {
    TakeWord(source, s, words.operators, ParseConditions)
  }

  /** parseQuote(): one quote character; `"` toggles the double-quote flag
      unless inside single quotes, `'` the single-quote flag unless inside
      double quotes. */
  function QuoteScan(source: string, s: Scan): Scan
    requires 0 <= s.current < |source|
  {
    var c := s.current;
    var f := s.flags;
    var quote := if source[c] == '"' && !f.single then !f.quote else f.quote;
    var single := if source[c] == '\'' && !quote then !f.single else f.single;
    s.(kind := Some(TQuote), image := [source[c]], flags := f.(quote := quote, single := single),
       current := c + 1, mode := f.quoteReturn)
  }

  /** One pass of the loop of parseSpecifierModifiers(). */
  function ModifiersExit(source: string, words: Lexicon, s: Scan): (r: Option<Scan>)
    requires 0 <= s.current
    ensures r.None? ==> s.current < |source|
  {
    var c := s.current;
    var f := s.flags;
    var symbol := Symbol(source, c);
    var modifier := if Truthy(s.image) then Some(TModifier) else s.kind;
    var free := !f.quote && !f.single;
    if IsSpaceAt(symbol) && free then
      Some(s.(mode := ParseWhitespace, kind := modifier, flags := f.(whiteSpaceReturn := ParseSpecifierModifiers)))
    else if symbol == Some(',') && free then
      Some(s.(mode := ParseCommaSeparator, kind := if s.image != "" then Some(TModifier) else s.kind,
              flags := f.(commaSeparatorReturn := ParseSpecifierModifiers)))
    else if (symbol == Some('"') && !f.single)
         || (symbol == Some('\'') && !f.quote && Symbol(source, c - 1) != Some('\\')) then
      Some(s.(mode := ParseQuote, kind := modifier, flags := f.(quoteReturn := ParseSpecifierModifiers)))
    else if free && ValueStarts(source, words.values, c) then
      Some(s.(mode := ParseValue))
    else if (symbol != Some(')') || !free) && c < |source| then
      None
    else
      Some(s.(mode := ParseCloseParentheses, kind := modifier))
  }

  /** parseSpecifierModifiers(): one modifier, up to whitespace, a comma, a
      quote, true/false/null, or the closing `)`. */
  function ModifiersScan(source: string, words: Lexicon, s: Scan): Scan
    requires 0 <= s.current
    decreases |source| - s.current
  {
    match ModifiersExit(source, words, s)
    case Some(r) => r
    case None => ModifiersScan(source, words, s.(image := s.image + [source[s.current]], current := s.current + 1))
  }

  /** parseValue(): true, false or null as a literal token. */
  function ValueScan(source: string, words: Lexicon, s: Scan): Scan
    requires 0 <= s.current && KeyStarts(source, s.current, words.values) && HasWords(words)
  {
    TakeWord(source, s, words.values, ParseSpecifierModifiers)
  }

  /** parseCommaSeparator(). */
  function CommaScan(source: string, s: Scan): Scan
    requires 0 <= s.current < |source|
  {
    s.(kind := Some(TCommaSeparator), image := [source[s.current]], current := s.current + 1,
       mode := s.flags.commaSeparatorReturn)
  }

  /** parseCloseParentheses(): a `)` if there is one; the cursor moves on
      either way. */
  function CloseParenthesesScan(source: string, s: Scan): Scan
  {
    var c := s.current;
    if Symbol(source, c) == Some(')') then
      s.(kind := Some(TCloseParentheses), image := ")", current := c + 1, mode := ParseStatement)
    else
      s.(current := c + 1, mode := ParseStatement)
  }

  /** parseOpenParenthesesCondition(). */
  function OpenConditionParenthesisScan(source: string, s: Scan): Scan
    requires 0 <= s.current < |source|
  {
    s.(kind := Some(TOpenParenthesesCondition), image := [source[s.current]], current := s.current + 1,
       mode := ParseConditions)
  }

  /** parseCloseParenthesesCondition(). */
  function CloseConditionParenthesisScan(source: string, s: Scan): Scan
    requires 0 <= s.current < |source|
  {
    s.(kind := Some(TCloseParenthesesCondition), image := [source[s.current]], current := s.current + 1,
       mode := ParseConditions)
  }

  /** parseOpenParentheses(): a `(` opens the condition or the modifier
      list; anything else goes back to the statement. */
  function OpenParenthesesScan(source: string, s: Scan): Scan
  {
    var c := s.current;
    if Symbol(source, c) == Some('(') then
      s.(kind := Some(TOpenParentheses), image := "(", current := c + 1, mode := s.flags.openParenthesesReturn)
    else
      s.(mode := ParseStatement)
  }

  /** One pass of the loop of parseSpecifier(). */
  function SpecifierExit(source: string, s: Scan): (r: Option<Scan>)
    ensures r.None? ==> s.current < |source|
  {
    var c := s.current;
    var f := s.flags;
    var symbol := Symbol(source, c);
    if IsSpaceAt(symbol) then
      if Truthy(s.image) then
        Some(s.(mode := ParseWhitespace, kind := Some(TSpecifier),
                flags := f.(openParenthesesReturn := ParseSpecifierModifiers, whiteSpaceReturn := ParseOpenParentheses)))
      else
        Some(s.(mode := ParseWhitespace, flags := f.(whiteSpaceReturn := ParseSpecifier)))
    else if symbol == Some('(') then
      Some(s.(mode := ParseOpenParentheses, kind := Some(TSpecifier),
              flags := f.(openParenthesesReturn := ParseSpecifierModifiers)))
    else if (symbol != Some('}') || Symbol(source, c + 1) != Some('}')) && c < |source| then
      None
    else
      Some(s.(mode := ParseStatement, kind := if Truthy(s.image) then Some(TSpecifier) else s.kind))
  }

  /** parseSpecifier(): the specifier name after `|`. */
  function SpecifierScan(source: string, s: Scan): Scan
    requires 0 <= s.current
    decreases |source| - s.current
  {
    match SpecifierExit(source, s)
    case Some(r) => r
    case None => SpecifierScan(source, s.(image := s.image + [source[s.current]], current := s.current + 1))
  }

  /** parseSeparator(): the `|`. */
  function SeparatorScan(source: string, s: Scan): Scan
    requires 0 <= s.current < |source|
  {
    s.(kind := Some(TSeparator), image := [source[s.current]], current := s.current + 1, mode := ParseSpecifier)
  }

  /** One call of the current mode. */
  function Call(source: string, words: Lexicon, s: Scan): Scan
    requires Ready(source, words, s) && !s.finish
  {
    match s.mode
    case Parse => TextScan(source, s)
    case ParseOpenStatement => OpenStatementScan(source, s)
    case ParseCloseStatement => CloseStatementScan(source, s)
    case ParseStatement => StatementScan(source, s)
    case ParseOperator => OperatorScan(source, words, s)
    case ParseValue => ValueScan(source, words, s)
    case ParseConditions => ConditionsScan(source, words, s)
    case ParseQuote => QuoteScan(source, s)
    case ParseSpecifierModifiers => ModifiersScan(source, words, s)
    case ParseCommaSeparator => CommaScan(source, s)
    case ParseCloseParentheses => CloseParenthesesScan(source, s)
    case ParseOpenParenthesesCondition => OpenConditionParenthesisScan(source, s)
    case ParseCloseParenthesesCondition => CloseConditionParenthesisScan(source, s)
    case ParseOpenParentheses => OpenParenthesesScan(source, s)
    case ParseSpecifier => SpecifierScan(source, s)
    case ParseSeparator => SeparatorScan(source, s)
    case ParseWhitespace => WhitespaceScan(source, s)
  }

  /** The driver: a mode that has set a type emits a token with the image,
      and the image and type start over. */
  function Emit(s: Scan): (r: Scan)
    ensures r.mode == s.mode && r.current == s.current && r.finish == s.finish && r.flags == s.flags
    ensures r.kind.None?
    ensures s.kind.Some? ==> r.tokens == s.tokens + [Token(s.kind.value, s.image)] && r.image == ""
    ensures s.kind.None? ==> r == s
  {
    if s.kind.Some? then s.(tokens := s.tokens + [Token(s.kind.value, s.image)], image := "", kind := None)
    else s
  }

  /** Call modes until one sets `finish`. */
  function Run(source: string, words: Lexicon, s: Scan): (r: Scan)
    requires Ready(source, words, s)
    ensures r.finish
    decreases Measure(source, s)
  {
    if s.finish then s
    else
      CallProgress(source, words, s);
      Run(source, words, Emit(Call(source, words, s)))
  }

  /** The state the constructor starts from. The return-mode fields start as
      empty strings in the source and are always set before they are used;
      here they start at modes of the kind they will hold. */
  const Start := Scan(Parse, false, -1, "", None,
                      Flags(false, false, ParseStatement, ParseConditions, ParseSpecifierModifiers, ParseConditions, 0),
                      [])

  /** The tokens of a source. */
  function Tokenize(source: string): seq<Token>
  {
    TablesHaveWords();
    Run(source, Words, Start).tokens
  }

  // ---------------------------------------------------------------------
  // Every call of a mode keeps the scanner invariant and lowers the
  // measure, so the driver terminates.

  /** A hand-over to another mode at the same position, of lower rank. */
  lemma SamePlace(source: string, words: Lexicon, s: Scan, r: Scan)
    requires Ready(source, words, s) && !s.finish && s.mode != Parse
    requires !r.finish && r.mode != Parse && r.current == s.current
    requires Entry(source, words, r.mode, r.current) && FlagsOk(r.flags)
    requires Rank(source, r.mode, r.current) < Rank(source, s.mode, s.current)
    ensures Progress(source, words, s, r)
  {
  }

  lemma StatementExitProgress(source: string, words: Lexicon, s: Scan)
    requires Ready(source, words, s) && !s.finish && s.mode == ParseStatement
    ensures var e := StatementExit(source, s); e.Some? ==> Progress(source, words, s, e.value)
  {
    var e := StatementExit(source, s);
    if e.Some? && e.value.mode != Parse {
      SamePlace(source, words, s, e.value);
    }
  }

  lemma {:induction false} StatementProgress(source: string, words: Lexicon, s: Scan)
    requires Ready(source, words, s) && !s.finish && s.mode == ParseStatement
    ensures Progress(source, words, s, StatementScan(source, s))
    decreases |source| - s.current
  {
    StatementExitProgress(source, words, s);
    if StatementExit(source, s).None? {
      StatementProgress(source, words, s.(image := s.image + [source[s.current]], current := s.current + 1));
    }
  }

  lemma {:induction false} TextProgress(source: string, words: Lexicon, s: Scan)
    requires Ready(source, words, s) && !s.finish && s.mode == Parse
    ensures Progress(source, words, s, TextScan(source, s))
    decreases |source| - s.current
  {
    var c := s.current + 1;
    if Truthy(source) && c < |source| && !(source[c] == '{' && Symbol(source, c + 1) == Some('{'))
       && !(source[c] == '}' && Symbol(source, c + 1) == Some('}')) {
      TextProgress(source, words, s.(current := c, kind := Some(TText), image := s.image + [source[c]]));
    }
  }

  lemma ConditionsExitProgress(source: string, words: Lexicon, s: Scan)
    requires Ready(source, words, s) && !s.finish && s.mode == ParseConditions
    ensures var e := ConditionsExit(source, words, s); e.Some? ==> Progress(source, words, s, e.value)
  {
    var e := ConditionsExit(source, words, s);
    if e.Some? {
      if e.value.mode == ParseOperator {
        OperatorStartsIsKey(source, words.operators, s.current);
        SamePlace(source, words, s, e.value);
      } else if e.value.mode == ParseWhitespace {
        ConditionsSpaceProgress(source, words, s);
      } else if e.value.mode == ParseQuote {
        ConditionsQuoteProgress(source, words, s);
      } else {
        ConditionsParenthesisProgress(source, words, s);
      }
    }
  }

  lemma ConditionsSpaceProgress(source: string, words: Lexicon, s: Scan)
    requires Ready(source, words, s) && !s.finish && s.mode == ParseConditions
    requires var e := ConditionsExit(source, words, s); e.Some? && e.value.mode == ParseWhitespace
    ensures Progress(source, words, s, ConditionsExit(source, words, s).value)
  {
    SamePlace(source, words, s, ConditionsExit(source, words, s).value);
  }

  lemma ConditionsQuoteProgress(source: string, words: Lexicon, s: Scan)
    requires Ready(source, words, s) && !s.finish && s.mode == ParseConditions
    requires var e := ConditionsExit(source, words, s); e.Some? && e.value.mode == ParseQuote
    ensures Progress(source, words, s, ConditionsExit(source, words, s).value)
  {
    SamePlace(source, words, s, ConditionsExit(source, words, s).value);
  }

  lemma ConditionsParenthesisProgress(source: string, words: Lexicon, s: Scan)
    requires Ready(source, words, s) && !s.finish && s.mode == ParseConditions
    requires var e := ConditionsExit(source, words, s);
             e.Some? && e.value.mode !in {ParseWhitespace, ParseQuote, ParseOperator}
    ensures Progress(source, words, s, ConditionsExit(source, words, s).value)
  {
    SamePlace(source, words, s, ConditionsExit(source, words, s).value);
  }

  /** A character taken into the condition keeps the scan ready and brings
      it closer to its end. */
  lemma ConditionsNext(source: string, words: Lexicon, s: Scan)
    requires Ready(source, words, s) && !s.finish && s.mode == ParseConditions
    requires ConditionsExit(source, words, s).None?
    ensures var n := s.(image := s.image + [source[s.current]], current := s.current + 1);
            Ready(source, words, n) && Measure(source, n) < Measure(source, s)
            && ConditionsScan(source, words, s) == ConditionsScan(source, words, n)
  {
  }

  lemma {:induction false} ConditionsProgress(source: string, words: Lexicon, s: Scan)
    requires Ready(source, words, s) && !s.finish && s.mode == ParseConditions
    ensures Progress(source, words, s, ConditionsScan(source, words, s))
    decreases |source| - s.current
  {
    ConditionsExitProgress(source, words, s);
    if ConditionsExit(source, words, s).None? {
      ConditionsNext(source, words, s);
      ConditionsProgress(source, words, s.(image := s.image + [source[s.current]], current := s.current + 1));
    }
  }

  lemma ModifiersExitProgress(source: string, words: Lexicon, s: Scan)
    requires Ready(source, words, s) && !s.finish && s.mode == ParseSpecifierModifiers
    ensures var e := ModifiersExit(source, words, s); e.Some? ==> Progress(source, words, s, e.value)
  {
    var e := ModifiersExit(source, words, s);
    if e.Some? {
      if e.value.mode == ParseValue {
        ValueStartsIsKey(source, words.values, s.current);
      }
      SamePlace(source, words, s, e.value);
    }
  }

  /** A character taken into the modifier keeps the scan ready and brings
      it closer to its end. */
  lemma ModifiersNext(source: string, words: Lexicon, s: Scan)
    requires Ready(source, words, s) && !s.finish && s.mode == ParseSpecifierModifiers
    requires ModifiersExit(source, words, s).None?
    ensures var n := s.(image := s.image + [source[s.current]], current := s.current + 1);
            Ready(source, words, n) && Measure(source, n) < Measure(source, s)
            && ModifiersScan(source, words, s) == ModifiersScan(source, words, n)
  {
  }

  lemma {:induction false} ModifiersProgress(source: string, words: Lexicon, s: Scan)
    requires Ready(source, words, s) && !s.finish && s.mode == ParseSpecifierModifiers
    ensures Progress(source, words, s, ModifiersScan(source, words, s))
    decreases |source| - s.current
  {
    ModifiersExitProgress(source, words, s);
    if ModifiersExit(source, words, s).None? {
      ModifiersNext(source, words, s);
      ModifiersProgress(source, words, s.(image := s.image + [source[s.current]], current := s.current + 1));
    }
  }

  lemma SpecifierExitProgress(source: string, words: Lexicon, s: Scan)
    requires Ready(source, words, s) && !s.finish && s.mode == ParseSpecifier
    ensures var e := SpecifierExit(source, s); e.Some? ==> Progress(source, words, s, e.value)
  {
    var e := SpecifierExit(source, s);
    if e.Some? {
      SamePlace(source, words, s, e.value);
    }
  }

  /** A character taken into the specifier keeps the scan ready and
      brings it closer to its end. */
  lemma SpecifierNext(source: string, words: Lexicon, s: Scan)
    requires Ready(source, words, s) && !s.finish && s.mode == ParseSpecifier
    requires SpecifierExit(source, s).None?
    ensures var n := s.(image := s.image + [source[s.current]], current := s.current + 1);
            Ready(source, words, n) && Measure(source, n) < Measure(source, s)
            && SpecifierScan(source, s) == SpecifierScan(source, n)
  {
  }

  lemma {:induction false} SpecifierProgress(source: string, words: Lexicon, s: Scan)
    requires Ready(source, words, s) && !s.finish && s.mode == ParseSpecifier
    ensures Progress(source, words, s, SpecifierScan(source, s))
    decreases |source| - s.current
  {
    SpecifierExitProgress(source, words, s);
    if SpecifierExit(source, s).None? {
      SpecifierNext(source, words, s);
      SpecifierProgress(source, words, s.(image := s.image + [source[s.current]], current := s.current + 1));
    }
  }

  /** The modes that take a word of a table. */
  lemma OperatorStepProgress(source: string, words: Lexicon, s: Scan)
    requires Ready(source, words, s) && !s.finish && s.mode == ParseOperator
    ensures Progress(source, words, s, Call(source, words, s))
  {
  }

  lemma ValueStepProgress(source: string, words: Lexicon, s: Scan)
    requires Ready(source, words, s) && !s.finish && s.mode == ParseValue
    ensures Progress(source, words, s, Call(source, words, s))
  {
  }

  /** The modes around statements and quotes. */
  lemma MarkStepProgress(source: string, words: Lexicon, s: Scan)
    requires Ready(source, words, s) && !s.finish
    requires s.mode in {ParseOpenStatement, ParseCloseStatement, ParseQuote, ParseSeparator, ParseWhitespace}
    ensures Progress(source, words, s, Call(source, words, s))
  {
  }

  /** The modes of commas and parentheses. */
  lemma ParenthesisStepProgress(source: string, words: Lexicon, s: Scan)
    requires Ready(source, words, s) && !s.finish
    requires s.mode in {ParseCommaSeparator, ParseCloseParentheses, ParseOpenParenthesesCondition,
                        ParseCloseParenthesesCondition, ParseOpenParentheses}
    ensures Progress(source, words, s, Call(source, words, s))
  {
  }

  /** Every call of a mode brings the scan closer to its end. */
  lemma CallProgress(source: string, words: Lexicon, s: Scan)
    requires Ready(source, words, s) && !s.finish
    ensures Progress(source, words, s, Call(source, words, s))
  {
    match s.mode
    case Parse => TextProgress(source, words, s);
    case ParseStatement => StatementProgress(source, words, s);
    case ParseConditions => ConditionsProgress(source, words, s);
    case ParseSpecifierModifiers => ModifiersProgress(source, words, s);
    case ParseSpecifier => SpecifierProgress(source, words, s);
    case ParseOperator => OperatorStepProgress(source, words, s);
    case ParseValue => ValueStepProgress(source, words, s);
    case ParseOpenStatement => MarkStepProgress(source, words, s);
    case ParseCloseStatement => MarkStepProgress(source, words, s);
    case ParseQuote => MarkStepProgress(source, words, s);
    case ParseSeparator => MarkStepProgress(source, words, s);
    case ParseWhitespace => MarkStepProgress(source, words, s);
    case ParseCommaSeparator => ParenthesisStepProgress(source, words, s);
    case ParseCloseParentheses => ParenthesisStepProgress(source, words, s);
    case ParseOpenParenthesesCondition => ParenthesisStepProgress(source, words, s);
    case ParseCloseParenthesesCondition => ParenthesisStepProgress(source, words, s);
    case ParseOpenParentheses => ParenthesisStepProgress(source, words, s);
  }
}

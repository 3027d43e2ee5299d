/** What the scanner of module Scanner does with the inputs the tokenizer's
    tests feed it: plain text and `{{key}}` placeholders give back the source
    as token images, whitespace gives one token per run, the operator table
    is tried in order, word operators need boundaries, and parentheses inside
    a condition are counted. */
module ScanFacts {
  import opened Php
  import opened Tokens
  import opened Scanner

  // ---------------------------------------------------------------------
  // Templates of plain text and `{{key}}` placeholders.

  /** A character of plain text: no brace. */
  predicate TextChar(c: char)
  {
    c != '{' && c != '}'
  }

  /** A character of a placeholder key: one that does not end the statement
      word. */
  predicate KeyChar(c: char)
  {
    !IsSpace(c) && c != '|' && c != '(' && c != '}'
  }

  predicate PlainText(t: string)
  {
    forall i :: 0 <= i < |t| ==> TextChar(t[i])
  }

  /** Text followed by one placeholder `{{key}}`. */
  datatype Segment = Segment(text: string, key: string)

  predicate SegmentOk(g: Segment)
  {
    PlainText(g.text) && forall i :: 0 <= i < |g.key| ==> KeyChar(g.key[i])
  }

  function SegmentSource(g: Segment): string
  {
    g.text + "{{" + g.key + "}}"
  }

  /** The tokens a segment gives: its text if any, then the opening braces,
      the key typed by checkKeywords(), and the closing braces. */
  function SegmentTokens(g: Segment): seq<Token>
  {
    (if g.text == "" then [] else [Token(TText, g.text)])
    + [Token(TOpenStatement, "{{"), Token(Keyword(g.key), g.key), Token(TCloseStatement, "}}")]
  }

  function TailTokens(tail: string): seq<Token>
  {
    if tail == "" then [] else [Token(TText, tail)]
  }

  /** Segments, then trailing text. */
  function TemplateSource(segments: seq<Segment>, tail: string): string
  {
    if segments == [] then tail else SegmentSource(segments[0]) + TemplateSource(segments[1..], tail)
  }

  function TemplateTokens(segments: seq<Segment>, tail: string): seq<Token>
  {
    if segments == [] then TailTokens(tail) else SegmentTokens(segments[0]) + TemplateTokens(segments[1..], tail)
  }

  predicate TemplateOk(segments: seq<Segment>, tail: string)
  {
    (forall k :: 0 <= k < |segments| ==> SegmentOk(segments[k])) && PlainText(tail)
  }

  /** The driver's state between two pieces of a template: text mode, the
      cursor just before the next piece, nothing pending. */
  function At(c: int, tokens: seq<Token>): Scan
  {
    Start.(current := c, tokens := tokens)
  }

  /** parse() copies text up to the first `{{` or `}}`, or to the end. */
  lemma {:induction false} TextScanToBraces(source: string, s: Scan, e: int)
    requires Truthy(source) && -1 <= s.current < e <= |source|
    requires forall i :: s.current < i < e ==> TextChar(source[i])
    requires e < |source| ==> e + 1 < |source| && source[e + 1] == source[e] && (source[e] == '{' || source[e] == '}')
    ensures TextScan(source, s)
         == s.(current := e, image := s.image + source[s.current + 1..e],
               kind := if s.current + 1 < e then Some(TText) else s.kind,
               finish := e == |source| || s.finish,
               mode := if e == |source| then s.mode
                       else if source[e] == '{' then ParseOpenStatement else ParseCloseStatement)
    decreases e - s.current
  {
    var c := s.current + 1;
    if c == e {
      assert source[c..e] == [];
      assert s.image + source[c..e] == s.image;
    } else {
      var s' := s.(current := c, kind := Some(TText), image := s.image + [source[c]]);
      TextScanToBraces(source, s', e);
      SliceStep(s.image, source, c, e);
    }
  }

  lemma KeywordOfFalsy(image: string)
    requires !Truthy(image)
    ensures Keyword(image) == TVariable
  {
    assert ToLower(image) == image;
  }

  /** A key character joins the statement word. */
  lemma StatementExitKeyChar(source: string, s: Scan)
    requires 0 <= s.current < |source| && KeyChar(source[s.current])
    ensures StatementExit(source, s).None?
    ensures StatementScan(source, s)
         == StatementScan(source, s.(image := s.image + [source[s.current]], current := s.current + 1))
  {
  }

  /** `}}` right after `{{` and a word ends the statement word and types
      it. */
  lemma StatementExitBraces(source: string, s: Scan)
    requires 0 <= s.current && s.current + 1 < |source| && source[s.current] == '}' && source[s.current + 1] == '}'
    requires FollowsOpen(s.tokens)
    ensures StatementExit(source, s) == Some(s.(current := s.current - 1, mode := Parse, kind := Some(Keyword(s.image))))
  {
    var c := s.current;
    assert Symbol(source, c) == Some('}') && Symbol(source, c + 1) == Some('}');
    if !Truthy(s.image) {
      KeywordOfFalsy(s.image);
    }
  }

  /** parseStatement() right after `{{` reads the key up to `}}` and types
      it with checkKeywords(). */
  lemma {:induction false} StatementScanKey(source: string, s: Scan, e: int)
    requires 0 <= s.current <= e && e + 1 < |source| && source[e] == '}' && source[e + 1] == '}'
    requires forall i :: s.current <= i < e ==> KeyChar(source[i])
    requires FollowsOpen(s.tokens)
    ensures var r := StatementScan(source, s);
            r == s.(current := e - 1, mode := Parse, image := s.image + source[s.current..e], kind := r.kind)
            && r.kind == Some(Keyword(r.image))
    decreases e - s.current
  {
    var c := s.current;
    if c == e {
      StatementExitBraces(source, s);
      assert s.image + source[c..e] == s.image;
    } else {
      var t := s.(image := s.image + [source[c]], current := c + 1);
      StatementExitKeyChar(source, s);
      StatementScanKey(source, t, e);
      SliceStep(s.image, source, c, e);
    }
  }

  /** One driver step in a state that has not finished. */
  lemma RunStep(source: string, words: Lexicon, s: Scan)
    requires Ready(source, words, s) && !s.finish
    ensures Ready(source, words, Emit(Call(source, words, s)))
         && Run(source, words, s) == Run(source, words, Emit(Call(source, words, s)))
  {
    CallProgress(source, words, s);
  }

  lemma RunDone(source: string, words: Lexicon, s: Scan)
    requires Ready(source, words, s) && s.finish
    ensures Run(source, words, s) == s
  {
  }

  lemma CallText(source: string, words: Lexicon, s: Scan)
    requires Ready(source, words, s) && !s.finish && s.mode == Parse
    ensures Call(source, words, s) == TextScan(source, s)
  {
  }

  lemma CallStatement(source: string, words: Lexicon, s: Scan)
    requires Ready(source, words, s) && !s.finish && s.mode == ParseStatement
    ensures Call(source, words, s) == StatementScan(source, s)
  {
  }

  /** parseOpenStatement() on `{{`. */
  lemma CallOpenStatement(source: string, words: Lexicon, s: Scan)
    requires Ready(source, words, s) && !s.finish && s.mode == ParseOpenStatement
    requires s.current + 1 < |source| && source[s.current] == '{' && source[s.current + 1] == '{'
    ensures Call(source, words, s)
         == s.(image := "{{", kind := Some(TOpenStatement), mode := ParseStatement, current := s.current + 2)
  {
  }

  /** parseCloseStatement() on `}}`. */
  lemma CallCloseStatement(source: string, words: Lexicon, s: Scan)
    requires Ready(source, words, s) && !s.finish && s.mode == ParseCloseStatement
    requires s.current + 1 < |source| && source[s.current] == '}' && source[s.current + 1] == '}'
    ensures Call(source, words, s)
         == s.(image := "}}", kind := Some(TCloseStatement), mode := Parse, current := s.current + 1)
  {
  }

  lemma AtReady(source: string, words: Lexicon, c: int, toks: seq<Token>)
    requires HasWords(words) && -1 <= c <= |source|
    ensures Ready(source, words, At(c, toks))
  {
  }

  /** Text mode copies plain text up to `{{`. */
  lemma TextToOpen(source: string, pos: int, e: int, toks: seq<Token>)
    requires Truthy(source) && 0 <= pos <= e && e + 1 < |source|
    requires forall i :: pos <= i < e ==> TextChar(source[i])
    requires source[e] == '{' && source[e + 1] == '{'
    ensures TextScan(source, At(pos - 1, toks))
         == At(e, toks).(mode := ParseOpenStatement, image := source[pos..e],
                         kind := if pos < e then Some(TText) else None)
  {
    TextScanToBraces(source, At(pos - 1, toks), e);
  }

  /** The text of a segment, up to its `{{`. */
  lemma TextPhase(source: string, words: Lexicon, pos: int, e: int, toks: seq<Token>)
    requires Truthy(source) && HasWords(words) && 0 <= pos <= e && e + 1 < |source|
    requires forall i :: pos <= i < e ==> TextChar(source[i])
    requires source[e] == '{' && source[e + 1] == '{'
    ensures Run(source, words, At(pos - 1, toks))
         == Run(source, words, At(e, toks + TailTokens(source[pos..e])).(mode := ParseOpenStatement))
  {
    var s0 := At(pos - 1, toks);
    AtReady(source, words, pos - 1, toks);
    TextToOpen(source, pos, e, toks);
    CallText(source, words, s0);
    var r := At(e, toks + TailTokens(source[pos..e])).(mode := ParseOpenStatement);
    assert Emit(Call(source, words, s0)) == r by {
      assert pos < e <==> source[pos..e] != "";
    }
    RunStep(source, words, s0);
  }

  /** The `{{` of a segment. */
  lemma OpenPhase(source: string, words: Lexicon, e: int, toks: seq<Token>)
    requires HasWords(words) && 0 <= e && e + 1 < |source| && source[e] == '{' && source[e + 1] == '{'
    ensures Run(source, words, At(e, toks).(mode := ParseOpenStatement))
         == Run(source, words, At(e + 2, toks + [Token(TOpenStatement, "{{")]).(mode := ParseStatement))
  {
    var s := At(e, toks).(mode := ParseOpenStatement);
    CallOpenStatement(source, words, s);
    assert Emit(Call(source, words, s)) == At(e + 2, toks + [Token(TOpenStatement, "{{")]).(mode := ParseStatement);
    RunStep(source, words, s);
  }

  /** The key of a segment, up to its `}}`. */
  lemma KeyPhase(source: string, words: Lexicon, e: int, f: int, toks: seq<Token>)
    requires HasWords(words) && 0 <= e <= f && f + 1 < |source| && source[f] == '}' && source[f + 1] == '}'
    requires forall i :: e <= i < f ==> KeyChar(source[i])
    requires FollowsOpen(toks)
    ensures Run(source, words, At(e, toks).(mode := ParseStatement))
         == Run(source, words, At(f - 1, toks + [Token(Keyword(source[e..f]), source[e..f])]))
  {
    var s := At(e, toks).(mode := ParseStatement);
    AtReady(source, words, e, toks);
    StatementScanKey(source, s, f);
    CallStatement(source, words, s);
    assert "" + source[e..f] == source[e..f];
    assert Emit(Call(source, words, s)) == At(f - 1, toks + [Token(Keyword(source[e..f]), source[e..f])]);
    RunStep(source, words, s);
  }

  /** Back in text mode right before `}}`, and the `}}` itself. */
  lemma ClosePhase(source: string, words: Lexicon, f: int, toks: seq<Token>)
    requires Truthy(source) && HasWords(words) && 0 <= f && f + 1 < |source| && source[f] == '}' && source[f + 1] == '}'
    ensures Run(source, words, At(f - 1, toks))
         == Run(source, words, At(f + 1, toks + [Token(TCloseStatement, "}}")]))
  {
    var s := At(f - 1, toks);
    AtReady(source, words, f - 1, toks);
    TextScanToBraces(source, s, f);
    CallText(source, words, s);
    RunStep(source, words, s);
    var s' := At(f, toks).(mode := ParseCloseStatement);
    assert Emit(Call(source, words, s)) == s';
    CallCloseStatement(source, words, s');
    assert Emit(Call(source, words, s')) == At(f + 1, toks + [Token(TCloseStatement, "}}")]);
    RunStep(source, words, s');
  }

  /** The segment `g` lies in the source from `pos` on. */
  predicate SegmentAt(source: string, pos: int, g: Segment)
  {
    var e := pos + |g.text|;
    var f := e + 2 + |g.key|;
    0 <= pos && f + 1 < |source|
    && source[pos..e] == g.text && source[e] == '{' && source[e + 1] == '{'
    && source[e + 2..f] == g.key && source[f] == '}' && source[f + 1] == '}'
  }

  /** The segments, then the tail, lie in the source from `pos` on. */
  predicate Laid(source: string, pos: int, segments: seq<Segment>, tail: string)
    decreases |segments|
  {
    if segments == [] then 0 <= pos <= |source| && source[pos..] == tail
    else SegmentAt(source, pos, segments[0])
         && Laid(source, pos + |segments[0].text| + |segments[0].key| + 4, segments[1..], tail)
  }

  lemma SegmentAtChars(source: string, pos: int, g: Segment)
    requires SegmentOk(g) && SegmentAt(source, pos, g)
    ensures forall i :: pos <= i < pos + |g.text| ==> TextChar(source[i])
    ensures forall i :: pos + |g.text| + 2 <= i < pos + |g.text| + 2 + |g.key| ==> KeyChar(source[i])
  {
    var e := pos + |g.text|;
    var f := e + 2 + |g.key|;
    forall i | pos <= i < e ensures TextChar(source[i]) {
      assert source[pos..e][i - pos] == source[i];
    }
    forall i | e + 2 <= i < f ensures KeyChar(source[i]) {
      assert source[e + 2..f][i - e - 2] == source[i];
    }
  }

  /** A segment laid out at `pos` (text), `e` (`{{`) and `f` (`}}`). */
  lemma SegmentRunAt(source: string, words: Lexicon, pos: int, e: int, f: int, toks: seq<Token>, g: Segment)
    requires Truthy(source) && HasWords(words)
    requires 0 <= pos <= e && e + 2 <= f && f + 1 < |source|
    requires source[pos..e] == g.text && forall i :: pos <= i < e ==> TextChar(source[i])
    requires source[e] == '{' && source[e + 1] == '{'
    requires source[e + 2..f] == g.key && forall i :: e + 2 <= i < f ==> KeyChar(source[i])
    requires source[f] == '}' && source[f + 1] == '}'
    ensures Run(source, words, At(pos - 1, toks)) == Run(source, words, At(f + 1, toks + SegmentTokens(g)))
  {
    var t1 := toks + TailTokens(g.text);
    var t2 := t1 + [Token(TOpenStatement, "{{")];
    var t3 := t2 + [Token(Keyword(g.key), g.key)];
    TextPhase(source, words, pos, e, toks);
    OpenPhase(source, words, e, t1);
    KeyPhase(source, words, e + 2, f, t2);
    ClosePhase(source, words, f, t3);
    assert t3 + [Token(TCloseStatement, "}}")] == toks + SegmentTokens(g);
  }

  /** A segment takes the driver from the state before it to the state
      after it, adding the segment's tokens. */
  lemma SegmentRun(source: string, words: Lexicon, pos: int, toks: seq<Token>, g: Segment)
    requires Truthy(source) && HasWords(words) && SegmentOk(g) && SegmentAt(source, pos, g)
    ensures Run(source, words, At(pos - 1, toks))
         == Run(source, words, At(pos + |g.text| + |g.key| + 3, toks + SegmentTokens(g)))
  {
    SegmentAtChars(source, pos, g);
    SegmentRunAt(source, words, pos, pos + |g.text|, pos + |g.text| + 2 + |g.key|, toks, g);
  }

  /** Text mode copies plain text to the end of the source and finishes. */
  lemma TextToEnd(source: string, pos: int, toks: seq<Token>, tail: string)
    requires Truthy(source) && PlainText(tail)
    requires 0 <= pos <= |source| && source[pos..] == tail
    ensures TextScan(source, At(pos - 1, toks))
         == At(pos - 1, toks).(current := |source|, finish := true, image := tail,
                                kind := if tail == "" then None else Some(TText))
  {
    forall i | pos <= i < |source| ensures TextChar(source[i]) {
      assert source[pos..][i - pos] == source[i];
    }
    TextScanToBraces(source, At(pos - 1, toks), |source|);
  }

  /** Trailing text runs to the end of the source and finishes the scan. */
  lemma TailRun(source: string, words: Lexicon, pos: int, toks: seq<Token>, tail: string)
    requires Truthy(source) && HasWords(words) && PlainText(tail)
    requires 0 <= pos <= |source| && source[pos..] == tail
    ensures Run(source, words, At(pos - 1, toks)).tokens == toks + TailTokens(tail)
  {
    var s0 := At(pos - 1, toks);
    AtReady(source, words, pos - 1, toks);
    TextToEnd(source, pos, toks, tail);
    CallText(source, words, s0);
    RunStep(source, words, s0);
    RunDone(source, words, Emit(Call(source, words, s0)));
  }

  lemma TemplateOkRest(segments: seq<Segment>, tail: string)
    requires segments != [] && TemplateOk(segments, tail)
    ensures SegmentOk(segments[0]) && TemplateOk(segments[1..], tail)
  {
    assert SegmentOk(segments[0]);
    forall k | 0 <= k < |segments[1..]| ensures SegmentOk(segments[1..][k]) {
      assert segments[1..][k] == segments[k + 1];
    }
  }

  lemma TemplateTokensCons(toks: seq<Token>, segments: seq<Segment>, tail: string)
    requires segments != []
    ensures toks + SegmentTokens(segments[0]) + TemplateTokens(segments[1..], tail) == toks + TemplateTokens(segments, tail)
  {
  }

  lemma {:induction false} TemplateRun(source: string, words: Lexicon, pos: int, toks: seq<Token>,
                                       segments: seq<Segment>, tail: string)
    requires Truthy(source) && HasWords(words) && TemplateOk(segments, tail)
    requires Laid(source, pos, segments, tail)
    ensures Run(source, words, At(pos - 1, toks)).tokens == toks + TemplateTokens(segments, tail)
    decreases |segments|
  {
    if segments == [] {
      TailRun(source, words, pos, toks, tail);
    } else {
      var g := segments[0];
      TemplateOkRest(segments, tail);
      SegmentRun(source, words, pos, toks, g);
      TemplateRun(source, words, pos + |g.text| + |g.key| + 4, toks + SegmentTokens(g), segments[1..], tail);
      TemplateTokensCons(toks, segments, tail);
    }
  }

  /** Where the pieces of one segment sit in its own source. */
  lemma SegmentSourceChars(g: Segment)
    ensures var n := |g.text|; var m := n + 2 + |g.key|; var ss := SegmentSource(g);
            |ss| == m + 2 && ss[..n] == g.text && ss[n] == '{' && ss[n + 1] == '{'
            && ss[n + 2..m] == g.key && ss[m] == '}' && ss[m + 1] == '}'
  {
  }

  /** A segment's source written after `pre` is laid at `|pre|`. */
  lemma SegmentAtPrefix(source: string, pre: string, g: Segment, rest: string)
    requires source == pre + SegmentSource(g) + rest
    ensures SegmentAt(source, |pre|, g)
  {
    var pos, e := |pre|, |pre| + |g.text|;
    var f := e + 2 + |g.key|;
    SegmentSourceChars(g);
    assert source[pos..f + 2] == SegmentSource(g);
    assert source[pos..e] == source[pos..f + 2][..|g.text|];
    assert source[e + 2..f] == source[pos..f + 2][|g.text| + 2..|g.text| + 2 + |g.key|];
  }

  lemma {:induction false} TemplateLaid(pre: string, segments: seq<Segment>, tail: string)
    ensures Laid(pre + TemplateSource(segments, tail), |pre|, segments, tail)
    decreases |segments|
  {
    var source := pre + TemplateSource(segments, tail);
    if segments == [] {
      assert source[|pre|..] == tail;
    } else {
      var g := segments[0];
      var rest := TemplateSource(segments[1..], tail);
      var pre' := pre + SegmentSource(g);
      assert source == pre' + rest;
      SegmentAtPrefix(source, pre, g, rest);
      TemplateLaid(pre', segments[1..], tail);
      assert |pre'| == |pre| + |g.text| + |g.key| + 4;
      LaidCons(source, |pre|, segments, tail);
    }
  }

  lemma LaidCons(source: string, pos: int, segments: seq<Segment>, tail: string)
    requires segments != [] && SegmentAt(source, pos, segments[0])
    requires Laid(source, pos + |segments[0].text| + |segments[0].key| + 4, segments[1..], tail)
    ensures Laid(source, pos, segments, tail)
  {
  }

  lemma TemplateLaidFromStart(segments: seq<Segment>, tail: string)
    ensures Laid(TemplateSource(segments, tail), 0, segments, tail)
  {
    TemplateLaid("", segments, tail);
    assert "" + TemplateSource(segments, tail) == TemplateSource(segments, tail);
  }

  lemma ImagesOfOne(x: Token)
    ensures Images([x]) == x.image
  {
    assert [x][..0] == [];
  }

  lemma SegmentImages(g: Segment)
    ensures Images(SegmentTokens(g)) == SegmentSource(g)
  {
    var open := Token(TOpenStatement, "{{");
    var key := Token(Keyword(g.key), g.key);
    var close := Token(TCloseStatement, "}}");
    var text := if g.text == "" then [] else [Token(TText, g.text)];
    ImagesOfOne(open);
    ImagesOfOne(key);
    ImagesOfOne(close);
    if g.text != "" {
      ImagesOfOne(Token(TText, g.text));
    }
    ImagesAppend(text, [open]);
    ImagesAppend(text + [open], [key]);
    ImagesAppend(text + [open] + [key], [close]);
    assert SegmentTokens(g) == text + [open] + [key] + [close];
  }

  lemma {:induction false} TemplateImages(segments: seq<Segment>, tail: string)
    ensures Images(TemplateTokens(segments, tail)) == TemplateSource(segments, tail)
    decreases |segments|
  {
    if segments == [] {
      if tail != "" {
        ImagesOfOne(Token(TText, tail));
      }
    } else {
      SegmentImages(segments[0]);
      TemplateImages(segments[1..], tail);
      ImagesAppend(SegmentTokens(segments[0]), TemplateTokens(segments[1..], tail));
    }
  }

  /** A template of plain text and `{{key}}` placeholders gives its text as
      TEXT tokens, each placeholder as OPEN_STATEMENT, the typed key and
      CLOSE_STATEMENT, and the images of the tokens spell the source. */
  lemma TokenizeTemplate(segments: seq<Segment>, tail: string)
    requires TemplateOk(segments, tail) && Truthy(TemplateSource(segments, tail))
    ensures Tokenize(TemplateSource(segments, tail)) == TemplateTokens(segments, tail)
    ensures Images(Tokenize(TemplateSource(segments, tail))) == TemplateSource(segments, tail)
  {
    var source := TemplateSource(segments, tail);
    TablesHaveWords();
    TemplateLaidFromStart(segments, tail);
    assert At(-1, []) == Start;
    TemplateRun(source, Words, 0, [], segments, tail);
    assert [] + TemplateTokens(segments, tail) == TemplateTokens(segments, tail);
    TemplateImages(segments, tail);
  }

  /** The empty source and "0" give no tokens: parse() stops on a falsy
      source. */
  lemma TokenizeFalsy(source: string)
    requires !Truthy(source)
    ensures Tokenize(source) == []
  {
    TablesHaveWords();
    RunStep(source, Words, Start);
  }

  // ---------------------------------------------------------------------
  // Whitespace.

  /** parseWhitespace() gives one WHITESPACE token for the whole run of
      whitespace and goes back to the mode stored in whiteSpaceReturn. */
  lemma WhitespaceOneToken(source: string, words: Lexicon, s: Scan)
    requires Ready(source, words, s) && !s.finish && s.mode == ParseWhitespace
    ensures var r := Emit(Call(source, words, s));
            r.mode == s.flags.whiteSpaceReturn && s.current < r.current <= |source|
            && r.tokens == s.tokens + [Token(TWhitespace, s.image + source[s.current..r.current])]
            && r.image == "" && r.flags == s.flags
            && (forall i :: s.current <= i < r.current ==> IsSpace(source[i]))
            && (r.current == |source| || !IsSpace(source[r.current]))
  {
    var w := WhitespaceRun(source, s.(kind := Some(TWhitespace)));
    assert w.current > s.current;
  }

  // ---------------------------------------------------------------------
  // The operator table.

  /** A word does not start at `c` when one of its characters differs. */
  lemma KeyDiffers(source: string, c: nat, w: string, j: nat)
    requires j < |w| && c + j < |source| && LowerChar(source[c + j]) != w[j]
    ensures !KeyAt(source, c, w)
  {
  }

  /** A word does not start at `c` when the source ends before it does. */
  lemma KeyTooLong(source: string, c: nat, w: string)
    requires |w| > 0 && c + |w| > |source|
    ensures !KeyAt(source, c, w)
  {
  }

  /** A word written in lower case starts where the source spells it. */
  lemma KeyPresent(source: string, c: nat, w: string)
    requires c + |w| <= |source| && source[c..c + |w|] == w
    requires forall i :: 0 <= i < |w| ==> LowerChar(w[i]) == w[i]
    ensures KeyAt(source, c, w)
  {
    assert ToLower(Substr(source, c, |w|)) == w;
  }

  /** The word the foreach takes: the first entry of the table that starts
      at the cursor. */
  lemma TakeWordAt(source: string, s: Scan, table: seq<(string, Kind)>, next: Mode, j: nat)
    requires 0 <= s.current && j < |table| && KeyAt(source, s.current, table[j].0)
    requires forall k :: 0 <= k < |table| ==> |table[k].0| > 0
    requires forall i :: 0 <= i < j ==> !KeyAt(source, s.current, table[i].0)
    ensures KeyStarts(source, s.current, table)
    ensures TakeWord(source, s, table, next)
         == s.(kind := Some(table[j].1), image := source[s.current..s.current + |table[j].0|],
               current := s.current + |table[j].0|, mode := next)
  {
    FirstKeyIs(source, s.current, table, 0, j);
    KeyAtFits(source, s.current, table[j].0);
  }

  /** `===` is taken whole, before `==` is tried. */
  lemma OperatorIdentical(source: string, s: Scan)
    requires 0 <= s.current && s.current + 3 <= |source| && source[s.current..s.current + 3] == "==="
    ensures HasWords(Words) && KeyStarts(source, s.current, Operators)
    ensures OperatorScan(source, Words, s)
         == s.(kind := Some(TIsIdentical), image := "===", current := s.current + 3, mode := ParseConditions)
  {
    var c := s.current;
    TablesHaveWords();
    assert source[c] == '=';
    KeyPresent(source, c, "===");
    assert Operators[4].0 == "===";
    forall i | 0 <= i < 4 ensures !KeyAt(source, c, Operators[i].0) {
      KeyDiffers(source, c, Operators[i].0, 0);
    }
    TakeWordAt(source, s, Operators, ParseConditions, 4);
  }

  /** `!==` is taken whole, before `!=` and `!` are tried. */
  lemma OperatorNotIdentical(source: string, s: Scan)
    requires 0 <= s.current && s.current + 3 <= |source| && source[s.current..s.current + 3] == "!=="
    ensures HasWords(Words) && KeyStarts(source, s.current, Operators)
    ensures OperatorScan(source, Words, s)
         == s.(kind := Some(TIsNotIdentical), image := "!==", current := s.current + 3, mode := ParseConditions)
  {
    var c := s.current;
    TablesHaveWords();
    assert source[c] == '!';
    KeyPresent(source, c, "!==");
    assert Operators[5].0 == "!==";
    forall i | 0 <= i < 5 ensures !KeyAt(source, c, Operators[i].0) {
      KeyDiffers(source, c, Operators[i].0, 0);
    }
    TakeWordAt(source, s, Operators, ParseConditions, 5);
  }

  /** No word of `table[lo..hi]` starts with the character at `c`. */
  lemma KeysMissFirst(source: string, c: nat, table: seq<(string, Kind)>, lo: nat, hi: nat)
    requires lo <= hi <= |table| && c < |source|
    requires forall i :: lo <= i < hi ==> |table[i].0| > 0 && table[i].0[0] != LowerChar(source[c])
    ensures forall i :: lo <= i < hi ==> !KeyAt(source, c, table[i].0)
  {
    forall i | lo <= i < hi ensures !KeyAt(source, c, table[i].0) {
      KeyDiffers(source, c, table[i].0, 0);
    }
  }

  /** At `!=` not followed by `=`, no operator the table lists before
      NOT_EQUAL starts. */
  lemma NotEqualIsFirst(source: string, c: nat)
    requires c + 2 <= |source| && source[c] == '!' && source[c + 1] == '='
    requires c + 2 == |source| || source[c + 2] != '='
    ensures forall i :: 0 <= i < 12 ==> !KeyAt(source, c, Operators[i].0)
  {
    KeysMissFirst(source, c, Operators, 0, 5);
    assert !KeyAt(source, c, Operators[5].0) by {
      if c + 3 <= |source| {
        KeyDiffers(source, c, "!==", 2);
      } else {
        KeyTooLong(source, c, "!==");
      }
    }
    KeysMissFirst(source, c, Operators, 6, 12);
  }


  /** The same, with the entry found named by its word and kind. */
  lemma TakeKnownWord(source: string, s: Scan, table: seq<(string, Kind)>, next: Mode,
                      j: nat, w: string, k: Kind)
    requires 0 <= s.current && j < |table| && table[j] == (w, k) && KeyAt(source, s.current, w)
    requires s.current + |w| <= |source| && source[s.current..s.current + |w|] == w
    requires forall i :: 0 <= i < |table| ==> |table[i].0| > 0
    requires forall i :: 0 <= i < j ==> !KeyAt(source, s.current, table[i].0)
    ensures KeyStarts(source, s.current, table)
    ensures TakeWord(source, s, table, next)
         == s.(kind := Some(k), image := w, current := s.current + |w|, mode := next)
  {
    TakeWordAt(source, s, table, next, j);
  }

  /** `!=` not followed by `=` is NOT_EQUAL, not NOT. */
  lemma OperatorNotEqual(source: string, s: Scan)
    requires 0 <= s.current && s.current + 2 <= |source| && source[s.current..s.current + 2] == "!="
    requires s.current + 2 == |source| || source[s.current + 2] != '='
    ensures HasWords(Words) && KeyStarts(source, s.current, Operators)
    ensures OperatorScan(source, Words, s)
         == s.(kind := Some(TIsNotEqual), image := "!=", current := s.current + 2, mode := ParseConditions)
  {
    TablesHaveWords();
    KeyPresent(source, s.current, "!=");
    assert source[s.current] == '!' && source[s.current + 1] == '=';
    NotEqualIsFirst(source, s.current);
    TakeKnownWord(source, s, Operators, ParseConditions, 12, "!=", TIsNotEqual);
  }

  /** An operator word is either all lower-case letters or has no word
      character at all. */
  predicate OperatorShape(op: string)
  {
    |op| > 0
    && ((forall i :: 0 <= i < |op| ==> 'a' <= op[i] <= 'z')
        || (forall i :: 0 <= i < |op| ==> !WordChar(op[i])))
  }

  lemma OperatorsShaped()
    ensures forall k :: 0 <= k < |Operators| ==> OperatorShape(Operators[k].0)
  {
  }

  /** Lowering keeps a character inside or outside the word characters. */
  lemma LowerWordChar(c: char)
    ensures WordChar(LowerChar(c)) <==> WordChar(c)
    ensures 'a' <= LowerChar(c) <= 'z' ==> WordChar(c)
  {
  }

  /** A word character is no boundary. */
  lemma WordCharNoBoundary(c: char)
    requires WordChar(c)
    ensures !ConditionBoundary(Some(c))
  {
  }

  /** A letter word found at `c` ends before the first non-word character. */
  lemma LetterKeyInside(source: string, b: nat, c: nat, op: string)
    requires c < b < |source| && !WordChar(source[b])
    requires forall i :: 0 <= i < |op| ==> 'a' <= op[i] <= 'z'
    requires KeyAt(source, c, op)
    ensures c + |op| <= b
  {
    if c + |op| > b {
      assert op[b - c] == LowerChar(source[b]);
      LowerWordChar(source[b]);
    }
  }

  /** A word without word characters does not start on a word character. */
  lemma SymbolKeyOffWord(source: string, c: nat, op: string)
    requires c < |source| && WordChar(source[c])
    requires |op| > 0 && forall i :: 0 <= i < |op| ==> !WordChar(op[i])
    ensures !KeyAt(source, c, op)
  {
    if KeyAt(source, c, op) {
      assert op[0] == LowerChar(source[c]);
      LowerWordChar(source[c]);
    }
  }

  /** Inside a run of word characters that holds no "0" and ends before a
      non-word character, no operator fits after the first character: a
      letter operator is neither at the end of the source, nor before a "0",
      nor between boundary characters. */
  lemma OperatorInsideWord(source: string, a: nat, b: nat, c: nat, op: string)
    requires a < c < b < |source|
    requires forall i :: a <= i < b ==> WordChar(source[i]) && source[i] != '0'
    requires !WordChar(source[b])
    requires OperatorShape(op)
    ensures !OperatorFits(source, c, op)
  {
    if forall i :: 0 <= i < |op| ==> 'a' <= op[i] <= 'z' {
      if KeyAt(source, c, op) {
        LetterKeyInside(source, b, c, op);
        assert WordChar(op[0]);
        WordCharNoBoundary(source[c - 1]);
        assert Symbol(source, c + |op|) == Some(source[c + |op|]);
      }
    } else {
      SymbolKeyOffWord(source, c, op);
    }
  }

  lemma NoOperatorInsideWord(source: string, a: nat, b: nat, c: nat)
    requires a < c < b < |source|
    requires forall i :: a <= i < b ==> WordChar(source[i]) && source[i] != '0'
    requires !WordChar(source[b])
    ensures !OperatorStarts(source, Operators, c)
  {
    OperatorsShaped();
    forall k | 0 <= k < |Operators| ensures !OperatorFits(source, c, Operators[k].0) {
      OperatorInsideWord(source, a, b, c, Operators[k].0);
    }
  }

  /** The loop of parseConditions() passes over a word character at which
      no operator fits. */
  lemma WordCharPasses(source: string, words: Lexicon, s: Scan)
    requires 0 <= s.current < |source| && WordChar(source[s.current])
    requires !OperatorStarts(source, words.operators, s.current)
    requires !s.flags.quote && !s.flags.single
    ensures ConditionsScan(source, words, s)
         == ConditionsScan(source, words, s.(image := s.image + [source[s.current]], current := s.current + 1))
  {
    WordCharNoBoundary(source[s.current]);
    assert ConditionsExit(source, words, s).None?;
  }

  /** Whitespace outside quotes ends the condition part. */
  lemma SpaceEndsPart(source: string, words: Lexicon, s: Scan)
    requires 0 <= s.current < |source| && IsSpace(source[s.current])
    requires !s.flags.quote && !s.flags.single
    ensures ConditionsScan(source, words, s)
         == s.(mode := ParseWhitespace, kind := if Truthy(s.image) then Some(TConditionPart) else s.kind,
               flags := s.flags.(whiteSpaceReturn := ParseConditions))
  {
  }

  /** The loop of parseConditions() walks word characters at which no
      operator fits up to the whitespace after them: what it passes joins
      the image. */
  lemma {:induction false} ConditionsWordRun(source: string, words: Lexicon, s: Scan, b: nat)
    requires 0 <= s.current <= b < |source| && IsSpace(source[b])
    requires forall i :: s.current <= i < b ==> WordChar(source[i]) && !OperatorStarts(source, words.operators, i)
    requires !s.flags.quote && !s.flags.single
    ensures ConditionsScan(source, words, s)
         == s.(image := s.image + source[s.current..b], current := b, mode := ParseWhitespace,
               kind := if Truthy(s.image + source[s.current..b]) then Some(TConditionPart) else s.kind,
               flags := s.flags.(whiteSpaceReturn := ParseConditions))
    decreases b - s.current
  {
    var c := s.current;
    if c < b {
      WordCharPasses(source, words, s);
      var t := s.(image := s.image + [source[c]], current := c + 1);
      ConditionsWordRun(source, words, t, b);
      SliceStep(s.image, source, c, b);
    } else {
      SpaceEndsPart(source, words, s);
      assert s.image + source[c..b] == s.image;
    }
  }

  /** A condition part made of word characters stays one CONDITION_PART
      however many operator words it spells inside (`key2orkey1`), when no
      operator fits at its first character and it holds no "0". */
  lemma ConditionsWord(source: string, s: Scan, b: nat)
    requires 0 <= s.current < b < |source| && IsSpace(source[b]) && s.image == ""
    requires forall i :: s.current <= i < b ==> WordChar(source[i]) && source[i] != '0'
    requires !OperatorStarts(source, Operators, s.current)
    requires !s.flags.quote && !s.flags.single
    ensures ConditionsScan(source, Words, s)
         == s.(image := source[s.current..b], current := b, mode := ParseWhitespace,
               kind := Some(TConditionPart), flags := s.flags.(whiteSpaceReturn := ParseConditions))
  {
    forall c | s.current < c < b ensures !OperatorStarts(source, Words.operators, c) {
      NoOperatorInsideWord(source, s.current, b, c);
    }
    ConditionsWordRun(source, Words, s, b);
    assert s.image + source[s.current..b] == source[s.current..b];
    assert source[s.current..b][0] != '0';
  }

  /** Between boundary characters the same letters are an operator. */
  lemma OrBetweenSpaces(source: string, c: nat)
    requires 0 < c && c + 2 < |source| && source[c..c + 2] == "or"
    requires IsSpace(source[c - 1]) && IsSpace(source[c + 2])
    ensures OperatorStarts(source, Operators, c)
  {
    KeyPresent(source, c, "or");
    assert Operators[6].0 == "or";
    assert OperatorFits(source, c, Operators[6].0);
  }

  /** The test `!$nextKey` also lets a letter operator through before the
      character "0": `x2or0` holds the operator `or` at its third character. */
  lemma OperatorBeforeZero(source: string, c: nat)
    requires c + 3 <= |source| && source[c..c + 2] == "or" && source[c + 2] == '0'
    ensures OperatorStarts(source, Operators, c)
  {
    KeyPresent(source, c, "or");
    assert Operators[6].0 == "or";
    assert OperatorFits(source, c, Operators[6].0);
  }

  /** How parseConditions() leaves the count of open parentheses: one more
      when it hands over to an opening parenthesis, one less at a closing
      one, which closes a nested group only while more than one is open
      and otherwise ends the condition; the tokens stay as they are. */
  predicate CountKept(source: string, s: Scan, r: Scan)
  {
    var n := s.flags.openParenthesesCount;
    r.tokens == s.tokens
    && r.flags.quote == s.flags.quote && r.flags.single == s.flags.single
    && r.flags.openParenthesesCount
       == n + (if r.mode == ParseOpenParenthesesCondition then 1
               else if r.mode == ParseCloseParenthesesCondition || r.mode == ParseCloseParentheses then -1
               else 0)
    && (r.mode == ParseCloseParenthesesCondition ==> n > 1)
    && (r.mode == ParseCloseParentheses && 0 <= r.current < |source| ==>
          source[r.current] == ')' && !s.flags.quote && !s.flags.single && n <= 1)
    && r.mode in {ParseWhitespace, ParseQuote, ParseOperator, ParseOpenParenthesesCondition,
                  ParseCloseParenthesesCondition, ParseCloseParentheses}
  }

  lemma ConditionsExitCount(source: string, words: Lexicon, s: Scan)
    requires 0 <= s.current && ConditionsExit(source, words, s).Some?
    ensures CountKept(source, s, ConditionsExit(source, words, s).value)
  {
  }

  lemma {:induction false} ConditionsParentheses(source: string, words: Lexicon, s: Scan)
    requires 0 <= s.current
    ensures CountKept(source, s, ConditionsScan(source, words, s))
    decreases |source| - s.current
  {
    match ConditionsExit(source, words, s)
    case Some(r) =>
      ConditionsExitCount(source, words, s);
    case None =>
      var t := s.(image := s.image + [source[s.current]], current := s.current + 1);
      ConditionsParentheses(source, words, t);
  }

  // ---------------------------------------------------------------------
  // Quotes.

  /** A double quote toggles the double-quote flag unless a single-quoted
      stretch is open, and a single quote toggles the single-quote flag unless
      a double-quoted stretch is open; the other flag is left alone. */
  lemma QuoteToggles(source: string, s: Scan)
    requires 0 <= s.current < |source|
    ensures var r := QuoteScan(source, s); var c := source[s.current];
      && r.kind == Some(TQuote) && r.image == [c] && r.current == s.current + 1
      && r.mode == s.flags.quoteReturn
      && (c == '"' && !s.flags.single ==> r.flags.quote == !s.flags.quote && r.flags.single == s.flags.single)
      && (c == '"' && s.flags.single ==> r.flags == s.flags)
      && (c == '\'' && !s.flags.quote ==> r.flags.single == !s.flags.single && r.flags.quote == s.flags.quote)
      && (c == '\'' && s.flags.quote ==> r.flags == s.flags)
  {
  }
}

/** The tokens of the template language (src/Tokenizer/Token.php): a kind and
    the image, the exact text the token was scanned from. Line and column
    positions are not modelled. */
module Tokens {
  import opened Php

  /** One constructor per `Token::T_*` constant. */
  datatype Kind =
    | TUnknownTokenType
    | TText
    | TOpenStatement
    | TCloseStatement
    | TWhitespace
    | TVariable
    | TSeparator
    | TSpecifier
    | TOpenParentheses
    | TCloseParentheses
    | TQuote
    | TCommaSeparator
    | TModifier
    | TIf
    | TEndif
    | TConditionPart
    | TAnd
    | TOr
    | TIsEqual
    | TIsIdentical
    | TIsNotEqual
    | TIsNotIdentical
    | TGt
    | TLt
    | TGte
    | TLte
    | TNot
    | TPlus
    | TMinus
    | TDivide
    | TMultiply
    | TOpenParenthesesCondition
    | TCloseParenthesesCondition
    | TLogicalAnd
    | TLogicalOr
    | TMod
    | TConcat
    | TTrue
    | TFalse
    | TNull
    | TElse
    | TElseif

  datatype Token = Token(kind: Kind, image: string)

  /** The concatenated images of a token list. */
  function Images(tokens: seq<Token>): (r: string)
    ensures tokens == [] ==> r == ""
  {
    if tokens == [] then "" else Images(tokens[..|tokens| - 1]) + tokens[|tokens| - 1].image
  }

  lemma {:induction false} ImagesAppend(a: seq<Token>, b: seq<Token>)
    ensures Images(a + b) == Images(a) + Images(b)
    decreases |b|
  {
    if b == [] {
      assert a + b == a;
    } else {
      var init := b[..|b| - 1];
      assert (a + b)[..|a + b| - 1] == a + init;
      ImagesAppend(a, init);
    }
  }

  /** checkKeywords(): the statement words if/endif/elseif/else in any case,
      everything else a variable. */
  function Keyword(image: string): Kind
  {
    var lower := ToLower(image);
    if lower == "if" then TIf
    else if lower == "endif" then TEndif
    else if lower == "elseif" then TElseif
    else if lower == "else" then TElse
    else TVariable
  }

  /** Each statement word is recognised in any case, and every other image
      is a variable; the case the word is written in does not matter. */
  lemma KeywordMeaning(image: string)
    ensures var k := Keyword(image);
            (k == TIf <==> ToLower(image) == "if")
            && (k == TEndif <==> ToLower(image) == "endif")
            && (k == TElseif <==> ToLower(image) == "elseif")
            && (k == TElse <==> ToLower(image) == "else")
            && (k in {TIf, TEndif, TElseif, TElse, TVariable})
            && Keyword(ToLower(image)) == k
  {
    ToLowerIdempotent(image);
  }
}

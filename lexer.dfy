/**
 * The word-to-digits lexer `SentenceLexer`: a cursor over a text that
 * lower-cases each space-delimited fragment, looks it up in fixed word tables
 * and appends the decimal text of every positive value it recognises.
 *
 * The four word tables of the PHP class (its `switch` statements) are
 * gathered in a `Vocabulary` value; `Words` holds the PHP ones. The cursor
 * semantics are first stated as functions of a vocabulary, a text and a
 * cursor position (`SkipSpaces`, `WordEnd`, `Fragment`, `Extract`,
 * `Identify`, `LexFrom`); the class `SentenceLexer` mirrors the PHP methods,
 * holds `Words`, and is proved against those functions.
 */
module Lexing {
  import opened Wrappers
  import Php

  // ---------------------------------------------------------------------------
  // The word tables
  // ---------------------------------------------------------------------------

  /** The words of `_isSeperator` and `_isStandardUnit`, and the value each
      word of `_isTens` and `_isUnit` is returned as. */
  datatype Tables = Tables(
    separators: set<string>,
    magnitudes: set<string>,
    tens: map<string, nat>,
    units: map<string, nat>)

  /** Tables the lexer can run on: the empty fragment, which is what is
      gathered at the end of the text, is neither a tens word (a tens word
      reads on) nor a unit word. */
  type Vocabulary = v: Tables | "" !in v.tens && "" !in v.units witness Tables({}, {}, map[], map[])

  /** The magnitude words of `_isStandardUnit`, spelled as the PHP class
      spells them (including "milliard", "billiard" and "centillio"). */
  const Magnitudes: set<string> := {
    "trillion", "billion", "million", "thousand", "hundred", "milliard", "billiard",
    "quadrillion", "quintillion", "sextillion", "septillion", "octillion", "nonillion",
    "decillion", "undecillion", "duodecillion", "tredecillion", "quattuordecillion",
    "quindecillion", "sexdecillion", "septendecillion", "octodecillion", "novemdecillion",
    "vigintillion", "centillio"
  }

  /** The words of `_isTens` and the value it returns for each. */
  const TensWords: map<string, nat> := map[
    "ten" := 10, "twenty" := 20, "thirty" := 30, "forty" := 40, "fifty" := 50,
    "sixty" := 60, "seventy" := 70, "eighty" := 80, "ninety" := 90
  ]

  /** The words of `_isUnit` and the value it returns for each. */
  const UnitWords: map<string, nat> := map[
    "zero" := 0, "one" := 1, "two" := 2, "three" := 3, "four" := 4,
    "five" := 5, "six" := 6, "seven" := 7, "eight" := 8, "nine" := 9
  ]

  /** The tables of the PHP class; "and" is its only separator. */
  const Words: Vocabulary := Tables({"and"}, Magnitudes, TensWords, UnitWords)

  /** `_isSeperator`. */
  predicate IsSeparator(v: Vocabulary, fragment: string) {
    fragment in v.separators
  }

  /** `_isStandardUnit`. */
  predicate IsStandardUnit(v: Vocabulary, fragment: string) {
    fragment in v.magnitudes
  }

  /** `_isNoisy`: separators and magnitude words carry no digits. */
  predicate IsNoisy(v: Vocabulary, fragment: string) {
    IsSeparator(v, fragment) || IsStandardUnit(v, fragment)
  }

  /** `_isTens`. Its `false` for an unknown word is coerced to 0 by the
      declared `int` return type, so 0 means "not a tens word". */
  function TensValue(v: Vocabulary, fragment: string): (n: nat)
    ensures fragment in v.tens ==> n == v.tens[fragment]
    ensures fragment !in v.tens ==> n == 0
  {
    if fragment in v.tens then v.tens[fragment] else 0
  }

  /** `_isUnit`: `Some(d)` for a unit word, `None` for PHP's `false`. */
  function UnitValue(v: Vocabulary, fragment: string): (r: Option<nat>)
    ensures r.Some? <==> fragment in v.units
    ensures r.Some? ==> r.value == v.units[fragment]
  {
    if fragment in v.units then Some(v.units[fragment]) else None
  }

  /** PHP's `$result == false` on the `bool|int` that `_identifyNumber`
      returns: true for `false` and for 0. */
  predicate LooselyFalse(r: Option<nat>) {
    r.None? || r.value == 0
  }

  // ---------------------------------------------------------------------------
  // The cursor semantics, as functions of the text and a cursor position
  // ---------------------------------------------------------------------------

  /** How much of the text lies at or after `pos`. */
  function Remaining(text: string, pos: nat): (r: nat) {
    if pos <= |text| then |text| - pos else 0
  }

  /** Where `_skipWhitespaces` leaves a cursor that starts at `pos`: at the
      first position that is not a space (only ' ' counts), or the end. */
  function SkipSpaces(text: string, pos: nat): (e: nat)
    ensures pos <= e
    ensures pos <= |text| ==> e <= |text|
    ensures pos > |text| ==> e == pos
    ensures e < |text| ==> text[e] != ' '
    ensures forall i :: pos <= i < e ==> text[i] == ' '
    decreases Remaining(text, pos)
  {
    if pos < |text| && text[pos] == ' ' then SkipSpaces(text, pos + 1) else pos
  }

  /** Where the word starting at `pos` ends: the next space, or the end. */
  function WordEnd(text: string, pos: nat): (e: nat)
    ensures pos <= e
    ensures pos <= |text| ==> e <= |text|
    ensures pos > |text| ==> e == pos
    ensures e < |text| ==> text[e] == ' '
    ensures forall i :: pos <= i < e ==> text[i] != ' '
    decreases Remaining(text, pos)
  {
    if pos < |text| && text[pos] != ' ' then WordEnd(text, pos + 1) else pos
  }

  /** The lower-cased fragment `_extractNumber` gathers from `pos`. */
  function Fragment(text: string, pos: nat): (f: string)
    ensures pos <= |text| ==> |f| == WordEnd(text, pos) - pos
    ensures pos > |text| ==> f == ""
  {
    if pos <= |text| then Php.StrToLower(text[pos..WordEnd(text, pos)]) else ""
  }

  /** The string `_extractNumber` returns and where it leaves the cursor. */
  datatype Extracted = Extracted(digits: string, cursor: nat)

  /** The `bool|int` `_identifyNumber` returns and where it leaves the cursor. */
  datatype Identified = Identified(number: Option<nat>, cursor: nat)

  /** The string `lex` returns and where it leaves the cursor. */
  datatype Lexed = Lexed(output: string, cursor: nat)

  /** `_extractNumber` from cursor `pos`: gather the fragment up to the next
      space, identify it, and return "" when the result is loosely false,
      otherwise its decimal text. */
  function Extract(v: Vocabulary, text: string, pos: nat): (r: Extracted)
    ensures pos <= r.cursor
    ensures pos <= |text| ==> r.cursor <= |text|
    ensures pos > |text| ==> r == Extracted("", pos)
    decreases 2 * Remaining(text, pos) + 1
  {
    var id := Identify(v, Fragment(text, pos), text, WordEnd(text, pos));
    Extracted(if LooselyFalse(id.number) then "" else Php.IntToString(id.number.value), id.cursor)
  }

  /** `_identifyNumber(fragment)` with the cursor at `pos`, just after the
      fragment. A tens word skips the following spaces and adds the value of
      the next extraction, read back with `intval`. */
  function Identify(v: Vocabulary, fragment: string, text: string, pos: nat): (r: Identified)
    ensures pos <= r.cursor
    ensures pos <= |text| ==> r.cursor <= |text|
    ensures pos > |text| ==> r.cursor == pos
    decreases 2 * Remaining(text, pos) + (if fragment == "" then 0 else 2)
  {
    if IsNoisy(v, fragment) then Identified(None, pos)
    else if TensValue(v, fragment) != 0 then
      var next := Extract(v, text, SkipSpaces(text, pos));
      Identified(Some(TensValue(v, fragment) + Php.IntVal(next.digits)), next.cursor)
    else Identified(UnitValue(v, fragment), pos)
  }

  /** What one pass of the loop in `lex` appends and where it leaves the
      cursor. */
  datatype Stepped = Stepped(digits: string, next: nat)

  /** One pass of the loop in `lex` from cursor `pos`: at a space, skip the
      run of spaces and append nothing; otherwise extract a number and append
      it; in both cases step the cursor once more. */
  function Step(v: Vocabulary, text: string, pos: nat): (r: Stepped)
    requires pos < |text|
    ensures pos < r.next <= |text| + 1
  {
    if text[pos] == ' ' then Stepped("", SkipSpaces(text, pos) + 1)
    else
      var x := Extract(v, text, pos);
      Stepped(x.digits, x.cursor + 1)
  }

  /** `lex` from cursor `pos`: the passes of its loop, for as long as the
      cursor is inside the text. */
  function LexFrom(v: Vocabulary, text: string, pos: nat): (r: Lexed)
    ensures pos <= r.cursor && |text| <= r.cursor
    ensures pos < |text| ==> r.cursor <= |text| + 1
    ensures pos >= |text| ==> r == Lexed("", pos)
    decreases Remaining(text, pos)
  {
    if pos >= |text| then Lexed("", pos)
    else
      var s := Step(v, text, pos);
      var rest := LexFrom(v, text, s.next);
      Lexed(s.digits + rest.output, rest.cursor)
  }

  /** `LexFrom` unfolded once. */
  lemma {:induction false} LexFromStep(v: Vocabulary, text: string, pos: nat)
    requires pos < |text|
    ensures var s := Step(v, text, pos); var rest := LexFrom(v, text, s.next);
      LexFrom(v, text, pos) == Lexed(s.digits + rest.output, rest.cursor)
  {
  }

  /** `Step` at a space. */
  lemma {:induction false} StepAtSpace(v: Vocabulary, text: string, pos: nat)
    requires pos < |text| && text[pos] == ' '
    ensures Step(v, text, pos) == Stepped("", SkipSpaces(text, pos) + 1)
  {
  }

  /** `Step` at a word. */
  lemma {:induction false} StepAtWord(v: Vocabulary, text: string, pos: nat)
    requires pos < |text| && text[pos] != ' '
    ensures Step(v, text, pos) == Stepped(Extract(v, text, pos).digits, Extract(v, text, pos).cursor + 1)
  {
  }

  /** `LexFrom` at a space: the run of spaces adds nothing. */
  lemma {:induction false} LexFromSpace(v: Vocabulary, text: string, pos: nat)
    requires pos < |text| && text[pos] == ' '
    ensures LexFrom(v, text, pos) == LexFrom(v, text, SkipSpaces(text, pos) + 1)
  {
    StepAtSpace(v, text, pos);
    LexFromStep(v, text, pos);
    var rest := LexFrom(v, text, SkipSpaces(text, pos) + 1);
    assert "" + rest.output == rest.output;
  }

  /** `LexFrom` at a word, unfolded once. */
  lemma {:induction false} LexFromWord(v: Vocabulary, text: string, pos: nat)
    requires pos < |text| && text[pos] != ' '
    ensures var x := Extract(v, text, pos); var rest := LexFrom(v, text, x.cursor + 1);
      LexFrom(v, text, pos) == Lexed(x.digits + rest.output, rest.cursor)
  {
    StepAtWord(v, text, pos);
    LexFromStep(v, text, pos);
  }

  /** The tens case of `Identify`, unfolded once. */
  lemma {:induction false} IdentifyTensWord(v: Vocabulary, fragment: string, text: string, pos: nat)
    requires !IsNoisy(v, fragment) && TensValue(v, fragment) != 0
    ensures var next := Extract(v, text, SkipSpaces(text, pos));
      Identify(v, fragment, text, pos) == Identified(Some(TensValue(v, fragment) + Php.IntVal(next.digits)), next.cursor)
  {
  }

  /** The other cases of `Identify`, which leave the cursor where it is. */
  lemma {:induction false} IdentifyPlainWord(v: Vocabulary, fragment: string, text: string, pos: nat)
    requires IsNoisy(v, fragment) || TensValue(v, fragment) == 0
    ensures Identify(v, fragment, text, pos) == Identified(if IsNoisy(v, fragment) then None else UnitValue(v, fragment), pos)
  {
  }

  /** Appending `b` to the output so far keeps `whole == output + rest`. */
  lemma {:induction false} AppendStep(whole: string, a: string, b: string, rest: string, next: string)
    requires whole == a + rest && rest == b + next
    ensures whole == (a + b) + next
  {
  }

  // ---------------------------------------------------------------------------
  // The lexer object
  // ---------------------------------------------------------------------------

  class SentenceLexer {
    /** The text to analyse; the PHP property is written only by the constructor. */
    const text: string
    /** The word tables the PHP methods `_isSeperator`, `_isStandardUnit`,
        `_isTens` and `_isUnit` consult. */
    const words: Vocabulary
    /** The cursor. */
    var position: nat

    constructor (text: string := "")
      ensures this.text == text && words == Words && position == 0
    {
      this.text := text;
      words := Words;
      position := 0;
    }

    /** `_canLookAhead($step)`. */
    predicate CanLookAhead(step: nat := 0)
      reads this
    {
      position + step < |text|
    }

    /** `_isWhitespace`: the character under the cursor is ' '. Past the end
        PHP reads "" there, which is not " ". */
    predicate IsWhitespace()
      reads this
    {
      position < |text| && text[position] == ' '
    }

    /** `lex`: the digits of every recognised number, in order. */
    method Lex() returns (value: string)
      modifies this`position
      ensures value == LexFrom(words, text, old(position)).output
      ensures position == LexFrom(words, text, old(position)).cursor
    {
      value := "";
      ghost var start := position;
      while CanLookAhead()
        invariant start <= position
        invariant LexFrom(words, text, start).output == value + LexFrom(words, text, position).output
        invariant LexFrom(words, text, position).cursor == LexFrom(words, text, start).cursor
        decreases |text| - position
      {
        ghost var here := position;
        var digits := LexStep();
        LexFromStep(words, text, here);
        AppendStep(LexFrom(words, text, start).output, value, digits,
          LexFrom(words, text, here).output, LexFrom(words, text, position).output);
        value := value + digits;
      }
    }

    /** The body of the loop in `lex`. */
    method LexStep() returns (digits: string)
      requires position < |text|
      modifies this`position
      ensures Stepped(digits, position) == Step(words, text, old(position))
    {
      if IsWhitespace() {
        SkipWhitespaces();
        digits := "";
      } else {
        digits := ExtractNumber();
      }
      position := position + 1;
    }

    /** `_skipWhitespaces`. */
    method SkipWhitespaces()
      modifies this`position
      ensures position == SkipSpaces(text, old(position))
    {
      while CanLookAhead() && IsWhitespace()
        invariant old(position) <= position
        invariant SkipSpaces(text, position) == SkipSpaces(text, old(position))
        decreases |text| - position
      {
        position := position + 1;
      }
    }

    /** `_extractNumber`. */
    method ExtractNumber() returns (digits: string)
      modifies this`position
      ensures digits == Extract(words, text, old(position)).digits
      ensures position == Extract(words, text, old(position)).cursor
      decreases 2 * Remaining(text, position) + 1
    {
      var fragment := "";
      ghost var start := position;
      while CanLookAhead() && !IsWhitespace()
        invariant start <= position
        invariant start <= |text| ==> position <= |text|
        invariant start > |text| ==> position == start
        invariant WordEnd(text, position) == WordEnd(text, start)
        invariant start <= |text| ==> fragment == Php.StrToLower(text[start..position])
        invariant start > |text| ==> fragment == ""
        decreases |text| - position
      {
        fragment := fragment + [Php.Lower(text[position])];
        position := position + 1;
      }
      assert fragment == Fragment(text, start);
      var result := IdentifyNumber(fragment);
      digits := if LooselyFalse(result) then "" else Php.IntToString(result.value);
    }

    /** `_identifyNumber(fragment)`. */
    method IdentifyNumber(fragment: string) returns (result: Option<nat>)
      modifies this`position
      ensures Identified(result, position) == Identify(words, fragment, text, old(position))
      decreases 2 * Remaining(text, position) + (if fragment == "" then 0 else 2)
    {
      ghost var start := position;
      if IsNoisy(words, fragment) {
        IdentifyPlainWord(words, fragment, text, start);
        return None;
      }
      var tens := TensValue(words, fragment);
      if tens != 0 {
        SkipWhitespaces();
        var next := ExtractNumber();
        var unit := Php.IntVal(next);
        IdentifyTensWord(words, fragment, text, start);
        return Some(tens + unit);
      }
      IdentifyPlainWord(words, fragment, text, start);
      return UnitValue(words, fragment);
    }
  }

  /** `(new SentenceLexer($text))->lex()`. */
  method LexText(text: string := "") returns (digits: string)
    ensures digits == LexFrom(Words, text, 0).output
  {
    var lexer := new SentenceLexer(text);
    digits := lexer.Lex();
  }
}

/**
 * The lexer on the PHP word tables: the tables do not overlap, so the general
 * word lemmas of `LexerProperties` apply to every unit, tens and noise word,
 * and one sentence, "twenty five", worked through to its digits.
 */
module LexerWords {
  import Php
  import opened Lexing
  import opened LexerProperties

  // ---------------------------------------------------------------------------
  // The tables do not overlap
  // ---------------------------------------------------------------------------

  lemma {:induction false} MagnitudesAreLong(m: string)
    requires m in Magnitudes
    ensures |m| >= 7
  {
  }

  lemma {:induction false} UnitWordsAreShort(f: string)
    requires f in UnitWords
    ensures 3 <= |f| <= 5
  {
  }

  lemma {:induction false} UnitWordsNotTens(f: string)
    requires f in UnitWords
    ensures f !in TensWords
  {
  }

  /** Every unit word but "zero" is worth its digit 1 .. 9, and is neither
      noise nor a tens word. */
  lemma {:induction false} UnitWordsApart(f: string)
    requires f in UnitWords && f != "zero"
    ensures !IsNoisy(Words, f) && f !in Words.tens && f in Words.units && 1 <= Words.units[f] <= 9
  {
    UnitWordsAreShort(f);
    if f in Magnitudes {
      MagnitudesAreLong(f);
    }
    UnitWordsNotTens(f);
  }

  lemma {:induction false} TensWordsAreShort(f: string)
    requires f in TensWords
    ensures 3 <= |f| <= 7 && (|f| == 7 ==> f == "seventy")
  {
  }

  lemma {:induction false} ShortMagnitudes(m: string)
    requires m in Magnitudes && |m| <= 7
    ensures m == "billion" || m == "million" || m == "hundred"
  {
  }

  /** Every tens word is worth its multiple of ten, 10 to 90, and is not
      noise. */
  lemma {:induction false} TensWordsApart(f: string)
    requires f in TensWords
    ensures !IsNoisy(Words, f) && 10 <= TensValue(Words, f) <= 90 && TensValue(Words, f) % 10 == 0
  {
    TensWordsAreShort(f);
    if f in Magnitudes {
      MagnitudesAreLong(f);
      ShortMagnitudes(f);
    }
  }

  /** "and" and the magnitude words are noise, worth nothing. */
  lemma {:induction false} NoiseWordsSilent(f: string)
    requires f == "and" || f in Magnitudes
    ensures IsPlain(Words, f) && PlainValue(Words, f) == 0
  {
  }

  /** "zero" is a unit word, but it is worth 0 and so contributes nothing. */
  lemma {:induction false} ZeroSilent()
    ensures "zero" in Words.units && IsPlain(Words, "zero") && PlainValue(Words, "zero") == 0
  {
    UnitWordsNotTens("zero");
  }

  /** Hyphenated numbers and the teens are in no table. */
  lemma {:induction false} UnlistedWords()
    ensures forall f :: f in ["forty-five", "eleven", "nineteen", "thousand,"] ==> IsPlain(Words, f) && PlainValue(Words, f) == 0
  {
  }

  // ---------------------------------------------------------------------------
  // One sentence
  // ---------------------------------------------------------------------------

  /** A tens word followed by a unit word. */
  const TwentyFiveText := "twenty five"

  lemma {:induction false} TwentyFragment()
    ensures WordEnd(TwentyFiveText, 0) == 6 && Fragment(TwentyFiveText, 0) == "twenty"
  {
    FragmentOfWord(TwentyFiveText, 0, "twenty");
  }

  lemma {:induction false} FiveFragment()
    ensures SkipSpaces(TwentyFiveText, 6) == 7
    ensures WordEnd(TwentyFiveText, 7) == 11 && Fragment(TwentyFiveText, 7) == "five"
  {
    FragmentOfWord(TwentyFiveText, 7, "five");
  }

  lemma {:induction false} TwentyFiveWords()
    ensures !IsNoisy(Words, "twenty") && TensValue(Words, "twenty") == 20
    ensures IsPlain(Words, "five") && PlainValue(Words, "five") == 5
  {
    TensWordsApart("twenty");
    UnitWordsApart("five");
  }

  lemma {:induction false} TwentyFiveStep()
    ensures Step(Words, TwentyFiveText, 0) == Stepped("25", 12)
  {
    TwentyFragment();
    FiveFragment();
    TwentyFiveWords();
    TensWord(Words, TwentyFiveText, 0);
    assert Php.IntToString(25) == "25";
  }

  /** A magnitude word after a unit word. */
  const OneHundredText := "one hundred"

  lemma {:induction false} OneStep(text: string)
    requires text == OneHundredText || text == "one"
    ensures Step(Words, text, 0) == Stepped("1", 4)
  {
    FragmentOfWord(text, 0, "one");
    assert Fragment(text, 0) == "one";
    UnitWordsApart("one");
    UnitWord(Words, text, 0, 1);
  }

  lemma {:induction false} HundredStep()
    ensures Step(Words, OneHundredText, 4) == Stepped("", 12)
  {
    FragmentOfWord(OneHundredText, 4, "hundred");
    NoiseWordsSilent("hundred");
    SilentWord(Words, OneHundredText, 4);
  }

  /** The lexer is not the inverse of a number-to-words generator: "one
      hundred" and "one" both lex to "1", because the magnitude word is
      dropped rather than applied. */
  lemma {:induction false} OneHundredIsOne()
    ensures LexFrom(Words, OneHundredText, 0).output == LexFrom(Words, "one", 0).output == "1"
  {
    OneStep(OneHundredText);
    HundredStep();
    LexFromStep(Words, OneHundredText, 0);
    LexFromStep(Words, OneHundredText, 4);
    OneStep("one");
    LexFromStep(Words, "one", 0);
  }

  /** `lex` reads "twenty five" as 25. */
  lemma {:induction false} TwentyFive()
    ensures LexFrom(Words, TwentyFiveText, 0).output == "25"
  {
    TwentyFiveStep();
    LexFromStep(Words, TwentyFiveText, 0);
  }
}

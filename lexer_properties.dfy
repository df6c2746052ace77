/**
 * What `SentenceLexer::lex` does, stated over the cursor semantics of module
 * `Lexing`: the shape of its output, what each kind of word contributes, and
 * its quirks (case-insensitive lookup, only ' ' separates words, the extra
 * cursor step after a run of spaces). The general facts hold for any
 * vocabulary; the last section instantiates them with the PHP tables.
 */
module LexerProperties {
  import opened Wrappers
  import Php
  import opened Lexing

  // ---------------------------------------------------------------------------
  // The output is a concatenation of decimal numerals of positive integers
  // ---------------------------------------------------------------------------

  /** The decimal numerals of `ns`, written one after the other. */
  function JoinNumerals(ns: seq<nat>): (r: string) {
    if ns == [] then "" else Php.IntToString(ns[0]) + JoinNumerals(ns[1..])
  }

  predicate AllPositive(ns: seq<nat>) {
    forall i :: 0 <= i < |ns| ==> ns[i] > 0
  }

  /** `Extract` unfolded once. */
  lemma {:induction false} ExtractIdentify(v: Vocabulary, text: string, pos: nat)
    ensures var id := Identify(v, Fragment(text, pos), text, WordEnd(text, pos));
      Extract(v, text, pos) == Extracted(if LooselyFalse(id.number) then "" else Php.IntToString(id.number.value), id.cursor)
  {
  }

  /** One pass of the loop appends at most one numeral, of a positive value. */
  lemma {:induction false} StepNumerals(v: Vocabulary, text: string, pos: nat) returns (ns: seq<nat>)
    requires pos < |text|
    ensures AllPositive(ns) && |ns| <= 1 && Step(v, text, pos).digits == JoinNumerals(ns)
  {
    if text[pos] == ' ' {
      StepAtSpace(v, text, pos);
      ns := [];
    } else {
      StepAtWord(v, text, pos);
      ExtractIdentify(v, text, pos);
      var id := Identify(v, Fragment(text, pos), text, WordEnd(text, pos));
      if LooselyFalse(id.number) {
        ns := [];
      } else {
        ns := [id.number.value];
        assert Php.IntToString(id.number.value) + "" == Php.IntToString(id.number.value);
      }
    }
  }

  lemma {:induction false} JoinNumeralsAppend(a: seq<nat>, b: seq<nat>)
    ensures JoinNumerals(a + b) == JoinNumerals(a) + JoinNumerals(b)
  {
    if a != [] {
      assert (a + b)[1..] == a[1..] + b;
      JoinNumeralsAppend(a[1..], b);
      var h := Php.IntToString(a[0]);
      assert (a + b)[0] == a[0];
      assert JoinNumerals(a + b) == h + (JoinNumerals(a[1..]) + JoinNumerals(b));
      assert h + (JoinNumerals(a[1..]) + JoinNumerals(b)) == (h + JoinNumerals(a[1..])) + JoinNumerals(b);
    } else {
      assert a + b == b;
    }
  }

  /** `lex` only ever appends the decimal text of a positive value: a
      fragment worth 0 (such as "zero") is dropped, because `0 == false`. */
  lemma {:induction false} LexOutputIsPositiveNumerals(v: Vocabulary, text: string, pos: nat) returns (ns: seq<nat>)
    ensures AllPositive(ns) && LexFrom(v, text, pos).output == JoinNumerals(ns)
    decreases Remaining(text, pos)
  {
    if pos >= |text| {
      ns := [];
    } else {
      var first := StepNumerals(v, text, pos);
      var rest := LexOutputIsPositiveNumerals(v, text, Step(v, text, pos).next);
      LexFromStep(v, text, pos);
      JoinNumeralsAppend(first, rest);
      ns := first + rest;
    }
  }

  /** Hence the output holds nothing but decimal digits. */
  lemma {:induction false} JoinNumeralsAllDigits(ns: seq<nat>)
    ensures Php.AllDigits(JoinNumerals(ns))
  {
    if ns != [] {
      JoinNumeralsAllDigits(ns[1..]);
      var a, b := Php.IntToString(ns[0]), JoinNumerals(ns[1..]);
      assert forall i :: |a| <= i < |a| + |b| ==> (a + b)[i] == b[i - |a|];
    }
  }

  lemma {:induction false} LexOutputIsDigits(v: Vocabulary, text: string, pos: nat)
    ensures Php.AllDigits(LexFrom(v, text, pos).output)
  {
    var ns := LexOutputIsPositiveNumerals(v, text, pos);
    JoinNumeralsAllDigits(ns);
  }

  // ---------------------------------------------------------------------------
  // What one word contributes
  // ---------------------------------------------------------------------------

  /** `w` stands at `pos` as a whole word: it holds no ' ' and is followed by
      a space or by the end of the text. */
  predicate WordAt(text: string, pos: nat, w: string) {
    && pos + |w| <= |text|
    && (forall i :: 0 <= i < |w| ==> text[pos + i] == w[i] && w[i] != ' ')
    && (pos + |w| == |text| || text[pos + |w|] == ' ')
  }

  /** The fragment `_extractNumber` gathers at a word is the lower-cased word. */
  lemma {:induction false} FragmentOfWord(text: string, pos: nat, w: string)
    requires WordAt(text, pos, w)
    ensures WordEnd(text, pos) == pos + |w|
    ensures Fragment(text, pos) == Php.StrToLower(w)
    decreases |w|
  {
    if w != [] {
      assert text[pos] == w[0];
      FragmentOfWord(text, pos + 1, w[1..]);
    }
  }

  /** What a fragment that does not read on is worth where it stands: nothing
      for noise, its value for a unit word, nothing for anything else. */
  function PlainValue(v: Vocabulary, fragment: string): (r: nat) {
    if IsNoisy(v, fragment) then 0
    else match UnitValue(v, fragment)
      case Some(d) => d
      case None => 0
  }

  /** A fragment that does not read on: noise, or not a tens word. */
  predicate IsPlain(v: Vocabulary, fragment: string) {
    IsNoisy(v, fragment) || TensValue(v, fragment) == 0
  }

  /** Extracting at a plain fragment yields the decimal text of its value,
      or nothing when the value is 0, and stops right after the fragment. */
  lemma {:induction false} PlainExtract(v: Vocabulary, text: string, pos: nat)
    requires IsPlain(v, Fragment(text, pos))
    ensures var d := PlainValue(v, Fragment(text, pos));
      Extract(v, text, pos) == Extracted(if d == 0 then "" else Php.IntToString(d), WordEnd(text, pos))
  {
    IdentifyPlainWord(v, Fragment(text, pos), text, WordEnd(text, pos));
    ExtractIdentify(v, text, pos);
  }

  /** A separator, a magnitude word, a unit word worth 0 or an unrecognised
      word contributes nothing: the pass of `lex` at it appends nothing and
      goes on right after it. */
  lemma {:induction false} SilentWord(v: Vocabulary, text: string, pos: nat)
    requires pos < |text| && text[pos] != ' '
    requires IsPlain(v, Fragment(text, pos)) && PlainValue(v, Fragment(text, pos)) == 0
    ensures Step(v, text, pos) == Stepped("", WordEnd(text, pos) + 1)
  {
    PlainExtract(v, text, pos);
    StepAtWord(v, text, pos);
  }

  /** A unit word worth a digit 1 .. 9, in any letter case, contributes
      exactly that digit. */
  lemma {:induction false} UnitWord(v: Vocabulary, text: string, pos: nat, d: nat)
    requires pos < |text| && text[pos] != ' '
    requires var f := Fragment(text, pos); !IsNoisy(v, f) && f !in v.tens && f in v.units && v.units[f] == d
    requires 1 <= d <= 9
    ensures Step(v, text, pos) == Stepped([Php.DigitChar(d)], WordEnd(text, pos) + 1)
  {
    PlainExtract(v, text, pos);
    StepAtWord(v, text, pos);
  }

  /** The next extraction after a tens word, read back with `intval`, is
      what that next fragment is worth. */
  lemma {:induction false} NextWordValue(v: Vocabulary, text: string, q: nat)
    requires IsPlain(v, Fragment(text, q))
    ensures Php.IntVal(Extract(v, text, q).digits) == PlainValue(v, Fragment(text, q))
    ensures Extract(v, text, q).cursor == WordEnd(text, q)
  {
    PlainExtract(v, text, q);
    var d := PlainValue(v, Fragment(text, q));
    if d != 0 {
      Php.IntValOfIntToString(d);
    }
  }

  /** `_identifyNumber` on a tens word, when the next fragment is plain. */
  lemma {:induction false} TensIdentify(v: Vocabulary, f: string, text: string, e: nat)
    requires !IsNoisy(v, f) && TensValue(v, f) != 0 && IsPlain(v, Fragment(text, SkipSpaces(text, e)))
    ensures var q := SkipSpaces(text, e);
      Identify(v, f, text, e) == Identified(Some(TensValue(v, f) + PlainValue(v, Fragment(text, q))), WordEnd(text, q))
  {
    NextWordValue(v, text, SkipSpaces(text, e));
    IdentifyTensWord(v, f, text, e);
  }

  /** A tens word also consumes the next word, after any run of spaces; it
      contributes the tens value plus what that next word is worth, which is
      0 when the next word is noise, unknown or absent (at the end). */
  lemma {:induction false} TensWord(v: Vocabulary, text: string, pos: nat)
    requires pos < |text| && text[pos] != ' '
    requires var f := Fragment(text, pos); !IsNoisy(v, f) && TensValue(v, f) != 0
    requires IsPlain(v, Fragment(text, SkipSpaces(text, WordEnd(text, pos))))
    ensures var f, q := Fragment(text, pos), SkipSpaces(text, WordEnd(text, pos));
      Step(v, text, pos) == Stepped(Php.IntToString(TensValue(v, f) + PlainValue(v, Fragment(text, q))), WordEnd(text, q) + 1)
  {
    TensIdentify(v, Fragment(text, pos), text, WordEnd(text, pos));
    ExtractIdentify(v, text, pos);
    StepAtWord(v, text, pos);
  }

  // ---------------------------------------------------------------------------
  // Lower-case equivalent suffixes lex alike
  // ---------------------------------------------------------------------------

  /** From `p1` in `t1` and from `p2` in `t2` the two texts have the same
      length left and agree character by character once lower-cased. */
  predicate Agree(t1: string, p1: nat, t2: string, p2: nat) {
    && p1 <= |t1| && p2 <= |t2| && |t1| - p1 == |t2| - p2
    && forall k :: p1 <= k < |t1| ==> Php.Lower(t1[k]) == Php.Lower(t2[k - p1 + p2])
  }

  lemma {:induction false} SpaceUnderLower(c: char)
    ensures Php.Lower(c) == ' ' <==> c == ' '
  {
  }

  lemma {:induction false} AgreeAt(t1: string, p1: nat, t2: string, p2: nat, q1: nat, q2: nat)
    requires Agree(t1, p1, t2, p2) && p1 <= q1 <= |t1| && q2 - p2 == q1 - p1
    ensures Agree(t1, q1, t2, q2)
  {
  }

  lemma {:induction false} AgreeSkipSpaces(t1: string, p1: nat, t2: string, p2: nat)
    requires Agree(t1, p1, t2, p2)
    ensures SkipSpaces(t2, p2) - p2 == SkipSpaces(t1, p1) - p1
    decreases |t1| - p1
  {
    if p1 < |t1| {
      SpaceUnderLower(t1[p1]);
      SpaceUnderLower(t2[p2]);
      if t1[p1] == ' ' {
        AgreeSkipSpaces(t1, p1 + 1, t2, p2 + 1);
      }
    }
  }

  lemma {:induction false} AgreeWordEnd(t1: string, p1: nat, t2: string, p2: nat)
    requires Agree(t1, p1, t2, p2)
    ensures WordEnd(t2, p2) - p2 == WordEnd(t1, p1) - p1
    decreases |t1| - p1
  {
    if p1 < |t1| {
      SpaceUnderLower(t1[p1]);
      SpaceUnderLower(t2[p2]);
      if t1[p1] != ' ' {
        AgreeWordEnd(t1, p1 + 1, t2, p2 + 1);
      }
    }
  }

  lemma {:induction false} AgreeFragment(t1: string, p1: nat, t2: string, p2: nat)
    requires Agree(t1, p1, t2, p2)
    ensures Fragment(t2, p2) == Fragment(t1, p1)
  {
    AgreeWordEnd(t1, p1, t2, p2);
    var f1, f2 := Fragment(t1, p1), Fragment(t2, p2);
    forall i | 0 <= i < |f1| ensures f1[i] == f2[i] {
      assert f1[i] == Php.Lower(t1[p1 + i]);
      assert f2[i] == Php.Lower(t2[p2 + i]);
    }
  }

  lemma {:induction false} AgreeExtract(v: Vocabulary, t1: string, p1: nat, t2: string, p2: nat)
    requires Agree(t1, p1, t2, p2)
    ensures Extract(v, t2, p2).digits == Extract(v, t1, p1).digits
    ensures Extract(v, t2, p2).cursor - p2 == Extract(v, t1, p1).cursor - p1
    decreases 2 * Remaining(t1, p1) + 1
  {
    AgreeWordEnd(t1, p1, t2, p2);
    AgreeFragment(t1, p1, t2, p2);
    var e1, e2 := WordEnd(t1, p1), WordEnd(t2, p2);
    AgreeAt(t1, p1, t2, p2, e1, e2);
    AgreeIdentify(v, Fragment(t1, p1), t1, e1, t2, e2);
    ExtractIdentify(v, t1, p1);
    ExtractIdentify(v, t2, p2);
  }

  lemma {:induction false} AgreeIdentify(v: Vocabulary, f: string, t1: string, p1: nat, t2: string, p2: nat)
    requires Agree(t1, p1, t2, p2)
    ensures Identify(v, f, t2, p2).number == Identify(v, f, t1, p1).number
    ensures Identify(v, f, t2, p2).cursor - p2 == Identify(v, f, t1, p1).cursor - p1
    decreases 2 * Remaining(t1, p1) + (if f == "" then 0 else 2)
  {
    if !IsNoisy(v, f) && TensValue(v, f) != 0 {
      var s1, s2 := SkipSpaces(t1, p1), SkipSpaces(t2, p2);
      AgreeSkipSpaces(t1, p1, t2, p2);
      AgreeAt(t1, p1, t2, p2, s1, s2);
      AgreeExtract(v, t1, s1, t2, s2);
      AgreeTens(v, f, t1, p1, t2, p2);
    } else {
      IdentifyPlainWord(v, f, t1, p1);
      IdentifyPlainWord(v, f, t2, p2);
    }
  }

  /** The tens case of `AgreeIdentify`, once the two next extractions agree. */
  lemma {:induction false} AgreeTens(v: Vocabulary, f: string, t1: string, p1: nat, t2: string, p2: nat)
    requires !IsNoisy(v, f) && TensValue(v, f) != 0
    requires var x1, x2 := Extract(v, t1, SkipSpaces(t1, p1)), Extract(v, t2, SkipSpaces(t2, p2));
      x2.digits == x1.digits && x2.cursor - p2 == x1.cursor - p1
    ensures Identify(v, f, t2, p2).number == Identify(v, f, t1, p1).number
    ensures Identify(v, f, t2, p2).cursor - p2 == Identify(v, f, t1, p1).cursor - p1
  {
    IdentifyTensWord(v, f, t1, p1);
    IdentifyTensWord(v, f, t2, p2);
  }

  /** The two passes of `lex` at agreeing cursors append the same and move
      the cursors alike. */
  lemma {:induction false} AgreeStep(v: Vocabulary, t1: string, p1: nat, t2: string, p2: nat)
    requires Agree(t1, p1, t2, p2) && p1 < |t1|
    ensures p2 < |t2| && Step(v, t2, p2).digits == Step(v, t1, p1).digits
    ensures Step(v, t2, p2).next - p2 == Step(v, t1, p1).next - p1
  {
    SpaceUnderLower(t1[p1]);
    SpaceUnderLower(t2[p2]);
    if t1[p1] == ' ' {
      AgreeSkipSpaces(t1, p1, t2, p2);
      StepAtSpace(v, t1, p1);
      StepAtSpace(v, t2, p2);
    } else {
      AgreeExtract(v, t1, p1, t2, p2);
      StepAtWord(v, t1, p1);
      StepAtWord(v, t2, p2);
    }
  }

  /** Two cursors whose passes append the same, and whose rests lex alike,
      lex alike. */
  lemma {:induction false} LexFromSameStep(v: Vocabulary, t1: string, p1: nat, t2: string, p2: nat)
    requires p1 < |t1| && p2 < |t2|
    requires Step(v, t2, p2).digits == Step(v, t1, p1).digits
    requires LexFrom(v, t2, Step(v, t2, p2).next).output == LexFrom(v, t1, Step(v, t1, p1).next).output
    ensures LexFrom(v, t2, p2).output == LexFrom(v, t1, p1).output
  {
    LexFromStep(v, t1, p1);
    LexFromStep(v, t2, p2);
  }

  lemma {:induction false} AgreeLex(v: Vocabulary, t1: string, p1: nat, t2: string, p2: nat)
    requires Agree(t1, p1, t2, p2)
    ensures LexFrom(v, t2, p2).output == LexFrom(v, t1, p1).output
    decreases Remaining(t1, p1)
  {
    if p1 < |t1| {
      AgreeStep(v, t1, p1, t2, p2);
      var q1, q2 := Step(v, t1, p1).next, Step(v, t2, p2).next;
      if q1 <= |t1| {
        AgreeAt(t1, p1, t2, p2, q1, q2);
        AgreeLex(v, t1, q1, t2, q2);
      }
      LexFromSameStep(v, t1, p1, t2, p2);
    }
  }

  /** Lookup is case-insensitive: lower-casing the whole text first changes
      nothing. */
  lemma {:induction false} LexIgnoresCase(v: Vocabulary, text: string)
    ensures LexFrom(v, Php.StrToLower(text), 0).output == LexFrom(v, text, 0).output
  {
    var lower := Php.StrToLower(text);
    forall k | 0 <= k < |text| ensures Php.Lower(text[k]) == Php.Lower(lower[k]) {
      assert lower[k] == Php.Lower(text[k]);
    }
    AgreeLex(v, text, 0, lower, 0);
  }

  /** What stands before the cursor does not matter. */
  lemma {:induction false} LexIgnoresPrefix(v: Vocabulary, prefix: string, s: string)
    ensures LexFrom(v, prefix + s, |prefix|).output == LexFrom(v, s, 0).output
  {
    var t := prefix + s;
    forall k | |prefix| <= k < |t| ensures Php.Lower(t[k]) == Php.Lower(s[k - |prefix|]) {
    }
    AgreeLex(v, t, |prefix|, s, 0);
  }

  /** After a run of spaces `lex` steps the cursor once more, so the first
      letter of a word that follows a leading space is lost. */
  lemma {:induction false} LeadingSpaceDropsFirstLetter(v: Vocabulary, s: string)
    requires s != "" && s[0] != ' '
    ensures LexFrom(v, " " + s, 0).output == LexFrom(v, s[1..], 0).output
  {
    var t := " " + s;
    assert SkipSpaces(t, 1) == 1;
    LexFromSpace(v, t, 0);
    assert t == t[..2] + s[1..];
    LexIgnoresPrefix(v, t[..2], s[1..]);
  }
}

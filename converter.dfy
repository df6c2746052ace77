/**
 * The phrase assembly of `Converter`: how the whole and decimal phrases of a
 * money value, produced by the sentence generator, and the two currency
 * names become a `TranslationLexemes(whole, decimal, full)` record, in
 * English directly and otherwise through the memoising translator.
 *
 * The conversion starts from the money value as `_setMoney` leaves it: the
 * trimmed original text and either a whole part alone or a whole and a
 * decimal part. The sentence generator is a function value `nat -> string`.
 */
module Conversion {
  import opened Wrappers
  import opened Php
  import opened Contracts
  import opened Translation

  /** `SentenceGenerator::generateSentence`. */
  type Generator = nat -> string

  /** What `_setMoney` leaves behind. A whole-only value keeps as its whole
      part the formatted text (such as "345.00"), which is also its cache
      key; a decimal value keeps the two integers `intval` read. */
  datatype Parts =
    | WholeOnly(formatted: string, whole: nat)
    | WithDecimal(whole: nat, decimal: nat)

  /** `TranslationException`: a message and a code. */
  datatype TranslationError = TranslationError(message: string, code: int)

  /** A conversion's lexemes (or the fault that stopped it) and the cache
      after it. */
  datatype Converted = Converted(value: Result<TranslationLexemes, Fault>, entries: map<string, string>)

  /** The translations of several phrases in order, or the first fault, and
      the cache after them. */
  datatype Batch = Batch(value: Result<seq<Option<string>>, Fault>, entries: map<string, string>)

  /** The full phrase of a whole-only value: `"{$whole} {$currency} only"`. */
  function WholeFull(whole: string, currency: string): (f: string)
    ensures |f| == |whole| + |currency| + 6
    ensures f[..|whole|] == whole && f[|f| - 5..] == " only"
  {
    whole + " " + currency + " only"
  }

  /** A phrase with its currency, or nothing when the phrase is empty. */
  function Labelled(phrase: string, currency: string): (r: seq<string>) {
    if phrase == "" then [] else [phrase + " " + currency]
  }

  /** The items joined by ", ". */
  function JoinComma(items: seq<string>): (r: string) {
    if |items| == 0 then ""
    else if |items| == 1 then items[0]
    else items[0] + ", " + JoinComma(items[1..])
  }

  /** The full phrase of a decimal value, as a reference: the labelled
      phrases that are present, joined by ", ", then " only". */
  function DecimalFull(whole: string, decimal: string, cw: string, cd: string): (r: string) {
    JoinComma(Labelled(whole, cw) + Labelled(decimal, cd)) + " only"
  }

  /** The four shapes of the decimal full phrase. */
  lemma DecimalFullCases(whole: string, decimal: string, cw: string, cd: string)
    ensures whole != "" && decimal != "" ==> DecimalFull(whole, decimal, cw, cd) == whole + " " + cw + ", " + decimal + " " + cd + " only"
    ensures whole != "" && decimal == "" ==> DecimalFull(whole, decimal, cw, cd) == whole + " " + cw + " only"
    ensures whole == "" && decimal != "" ==> DecimalFull(whole, decimal, cw, cd) == decimal + " " + cd + " only"
    ensures whole == "" && decimal == "" ==> DecimalFull(whole, decimal, cw, cd) == " only"
  {
    if whole != "" && decimal != "" {
      var items := Labelled(whole, cw) + Labelled(decimal, cd);
      assert items == [whole + " " + cw, decimal + " " + cd];
      assert items[1..] == [decimal + " " + cd];
      assert JoinComma(items) == (whole + " " + cw) + ", " + (decimal + " " + cd);
    } else if whole != "" {
      assert Labelled(whole, cw) + Labelled(decimal, cd) == [whole + " " + cw];
    } else if decimal != "" {
      assert Labelled(whole, cw) + Labelled(decimal, cd) == [decimal + " " + cd];
    }
  }

  /** The decimal full phrase always ends with " only", and once it has a
      whole part, ", " follows that part exactly when a decimal part is there. */
  lemma DecimalFullShape(whole: string, decimal: string, cw: string, cd: string)
    ensures var f := DecimalFull(whole, decimal, cw, cd);
      |f| >= 5 && f[|f| - 5..] == " only"
    ensures var f := DecimalFull(whole, decimal, cw, cd);
      whole != "" ==> |f| >= |whole| + |cw| + 3 && f[..|whole| + |cw| + 1] == whole + " " + cw
                      && (f[|whole| + |cw| + 1..|whole| + |cw| + 3] == ", " <==> decimal != "")
  {
    DecimalFullCases(whole, decimal, cw, cd);
    var f := DecimalFull(whole, decimal, cw, cd);
    var n := |whole| + |cw| + 1;
    if whole != "" {
      if decimal != "" {
        assert f == (whole + " " + cw) + (", " + decimal + " " + cd + " only");
      } else {
        assert f == (whole + " " + cw) + " only";
        assert f[n..n + 2] == " o";
      }
    }
  }

  /** The full sentence of a decimal value built piece by piece, as
      `_convertWholeAndDecimalPart` does, agrees with the reference. */
  method AssembleFull(whole: string, decimal: string, cw: string, cd: string) returns (full: string)
    ensures full == DecimalFull(whole, decimal, cw, cd)
  {
    full := "";
    if whole != "" {
      full := whole + " " + cw;
    }
    if whole != "" && decimal != "" {
      full := full + ", ";
    }
    if decimal != "" {
      full := full + decimal + " " + cd;
    }
    full := full + " only";
    DecimalFullCases(whole, decimal, cw, cd);
  }

  /** The phrases translated one after the other, each cached under its own
      key, stopping at the first fault. */
  function TranslateEach(entries: map<string, string>, language: string, translate: Callback,
                         items: seq<(string, string)>): (b: Batch)
    ensures b.value.Success? ==> |b.value.value| == |items|
    decreases |items|
  {
    if items == [] then Batch(Success([]), entries)
    else
      var first := Memoised(entries, items[0].0, language, translate, Some(items[0].1));
      match first.value
      case Failure(fault) => Batch(Failure(fault), first.entries)
      case Success(t) =>
        var rest := TranslateEach(first.entries, language, translate, items[1..]);
        match rest.value
        case Failure(fault) => rest
        case Success(ts) => Batch(Success([t] + ts), rest.entries)
  }

  /** A batch unfolded at its first phrase. */
  lemma EachStep(entries: map<string, string>, language: string, translate: Callback,
                 items: seq<(string, string)>)
    requires items != []
    ensures var first := Memoised(entries, items[0].0, language, translate, Some(items[0].1));
      var rest := TranslateEach(first.entries, language, translate, items[1..]);
      TranslateEach(entries, language, translate, items)
        == if first.value.Failure? then Batch(Failure(first.value.error), first.entries)
           else if rest.value.Failure? then rest
           else Batch(Success([first.value.value] + rest.value.value), rest.entries)
  {
  }

  /** The callback `translate` builds for the converter: from English. */
  function FromEnglish(client: Client): (r: Callback) {
    ClientCallback(client, Some(English))
  }

  /** `_convertWholePart` on a generated phrase: the zero record for a blank
      phrase; in English the phrase and its full sentence; otherwise the
      translations of both, the phrase cached under the whole part's key and
      the full sentence under the original money text. */
  function WholeConversion(entries: map<string, string>, language: string, client: Client,
                           phrase: string, cw: string, key: string, money: string): (c: Converted)
    ensures language == English ==> c.entries == entries && c.value.Success?
    ensures Trim(phrase) != "" && c.value.Success? ==> c.value.value.decimal.None?
  {
    if Trim(phrase) == "" then Converted(Success(Zero), entries)
    else
      var full := WholeFull(phrase, cw);
      if language == English then
        Converted(Success(TranslationLexemes(Some(phrase), None, Some(full))), entries)
      else
        var b := TranslateEach(entries, language, FromEnglish(client), [(phrase, key), (full, money)]);
        match b.value
        case Failure(fault) => Converted(Failure(fault), b.entries)
        case Success(ts) => Converted(Success(TranslationLexemes(ts[0], None, ts[1])), b.entries)
  }

  /** `_convertWholeAndDecimalPart` on the generated phrases, trimmed: the zero
      record when both are blank; in English both and the full sentence;
      otherwise the three translations, cached under the whole part's key,
      the decimal part's key and the original money text. */
  function DecimalConversion(entries: map<string, string>, language: string, client: Client,
                             wholePhrase: string, decimalPhrase: string, cw: string, cd: string,
                             wholeKey: string, decimalKey: string, money: string): (c: Converted)
    ensures language == English ==> c.entries == entries && c.value.Success?
  {
    var whole := Trim(wholePhrase);
    var decimal := Trim(decimalPhrase);
    if whole == "" && decimal == "" then Converted(Success(Zero), entries)
    else
      var full := DecimalFull(whole, decimal, cw, cd);
      if language == English then
        Converted(Success(TranslationLexemes(Some(whole), Some(decimal), Some(full))), entries)
      else
        var b := TranslateEach(entries, language, FromEnglish(client),
                               [(whole, wholeKey), (decimal, decimalKey), (full, money)]);
        match b.value
        case Failure(fault) => Converted(Failure(fault), b.entries)
        case Success(ts) => Converted(Success(TranslationLexemes(ts[0], ts[1], ts[2])), b.entries)
  }

  /** The lexemes of a money value, before exceptions are wrapped. The keys
      of a decimal value are its two integers as decimal text. */
  function Conversion(entries: map<string, string>, language: string, client: Client, generate: Generator,
                      cw: string, cd: string, money: string, parts: Parts): (c: Converted)
    ensures language == English ==> c.entries == entries && c.value.Success?
  {
    match parts
    case WholeOnly(formatted, whole) =>
      WholeConversion(entries, language, client, generate(whole), cw, formatted, money)
    case WithDecimal(whole, decimal) =>
      DecimalConversion(entries, language, client, generate(whole), generate(decimal), cw, cd,
                        IntToString(whole), IntToString(decimal), money)
  }

  /** The exception `convert` throws for a fault: the message decoded from
      the JSON body of a service exception, the message of any other
      exception, and the fault's code in both cases. */
  function Wrap(fault: Fault, decodeMessage: string -> string): (e: TranslationError)
    ensures e.code == fault.code
    ensures fault.GenericFault? ==> e.message == fault.message
    ensures fault.ServiceFault? ==> e.message == decodeMessage(fault.body)
  {
    match fault
    case ServiceFault(body, code) => TranslationError(decodeMessage(body), code)
    case GenericFault(message, code) => TranslationError(message, code)
  }

  /** A blank phrase gives the zero record whatever the language, and
      touches neither the cache nor the client. */
  lemma BlankIsZero(entries: map<string, string>, language: string, client: Client, generate: Generator,
                    cw: string, cd: string, money: string, parts: Parts)
    requires parts.WholeOnly? ==> Trim(generate(parts.whole)) == ""
    requires parts.WithDecimal? ==> Trim(generate(parts.whole)) == "" && Trim(generate(parts.decimal)) == ""
    ensures Conversion(entries, language, client, generate, cw, cd, money, parts) == Converted(Success(Zero), entries)
  {
  }

  /** An English conversion never fails and leaves the cache untouched; its
      lexemes are the phrases themselves and the full sentence. */
  lemma EnglishIsUntranslated(entries: map<string, string>, client: Client, generate: Generator,
                              cw: string, cd: string, money: string, parts: Parts)
    ensures var c := Conversion(entries, English, client, generate, cw, cd, money, parts);
      c.entries == entries && c.value.Success?
    ensures parts.WholeOnly? && Trim(generate(parts.whole)) != "" ==>
      var phrase := generate(parts.whole);
      Conversion(entries, English, client, generate, cw, cd, money, parts).value
        == Success(TranslationLexemes(Some(phrase), None, Some(phrase + " " + cw + " only")))
    ensures parts.WithDecimal? && (Trim(generate(parts.whole)) != "" || Trim(generate(parts.decimal)) != "") ==>
      var whole := Trim(generate(parts.whole));
      var decimal := Trim(generate(parts.decimal));
      Conversion(entries, English, client, generate, cw, cd, money, parts).value
        == Success(TranslationLexemes(Some(whole), Some(decimal), Some(DecimalFull(whole, decimal, cw, cd))))
  {
  }

  /** Every key of the batch holds, after it, the translation the batch
      returned for it, and every such translation is truthy. */
  predicate ServesAll(entries: map<string, string>, language: string, items: seq<(string, string)>,
                      ts: seq<Option<string>>)
    requires |ts| == |items|
  {
    forall i :: 0 <= i < |items| ==>
      ts[i].Some? && IsHit(entries, items[i].1, language) && Stored(entries, items[i].1, language) == ts[i]
  }

  /** A hit stays a hit, with the same translation, across a memoised
      translation. */
  lemma {:induction false} MemoisedKeepsHit(entries: map<string, string>, text: string, language: string,
                                            translate: Callback, cacheKey: Option<string>, key: string)
    requires IsHit(entries, key, language)
    ensures var o := Memoised(entries, text, language, translate, cacheKey);
      IsHit(o.entries, key, language) && Stored(o.entries, key, language) == Stored(entries, key, language)
  {
    var k := MemoKey(text, cacheKey);
    MemoisedChangesOneEntry(entries, text, language, translate, cacheKey);
    if key != k {
      KeyInjectiveInValue(key, k, language);
    }
  }

  /** Hits survive a whole batch. */
  lemma {:induction false} EachKeepsHit(entries: map<string, string>, language: string, translate: Callback,
                                        items: seq<(string, string)>, key: string)
    requires IsHit(entries, key, language)
    ensures var b := TranslateEach(entries, language, translate, items);
      IsHit(b.entries, key, language) && Stored(b.entries, key, language) == Stored(entries, key, language)
    decreases |items|
  {
    if items != [] {
      MemoisedKeepsHit(entries, items[0].0, language, translate, Some(items[0].1), key);
      var first := Memoised(entries, items[0].0, language, translate, Some(items[0].1));
      EachKeepsHit(first.entries, language, translate, items[1..], key);
    }
  }

  /** A batch whose every phrase was translated leaves each translation in
      the cache under its key. */
  lemma {:induction false} EachServesAll(entries: map<string, string>, language: string, translate: Callback,
                                         items: seq<(string, string)>)
    requires TranslateEach(entries, language, translate, items).value.Success?
    requires forall t :: t in TranslateEach(entries, language, translate, items).value.value ==> t.Some?
    ensures var b := TranslateEach(entries, language, translate, items);
      ServesAll(b.entries, language, items, b.value.value)
    decreases |items|
  {
    if items != [] {
      var b := TranslateEach(entries, language, translate, items);
      var first := Memoised(entries, items[0].0, language, translate, Some(items[0].1));
      var rest := TranslateEach(first.entries, language, translate, items[1..]);
      assert b.value.value == [first.value.value] + rest.value.value;
      assert b.value.value[0] == first.value.value;
      assert first.value.value.Some?;
      MemoisedKeepsTruthy(entries, items[0].0, language, translate, Some(items[0].1));
      MemoisedTwice(entries, items[0].0, language, translate, translate, Some(items[0].1));
      assert IsHit(first.entries, items[0].1, language) by {
        HitOfServed(entries, items[0].0, language, translate, Some(items[0].1));
      }
      EachKeepsHit(first.entries, language, translate, items[1..], items[0].1);
      forall t | t in rest.value.value ensures t.Some? {
        assert t in b.value.value;
      }
      EachServesAll(first.entries, language, translate, items[1..]);
    }
  }

  /** A translation `getOrTranslate` served is, afterwards, a hit under its
      key holding that translation. */
  lemma {:induction false} HitOfServed(entries: map<string, string>, text: string, language: string,
                                       translate: Callback, cacheKey: Option<string>)
    requires Memoised(entries, text, language, translate, cacheKey).value.Success?
    requires Memoised(entries, text, language, translate, cacheKey).value.value.Some?
    ensures var o := Memoised(entries, text, language, translate, cacheKey);
      IsHit(o.entries, MemoKey(text, cacheKey), language)
      && Stored(o.entries, MemoKey(text, cacheKey), language) == o.value.value
  {
    var o := Memoised(entries, text, language, translate, cacheKey);
    if !IsHit(entries, MemoKey(text, cacheKey), language) {
      StoredAfterSet(entries, MemoKey(text, cacheKey), language, o.value.value.value);
    }
  }

  /** A batch over a cache that already serves all of its keys returns those
      translations, changes nothing and consults no client. */
  lemma {:induction false} EachFromCache(entries: map<string, string>, language: string, translate: Callback,
                                         items: seq<(string, string)>, ts: seq<Option<string>>)
    requires |ts| == |items| && ServesAll(entries, language, items, ts)
    ensures TranslateEach(entries, language, translate, items) == Batch(Success(ts), entries)
    decreases |items|
  {
    if items != [] {
      assert IsHit(entries, items[0].1, language);
      HitIgnoresCallback(entries, items[0].0, language, translate, translate, Some(items[0].1));
      assert ServesAll(entries, language, items[1..], ts[1..]) by {
        forall i | 0 <= i < |items| - 1
          ensures ts[1..][i].Some? && IsHit(entries, items[1..][i].1, language)
               && Stored(entries, items[1..][i].1, language) == ts[1..][i]
        {
          assert ts[1..][i] == ts[i + 1] && items[1..][i] == items[i + 1];
        }
      }
      EachFromCache(entries, language, translate, items[1..], ts[1..]);
      assert [ts[0]] + ts[1..] == ts;
    }
  }

  /** Repeating a batch that translated every phrase is served from the
      cache: the same translations, whatever the client now answers, and no
      change of the cache. */
  lemma BatchTwice(entries: map<string, string>, language: string, translate: Callback, later: Callback,
                   items: seq<(string, string)>)
    requires TranslateEach(entries, language, translate, items).value.Success?
    requires forall t :: t in TranslateEach(entries, language, translate, items).value.value ==> t.Some?
    ensures var b := TranslateEach(entries, language, translate, items);
      TranslateEach(b.entries, language, later, items) == b
  {
    var b := TranslateEach(entries, language, translate, items);
    EachServesAll(entries, language, translate, items);
    EachFromCache(b.entries, language, later, items, b.value.value);
  }

  /** Memoised conversion: once a money value converted with every lexeme
      translated, converting it again gives the same lexemes from the cache,
      whatever the client now answers, and leaves the cache as it is. */
  lemma ConversionTwice(entries: map<string, string>, language: string, client: Client, later: Client,
                        generate: Generator, cw: string, cd: string, money: string, parts: Parts)
    requires var c := Conversion(entries, language, client, generate, cw, cd, money, parts);
      c.value.Success? && c.value.value.whole.Some? && c.value.value.full.Some?
      && (parts.WithDecimal? ==> c.value.value.decimal.Some?)
    ensures var c := Conversion(entries, language, client, generate, cw, cd, money, parts);
      Conversion(c.entries, language, later, generate, cw, cd, money, parts) == c
  {
    if language != English {
      match parts
      case WholeOnly(formatted, whole) =>
        var phrase := generate(whole);
        if Trim(phrase) != "" {
          var items := [(phrase, formatted), (WholeFull(phrase, cw), money)];
          var b := TranslateEach(entries, language, FromEnglish(client), items);
          forall t | t in b.value.value ensures t.Some? {
          }
          BatchTwice(entries, language, FromEnglish(client), FromEnglish(later), items);
        }
      case WithDecimal(whole, decimal) =>
        var w := Trim(generate(whole));
        var d := Trim(generate(decimal));
        if w != "" || d != "" {
          var items := [(w, IntToString(whole)), (d, IntToString(decimal)), (DecimalFull(w, d, cw, cd), money)];
          var b := TranslateEach(entries, language, FromEnglish(client), items);
          forall t | t in b.value.value ensures t.Some? {
          }
          BatchTwice(entries, language, FromEnglish(client), FromEnglish(later), items);
        }
    }
  }

  /** The whole phrase and the full sentence share one key space: when the
      formatted whole part and the original money text are the same, as for
      "5.00", a translated full sentence is the translation of the whole
      phrase, whatever the client would answer for the sentence itself. */
  lemma {:induction false} FullSentenceSharesWholeKey(entries: map<string, string>, language: string, client: Client,
                                                      phrase: string, cw: string, key: string)
    requires language != English && Trim(phrase) != ""
    requires var c := WholeConversion(entries, language, client, phrase, cw, key, key);
      c.value.Success? && c.value.value.whole.Some?
    ensures var c := WholeConversion(entries, language, client, phrase, cw, key, key);
      c.value.value.full == c.value.value.whole
  {
    var items := [(phrase, key), (WholeFull(phrase, cw), key)];
    var callback := FromEnglish(client);
    EachStep(entries, language, callback, items);
    var first := Memoised(entries, phrase, language, callback, Some(key));
    HitOfServed(entries, phrase, language, callback, Some(key));
    HitIgnoresCallback(first.entries, WholeFull(phrase, cw), language, callback, callback, Some(key));
    EachStep(first.entries, language, callback, items[1..]);
    assert items[1..][1..] == [];
  }

  /** The converter: currencies, the translator, the sentence generator and
      the decoding of a service exception's JSON body into its message. */
  class Converter {
    var currencyForWhole: string
    var currencyForDecimal: string
    const translator: Translator
    const generate: Generator
    const decodeMessage: string -> string

    constructor (client: Client, cache: Cache, generate: Generator, decodeMessage: string -> string,
                 currencyForWhole: string, currencyForDecimal: string, languageTo: string := English)
      ensures this.currencyForWhole == Trim(currencyForWhole) && this.currencyForDecimal == Trim(currencyForDecimal)
      ensures Trim(this.currencyForWhole) == this.currencyForWhole && Trim(this.currencyForDecimal) == this.currencyForDecimal
      ensures fresh(translator) && translator.client == client && translator.cache == cache
      ensures translator.languageTo == Trim(languageTo) && translator.dynamic == map[]
      ensures this.generate == generate && this.decodeMessage == decodeMessage
    {
      this.generate := generate;
      this.decodeMessage := decodeMessage;
      this.currencyForWhole := "";
      this.currencyForDecimal := "";
      translator := new Translator(client, cache, Trim(languageTo));
      new;
      SetCurrency(Trim(currencyForWhole), Trim(currencyForDecimal));
      TrimIdempotent(currencyForWhole);
      TrimIdempotent(currencyForDecimal);
    }

    /** `setCurrency`: both names trimmed; the decimal one defaults to "". */
    method SetCurrency(currencyForWhole: string, currencyForDecimal: string := "")
      modifies this
      ensures this.currencyForWhole == Trim(currencyForWhole) && this.currencyForDecimal == Trim(currencyForDecimal)
      ensures Trim(this.currencyForWhole) == this.currencyForWhole && Trim(this.currencyForDecimal) == this.currencyForDecimal
    {
      this.currencyForWhole := Trim(currencyForWhole);
      this.currencyForDecimal := Trim(currencyForDecimal);
      TrimIdempotent(currencyForWhole);
      TrimIdempotent(currencyForDecimal);
    }

    /** `setLanguage` never returns normally: it hands `trim` of its argument,
        a string, to the translator's `setLanguage`, whose parameter is
        declared `Language`, a class type that refuses every string. So
        each call ends in a `TypeError` and nothing changes. */
    method SetLanguage(language: string) returns (r: Result<(), string>)
      ensures r.Failure?
    {
      r := Failure("TypeError: Translator::setLanguage(): argument #1 must be of type Languages, string given");
    }

    /** `getTransalationLanguage`. */
    method GetTranslationLanguage() returns (language: string)
      ensures language == translator.languageTo
    {
      language := translator.GetDestinationLanguage();
    }

    /** `_convertWholePart`, proved against `WholeConversion`. */
    method ConvertWholePart(formatted: string, whole: nat, money: string) returns (r: Result<TranslationLexemes, Fault>)
      modifies translator.cache
      ensures Converted(r, translator.cache.entries)
           == WholeConversion(old(translator.cache.entries), translator.languageTo, translator.client,
                              generate(whole), currencyForWhole, formatted, money)
    {
      var phrase := generate(whole);
      if Trim(phrase) == "" {
        return Success(Zero);
      }
      var full := phrase + " " + currencyForWhole + " only";
      var language := GetTranslationLanguage();
      if language == English {
        return Success(TranslationLexemes(Some(phrase), None, Some(full)));
      }
      ghost var callback := FromEnglish(translator.client);
      ghost var items := [(phrase, formatted), (full, money)];
      ghost var e0 := translator.cache.entries;
      var w := translator.Translate(phrase, Some(formatted));
      EachStep(e0, language, callback, items);
      if w.Failure? {
        return Failure(w.error);
      }
      ghost var e1 := translator.cache.entries;
      var f := translator.Translate(full, Some(money));
      EachStep(e1, language, callback, items[1..]);
      assert items[1..][1..] == [];
      if f.Failure? {
        return Failure(f.error);
      }
      r := Success(TranslationLexemes(w.value, None, f.value));
    }

    /** `_convertWholeAndDecimalPart`, proved against `DecimalConversion`. */
    method ConvertWholeAndDecimalPart(wholePart: nat, decimalPart: nat, money: string)
      returns (r: Result<TranslationLexemes, Fault>)
      modifies translator.cache
      ensures Converted(r, translator.cache.entries)
           == DecimalConversion(old(translator.cache.entries), translator.languageTo, translator.client,
                                generate(wholePart), generate(decimalPart), currencyForWhole, currencyForDecimal,
                                IntToString(wholePart), IntToString(decimalPart), money)
    {
      var whole := Trim(generate(wholePart));
      var decimal := Trim(generate(decimalPart));
      if whole == "" && decimal == "" {
        return Success(Zero);
      }
      var full := AssembleFull(whole, decimal, currencyForWhole, currencyForDecimal);
      var language := GetTranslationLanguage();
      if language == English {
        return Success(TranslationLexemes(Some(whole), Some(decimal), Some(full)));
      }
      var wholeKey := IntToString(wholePart);
      var decimalKey := IntToString(decimalPart);
      var items := [(whole, wholeKey), (decimal, decimalKey), (full, money)];
      assert items[1..][0] == (decimal, decimalKey) && items[1..][1..] == [(full, money)];
      ghost var callback := FromEnglish(translator.client);
      ghost var e0 := translator.cache.entries;
      var w := translator.Translate(whole, Some(wholeKey));
      EachStep(e0, language, callback, items);
      if w.Failure? {
        return Failure(w.error);
      }
      ghost var e1 := translator.cache.entries;
      var d := translator.Translate(decimal, Some(decimalKey));
      EachStep(e1, language, callback, items[1..]);
      if d.Failure? {
        return Failure(d.error);
      }
      ghost var e2 := translator.cache.entries;
      var f := translator.Translate(full, Some(money));
      EachStep(e2, language, callback, [(full, money)]);
      assert [(full, money)][1..] == [];
      if f.Failure? {
        return Failure(f.error);
      }
      r := Success(TranslationLexemes(w.value, d.value, f.value));
    }

    /** `convert`: the lexemes of the money value, with every fault raised on
        the way turned into a `TranslationException` (see `Wrap`). The
        original money text is trimmed first, as `_setMoney` does. */
    method Convert(moneyValue: string, parts: Parts) returns (r: Result<TranslationLexemes, TranslationError>)
      modifies translator.cache
      ensures var c := Conversion(old(translator.cache.entries), translator.languageTo, translator.client, generate,
                                  currencyForWhole, currencyForDecimal, Trim(moneyValue), parts);
        translator.cache.entries == c.entries
        && (c.value.Success? ==> r == Success(c.value.value))
        && (c.value.Failure? ==> r == Failure(Wrap(c.value.error, decodeMessage)))
    {
      var money := Trim(moneyValue);
      var c: Result<TranslationLexemes, Fault>;
      match parts {
        case WholeOnly(formatted, whole) =>
          c := ConvertWholePart(formatted, whole, money);
        case WithDecimal(whole, decimal) =>
          c := ConvertWholeAndDecimalPart(whole, decimal, money);
      }
      match c {
        case Success(lexemes) => r := Success(lexemes);
        case Failure(fault) => r := Failure(Wrap(fault, decodeMessage));
      }
    }
  }
}

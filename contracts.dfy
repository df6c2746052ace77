/**
 * The plain record a conversion returns, `TranslationLexemes`, and the
 * translation cache `Cache`: a table from composed keys to translations.
 * The PHP cache is a static array shared by the whole process; here it is
 * one object whose `entries` the methods read and update.
 */
module Contracts {
  import opened Wrappers

  /** The three phrases of a conversion; PHP leaves any of them `null`. */
  datatype TranslationLexemes = TranslationLexemes(whole: Option<string>, decimal: Option<string>, full: Option<string>)

  /** `TranslationLexemes::zero()`: three empty phrases. */
  const Zero := TranslationLexemes(Some(""), Some(""), Some(""))

  /** `Cache::key`: the destination language, a dash, then the value. */
  function Key(moneyValue: string, languageTo: string): (k: string)
    ensures |k| == |languageTo| + 1 + |moneyValue|
    ensures k[..|languageTo|] == languageTo && k[|languageTo|] == '-'
    ensures k[|languageTo| + 1..] == moneyValue
  {
    languageTo + "-" + moneyValue
  }

  /** Keys are not injective: a dash inside a language or a value can make
      two different pairs share a key. */
  lemma KeyCollision()
    ensures ("b-c", "a") != ("c", "a-b") && Key("b-c", "a") == Key("c", "a-b")
  {
    assert Key("b-c", "a") == "a-b-c";
    assert Key("c", "a-b") == "a-b-c";
  }

  /** The position of the first dash of `s`, if any. */
  function FirstDash(s: string): (r: Option<nat>)
    ensures r.Some? ==> r.value < |s| && s[r.value] == '-'
    ensures r.Some? ==> forall i :: 0 <= i < r.value ==> s[i] != '-'
    ensures r.None? ==> forall i :: 0 <= i < |s| ==> s[i] != '-'
  {
    if s == [] then None
    else if s[0] == '-' then Some(0)
    else match FirstDash(s[1..])
      case None => None
      case Some(i) => Some(i + 1)
  }

  /** A key whose language holds no dash splits at its first dash. */
  lemma {:induction false} KeySplitsAtFirstDash(moneyValue: string, languageTo: string)
    requires forall i :: 0 <= i < |languageTo| ==> languageTo[i] != '-'
    ensures FirstDash(Key(moneyValue, languageTo)) == Some(|languageTo|)
  {
    var k := Key(moneyValue, languageTo);
    assert k[|languageTo|] == '-';
  }

  /** For languages without a dash (such as "en" or "ar") keys are
      injective: the key determines the language and the value. */
  lemma KeyInjective(v1: string, l1: string, v2: string, l2: string)
    requires forall i :: 0 <= i < |l1| ==> l1[i] != '-'
    requires forall i :: 0 <= i < |l2| ==> l2[i] != '-'
    requires Key(v1, l1) == Key(v2, l2)
    ensures v1 == v2 && l1 == l2
  {
    KeySplitsAtFirstDash(v1, l1);
    KeySplitsAtFirstDash(v2, l2);
    var k := Key(v1, l1);
    assert l1 == k[..|l1|] && l2 == k[..|l2|];
    assert v1 == k[|l1| + 1..] && v2 == k[|l2| + 1..];
  }

  /** For the same language, different values give different keys. */
  lemma KeyInjectiveInValue(v1: string, v2: string, language: string)
    requires v1 != v2
    ensures Key(v1, language) != Key(v2, language)
  {
    assert Key(v1, language)[|language| + 1..] == v1;
    assert Key(v2, language)[|language| + 1..] == v2;
  }

  /** What `Cache::get` reads from a table: the translation stored under the
      composed key, or `null`. */
  function Stored(entries: map<string, string>, moneyValue: string, languageTo: string): (r: Option<string>)
    ensures r.Some? <==> Key(moneyValue, languageTo) in entries
    ensures r.Some? ==> r.value == entries[Key(moneyValue, languageTo)]
  {
    var k := Key(moneyValue, languageTo);
    if k in entries then Some(entries[k]) else None
  }

  /** Nothing is stored in the empty table. */
  lemma StoredInEmpty(moneyValue: string, languageTo: string)
    ensures Stored(map[], moneyValue, languageTo) == None
  {
  }

  /** After a `set`, `get` of the same value and language returns the new
      translation, whatever was stored there before. */
  lemma StoredAfterSet(entries: map<string, string>, moneyValue: string, languageTo: string, translation: string)
    ensures Stored(entries[Key(moneyValue, languageTo) := translation], moneyValue, languageTo) == Some(translation)
  {
  }

  /** A `set` leaves every other key as it was. */
  lemma SetKeepsOtherKeys(entries: map<string, string>, moneyValue: string, languageTo: string, translation: string,
                          otherValue: string, otherLanguage: string)
    requires Key(otherValue, otherLanguage) != Key(moneyValue, languageTo)
    ensures Stored(entries[Key(moneyValue, languageTo) := translation], otherValue, otherLanguage)
         == Stored(entries, otherValue, otherLanguage)
  {
  }

  /** The translation cache. */
  class Cache {
    /** The PHP static `$cache` array. */
    var entries: map<string, string>

    constructor ()
      ensures entries == map[]
    {
      entries := map[];
    }

    /** `Cache::getAll`: the whole table. */
    method GetAll() returns (all: map<string, string>)
      ensures all == entries
    {
      all := entries;
    }

    /** `Cache::get`: the translation stored for the value and language,
        `null` when there is none. */
    method Get(moneyValue: string, languageTo: string) returns (translation: Option<string>)
      ensures translation.Some? <==> Key(moneyValue, languageTo) in entries
      ensures translation.Some? ==> translation.value == entries[Key(moneyValue, languageTo)]
    {
      var key := Key(moneyValue, languageTo);
      translation := if key in entries then Some(entries[key]) else None;
    }

    /** `Cache::set`: store the translation under the composed key,
        overwriting what was there, and return that key. */
    method Set(moneyValue: string, languageTo: string, translation: string) returns (key: string)
      modifies this
      ensures key == Key(moneyValue, languageTo)
      ensures entries == old(entries)[key := translation]
    {
      key := Key(moneyValue, languageTo);
      entries := entries[key := translation];
    }
  }
}

/**
 * The memoising translator. `getOrTranslate` consults the translation cache
 * under (key, language) and only on a miss calls the translate callback,
 * storing a truthy answer. `translate` does this for the current destination
 * language with a callback that asks the remote translation client.
 *
 * The remote client is a function value: it receives the text and the
 * payload (target and source language) and answers with a translation or
 * raises a fault. Raising is modelled as a `Failure` result that every
 * caller passes on unchanged, which is what an uncaught PHP exception does.
 */
module Translation {
  import opened Wrappers
  import opened Php
  import opened Contracts

  /** The `Languages::ENGLISH` code. */
  const English := "en"

  /** The options `translate` hands the client: target and source language;
      a `None` source lets the client detect it. */
  datatype Payload = Payload(target: string, source: Option<string>)

  /** An exception the client raises: a service exception whose message holds
      a JSON body, or any other exception. Both carry a code. */
  datatype Fault = ServiceFault(body: string, code: int) | GenericFault(message: string, code: int)

  /** The remote translation client: the text of the answer, or a fault. */
  type Client = (string, Payload) -> Result<string, Fault>

  /** A translate callback of `getOrTranslate`: called with text and language. */
  type Callback = (string, string) -> Result<string, Fault>

  /** The result of one memoised translation together with the cache after it.
      A `Success(None)` value is PHP's implicit `null` return. */
  datatype Outcome = Outcome(value: Result<Option<string>, Fault>, entries: map<string, string>)

  /** `$cacheKey ?? $text`. */
  function MemoKey(text: string, cacheKey: Option<string>): (k: string)
    ensures cacheKey.Some? ==> k == cacheKey.value
    ensures cacheKey.None? ==> k == text
  {
    if cacheKey.Some? then cacheKey.value else text
  }

  /** `getOrTranslate` over a cache table: a truthy cached translation is
      returned as it is; otherwise the callback's truthy answer is stored and
      returned; a falsy answer yields `null`; a fault leaves the cache alone. */
  function Memoised(entries: map<string, string>, text: string, language: string,
                    translate: Callback, cacheKey: Option<string>): (o: Outcome)
    ensures o.value.Failure? ==> o.entries == entries
    ensures o.value.Success? && o.value.value.Some? ==> Truthy(o.value.value.value)
  {
    var key := MemoKey(text, cacheKey);
    var cached := Stored(entries, key, language);
    if cached.Some? && Truthy(cached.value) then
      Outcome(Success(cached), entries)
    else
      match translate(text, language)
      case Failure(fault) => Outcome(Failure(fault), entries)
      case Success(translation) =>
        if Truthy(translation) then
          Outcome(Success(Some(translation)), entries[Key(key, language) := translation])
        else
          Outcome(Success(None), entries)
  }

  /** The callback `translate` builds: ask the client for the given language,
      from the given source language. */
  function ClientCallback(client: Client, source: Option<string>): (r: Callback) {
    (text: string, language: string) => client(text, Payload(language, source))
  }

  /** A cache entry is a hit when its translation is truthy. */
  predicate IsHit(entries: map<string, string>, key: string, language: string) {
    var cached := Stored(entries, key, language);
    cached.Some? && Truthy(cached.value)
  }

  /** Every stored translation is truthy. */
  predicate AllTruthy(entries: map<string, string>) {
    forall k :: k in entries ==> Truthy(entries[k])
  }

  /** On a hit the cached translation is returned, the cache is unchanged,
      and the callback plays no part: any other callback gives the same. */
  lemma HitIgnoresCallback(entries: map<string, string>, text: string, language: string,
                           translate: Callback, other: Callback, cacheKey: Option<string>)
    requires IsHit(entries, MemoKey(text, cacheKey), language)
    ensures Memoised(entries, text, language, translate, cacheKey)
         == Memoised(entries, text, language, other, cacheKey)
         == Outcome(Success(Stored(entries, MemoKey(text, cacheKey), language)), entries)
  {
  }

  /** On a miss a truthy answer of the callback is stored under the key and
      the language, and returned. */
  lemma MissStoresAnswer(entries: map<string, string>, text: string, language: string,
                         translate: Callback, cacheKey: Option<string>, translation: string)
    requires !IsHit(entries, MemoKey(text, cacheKey), language)
    requires translate(text, language) == Success(translation) && Truthy(translation)
    ensures Memoised(entries, text, language, translate, cacheKey)
         == Outcome(Success(Some(translation)), entries[Key(MemoKey(text, cacheKey), language) := translation])
  {
  }

  /** On a miss a falsy answer ("" or "0") gives `null` and stores nothing. */
  lemma MissWithFalsyAnswer(entries: map<string, string>, text: string, language: string,
                            translate: Callback, cacheKey: Option<string>, translation: string)
    requires !IsHit(entries, MemoKey(text, cacheKey), language)
    requires translate(text, language) == Success(translation) && !Truthy(translation)
    ensures Memoised(entries, text, language, translate, cacheKey) == Outcome(Success(None), entries)
  {
  }

  /** On a miss a fault of the callback propagates and stores nothing. */
  lemma MissWithFault(entries: map<string, string>, text: string, language: string,
                      translate: Callback, cacheKey: Option<string>, fault: Fault)
    requires !IsHit(entries, MemoKey(text, cacheKey), language)
    requires translate(text, language) == Failure(fault)
    ensures Memoised(entries, text, language, translate, cacheKey) == Outcome(Failure(fault), entries)
  {
  }

  /** One memoised translation changes at most the entry of its own key and
      language, and only to the translation it returns. */
  lemma MemoisedChangesOneEntry(entries: map<string, string>, text: string, language: string,
                                translate: Callback, cacheKey: Option<string>)
    ensures var o := Memoised(entries, text, language, translate, cacheKey);
      o.entries == entries
      || (o.value.Success? && o.value.value.Some?
          && o.entries == entries[Key(MemoKey(text, cacheKey), language) := o.value.value.value])
  {
  }

  /** A translation served by `getOrTranslate` is never falsy, and when every
      entry of the cache was truthy, every entry still is. */
  lemma {:induction false} MemoisedKeepsTruthy(entries: map<string, string>, text: string, language: string,
                                               translate: Callback, cacheKey: Option<string>)
    ensures var o := Memoised(entries, text, language, translate, cacheKey);
      (o.value.Success? && o.value.value.Some? ==> Truthy(o.value.value.value))
      && (AllTruthy(entries) ==> AllTruthy(o.entries))
  {
    var o := Memoised(entries, text, language, translate, cacheKey);
    if AllTruthy(entries) && o.entries != entries {
      MemoisedChangesOneEntry(entries, text, language, translate, cacheKey);
      var k := Key(MemoKey(text, cacheKey), language);
      forall k' | k' in o.entries ensures Truthy(o.entries[k']) {
        if k' != k {
          assert o.entries[k'] == entries[k'];
        }
      }
    }
  }

  /** Memoisation: once a translation has been served, asking again for the
      same text, language and key serves it from the cache, whatever the
      callback would now answer, and changes nothing. */
  lemma {:induction false} MemoisedTwice(entries: map<string, string>, text: string, language: string,
                                         translate: Callback, later: Callback, cacheKey: Option<string>)
    requires Memoised(entries, text, language, translate, cacheKey).value.Success?
    requires Memoised(entries, text, language, translate, cacheKey).value.value.Some?
    ensures var o := Memoised(entries, text, language, translate, cacheKey);
      Memoised(o.entries, text, language, later, cacheKey) == o
  {
    var key := MemoKey(text, cacheKey);
    var o := Memoised(entries, text, language, translate, cacheKey);
    MemoisedKeepsTruthy(entries, text, language, translate, cacheKey);
    if !IsHit(entries, key, language) {
      StoredAfterSet(entries, key, language, o.value.value.value);
    }
    assert IsHit(o.entries, key, language);
    HitIgnoresCallback(o.entries, text, language, later, later, cacheKey);
  }

  /** The translator: destination language, the shared cache and the client. */
  class Translator {
    /** The destination language. */
    var languageTo: string
    /** Properties created at run time by `setLanguage`, by name. */
    var dynamic: map<string, string>
    const cache: Cache
    const client: Client

    constructor (client: Client, cache: Cache, languageTo: string)
      ensures this.client == client && this.cache == cache
      ensures this.languageTo == languageTo && dynamic == map[]
    {
      this.client := client;
      this.cache := cache;
      this.languageTo := languageTo;
      dynamic := map[];
    }

    /** `setLanguage` assigns the property NAMED by the language, not the
        `languageTo` property: only a language literally called "languageTo"
        changes the destination language. A name starting with "\0" is
        PHP's error "Cannot access property starting with "\0"", raised
        before anything is written; any other name, "" included, becomes a
        dynamic property. */
    method SetLanguage(language: string) returns (r: Result<(), string>)
      modifies this
      ensures r.Failure? <==> |language| > 0 && language[0] == '\0'
      ensures r.Failure? ==> languageTo == old(languageTo) && dynamic == old(dynamic)
      ensures language == "languageTo" ==> languageTo == language && dynamic == old(dynamic)
      ensures r.Success? && language != "languageTo" ==>
        languageTo == old(languageTo) && dynamic == old(dynamic)[language := language]
    {
      if |language| > 0 && language[0] == '\0' {
        return Failure("Cannot access property starting with \"\\0\"");
      }
      if language == "languageTo" {
        languageTo := language;
      } else {
        dynamic := dynamic[language := language];
      }
      r := Success(());
    }

    /** `getDestinationLanguage`. */
    method GetDestinationLanguage() returns (language: string)
      ensures language == languageTo
    {
      language := languageTo;
    }

    /** `getCacheContent`: the whole cache table. */
    method GetCacheContent() returns (all: map<string, string>)
      ensures all == cache.entries
    {
      all := cache.GetAll();
    }

    /** `getOrTranslate`, proved against `Memoised`. */
    method GetOrTranslate(text: string, language: string, translate: Callback, cacheKey: Option<string> := None)
      returns (r: Result<Option<string>, Fault>)
      modifies cache
      ensures Outcome(r, cache.entries) == Memoised(old(cache.entries), text, language, translate, cacheKey)
    {
      var key := if cacheKey.Some? then cacheKey.value else text;
      var cached := cache.Get(key, language);
      if cached.Some? && Truthy(cached.value) {
        return Success(cached);
      }
      var translation := translate(text, language);
      match translation {
        case Failure(fault) =>
          r := Failure(fault);
        case Success(t) =>
          if Truthy(t) {
            var stored := cache.Set(key, language, t);
            r := Success(Some(t));
          } else {
            r := Success(None);
          }
      }
    }

    /** `translate`: a memoised translation into the current destination
        language, cached under `key` when one is given. */
    method Translate(text: string, key: Option<string> := None, source: Option<string> := Some(English))
      returns (r: Result<Option<string>, Fault>)
      modifies cache
      ensures Outcome(r, cache.entries)
           == Memoised(old(cache.entries), text, languageTo, ClientCallback(client, source), key)
    {
      r := GetOrTranslate(text, languageTo, ClientCallback(client, source), key);
    }

    /** `translateTo`: `translate` into the given language without a source
        language; the destination language is restored afterwards, also when
        the client raises. */
    method TranslateTo(moneyInNumeric: string, language: string) returns (r: Result<Option<string>, Fault>)
      modifies this, cache
      ensures languageTo == old(languageTo) && dynamic == old(dynamic)
      ensures Outcome(r, cache.entries)
           == Memoised(old(cache.entries), moneyInNumeric, language, ClientCallback(client, None), None)
    {
      var saved := languageTo;
      languageTo := language;
      r := Translate(moneyInNumeric, None, None);
      languageTo := saved;
    }
  }
}

# tuforti money-to-words: lexer, phrase assembly and memoised translation

This Dafny project models the core of the PHP library
`tuforti-money-to-words-translator`. The library turns a money value into
words and can translate those words through a remote service, with a cache
in front of it. Every module is one part of the PHP code:

- `Lexing` (`lexer.dfy`) is `SentenceLexer`, the word-to-digits scanner.
  - It is a class with a text and a cursor. Its methods mirror `lex`,
    `_skipWhitespaces`, `_extractNumber` and `_identifyNumber`.
  - Each method is proved against a function of the text and the cursor
    position: `SkipSpaces`, `WordEnd`, `Fragment`, `Extract`, `Identify`,
    `Step` and `LexFrom`.
  - The `switch` tables of `_isSeperator`, `_isStandardUnit`, `_isTens` and
    `_isUnit` are the `Vocabulary` value `Words`.
- `LexerProperties` (`lexer_properties.dfy`) proves what the lexer does for
  any vocabulary:
  - its output is decimal numerals of positive values, one after another;
  - it is insensitive to letter case;
  - it contributes nothing for silent words;
  - a unit word contributes its digit;
  - a tens word reads on into the next word;
  - after a run of spaces the cursor takes one step too many, so the first
    character of the next word is lost (PHP loses its first byte, which is
    the first letter for ASCII text).
- `LexerWords` (`lexer_words.dfy`) applies those lemmas to the PHP tables.
  It also works one sentence through: "twenty five" lexes to "25".
- `Contracts` (`contracts.dfy`) holds two things:
  - the `TranslationLexemes(whole, decimal, full)` record and its `zero()`;
  - the translation cache. The PHP cache is a static array; here it is a
    `Cache` object with a `map<string, string>`.
- `Translation` (`translator.dfy`) is `Translator`:
  - `getOrTranslate` looks in the cache first. On a miss it calls the
    callback and stores a truthy answer. It is specified by the function
    `Memoised`;
  - `translate` and `translateTo` build on it;
  - `setLanguage` writes a property named by its argument.
- `Conversion` (`converter.dfy`) is the phrase assembly of `Converter`:
  - `setCurrency`;
  - `_convertWholePart` and `_convertWholeAndDecimalPart`;
  - the exception wrapping of `convert`.
- `Php` (`php.dfy`) gives the PHP built-ins the code relies on: `trim`,
  `strtolower`, string truthiness, integer-to-string and `intval`.
  `Wrappers` (`wrappers.dfy`) holds `Option` and `Result`.

Some parts are function values rather than code:

- The sentence generator is `nat -> string`.
- The remote translation client is a function from text and payload to a
  translation or a fault. A PHP exception becomes a `Failure` value that
  every caller passes on.
- Decoding the JSON body of a service exception is `string -> string`.

English is the language code "en".

Three things the proofs show about the code as written:

- The lexer is not the inverse of a number-to-words generator. It drops
  magnitude words and concatenates digit strings, so "one hundred" and "one"
  both lex to "1" (`LexerWords.OneHundredIsOne`). Magnitude words are worth
  nothing (`LexerWords.NoiseWordsSilent`), and every output is a
  concatenation of numerals of positive values
  (`LexerProperties.LexOutputIsPositiveNumerals`).
- Cache keys are the language, "-" and the value. They are injective only
  for languages without a dash (`Contracts.KeyInjective`,
  `Contracts.KeyCollision`).
- The whole phrase and the full sentence of a conversion are cached under
  value keys in one key space. A whole-only value has a formatted whole
  part (such as "5.00"). When that text equals the money text, the full
  sentence is served the whole phrase's translation
  (`Conversion.FullSentenceSharesWholeKey`).

## Model

| member | source | states |
|---|---|---|
| Php.IntToString | src/Grammar/SentenceLexer.php:76 | the decimal text of a number is non-empty, all digits, and has no leading zero for a positive number |
| Php.IntValOfIntToString | src/Grammar/SentenceLexer.php:91 | `intval` reads the decimal text of any non-negative integer back as that integer |
| Php.IntToStringInjective | src/Grammar/SentenceLexer.php:76 | different integers have different decimal texts |
| Php.StrToLower | src/Grammar/SentenceLexer.php:70 | `strtolower` keeps the length and lower-cases each character (ASCII letters only) |
| Php.Trim | src/Converter.php:127-128 | `trim` with PHP's default list " \t\n\r\0\x0B": `rtrim`, then `ltrim`; what it removes and keeps is stated by `Php.TrimKeepsCore` |
| Php.Truthy | src/Grammar/Translator.php:143-146 | a string counts as true in a PHP condition unless it is "" or "0"; `Translation.MissWithFalsyAnswer` and `Translation.MemoisedKeepsTruthy` state the consequence for the cache |
| Php.IntVal | src/Grammar/SentenceLexer.php:91 | `intval` of the digit strings the lexer produces: the value of the leading digits, 0 for ""; `Php.IntValOfIntToString` is its round trip |
| Php.TrimLeftDrops | src/Converter.php:127-128 | `ltrim` removes a prefix made only of trimmable characters and leaves a result that does not start with one |
| Php.TrimRightDrops | src/Converter.php:127-128 | `rtrim` removes a suffix made only of trimmable characters and leaves a result that does not end with one |
| Php.TrimKeepsCore | src/Converter.php:127-128 | a trimmed string is empty or starts and ends with a non-trimmable character; it is empty exactly when every character of the input is trimmable |
| Php.TrimIdempotent | src/Converter.php:125-129 | trimming twice (the constructor trims, then `setCurrency` trims again) is trimming once |
| Lexing.IsSeparator | src/Grammar/SentenceLexer.php:116-125 | `_isSeperator`: the fragment is one of the vocabulary's separators ("and" in `Words`, see `LexerWords.NoiseWordsSilent`) |
| Lexing.IsStandardUnit | src/Grammar/SentenceLexer.php:154-190 | `_isStandardUnit`: the fragment is one of the vocabulary's magnitude words (the 25 distinct words of the `switch` in `Words`) |
| Lexing.IsNoisy | src/Grammar/SentenceLexer.php:104-108 | `_isNoisy`: a separator or a magnitude word; such a fragment is worth nothing (`LexerProperties.SilentWord`) |
| Lexing.TensValue | src/Grammar/SentenceLexer.php:198-221 | `_isTens`: the table value of a tens word; the `false` of any other fragment becomes 0 through the `int` return type |
| Lexing.UnitValue | src/Grammar/SentenceLexer.php:230-256 | `_isUnit`: the table value of a unit word, and `false` exactly when the fragment is not one |
| Lexing.LooselyFalse | src/Grammar/SentenceLexer.php:76 | `$result == false` on the `false` or integer `_identifyNumber` returns: true for `false` and for 0, so a zero value yields "" (`LexerProperties.PlainExtract`) |
| Lexing.SkipSpaces | src/Grammar/SentenceLexer.php:54-59 | the cursor stops at the first character that is not ' ' (or at the end); every character skipped is ' ' |
| Lexing.WordEnd | src/Grammar/SentenceLexer.php:69-72 | the fragment loop stops at the next ' ' or at the end; no character it passes is ' ' |
| Lexing.Fragment | src/Grammar/SentenceLexer.php:67-72 | the gathered fragment is as long as the word under the cursor, and empty past the end |
| Lexing.Extract | src/Grammar/SentenceLexer.php:65-77 | extraction never moves the cursor back or past the end of the text; past the end it yields "" |
| Lexing.Identify | src/Grammar/SentenceLexer.php:85-96 | identification never moves the cursor back or past the end of the text |
| Lexing.Step | src/Grammar/SentenceLexer.php:38-46 | every pass of the `lex` loop advances the cursor by at least one, which is why `lex` terminates |
| Lexing.LexFrom | src/Grammar/SentenceLexer.php:26-49 | `lex` leaves the cursor at or past the end of the text; from the end, or on the empty default text, it returns "" |
| Lexing.LexFromStep | src/Grammar/SentenceLexer.php:38-46 | the output of `lex` is the digits of the first pass followed by the output from where that pass left the cursor |
| Lexing.StepAtSpace | src/Grammar/SentenceLexer.php:39-45 | a pass at a space appends nothing and leaves the cursor one past the run of spaces |
| Lexing.StepAtWord | src/Grammar/SentenceLexer.php:41-45 | a pass at a word appends what `_extractNumber` returns and leaves the cursor one past it |
| Lexing.LexFromSpace | src/Grammar/SentenceLexer.php:39-45 | a run of spaces adds nothing to the output, and lexing resumes one character after the run |
| Lexing.LexFromWord | src/Grammar/SentenceLexer.php:41-45 | at a word the output is the extracted digits followed by the output from one past the extraction |
| Lexing.IdentifyTensWord | src/Grammar/SentenceLexer.php:89-93 | a tens word skips the following spaces and is worth its tens value plus `intval` of the next extraction |
| Lexing.IdentifyPlainWord | src/Grammar/SentenceLexer.php:87-95 | noise is `false`, any other non-tens fragment is its unit value or `false`, and the cursor stays put |
| Lexing.SentenceLexer.constructor | src/Grammar/SentenceLexer.php:19-29 | a new lexer holds the text (default "") and the PHP tables, with the cursor at 0 |
| Lexing.SentenceLexer.CanLookAhead | src/Grammar/SentenceLexer.php:143-146 | `_canLookAhead($step)`: the cursor plus the step is still inside the text; it bounds every loop the class methods run |
| Lexing.SentenceLexer.IsWhitespace | src/Grammar/SentenceLexer.php:132-135 | `_isWhitespace`: the character under the cursor is ' '; past the end PHP reads "", which is not a space |
| Lexing.SentenceLexer.Lex | src/Grammar/SentenceLexer.php:34-49 | `lex` returns the output of `LexFrom` from the cursor and leaves the cursor where `LexFrom` ends |
| Lexing.SentenceLexer.LexStep | src/Grammar/SentenceLexer.php:39-45 | one loop body appends the digits of `Step` and moves the cursor to where `Step` says |
| Lexing.SentenceLexer.SkipWhitespaces | src/Grammar/SentenceLexer.php:54-59 | `_skipWhitespaces` moves the cursor to `SkipSpaces` |
| Lexing.SentenceLexer.ExtractNumber | src/Grammar/SentenceLexer.php:65-77 | `_extractNumber` returns the digits of `Extract` and moves the cursor to its cursor |
| Lexing.SentenceLexer.IdentifyNumber | src/Grammar/SentenceLexer.php:85-96 | `_identifyNumber` returns the value of `Identify` and moves the cursor to its cursor |
| Lexing.LexText | src/Grammar/SentenceLexer.php:26-48 | lexing a fresh lexer over a text returns `LexFrom` of the text from 0 |
| LexerProperties.StepNumerals | src/Grammar/SentenceLexer.php:75-76 | one pass appends at most one numeral, and only the numeral of a positive value |
| LexerProperties.LexOutputIsPositiveNumerals | src/Grammar/SentenceLexer.php:36-48 | the output of `lex` is the decimal numerals of a list of positive values, so a zero is always dropped |
| LexerProperties.LexOutputIsDigits | src/Grammar/SentenceLexer.php:36-48 | the output of `lex` holds nothing but decimal digits |
| LexerProperties.FragmentOfWord | src/Grammar/SentenceLexer.php:67-72 | at a whole word the fragment is that word lower-cased, and the cursor ends just after it |
| LexerProperties.PlainExtract | src/Grammar/SentenceLexer.php:75-95 | a fragment that does not read on extracts as the numeral of its value, or "" for `false` or 0, and leaves the cursor at its end |
| LexerProperties.SilentWord | src/Grammar/SentenceLexer.php:75-76 | a noise word, "zero" or an unknown word contributes nothing, and the pass ends one past the word |
| LexerProperties.UnitWord | src/Grammar/SentenceLexer.php:230-252 | a lone unit word worth 1 to 9 contributes exactly its digit |
| LexerProperties.NextWordValue | src/Grammar/SentenceLexer.php:91 | `intval` of the extraction after a tens word is the plain value of the next fragment (0 for noise, unknown or absent) |
| LexerProperties.TensIdentify | src/Grammar/SentenceLexer.php:89-93 | a tens word is worth its tens value plus the plain value of the next word, and the cursor ends after that word |
| LexerProperties.TensWord | src/Grammar/SentenceLexer.php:89-93 | a pass at a tens word consumes the next word too and appends the numeral of the tens value plus that word's value |
| LexerProperties.AgreeStep | src/Grammar/SentenceLexer.php:38-46 | two texts that agree up to letter case give passes that append the same digits and move the cursor alike |
| LexerProperties.AgreeLex | src/Grammar/SentenceLexer.php:34-49 | two texts that agree up to letter case from two cursors lex to the same output |
| LexerProperties.LexIgnoresCase | src/Grammar/SentenceLexer.php:70 | lower-casing the text first does not change the output |
| LexerProperties.LexIgnoresPrefix | src/Grammar/SentenceLexer.php:34-49 | lexing from a cursor depends only on the text from the cursor on |
| LexerProperties.LeadingSpaceDropsFirstLetter | src/Grammar/SentenceLexer.php:39-45 | after a leading space the first character of the next word is skipped: " " + s lexes as s without its first character (in PHP its first byte: the first letter for ASCII text) |
| LexerWords.UnitWordsApart | src/Grammar/SentenceLexer.php:230-252 | every unit word but "zero" is worth 1 to 9 and is neither noise nor a tens word |
| LexerWords.TensWordsApart | src/Grammar/SentenceLexer.php:198-221 | every tens word is worth its multiple of ten, 10 to 90, and is not noise |
| LexerWords.NoiseWordsSilent | src/Grammar/SentenceLexer.php:104-190 | "and" and every magnitude word, including "milliard" and "centillio", are worth nothing |
| LexerWords.ZeroSilent | src/Grammar/SentenceLexer.php:233-234 | "zero" is a unit word of the PHP tables, but it is worth 0 and so contributes nothing |
| LexerWords.UnlistedWords | src/Grammar/SentenceLexer.php:253-254 | "forty-five", "eleven", "nineteen" and "thousand," are in no table and are worth nothing |
| LexerWords.TwentyFiveStep | src/Grammar/SentenceLexer.php:89-93 | the first pass over "twenty five" appends "25" and ends past the text |
| LexerWords.TwentyFive | src/Grammar/SentenceLexer.php:34-49 | `lex` turns "twenty five" into "25" |
| LexerWords.OneHundredIsOne | src/Grammar/SentenceLexer.php:34-49 | "one hundred" and "one" both lex to "1": the magnitude word is dropped, so two different amounts give the same digits |
| Contracts.Key | src/Contracts/Cache.php:23-26 | a key is the language, then '-', then the value, and its length is the sum of theirs plus one |
| Contracts.KeyCollision | src/Contracts/Cache.php:25 | ("b-c", "a") and ("c", "a-b") are different pairs with the same key |
| Contracts.KeyInjective | src/Contracts/Cache.php:23-26 | for languages without a dash, equal keys mean equal values and equal languages |
| Contracts.KeyInjectiveInValue | src/Contracts/Cache.php:23-26 | for one language, different values give different keys |
| Contracts.Stored | src/Contracts/Cache.php:35-39 | a lookup finds a translation exactly when the composed key is in the table, and then it is the stored one |
| Contracts.StoredInEmpty | src/Contracts/Cache.php:35-39 | nothing is found in the empty cache |
| Contracts.StoredAfterSet | src/Contracts/Cache.php:37-52 | a lookup after a store of the same value and language finds the new translation, whatever was there before |
| Contracts.SetKeepsOtherKeys | src/Contracts/Cache.php:52 | a store leaves the lookup of every other key unchanged |
| Contracts.Cache.constructor | src/Contracts/Cache.php:9 | a cache starts empty |
| Contracts.Cache.GetAll | src/Contracts/Cache.php:11-14 | `getAll` returns the whole table |
| Contracts.Cache.Get | src/Contracts/Cache.php:35-39 | `get` returns the translation under the composed key, and `null` exactly when there is none |
| Contracts.Cache.Set | src/Contracts/Cache.php:49-54 | `set` returns the composed key and the new table is the old one with that key mapped to the translation |
| Translation.MemoKey | src/Grammar/Translator.php:141 | the cache key is the given key when there is one, otherwise the text |
| Translation.Memoised | src/Grammar/Translator.php:141-150 | `getOrTranslate` over a cache table: a fault leaves the cache as it was, and a returned translation is never falsy; its cases are the lemmas below |
| Translation.ClientCallback | src/Grammar/Translator.php:92-96 | the callback `translate` builds: it asks the client for the text with the target language it is called with and the fixed source language |
| Translation.HitIgnoresCallback | src/Grammar/Translator.php:142-143 | on a truthy hit the cached translation is returned, the cache is unchanged, and any other callback gives the same outcome |
| Translation.MissStoresAnswer | src/Grammar/Translator.php:145-148 | on a miss a truthy answer is stored under (key, language) and returned |
| Translation.MissWithFalsyAnswer | src/Grammar/Translator.php:146-150 | on a miss a falsy answer gives `null` and leaves the cache unchanged |
| Translation.MissWithFault | src/Grammar/Translator.php:145 | on a miss a fault of the callback propagates and leaves the cache unchanged |
| Translation.MemoisedChangesOneEntry | src/Grammar/Translator.php:141-150 | one call changes at most the entry of its own key and language, and only to the translation it returns |
| Translation.MemoisedKeepsTruthy | src/Grammar/Translator.php:143-148 | a returned translation is never falsy, and a cache whose entries are all truthy stays so |
| Translation.MemoisedTwice | src/Grammar/Translator.php:141-148 | once a translation has been returned, asking again returns it from the cache whatever the callback answers, and changes nothing |
| Translation.Translator.constructor | src/Grammar/Translator.php:40-45 | a new translator holds the cache, the destination language and the client, and no dynamic properties |
| Translation.Translator.SetLanguage | src/Grammar/Translator.php:54-57 | a language whose first character is NUL fails with PHP's error for a property name starting with "\0" and changes nothing; otherwise the destination language changes only for a language literally named "languageTo", and any other language, "" included, becomes a dynamic property of that name |
| Translation.Translator.GetDestinationLanguage | src/Grammar/Translator.php:64-67 | returns the destination language |
| Translation.Translator.GetCacheContent | src/Grammar/Translator.php:74-77 | returns the whole cache table |
| Translation.Translator.GetOrTranslate | src/Grammar/Translator.php:135-150 | the result and the new cache are those of `Memoised` on the old cache |
| Translation.Translator.Translate | src/Grammar/Translator.php:87-98 | a memoised translation into the current destination language with the client, from the given source (English by default), under the given key |
| Translation.Translator.TranslateTo | src/Grammar/Translator.php:113-122 | a memoised translation into the given language with no source language; the destination language and the properties are restored, on success and on a fault |
| Conversion.WholeFull | src/Converter.php:220 | the full phrase of a whole-only value starts with the phrase, ends with " only", and is six characters longer than phrase and currency together |
| Conversion.DecimalFullCases | src/Converter.php:244-248 | the decimal full sentence in each of the four cases of empty and non-empty phrases |
| Conversion.DecimalFullShape | src/Converter.php:244-248 | the full sentence always ends with " only"; with a whole phrase it starts with "whole currency", followed by ", " exactly when a decimal phrase is present |
| Conversion.AssembleFull | src/Converter.php:244-248 | building the sentence piece by piece gives the reference `DecimalFull` |
| Conversion.TranslateEach | src/Converter.php:254-258 | translating the phrases one after another yields one translation per phrase, unless a fault stops it |
| Conversion.EachServesAll | src/Grammar/Translator.php:145-148 | after a batch in which every phrase was translated, each key is a hit holding the translation returned for it |
| Conversion.EachFromCache | src/Grammar/Translator.php:142-143 | a batch over a cache that already holds all its keys returns those translations and changes nothing |
| Conversion.BatchTwice | src/Grammar/Translator.php:141-148 | repeating a fully translated batch gives the same translations from the cache, whatever the client answers |
| Conversion.BlankIsZero | src/Converter.php:215-242 | a blank whole phrase, or two blank phrases, give the zero record in any language and touch neither the cache nor the client |
| Conversion.EnglishIsUntranslated | src/Converter.php:220-251 | in English the conversion never fails and never touches the cache; it returns the phrase, `null` and "phrase currency only", or the trimmed whole, the trimmed decimal and the decimal full sentence |
| Conversion.ConversionTwice | src/Converter.php:225-258 | converting a fully translated value again gives the same lexemes from the cache, whatever the client now answers, and leaves the cache unchanged |
| Conversion.FullSentenceSharesWholeKey | src/Converter.php:225-229 | when the formatted whole part equals the money text, a translated full sentence equals the translated whole phrase |
| Conversion.WholeConversion | src/Converter.php:215-230 | `_convertWholePart` on a generated phrase: in English it never fails and leaves the cache alone; a non-blank phrase never has a decimal lexeme; the other cases are `BlankIsZero`, `EnglishIsUntranslated`, `ConversionTwice` and `FullSentenceSharesWholeKey` |
| Conversion.DecimalConversion | src/Converter.php:238-259 | `_convertWholeAndDecimalPart` on the trimmed phrases: in English it never fails and leaves the cache alone; the other cases are `BlankIsZero`, `EnglishIsUntranslated` and `ConversionTwice` |
| Conversion.Conversion | src/Converter.php:192-200 | `convert` before exceptions are wrapped: a whole-only value goes to `WholeConversion`, a decimal one to `DecimalConversion` keyed by its two integers; in English it never fails and leaves the cache alone |
| Conversion.Wrap | src/Converter.php:201-206 | the wrapped exception keeps the fault's code, and carries the message of a generic exception or the decoded message of a service exception |
| Conversion.Converter.constructor | src/Converter.php:96-105 | the currencies are stored trimmed; a fresh translator holds the cache, the client and the trimmed language |
| Conversion.Converter.SetCurrency | src/Converter.php:125-129 | both currencies are stored trimmed (the decimal one defaults to "") and stay trimmed |
| Conversion.Converter.SetLanguage | src/Converter.php:138-141 | every call fails with a `TypeError` and changes nothing: the trimmed string it passes on is refused by the `Language` parameter of the translator's `setLanguage` |
| Conversion.Converter.GetTranslationLanguage | src/Converter.php:112-115 | returns the translator's destination language |
| Conversion.Converter.ConvertWholePart | src/Converter.php:215-230 | the lexemes and the new cache are those of `WholeConversion` |
| Conversion.Converter.ConvertWholeAndDecimalPart | src/Converter.php:238-259 | the lexemes and the new cache are those of `DecimalConversion` |
| Conversion.Converter.Convert | src/Converter.php:192-207 | the cache after `convert` is that of `Conversion`; lexemes are returned as they are; every fault of the client or of the JSON decoding surfaces as a `TranslationException` with the decoded or original message and the fault's code |

## Left out

- `_setMoney` (src/Converter.php:160-182) is not modelled. It trims the money text, calls `toArabic` for non-Greek text (which always throws a `TypeError` that `convert` does not wrap, see the `toArabic` line below), formats the value with `number_format` and detects decimals with `Digit::isDecimal` (`fmod`). That is floating point and a call into `NumericSystem`. `Convert` starts from its results instead: the trimmed text and the split parts (`Conversion.Parts`).
- `SentenceGenerator` and `NumericSystem` are not part of this model. The generator is a function parameter.
- `toEnglish` and `toArabic` (src/Grammar/Translator.php:160-182) are not modelled. They read `$this->translateTo` as a property, but `translateTo` is a method, so the read gives `null`. Passing `null` to the `Closure $translate` parameter of `getOrTranslate` then throws a `TypeError` on every call. A `TypeError` is an `Error`, not an `Exception`, so `convert`'s `catch (Exception $ex)` does not wrap it. `convert` on non-Greek money text therefore ends in that unwrapped `TypeError`.
- Conversion.Converter.Convert: starts after `_setMoney`, so it does not model the unwrapped `TypeError` that non-Greek money text raises through `toArabic`. Its wrapping covers the faults of the client and of the JSON decoding only.
- The Google `TranslateClient`, its construction from an authentication key and the network call are a function parameter (`Translation.Client`). A missing `text` field in its answer is not distinguished from an empty translation, which is falsy in both cases.
- `json_decode` of a service exception's message is a function parameter. The case where the body is not JSON and PHP reads a property of `null` is not modelled.
- `TranslationException` is modelled as its message and code only. `convert` passes `getPrevious()` into the constructor's third parameter, `$metadata`, so the previous exception lands in the metadata and the exception has no previous of its own. Neither is modelled.
- Translation.Translator.SetLanguage: a language literally named "cache" or "translator" would overwrite that property and break later calls. This is not modelled; such a language is kept among the dynamic properties.
- Translation.Translator.SetLanguage: its parameter is declared `Language`, and the `Languages` class is not part of this model. The method models a call with a `Languages` value whose string form is the given language. A plain string such as `Languages::ENGLISH` is refused with a `TypeError` before the body runs; that refusal is not modelled here.
- Lexing: the cursor counts characters, while PHP's `strlen`, `$this->text[$this->position]` and `position++` count bytes. The two agree on ASCII text, and `strtolower` only changes ASCII letters. They part after a run of spaces: the extra `position++` skips one byte, so a multi-byte first letter is cut in half in PHP (" éfive" gives "" there and "5" here).
- LexerProperties.LeadingSpaceDropsFirstLetter: states the lost first character; PHP loses the first byte, which is the same only when that letter is ASCII.
- `getTranslator` (src/Converter.php:148-151) only returns the translator object and has no model of its own.
- The static `$cache` array is one `Cache` object, which every translator built with it shares. There is no concurrency to model.
- Php.IntVal reads only a leading run of digits. It does not model signs, leading whitespace or overflow, because the lexer only gives it digit strings or "".
- The lexer's word tables are a `Vocabulary` parameter of the semantic functions, and the class holds the PHP tables `Words`. The duplicate `case` labels of `_isStandardUnit` are one set element each.


/**
 * The client-side translation context: the table of locales, the active
 * language, language matching, and `t`, which walks a dotted key through the
 * active locale and answers the key itself when the walk stops.
 */
module I18n {
  import opened Wrappers
  import opened JsString
  import opened Json

  const DefaultLanguage: string := "en"

  /** The table the source ships: only English, under `en`. */
  function SourceLocales(en: Json): (locales: map<string, Json>)
    ensures DefaultLanguage in locales && locales.Keys == {DefaultLanguage}
  {
    map[DefaultLanguage := en]
  }

  /** `lang.split('-')[0]`: the part of the tag before its first `-`, all of it when there is none. */
  function BaseLanguage(lang: string): (r: string)
    ensures |r| <= |lang| && r == lang[..|r|] && '-' !in r
    ensures |r| == |lang| || lang[|r|] == '-'
  {
    BeforeFirst(lang, '-')
  }

  /**
   * The language itself when it has a locale, else its base before the first
   * `-` when that has one, else `en`.
   */
  function FindBestMatchingLanguage(locales: map<string, Json>, lang: string): (r: string)
    requires DefaultLanguage in locales
    ensures r in locales
    ensures lang in locales ==> r == lang
    ensures lang !in locales && BaseLanguage(lang) in locales ==> r == BaseLanguage(lang)
    ensures lang !in locales && BaseLanguage(lang) !in locales ==> r == DefaultLanguage
  {
    if lang in locales then lang
    else if BaseLanguage(lang) in locales then BaseLanguage(lang)
    else DefaultLanguage
  }

  /** The match is a language the table has, a prefix of the request, or the default. */
  lemma FindBestMatchingLanguageIsPrefixOrDefault(locales: map<string, Json>, lang: string)
    requires DefaultLanguage in locales
    ensures var r := FindBestMatchingLanguage(locales, lang);
      r == DefaultLanguage || (|r| <= |lang| && r == lang[..|r|] && (|r| == |lang| || lang[|r|] == '-'))
  {
  }

  /** With the source's table every request ends up in English. */
  lemma SourceLocalesAlwaysEnglish(en: Json, lang: string)
    ensures FindBestMatchingLanguage(SourceLocales(en), lang) == DefaultLanguage
  {
  }

  /** A regional variant of a shipped language matches the base language. */
  lemma RegionalVariantMatchesBase(locales: map<string, Json>, base: string, region: string)
    requires DefaultLanguage in locales && base in locales && '-' !in base
    requires base + "-" + region !in locales
    ensures FindBestMatchingLanguage(locales, base + "-" + region) == base
  {
    var lang := base + "-" + region;
    assert lang == base + ['-'] + region;
    SplitAfterHead(base, '-', region);
  }

  /** The locale of the best match for `lang`. */
  function GetLocaleData(locales: map<string, Json>, lang: string): Json
    requires DefaultLanguage in locales
  {
    locales[FindBestMatchingLanguage(locales, lang)]
  }

  /**
   * The value at the dotted key, `None` standing for `undefined`: the walk
   * both `t` and the server's `getValueByKeyPath` perform.
   */
  function ValueByKeyPath(locale: Json, key: string): (r: Option<Json>)
    ensures r.Some? ==> IsObject(locale)
  {
    KeyPath(locale, Split(key, '.'))
  }

  /** What `t(key)` answers on a locale: the value at the dotted path, or the key verbatim; never `undefined`. */
  function Lookup(locale: Json, key: string): (r: Json)
    ensures ValueByKeyPath(locale, key).Some? ==> r == ValueByKeyPath(locale, key).value
    ensures ValueByKeyPath(locale, key).None? ==> r == Str(key)
  {
    match ValueByKeyPath(locale, key)
    case Some(v) => v
    case None => Str(key)
  }

  /** A key without a dot is a top-level entry of the locale, or comes back verbatim. */
  lemma LookupUndotted(locale: Json, key: string)
    requires '.' !in key
    ensures Lookup(locale, key) == match Step(locale, key) case Some(v) => v case None => Str(key)
  {
    SplitWithoutSeparator(key, '.');
    assert [key][1..] == [];
    match Step(locale, key)
    case None =>
    case Some(w) => assert KeyPath(w, []) == Some(w);
  }

  /**
   * A dotted key descends into the entry named by its first segment; when that
   * entry is missing (or the locale is not an object) the answer is the key.
   */
  lemma LookupDotted(locale: Json, head: string, rest: string)
    requires '.' !in head
    ensures Step(locale, head).None? ==> KeyPath(locale, Split(head + "." + rest, '.')) == None
    ensures Step(locale, head).None? ==> Lookup(locale, head + "." + rest) == Str(head + "." + rest)
    ensures Step(locale, head).Some? ==>
      KeyPath(locale, Split(head + "." + rest, '.')) == KeyPath(Step(locale, head).value, Split(rest, '.'))
  {
    assert head + "." + rest == head + ['.'] + rest;
    SplitAfterHead(head, '.', rest);
    var path := [head] + Split(rest, '.');
    assert path[0] == head && path[1..] == Split(rest, '.');
  }

  /** The provider's state: the locale table, the (unvalidated) language, and what is persisted. */
  class LanguageContext {
    const locales: map<string, Json>
    var language: string
    /** The `language` entry of local storage. */
    var storedLanguage: Option<string>

    ghost predicate Valid()
      reads this
    {
      DefaultLanguage in locales
    }

    /** The provider's first render: `useState(DEFAULT_LANGUAGE)`. */
    constructor (locales: map<string, Json>, storedLanguage: Option<string>)
      requires DefaultLanguage in locales
      ensures Valid() && this.locales == locales
      ensures language == DefaultLanguage && this.storedLanguage == storedLanguage
    {
      this.locales := locales;
      language := DefaultLanguage;
      this.storedLanguage := storedLanguage;
    }

    /**
     * The mount effect: the best match of the stored language when there is a
     * non-empty one, otherwise of the browser's language.
     */
    method Mount(browserLanguage: string)
      requires Valid()
      modifies this`language
      ensures Valid()
      ensures language in locales
      ensures language == FindBestMatchingLanguage(locales,
        if storedLanguage.Some? && storedLanguage.value != "" then storedLanguage.value else browserLanguage)
    {
      if storedLanguage.Some? && storedLanguage.value != "" {
        language := FindBestMatchingLanguage(locales, storedLanguage.value);
      } else {
        language := FindBestMatchingLanguage(locales, browserLanguage);
      }
    }

    /** `changeLanguage`: stores and persists any string, without matching it. */
    method ChangeLanguage(lang: string)
      requires Valid()
      modifies this`language, this`storedLanguage
      ensures Valid()
      ensures language == lang && storedLanguage == Some(lang)
    {
      language := lang;
      storedLanguage := Some(lang);
    }

    /**
     * `t(key)`: walk the key's segments through the matched locale, answering
     * the key itself as soon as a step fails.
     */
    method T(key: string) returns (r: Json)
      requires Valid()
      ensures r == Lookup(GetLocaleData(locales, language), key)
    {
      var keys := Split(key, '.');
      var root := GetLocaleData(locales, language);
      var value := root;
      for i := 0 to |keys|
        invariant KeyPath(root, keys[..i]) == Some(value)
      {
        KeyPathSnoc(root, keys[..i], keys[i]);
        assert keys[..i + 1] == keys[..i] + [keys[i]];
        var next := Step(value, keys[i]);
        if next.None? {
          KeyPathAppend(root, keys[..i + 1], keys[i + 1..]);
          assert keys == keys[..i + 1] + keys[i + 1..];
          return Str(key);
        }
        value := next.value;
      }
      assert keys[..|keys|] == keys;
      r := value;
    }
  }

  /** Whatever string `changeLanguage` stored, `t` reads a locale the table has. */
  lemma AnyLanguageReadsRealLocale(locales: map<string, Json>, lang: string)
    requires DefaultLanguage in locales
    ensures GetLocaleData(locales, lang) in locales.Values
  {
  }
}

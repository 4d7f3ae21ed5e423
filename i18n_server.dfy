/**
 * The server-side translation helpers: locale choice, the dotted-path walk
 * that answers `undefined` when it stops, and `translate`, which falls back to
 * English and then to the key.
 */
module I18nServer {
  import opened Wrappers
  import opened JsString
  import opened Json
  import I18n

  /** Exact locale, then the base before the first `-`, then English. */
  function GetLocaleData(locales: map<string, Json>, lang: string): (r: Json)
    requires I18n.DefaultLanguage in locales
    ensures lang in locales ==> r == locales[lang]
    ensures lang !in locales && I18n.BaseLanguage(lang) in locales ==> r == locales[I18n.BaseLanguage(lang)]
    ensures lang !in locales && I18n.BaseLanguage(lang) !in locales ==> r == locales[I18n.DefaultLanguage]
  {
    if lang in locales then locales[lang]
    else
      var base := BeforeFirst(lang, '-');
      if base in locales then locales[base] else locales[I18n.DefaultLanguage]
  }

  /** The server's locale choice is the client's language matching, written out a second time. */
  lemma GetLocaleDataAgreesWithClient(locales: map<string, Json>, lang: string)
    requires I18n.DefaultLanguage in locales
    ensures GetLocaleData(locales, lang) == I18n.GetLocaleData(locales, lang)
  {
  }

  /** `getValueByKeyPath`: step through the segments, answering `undefined` at the first failed step. */
  method GetValueByKeyPath(source: Json, key: string) returns (r: Option<Json>)
    ensures r == I18n.ValueByKeyPath(source, key)
  {
    var keys := Split(key, '.');
    var value := source;
    for i := 0 to |keys|
      invariant KeyPath(source, keys[..i]) == Some(value)
    {
      KeyPathSnoc(source, keys[..i], keys[i]);
      assert keys[..i + 1] == keys[..i] + [keys[i]];
      var next := Step(value, keys[i]);
      if next.None? {
        KeyPathAppend(source, keys[..i + 1], keys[i + 1..]);
        assert keys == keys[..i + 1] + keys[i + 1..];
        return None;
      }
      value := next.value;
    }
    assert keys[..|keys|] == keys;
    r := Some(value);
  }

  /** A path through present entries of nested objects gives the innermost value. */
  lemma ValueByKeyPathNested(source: Json, head: string, rest: string)
    requires '.' !in head && source.Obj? && head in source.fields
    ensures I18n.ValueByKeyPath(source, head + "." + rest) == I18n.ValueByKeyPath(source.fields[head], rest)
  {
    I18n.LookupDotted(source, head, rest);
  }

  /** A first segment that is missing, or a source that is not an object, gives `undefined`. */
  lemma ValueByKeyPathStops(source: Json, head: string, rest: string)
    requires '.' !in head && Step(source, head).None?
    ensures I18n.ValueByKeyPath(source, head + "." + rest) == None
    ensures I18n.ValueByKeyPath(source, head) == None
  {
    I18n.LookupDotted(source, head, rest);
    SplitWithoutSeparator(head, '.');
    assert [head][1..] == [];
  }

  /** `lang || DEFAULT_LANGUAGE`. */
  function LanguageOrDefault(lang: Option<string>): (r: string)
    ensures r != ""
    ensures lang.Some? && lang.value != "" ==> r == lang.value
    ensures !(lang.Some? && lang.value != "") ==> r == I18n.DefaultLanguage
  {
    if lang.Some? && lang.value != "" then lang.value else I18n.DefaultLanguage
  }

  /**
   * `translate(key, lang)`: the value in the chosen locale if defined, else the
   * value in English if defined, else the key itself; never `undefined`.
   */
  function Translate(locales: map<string, Json>, key: string, lang: Option<string>): (r: Json)
    requires I18n.DefaultLanguage in locales
    ensures var primary := I18n.ValueByKeyPath(GetLocaleData(locales, LanguageOrDefault(lang)), key);
      primary.Some? ==> r == primary.value
    ensures var primary := I18n.ValueByKeyPath(GetLocaleData(locales, LanguageOrDefault(lang)), key);
      var english := I18n.ValueByKeyPath(locales[I18n.DefaultLanguage], key);
      (primary.None? && english.Some? ==> r == english.value) && (primary.None? && english.None? ==> r == Str(key))
  {
    var translated := I18n.ValueByKeyPath(GetLocaleData(locales, LanguageOrDefault(lang)), key);
    if translated.Some? then translated.value
    else
      var fallback := I18n.ValueByKeyPath(locales[I18n.DefaultLanguage], key);
      if fallback.Some? then fallback.value else Str(key)
  }

  /** No language, an empty one, and `en` all translate the same way. */
  lemma TranslateDefaultLanguage(locales: map<string, Json>, key: string)
    requires I18n.DefaultLanguage in locales
    ensures Translate(locales, key, None) == Translate(locales, key, Some(""))
    ensures Translate(locales, key, None) == Translate(locales, key, Some(I18n.DefaultLanguage))
  {
  }

  /**
   * When the language matches English, the server's `translate` and the
   * client's `t` answer alike: the English fallback adds nothing.
   */
  lemma TranslateAgreesWithClientInEnglish(locales: map<string, Json>, key: string, lang: string)
    requires I18n.DefaultLanguage in locales
    requires I18n.FindBestMatchingLanguage(locales, LanguageOrDefault(Some(lang))) == I18n.DefaultLanguage
    ensures Translate(locales, key, Some(lang)) == I18n.Lookup(I18n.GetLocaleData(locales, LanguageOrDefault(Some(lang))), key)
  {
  }

  /** The reasons lookup walks the `reasons` entry first, then the reason type's own segments. */
  lemma TranslatedReasonsPath(reasonType: string)
    ensures Split("reasons." + reasonType, '.') == ["reasons"] + Split(reasonType, '.')
  {
    assert "reasons." + reasonType == "reasons" + ['.'] + reasonType;
    SplitAfterHead("reasons", '.', reasonType);
  }

  /**
   * `getTranslatedReasons(reasonType, lang)`: the entry under `reasons`, then
   * the reason type's segments, in the chosen locale, else in English, else
   * the key `reasons.<reasonType>` itself.
   */
  function GetTranslatedReasons(locales: map<string, Json>, reasonType: string, lang: Option<string>): (r: Json)
    requires I18n.DefaultLanguage in locales
    ensures var path := ["reasons"] + Split(reasonType, '.');
      var primary := KeyPath(GetLocaleData(locales, LanguageOrDefault(lang)), path);
      var english := KeyPath(locales[I18n.DefaultLanguage], path);
      (primary.Some? ==> r == primary.value) &&
      (primary.None? && english.Some? ==> r == english.value) &&
      (primary.None? && english.None? ==> r == Str("reasons." + reasonType))
  {
    TranslatedReasonsPath(reasonType);
    Translate(locales, "reasons." + reasonType, lang)
  }

  /** A reason type without dots found in the chosen locale is that locale's `reasons` entry. */
  lemma TranslatedReasonsFound(locales: map<string, Json>, reasonType: string, lang: Option<string>, v: Json)
    requires I18n.DefaultLanguage in locales && '.' !in reasonType
    requires KeyPath(GetLocaleData(locales, LanguageOrDefault(lang)), ["reasons", reasonType]) == Some(v)
    ensures GetTranslatedReasons(locales, reasonType, lang) == v
  {
    SplitWithoutSeparator(reasonType, '.');
    assert ["reasons"] + Split(reasonType, '.') == ["reasons", reasonType];
  }

  /** A reason type missing from the chosen locale and from English comes back as its key. */
  lemma TranslatedReasonsMissing(locales: map<string, Json>, reasonType: string, lang: Option<string>)
    requires I18n.DefaultLanguage in locales && '.' !in reasonType
    requires KeyPath(GetLocaleData(locales, LanguageOrDefault(lang)), ["reasons", reasonType]).None?
    requires KeyPath(locales[I18n.DefaultLanguage], ["reasons", reasonType]).None?
    ensures GetTranslatedReasons(locales, reasonType, lang) == Str("reasons." + reasonType)
  {
    SplitWithoutSeparator(reasonType, '.');
    assert ["reasons"] + Split(reasonType, '.') == ["reasons", reasonType];
  }
}

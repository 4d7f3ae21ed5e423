# shouldiwatch: the daily-suggestion core in Dafny

shouldiwatch is a one-page site that suggests a film, TV show or person to
watch today. The page works out a calendar key for today: one of four special
occasions, or the `MM-DD` date. It looks the key up in the locale's candidate
lists and draws one candidate at random. It shows a title built from the
candidate's type. It shows a "Why? …" line built from a random phrasing whose
`{{date}}` and `{{years}}` placeholders are filled in. The page also keeps a
few preferences: the content-filter preset, the preferred link site, the
theme and the timezone.

This project models that core and proves what it promises:

- `wrappers.dfy`: `Option` (JavaScript `undefined`) and `Result` (a throw).
- `js_string.dfy`: the ECMAScript string and number primitives the core
  calls (`trim`, `parseInt(…, 10)`, `String(n)`, `padStart`, `slice`, `split`),
  with `Join` as the inverse of `Split`.
- `js_date.dfy`: the part of `new Date(y, m, d)` and its long English month
  name that template substitution relies on. This covers two-digit years,
  the month taken modulo 12, and days rolling over into neighbouring months.
- `json.dfy`: locale data as a JSON tree, and the one-step rule
  `value && typeof value === 'object' && value[k] !== undefined`.
- `constants.dfy`: `getRandom`, with the 32-bit random word as a parameter.
- `time.dfy`: the `Time` class, the calendar predicates and `MM-DD`.
- `i18n.dfy`: the client-side language context (language matching,
  `changeLanguage`, and `t`, a loop over the key's segments).
- `i18n_server.dfy`: the server-side `getLocaleData`, `getValueByKeyPath`
  (a loop), `translate` and `getTranslatedReasons`.
- `widget.dfy`: the widget. It covers the choice key, the `{{…}}` scan of
  `applyDate`, the title, reason and background-image rules, `updateReasons`
  as a method on the widget's state, and the click and space-bar filter.
- `index_page.dfy`: the page's preference state and its handlers.

Inputs from outside the program are parameters:

- the live local clock (`clock: string -> LocalDate`);
- the timezone database (`zoneExists: string -> bool`);
- the host's own zone (`hostZone`);
- the random words (`U32` values);
- today's ISO date string and the current year (`Env.todayIso`, `Env.currentYear`);
- the browser's language and time zone, and its dark-mode preference;
- the `tz` query parameter.

Two facts about the code shape the model:

- **Random selection, no cycle.** The candidate and the phrasing are each
  drawn with `getRandom`. There is no position counter, no content-type
  filtering inside the widget, and no outbound link resolver.
- **The month name is one month late.** In `applyDate`, the 1-based month
  parsed from the date string is passed to `new Date` as a 0-based month.
  So `1990-03-15` renders as "15 of April", and month `12` rolls over to
  January. `Widget.ApplyDateExample` and `Widget.DateVarsOfIsoDateEarlyDay` state
  this as written.

## Model

| member | source | states |
|---|---|---|
| JsString.Trim | component/widget.tsx:58 | neither end of the result is whitespace, and the result is no longer than the input |
| JsString.TrimStart | component/widget.tsx:58 | what is dropped from the front is all whitespace, the rest is a suffix of the input, and it does not start with whitespace |
| JsString.TrimEnd | component/widget.tsx:58 | what is dropped from the back is all whitespace, the rest is a prefix of the input, and it does not end with whitespace |
| JsString.TrimIsInfix | component/widget.tsx:58 | the input is the trimmed text with whitespace only before and after it |
| JsString.TrimOfTrimmed | component/widget.tsx:58 | text without whitespace at either end trims to itself |
| JsString.NatToString | component/widget.tsx:54-55 | `String(n)` is a non-empty run of digits that denotes `n`, has no leading zero, and has one digit exactly when `n < 10` |
| JsString.IntToString | component/widget.tsx:55 | a negative number is written as `-` and its magnitude; otherwise it is the digits of the number |
| JsString.NumberText | component/widget.tsx:54-59 | NaN is written `NaN`; an integer is written as `IntToString` says |
| JsString.ParseInt | component/widget.tsx:48-50 | `parseInt(s, 10)`: leading whitespace skipped, an optional sign, then the longest digit run, and NaN when there is no digit; what it reads is stated by the three lemmas below |
| JsString.ParseIntOfDigits | component/widget.tsx:48-50 | `parseInt` of a non-empty run of digits is the value of those digits |
| JsString.ParseIntOfNatToString | helpers/time.ts:47-48 | `parseInt(String(n))` is `n` for every non-negative `n` |
| JsString.ParseIntOfPadded | helpers/time.ts:47-48 | a number zero-padded to any width is still all digits and parses back to itself |
| JsString.PadStart | helpers/time.ts:47-48 | the padded string is `width` long, or unchanged in length when already at least that long |
| JsString.Slice | component/widget.tsx:48-50 | both bounds are clamped to the length: the substring between them, or empty when the clamped start is not before the clamped end |
| JsString.Split | helpers/i18n.tsx:60 | there is at least one piece, no piece contains the separator, and joining the pieces with the separator gives back the input |
| JsString.Join | helpers/i18n.tsx:60 | no contract of its own: the pieces with the separator between consecutive ones, the inverse that `Split`'s contract is stated with |
| JsString.SplitWithoutSeparator | helpers/i18n.tsx:60 | a string without the separator splits into itself alone |
| JsString.SplitAfterHead | helpers/i18n.tsx:60 | a separator-free head followed by the separator splits off as the first piece |
| JsString.BeforeFirst | helpers/i18n.tsx:28 | `split(sep)[0]` is the prefix up to the first separator (or the whole string), contains no separator, and equals the input exactly when the input has no separator |
| JsDate.DaysInMonth | component/widget.tsx:51 | a month has 28 to 31 days, and 28 exactly in a common-year February |
| JsDate.FullYear | component/widget.tsx:51 | years 0 to 99 mean 1900 to 1999; other years are kept |
| JsDate.RollMonth | component/widget.tsx:51 | the rolled-over month is in 0..11, and a day inside its month leaves year and month unchanged |
| JsDate.LocalMonth | component/widget.tsx:51 | the month of `new Date(y, m, d)` is in 0..11 |
| JsDate.LongMonthName | component/widget.tsx:51 | the long month name is one of the twelve English names |
| JsDate.LongMonthNameOfEarlyDay | component/widget.tsx:51 | for a day from 1 to 28 the name is the table's entry at `month mod 12` |
| JsDate.LongMonthNameOfOverflowDay | component/widget.tsx:51 | a day past the end of its month names the following month |
| JsDate.RollPastMonthEnd | component/widget.tsx:51 | a day up to four weeks past the end of its month lands in the following month, December rolling into January |
| JsDate.LongMonthNameOfUnderflowDay | component/widget.tsx:51 | a day from 0 down to four weeks before the first names the previous month, so a `00` day field reads as the month before |
| JsDate.RollBeforeMonthStart | component/widget.tsx:51 | a day from 0 down to four weeks before the first of its month lands in the previous month, January rolling back into December |
| Json.Step | helpers/i18n.tsx:63-64 | a step succeeds only on an object or array; on an object it succeeds exactly for present keys and yields that entry; on an array a canonical index in range yields that element |
| Json.KeyPath | helpers/i18n.tsx:62-68 | the empty path gives the value itself; a walk that succeeds through any segment started at an object or array |
| Json.KeyPathSnoc | helpers/i18n.tsx:62-68 | walking a path extended by one segment is the walk of the path followed by one step |
| Json.KeyPathAppend | helpers/i18n.tsx:62-68 | walking `p + q` is walking `p` and then walking `q` from where it ended, or stopping where it stopped |
| Constants.GetRandom | helpers/constants.ts:3-6 | there is a result exactly when the list is non-empty, and the result is an element of the list |
| Constants.GetRandomIndex | helpers/constants.ts:5-6 | for a non-empty list the index `r % len` is in range and the result is the element there |
| Constants.GetRandomSingleton | helpers/constants.ts:5-6 | a one-element list always yields that element |
| Constants.GetRandomReachesEvery | helpers/constants.ts:5-6 | every position of the list is drawn by the word equal to its index |
| TimeHelper.FormatMonthDay | helpers/time.ts:45-50 | `MM-DD` is five characters with a dash in the middle |
| TimeHelper.FormatMonthDayReadsBack | helpers/time.ts:45-50 | both halves of `MM-DD` are digits and parse back as the 1-based month and the day |
| TimeHelper.TwoDigits | helpers/time.ts:47-48 | a padded number below 100 is two characters |
| TimeHelper.TwoDigitsReadsBack | helpers/time.ts:47-48 | the two characters are digits and parse back as the number |
| TimeHelper.IsFriday13th | helpers/time.ts:70-80 | a Friday (weekday 5) that is the 13th of its month |
| TimeHelper.IsDayBeforeChristmas | helpers/time.ts:82-88 | December 24 from 16:00 on |
| TimeHelper.IsChristmas | helpers/time.ts:90-92 | all of December 25 |
| TimeHelper.IsNewYear | helpers/time.ts:94-101 | December 31 from 16:00 on, or any time on January 1 |
| TimeHelper.IsHolidays | helpers/time.ts:103-105 | any of the three holiday windows |
| TimeHelper.HolidaysExclusive | helpers/time.ts:78-105 | the three holiday windows never overlap, and no holiday falls on a Friday the 13th |
| TimeHelper.ResolvedZone | helpers/time.ts:61-62 | a missing or empty zone becomes `UTC`; any other zone is kept |
| TimeHelper.Time.constructor | helpers/time.ts:6-16 | a missing or empty zone falls back to the host's zone; a custom date is held at local midnight; otherwise there is none |
| TimeHelper.Time.SetTimezone | helpers/time.ts:25-29 | the zone changes exactly when the timezone database knows the new one |
| TimeHelper.Time.GetDate | helpers/time.ts:38-43 | the custom date when set, else the clock read in the object's zone |
| TimeHelper.Time.ValidOrNull | helpers/time.ts:61-64 | `null` exactly when the resolved zone is unknown; otherwise a new `Time` in that zone with no custom date |
| TimeHelper.CustomDateIgnoresClock | helpers/time.ts:38-43 | with a custom date, different clocks give the same date |
| TimeHelper.CustomDateAtMidnight | helpers/time.ts:82-101 | with a custom date, it is never the day before Christmas, and it is New Year exactly on January 1 |
| I18n.SourceLocales | helpers/i18n.tsx:7-10 | the shipped table has exactly the `en` locale |
| I18n.BaseLanguage | helpers/i18n.tsx:28 | `lang.split('-')[0]` is the prefix of the tag before its first `-`, or the whole tag when it has none |
| I18n.FindBestMatchingLanguage | helpers/i18n.tsx:24-33 | the exact language if it has a locale, else its base before `-` if that has one, else `en`; always a key of the table. `if (locales[lang])` is read as "the table has `lang`"; for the shipped table, whose one value is the non-empty English object, that is the same test |
| I18n.FindBestMatchingLanguageIsPrefixOrDefault | helpers/i18n.tsx:24-33 | the match is `en`, or a prefix of the request ending at its end or at a `-` |
| I18n.SourceLocalesAlwaysEnglish | helpers/i18n.tsx:7-33 | with the shipped table every request matches `en` |
| I18n.GetLocaleData | helpers/i18n.tsx:35-37 | no contract of its own: the locale of the best match; `I18n.AnyLanguageReadsRealLocale` states that it is always one of the table's locales |
| I18n.RegionalVariantMatchesBase | helpers/i18n.tsx:28-30 | `base-region` without its own locale matches `base` when `base` has one |
| I18n.ValueByKeyPath | helpers/i18n.tsx:59-70 | the value at the dotted key, or `undefined`; a found value means the locale itself is an object or array |
| I18n.Lookup | helpers/i18n.tsx:59-70 | `t` answers the value at the dotted key when there is one, and the key itself otherwise, never `undefined` |
| I18n.LookupUndotted | helpers/i18n.tsx:59-70 | a key without a dot gives the top-level entry, or the key itself |
| I18n.LookupDotted | helpers/i18n.tsx:59-70 | a dotted key descends into the entry of its first segment; when that entry is missing or the locale is not an object, the answer is the key |
| I18n.LanguageContext.constructor | helpers/i18n.tsx:42 | the language starts as `en` |
| I18n.LanguageContext.Mount | helpers/i18n.tsx:44-52 | the language becomes the best match of the stored language if there is a non-empty one, else of the browser's language |
| I18n.LanguageContext.ChangeLanguage | helpers/i18n.tsx:54-57 | any string becomes the language, unvalidated, and is persisted |
| I18n.LanguageContext.T | helpers/i18n.tsx:59-70 | the loop answers the value at the dotted path in the matched locale, or the key as soon as a step fails |
| I18n.AnyLanguageReadsRealLocale | helpers/i18n.tsx:35-37 | whatever the language, `t` reads one of the table's locales |
| I18nServer.GetLocaleData | helpers/i18n-server.ts:11-20 | the exact locale, else the base locale before `-`, else `en` |
| I18nServer.GetLocaleDataAgreesWithClient | helpers/i18n-server.ts:11-20 | the server's locale choice equals the client's |
| I18nServer.GetValueByKeyPath | helpers/i18n-server.ts:22-33 | the loop answers the value at the dotted path, or `undefined` at the first failed step |
| I18nServer.ValueByKeyPathNested | helpers/i18n-server.ts:22-33 | through a present object entry, the path continues in that entry |
| I18nServer.ValueByKeyPathStops | helpers/i18n-server.ts:25-30 | a first segment missing (or a source that is not an object) gives `undefined` |
| I18nServer.LanguageOrDefault | helpers/i18n-server.ts:36 | a missing or empty language means `en`; any other language is kept |
| I18nServer.Translate | helpers/i18n-server.ts:35-43 | the value in the chosen locale when defined, else the value in `en` when defined, else the key; never `undefined` |
| I18nServer.TranslateDefaultLanguage | helpers/i18n-server.ts:36 | no language, the empty language and `en` translate alike |
| I18nServer.TranslateAgreesWithClientInEnglish | helpers/i18n-server.ts:35-43 | when the language matches English, `translate` answers what the client's `t` answers |
| I18nServer.GetTranslatedReasons | helpers/i18n-server.ts:45-50 | the entry under `reasons` and then the reason type's segments in the chosen locale, else in English, else the key `reasons.<type>` itself |
| I18nServer.TranslatedReasonsPath | helpers/i18n-server.ts:49 | that key's path is `reasons` followed by the segments of the reason type |
| I18nServer.TranslatedReasonsFound | helpers/i18n-server.ts:45-50 | a reason type without dots present in the chosen locale gives that locale's entry |
| I18nServer.TranslatedReasonsMissing | helpers/i18n-server.ts:45-50 | a reason type missing from the chosen locale and from English gives the key `reasons.<type>` |
| Widget.GetChoiceKey | component/widget.tsx:22-37 | each occasion key is chosen exactly when its occasion holds; `MM-DD` exactly when none does |
| Widget.PlaceholderClosesAtFirstBrace | component/widget.tsx:57 | a `{{…}}` match ends at the first `}` after its opening |
| Widget.FirstClose | component/widget.tsx:57 | the position returned is the first `}` of the string, or its length when there is none |
| Widget.MatchAt | component/widget.tsx:57 | the match at a position is a complete placeholder and is the only one that closes there; there is none exactly when no placeholder starts there |
| Widget.Substitute | component/widget.tsx:57-60 | the trimmed name `date` gives the date text, `years` gives the years text, and any other name gives the empty string |
| Widget.Render | component/widget.tsx:57-60 | the global replace scanning left to right; a template without `{` comes back unchanged |
| Widget.RenderWithoutPlaceholder | component/widget.tsx:57 | a template with no complete placeholder is returned unchanged |
| Widget.RenderPlainPrefix | component/widget.tsx:57 | text without `{` is copied unchanged ahead of the rest |
| Widget.RenderPlaceholder | component/widget.tsx:57-60 | a complete placeholder at the front is replaced by its variable |
| Widget.RenderPlainThenPlaceholder | component/widget.tsx:57-60 | plain text and then a placeholder render as the text and then the variable |
| Widget.RenderTwoPlaceholders | component/widget.tsx:57-60 | two placeholders around plain text are each replaced, and the text between is kept |
| Widget.RenderYearsAgoOn | component/widget.tsx:57-60 | the phrasing `{{years}} years ago on {{date}}` renders as the years, the fixed text, and the date |
| Widget.DateVarsOf | component/widget.tsx:48-56 | the variables from the fields parsed at positions 0-4, 5-7 and 8-10 of the date string; what they are is stated by `FieldVars` and the two lemmas after it |
| Widget.ApplyDate | component/widget.tsx:47-61 | the template rendered against those variables; a template without `{` comes back unchanged |
| Widget.FieldParses | component/widget.tsx:48-50 | a field of decimal digits at its fixed position parses with `parseInt` as the number the digits spell |
| Widget.FieldVars | component/widget.tsx:51-56 | with all three fields numbers the date text is the day, "of" and the month name of `new Date(year, month, day)`; with any field NaN the month reads "Invalid Date"; the years text is the current year minus the year, or `NaN` when the year is NaN |
| Widget.DateVarsOfIsoDate | component/widget.tsx:47-56 | on a `YYYY-MM-DD` string the variables are those of the three digit fields read as numbers |
| Widget.DateVarsOfIsoDateEarlyDay | component/widget.tsx:48-54 | on `YYYY-MM-DD` with a day from 1 to 28 the date text is the day, "of" and `MonthNames[month mod 12]` of the 1-based month, so the named month is one too late |
| Widget.DateVarsExample | component/widget.tsx:47-56 | in 2024, `1990-03-15` gives years `34` and date `15 of April` |
| Widget.ApplyDateExample | component/widget.tsx:47-60 | in 2024, the sample phrasing on `1990-03-15` reads "34 years ago on 15 of April" |
| Widget.ReasonKey | component/widget.tsx:84-87 | the six date tags use their own phrasing list; every other reason uses `reasons.featuring` |
| Widget.HasDateTag | component/widget.tsx:84 | no contract of its own: the reason is present and one of the six date tags; `ReasonKey` and `ReasonText` state what it selects |
| Widget.DrawFrom | component/widget.tsx:85-87 | a found list gives `getRandom` of it; an echoed key gives one of its characters |
| Widget.DrawCandidate | component/widget.tsx:68-69 | a found list gives `getRandom` of it; an echoed key gives a candidate with no properties |
| Widget.ReasonText | component/widget.tsx:84-88 | it throws exactly when no phrasing was drawn; otherwise the line starts with "Why? ". A date tag renders against the candidate's date, or today when it has none. Another reason renders against today and ends with the reason text |
| Widget.YearText | component/widget.tsx:91-93 | a missing date reads `undefined`; otherwise its first four characters, or the whole date when it is shorter |
| Widget.TitleText | component/widget.tsx:90-98 | succeeds exactly for `movie`, `tv` and `person`: `name (YYYY)`, `name (YYYY-YYYY)` and the bare name. Any other type throws `Invalid type (<type>)` |
| Widget.ImageUrl | component/widget.tsx:100-105 | empty exactly when `image_path` is missing or empty; otherwise the CDN prefix followed by the path |
| Widget.ChoicesKey | component/widget.tsx:43-45 | no contract of its own: `choices.` followed by the occasion key, which `GetChoiceKey`'s contract pins |
| Widget.Select | component/widget.tsx:67-109 | no candidate throws a `TypeError`; the refresh succeeds exactly when a candidate is drawn, its reason line has a phrasing and its type is known |
| Widget.SelectShowsDrawnCandidate | component/widget.tsx:67-109 | a successful refresh shows the title, reason and image of the candidate at `pick % length`, whose type is known |
| Widget.SelectDrawnErrors | component/widget.tsx:84-98 | once a candidate is drawn, a failed refresh throws what the reason line throws, or else `Invalid type (<type>)` for any type other than the three |
| Widget.EmptyChoicesThrow | component/widget.tsx:68-81 | an empty list for today throws a `TypeError` |
| Widget.MissingChoicesThrow | component/widget.tsx:68-98 | a key missing from the locale always throws; once a phrasing is drawn, the error is `Invalid type (undefined)` |
| Widget.NoPropertiesTitle | component/widget.tsx:90-98 | a candidate with no properties throws `Invalid type (undefined)` when its title is built |
| Widget.WidgetView.constructor | component/widget.tsx:14-15 | the title and the reason start out undefined |
| Widget.WidgetView.UpdateReasons | component/widget.tsx:67-109 | on success it shows the selected title and reason and reports the image URL; on a throw it reports the same error and leaves the shown state as it was |
| Widget.IsRefresh | component/widget.tsx:121 | no contract of its own: a click or the space bar; `OnSpacePressOrClick` states that exactly these events refresh |
| Widget.WidgetView.OnSpacePressOrClick | component/widget.tsx:119-130 | it refreshes exactly for a click or the space bar, and prevents the default action exactly for the space bar; other events change nothing |
| IndexPage.FilterName | component/filter.tsx:24-27 | each preset is written as one of the selector's four option values |
| IndexPage.FilterNamesDistinct | component/filter.tsx:24-27 | different presets have different option values |
| IndexPage.PresetFilters | pages/index.tsx:22-27 | `all` shows every type, and each `only_*` preset shows exactly its own type |
| IndexPage.PresetFiltersInjective | pages/index.tsx:22-27 | the filters determine the preset |
| IndexPage.IsPreferredLinkSite | pages/index.tsx:31-35 | a stored value that is present and one of `imdb`, `tmdb`, `letterboxd` |
| IndexPage.LinkSiteName | pages/index.tsx:31 | the name stored for a site is always one of the valid names |
| IndexPage.ParseLinkSite | pages/index.tsx:31-35 | a stored value names a site exactly when `isPreferredLinkSite` holds, and then it is that site's name |
| IndexPage.LinkSiteRoundTrip | pages/index.tsx:31-35 | each site's stored name is accepted and read back as that site |
| IndexPage.Toggled | pages/index.tsx:100-101 | the result is light or dark, and dark exactly after light |
| IndexPage.ToggleTwice | pages/index.tsx:100-101 | two toggles restore light or dark; any other stored theme becomes light, then dark |
| IndexPage.Page.constructor | pages/index.tsx:43-55 | the built-for zone, a `Time` from the serialised zone and date, the light theme, every type shown under `all`, and IMDb |
| IndexPage.Page.MountTheme | pages/index.tsx:61-74 | the stored theme if any, else dark exactly when the system prefers dark; the page's invariant is kept |
| IndexPage.Page.MountLinkSite | pages/index.tsx:76-81 | a stored site is adopted only when it is valid; otherwise the site is unchanged; the page's invariant is kept |
| IndexPage.Page.MountTimezone | pages/index.tsx:83-98 | a valid `tz` query, or no valid browser zone, changes nothing; otherwise the browser zone becomes the zone, with a new live `Time` in it |
| IndexPage.Page.ToggleTheme | pages/index.tsx:100-106 | the theme flips and the new one is persisted; the page's invariant is kept |
| IndexPage.Page.ChangeTimezone | pages/index.tsx:108-119 | an unknown zone changes nothing; a known one becomes the zone, with a new live `Time` in it |
| IndexPage.Page.ChangeFilterPreset | pages/index.tsx:121-124 | the preset is set and the filters become its row of the table, so the filters always match the preset |
| IndexPage.Page.ChangePreferredLinkSite | pages/index.tsx:126-129 | the site is set and its name is persisted, and that name passes validation; the page's invariant is kept |

## Left out

- The live clock. The `toLocaleString` round trip that reads it (helpers/time.ts:31-36) depends on the host's Intl data, so the local reading is the parameter `clock`.
- Building a custom date from its string (helpers/time.ts:10-12). This depends on the host's offset, so the custom date comes in as a local date record.
- `zoneExists`. Its `Intl.DateTimeFormat` probe (helpers/time.ts:52-59) is a call into the timezone database, here an uninterpreted predicate.
- `crypto.getRandomValues` (helpers/constants.ts:3-4). It is an entropy source; the drawn word is a parameter.
- The clock reads inside `applyDate`: `new Date().toISOString()` and `getFullYear()` (component/widget.tsx:47,52). They come in as `Env.todayIso` and `Env.currentYear`.
- React plumbing: hooks, effects and context wiring, the `keydown` listener registration, and `preventDefault`, which is a returned flag.
- The browser: `localStorage` is modelled as fields. `navigator.language`, `matchMedia` and the `tz` query are parameters. `Router.push`, the `data-theme` attribute and the page's background-URL state are not modelled. The URL reaches the caller as the refresh's outcome.
- `getStaticProps`, `Time.toObject`, a `null` serialised `now`, and `useTranslation` outside its provider. These are server or React wiring.
- The clock is read once per refresh (`GetDate`). In helpers/time.ts:38-44 and 70-105 each getter reads the clock again, so a refresh that straddles a change of minute or day may mix two readings; the model does not capture that.
- Strings are sequences of code points. JavaScript's `slice`, `padStart` and positions count UTF-16 code units, so text outside the Basic Multilingual Plane may slice differently.
- The selector's unchecked cast (component/filter.tsx:19). The handler takes a `ContentTypeFilter`, because the selector only offers the four option values.
- The UI-only files component/footer.tsx, component/head.tsx and component/timezone.tsx. Only the `ContentTypeFilter` union of component/filter.tsx is mirrored.
- Content: the locale files, the timezone list and the theme values. Locale data is an abstract JSON tree. The theme is `Light | Dark` plus `Other` for any other stored string.
- Properties JavaScript objects inherit, such as `constructor` or `toString`. The map of locales, the JSON walk and the `applyDate` variables see only their own properties.
- JSON numbers that are not integers. The core never does arithmetic on a number it finds in the locale data.
- Widget.Candidate: a property that is present but `null` is not distinguished from a missing one. Only `undefined` is modelled.
- Widget.Listing: a translation that exists but is neither a list nor missing, such as a plain string under a `choices.*` key, is not modelled. The model has a found list or the echoed key.
- Widget.WidgetError: the text of a `TypeError` is not modelled, only that one is thrown.
- `birthday` and `deathday`. The widget declares them but never reads them.
- A non-repeating cycle, per-type filtering in the widget, and an outbound link resolver. None is implemented in the code. The `filters` and `preferredLinkSite` the page passes are not props the widget declares.
- `Time.now`, `isFriday` and `is13th`. They are folded into `GetDate` and `IsFriday13th`.
- `AVAILABLE_LANGUAGES` is a list of the table's keys, used only for display.
- JsString.PadStart: its contract states only the length. What the padded digits read back as is proved for the one use, in JsString.ParseIntOfPadded, because a contents clause on the function slowed every proof that uses it.
- TimeHelper.FormatMonthDay: its contract states only the shape. The read-back of the two halves is the separate lemma TimeHelper.FormatMonthDayReadsBack, for the same reason.
- JsString.Trim: the fact that the input is the result wrapped in whitespace is stated in JsString.TrimIsInfix rather than in the function's contract, for the same reason.

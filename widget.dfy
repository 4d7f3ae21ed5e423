/**
 * The suggestion widget: the calendar key for today, the `{{…}}` template
 * substitution of `applyDate`, and `updateReasons`, which draws a candidate
 * and a phrasing at random and shows the candidate's title and reason.
 */
module Widget {
  import opened Wrappers
  import opened JsString
  import opened Constants
  import opened TimeHelper
  import JsDate

  // ---------------------------------------------------------------------------
  // The calendar key

  /**
   * The first special occasion that holds, in the order day before Christmas,
   * Christmas, New Year, Friday the 13th; otherwise `MM-DD`. The occasions
   * never overlap, so each key holds exactly when its own predicate does.
   */
  function GetChoiceKey(d: LocalDate): (key: string)
    ensures key == "day_before_christmas" <==> IsDayBeforeChristmas(d)
    ensures key == "christmas" <==> IsChristmas(d)
    ensures key == "new_year" <==> IsNewYear(d)
    ensures key == "friday_13th" <==> IsFriday13th(d)
    ensures key == FormatMonthDay(d) <==> !IsHolidays(d) && !IsFriday13th(d)
  {
    HolidaysExclusive(d);
    if IsDayBeforeChristmas(d) then "day_before_christmas"
    else if IsChristmas(d) then "christmas"
    else if IsNewYear(d) then "new_year"
    else if IsFriday13th(d) then "friday_13th"
    else FormatMonthDay(d)
  }

  // ---------------------------------------------------------------------------
  // applyDate: the regular expression /\{\{([^}]+)\}\}/g and its replacer

  /** `s` starts with a complete placeholder whose closing `}}` is at `j`. */
  ghost predicate IsPlaceholderAt(s: string, j: int) {
    3 <= j && j + 2 <= |s| && s[0] == '{' && s[1] == '{' && s[j] == '}' && s[j + 1] == '}' && '}' !in s[2..j]
  }

  /** `s` contains a complete placeholder somewhere. */
  ghost predicate HasPlaceholder(s: string) {
    exists i, j | 0 <= i <= |s| :: IsPlaceholderAt(s[i..], j)
  }

  /** The index of the first `}` in `s`, or `|s|` when there is none. */
  function FirstClose(s: string): (k: nat)
    ensures k <= |s| && '}' !in s[..k]
    ensures k < |s| ==> s[k] == '}'
  {
    if s == [] || s[0] == '}' then 0
    else
      var k := 1 + FirstClose(s[1..]);
      assert s[..k] == [s[0]] + s[1..][..k - 1];
      k
  }

  /** A placeholder closes at the first `}` after its opening. */
  lemma PlaceholderClosesAtFirstBrace(s: string, j: int)
    requires IsPlaceholderAt(s, j)
    ensures j == 2 + FirstClose(s[2..])
  {
    var t := s[2..];
    var k := FirstClose(t);
    assert forall i | 0 <= i < k :: t[i] != '}' by {
      forall i | 0 <= i < k ensures t[i] != '}' {
        assert t[i] == t[..k][i];
      }
    }
    assert forall i | 2 <= i < j :: s[i] != '}' by {
      forall i | 2 <= i < j ensures s[i] != '}' {
        assert s[i] == s[2..j][i - 2];
      }
    }
    assert t[j - 2] == s[j];
    assert k < |t| ==> t[k] == s[2 + k];
  }

  /**
   * The regular expression tried at the start of `s`: where its closing `}}`
   * is when it matches there, and no answer exactly when it does not.
   */
  function MatchAt(s: string): (r: Option<nat>)
    ensures r.Some? ==> IsPlaceholderAt(s, r.value)
    ensures forall j :: IsPlaceholderAt(s, j) ==> r == Some(j)
  {
    if |s| < 2 || s[0] != '{' || s[1] != '{' then None
    else
      var j := 2 + FirstClose(s[2..]);
      assert s[2..j] == s[2..][..j - 2];
      assert forall j' :: IsPlaceholderAt(s, j') ==> j' == j by {
        forall j' | IsPlaceholderAt(s, j') ensures j' == j {
          PlaceholderClosesAtFirstBrace(s, j');
        }
      }
      if j >= 3 && j + 1 < |s| && s[j + 1] == '}' then
        assert s[j] == s[2..][j - 2];
        Some(j)
      else
        None
  }

  /** The two variables `applyDate` offers, as the text they are replaced with. */
  datatype DateVars = DateVars(date: string, years: string)

  /** The replacer: the trimmed name picks a variable; any other name becomes empty. */
  function Substitute(vars: DateVars, name: string): (r: string)
    ensures Trim(name) == "date" ==> r == vars.date
    ensures Trim(name) == "years" ==> r == vars.years
    ensures Trim(name) != "date" && Trim(name) != "years" ==> r == ""
  {
    var k := Trim(name);
    if k == "date" then vars.date else if k == "years" then vars.years else ""
  }

  /**
   * The global replace, scanning left to right: a match is replaced and the scan
   * resumes after it; otherwise one character is copied.
   */
  function Render(s: string, vars: DateVars): (r: string)
    ensures '{' !in s ==> r == s
    decreases |s|
  {
    if s == [] then []
    else
      match MatchAt(s)
      case Some(j) => Substitute(vars, s[2..j]) + Render(s[j + 2..], vars)
      case None => [s[0]] + Render(s[1..], vars)
  }

  /** A template without a complete placeholder comes back as it is. */
  lemma {:induction false} RenderWithoutPlaceholder(s: string, vars: DateVars)
    requires !HasPlaceholder(s)
    ensures Render(s, vars) == s
    decreases |s|
  {
    if s != [] {
      assert s[0..] == s;
      assert MatchAt(s).None?;
      assert !HasPlaceholder(s[1..]) by {
        forall i, j | 0 <= i <= |s[1..]| ensures !IsPlaceholderAt(s[1..][i..], j) {
          assert s[1..][i..] == s[i + 1..];
        }
      }
      RenderWithoutPlaceholder(s[1..], vars);
    }
  }

  /** Text without a `{` is copied unchanged ahead of whatever follows. */
  lemma {:induction false} RenderPlainPrefix(p: string, s: string, vars: DateVars)
    requires '{' !in p
    ensures Render(p + s, vars) == p + Render(s, vars)
    decreases |p|
  {
    if p != [] {
      var t := p + s;
      assert t[0] == p[0];
      assert MatchAt(t).None?;
      assert t[1..] == p[1..] + s;
      RenderPlainPrefix(p[1..], s, vars);
      assert [p[0]] + p[1..] == p;
    } else {
      assert p + s == s;
    }
  }

  /** A complete placeholder at the front is replaced by its variable's text. */
  lemma RenderPlaceholder(name: string, rest: string, vars: DateVars)
    requires name != [] && '}' !in name
    ensures Render("{{" + name + "}}" + rest, vars) == Substitute(vars, name) + Render(rest, vars)
  {
    var t := "{{" + name + "}}" + rest;
    var j := 2 + |name|;
    assert t[2..j] == name;
    assert t[j] == '}' && t[j + 1] == '}';
    assert IsPlaceholderAt(t, j);
    assert MatchAt(t) == Some(j);
    assert t[j + 2..] == rest;
  }

  /**
   * The variables for an ISO-like date string: `date` is "<day> of <month name>"
   * and `years` is `currentYear - year`, each field read with `parseInt` from
   * the fixed positions `YYYY-MM-DD`. The month name comes from
   * `new Date(year, month, day)` with the 1-based month as the 0-based argument.
   */
  function DateVarsOf(iso: string, currentYear: int): (vars: DateVars)
  {
    FieldVars(ParseInt(Slice(iso, 0, 4)), ParseInt(Slice(iso, 5, 7)), ParseInt(Slice(iso, 8, 10)), currentYear)
  }

  /** The variables from the three parsed fields, each `None` when it is NaN. */
  function FieldVars(year: Option<int>, month: Option<int>, day: Option<int>, currentYear: int): (vars: DateVars)
    ensures year.Some? && month.Some? && day.Some? ==>
      vars.date == NumberText(day) + " of " + JsDate.LongMonthName(year.value, month.value, day.value)
    ensures !(year.Some? && month.Some? && day.Some?) ==> vars.date == NumberText(day) + " of Invalid Date"
    ensures year.Some? ==> vars.years == IntToString(currentYear - year.value)
    ensures year.None? ==> vars.years == "NaN"
  {
    var monthName :=
      if year.Some? && month.Some? && day.Some? then JsDate.LongMonthName(year.value, month.value, day.value)
      else "Invalid Date";
    assert NumberText(day) + " of " + "Invalid Date" == NumberText(day) + " of Invalid Date";
    DateVars(NumberText(day) + " of " + monthName,
             NumberText(if year.Some? then Some(currentYear - year.value) else None))
  }

  /** `applyDate(template, date)`. */
  function ApplyDate(template: string, iso: string, currentYear: int): (r: string)
    ensures '{' !in template ==> r == template
  {
    Render(template, DateVarsOf(iso, currentYear))
  }

  /** A string with digits at the positions `YYYY-MM-DD` reads. */
  predicate IsIsoDate(iso: string) {
    |iso| >= 10 && AllDigits(iso[0..4]) && AllDigits(iso[5..7]) && AllDigits(iso[8..10])
  }

  /** A field of digits parses as its value. */
  lemma FieldParses(iso: string, from: nat, to: nat)
    requires from < to <= |iso| && AllDigits(iso[from..to])
    ensures ParseInt(Slice(iso, from, to)) == Some(DigitsValue(iso[from..to]))
  {
    assert Slice(iso, from, to) == iso[from..to];
    ParseIntOfDigits(iso[from..to]);
  }

  /**
   * On a date string each field parses as the number its digits spell, so the
   * variables are those of the three numbers: the day, the month named by the
   * 1-based month read as 0-based, and the difference of years.
   */
  lemma DateVarsOfIsoDate(iso: string, currentYear: int)
    requires IsIsoDate(iso)
    ensures DateVarsOf(iso, currentYear)
         == FieldVars(Some(DigitsValue(iso[0..4])), Some(DigitsValue(iso[5..7])), Some(DigitsValue(iso[8..10])), currentYear)
  {
    FieldParses(iso, 0, 4);
    FieldParses(iso, 5, 7);
    FieldParses(iso, 8, 10);
  }

  /**
   * For a day up to 28 the month is `MonthNames[month mod 12]` of the parsed
   * 1-based month, so `03` names April and `12` rolls over to January.
   */
  lemma DateVarsOfIsoDateEarlyDay(iso: string, currentYear: int, year: nat, month: nat, day: nat)
    requires IsIsoDate(iso)
    requires year == DigitsValue(iso[0..4]) && month == DigitsValue(iso[5..7]) && day == DigitsValue(iso[8..10])
    requires 1 <= day <= 28
    ensures DateVarsOf(iso, currentYear).date == NatToString(day) + " of " + JsDate.MonthNames[month % 12]
  {
    DateVarsOfIsoDate(iso, currentYear);
    JsDate.LongMonthNameOfEarlyDay(year, month, day);
  }

  /** The two variable names themselves need no trimming. */
  lemma VariableNamesTrimmed()
    ensures Trim("years") == "years" && Trim("date") == "date"
  {
    TrimOfTrimmed("years");
    TrimOfTrimmed("date");
  }

  /** Plain text followed by one placeholder. */
  lemma RenderPlainThenPlaceholder(between: string, name: string, vars: DateVars)
    requires name != [] && '}' !in name && '{' !in between
    ensures Render(between + ("{{" + name + "}}"), vars) == between + Substitute(vars, name)
  {
    var closing := "{{" + name + "}}";
    RenderPlainPrefix(between, closing, vars);
    assert closing == "{{" + name + "}}" + "";
    RenderPlaceholder(name, "", vars);
  }

  /** Two placeholders around plain text: each is replaced, the text between is kept. */
  lemma RenderTwoPlaceholders(first: string, between: string, second: string, vars: DateVars)
    requires first != [] && '}' !in first && second != [] && '}' !in second && '{' !in between
    ensures Render("{{" + first + "}}" + between + "{{" + second + "}}", vars)
         == Substitute(vars, first) + between + Substitute(vars, second)
  {
    var rest := between + ("{{" + second + "}}");
    assert "{{" + first + "}}" + between + "{{" + second + "}}" == "{{" + first + "}}" + rest;
    RenderPlainThenPlaceholder(between, second, vars);
    RenderPlaceholder(first, rest, vars);
  }

  /** The sample phrasing substitutes both variables in place. */
  lemma RenderYearsAgoOn(template: string, vars: DateVars)
    requires template == "{{years}} years ago on {{date}}"
    ensures Render(template, vars) == vars.years + " years ago on " + vars.date
  {
    assert "{{" + "years" + "}}" + " years ago on " + "{{" + "date" + "}}" == template;
    assert '}' !in "years" && '}' !in "date" && '{' !in " years ago on ";
    RenderTwoPlaceholders("years", " years ago on ", "date", vars);
    VariableNamesTrimmed();
  }

  /** The fields of the sample date, read at their fixed positions. */
  lemma SampleDateFields(iso: string)
    requires iso == "1990-03-15"
    ensures IsIsoDate(iso)
    ensures DigitsValue(iso[0..4]) == 1990 && DigitsValue(iso[5..7]) == 3 && DigitsValue(iso[8..10]) == 15
  {
    assert iso[0..4] == "1990" && iso[5..7] == "03" && iso[8..10] == "15";
    assert "1990"[..3] == "199" && "199"[..2] == "19" && "19"[..1] == "1";
  }

  /** March read as a 0-based month is April. */
  lemma SampleMonthName()
    ensures JsDate.LongMonthName(1990, 3, 15) == JsDate.MonthNames[3]
  {
    JsDate.LongMonthNameOfEarlyDay(1990, 3, 15);
  }

  /** In 2024, `"1990-03-15"` is 34 years ago, on the 15th of April (not March). */
  lemma DateVarsExample(iso: string)
    requires iso == "1990-03-15"
    ensures DateVarsOf(iso, 2024) == DateVars("15 of April", "34")
  {
    assert NatToString(15) == "15";
    assert NatToString(15) + " of " + JsDate.MonthNames[3] == "15 of April";
    assert IntToString(34) == "34";
    SampleDateFields(iso);
    DateVarsOfIsoDate(iso, 2024);
    SampleMonthName();
  }

  /** The worked example end to end: in 2024 the sample phrasing on `1990-03-15` reads "34 years ago on 15 of April". */
  lemma ApplyDateExample(template: string, iso: string)
    requires template == "{{years}} years ago on {{date}}" && iso == "1990-03-15"
    ensures ApplyDate(template, iso, 2024) == "34 years ago on 15 of April"
  {
    assert "34" + " years ago on " + "15 of April" == "34 years ago on 15 of April";
    var vars := DateVarsOf(iso, 2024);
    DateVarsExample(iso);
    RenderYearsAgoOn(template, vars);
  }

  // ---------------------------------------------------------------------------
  // updateReasons

  /**
   * A candidate of a calendar key's list, property by property; `None` is a
   * property that is not there (reads as `undefined`).
   */
  datatype Candidate = Candidate(
    kind: Option<string>,
    name: Option<string>,
    reason: Option<string>,
    imagePath: Option<string>,
    date: Option<string>,
    releaseDate: Option<string>,
    firstAirDate: Option<string>,
    lastAirDate: Option<string>)

  /** What a one-character string drawn in place of a candidate offers: no property at all. */
  const NoProperties := Candidate(None, None, None, None, None, None, None, None)

  /** What `t` answers for a key whose value is a list: the list, or the key echoed back. */
  datatype Listing<T> = Found(items: seq<T>) | Absent

  /**
   * The translations the widget reads: the candidate lists under `choices.*`,
   * the phrasing variants under `reasons.*`, today's `toISOString()` and the
   * current year, all as the host supplies them.
   */
  datatype Env = Env(
    choices: string -> Listing<Candidate>,
    reasons: string -> Listing<string>,
    todayIso: string,
    currentYear: int)

  datatype WidgetError =
    | TypeError                 // a property read on `undefined`
    | Thrown(message: string)   // `throw new Error(message)`

  /** Reasons whose phrasing is rendered against the candidate's own date. */
  const DateTags: seq<string> := ["released", "ended", "canceled", "birth", "death", "date_in_title"]

  const ReasonPrefix: string := "Why? "
  const ImageBase: string := "https://image.tmdb.org/t/p/original/"

  /** A property as a template literal shows it. */
  function JsText(v: Option<string>): string {
    v.GetOr("undefined")
  }

  predicate HasDateTag(c: Candidate) {
    c.reason.Some? && c.reason.value in DateTags
  }

  /** The translation key of the phrasing variants for a candidate's reason. */
  function ReasonKey(c: Candidate): (key: string)
    ensures HasDateTag(c) ==> key == "reasons." + c.reason.value
    ensures !HasDateTag(c) ==> key == "reasons.featuring"
  {
    if HasDateTag(c) then "reasons." + c.reason.value else "reasons.featuring"
  }

  /** `getRandom` over what `t` answered for `key`: an element of the list, or one character of the echoed key. */
  function DrawFrom(listing: Listing<string>, key: string, r: U32): (x: Option<string>)
    ensures listing.Found? ==> x == GetRandom(listing.items, r)
    ensures listing.Absent? && key != [] ==> x == Some([key[r % |key|]])
  {
    match listing
    case Found(items) => GetRandom(items, r)
    case Absent =>
      match GetRandom(key, r)
      case None => None
      case Some(ch) => Some([ch])
  }

  /** The candidate drawn for a choices key: an entry, or a character of the echoed key, which has no properties. */
  function DrawCandidate(listing: Listing<Candidate>, key: string, r: U32): (x: Option<Candidate>)
    ensures listing.Found? ==> x == GetRandom(listing.items, r)
    ensures listing.Absent? ==> (x.Some? <==> key != []) && (x.Some? ==> x.value == NoProperties)
  {
    match listing
    case Found(items) => GetRandom(items, r)
    case Absent => if key == [] then None else Some(NoProperties)
  }

  /**
   * The reason line: "Why? " and a drawn phrasing, rendered against the
   * candidate's date for a date tag, or against today's date and followed by
   * the reason text itself otherwise. Throws when no phrasing was drawn.
   */
  function ReasonText(c: Candidate, env: Env, r: U32): (res: Result<string, WidgetError>)
    ensures res.Ok? ==> |res.value| >= |ReasonPrefix| && res.value[..|ReasonPrefix|] == ReasonPrefix
    ensures res.Err? <==> DrawFrom(env.reasons(ReasonKey(c)), ReasonKey(c), r).None?
    ensures res.Ok? && HasDateTag(c) ==>
      res.value == ReasonPrefix + ApplyDate(DrawFrom(env.reasons(ReasonKey(c)), ReasonKey(c), r).value, c.date.GetOr(env.todayIso), env.currentYear)
    ensures res.Ok? && !HasDateTag(c) ==>
      var tail := JsText(c.reason);
      |res.value| >= |tail| && res.value[|res.value| - |tail|..] == tail
    ensures res.Ok? && !HasDateTag(c) ==>
      res.value == ReasonPrefix + ApplyDate(DrawFrom(env.reasons(ReasonKey(c)), ReasonKey(c), r).value, env.todayIso, env.currentYear) + JsText(c.reason)
  {
    var key := ReasonKey(c);
    match DrawFrom(env.reasons(key), key, r)
    case None => Err(TypeError)
    case Some(template) =>
      if HasDateTag(c) then
        Ok(ReasonPrefix + ApplyDate(template, c.date.GetOr(env.todayIso), env.currentYear))
      else
        var s := ReasonPrefix + ApplyDate(template, env.todayIso, env.currentYear) + JsText(c.reason);
        assert s[|s| - |JsText(c.reason)|..] == JsText(c.reason);
        Ok(s)
  }

  /** `date?.slice(0, 4)` in a template literal: the first four characters, or `undefined`. */
  function YearText(date: Option<string>): (r: string)
    ensures date.None? ==> r == "undefined"
    ensures date.Some? && |date.value| >= 4 ==> r == date.value[..4]
    ensures date.Some? && |date.value| < 4 ==> r == date.value
  {
    match date
    case None => "undefined"
    case Some(s) => Slice(s, 0, 4)
  }

  predicate IsKnownType(kind: Option<string>) {
    kind == Some("movie") || kind == Some("tv") || kind == Some("person")
  }

  /**
   * The title by candidate type: `name (YYYY)` for a movie, `name (YYYY-YYYY)`
   * for a TV show, the bare name for a person; any other type throws.
   */
  function TitleText(c: Candidate): (res: Result<Option<string>, WidgetError>)
    ensures res.Ok? <==> IsKnownType(c.kind)
    ensures res.Err? ==> res.error == Thrown("Invalid type (" + JsText(c.kind) + ")")
    ensures c.kind == Some("person") ==> res == Ok(c.name)
    ensures c.kind == Some("movie") ==> res == Ok(Some(JsText(c.name) + " (" + YearText(c.releaseDate) + ")"))
    ensures c.kind == Some("tv") ==>
      res == Ok(Some(JsText(c.name) + " (" + YearText(c.firstAirDate) + "-" + YearText(c.lastAirDate) + ")"))
  {
    if c.kind == Some("movie") then Ok(Some(JsText(c.name) + " (" + YearText(c.releaseDate) + ")"))
    else if c.kind == Some("tv") then
      Ok(Some(JsText(c.name) + " (" + YearText(c.firstAirDate) + "-" + YearText(c.lastAirDate) + ")"))
    else if c.kind == Some("person") then Ok(c.name)
    else Err(Thrown("Invalid type (" + JsText(c.kind) + ")"))
  }

  /** The background: the image CDN path for a non-empty `image_path`, else the empty string. */
  function ImageUrl(c: Candidate): (url: string)
    ensures url == "" <==> c.imagePath.None? || c.imagePath.value == ""
    ensures url != "" ==> url == ImageBase + c.imagePath.value
  {
    if c.imagePath.Some? && c.imagePath.value != "" then ImageBase + c.imagePath.value else ""
  }

  /** What one refresh shows: the title, the reason line, and the URL handed to `onChoiceSelected`. */
  datatype Shown = Shown(title: Option<string>, reason: string, imageUrl: string)

  /** The translation key of today's candidate list. */
  function ChoicesKey(d: LocalDate): string {
    "choices." + GetChoiceKey(d)
  }

  /** One refresh on local date `d`, with the two random draws `pick` (candidate) and `phrasing`. */
  function Select(d: LocalDate, env: Env, pick: U32, phrasing: U32): (r: Result<Shown, WidgetError>)
    ensures var drawn := DrawCandidate(env.choices(ChoicesKey(d)), ChoicesKey(d), pick);
      (drawn.None? ==> r == Err(TypeError)) &&
      (r.Ok? <==> drawn.Some? && ReasonText(drawn.value, env, phrasing).Ok? && IsKnownType(drawn.value.kind))
  {
    match DrawCandidate(env.choices(ChoicesKey(d)), ChoicesKey(d), pick)
    case None => Err(TypeError)
    case Some(c) =>
      match ReasonText(c, env, phrasing)
      case Err(e) => Err(e)
      case Ok(reason) =>
        match TitleText(c)
        case Err(e) => Err(e)
        case Ok(title) => Ok(Shown(title, reason, ImageUrl(c)))
  }

  /** A successful refresh shows the candidate at `pick % length` of today's list. */
  lemma SelectShowsDrawnCandidate(d: LocalDate, env: Env, pick: U32, phrasing: U32)
    requires env.choices(ChoicesKey(d)).Found?
    requires Select(d, env, pick, phrasing).Ok?
    ensures var items := env.choices(ChoicesKey(d)).items;
      |items| > 0 &&
      var c := items[pick % |items|];
      IsKnownType(c.kind) &&
      Select(d, env, pick, phrasing).value == Shown(TitleText(c).value, ReasonText(c, env, phrasing).value, ImageUrl(c))
  {
  }

  /**
   * Once a candidate is drawn, a failed refresh throws what the reason line
   * throws, or else `Invalid type (<type>)` for a type other than the three.
   */
  lemma SelectDrawnErrors(d: LocalDate, env: Env, pick: U32, phrasing: U32)
    requires DrawCandidate(env.choices(ChoicesKey(d)), ChoicesKey(d), pick).Some?
    ensures var c := DrawCandidate(env.choices(ChoicesKey(d)), ChoicesKey(d), pick).value;
      (ReasonText(c, env, phrasing).Err? ==> Select(d, env, pick, phrasing) == Err(ReasonText(c, env, phrasing).error)) &&
      (ReasonText(c, env, phrasing).Ok? && !IsKnownType(c.kind) ==>
        Select(d, env, pick, phrasing) == Err(Thrown("Invalid type (" + JsText(c.kind) + ")")))
  {
  }

  /** An empty list for today throws before anything is shown. */
  lemma EmptyChoicesThrow(d: LocalDate, env: Env, pick: U32, phrasing: U32)
    requires env.choices(ChoicesKey(d)) == Found([])
    ensures Select(d, env, pick, phrasing) == Err(TypeError)
  {
  }

  /**
   * A key missing from the locale (so `t` echoes it) never shows anything: the
   * drawn character has no `type`, so the refresh throws.
   */
  lemma MissingChoicesThrow(d: LocalDate, env: Env, pick: U32, phrasing: U32)
    requires env.choices(ChoicesKey(d)).Absent?
    ensures Select(d, env, pick, phrasing).Err?
    ensures ReasonText(NoProperties, env, phrasing).Ok? ==>
      Select(d, env, pick, phrasing) == Err(Thrown("Invalid type (undefined)"))
  {
    var key := ChoicesKey(d);
    assert key[0] == 'c';
    assert DrawCandidate(env.choices(key), key, pick) == Some(NoProperties);
    NoPropertiesTitle();
  }

  /** A candidate with no properties has type `undefined`, which no branch of the title accepts. */
  lemma NoPropertiesTitle()
    ensures TitleText(NoProperties) == Err(Thrown("Invalid type (undefined)"))
  {
    assert "Invalid type (" + JsText(None) + ")" == "Invalid type (undefined)";
  }

  /**
   * The reason half of `updateReasons`, written as the source's statements.
   * It computes exactly `ReasonText`; it is a method of its own only so that
   * the proof of `WidgetView.UpdateReasons` stays small.
   */
  method BuildReason(c: Candidate, env: Env, phrasing: U32) returns (line: Result<string, WidgetError>)
    ensures line == ReasonText(c, env, phrasing)
  {
    var reasonKey := ReasonKey(c);
    var template := DrawFrom(env.reasons(reasonKey), reasonKey, phrasing);
    if template.None? {
      return Err(TypeError);
    }
    if HasDateTag(c) {
      line := Ok(ReasonPrefix + ApplyDate(template.value, c.date.GetOr(env.todayIso), env.currentYear));
    } else {
      line := Ok(ReasonPrefix + ApplyDate(template.value, env.todayIso, env.currentYear) + JsText(c.reason));
    }
  }

  /**
   * The title half of `updateReasons`, written as the source's statements.
   * It computes exactly `TitleText`; like `BuildReason`, it is separate only
   * to keep the proof of `WidgetView.UpdateReasons` small.
   */
  method BuildTitle(c: Candidate) returns (title: Result<Option<string>, WidgetError>)
    ensures title == TitleText(c)
  {
    if c.kind == Some("movie") {
      title := Ok(Some(JsText(c.name) + " (" + YearText(c.releaseDate) + ")"));
    } else if c.kind == Some("tv") {
      title := Ok(Some(JsText(c.name) + " (" + YearText(c.firstAirDate) + "-" + YearText(c.lastAirDate) + ")"));
    } else if c.kind == Some("person") {
      title := Ok(c.name);
    } else {
      title := Err(Thrown("Invalid type (" + JsText(c.kind) + ")"));
    }
  }

  /** The events the widget listens to: `event.type`, and `event.key` for keyboard events. */
  datatype UiEvent = UiEvent(kind: string, key: Option<string>)

  /** A refresh runs for a click or for the space bar. */
  predicate IsRefresh(e: UiEvent) {
    e.kind == "click" || e.key == Some(" ")
  }

  /** The widget's own state: the shown title (`choice`) and reason, both `undefined` before the first refresh. */
  class WidgetView {
    var choice: Option<string>
    var reason: Option<string>

    constructor ()
      ensures choice == None && reason == None
    {
      choice := None;
      reason := None;
    }

    /**
     * `updateReasons`: draw, compute title and reason, report the background
     * URL, then show both; a throw leaves the shown state as it was.
     */
    method UpdateReasons(now: Time, clock: string -> LocalDate, env: Env, pick: U32, phrasing: U32)
      returns (outcome: Result<string, WidgetError>)
      modifies this`choice, this`reason
      ensures var s := Select(now.GetDate(clock), env, pick, phrasing);
        match s
        case Ok(shown) => outcome == Ok(shown.imageUrl) && choice == shown.title && reason == Some(shown.reason)
        case Err(e) => outcome == Err(e) && choice == old(choice) && reason == old(reason)
    {
      var d := now.GetDate(clock);
      var key := ChoicesKey(d);
      var drawn := DrawCandidate(env.choices(key), key, pick);
      if drawn.None? {
        assert Select(d, env, pick, phrasing) == Err(TypeError);
        return Err(TypeError);
      }
      var c := drawn.value;
      var reasonLine := BuildReason(c, env, phrasing);
      if reasonLine.Err? {
        return Err(reasonLine.error);
      }
      var title := BuildTitle(c);
      if title.Err? {
        return Err(title.error);
      }
      assert Select(d, env, pick, phrasing) == Ok(Shown(title.value, reasonLine.value, ImageUrl(c)));
      outcome := Ok(ImageUrl(c));
      choice := title.value;
      reason := Some(reasonLine.value);
    }

    /**
     * `onSpacePressOrClick`: refresh for a click or the space bar, and say
     * whether the default action was prevented (only for the space bar).
     */
    method OnSpacePressOrClick(e: UiEvent, now: Time, clock: string -> LocalDate, env: Env, pick: U32, phrasing: U32)
      returns (prevented: bool, outcome: Option<Result<string, WidgetError>>)
      modifies this`choice, this`reason
      ensures prevented <==> e.key == Some(" ")
      ensures outcome.Some? <==> IsRefresh(e)
      ensures !IsRefresh(e) ==> choice == old(choice) && reason == old(reason)
      ensures IsRefresh(e) ==> var s := Select(now.GetDate(clock), env, pick, phrasing);
        match s
        case Ok(shown) => outcome == Some(Ok(shown.imageUrl)) && choice == shown.title && reason == Some(shown.reason)
        case Err(err) => outcome == Some(Err(err)) && choice == old(choice) && reason == old(reason)
    {
      prevented := false;
      outcome := None;
      if IsRefresh(e) {
        if e.key == Some(" ") {
          prevented := true;
        }
        var result := UpdateReasons(now, clock, env, pick, phrasing);
        outcome := Some(result);
      }
    }
  }
}

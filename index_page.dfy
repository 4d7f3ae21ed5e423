/**
 * The page's preference state: the content-filter presets, the preferred link
 * site, the theme, and the timezone with its `Time`. The handlers change only
 * what they are documented to change; the browser's storage is two fields.
 */
module IndexPage {
  import opened Wrappers
  import opened TimeHelper

  // ---------------------------------------------------------------------------
  // Content filters

  /**
   * The values of the preset selector. The selector hands its option value on
   * with an unchecked cast; as it offers only these four options, the handlers
   * take the preset itself.
   */
  datatype ContentTypeFilter = All | OnlyMovies | OnlyTv | OnlyPeople

  /** The selector's option values, in display order. */
  const FilterOptions: seq<string> := ["all", "only_movies", "only_tv", "only_people"]

  /** The option value each preset is written as: one of the selector's options. */
  function FilterName(p: ContentTypeFilter): (name: string)
    ensures name in FilterOptions
  {
    match p
    case All => "all"
    case OnlyMovies => "only_movies"
    case OnlyTv => "only_tv"
    case OnlyPeople => "only_people"
  }

  /** Different presets have different option values, so the value the selector reports names one preset. */
  lemma FilterNamesDistinct(p: ContentTypeFilter, q: ContentTypeFilter)
    requires FilterName(p) == FilterName(q)
    ensures p == q
  {
  }

  /** Which content types are shown. */
  datatype ContentFilters = ContentFilters(movie: bool, tv: bool, person: bool)

  /**
   * The preset table: `all` shows every type, and each `only_*` preset shows
   * exactly its own type.
   */
  function PresetFilters(p: ContentTypeFilter): (f: ContentFilters)
    ensures f.movie <==> p == All || p == OnlyMovies
    ensures f.tv <==> p == All || p == OnlyTv
    ensures f.person <==> p == All || p == OnlyPeople
  {
    match p
    case All => ContentFilters(true, true, true)
    case OnlyMovies => ContentFilters(true, false, false)
    case OnlyTv => ContentFilters(false, true, false)
    case OnlyPeople => ContentFilters(false, false, true)
  }

  /** Different presets never give the same filters, so the filters determine the preset. */
  lemma PresetFiltersInjective(p: ContentTypeFilter, q: ContentTypeFilter)
    requires PresetFilters(p) == PresetFilters(q)
    ensures p == q
  {
    var f := PresetFilters(p);
    if f.movie && f.tv {
      assert p == All && q == All;
    }
  }

  // ---------------------------------------------------------------------------
  // Preferred link site

  datatype LinkSite = Imdb | Tmdb | Letterboxd

  /** The name the page stores for a site: always one of the valid names. */
  function LinkSiteName(site: LinkSite): (name: string)
    ensures name in ValidLinkSites
  {
    match site
    case Imdb => "imdb"
    case Tmdb => "tmdb"
    case Letterboxd => "letterboxd"
  }

  const ValidLinkSites: seq<string> := ["imdb", "tmdb", "letterboxd"]

  /** `isPreferredLinkSite`: not `null` and one of the three valid names. */
  predicate IsPreferredLinkSite(value: Option<string>) {
    value.Some? && value.value in ValidLinkSites
  }

  /** The site a stored value names, if it names one. */
  function ParseLinkSite(value: Option<string>): (r: Option<LinkSite>)
    ensures r.Some? <==> IsPreferredLinkSite(value)
    ensures r.Some? ==> LinkSiteName(r.value) == value.value
  {
    if value == Some("imdb") then Some(Imdb)
    else if value == Some("tmdb") then Some(Tmdb)
    else if value == Some("letterboxd") then Some(Letterboxd)
    else None
  }

  /** Whatever the page stores for a site is accepted when read back. */
  lemma LinkSiteRoundTrip(site: LinkSite)
    ensures IsPreferredLinkSite(Some(LinkSiteName(site)))
    ensures ParseLinkSite(Some(LinkSiteName(site))) == Some(site)
  {
  }

  // ---------------------------------------------------------------------------
  // Theme

  /**
   * The two themes, and any other non-empty string found in storage, which
   * the page adopts as it is.
   */
  datatype Theme = Light | Dark | Other(name: string)

  /** The theme after a toggle: dark after light, light after anything else. */
  function Toggled(t: Theme): (r: Theme)
    ensures r == Light || r == Dark
    ensures r == Dark <==> t == Light
  {
    if t == Light then Dark else Light
  }

  /** Toggling twice returns to a light or dark theme; anything else is normalised to dark, then light. */
  lemma ToggleTwice(t: Theme)
    ensures !t.Other? ==> Toggled(Toggled(t)) == t
    ensures t.Other? ==> Toggled(t) == Light && Toggled(Toggled(t)) == Dark
  {
  }

  // ---------------------------------------------------------------------------
  // The page

  class Page {
    var timezone: string
    var now: Time
    var theme: Theme
    var filters: ContentFilters
    var filterPreset: ContentTypeFilter
    var preferredLinkSite: LinkSite
    /** The `theme` entry of local storage; `None` when missing or empty. */
    var storedTheme: Option<Theme>
    /** The `preferredLinkSite` entry of local storage. */
    var storedLinkSite: Option<string>

    /** The filters always are the current preset's row of the table, and `now` is a well-formed `Time`. */
    ghost predicate Valid()
      reads this, now
    {
      filters == PresetFilters(filterPreset) && now.Valid()
    }

    /**
     * The first render: the timezone the page was built for, a `Time` from its
     * serialised form, the light theme, every type shown, and IMDb.
     */
    constructor (tz: string, initialTimezone: Option<string>, initialCustomDate: Option<LocalDate>, hostZone: string,
                 storedTheme: Option<Theme>, storedLinkSite: Option<string>)
      ensures Valid() && fresh(now)
      ensures timezone == tz && theme == Light
      ensures filters == ContentFilters(true, true, true) && filterPreset == All && preferredLinkSite == Imdb
      ensures now.timezone == (if initialTimezone.Some? && initialTimezone.value != "" then initialTimezone.value else hostZone)
      ensures now.customDate == (if initialCustomDate.Some? then Some(initialCustomDate.value.(hour := 0)) else None)
      ensures this.storedTheme == storedTheme && this.storedLinkSite == storedLinkSite
    {
      timezone := tz;
      now := new Time(initialTimezone, initialCustomDate, hostZone);
      theme := Light;
      filters := ContentFilters(true, true, true);
      filterPreset := All;
      preferredLinkSite := Imdb;
      this.storedTheme := storedTheme;
      this.storedLinkSite := storedLinkSite;
    }

    /** The theme effect on mount: the stored theme if any, else the system preference. */
    method MountTheme(prefersDark: bool)
      requires Valid()
      modifies this`theme
      ensures Valid()
      ensures storedTheme.Some? ==> theme == storedTheme.value
      ensures storedTheme.None? ==> theme == (if prefersDark then Dark else Light)
    {
      if storedTheme.Some? {
        theme := storedTheme.value;
      } else if prefersDark {
        theme := Dark;
      } else {
        theme := Light;
      }
    }

    /** The link-site effect on mount: a stored value is adopted only when it is a valid site. */
    method MountLinkSite()
      requires Valid()
      modifies this`preferredLinkSite
      ensures Valid()
      ensures IsPreferredLinkSite(storedLinkSite) ==> LinkSiteName(preferredLinkSite) == storedLinkSite.value
      ensures !IsPreferredLinkSite(storedLinkSite) ==> preferredLinkSite == old(preferredLinkSite)
    {
      var site := ParseLinkSite(storedLinkSite);
      if site.Some? {
        preferredLinkSite := site.value;
      }
    }

    /**
     * The timezone effect on mount: a valid `tz` query parameter keeps the
     * page's zone; otherwise a known browser zone replaces it, with a live
     * `Time` in that zone.
     */
    method MountTimezone(query: Option<string>, browserZone: Option<string>, zoneExists: string -> bool, hostZone: string)
      requires Valid()
      modifies this`timezone, this`now
      ensures Valid()
      ensures var keep := (query.Some? && query.value != "" && zoneExists(query.value))
                          || !(browserZone.Some? && browserZone.value != "" && zoneExists(browserZone.value));
        (keep ==> timezone == old(timezone) && now == old(now)) &&
        (!keep ==> timezone == browserZone.value && fresh(now) && now.timezone == browserZone.value && now.customDate.None?)
    {
      if query.Some? && query.value != "" && zoneExists(query.value) {
        return;
      }
      if !(browserZone.Some? && browserZone.value != "" && zoneExists(browserZone.value)) {
        return;
      }
      timezone := browserZone.value;
      now := new Time(browserZone, None, hostZone);
    }

    /** `toggleTheme`: switch and persist. */
    method ToggleTheme()
      requires Valid()
      modifies this`theme, this`storedTheme
      ensures Valid()
      ensures theme == Toggled(old(theme)) && storedTheme == Some(theme)
    {
      var next := Toggled(theme);
      theme := next;
      storedTheme := Some(next);
    }

    /**
     * `changeTimezone`: an unknown zone changes nothing; a known one becomes the
     * page's zone, with a live `Time` in it.
     */
    method ChangeTimezone(newTimezone: string, zoneExists: string -> bool, hostZone: string)
      requires Valid()
      modifies this`timezone, this`now
      ensures Valid()
      ensures !zoneExists(newTimezone) ==> timezone == old(timezone) && now == old(now)
      ensures zoneExists(newTimezone) ==> timezone == newTimezone && fresh(now) && now.customDate.None?
      ensures zoneExists(newTimezone) ==> now.timezone == (if newTimezone != "" then newTimezone else hostZone)
    {
      if !zoneExists(newTimezone) {
        return;
      }
      timezone := newTimezone;
      now := new Time(Some(newTimezone), None, hostZone);
    }

    /** `changeFilterPreset`: the preset and its row of the table. */
    method ChangeFilterPreset(preset: ContentTypeFilter)
      requires Valid()
      modifies this`filterPreset, this`filters
      ensures Valid()
      ensures filterPreset == preset && filters == PresetFilters(preset)
    {
      filterPreset := preset;
      filters := PresetFilters(preset);
    }

    /** `changePreferredLinkSite`: adopt and persist. */
    method ChangePreferredLinkSite(site: LinkSite)
      requires Valid()
      modifies this`preferredLinkSite, this`storedLinkSite
      ensures Valid()
      ensures preferredLinkSite == site && storedLinkSite == Some(LinkSiteName(site))
      ensures IsPreferredLinkSite(storedLinkSite)
    {
      preferredLinkSite := site;
      storedLinkSite := Some(LinkSiteName(site));
    }
  }
}

/** The locale detection hook: a saved preference wins when it names a
    supported locale; otherwise an IP lookup's country code picks the locale
    through a fixed table; when the lookup fails the browser language's
    prefix decides. The hook's state is the detected data, a loading flag
    and an error message. */
module GeoLocation {
  import opened Json
  import opened Strings

  /** The supported locales. */
  datatype Locale = ZhCN | EnUS | JaJP

  function Tag(l: Locale): (tag: string)
    ensures |tag| == 5 && '/' !in tag
  {
    match l
    case ZhCN => "zh-CN"
    case EnUS => "en-US"
    case JaJP => "ja-JP"
  }

  /** The locale a tag names, if any: `locales.includes(tag)`. */
  function LocaleOf(tag: string): (l: Option<Locale>)
    ensures l.Some? ==> Tag(l.value) == tag
  {
    if tag == "zh-CN" then Some(ZhCN)
    else if tag == "en-US" then Some(EnUS)
    else if tag == "ja-JP" then Some(JaJP)
    else None
  }

  /** Every locale is found from its tag, and different locales have
      different tags. */
  lemma LocaleOfTag(l: Locale)
    ensures LocaleOf(Tag(l)) == Some(l)
  {
  }

  const PreferredLocaleKey := "preferred-locale"
  const DetectionError := "Failed to detect precise location, using browser language"

  /** What the hook publishes. The lookup's fields are kept as the values
      the lookup gave (whatever their type), or the defaults. */
  datatype GeoLocationData = GeoLocationData(
    country: JsonValue, countryCode: JsonValue, region: JsonValue, city: JsonValue,
    timezone: JsonValue, preferredLocale: Locale)

  /** How the IP lookup went: the fetch threw or was not ok, the body was
      not JSON, or it gave `data`. */
  datatype Lookup = LookupFailed | Looked(data: JsonValue)

  // ---------------------------------------------------------------------
  // Country codes

  const CountryToLocale: map<string, Locale> := map[
    "CN" := ZhCN, "TW" := ZhCN, "HK" := ZhCN, "MO" := ZhCN, "SG" := ZhCN,
    "US" := EnUS, "CA" := EnUS, "GB" := EnUS, "AU" := EnUS, "NZ" := EnUS, "IE" := EnUS, "ZA" := EnUS,
    "JP" := JaJP, "KR" := JaJP]

  /** `countryToLocale[data.country_code] || 'en-US'`: the code, rendered as
      a property key, looked up in the table. */
  function LocaleForCountry(countryCode: Option<JsonValue>): Locale {
    var key := Render(countryCode);
    if key in CountryToLocale then CountryToLocale[key] else EnUS
  }

  /** Chinese for the five Chinese-speaking regions, Japanese for Japan and
      Korea, English for every other code and for a missing one. */
  lemma LocaleForCountryCases(code: string)
    ensures LocaleForCountry(Some(JString(code))) == ZhCN <==> code in {"CN", "TW", "HK", "MO", "SG"}
    ensures LocaleForCountry(Some(JString(code))) == JaJP <==> code in {"JP", "KR"}
    ensures LocaleForCountry(Some(JString(code))) == EnUS <==> code !in {"CN", "TW", "HK", "MO", "SG", "JP", "KR"}
  {
  }

  lemma MissingCountryIsEnglish()
    ensures LocaleForCountry(None) == EnUS
  {
    assert Render(None) == "undefined";
    assert "undefined"[0] == 'u';
  }

  /** `value || fallback` for a looked-up field. */
  function OrDefault(value: Option<JsonValue>, fallback: string): (r: JsonValue)
    ensures Truthy(value) ==> r == value.value
    ensures !Truthy(value) ==> r == JString(fallback)
  {
    if Truthy(value) then value.value else JString(fallback)
  }

  /** The data built from a lookup that did not throw. */
  function FromLookup(data: JsonValue): GeoLocationData
    requires !data.JNull?
  {
    GeoLocationData(
      OrDefault(Prop(data, "country_name"), "Unknown"),
      OrDefault(Prop(data, "country_code"), "XX"),
      OrDefault(Prop(data, "region"), ""),
      OrDefault(Prop(data, "city"), ""),
      OrDefault(Prop(data, "timezone"), ""),
      LocaleForCountry(Prop(data, "country_code")))
  }

  /** A lookup without fields gives `Unknown`, `XX`, empty strings and
      English. */
  lemma EmptyLookupDefaults()
    ensures FromLookup(JObject(map[])) ==
      GeoLocationData(JString("Unknown"), JString("XX"), JString(""), JString(""), JString(""), EnUS)
  {
    MissingCountryIsEnglish();
  }

  // ---------------------------------------------------------------------
  // The browser language

  /** `navigator.language || navigator.languages?.[0] || 'en-US'`. */
  function BrowserLanguage(language: string, languages: seq<string>): (lang: string)
    ensures lang != []
  {
    if language != [] then language
    else if |languages| > 0 && languages[0] != [] then languages[0]
    else "en-US"
  }

  /** The prefix rules: `zh…` is Chinese, `ja…` Japanese, the rest
      English. */
  function BrowserLocale(lang: string): Locale {
    if StartsWith(lang, "zh") then ZhCN
    else if StartsWith(lang, "ja") then JaJP
    else EnUS
  }

  lemma BrowserLocaleCases(lang: string)
    ensures BrowserLocale(lang) == ZhCN <==> |lang| >= 2 && lang[..2] == "zh"
    ensures BrowserLocale(lang) == JaJP <==> |lang| >= 2 && lang[..2] == "ja"
    ensures BrowserLocale(lang) == EnUS <==> !(|lang| >= 2 && lang[..2] in {"zh", "ja"})
  {
  }

  /** A browser reporting a supported tag keeps its locale. */
  lemma BrowserLocaleOfTag(l: Locale)
    ensures BrowserLocale(Tag(l)) == l
  {
    assert Tag(l)[..2] == match l case ZhCN => "zh" case EnUS => "en" case JaJP => "ja";
  }

  function PreferenceData(l: Locale): GeoLocationData {
    GeoLocationData(JString("User Preference"), JString("UP"), JString(""), JString(""), JString(""), l)
  }

  function BrowserData(l: Locale): GeoLocationData {
    GeoLocationData(JString("Browser Detection"), JString("BD"), JString(""), JString(""), JString(""), l)
  }

  /** A saved preference counts when it is set and names a supported
      locale. */
  predicate ValidSaved(saved: Option<string>) {
    saved.Some? && saved.value != [] && LocaleOf(saved.value).Some?
  }

  lemma ValidSavedIff(saved: Option<string>)
    ensures ValidSaved(saved) <==> saved.Some? && saved.value in {"zh-CN", "en-US", "ja-JP"}
  {
  }

  // ---------------------------------------------------------------------
  // The hook

  class GeoLocationHook {
    var geoData: Option<GeoLocationData>
    var loading: bool
    var error: Option<string>

    /** The initial state: nothing detected, loading, no error. */
    constructor ()
      ensures geoData.None? && loading && error.None?
    {
      geoData := None;
      loading := true;
      error := None;
    }

    /** `detectLocation`. `saved` is the stored preference, `lookup` the
        outcome of the IP lookup, `language` and `languages` the
        browser's. `lookedUp` says whether the lookup was made. */
    method DetectLocation(saved: Option<string>, lookup: Lookup, language: string, languages: seq<string>)
      returns (lookedUp: bool)
      modifies this
      ensures !loading
      ensures ValidSaved(saved) ==>
        !lookedUp && geoData == Some(PreferenceData(LocaleOf(saved.value).value)) && error == old(error)
      ensures !ValidSaved(saved) && lookup.Looked? && !lookup.data.JNull? ==>
        lookedUp && geoData == Some(FromLookup(lookup.data)) && error == old(error)
      ensures !ValidSaved(saved) && (lookup.LookupFailed? || lookup.data.JNull?) ==>
        lookedUp && geoData == Some(BrowserData(BrowserLocale(BrowserLanguage(language, languages)))) &&
        error == Some(DetectionError)
    {
      lookedUp := false;
      if saved.Some? && saved.value != [] && LocaleOf(saved.value).Some? {
        geoData := Some(PreferenceData(LocaleOf(saved.value).value));
        loading := false;
        return;
      }
      lookedUp := true;
      if lookup.Looked? && !lookup.data.JNull? {
        geoData := Some(FromLookup(lookup.data));
      } else {
        // Reading `country_code` of a `null` body throws like a failed lookup.
        var browserLang := BrowserLanguage(language, languages);
        var preferredLocale := EnUS;
        if StartsWith(browserLang, "zh") {
          preferredLocale := ZhCN;
        } else if StartsWith(browserLang, "ja") {
          preferredLocale := JaJP;
        } else {
          preferredLocale := EnUS;
        }
        geoData := Some(BrowserData(preferredLocale));
        error := Some(DetectionError);
      }
      loading := false;
    }
  }
}

/** The language menu: choosing a locale stores it as the preference,
    rewrites the first path segment to the new locale, navigates there and
    closes the menu. */
module LanguageSwitcher {
  import opened Json
  import opened Strings
  import opened GeoLocation

  const Slash: char := '/'

  /** `segments[1] = locale` on the pieces of `pathname.split('/')`: a
      one-piece path grows a second piece. */
  function ReplaceSecond(segments: seq<string>, locale: string): (r: seq<string>)
    requires |segments| >= 1
    ensures |r| == if |segments| >= 2 then |segments| else 2
    ensures r[1] == locale
    ensures forall k :: 0 <= k < |segments| && k != 1 ==> r[k] == segments[k]
  {
    if |segments| >= 2 then segments[1 := locale] else segments + [locale]
  }

  /** The path the menu navigates to. */
  function LocalizedPath(pathname: string, locale: Locale): string {
    Join(ReplaceSecond(Split(pathname, [Slash]), Tag(locale)), [Slash])
  }

  /** The pieces of the new path are the old ones with the second replaced
      by the locale; the others, and their number, are kept. */
  lemma LocalizedPathSegments(pathname: string, locale: Locale)
    ensures var old_ := Split(pathname, [Slash]);
      var new_ := Split(LocalizedPath(pathname, locale), [Slash]);
      |new_| == (if |old_| >= 2 then |old_| else 2) && new_[1] == Tag(locale) &&
      forall k :: 0 <= k < |old_| && k != 1 ==> new_[k] == old_[k]
  {
    var segments := ReplaceSecond(Split(pathname, [Slash]), Tag(locale));
    SplitPiecesAvoidSeparator(pathname, Slash);
    forall p | p in segments ensures Slash !in p {
      var k :| 0 <= k < |segments| && segments[k] == p;
    }
    SplitJoin(segments, Slash);
  }

  /** Choosing the same locale again stays on the same path. */
  lemma LocalizedPathIdempotent(pathname: string, locale: Locale)
    ensures LocalizedPath(LocalizedPath(pathname, locale), locale) == LocalizedPath(pathname, locale)
  {
    var segments := ReplaceSecond(Split(pathname, [Slash]), Tag(locale));
    LocalizedPathSegments(pathname, locale);
    var again := Split(LocalizedPath(pathname, locale), [Slash]);
    assert again == segments;
    assert ReplaceSecond(again, Tag(locale)) == segments;
  }

  lemma JoinThree(a: string, b: string, c: string)
    ensures Join([a, b, c], [Slash]) == a + [Slash] + b + [Slash] + c
  {
    assert [a, b, c][1..] == [b, c];
    assert [b, c][1..] == [c];
    assert Join([b, c], [Slash]) == b + [Slash] + c;
    assert a + [Slash] + (b + [Slash] + c) == a + [Slash] + b + [Slash] + c;
  }

  /** On a path `/<locale>/<page>` the locale segment is replaced and the
      page kept: `/en-US/help` becomes `/zh-CN/help`. */
  lemma SwitchLocaleSegment(current: string, page: string, locale: Locale)
    requires Slash !in current && Slash !in page
    ensures LocalizedPath([Slash] + current + [Slash] + page, locale) == [Slash] + Tag(locale) + [Slash] + page
  {
    var parts := ["", current, page];
    JoinThree("", current, page);
    assert Join(parts, [Slash]) == [Slash] + current + [Slash] + page;
    SplitJoin(parts, Slash);
    assert ReplaceSecond(parts, Tag(locale)) == ["", Tag(locale), page];
    JoinThree("", Tag(locale), page);
  }

  class Switcher {
    /** Whether the menu is open. */
    var isOpen: bool
    /** The current path, as `usePathname` gives it. */
    const pathname: string
    /** `localStorage`. */
    var storage: map<string, string>
    /** The paths `router.push` was called with, in order. */
    var pushed: seq<string>

    constructor (pathname: string, storage: map<string, string>)
      ensures !isOpen && this.pathname == pathname && this.storage == storage && pushed == []
    {
      isOpen := false;
      this.pathname := pathname;
      this.storage := storage;
      pushed := [];
    }

    /** `handleLanguageChange`: store the preference, build the new path
        from the pieces of the current one, navigate, close. */
    method HandleLanguageChange(newLocale: Locale)
      modifies this
      ensures storage == old(storage)[PreferredLocaleKey := Tag(newLocale)]
      ensures pushed == old(pushed) + [LocalizedPath(pathname, newLocale)]
      ensures !isOpen
    {
      storage := storage[PreferredLocaleKey := Tag(newLocale)];
      var segments := Split(pathname, [Slash]);
      if |segments| >= 2 {
        segments := segments[1 := Tag(newLocale)];
      } else {
        segments := segments + [Tag(newLocale)];
      }
      var newPath := Join(segments, [Slash]);
      pushed := pushed + [newPath];
      isOpen := false;
    }
  }
}

/**
 * The language store (src/stores/languageStore.ts): the available locales,
 * the validation of a requested locale, and the current language.
 */
module LanguageStore {
  import opened Wrappers

  /** `a` comes before or equals `b` in the default string order of `Array.prototype.sort`. */
  predicate NotAfter(a: string, b: string) {
    a == [] || (b != [] && (a[0] < b[0] || (a[0] == b[0] && NotAfter(a[1..], b[1..]))))
  }

  /** Any two strings are ordered one way or the other. */
  lemma {:induction false} NotAfterTotal(a: string, b: string)
    ensures NotAfter(a, b) || NotAfter(b, a)
  {
    if a != [] && b != [] && a[0] == b[0] {
      NotAfterTotal(a[1..], b[1..]);
    }
  }

  predicate Ascending(s: seq<string>) {
    forall i :: 0 <= i < |s| - 1 ==> NotAfter(s[i], s[i + 1])
  }

  /** `x` inserted into an ascending list. */
  function Insert(x: string, s: seq<string>): (r: seq<string>)
    requires Ascending(s)
    ensures Ascending(r) && multiset(r) == multiset(s) + multiset{x}
    ensures s != [] ==> r[0] == x || r[0] == s[0]
    ensures s == [] ==> r == [x]
  {
    if s == [] then [x]
    else if NotAfter(x, s[0]) then [x] + s
    else
      NotAfterTotal(x, s[0]);
      var t := Insert(x, s[1..]);
      assert s == [s[0]] + s[1..];
      [s[0]] + t
  }

  /** `sort()` with no comparator: ascending, and the same strings. */
  function Sort(s: seq<string>): (r: seq<string>)
    ensures Ascending(r) && multiset(r) == multiset(s)
  {
    if s == [] then []
    else
      assert s == [s[0]] + s[1..];
      Insert(s[0], Sort(s[1..]))
  }

  /** `locales` as declared, before the sort. */
  const Declared: seq<string> := ["en", "fr"]

  /** `locales` after the sort at load time. */
  const Locales: seq<string> := Sort(Declared)

  const DefaultLocale: string := "en"

  /** The sort leaves the declared list as it is: 'en' before 'fr'. */
  lemma LocalesOrder()
    ensures Locales == ["en", "fr"]
  {
    assert NotAfter("en", "fr") by {
      assert "en"[0] == 'e' && "fr"[0] == 'f';
    }
    assert Sort(["fr"]) == ["fr"] by {
      assert ["fr"][1..] == [];
    }
    assert Declared[1..] == ["fr"];
  }

  /** The default locale is one of the locales. */
  lemma DefaultIsLocale()
    ensures DefaultLocale in Locales
  {
    LocalesOrder();
  }

  /**
   * `getLocale`: a known locale is kept, anything else (including null or
   * undefined, here `None`) gives the default.
   */
  function GetLocale(local: Option<string>): (r: string)
    ensures r in Locales
    ensures local.Some? && local.value in Locales ==> r == local.value
    ensures (local.None? || local.value !in Locales) ==> r == DefaultLocale
  {
    DefaultIsLocale();
    if local.Some? && local.value in Locales then local.value else DefaultLocale
  }

  /** Validating a validated locale changes nothing. */
  lemma GetLocaleIdempotent(local: Option<string>)
    ensures GetLocale(Some(GetLocale(local))) == GetLocale(local)
  {
  }

  /** Only 'en' and 'fr' are kept; every other request gives 'en'. */
  lemma GetLocaleCases(local: string)
    ensures GetLocale(Some(local)) == (if local == "fr" then "fr" else "en")
  {
    LocalesOrder();
  }

  class LanguageStore {
    var currentLanguage: string

    ghost predicate Valid()
      reads this
    {
      currentLanguage in Locales
    }

    /** The initial state: the saved language (`None` when nothing is saved), validated. */
    constructor(saved: Option<string>)
      ensures Valid()
      ensures currentLanguage == GetLocale(saved)
    {
      currentLanguage := GetLocale(saved);
    }

    /** `setLanguage`: the validated language becomes current. */
    method SetLanguage(lang: string)
      modifies this
      ensures Valid()
      ensures currentLanguage == GetLocale(Some(lang))
      ensures lang in Locales ==> currentLanguage == lang
    {
      currentLanguage := GetLocale(Some(lang));
    }
  }
}

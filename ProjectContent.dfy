/**
 * `getProjectContent`: the long description of a work project, in English
 * or Turkish, looked up by slug in a constant table of four projects. The
 * texts themselves are a parameter; only which slug and which language are
 * chosen is modelled.
 */
module ProjectContent {
  import opened Options
  import opened JsStrings

  /** The UI locales. */
  datatype Locale = En | Tr

  /** The projects the table has an entry for. */
  datatype ProjectSlug = QaoaProject | MachineLearningWithIbm | HiKodWorkshops | Huaweict

  /** One entry of the table. */
  datatype Bilingual = Bilingual(en: string, tr: string)

  function SlugName(p: ProjectSlug): string {
    match p
    case QaoaProject => "qaoa-project"
    case MachineLearningWithIbm => "machine-learning-with-ibm"
    case HiKodWorkshops => "hi-kod-workshops"
    case Huaweict => "huaweict"
  }

  /** The table's key lookup: which project, if any, a slug names. */
  function ParseSlug(s: string): (r: Option<ProjectSlug>)
    ensures forall p :: SlugName(p) == s <==> r == Some(p)
  {
    if s == "qaoa-project" then Some(QaoaProject)
    else if s == "machine-learning-with-ibm" then Some(MachineLearningWithIbm)
    else if s == "hi-kod-workshops" then Some(HiKodWorkshops)
    else if s == "huaweict" then Some(Huaweict)
    else None
  }

  /** The text of a known project in the requested language. */
  function Localized(entry: Bilingual, locale: Locale): string {
    if locale == Tr then entry.tr else entry.en
  }

  /** The project description; "" for a slug the table does not have. */
  function GetProjectContent(slug: string, locale: Locale, texts: ProjectSlug -> Bilingual): (r: string)
    ensures (forall p :: SlugName(p) != slug) ==> r == ""
    ensures forall p :: SlugName(p) == slug ==> r == (if locale == Tr then texts(p).tr else texts(p).en)
  {
    match ParseSlug(slug)
    case None => ""
    case Some(p) => Localized(texts(p), locale)
  }

  /**
   * The names every plain JavaScript object inherits from `Object.prototype`.
   * Indexing the table with one of them finds the inherited member, not a
   * missing entry.
   */
  const InheritedKeys: set<string> := {
    "constructor", "__proto__", "toString", "toLocaleString", "valueOf", "hasOwnProperty",
    "isPrototypeOf", "propertyIsEnumerable", "__defineGetter__", "__defineSetter__",
    "__lookupGetter__", "__lookupSetter__" }

  /**
   * The lookup as written: for an inherited key the entry is a truthy
   * function or object, so the `!entry` guard lets it through and its `en`
   * or `tr` member is `undefined` (here `None`).
   */
  function GetProjectContentAsWritten(slug: string, locale: Locale, texts: ProjectSlug -> Bilingual): (r: Option<string>)
    ensures ParseSlug(slug).Some? ==> r.Some?
  {
    match ParseSlug(slug)
    case Some(p) => Some(Localized(texts(p), locale))
    case None => if slug in InheritedKeys then None else Some("")
  }

  /** No inherited key is a project slug, and for each of them the written lookup returns `undefined`. */
  lemma AsWrittenUndefinedOnInheritedKeys(slug: string, locale: Locale, texts: ProjectSlug -> Bilingual)
    requires slug in InheritedKeys
    ensures GetProjectContentAsWritten(slug, locale, texts) == None
    ensures GetProjectContent(slug, locale, texts) == ""
  {
    assert ParseSlug(slug) == None;
  }

  /** Everywhere else the corrected lookup returns what the written one returns. */
  lemma CorrectedAgreesElsewhere(slug: string, locale: Locale, texts: ProjectSlug -> Bilingual)
    requires slug !in InheritedKeys
    ensures GetProjectContentAsWritten(slug, locale, texts) == Some(GetProjectContent(slug, locale, texts))
  {
  }

  /** Callers that fall back with `|| content` see no difference between the two lookups. */
  lemma FallbackHidesUndefined(slug: string, locale: Locale, texts: ProjectSlug -> Bilingual, fallback: string)
    ensures Or(GetProjectContentAsWritten(slug, locale, texts), Some(fallback))
            == Or(Some(GetProjectContent(slug, locale, texts)), Some(fallback))
  {
    if slug in InheritedKeys {
      AsWrittenUndefinedOnInheritedKeys(slug, locale, texts);
    }
  }
}

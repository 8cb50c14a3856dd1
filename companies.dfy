/** The public company directory of app/companies/page.tsx: the search filter
    over the listed companies, the badge colours of work types and levels,
    and the "opening"/"openings" label. */
module CompanyDirectory {
  import opened Wrappers
  import JsString
  import Sequences
  import Validations

  /** A company as the directory lists it, with its count of active jobs. */
  datatype Listing = Listing(id: string, name: string, description: Option<string>, jobCount: int)

  /** The search condition: the lower-cased term occurs in the lower-cased
      name, or in the lower-cased description when there is one. */
  predicate Matches(term: string, c: Listing) {
    var t := JsString.ToLower(term);
    JsString.Includes(JsString.ToLower(c.name), t)
    || (c.description.Some? && JsString.Includes(JsString.ToLower(c.description.value), t))
  }

  /** `companies.filter(...)` with the search condition for `term`. */
  function FilterCompanies(companies: seq<Listing>, term: string): (r: seq<Listing>)
    ensures |r| <= |companies|
    ensures forall i :: 0 <= i < |r| ==> Matches(term, r[i])
  {
    Sequences.Filter(companies, c => Matches(term, c))
  }

  /** A company is listed exactly when it is among the companies and matches;
      the listing keeps the companies' order. */
  lemma FilterMembers(companies: seq<Listing>, term: string)
    ensures forall c :: c in FilterCompanies(companies, term) <==> c in companies && Matches(term, c)
    ensures Sequences.IsSubsequence(FilterCompanies(companies, term), companies)
  {
    forall c ensures c in FilterCompanies(companies, term) <==> c in companies && Matches(term, c) {
      Sequences.FilterMembers(companies, c => Matches(term, c), c);
    }
    Sequences.FilterKeepsOrder(companies, c => Matches(term, c));
  }

  /** The empty term lists every company. */
  lemma EmptyTermKeepsAll(companies: seq<Listing>)
    ensures FilterCompanies(companies, "") == companies
  {
    forall i | 0 <= i < |companies| ensures Matches("", companies[i]) {
      JsString.IncludesAt(JsString.ToLower(companies[i].name), "", 0);
    }
    Sequences.FilterAll(companies, c => Matches("", c));
  }

  lemma ToLowerIdempotent(s: string)
    ensures JsString.ToLower(JsString.ToLower(s)) == JsString.ToLower(s)
  {
  }

  /** The search ignores the case of ASCII letters in the term. */
  lemma SearchIgnoresCase(companies: seq<Listing>, term: string)
    ensures FilterCompanies(companies, term) == FilterCompanies(companies, JsString.ToLower(term))
  {
    ToLowerIdempotent(term);
    Sequences.FilterCongruent(companies, c => Matches(term, c), c => Matches(JsString.ToLower(term), c));
  }

  /** A company whose name contains the term, in any letter case, is listed. */
  lemma NameMatchListed(companies: seq<Listing>, term: string, k: nat)
    requires k < |companies|
    requires JsString.Includes(JsString.ToLower(companies[k].name), JsString.ToLower(term))
    ensures companies[k] in FilterCompanies(companies, term)
  {
    FilterMembers(companies, term);
  }

  // ---------------------------------------------------------------- badges

  const GrayBadge := "bg-gray-100 text-gray-800"

  /** `getWorkTypeColor` */
  function WorkTypeColor(workType: string): (cls: string)
    ensures cls == GrayBadge <==> workType !in {"remote", "hybrid", "on-site"}
  {
    match workType
    case "remote" => "bg-green-100 text-green-800"
    case "hybrid" => "bg-yellow-100 text-yellow-800"
    case "on-site" => "bg-blue-100 text-blue-800"
    case _ => GrayBadge
  }

  /** `getLevelColor` */
  function LevelColor(level: string): (cls: string)
    ensures cls == GrayBadge <==> level !in {"entry", "mid", "senior", "lead"}
  {
    match level
    case "entry" => "bg-green-100 text-green-800"
    case "mid" => "bg-blue-100 text-blue-800"
    case "senior" => "bg-purple-100 text-purple-800"
    case "lead" => "bg-orange-100 text-orange-800"
    case _ => GrayBadge
  }

  /** The three work types have three different colours, none of them gray. */
  lemma WorkTypeColorsDistinct(a: Validations.WorkType, b: Validations.WorkType)
    ensures WorkTypeColor(Validations.WorkTypeName(a)) != GrayBadge
    ensures a != b ==> WorkTypeColor(Validations.WorkTypeName(a)) != WorkTypeColor(Validations.WorkTypeName(b))
  {
  }

  /** The four levels have four different colours, none of them gray. */
  lemma LevelColorsDistinct(a: Validations.Level, b: Validations.Level)
    ensures LevelColor(Validations.LevelName(a)) != GrayBadge
    ensures a != b ==> LevelColor(Validations.LevelName(a)) != LevelColor(Validations.LevelName(b))
  {
  }

  // ---------------------------------------------------------------- label

  /** The word after the job count on a company card. */
  function OpeningsLabel(count: int): (word: string)
    ensures word == "opening" <==> count == 1
    ensures word == "openings" <==> count != 1
  {
    if count == 1 then "opening" else "openings"
  }

  /** The badge text: the count, a space and the label. */
  function OpeningsBadge(count: int): (text: string)
    ensures JsString.IsPrefix(JsString.IntText(count) + " ", text)
  {
    JsString.IntText(count) + " " + OpeningsLabel(count)
  }
}

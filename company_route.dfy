/** The admin company route of app/api/admin/company/route.ts over an
    in-memory store of companies.

    GET returns the first company (or `null`). POST validates the body with
    the company schema and creates a company, its `sections` defaulting to
    "[]". PATCH validates the body with a schema in which every field is
    optional, then updates the first company with the fields that are
    present; it answers 404 when there is no company, but only after the
    body has passed validation. A body that is not JSON (`None`) and a
    failing store both give 500; the store failure is a parameter. */
module CompanyRoute {
  import opened Wrappers
  import opened Validations

  /** A stored company. */
  datatype Company = Company(
    id: nat, name: string, slug: string, description: Option<string>,
    logoUrl: Option<string>, bannerUrl: Option<string>,
    primaryColor: string, secondaryColor: string, sections: string)

  /** The fields a PATCH body carries; `None` is an absent field. */
  datatype CompanyPatch = CompanyPatch(
    name: Option<string>, slug: Option<string>, description: Option<string>,
    logoUrl: Option<string>, bannerUrl: Option<string>,
    primaryColor: Option<string>, secondaryColor: Option<string>, sections: Option<string>)

  const EmptyPatch := CompanyPatch(None, None, None, None, None, None, None, None)

  /** What the route answers: a company as JSON (possibly `null`) with status
      200, or an error message with its status. */
  datatype ReplyBody = CompanyJson(company: Option<Company>) | ErrorJson(error: string)
  datatype Reply = Reply(status: int, body: ReplyBody)

  // ---------------------------------------------------------------- the PATCH schema

  /** `.optional()` on a field check: an absent field passes, a present one
      must pass the check. */
  function Optional(v: Option<Value>, check: Option<Value> -> Field<string>): (r: Field<Option<string>>)
    ensures r == Accepted(None) <==> v.None?
    ensures r.Accepted? <==> v.None? || check(v).Accepted?
    ensures r.Accepted? && v.Some? ==> r.value == Some(check(v).value)
  {
    if v.None? then Accepted(None)
    else match check(v)
      case Accepted(s) => Accepted(Some(s))
      case Rejected => Rejected
  }

  /** Each field of a PATCH body is absent or passes the rule it has on
      create. */
  predicate PatchFieldsAccepted(b: CompanyBody, isUrl: string -> bool) {
    && (b.name.None? || (b.name.value.VStr? && b.name.value.s != ""))
    && (b.slug.None? || (b.slug.value.VStr? && IsSlug(b.slug.value.s)))
    && (b.description.None? || b.description.value.VStr?)
    && (b.logoUrl.None? || (b.logoUrl.value.VStr? && (isUrl(b.logoUrl.value.s) || b.logoUrl.value.s == "")))
    && (b.bannerUrl.None? || (b.bannerUrl.value.VStr? && (isUrl(b.bannerUrl.value.s) || b.bannerUrl.value.s == "")))
    && (b.primaryColor.None? || (b.primaryColor.value.VStr? && IsHexColor(b.primaryColor.value.s)))
    && (b.secondaryColor.None? || (b.secondaryColor.value.VStr? && IsHexColor(b.secondaryColor.value.s)))
    && (b.sections.None? || b.sections.value.VStr?)
  }

  /** The patch carries exactly the fields the body has, with their values. */
  predicate CarriesPatch(b: CompanyBody, p: CompanyPatch) {
    && PresentValue(b.name, p.name) && PresentValue(b.slug, p.slug)
    && PresentValue(b.description, p.description)
    && PresentValue(b.logoUrl, p.logoUrl) && PresentValue(b.bannerUrl, p.bannerUrl)
    && PresentValue(b.primaryColor, p.primaryColor)
    && PresentValue(b.secondaryColor, p.secondaryColor)
    && PresentValue(b.sections, p.sections)
  }

  /** The names of the PATCH fields that fail, in schema order. */
  function PatchIssues(b: CompanyBody, isUrl: string -> bool): (issues: seq<string>)
    ensures issues == [] <==> PatchFieldsAccepted(b, isUrl)
    ensures forall f :: f in issues ==> f in CompanyFieldNames
  {
    IssueIf("name", Optional(b.name, RequiredText)) + IssueIf("slug", Optional(b.slug, Slug))
    + IssueIf("description", OptionalText(b.description))
    + IssueIf("logoUrl", OptionalUrl(b.logoUrl, isUrl)) + IssueIf("bannerUrl", OptionalUrl(b.bannerUrl, isUrl))
    + IssueIf("primaryColor", Optional(b.primaryColor, HexColor))
    + IssueIf("secondaryColor", Optional(b.secondaryColor, HexColor))
    + IssueIf("sections", OptionalText(b.sections))
  }

  /** The patch built from a body whose every field passes. */
  function AcceptedPatch(b: CompanyBody, isUrl: string -> bool): (p: CompanyPatch)
    requires PatchFieldsAccepted(b, isUrl)
    ensures CarriesPatch(b, p)
  {
    CompanyPatch(Optional(b.name, RequiredText).value, Optional(b.slug, Slug).value,
                 OptionalText(b.description).value, OptionalUrl(b.logoUrl, isUrl).value,
                 OptionalUrl(b.bannerUrl, isUrl).value, Optional(b.primaryColor, HexColor).value,
                 Optional(b.secondaryColor, HexColor).value, OptionalText(b.sections).value)
  }

  /** `partialCompanySchema.parse(body)`: each field is optional, and a
      present field obeys the same rule as on create. */
  function ValidatePatch(b: CompanyBody, isUrl: string -> bool): (r: Validated<CompanyPatch>)
    ensures r.Ok? <==> PatchFieldsAccepted(b, isUrl)
    ensures r.Ok? ==> CarriesPatch(b, r.value)
    ensures r.Invalid? ==> |r.issues| > 0 && forall f :: f in r.issues ==> f in CompanyFieldNames
  {
    var issues := PatchIssues(b, isUrl);
    if issues == [] then Ok(AcceptedPatch(b, isUrl)) else Invalid(issues)
  }

  /** Every body the create schema accepts, the PATCH schema accepts too. */
  lemma CreateBodyIsValidPatch(b: CompanyBody, isUrl: string -> bool)
    requires ValidateCompany(b, isUrl).Ok?
    ensures ValidatePatch(b, isUrl).Ok?
  {
  }

  /** The empty body is a valid PATCH that carries no field. */
  lemma EmptyBodyIsEmptyPatch(isUrl: string -> bool)
    ensures ValidatePatch(CompanyBody(None, None, None, None, None, None, None, None), isUrl) == Ok(EmptyPatch)
  {
  }

  // ---------------------------------------------------------------- records

  /** The rules the create schema puts on a company's required fields. */
  predicate WellFormed(c: Company) {
    c.name != "" && IsSlug(c.slug) && IsHexColor(c.primaryColor) && IsHexColor(c.secondaryColor)
  }

  /** The fields of a stored company that the create schema validates. */
  function InputOf(c: Company): CompanyInput {
    CompanyInput(c.name, c.slug, c.description, c.logoUrl, c.bannerUrl,
                 c.primaryColor, c.secondaryColor, c.sections)
  }

  /** The company `prisma.company.create` stores for validated input: the
      input under the new id, nothing added and nothing dropped. */
  function Created(id: nat, input: CompanyInput): (c: Company)
    ensures c.id == id && InputOf(c) == input
  {
    Company(id, input.name, input.slug, input.description, input.logoUrl, input.bannerUrl,
            input.primaryColor, input.secondaryColor, input.sections)
  }

  /** A company created from an accepted body obeys the schema's rules, and
      without `sections` in the body it stores "[]". */
  lemma CreatedWellFormed(id: nat, b: CompanyBody, isUrl: string -> bool)
    requires ValidateCompany(b, isUrl).Ok?
    ensures WellFormed(Created(id, ValidateCompany(b, isUrl).value))
    ensures b.sections.None? ==> Created(id, ValidateCompany(b, isUrl).value).sections == "[]"
  {
  }

  /** One field after an update: the sent value if present, else the stored one. */
  function Patched<T>(sent: Option<T>, stored: T): (r: T)
    ensures sent.None? ==> r == stored
    ensures sent.Some? ==> r == sent.value
  {
    if sent.Some? then sent.value else stored
  }

  /** One nullable field after an update: present values replace it. */
  function PatchedOptional<T>(sent: Option<T>, stored: Option<T>): (r: Option<T>)
    ensures sent.None? ==> r == stored
    ensures sent.Some? ==> r == sent
  {
    if sent.Some? then sent else stored
  }

  /** The stored company after `prisma.company.update` with the PATCH data:
      present fields replace the stored ones, absent fields keep them, and
      `sections` is only written when it is a non-empty string. */
  function Apply(c: Company, p: CompanyPatch): (u: Company)
    ensures u.id == c.id
    ensures p.sections.None? || p.sections.value == "" ==> u.sections == c.sections
    ensures p.sections.Some? && p.sections.value != "" ==> u.sections == p.sections.value
    ensures p.name.None? ==> u.name == c.name
    ensures p.name.Some? ==> u.name == p.name.value
    ensures p.slug.None? ==> u.slug == c.slug
    ensures p.slug.Some? ==> u.slug == p.slug.value
    ensures p.description.None? ==> u.description == c.description
    ensures p.description.Some? ==> u.description == p.description
    ensures p.logoUrl.None? ==> u.logoUrl == c.logoUrl
    ensures p.logoUrl.Some? ==> u.logoUrl == p.logoUrl
    ensures p.bannerUrl.None? ==> u.bannerUrl == c.bannerUrl
    ensures p.bannerUrl.Some? ==> u.bannerUrl == p.bannerUrl
    ensures p.primaryColor.None? ==> u.primaryColor == c.primaryColor
    ensures p.primaryColor.Some? ==> u.primaryColor == p.primaryColor.value
    ensures p.secondaryColor.None? ==> u.secondaryColor == c.secondaryColor
    ensures p.secondaryColor.Some? ==> u.secondaryColor == p.secondaryColor.value
  {
    Company(c.id, Patched(p.name, c.name), Patched(p.slug, c.slug),
            PatchedOptional(p.description, c.description),
            PatchedOptional(p.logoUrl, c.logoUrl), PatchedOptional(p.bannerUrl, c.bannerUrl),
            Patched(p.primaryColor, c.primaryColor), Patched(p.secondaryColor, c.secondaryColor),
            if p.sections.Some? && p.sections.value != "" then p.sections.value else c.sections)
  }

  /** A patch without fields changes nothing. */
  lemma ApplyEmptyPatch(c: Company)
    ensures Apply(c, EmptyPatch) == c
  {
  }

  /** Sending the same patch twice has the effect of sending it once. */
  lemma ApplyIdempotent(c: Company, p: CompanyPatch)
    ensures Apply(Apply(c, p), p) == Apply(c, p)
  {
  }

  /** A patch the schema accepts keeps a well-formed company well formed. */
  lemma ApplyPreservesWellFormed(c: Company, b: CompanyBody, isUrl: string -> bool)
    requires WellFormed(c) && ValidatePatch(b, isUrl).Ok?
    ensures WellFormed(Apply(c, ValidatePatch(b, isUrl).value))
  {
  }

  // ---------------------------------------------------------------- the store

  /** The company table, in the order `findFirst` sees it. */
  class CompanyStore {
    var companies: seq<Company>
    var nextId: nat

    /** Every company obeys the schema's rules, ids increase along the
        table, and the next id is above all of them. */
    ghost predicate Valid()
      reads this
    {
      && (forall i :: 0 <= i < |companies| ==> WellFormed(companies[i]) && companies[i].id < nextId)
      && (forall i, j :: 0 <= i < j < |companies| ==> companies[i].id < companies[j].id)
    }

    constructor ()
      ensures companies == [] && nextId == 0 && Valid()
    {
      companies := [];
      nextId := 0;
    }

    /** `prisma.company.findFirst()` */
    function First(): (r: Option<Company>)
      reads this
      ensures r.None? <==> companies == []
      ensures r.Some? ==> r.value == companies[0]
    {
      if companies == [] then None else Some(companies[0])
    }

    /** GET: the first company, or `null`; a failing store gives 500. */
    method Get(fails: bool) returns (reply: Reply)
      ensures fails ==> reply == Reply(500, ErrorJson("Failed to fetch company"))
      ensures !fails ==> reply == Reply(200, CompanyJson(First()))
    {
      if fails {
        return Reply(500, ErrorJson("Failed to fetch company"));
      }
      reply := Reply(200, CompanyJson(First()));
    }

    /** POST: 500 for a body that is not JSON, 400 for one the company
        schema rejects, 500 when the store fails; otherwise the new company,
        appended with the next id. */
    method Post(body: Option<CompanyBody>, isUrl: string -> bool, fails: bool) returns (reply: Reply)
      requires Valid()
      modifies this
      ensures Valid()
      ensures body.None? ==> reply == Reply(500, ErrorJson("Failed to create company")) && unchanged(this)
      ensures body.Some? && ValidateCompany(body.value, isUrl).Invalid? ==>
        reply == Reply(400, ErrorJson("Validation failed")) && unchanged(this)
      ensures body.Some? && ValidateCompany(body.value, isUrl).Ok? && fails ==>
        reply == Reply(500, ErrorJson("Failed to create company")) && unchanged(this)
      ensures body.Some? && ValidateCompany(body.value, isUrl).Ok? && !fails ==>
        var created := Created(old(nextId), ValidateCompany(body.value, isUrl).value);
        && companies == old(companies) + [created]
        && nextId == old(nextId) + 1
        && reply == Reply(200, CompanyJson(Some(created)))
    {
      if body.None? {
        return Reply(500, ErrorJson("Failed to create company"));
      }
      var validated := ValidateCompany(body.value, isUrl);
      if validated.Invalid? {
        return Reply(400, ErrorJson("Validation failed"));
      }
      if fails {
        return Reply(500, ErrorJson("Failed to create company"));
      }
      var created := Created(nextId, validated.value);
      CreatedWellFormed(nextId, body.value, isUrl);
      companies := companies + [created];
      nextId := nextId + 1;
      reply := Reply(200, CompanyJson(Some(created)));
    }

    /** PATCH: 500 for a body that is not JSON, 400 for one the PATCH schema
        rejects (whether or not a company exists), 404 without a company,
        500 when the store fails; otherwise the first company with the
        patch applied, the others untouched. */
    method Patch(body: Option<CompanyBody>, isUrl: string -> bool, fails: bool) returns (reply: Reply)
      requires Valid()
      modifies this`companies
      ensures Valid()
      ensures body.None? ==> reply == Reply(500, ErrorJson("Failed to update company")) && companies == old(companies)
      ensures body.Some? && ValidatePatch(body.value, isUrl).Invalid? ==>
        reply == Reply(400, ErrorJson("Validation failed")) && companies == old(companies)
      ensures body.Some? && ValidatePatch(body.value, isUrl).Ok? && old(companies) == [] ==>
        reply == Reply(404, ErrorJson("Company not found")) && companies == old(companies)
      ensures body.Some? && ValidatePatch(body.value, isUrl).Ok? && old(companies) != [] && fails ==>
        reply == Reply(500, ErrorJson("Failed to update company")) && companies == old(companies)
      ensures body.Some? && ValidatePatch(body.value, isUrl).Ok? && old(companies) != [] && !fails ==>
        var updated := Apply(old(companies)[0], ValidatePatch(body.value, isUrl).value);
        && companies == old(companies)[0 := updated]
        && reply == Reply(200, CompanyJson(Some(updated)))
    {
      if body.None? {
        return Reply(500, ErrorJson("Failed to update company"));
      }
      var validated := ValidatePatch(body.value, isUrl);
      if validated.Invalid? {
        return Reply(400, ErrorJson("Validation failed"));
      }
      var first := First();
      if first.None? {
        return Reply(404, ErrorJson("Company not found"));
      }
      if fails {
        return Reply(500, ErrorJson("Failed to update company"));
      }
      var updated := Apply(first.value, validated.value);
      ApplyPreservesWellFormed(first.value, body.value, isUrl);
      companies := companies[0 := updated];
      reply := Reply(200, CompanyJson(Some(updated)));
    }
  }

  /** Validation comes first: a body the PATCH schema rejects gets 400 even
      from an empty store. */
  method PatchEmptyStore(body: CompanyBody, isUrl: string -> bool) returns (reply: Reply)
    requires ValidatePatch(body, isUrl).Invalid?
    ensures reply.status == 400
  {
    var store := new CompanyStore();
    reply := store.Patch(Some(body), isUrl, false);
  }
}

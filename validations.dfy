/** The request-body schemas of lib/validations.ts: a company, a job and an
    application. A body is checked field by field; every field either yields
    its value (or its default, when the field is absent) or is reported as
    an issue. A job has one more rule across two fields, on salaries. */
module Validations {
  import opened Wrappers

  /** A JSON value as it arrives in a request body. `VOther` is an array or
      an object. A field missing from the body is `None`. */
  datatype Value = VStr(s: string) | VNum(n: real) | VBool(b: bool) | VNull | VOther

  datatype WorkType = OnSite | Remote | Hybrid
  datatype Level = Entry | Mid | Senior | Lead

  /** The outcome of checking one field. */
  datatype Field<T> = Accepted(value: T) | Rejected

  /** The outcome of checking a whole body: the validated record, or the
      names of the offending fields. */
  datatype Validated<T> = Ok(value: T) | Invalid(issues: seq<string>)

  // ---------------------------------------------------------------- formats

  predicate IsSlugChar(c: char) {
    'a' <= c <= 'z' || '0' <= c <= '9' || c == '-'
  }

  /** `/^[a-z0-9-]+$/` */
  predicate IsSlug(s: string) {
    |s| >= 1 && forall i :: 0 <= i < |s| ==> IsSlugChar(s[i])
  }

  predicate IsHexDigit(c: char) {
    '0' <= c <= '9' || 'a' <= c <= 'f' || 'A' <= c <= 'F'
  }

  /** `/^#[0-9A-Fa-f]{6}$/` */
  predicate IsHexColor(s: string) {
    |s| == 7 && s[0] == '#' && forall i :: 1 <= i < 7 ==> IsHexDigit(s[i])
  }

  function WorkTypeName(w: WorkType): string {
    match w
    case OnSite => "on-site"
    case Remote => "remote"
    case Hybrid => "hybrid"
  }

  function LevelName(l: Level): string {
    match l
    case Entry => "entry"
    case Mid => "mid"
    case Senior => "senior"
    case Lead => "lead"
  }

  /** `z.enum(['on-site', 'remote', 'hybrid'])` on a string. */
  function ParseWorkType(s: string): (w: Option<WorkType>)
    ensures w.Some? ==> WorkTypeName(w.value) == s
    ensures s in {"on-site", "remote", "hybrid"} <==> w.Some?
  {
    if s == "on-site" then Some(OnSite)
    else if s == "remote" then Some(Remote)
    else if s == "hybrid" then Some(Hybrid)
    else None
  }

  /** `z.enum(['entry', 'mid', 'senior', 'lead'])` on a string. */
  function ParseLevel(s: string): (l: Option<Level>)
    ensures l.Some? ==> LevelName(l.value) == s
    ensures s in {"entry", "mid", "senior", "lead"} <==> l.Some?
  {
    if s == "entry" then Some(Entry)
    else if s == "mid" then Some(Mid)
    else if s == "senior" then Some(Senior)
    else if s == "lead" then Some(Lead)
    else None
  }

  lemma WorkTypeNamesParse(w: WorkType)
    ensures ParseWorkType(WorkTypeName(w)) == Some(w)
  {
  }

  lemma LevelNamesParse(l: Level)
    ensures ParseLevel(LevelName(l)) == Some(l)
  {
  }

  // ---------------------------------------------------------------- field checks

  /** `z.string().min(1)` */
  function RequiredText(v: Option<Value>): (r: Field<string>)
    ensures r.Accepted? <==> v.Some? && v.value.VStr? && v.value.s != ""
    ensures r.Accepted? ==> v == Some(VStr(r.value))
  {
    match v
    case Some(VStr(s)) => if |s| >= 1 then Accepted(s) else Rejected
    case _ => Rejected
  }

  /** `z.string().min(1).regex(/^[a-z0-9-]+$/)` */
  function Slug(v: Option<Value>): (r: Field<string>)
    ensures r.Accepted? <==> v.Some? && v.value.VStr? && IsSlug(v.value.s)
    ensures r.Accepted? ==> v == Some(VStr(r.value))
  {
    match v
    case Some(VStr(s)) => if |s| >= 1 && IsSlug(s) then Accepted(s) else Rejected
    case _ => Rejected
  }

  /** `z.string().regex(/^#[0-9A-Fa-f]{6}$/)` */
  function HexColor(v: Option<Value>): (r: Field<string>)
    ensures r.Accepted? <==> v.Some? && v.value.VStr? && IsHexColor(v.value.s)
    ensures r.Accepted? ==> v == Some(VStr(r.value))
  {
    match v
    case Some(VStr(s)) => if IsHexColor(s) then Accepted(s) else Rejected
    case _ => Rejected
  }

  /** `z.string().optional()` */
  function OptionalText(v: Option<Value>): (r: Field<Option<string>>)
    ensures r.Accepted? <==> v.None? || v.value.VStr?
    ensures r == Accepted(None) <==> v.None?
    ensures r.Accepted? && v.Some? ==> r.value == Some(v.value.s)
  {
    match v
    case None => Accepted(None)
    case Some(VStr(s)) => Accepted(Some(s))
    case _ => Rejected
  }

  /** `z.string().url().optional().or(z.literal(''))`: absent, a URL, or the
      empty string. What counts as a URL is decided by `isUrl`. */
  function OptionalUrl(v: Option<Value>, isUrl: string -> bool): (r: Field<Option<string>>)
    ensures r.Accepted? <==> v.None? || (v.value.VStr? && (isUrl(v.value.s) || v.value.s == ""))
    ensures r == Accepted(None) <==> v.None?
    ensures r.Accepted? && v.Some? ==> r.value == Some(v.value.s)
  {
    match v
    case None => Accepted(None)
    case Some(VStr(s)) => if isUrl(s) || s == "" then Accepted(Some(s)) else Rejected
    case _ => Rejected
  }

  /** `z.string().default(d)` (also `z.string().optional().default(d)`). */
  function TextOr(v: Option<Value>, d: string): (r: Field<string>)
    ensures r.Accepted? <==> v.None? || v.value.VStr?
    ensures v.None? ==> r == Accepted(d)
    ensures r.Accepted? && v.Some? ==> v == Some(VStr(r.value))
  {
    match v
    case None => Accepted(d)
    case Some(VStr(s)) => Accepted(s)
    case _ => Rejected
  }

  /** `z.enum(['on-site', 'remote', 'hybrid'])` */
  function RequiredWorkType(v: Option<Value>): (r: Field<WorkType>)
    ensures r.Accepted? <==> v.Some? && v.value.VStr? && v.value.s in {"on-site", "remote", "hybrid"}
    ensures r.Accepted? ==> v == Some(VStr(WorkTypeName(r.value)))
  {
    match v
    case Some(VStr(s)) => (match ParseWorkType(s) case Some(w) => Accepted(w) case None => Rejected)
    case _ => Rejected
  }

  /** `z.enum(['entry', 'mid', 'senior', 'lead']).optional()` */
  function OptionalLevel(v: Option<Value>): (r: Field<Option<Level>>)
    ensures r.Accepted? <==> v.None? || (v.value.VStr? && v.value.s in {"entry", "mid", "senior", "lead"})
    ensures r == Accepted(None) <==> v.None?
    ensures r.Accepted? && v.Some? ==> r.value.Some? && v == Some(VStr(LevelName(r.value.value)))
  {
    match v
    case None => Accepted(None)
    case Some(VStr(s)) => (match ParseLevel(s) case Some(l) => Accepted(Some(l)) case None => Rejected)
    case _ => Rejected
  }

  predicate IsWholeNumber(n: real) {
    n.Floor as real == n
  }

  /** `z.number().int().min(0).optional()` */
  function OptionalCount(v: Option<Value>): (r: Field<Option<nat>>)
    ensures r.Accepted? <==> v.None? || (v.value.VNum? && IsWholeNumber(v.value.n) && v.value.n >= 0.0)
    ensures r == Accepted(None) <==> v.None?
    ensures r.Accepted? && v.Some? ==> r.value.Some? && v == Some(VNum(r.value.value as real))
  {
    match v
    case None => Accepted(None)
    case Some(VNum(n)) => if IsWholeNumber(n) && n >= 0.0 then Accepted(Some(n.Floor)) else Rejected
    case _ => Rejected
  }

  /** `z.boolean().default(d)` */
  function FlagOr(v: Option<Value>, d: bool): (r: Field<bool>)
    ensures r.Accepted? <==> v.None? || v.value.VBool?
    ensures v.None? ==> r == Accepted(d)
    ensures r.Accepted? && v.Some? ==> v == Some(VBool(r.value))
  {
    match v
    case None => Accepted(d)
    case Some(VBool(b)) => Accepted(b)
    case _ => Rejected
  }

  /** `z.string().email()`; what counts as an address is decided by `isEmail`. */
  function Email(v: Option<Value>, isEmail: string -> bool): (r: Field<string>)
    ensures r.Accepted? <==> v.Some? && v.value.VStr? && isEmail(v.value.s)
    ensures r.Accepted? ==> v == Some(VStr(r.value))
  {
    match v
    case Some(VStr(s)) => if isEmail(s) then Accepted(s) else Rejected
    case _ => Rejected
  }

  /** The name of the field, when its check rejected it. */
  function IssueIf<T>(name: string, f: Field<T>): (r: seq<string>)
    ensures r == [] <==> f.Accepted?
    ensures f.Rejected? ==> r == [name]
  {
    if f.Rejected? then [name] else []
  }

  /** An optional string field's value is the body's string when the field
      is present and absent when it is. */
  predicate PresentValue(v: Option<Value>, s: Option<string>) {
    (s.None? <==> v.None?) && (s.Some? ==> v == Some(VStr(s.value)))
  }

  // ---------------------------------------------------------------- company

  datatype CompanyBody = CompanyBody(
    name: Option<Value>, slug: Option<Value>, description: Option<Value>,
    logoUrl: Option<Value>, bannerUrl: Option<Value>,
    primaryColor: Option<Value>, secondaryColor: Option<Value>, sections: Option<Value>)

  datatype CompanyInput = CompanyInput(
    name: string, slug: string, description: Option<string>,
    logoUrl: Option<string>, bannerUrl: Option<string>,
    primaryColor: string, secondaryColor: string, sections: string)

  const CompanyFieldNames: seq<string> :=
    ["name", "slug", "description", "logoUrl", "bannerUrl", "primaryColor", "secondaryColor", "sections"]

  /** `companySchema.parse(body)`. */
  function ValidateCompany(b: CompanyBody, isUrl: string -> bool): (r: Validated<CompanyInput>)
    ensures r.Ok? <==>
      && b.name.Some? && b.name.value.VStr? && b.name.value.s != ""
      && b.slug.Some? && b.slug.value.VStr? && IsSlug(b.slug.value.s)
      && (b.description.None? || b.description.value.VStr?)
      && (b.logoUrl.None? || (b.logoUrl.value.VStr? && (isUrl(b.logoUrl.value.s) || b.logoUrl.value.s == "")))
      && (b.bannerUrl.None? || (b.bannerUrl.value.VStr? && (isUrl(b.bannerUrl.value.s) || b.bannerUrl.value.s == "")))
      && b.primaryColor.Some? && b.primaryColor.value.VStr? && IsHexColor(b.primaryColor.value.s)
      && b.secondaryColor.Some? && b.secondaryColor.value.VStr? && IsHexColor(b.secondaryColor.value.s)
      && (b.sections.None? || b.sections.value.VStr?)
    ensures r.Ok? ==>
      && b.name == Some(VStr(r.value.name)) && b.slug == Some(VStr(r.value.slug))
      && b.primaryColor == Some(VStr(r.value.primaryColor))
      && b.secondaryColor == Some(VStr(r.value.secondaryColor))
      && PresentValue(b.description, r.value.description)
      && PresentValue(b.logoUrl, r.value.logoUrl) && PresentValue(b.bannerUrl, r.value.bannerUrl)
      && (b.sections.None? ==> r.value.sections == "[]")
      && (b.sections.Some? ==> b.sections == Some(VStr(r.value.sections)))
    ensures r.Invalid? ==> |r.issues| > 0 && forall f :: f in r.issues ==> f in CompanyFieldNames
  {
    var name := RequiredText(b.name);
    var slug := Slug(b.slug);
    var description := OptionalText(b.description);
    var logoUrl := OptionalUrl(b.logoUrl, isUrl);
    var bannerUrl := OptionalUrl(b.bannerUrl, isUrl);
    var primary := HexColor(b.primaryColor);
    var secondary := HexColor(b.secondaryColor);
    var sections := TextOr(b.sections, "[]");
    var issues :=
      IssueIf("name", name) + IssueIf("slug", slug) + IssueIf("description", description)
      + IssueIf("logoUrl", logoUrl) + IssueIf("bannerUrl", bannerUrl)
      + IssueIf("primaryColor", primary) + IssueIf("secondaryColor", secondary)
      + IssueIf("sections", sections);
    if issues == [] then
      Ok(CompanyInput(name.value, slug.value, description.value, logoUrl.value, bannerUrl.value,
                      primary.value, secondary.value, sections.value))
    else Invalid(issues)
  }

  // ---------------------------------------------------------------- job

  datatype JobBody = JobBody(
    title: Option<Value>, location: Option<Value>, department: Option<Value>,
    workType: Option<Value>, level: Option<Value>,
    salaryMin: Option<Value>, salaryMax: Option<Value>, currency: Option<Value>,
    description: Option<Value>, requirements: Option<Value>, tags: Option<Value>,
    isActive: Option<Value>)

  datatype JobInput = JobInput(
    title: string, location: string, department: Option<string>,
    workType: WorkType, level: Option<Level>,
    salaryMin: Option<nat>, salaryMax: Option<nat>, currency: string,
    description: string, requirements: string, tags: string, isActive: bool)

  /** The `refine` on the job schema: when both salaries are truthy (present
      and not 0), the minimum may not exceed the maximum. */
  predicate SalaryRangeHolds(salaryMin: Option<nat>, salaryMax: Option<nat>) {
    if salaryMin.GetOr(0) != 0 && salaryMax.GetOr(0) != 0 then salaryMin.value <= salaryMax.value else true
  }

  /** The cross-field rule rejects exactly when both salaries are present and
      nonzero and the minimum is the larger. */
  lemma SalaryRuleRejects(salaryMin: Option<nat>, salaryMax: Option<nat>)
    ensures !SalaryRangeHolds(salaryMin, salaryMax) <==>
      (salaryMin.Some? && salaryMax.Some? && salaryMin.value != 0 && salaryMax.value != 0
       && salaryMin.value > salaryMax.value)
  {
  }

  /** Zod 3 gives up on the whole object, and so never runs the `refine`,
      when some field fails with a wrong type or a value outside its enum (a
      missing required field counts as a wrong type). A failed `min`, `int`
      or `regex` check only marks the parse dirty, and the `refine` still
      runs. */
  predicate JobParseAborts(b: JobBody) {
    || !(b.title.Some? && b.title.value.VStr?)
    || !(b.location.Some? && b.location.value.VStr?)
    || !(b.department.None? || b.department.value.VStr?)
    || RequiredWorkType(b.workType).Rejected?
    || OptionalLevel(b.level).Rejected?
    || !(b.salaryMin.None? || b.salaryMin.value.VNum?)
    || !(b.salaryMax.None? || b.salaryMax.value.VNum?)
    || !(b.currency.None? || b.currency.value.VStr?)
    || !(b.description.Some? && b.description.value.VStr?)
    || !(b.requirements.None? || b.requirements.value.VStr?)
    || !(b.tags.None? || b.tags.value.VStr?)
    || !(b.isActive.None? || b.isActive.value.VBool?)
  }

  /** The `refine`'s test on the numbers as parsed (a fraction or a negative
      number still reaches it): it fails when both are truthy, that is
      present and nonzero, and the minimum is the larger. */
  predicate SalaryRefineFails(salaryMin: Option<Value>, salaryMax: Option<Value>) {
    && salaryMin.Some? && salaryMin.value.VNum? && salaryMax.Some? && salaryMax.value.VNum?
    && salaryMin.value.n != 0.0 && salaryMax.value.n != 0.0
    && salaryMin.value.n > salaryMax.value.n
  }

  const JobFieldNames: seq<string> :=
    ["title", "location", "department", "workType", "level", "salaryMin", "salaryMax",
     "currency", "description", "requirements", "tags", "isActive"]

  /** Every field of a job body passes its own check. */
  predicate JobFieldsAccepted(b: JobBody) {
    && RequiredText(b.title).Accepted? && RequiredText(b.location).Accepted?
    && OptionalText(b.department).Accepted? && RequiredWorkType(b.workType).Accepted?
    && OptionalLevel(b.level).Accepted? && OptionalCount(b.salaryMin).Accepted?
    && OptionalCount(b.salaryMax).Accepted? && TextOr(b.currency, "USD").Accepted?
    && RequiredText(b.description).Accepted? && TextOr(b.requirements, "[]").Accepted?
    && TextOr(b.tags, "[]").Accepted? && FlagOr(b.isActive, true).Accepted?
  }

  /** The validated job `j` carries the body's values: each required field
      as sent, each optional field present exactly when sent and then as
      sent, each defaulted field as sent or else its default. */
  predicate CarriesJob(b: JobBody, j: JobInput) {
    && b.title == Some(VStr(j.title)) && j.title != ""
    && b.location == Some(VStr(j.location)) && j.location != ""
    && b.description == Some(VStr(j.description)) && j.description != ""
    && b.workType == Some(VStr(WorkTypeName(j.workType)))
    && PresentValue(b.department, j.department)
    && (b.level.None? <==> j.level.None?)
    && (j.level.Some? ==> b.level == Some(VStr(LevelName(j.level.value))))
    && (b.salaryMin.None? <==> j.salaryMin.None?)
    && (j.salaryMin.Some? ==> b.salaryMin == Some(VNum(j.salaryMin.value as real)))
    && (b.salaryMax.None? <==> j.salaryMax.None?)
    && (j.salaryMax.Some? ==> b.salaryMax == Some(VNum(j.salaryMax.value as real)))
    && (b.currency.None? ==> j.currency == "USD")
    && (b.currency.Some? ==> b.currency == Some(VStr(j.currency)))
    && (b.requirements.None? ==> j.requirements == "[]")
    && (b.requirements.Some? ==> b.requirements == Some(VStr(j.requirements)))
    && (b.tags.None? ==> j.tags == "[]")
    && (b.tags.Some? ==> b.tags == Some(VStr(j.tags)))
    && (b.isActive.None? ==> j.isActive)
    && (b.isActive.Some? ==> b.isActive == Some(VBool(j.isActive)))
  }

  /** The names of the fields whose own check fails, in schema order. */
  function JobFieldIssues(b: JobBody): (issues: seq<string>)
    ensures issues == [] <==> JobFieldsAccepted(b)
    ensures forall f :: f in issues ==> f in JobFieldNames
    ensures "salaryMin" in issues <==> OptionalCount(b.salaryMin).Rejected?
  {
    IssuesBeforeSalary(b) + IssueIf("salaryMin", OptionalCount(b.salaryMin)) + IssuesAfterSalary(b)
  }

  /** The issues of the fields in front of `salaryMin`. */
  function IssuesBeforeSalary(b: JobBody): (issues: seq<string>)
    ensures issues == [] <==>
      && RequiredText(b.title).Accepted? && RequiredText(b.location).Accepted?
      && OptionalText(b.department).Accepted? && RequiredWorkType(b.workType).Accepted?
      && OptionalLevel(b.level).Accepted?
    ensures forall f :: f in issues ==> f in JobFieldNames && f != "salaryMin"
  {
    IssueIf("title", RequiredText(b.title)) + IssueIf("location", RequiredText(b.location))
    + IssueIf("department", OptionalText(b.department))
    + IssueIf("workType", RequiredWorkType(b.workType)) + IssueIf("level", OptionalLevel(b.level))
  }

  /** The issues of the fields behind `salaryMin`. */
  function IssuesAfterSalary(b: JobBody): (issues: seq<string>)
    ensures issues == [] <==>
      && OptionalCount(b.salaryMax).Accepted? && TextOr(b.currency, "USD").Accepted?
      && RequiredText(b.description).Accepted? && TextOr(b.requirements, "[]").Accepted?
      && TextOr(b.tags, "[]").Accepted? && FlagOr(b.isActive, true).Accepted?
    ensures forall f :: f in issues ==> f in JobFieldNames && f != "salaryMin"
  {
    IssueIf("salaryMax", OptionalCount(b.salaryMax))
    + IssueIf("currency", TextOr(b.currency, "USD")) + IssueIf("description", RequiredText(b.description))
    + IssueIf("requirements", TextOr(b.requirements, "[]")) + IssueIf("tags", TextOr(b.tags, "[]"))
    + IssueIf("isActive", FlagOr(b.isActive, true))
  }

  /** The record built from a body whose every field passes. */
  function AcceptedJob(b: JobBody): (j: JobInput)
    requires JobFieldsAccepted(b)
    ensures CarriesJob(b, j)
    ensures j.salaryMin == OptionalCount(b.salaryMin).value
    ensures j.salaryMax == OptionalCount(b.salaryMax).value
  {
    JobInput(RequiredText(b.title).value, RequiredText(b.location).value, OptionalText(b.department).value,
             RequiredWorkType(b.workType).value, OptionalLevel(b.level).value,
             OptionalCount(b.salaryMin).value, OptionalCount(b.salaryMax).value,
             TextOr(b.currency, "USD").value, RequiredText(b.description).value,
             TextOr(b.requirements, "[]").value, TextOr(b.tags, "[]").value, FlagOr(b.isActive, true).value)
  }

  /** `jobSchema.parse(body)`: the field checks, then, unless the parse was
      abandoned, the salary rule, which reports its issue on `salaryMin`. */
  function ValidateJob(b: JobBody): (r: Validated<JobInput>)
    ensures r.Ok? <==>
      JobFieldsAccepted(b)
      && SalaryRangeHolds(OptionalCount(b.salaryMin).value, OptionalCount(b.salaryMax).value)
    ensures r.Ok? ==> CarriesJob(b, r.value) && SalaryRangeHolds(r.value.salaryMin, r.value.salaryMax)
    ensures r.Invalid? ==> |r.issues| > 0 && forall f :: f in r.issues ==> f in JobFieldNames
    ensures !JobParseAborts(b) && SalaryRefineFails(b.salaryMin, b.salaryMax) ==>
      r.Invalid? && r.issues[|r.issues| - 1] == "salaryMin"
    ensures r.Invalid? && "salaryMin" in r.issues ==>
      OptionalCount(b.salaryMin).Rejected? || (!JobParseAborts(b) && SalaryRefineFails(b.salaryMin, b.salaryMax))
  {
    var fieldIssues := JobFieldIssues(b);
    var rangeIssues :=
      if !JobParseAborts(b) && SalaryRefineFails(b.salaryMin, b.salaryMax) then ["salaryMin"] else [];
    if fieldIssues != [] then Invalid(fieldIssues + rangeIssues)
    else
      AcceptedFieldsReachRule(b);
      if rangeIssues != [] then Invalid(rangeIssues)
      else Ok(AcceptedJob(b))
  }

  /** When every field is valid the parse reaches the salary rule, and the
      rule on the parsed numbers is the rule on the validated salaries. */
  lemma AcceptedFieldsReachRule(b: JobBody)
    requires JobFieldsAccepted(b)
    ensures !JobParseAborts(b)
    ensures SalaryRefineFails(b.salaryMin, b.salaryMax) <==>
      !SalaryRangeHolds(OptionalCount(b.salaryMin).value, OptionalCount(b.salaryMax).value)
  {
  }

  /** A minimum of 50000 with a maximum of 0 passes the salary rule: a zero
      salary switches the comparison off. */
  lemma ZeroMaximumSkipsRangeCheck(b: JobBody)
    requires JobFieldsAccepted(b)
    requires b.salaryMin == Some(VNum(50000.0)) && b.salaryMax == Some(VNum(0.0))
    ensures ValidateJob(b).Ok?
    ensures ValidateJob(b).value.salaryMin == Some(50000) && ValidateJob(b).value.salaryMax == Some(0)
  {
  }

  /** A minimum above a nonzero maximum is rejected on `salaryMin` whenever
      the parse gets as far as the rule; when every field is valid it is the
      only issue. */
  lemma InvertedRangeRejected(b: JobBody, lo: nat, hi: nat)
    requires !JobParseAborts(b)
    requires b.salaryMin == Some(VNum(hi as real)) && b.salaryMax == Some(VNum(lo as real))
    requires 0 < lo < hi
    ensures ValidateJob(b).Invalid? && "salaryMin" in ValidateJob(b).issues
    ensures JobFieldsAccepted(b) ==> ValidateJob(b).issues == ["salaryMin"]
  {
    assert SalaryRefineFails(b.salaryMin, b.salaryMax);
  }

  /** An abandoned parse never reaches the salary rule: however the salaries
      compare, valid salaries are not named among the issues. A body with no
      `title` and salaries 10 and 5 is reported on `title` alone. */
  lemma AbortSkipsSalaryRule(b: JobBody)
    requires JobParseAborts(b)
    requires OptionalCount(b.salaryMin).Accepted?
    ensures ValidateJob(b).Invalid? && "salaryMin" !in ValidateJob(b).issues
  {
  }

  // ---------------------------------------------------------------- application

  datatype ApplicationBody = ApplicationBody(
    candidateName: Option<Value>, email: Option<Value>, resumeUrl: Option<Value>, coverLetter: Option<Value>)

  datatype ApplicationInput = ApplicationInput(
    candidateName: string, email: string, resumeUrl: Option<string>, coverLetter: Option<string>)

  /** `applicationSchema.parse(body)`. */
  function ValidateApplication(b: ApplicationBody, isUrl: string -> bool, isEmail: string -> bool)
    : (r: Validated<ApplicationInput>)
    ensures r.Ok? <==>
      && b.candidateName.Some? && b.candidateName.value.VStr? && b.candidateName.value.s != ""
      && b.email.Some? && b.email.value.VStr? && isEmail(b.email.value.s)
      && (b.resumeUrl.None? || (b.resumeUrl.value.VStr? && (isUrl(b.resumeUrl.value.s) || b.resumeUrl.value.s == "")))
      && (b.coverLetter.None? || b.coverLetter.value.VStr?)
    ensures r.Ok? ==>
      && b.candidateName == Some(VStr(r.value.candidateName))
      && b.email == Some(VStr(r.value.email))
      && PresentValue(b.resumeUrl, r.value.resumeUrl)
      && PresentValue(b.coverLetter, r.value.coverLetter)
    ensures r.Invalid? ==> |r.issues| > 0
  {
    var name := RequiredText(b.candidateName);
    var email := Email(b.email, isEmail);
    var resumeUrl := OptionalUrl(b.resumeUrl, isUrl);
    var coverLetter := OptionalText(b.coverLetter);
    var issues :=
      IssueIf("candidateName", name) + IssueIf("email", email)
      + IssueIf("resumeUrl", resumeUrl) + IssueIf("coverLetter", coverLetter);
    if issues == [] then Ok(ApplicationInput(name.value, email.value, resumeUrl.value, coverLetter.value))
    else Invalid(issues)
  }
}

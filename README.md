# Job board admin core in Dafny

A model of the logic at the heart of a multi-company job board written with
Next.js, Prisma and Zod:

- the Zod request schemas for companies, jobs and applications, including the
  salary-range rule and the defaults (`lib/validations.ts`);
- the admin credential check and the session token: base64 of
  `"<epoch-ms>-<random>"`, valid for 24 hours (`lib/auth.ts`), with the
  login and verify routes that wrap it;
- the section editor of the admin page (`app/admin/sections/page.tsx`), a
  class whose methods step the page state;
- the job admin page (`app/admin/jobs/page.tsx`): the form's text encoding
  of requirements, tags and salaries, its decoding for editing, and a class
  for the page state;
- the public company directory (`app/companies/page.tsx`): the search
  filter, badge colours and the opening/openings label;
- the admin company route (`app/api/admin/company/route.ts`): the PATCH
  schema, the status-code decisions and the create and update of the stored
  company, over an in-memory store class.

The JavaScript builtins these use are modelled in their own modules:
`String.prototype.trim`, `split`, `join`, `toLowerCase`, `includes` and
`parseInt` (`JsString`), `Array.prototype.filter` (`Sequences`), JSON text
of a structured value (`Json`), and Node's UTF-8 and base64 conversions
(`Base64`, which follows section 4 of RFC 4648 when encoding).

Files: `wrappers.dfy`, `sequences.dfy`, `js_string.dfy`, `json.dfy`,
`base64.dfy`, `validations.dfy`, `auth.dfy`, `sections.dfy`, `jobs.dfy`,
`companies.dfy`, `company_route.dfy`.

Conventions:

- A request body is a record of `Option<Value>` fields, where `None` is an
  absent key and `Value` is a string, number, boolean, `null` or anything
  else.
- A body that is not JSON at all is `None`. The routes answer it with 500,
  since `request.json()` throws inside their `try`.
- Zod's `url()` and `email()` checks are predicate parameters.
- Clocks, `Math.random()` and store failures are parameters.
- Server answers to the pages' requests are parameters. `None` stands for an
  error status or a failed request.

A session token needs no `-` separator. `lib/auth.ts:19-23` reads the
timestamp in front of the first `-`, or the whole decoded text when there is
none, so a token that decodes to a recent time in decimal alone is accepted
(`Auth.NoSeparatorAccepted`). `parseInt` skips leading whitespace, the
non-ASCII U+00A0 included, so that time may also follow a no-break space
(`Auth.NoBreakSpaceAccepted`).

## Model

| member | source | states |
|---|---|---|
| Validations.ParseWorkType | lib/validations.ts:18 | accepts exactly "on-site", "remote" and "hybrid", and the accepted value's name is the input |
| Validations.ParseLevel | lib/validations.ts:19 | accepts exactly "entry", "mid", "senior" and "lead", and the accepted value's name is the input |
| Validations.WorkTypeNamesParse | lib/validations.ts:18 | every work type's name parses back to that work type |
| Validations.LevelNamesParse | lib/validations.ts:19 | every level's name parses back to that level |
| Validations.RequiredText | lib/validations.ts:4 | `z.string().min(1)`: accepted iff the field is present, a string and non-empty; the value is that string |
| Validations.Slug | lib/validations.ts:5 | accepted iff the field is a string matching `^[a-z0-9-]+$` |
| Validations.HexColor | lib/validations.ts:9-10 | accepted iff the field is a string matching `^#[0-9A-Fa-f]{6}$` |
| Validations.OptionalText | lib/validations.ts:6 | an absent field is accepted as absent; a present one must be a string |
| Validations.OptionalUrl | lib/validations.ts:7-8 | absent, a URL or the empty string are accepted; anything else is rejected |
| Validations.TextOr | lib/validations.ts:11 | an absent field takes the default; a present one must be a string and is kept |
| Validations.RequiredWorkType | lib/validations.ts:18 | accepted iff the field is one of the three work type names |
| Validations.OptionalLevel | lib/validations.ts:19 | absent is accepted as absent; a present level must be one of the four names |
| Validations.OptionalCount | lib/validations.ts:20-21 | `z.number().int().min(0).optional()`: absent, or a whole number at least 0 |
| Validations.FlagOr | lib/validations.ts:26 | an absent flag takes the default; a present one must be a boolean |
| Validations.Email | lib/validations.ts:39 | accepted iff the field is a string the e-mail check accepts |
| Validations.IssueIf | lib/validations.ts:3-12 | a rejected field contributes exactly its own name to the issues, an accepted one nothing |
| Validations.ValidateCompany | lib/validations.ts:3-12 | Ok iff every field rule holds; required fields carry the body's strings; each optional field is present exactly when the body has it, with the body's string; `sections` is the body's string or "[]"; a failure names at least one known field |
| Validations.JobFieldIssues | lib/validations.ts:14-26 | no issue iff every field passes its own check; `salaryMin` is named iff its own check fails; only known field names |
| Validations.AcceptedJob | lib/validations.ts:14-26 | the record of a body whose every field passes carries the body's values (`CarriesJob`) and its validated salaries |
| Validations.ValidateJob | lib/validations.ts:14-35 | Ok iff every field passes and the salary rule holds; the record carries every value sent: required strings, optional fields present exactly when sent and with the sent value, otherwise the defaults USD, "[]", "[]" and active; a failure names known fields; an unabandoned parse whose salaries break the rule ends its issues with `salaryMin`; `salaryMin` is named only for its own failure or the broken rule |
| Validations.AcceptedFieldsReachRule | lib/validations.ts:14-35 | a body whose every field passes is not abandoned, and the rule on the raw numbers agrees with the rule on the validated salaries |
| Validations.SalaryRuleRejects | lib/validations.ts:27-35 | the refinement rejects exactly when both salaries are present and nonzero and the minimum exceeds the maximum |
| Validations.ZeroMaximumSkipsRangeCheck | lib/validations.ts:28-31 | a maximum of 0 is falsy, so a minimum of 50000 with a maximum of 0 is accepted |
| Validations.InvertedRangeRejected | lib/validations.ts:27-35 | when the object parse is not abandoned, nonzero salaries with min > max are rejected on `salaryMin`; with every field valid that is the only issue |
| Validations.AbortSkipsSalaryRule | lib/validations.ts:14-35 | a body the object parse abandons (a missing or wrongly typed field, a bad enum value) is rejected without the salary rule: a valid `salaryMin` is never named, whatever the salaries |
| Validations.ValidateApplication | lib/validations.ts:37-42 | Ok iff name non-empty, e-mail valid, resume URL absent/URL/empty and cover letter absent or a string; the record carries the body's strings, the optional ones present exactly when sent |
| Sequences.Filter | app/companies/page.tsx:67-70 | every kept element passes the condition and comes from the input |
| Sequences.FilterMembers | app/companies/page.tsx:67-70 | an element is kept iff it is in the input and passes |
| Sequences.FilterKeepsOrder | app/companies/page.tsx:67-70 | the result is an order-preserving subsequence of the input |
| Sequences.FilterAll | app/admin/jobs/page.tsx:83-84 | when every element passes, filtering returns the input unchanged |
| JsString.Trim | app/admin/jobs/page.tsx:84 | the result is trimmed, is a slice of the input with only whitespace cut off, and is empty iff the input is blank |
| JsString.TrimmedIsFixed | app/admin/jobs/page.tsx:84 | trimming a trimmed string changes nothing |
| JsString.TrimSkipsLeadingWhitespace | app/admin/jobs/page.tsx:84 | whitespace in front of a string does not change its trimmed form |
| JsString.Split | lib/auth.ts:20 | at least one piece, no piece contains the separator, and the first piece is a prefix of the text |
| JsString.SplitWithout | lib/auth.ts:20 | a text without the separator splits into itself alone |
| JsString.SplitJoin | app/admin/jobs/page.tsx:249-250 | splitting the join of separator-free parts at that separator gives the parts back |
| JsString.Join | app/admin/jobs/page.tsx:249-250 | no parts join to the empty text; with two or more parts the text starts with the first part and the separator |
| JsString.JoinPadded | app/admin/jobs/page.tsx:250 | joining with ", " is joining with "," after prefixing every later part with a space |
| JsString.FirstPiece | lib/auth.ts:20 | the first piece of `a + sep + b` is `a` when `a` has no separator |
| JsString.ToLower | app/companies/page.tsx:68-69 | same length, each letter A-Z mapped to lower case, everything else kept |
| JsString.IncludesIff | app/companies/page.tsx:68-69 | `includes` holds iff the term occurs at some position |
| JsString.DecimalText | lib/auth.ts:13 | the decimal text of a natural number: only digits, and no leading zero unless it is 0 |
| JsString.IntText | app/admin/jobs/page.tsx:245-246 | `toString()` of an integer: non-empty, with a leading minus exactly for negatives |
| JsString.ParseInt | lib/auth.ts:21 | `NaN` (`None`) iff there are no digits to read after the whitespace and sign |
| JsString.ParseIntSkipsWhitespace | lib/auth.ts:21 | a leading whitespace character, ASCII or not, does not change the result |
| JsString.ParseDecimal | lib/auth.ts:21 | `parseInt` of the decimal text of n is n |
| JsString.ParseIntText | app/admin/jobs/page.tsx:81-82 | `parseInt` of the text of any integer is that integer |
| Json.Stringify | app/admin/jobs/page.tsx:83-84 | parsing the stringified value gives the value back |
| Json.Parse | app/admin/jobs/page.tsx:232-237 | a value comes back iff the text is the JSON of a value of that shape |
| Json.ParseStringify | app/admin/jobs/page.tsx:232-237 | a text that parses is the stringified form of what it parses to |
| Base64.EncodeChar | lib/auth.ts:13 | one to four bytes; one byte, equal to the code, exactly for ASCII; all bytes of a longer sequence are at or above 0x80 |
| Base64.Utf8Encode | lib/auth.ts:13 | one to four bytes per character |
| Base64.Utf8EncodeAppend | lib/auth.ts:13 | the encoding of a concatenation is the concatenation of the encodings |
| Base64.SequenceLength | lib/auth.ts:19 | 1 exactly below 0x80; a byte at or above 0x80 announces 0, 2, 3 or 4 bytes |
| Base64.Matched | lib/auth.ts:19 | the bytes up to the position reached fit the sequence; a complete sequence is matched to its end |
| Base64.ScalarOf | lib/auth.ts:19 | a complete sequence decodes to a scalar value: not a surrogate, not ASCII, at most U+10FFFF |
| Base64.DecodeStep | lib/auth.ts:19 | each step consumes one to four bytes; an ASCII byte is itself |
| Base64.Utf8Decode | lib/auth.ts:19 | the WHATWG decoder: never more characters than bytes, empty iff the input is |
| Base64.DecodeEncodedChar | lib/auth.ts:13-19 | the encoding of any character decodes to that character, consuming exactly its bytes, whatever follows |
| Base64.Utf8DecodePrefix | lib/auth.ts:13-19 | decoding an encoded string followed by any bytes gives the string, then the decoding of those bytes |
| Base64.Utf8RoundTrip | lib/auth.ts:13-19 | every string encoded to UTF-8 and decoded comes back unchanged |
| Base64.Encode | lib/auth.ts:13 | the base64 text has a length divisible by four |
| Base64.FromSextets | lib/auth.ts:19 | three bytes per four digits, one or two for a final group of two or three digits, none for a lone digit |
| Base64.Decode | lib/auth.ts:19 | never more than three bytes per four characters |
| Base64.DecodeEncode | lib/auth.ts:13-19 | Node's decoder returns the bytes that were encoded |
| Auth.OrDefault | lib/auth.ts:3-4 | an unset or empty variable gives the fallback, a non-empty one is used as is |
| Auth.VerifyCredentials | lib/auth.ts:7-9 | true iff both strings equal the configured pair, which is admin/admin123 without environment variables |
| Auth.CreateSession | lib/auth.ts:11-14 | the token decodes to the creation time in decimal before the first `-` |
| Auth.Timestamp | lib/auth.ts:19-20 | free of `-`, and a prefix of the decoded text |
| Auth.TimestampOfCreated | lib/auth.ts:13-20 | whatever the random part, the timestamp read back from a created token is the creation time |
| Auth.VerifySession | lib/auth.ts:16-27 | a timestamp `parseInt` cannot read is rejected; an accepted token is younger than 24 hours |
| Auth.SessionValidity | lib/auth.ts:11-27 | a token created at t is accepted at now iff now - t is less than 24 hours |
| Auth.SessionExpiry | lib/auth.ts:23 | accepted at issue and one minute before 24 hours; rejected at exactly 24 hours and one minute after |
| Auth.FutureTimestampAccepted | lib/auth.ts:21-23 | a token stamped after the clock reading is accepted |
| Auth.NoSeparatorAccepted | lib/auth.ts:19-23 | a token holding only a recent decimal time, with no `-`, is accepted |
| Auth.NoBreakSpaceAccepted | lib/auth.ts:19-23 | a token holding U+00A0 and then a recent decimal time is accepted |
| Auth.Login | app/api/auth/login/route.ts:4-30 | 500 for a body that is not JSON, 400 for a missing or empty field, 401 for wrong credentials, otherwise 200 with a token that verifies at issue |
| Auth.VerifyRoute | app/api/auth/verify/route.ts:4-17 | 500 for a body that is not JSON, 400 without a token, otherwise 200 with `verifySession`'s verdict |
| AdminSections.Appended | app/admin/sections/page.tsx:125-142 | the old sections are kept, and the new one is added at the end with order equal to the old count and the form's fields |
| AdminSections.UpdateMatching | app/admin/sections/page.tsx:154-176 | sections matching the edited one by type, title and content take the form's fields and keep their order number; the others are unchanged |
| AdminSections.FindMatch | app/admin/sections/page.tsx:182-185 | -1 iff nothing matches; otherwise the first match |
| AdminSections.DeleteFirstMatch | app/admin/sections/page.tsx:178-192 | without a match nothing changes; otherwise exactly the first match is removed |
| AdminSections.ToggleMatching | app/admin/sections/page.tsx:194-208 | matching sections have their active flag flipped, nothing else changes |
| AdminSections.ToggleTwice | app/admin/sections/page.tsx:194-208 | toggling the same section twice restores the list |
| AdminSections.DeleteUndoesAdd | app/admin/sections/page.tsx:125-192 | deleting a section just added, when no earlier section has the same triple, restores the list |
| AdminSections.DuplicateTriples | app/admin/sections/page.tsx:182-200 | with two sections alike in type, title and content, delete removes only the first but toggle flips both |
| AdminSections.SectionEditor.constructor | app/admin/sections/page.tsx:27-39 | no company, not saving, nothing edited, no unsaved changes, blank form |
| AdminSections.SectionEditor.Load | app/admin/sections/page.tsx:53-65 | a company answer replaces the company; `null` leaves it |
| AdminSections.SectionEditor.Sections | app/admin/sections/page.tsx:67-74 | no company or stored text that does not parse gives the empty list; otherwise the parsed list |
| AdminSections.SectionEditor.SetSections | app/admin/sections/page.tsx:76-83 | with a company, stores the JSON of the list and marks unsaved changes; without one does nothing |
| AdminSections.SectionEditor.AddSection | app/admin/sections/page.tsx:125-142 | the list becomes the appended list, the form is reset and changes are unsaved |
| AdminSections.SectionEditor.EditSection | app/admin/sections/page.tsx:144-152 | the section becomes the edited one and the form shows its fields |
| AdminSections.SectionEditor.CancelEdit | app/admin/sections/page.tsx:282-290 | nothing is edited and the form is blank |
| AdminSections.SectionEditor.UpdateSection | app/admin/sections/page.tsx:154-176 | with a company and an edited section, the list becomes the updated list and the edit ends |
| AdminSections.SectionEditor.DeleteSection | app/admin/sections/page.tsx:178-192 | the list loses its first match; without a match nothing changes |
| AdminSections.SectionEditor.ToggleSection | app/admin/sections/page.tsx:194-208 | the list becomes the toggled list |
| AdminSections.SectionEditor.BeginSave | app/admin/sections/page.tsx:85-98 | sends the stored sections text when there is a company and sets saving |
| AdminSections.SectionEditor.FinishSave | app/admin/sections/page.tsx:100-122 | saving ends; unsaved changes are cleared only on success |
| AdminSections.SectionEditor.SaveSections | app/admin/sections/page.tsx:85-123 | the stored text is sent unchanged, and unsaved changes remain exactly when the save failed |
| AdminSections.SectionEditor.CanSave | app/admin/sections/page.tsx:369 | enabled exactly when no save is running and there are unsaved changes; never while saving |
| AdminSections.EditThenSave | app/admin/sections/page.tsx:369 | after a toggle and a save, the save button is enabled iff the save failed |
| AdminJobs.TrimAll | app/admin/jobs/page.tsx:84 | each part is replaced by its trimmed form |
| AdminJobs.EncodeRequirements | app/admin/jobs/page.tsx:83 | every requirement sent is a non-blank line without line breaks |
| AdminJobs.EncodeTags | app/admin/jobs/page.tsx:84 | every tag sent is non-empty, trimmed and free of commas |
| AdminJobs.EncodeSalary | app/admin/jobs/page.tsx:81-82 | empty text is left out; the server accepts the salary iff the text is empty or `parseInt` reads a number at least 0 |
| AdminJobs.PayloadOf | app/admin/jobs/page.tsx:79-85 | the form's text fields and flags go out as they are; a salary is left out iff its text is empty; requirements and tags parse back to the encoded lists |
| AdminJobs.JoinDecoded | app/admin/jobs/page.tsx:249-250 | stored text that is not a list shows as empty |
| AdminJobs.DecodeSalary | app/admin/jobs/page.tsx:245-246 | the text is empty iff there is no salary |
| AdminJobs.FormOf | app/admin/jobs/page.tsx:228-254 | a missing level shows as mid and a missing department as empty |
| AdminJobs.RequirementsRoundTrip | app/admin/jobs/page.tsx:83 | requirements joined with line breaks for editing and re-encoded come back unchanged |
| AdminJobs.TagsRoundTrip | app/admin/jobs/page.tsx:84 | tags joined with ", " for editing and re-encoded come back unchanged |
| AdminJobs.EncodingIdempotent | app/admin/jobs/page.tsx:83-84 | encoding what the form sent once more sends the same lists |
| AdminJobs.SalaryRoundTrip | app/admin/jobs/page.tsx:245-246 | a salary shown for editing and sent again is the same number, and an absent one stays absent |
| AdminJobs.UnchangedEditResends | app/admin/jobs/page.tsx:228-254 | opening a well-formed job for editing and saving it unchanged sends its own lists and salaries |
| AdminJobs.ReplaceById | app/admin/jobs/page.tsx:146 | the job with the id becomes the server's job; every other position is unchanged |
| AdminJobs.RemoveById | app/admin/jobs/page.tsx:180 | no job with the id is left |
| AdminJobs.RemoveKeepsOthers | app/admin/jobs/page.tsx:180 | a job remains iff it was there and has another id, in the same order |
| AdminJobs.RemoveUnique | app/admin/jobs/page.tsx:180 | with unique ids, deleting removes exactly the one position |
| AdminJobs.DeleteUndoesCreate | app/admin/jobs/page.tsx:97 | deleting a job just created with a fresh id restores the list |
| AdminJobs.UniqueIdsPreserved | app/admin/jobs/page.tsx:97 | create with a fresh id, update keeping the id and delete keep ids unique |
| AdminJobs.JobsPage.constructor | app/admin/jobs/page.tsx:31-51 | the loaded list, not saving, nothing edited, dialog closed, blank form |
| AdminJobs.JobsPage.ResetForm | app/admin/jobs/page.tsx:256-271 | the form is blank: hybrid, mid, USD, active |
| AdminJobs.JobsPage.OpenCreateDialog | app/admin/jobs/page.tsx:273-277 | nothing edited, blank form, dialog open |
| AdminJobs.JobsPage.EditJob | app/admin/jobs/page.tsx:228-254 | the job is edited, the form shows its decoded fields, the dialog opens |
| AdminJobs.JobsPage.BeginSaveJob | app/admin/jobs/page.tsx:76-92 | raises the saving flag, sends the form and captures the list as it is |
| AdminJobs.JobsPage.FinishSaveJob | app/admin/jobs/page.tsx:94-120 | a created job goes in front of the captured list and the dialog closes; on failure the list, dialog and form stay; saving ends either way |
| AdminJobs.JobsPage.SaveJob | app/admin/jobs/page.tsx:76-121 | with nothing in between: sends the form; a created job goes first in the list and the dialog closes; on failure the list, dialog and form stay |
| AdminJobs.JobsPage.BeginUpdateJob | app/admin/jobs/page.tsx:123-142 | without an edited job nothing changes; otherwise raises the saving flag, sends the form to the edited job and captures the list |
| AdminJobs.JobsPage.FinishUpdateJob | app/admin/jobs/page.tsx:144-170 | a success replaces the job with the edited id in the captured list and ends the edit; on failure the list, edit, dialog and form stay; saving ends |
| AdminJobs.JobsPage.UpdateJob | app/admin/jobs/page.tsx:123-171 | with nothing in between: without an edited job nothing is sent or changed; otherwise the form goes to its id and a success replaces that job |
| AdminJobs.JobsPage.DeleteJob | app/admin/jobs/page.tsx:173-199 | on success the list becomes the captured list without the job; otherwise the list stays |
| AdminJobs.JobsPage.ToggleActive | app/admin/jobs/page.tsx:201-226 | requests the negated flag; a successful answer makes the list the captured list with that job replaced |
| AdminJobs.StaleToggleRestoresDeleted | app/admin/jobs/page.tsx:173-226 | a delete and a toggle of the same job started on the same list: the toggle finishing last brings the deleted job back |
| CompanyDirectory.FilterCompanies | app/companies/page.tsx:67-70 | every listed company matches the term |
| CompanyDirectory.FilterMembers | app/companies/page.tsx:67-70 | a company is listed iff it is there and its name or description contains the term, ignoring case; order is kept |
| CompanyDirectory.EmptyTermKeepsAll | app/companies/page.tsx:67-70 | the empty term lists every company |
| CompanyDirectory.SearchIgnoresCase | app/companies/page.tsx:68-69 | the term and its lower-cased form list the same companies |
| CompanyDirectory.NameMatchListed | app/companies/page.tsx:68 | a company whose name contains the term in any case is listed |
| CompanyDirectory.WorkTypeColor | app/companies/page.tsx:72-79 | gray exactly for values other than the three work types |
| CompanyDirectory.LevelColor | app/companies/page.tsx:81-89 | gray exactly for values other than the four levels |
| CompanyDirectory.WorkTypeColorsDistinct | app/companies/page.tsx:72-79 | the three work types have three different, non-gray colours |
| CompanyDirectory.LevelColorsDistinct | app/companies/page.tsx:81-89 | the four levels have four different, non-gray colours |
| CompanyDirectory.OpeningsLabel | app/companies/page.tsx:174 | "opening" iff the count is exactly 1, "openings" otherwise |
| CompanyDirectory.OpeningsBadge | app/companies/page.tsx:174 | the badge starts with the count and a space |
| CompanyRoute.Optional | app/api/admin/company/route.ts:45-51 | an absent field is accepted as absent; a present one must pass the field's rule |
| CompanyRoute.ValidatePatch | app/api/admin/company/route.ts:44-55 | Ok iff every present field obeys its create rule; present fields carry the body's strings, absent ones stay absent |
| CompanyRoute.CreateBodyIsValidPatch | app/api/admin/company/route.ts:44-53 | every body the create schema accepts is a valid PATCH |
| CompanyRoute.EmptyBodyIsEmptyPatch | app/api/admin/company/route.ts:44-53 | the empty body is a valid PATCH with no fields |
| CompanyRoute.Created | app/api/admin/company/route.ts:18-30 | the stored company is the validated input under the new id, nothing added or dropped |
| CompanyRoute.CreatedWellFormed | app/api/admin/company/route.ts:18-30 | a created company obeys the schema's rules and stores "[]" when `sections` was omitted |
| CompanyRoute.Apply | app/api/admin/company/route.ts:63-75 | the id is kept; every present field replaces the stored one and every absent field keeps it, except that `sections` is written only when it is a non-empty string |
| CompanyRoute.ApplyEmptyPatch | app/api/admin/company/route.ts:72-75 | a patch without fields changes nothing |
| CompanyRoute.ApplyIdempotent | app/api/admin/company/route.ts:72-75 | applying the same patch twice is applying it once |
| CompanyRoute.ApplyPreservesWellFormed | app/api/admin/company/route.ts:55-75 | an accepted patch keeps a well-formed company well formed |
| CompanyRoute.CompanyStore.First | app/api/admin/company/route.ts:57 | none iff the table is empty; otherwise its first row |
| CompanyRoute.CompanyStore.Get | app/api/admin/company/route.ts:6-13 | 200 with the first company or null; 500 when the store fails |
| CompanyRoute.CompanyStore.Post | app/api/admin/company/route.ts:15-39 | 500, 400 or 500 with the table unchanged, or 200 with the validated company appended under the next id; the table invariant is kept |
| CompanyRoute.CompanyStore.Patch | app/api/admin/company/route.ts:41-84 | 500, 400 (even without a company), 404 or 500 with the table unchanged, or 200 with only the first company patched; the table invariant is kept |
| CompanyRoute.PatchEmptyStore | app/api/admin/company/route.ts:55-60 | an invalid PATCH body gets 400 from an empty store |

## Left out

- Loading data (`fetchCompany`, `fetchJobs`, the directory's `fetchData`), toasts, the loading flags and rendering are left out. The loaded data enters as a constructor or method parameter.
- Server answers are parameters. Where a page reads the answer's body only on success, `None` stands for an error status and a thrown request alike.
- AdminSections.SectionEditor.Load: `fetchCompany` stores any truthy JSON answer. A 500 answer's `{ error }` object is truthy and replaces the company there; the model's `None` keeps the company instead.
- AdminSections.SectionEditor.Sections: JSON of another shape, such as an object, is returned as it is by `getSections`; the model gives the empty list. Invalid JSON gives the empty list in both.
- Request bodies that are JSON but not objects (`null`, an array, a number) are not representable. The routes answer them with 400 or 500.
- `fetchJobs` parses `requirements` and `tags` into arrays, while jobs from the server's answers keep them as JSON text. `Json.Encoded` stands for both.
- `Json.Encoded` does not tell invalid JSON from JSON of another shape. In `handleEditJob` invalid JSON makes `JSON.parse` throw; the model shows an empty list there instead.
- JSON text itself (escaping, the exact characters of `JSON.stringify`) is not modelled. A JSON text is either the encoding of a value or some other text.
- `Base64.Utf8Decode` follows the WHATWG decoder, which Node uses for `toString('utf-8')`. That it turns each maximal ill-formed part into exactly one U+FFFD is stated only through `Base64.DecodeStep`'s body, not as a separate lemma.
- `JsString.ToLower` folds only the ASCII letters A-Z, not full Unicode case mapping.
- `JsString.IsWhitespace` covers the ECMAScript whitespace and line terminators.
- Numbers are exact. Floating-point rounding of `Date.now()` arithmetic and `parseInt` results beyond 2^53, `Infinity` and negative zero are not modelled.
- Zod's `url()` and `email()` are parameters, not re-implemented.
- Zod's issue order and messages are not modelled, only the field names. A missing or wrongly typed field or a bad enum value abandons the object parse, and then the `refine` does not run (`Validations.JobParseAborts`). A failed `min`, `int`, `regex` or `url` check does not abandon it, and the `refine` still runs on the numbers as sent.
- Non-string `username`, `password` and `token` values in the login and verify bodies are not modelled.
- `Math.random()` is an arbitrary string parameter.
- The database is an in-memory sequence. Unique-slug violations and other store errors are one `fails` parameter, and `findFirst` returns the first row.
- The job and application API routes, the setup and seed routes, the public company pages, and the auth context are not part of this model. They are declarative queries or UI wiring.
- AdminJobs.JobsPage.BeginSaveJob: returns the form it sends rather than the encoded body. The body is `AdminJobs.PayloadOf` of that form, which the lemmas above describe. The same holds for `SaveJob`, `BeginUpdateJob` and `UpdateJob`.
- AdminJobs.JobsPage.SaveJob: a handler whose request has nothing else happening in between. Interleavings are expressed with the begin and finish halves and the captured list, as `AdminJobs.StaleToggleRestoresDeleted` shows.

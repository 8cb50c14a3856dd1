/** The job administration page of app/admin/jobs/page.tsx.

    The form keeps every field as text. Saving encodes it: requirements are
    the non-blank lines, tags the trimmed non-empty comma-separated parts,
    and a salary is `parseInt` of its text or absent when the text is empty.
    Editing decodes a job back into the form by joining the lists. The page
    keeps the job list itself and updates it from the server's answers:
    prepend on create, replace by id on update and toggle, filter by id on
    delete. */
module AdminJobs {
  import opened Wrappers
  import JsString
  import Json
  import opened Validations
  import Sequences

  /** A job as the page holds it. `requirements` and `tags` are JSON lists. */
  datatype Job = Job(
    id: string, title: string, location: string, department: Option<string>,
    workType: WorkType, level: Option<Level>, salaryMin: Option<int>, salaryMax: Option<int>,
    currency: string, description: string,
    requirements: Json.Encoded<seq<string>>, tags: Json.Encoded<seq<string>>,
    isActive: bool, createdAt: string)

  /** The dialog's form: every free field is text. */
  datatype JobForm = JobForm(
    title: string, location: string, department: string, workType: WorkType, level: Level,
    salaryMin: string, salaryMax: string, currency: string, description: string,
    requirements: string, tags: string, isActive: bool)

  /** The body sent to create or update a job. A salary is `None` when the
      key is left out (`undefined`), `VNull` when `parseInt` gave `NaN`
      (which `JSON.stringify` writes as `null`) and a number otherwise. */
  datatype JobPayload = JobPayload(
    title: string, location: string, department: string, workType: WorkType, level: Level,
    salaryMin: Option<Value>, salaryMax: Option<Value>, currency: string, description: string,
    requirements: Json.Encoded<seq<string>>, tags: Json.Encoded<seq<string>>, isActive: bool)

  /** `resetForm`: empty text, hybrid, mid, USD, active. */
  const BlankForm := JobForm("", "", "", Hybrid, Mid, "", "", "USD", "", "", "", true)

  // ---------------------------------------------------------------- encoding

  /** `req => req.trim()` as a condition: the line is not blank. */
  predicate NonBlank(line: string) {
    JsString.Trim(line) != ""
  }

  /** `tag => tag` as a condition: the string is not empty. */
  predicate NonEmpty(tag: string) {
    tag != ""
  }

  /** `.map(tag => tag.trim())` */
  function TrimAll(parts: seq<string>): (r: seq<string>)
    ensures |r| == |parts|
    ensures forall i :: 0 <= i < |r| ==> r[i] == JsString.Trim(parts[i])
  {
    seq(|parts|, i requires 0 <= i < |parts| => JsString.Trim(parts[i]))
  }

  /** The requirements text as sent: its non-blank lines. */
  function EncodeRequirements(text: string): (r: seq<string>)
    ensures forall i :: 0 <= i < |r| ==> IsRequirement(r[i])
  {
    Sequences.Filter(JsString.Split(text, '\n'), NonBlank)
  }

  /** The tags text as sent: its trimmed non-empty comma-separated parts. */
  function EncodeTags(text: string): (r: seq<string>)
    ensures forall i :: 0 <= i < |r| ==> IsTag(r[i])
  {
    var parts := JsString.Split(text, ',');
    var trimmed := TrimAll(parts);
    assert forall i :: 0 <= i < |trimmed| ==> ',' !in trimmed[i] by {
      forall i | 0 <= i < |trimmed| ensures ',' !in trimmed[i] {
        TrimIsInside(parts[i], ',');
      }
    }
    Sequences.Filter(trimmed, NonEmpty)
  }

  lemma TrimIsInside(s: string, c: char)
    requires c !in s
    ensures c !in JsString.Trim(s)
  {
    var r := JsString.Trim(s);
    var i, j :| 0 <= i <= j <= |s| && r == s[i..j];
    forall k | 0 <= k < |r|
      ensures r[k] != c
    {
      assert r[k] == s[i + k];
    }
  }

  /** A requirement line that survives encoding: not blank, no line break. */
  predicate IsRequirement(r: string) {
    JsString.Trim(r) != "" && '\n' !in r
  }

  /** A tag that survives encoding: non-empty, trimmed, no comma. */
  predicate IsTag(t: string) {
    t != "" && JsString.IsTrimmed(t) && ',' !in t
  }

  /** `text ? parseInt(text) : undefined`, as it reaches the request body. */
  function EncodeSalary(text: string): (v: Option<Value>)
    ensures v.None? <==> text == ""
    ensures OptionalCount(v).Accepted? <==>
      text == "" || (JsString.ParseInt(text).Some? && JsString.ParseInt(text).value >= 0)
  {
    if text == "" then None
    else match JsString.ParseInt(text)
      case None => Some(VNull)
      case Some(n) => Some(VNum(n as real))
  }

  /** The body `handleSaveJob` and `handleUpdateJob` send for a form. */
  function PayloadOf(f: JobForm): (p: JobPayload)
    ensures p.title == f.title && p.location == f.location && p.department == f.department
    ensures p.workType == f.workType && p.level == f.level && p.currency == f.currency
    ensures p.description == f.description && p.isActive == f.isActive
    ensures p.salaryMin.None? <==> f.salaryMin == ""
    ensures p.salaryMax.None? <==> f.salaryMax == ""
    ensures Json.Parse(p.requirements) == Some(EncodeRequirements(f.requirements))
    ensures Json.Parse(p.tags) == Some(EncodeTags(f.tags))
  {
    JobPayload(f.title, f.location, f.department, f.workType, f.level,
               EncodeSalary(f.salaryMin), EncodeSalary(f.salaryMax), f.currency, f.description,
               Json.Stringify(EncodeRequirements(f.requirements)), Json.Stringify(EncodeTags(f.tags)),
               f.isActive)
  }

  // ---------------------------------------------------------------- decoding

  /** `Array.isArray(list) ? list.join(sep) : ''` on the decoded list. */
  function JoinDecoded(e: Json.Encoded<seq<string>>, sep: string): (text: string)
    ensures Json.Parse(e).None? ==> text == ""
  {
    match Json.Parse(e)
    case Some(items) => JsString.Join(items, sep)
    case None => ""
  }

  /** `n?.toString() || ''` */
  function DecodeSalary(n: Option<int>): (text: string)
    ensures text == "" <==> n.None?
  {
    match n
    case None => ""
    case Some(v) => JsString.IntText(v)
  }

  /** `handleEditJob`'s form for a job: a missing department shows as empty
      and a missing level as "mid". */
  function FormOf(job: Job): (f: JobForm)
    ensures job.level.None? ==> f.level == Mid
    ensures job.department.None? ==> f.department == ""
  {
    JobForm(job.title, job.location, job.department.GetOr(""), job.workType, job.level.GetOr(Mid),
            DecodeSalary(job.salaryMin), DecodeSalary(job.salaryMax), job.currency, job.description,
            JoinDecoded(job.requirements, "\n"), JoinDecoded(job.tags, ", "), job.isActive)
  }

  // ---------------------------------------------------------------- round trips

  /** Requirements shown for editing and saved unchanged come back as they
      were, when each is a non-blank line without line breaks. */
  lemma RequirementsRoundTrip(reqs: seq<string>)
    requires forall i :: 0 <= i < |reqs| ==> IsRequirement(reqs[i])
    ensures EncodeRequirements(JsString.Join(reqs, "\n")) == reqs
  {
    if |reqs| == 0 {
      assert JsString.Split("", '\n') == [""];
      assert JsString.Trim("") == "";
    } else {
      JsString.SplitJoin(reqs, '\n');
      Sequences.FilterAll(reqs, NonBlank);
    }
  }

  /** The comma-separated parts of tags joined with ", ": the first tag,
      then each further tag behind one space. */
  function Padded(tags: seq<string>): seq<string>
    requires |tags| > 0
  {
    [tags[0]] + JsString.Prefixed(tags[1..], " ")
  }

  lemma SplitPadded(tags: seq<string>)
    requires |tags| > 0
    requires forall i :: 0 <= i < |tags| ==> IsTag(tags[i])
    ensures JsString.Split(JsString.Join(tags, ", "), ',') == Padded(tags)
  {
    var padded := Padded(tags);
    JsString.JoinPadded(tags, ",", " ");
    assert "," + " " == ", ";
    assert forall i :: 0 <= i < |padded| ==> ',' !in padded[i] by {
      forall i | 0 <= i < |padded| ensures ',' !in padded[i] {
        if i > 0 {
          assert padded[i] == " " + tags[i];
        }
      }
    }
    JsString.SplitJoin(padded, ',');
  }

  lemma TrimPadded(tags: seq<string>)
    requires |tags| > 0
    requires forall i :: 0 <= i < |tags| ==> IsTag(tags[i])
    ensures TrimAll(Padded(tags)) == tags
  {
    var padded := Padded(tags);
    forall i | 0 <= i < |padded|
      ensures JsString.Trim(padded[i]) == tags[i]
    {
      if i == 0 {
        JsString.TrimmedIsFixed(tags[0]);
      } else {
        assert padded[i] == " " + tags[i];
        JsString.TrimSkipsLeadingWhitespace(" ", tags[i]);
        JsString.TrimmedIsFixed(tags[i]);
      }
    }
  }

  /** Tags shown for editing (joined with ", ") and saved unchanged come back
      as they were, when each is non-empty, trimmed and free of commas. */
  lemma TagsRoundTrip(tags: seq<string>)
    requires forall i :: 0 <= i < |tags| ==> IsTag(tags[i])
    ensures EncodeTags(JsString.Join(tags, ", ")) == tags
  {
    var joined := JsString.Join(tags, ", ");
    if |tags| == 0 {
      NoTagsText();
    } else {
      calc {
        EncodeTags(joined);
      == { EncodeTagsSteps(joined); }
        Sequences.Filter(TrimAll(JsString.Split(joined, ',')), NonEmpty);
      == { SplitPadded(tags); }
        Sequences.Filter(TrimAll(Padded(tags)), NonEmpty);
      == { TrimPadded(tags); }
        Sequences.Filter(tags, NonEmpty);
      == { Sequences.FilterAll(tags, NonEmpty); }
        tags;
      }
    }
  }

  /** An empty tags text encodes to no tags. */
  lemma NoTagsText()
    ensures EncodeTags("") == []
  {
    EncodeTagsSteps("");
    assert JsString.Split("", ',') == [""];
    assert TrimAll([""]) == [""];
  }

  /** `EncodeTags` as its three steps: split at commas, trim, drop empties. */
  lemma EncodeTagsSteps(text: string)
    ensures EncodeTags(text) == Sequences.Filter(TrimAll(JsString.Split(text, ',')), NonEmpty)
  {
  }

  /** Encoding is idempotent: what the form sends, shown again and re-sent,
      does not change. */
  lemma EncodingIdempotent(f: JobForm)
    ensures EncodeRequirements(JsString.Join(EncodeRequirements(f.requirements), "\n")) == EncodeRequirements(f.requirements)
    ensures EncodeTags(JsString.Join(EncodeTags(f.tags), ", ")) == EncodeTags(f.tags)
  {
    RequirementsRoundTrip(EncodeRequirements(f.requirements));
    TagsRoundTrip(EncodeTags(f.tags));
  }

  /** A salary shown for editing and saved unchanged is sent as the same number. */
  lemma SalaryRoundTrip(n: Option<int>)
    ensures EncodeSalary(DecodeSalary(n)) == if n.None? then None else Some(VNum(n.value as real))
  {
    if n.Some? {
      JsString.ParseIntText(n.value);
    }
  }

  /** A job whose stored lists are well formed, opened for editing and saved
      without changes, sends back its own lists and salaries. */
  lemma UnchangedEditResends(job: Job)
    requires job.requirements.Encoding? && job.tags.Encoding?
    requires forall i :: 0 <= i < |job.requirements.value| ==> IsRequirement(job.requirements.value[i])
    requires forall i :: 0 <= i < |job.tags.value| ==> IsTag(job.tags.value[i])
    ensures PayloadOf(FormOf(job)).requirements == job.requirements
    ensures PayloadOf(FormOf(job)).tags == job.tags
    ensures PayloadOf(FormOf(job)).salaryMin == if job.salaryMin.None? then None else Some(VNum(job.salaryMin.value as real))
    ensures PayloadOf(FormOf(job)).salaryMax == if job.salaryMax.None? then None else Some(VNum(job.salaryMax.value as real))
  {
    RequirementsRoundTrip(job.requirements.value);
    TagsRoundTrip(job.tags.value);
    SalaryRoundTrip(job.salaryMin);
    SalaryRoundTrip(job.salaryMax);
  }

  // ---------------------------------------------------------------- the list

  /** Job ids are unique, as the store assigns them. */
  predicate UniqueIds(jobs: seq<Job>) {
    forall i, j :: 0 <= i < j < |jobs| ==> jobs[i].id != jobs[j].id
  }

  /** `jobs.map(j => j.id === id ? updated : j)` */
  function ReplaceById(jobs: seq<Job>, id: string, updated: Job): (r: seq<Job>)
    ensures |r| == |jobs|
    ensures forall i :: 0 <= i < |r| && jobs[i].id == id ==> r[i] == updated
    ensures forall i :: 0 <= i < |r| && jobs[i].id != id ==> r[i] == jobs[i]
  {
    seq(|jobs|, i requires 0 <= i < |jobs| => if jobs[i].id == id then updated else jobs[i])
  }

  /** `job => job.id !== id` */
  function IdIsNot(id: string): Job -> bool {
    (j: Job) => j.id != id
  }

  /** `jobs.filter(job => job.id !== id)` */
  function RemoveById(jobs: seq<Job>, id: string): (r: seq<Job>)
    ensures forall i :: 0 <= i < |r| ==> r[i].id != id
  {
    Sequences.Filter(jobs, IdIsNot(id))
  }

  /** Delete removes every job with that id, keeps every other job, and
      keeps their order. */
  lemma RemoveKeepsOthers(jobs: seq<Job>, id: string)
    ensures forall j :: j in RemoveById(jobs, id) <==> j in jobs && j.id != id
    ensures Sequences.IsSubsequence(RemoveById(jobs, id), jobs)
  {
    forall j ensures j in RemoveById(jobs, id) <==> j in jobs && j.id != id {
      Sequences.FilterMembers(jobs, IdIsNot(id), j);
    }
    Sequences.FilterKeepsOrder(jobs, IdIsNot(id));
  }

  /** With unique ids, deleting a job removes exactly one entry. */
  lemma {:induction false} RemoveUnique(jobs: seq<Job>, k: nat)
    requires UniqueIds(jobs) && k < |jobs|
    ensures RemoveById(jobs, jobs[k].id) == jobs[..k] + jobs[k + 1..]
  {
    if k == 0 {
      NoIdLeft(jobs[1..], jobs[0].id);
      assert jobs[..0] + jobs[1..] == jobs[1..];
    } else {
      RemoveUnique(jobs[1..], k - 1);
      assert jobs[1..][..k - 1] + jobs[1..][k..] == jobs[1..k] + jobs[k + 1..];
      assert jobs[..k] == [jobs[0]] + jobs[1..k];
    }
  }

  lemma NoIdLeft(jobs: seq<Job>, id: string)
    requires forall i :: 0 <= i < |jobs| ==> jobs[i].id != id
    ensures RemoveById(jobs, id) == jobs
  {
    Sequences.FilterAll(jobs, IdIsNot(id));
  }

  /** Deleting a job just created restores the list. */
  lemma DeleteUndoesCreate(jobs: seq<Job>, created: Job)
    requires forall i :: 0 <= i < |jobs| ==> jobs[i].id != created.id
    ensures RemoveById([created] + jobs, created.id) == jobs
  {
    NoIdLeft(jobs, created.id);
    assert ([created] + jobs)[1..] == jobs;
  }

  /** Create (with a fresh id), update (keeping the id) and delete keep ids unique. */
  lemma UniqueIdsPreserved(jobs: seq<Job>, created: Job, id: string, updated: Job)
    requires UniqueIds(jobs)
    ensures (forall i :: 0 <= i < |jobs| ==> jobs[i].id != created.id) ==> UniqueIds([created] + jobs)
    ensures updated.id == id ==> UniqueIds(ReplaceById(jobs, id, updated))
    ensures UniqueIds(RemoveById(jobs, id))
  {
    RemoveUniqueIds(jobs, id);
  }

  lemma {:induction false} RemoveUniqueIds(jobs: seq<Job>, id: string)
    requires UniqueIds(jobs)
    ensures UniqueIds(RemoveById(jobs, id))
  {
    if |jobs| > 0 {
      RemoveUniqueIds(jobs[1..], id);
      var rest := RemoveById(jobs[1..], id);
      assert forall j :: j in rest ==> j in jobs[1..];
      assert forall j :: j in jobs[1..] ==> j.id != jobs[0].id;
    }
  }

  // ---------------------------------------------------------------- the page

  /** The page's state: the list, the saving flag, the job being edited, the
      dialog and the form. */
  class JobsPage {
    var jobs: seq<Job>
    var saving: bool
    var editingJob: Option<Job>
    var dialogOpen: bool
    var form: JobForm

    constructor (loaded: seq<Job>)
      ensures jobs == loaded && !saving && editingJob.None? && !dialogOpen && form == BlankForm
    {
      jobs := loaded;
      saving := false;
      editingJob := None;
      dialogOpen := false;
      form := BlankForm;
    }

    /** `resetForm` */
    method ResetForm()
      modifies this`form
      ensures form == BlankForm
    {
      form := BlankForm;
    }

    /** `openCreateDialog` */
    method OpenCreateDialog()
      modifies this`editingJob, this`form, this`dialogOpen
      ensures editingJob.None? && form == BlankForm && dialogOpen
    {
      editingJob := None;
      ResetForm();
      dialogOpen := true;
    }

    /** `handleEditJob` */
    method EditJob(job: Job)
      modifies this`editingJob, this`form, this`dialogOpen
      ensures editingJob == Some(job) && form == FormOf(job) && dialogOpen
    {
      editingJob := Some(job);
      form := FormOf(job);
      dialogOpen := true;
    }

    /** The first half of `handleSaveJob`, up to the request: the flag is
        raised and the form (`sent`) goes out, encoded by `PayloadOf`. The
        handler keeps the list as it was at this moment (`captured`). */
    method BeginSaveJob() returns (captured: seq<Job>, sent: JobForm)
      modifies this`saving
      ensures saving
      ensures captured == jobs && sent == form
    {
      saving := true;
      captured := jobs;
      sent := form;
    }

    /** The second half of `handleSaveJob`: `created` is the job the server
        answers with, `None` on an error status or a failure. A created job
        goes in front of the captured list, the dialog closes and the form
        is reset; the flag drops either way. */
    method FinishSaveJob(captured: seq<Job>, created: Option<Job>)
      modifies this`saving, this`jobs, this`dialogOpen, this`form
      ensures !saving
      ensures created.Some? ==> jobs == [created.value] + captured && !dialogOpen && form == BlankForm
      ensures created.None? ==> jobs == old(jobs) && dialogOpen == old(dialogOpen) && form == old(form)
    {
      if created.Some? {
        jobs := [created.value] + captured;
        dialogOpen := false;
        ResetForm();
      }
      saving := false;
    }

    /** `handleSaveJob` with nothing else happening while the request runs. */
    method SaveJob(created: Option<Job>) returns (sent: JobForm)
      modifies this
      ensures sent == old(form)
      ensures !saving && editingJob == old(editingJob)
      ensures created.Some? ==> jobs == [created.value] + old(jobs) && !dialogOpen && form == BlankForm
      ensures created.None? ==> jobs == old(jobs) && dialogOpen == old(dialogOpen) && form == old(form)
    {
      var captured: seq<Job>;
      captured, sent := BeginSaveJob();
      FinishSaveJob(captured, created);
    }

    /** The first half of `handleUpdateJob`: without a job being edited
        nothing is sent and nothing changes (`target` is `None`); otherwise
        the flag is raised and the form (`sent`) goes out, encoded by
        `PayloadOf`, to the edited job (`target`). The list is captured as
        it is now. */
    method BeginUpdateJob() returns (captured: seq<Job>, target: Option<Job>, sent: JobForm)
      modifies this`saving
      ensures target == old(editingJob) && captured == jobs && sent == form
      ensures saving == (old(saving) || target.Some?)
    {
      captured := jobs;
      target := editingJob;
      sent := form;
      if target.Some? {
        saving := true;
      }
    }

    /** The second half of `handleUpdateJob` for the edited job `target`: on
        success the server's job takes the place of the one with that id in
        the captured list, and the dialog closes. */
    method FinishUpdateJob(captured: seq<Job>, target: Job, updated: Option<Job>)
      modifies this`saving, this`jobs, this`editingJob, this`dialogOpen, this`form
      ensures !saving
      ensures updated.Some? ==>
        jobs == ReplaceById(captured, target.id, updated.value)
        && editingJob.None? && !dialogOpen && form == BlankForm
      ensures updated.None? ==>
        jobs == old(jobs) && editingJob == old(editingJob) && dialogOpen == old(dialogOpen) && form == old(form)
    {
      if updated.Some? {
        jobs := ReplaceById(captured, target.id, updated.value);
        editingJob := None;
        dialogOpen := false;
        ResetForm();
      }
      saving := false;
    }

    /** `handleUpdateJob` with nothing else happening while the request runs. */
    method UpdateJob(updated: Option<Job>) returns (target: Option<string>, sent: JobForm)
      modifies this
      ensures target == if old(editingJob).None? then None else Some(old(editingJob).value.id)
      ensures sent == old(form)
      ensures old(editingJob).None? ==>
        jobs == old(jobs) && editingJob == old(editingJob) && dialogOpen == old(dialogOpen)
        && form == old(form) && saving == old(saving)
      ensures old(editingJob).Some? && updated.Some? ==>
        jobs == ReplaceById(old(jobs), old(editingJob).value.id, updated.value)
        && editingJob.None? && !dialogOpen && form == BlankForm && !saving
      ensures old(editingJob).Some? && updated.None? ==>
        jobs == old(jobs) && editingJob == old(editingJob) && dialogOpen == old(dialogOpen)
        && form == old(form) && !saving
    {
      var captured, edited;
      captured, edited, sent := BeginUpdateJob();
      target := None;
      if edited.Some? {
        target := Some(edited.value.id);
        FinishUpdateJob(captured, edited.value, updated);
      }
    }

    /** `handleDeleteJob`, finishing with the list it captured when it
        started: on success the job with that id leaves that list. */
    method DeleteJob(captured: seq<Job>, jobId: string, ok: bool)
      modifies this`jobs
      ensures jobs == if ok then RemoveById(captured, jobId) else old(jobs)
    {
      if ok {
        jobs := RemoveById(captured, jobId);
      }
    }

    /** `handleToggleActive`, finishing with the list it captured when it
        started: request the negated flag; only a successful answer changes
        the list. */
    method ToggleActive(captured: seq<Job>, job: Job, updated: Option<Job>) returns (requestedActive: bool)
      modifies this`jobs
      ensures requestedActive == !job.isActive
      ensures jobs == if updated.Some? then ReplaceById(captured, job.id, updated.value) else old(jobs)
    {
      requestedActive := !job.isActive;
      if updated.Some? {
        jobs := ReplaceById(captured, job.id, updated.value);
      }
    }
  }

  /** Two handlers started on the same list: a delete of `job` that
      finishes first is undone when a toggle of the same job finishes
      afterwards, since the toggle maps over the list it captured. The
      deleted job is back in the list. */
  method StaleToggleRestoresDeleted(page: JobsPage, job: Job, updated: Job)
    requires page.jobs == [job] && updated.id == job.id
    modifies page
    ensures page.jobs == [updated]
  {
    var captured := page.jobs;
    page.DeleteJob(captured, job.id, true);
    assert page.jobs == [] by {
      assert RemoveById([job], job.id) == [] by {
        assert !IdIsNot(job.id)(job);
      }
    }
    var requested := page.ToggleActive(captured, job, Some(updated));
    assert ReplaceById([job], job.id, updated)[0] == updated;
  }
}

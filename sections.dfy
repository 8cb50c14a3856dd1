/** The content-section editor of app/admin/sections/page.tsx.

    The company's sections are kept as JSON text and decoded on every read.
    Edits are list transformations: add appends, update and toggle rewrite
    every section whose (title, type, content) triple equals the one picked,
    and delete removes only the first such section. Nothing is stored until
    "save", which sends the whole list; until then the editor is dirty. */
module AdminSections {
  import opened Wrappers
  import Json

  datatype Section = Section(sectionType: string, title: string, content: string, order: int, isActive: bool)

  /** The editing form: a section without its `order`. */
  datatype SectionForm = SectionForm(sectionType: string, title: string, content: string, isActive: bool)

  /** The form as the page opens it and resets it: an active "about" section
      with empty title and content. */
  const BlankForm := SectionForm("about", "", "", true)

  /** How the page identifies a section: by title, type and content, which
      need not be unique. */
  predicate SameTriple(a: Section, b: Section) {
    a.title == b.title && a.sectionType == b.sectionType && a.content == b.content
  }

  // ---------------------------------------------------------------- list edits

  /** The section `handleAddSection` builds: the form's fields, ordered last. */
  function NewSection(form: SectionForm, order: int): Section {
    Section(form.sectionType, form.title, form.content, order, form.isActive)
  }

  /** `[...sections, { ...sectionForm, order: sections.length }]` */
  function Appended(sections: seq<Section>, form: SectionForm): (r: seq<Section>)
    ensures |r| == |sections| + 1
    ensures r[..|sections|] == sections
    ensures r[|sections|].order == |sections|
    ensures r[|sections|].sectionType == form.sectionType && r[|sections|].title == form.title
    ensures r[|sections|].content == form.content && r[|sections|].isActive == form.isActive
  {
    sections + [NewSection(form, |sections|)]
  }

  /** `{ ...section, ...sectionForm }`: the form's fields over the section's own `order`. */
  function Overwritten(s: Section, form: SectionForm): Section {
    s.(sectionType := form.sectionType, title := form.title, content := form.content, isActive := form.isActive)
  }

  /** `handleUpdateSection`'s map: every section matching `target` takes the
      form's type, title, content and active flag and keeps its own order;
      every other section is untouched. */
  function UpdateMatching(sections: seq<Section>, target: Section, form: SectionForm): (r: seq<Section>)
    ensures |r| == |sections|
    ensures forall i :: 0 <= i < |r| ==> r[i].order == sections[i].order
    ensures forall i :: 0 <= i < |r| && SameTriple(sections[i], target) ==>
      r[i].sectionType == form.sectionType && r[i].title == form.title
      && r[i].content == form.content && r[i].isActive == form.isActive
    ensures forall i :: 0 <= i < |r| && !SameTriple(sections[i], target) ==> r[i] == sections[i]
  {
    seq(|sections|, i requires 0 <= i < |sections| =>
      if SameTriple(sections[i], target) then Overwritten(sections[i], form) else sections[i])
  }

  /** `findIndex`: the position of the first section matching `target`, or -1. */
  function FindMatch(sections: seq<Section>, target: Section): (k: int)
    ensures -1 <= k < |sections|
    ensures k == -1 <==> forall i :: 0 <= i < |sections| ==> !SameTriple(sections[i], target)
    ensures k >= 0 ==> SameTriple(sections[k], target)
    ensures k >= 0 ==> forall i :: 0 <= i < k ==> !SameTriple(sections[i], target)
  {
    if |sections| == 0 then -1
    else if SameTriple(sections[0], target) then 0
    else
      var k := FindMatch(sections[1..], target);
      if k == -1 then -1 else k + 1
  }

  /** `handleDeleteSection`: drop the first section matching `target`, or
      leave the list as it is when none does. */
  function DeleteFirstMatch(sections: seq<Section>, target: Section): (r: seq<Section>)
    ensures (forall i :: 0 <= i < |sections| ==> !SameTriple(sections[i], target)) ==> r == sections
    ensures (exists i :: 0 <= i < |sections| && SameTriple(sections[i], target)) ==>
      |r| == |sections| - 1
      && (exists k :: 0 <= k < |sections| && SameTriple(sections[k], target)
            && (forall i :: 0 <= i < k ==> !SameTriple(sections[i], target))
            && r == sections[..k] + sections[k + 1..])
  {
    var k := FindMatch(sections, target);
    if k == -1 then sections
    else seq(|sections| - 1, i requires 0 <= i < |sections| - 1 => if i < k then sections[i] else sections[i + 1])
  }

  /** `handleToggleSection`'s map: flip `isActive` on every section matching
      `section` and on nothing else. */
  function ToggleMatching(sections: seq<Section>, section: Section): (r: seq<Section>)
    ensures |r| == |sections|
    ensures forall i :: 0 <= i < |r| ==> SameTriple(r[i], sections[i]) && r[i].order == sections[i].order
    ensures forall i :: 0 <= i < |r| && SameTriple(sections[i], section) ==> r[i].isActive == !sections[i].isActive
    ensures forall i :: 0 <= i < |r| && !SameTriple(sections[i], section) ==> r[i] == sections[i]
  {
    seq(|sections|, i requires 0 <= i < |sections| =>
      if SameTriple(sections[i], section) then sections[i].(isActive := !sections[i].isActive) else sections[i])
  }

  /** Toggling the same section twice restores the list. */
  lemma ToggleTwice(sections: seq<Section>, section: Section)
    ensures ToggleMatching(ToggleMatching(sections, section), section) == sections
  {
    var once := ToggleMatching(sections, section);
    var twice := ToggleMatching(once, section);
    forall i | 0 <= i < |sections|
      ensures twice[i] == sections[i]
    {
      assert SameTriple(once[i], section) <==> SameTriple(sections[i], section);
    }
  }

  /** Deleting a section just added removes it again, provided no earlier
      section has the same triple (otherwise that one goes instead). */
  lemma DeleteUndoesAdd(sections: seq<Section>, form: SectionForm)
    requires forall i :: 0 <= i < |sections| ==> !SameTriple(sections[i], NewSection(form, |sections|))
    ensures DeleteFirstMatch(Appended(sections, form), NewSection(form, |sections|)) == sections
  {
    var added := Appended(sections, form);
    var k := FindMatch(added, NewSection(form, |sections|));
    assert SameTriple(added[|sections|], NewSection(form, |sections|));
    assert k == |sections|;
  }

  /** With two sections sharing a triple, delete removes only the first,
      while toggle flips both. */
  lemma DuplicateTriples(a: Section, b: Section)
    requires SameTriple(a, b)
    ensures DeleteFirstMatch([a, b], a) == [b]
    ensures ToggleMatching([a, b], a) == [a.(isActive := !a.isActive), b.(isActive := !b.isActive)]
  {
    assert FindMatch([a, b], a) == 0;
  }

  // ---------------------------------------------------------------- the editor

  /** The loaded company: its id and its JSON section list. */
  datatype Company = Company(id: string, sections: Json.Encoded<seq<Section>>)

  /** The page's state: the company, the saving flag, the section being
      edited, the unsaved-changes flag and the form. */
  class SectionEditor {
    var company: Option<Company>
    var saving: bool
    var editingSection: Option<Section>
    var hasUnsavedChanges: bool
    var sectionForm: SectionForm

    constructor ()
      ensures company.None? && !saving && editingSection.None? && !hasUnsavedChanges
      ensures sectionForm == BlankForm
    {
      company := None;
      saving := false;
      editingSection := None;
      hasUnsavedChanges := false;
      sectionForm := BlankForm;
    }

    /** `fetchCompany`: a company in the response replaces the state's. */
    method Load(data: Option<Company>)
      modifies this`company
      ensures company == if data.Some? then data else old(company)
    {
      if data.Some? {
        company := data;
      }
    }

    /** `getSections`: the decoded list; empty without a company or when the
        text does not decode. */
    function Sections(): (r: seq<Section>)
      reads this
      ensures company.None? ==> r == []
      ensures company.Some? && Json.Parse(company.value.sections).None? ==> r == []
      ensures company.Some? && Json.Parse(company.value.sections).Some? ==>
        r == Json.Parse(company.value.sections).value
    {
      match company
      case None => []
      case Some(c) => Json.Parse(c.sections).GetOr([])
    }

    /** The save button is enabled only when there are changes and no save
        is in progress (`disabled={saving || !hasUnsavedChanges}`). */
    function CanSave(): (enabled: bool)
      reads this
      ensures enabled ==> hasUnsavedChanges
      ensures saving ==> !enabled
      ensures enabled <==> !(saving || !hasUnsavedChanges)
    {
      !saving && hasUnsavedChanges
    }

    /** `setSections`: store the encoded list and mark the editor dirty; a
        no-op without a company. */
    method SetSections(sections: seq<Section>)
      modifies this`company, this`hasUnsavedChanges
      ensures old(company).None? ==> company == old(company) && hasUnsavedChanges == old(hasUnsavedChanges)
      ensures old(company).Some? ==>
        company == Some(old(company).value.(sections := Json.Stringify(sections)))
        && Sections() == sections && hasUnsavedChanges
    {
      if company.Some? {
        company := Some(company.value.(sections := Json.Stringify(sections)));
        hasUnsavedChanges := true;
      }
    }

    /** `handleAddSection`: append the form as the last section, then reset the form. */
    method AddSection()
      modifies this`company, this`hasUnsavedChanges, this`sectionForm
      ensures old(company).None? ==> unchanged(this)
      ensures old(company).Some? ==>
        && company == Some(old(company).value.(sections := Json.Stringify(Appended(old(Sections()), old(sectionForm)))))
        && Sections() == Appended(old(Sections()), old(sectionForm))
        && hasUnsavedChanges && sectionForm == BlankForm
    {
      if company.None? {
        return;
      }
      var sections := Sections();
      SetSections(Appended(sections, sectionForm));
      sectionForm := BlankForm;
    }

    /** `handleEditSection`: remember the section and load it into the form. */
    method EditSection(section: Section)
      modifies this`editingSection, this`sectionForm
      ensures editingSection == Some(section)
      ensures sectionForm == SectionForm(section.sectionType, section.title, section.content, section.isActive)
    {
      editingSection := Some(section);
      sectionForm := SectionForm(section.sectionType, section.title, section.content, section.isActive);
    }

    /** The Cancel button: stop editing and reset the form. */
    method CancelEdit()
      modifies this`editingSection, this`sectionForm
      ensures editingSection.None? && sectionForm == BlankForm
    {
      editingSection := None;
      sectionForm := BlankForm;
    }

    /** `handleUpdateSection`: write the form over every section matching the
        one being edited, then leave edit mode. */
    method UpdateSection()
      modifies this
      ensures old(company).None? || old(editingSection).None? ==> unchanged(this)
      ensures old(company).Some? && old(editingSection).Some? ==>
        && company == Some(old(company).value.(sections :=
             Json.Stringify(UpdateMatching(old(Sections()), old(editingSection).value, old(sectionForm)))))
        && Sections() == UpdateMatching(old(Sections()), old(editingSection).value, old(sectionForm))
        && hasUnsavedChanges && saving == old(saving)
        && editingSection.None? && sectionForm == BlankForm
    {
      if company.None? || editingSection.None? {
        return;
      }
      var sections := Sections();
      SetSections(UpdateMatching(sections, editingSection.value, sectionForm));
      editingSection := None;
      sectionForm := BlankForm;
    }

    /** `handleDeleteSection`: remove the first section matching the given
        one; with no match the state, the unsaved flag included, is untouched. */
    method DeleteSection(section: Section)
      modifies this`company, this`hasUnsavedChanges
      ensures old(company).None? || FindMatch(old(Sections()), section) == -1 ==> unchanged(this)
      ensures old(company).Some? && FindMatch(old(Sections()), section) != -1 ==>
        && company == Some(old(company).value.(sections := Json.Stringify(DeleteFirstMatch(old(Sections()), section))))
        && Sections() == DeleteFirstMatch(old(Sections()), section)
        && |Sections()| == |old(Sections())| - 1
        && hasUnsavedChanges
    {
      if company.None? {
        return;
      }
      var sections := Sections();
      var k := FindMatch(sections, section);
      if k != -1 {
        SetSections(DeleteFirstMatch(sections, section));
      }
    }

    /** `handleToggleSection`: flip `isActive` on every matching section. */
    method ToggleSection(section: Section)
      modifies this`company, this`hasUnsavedChanges
      ensures old(company).None? ==> unchanged(this)
      ensures old(company).Some? ==>
        && company == Some(old(company).value.(sections := Json.Stringify(ToggleMatching(old(Sections()), section))))
        && Sections() == ToggleMatching(old(Sections()), section)
        && hasUnsavedChanges
    {
      if company.None? {
        return;
      }
      var sections := Sections();
      SetSections(ToggleMatching(sections, section));
    }

    /** The first half of `handleSaveSections`: mark the save in progress and
        return the text to send, `None` (and no change) without a company. */
    method BeginSave() returns (body: Option<Json.Encoded<seq<Section>>>)
      modifies this`saving
      ensures old(company).None? ==> body.None? && unchanged(this)
      ensures old(company).Some? ==> body == Some(company.value.sections) && saving
      ensures company == old(company) && hasUnsavedChanges == old(hasUnsavedChanges)
    {
      if company.None? {
        return None;
      }
      saving := true;
      body := Some(company.value.sections);
    }

    /** The second half: a successful response clears the unsaved flag; a
        failed one (an error status or a network failure) keeps it and the
        edits; either way the save is over. */
    method FinishSave(ok: bool)
      modifies this`saving, this`hasUnsavedChanges
      ensures !saving
      ensures hasUnsavedChanges == (old(hasUnsavedChanges) && !ok)
    {
      if ok {
        hasUnsavedChanges := false;
      }
      saving := false;
    }

    /** `handleSaveSections`, whole: the request, then its outcome `ok`. */
    method SaveSections(ok: bool) returns (body: Option<Json.Encoded<seq<Section>>>)
      modifies this`saving, this`hasUnsavedChanges
      ensures old(company).None? ==> body.None? && unchanged(this)
      ensures old(company).Some? ==>
        && body == Some(company.value.sections)
        && !saving && hasUnsavedChanges == (old(hasUnsavedChanges) && !ok)
      ensures company == old(company)
    {
      body := BeginSave();
      if body.Some? {
        FinishSave(ok);
      }
    }
  }

  /** A session of edits followed by a failed save: the edit is kept and the
      editor stays dirty, so the save button comes back; a successful save
      disables it. */
  method EditThenSave(editor: SectionEditor, section: Section, ok: bool)
    requires editor.company.Some? && !editor.saving
    modifies editor
    ensures editor.Sections() == ToggleMatching(old(editor.Sections()), section)
    ensures editor.CanSave() <==> !ok
  {
    editor.ToggleSection(section);
    assert editor.hasUnsavedChanges;
    var body := editor.BeginSave();
    assert !editor.CanSave();
    editor.FinishSave(ok);
  }
}

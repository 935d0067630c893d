/** The section editor (src/components/quote/SectionManager.tsx). It keeps
    the text of the new-section field and the rename in progress, and
    forwards add, rename and delete requests to the editor under guards.
    The sections themselves belong to the caller and are passed in. */
module SectionManager {
  import opened Wrappers
  import opened Text
  import opened QuoteTypes

  /** The arguments of `createDefaultSection(name, order)`; the section it
      builds is the caller's business. */
  datatype NewSection = NewSection(name: string, order: nat)

  datatype Rename = Rename(sectionId: string, newName: string)

  /** `x.trim()` is truthy: something is left after trimming. */
  predicate Filled(s: string) {
    Trim(s) != ""
  }

  class Manager {
    var newSectionName: string
    var editingSectionId: Option<string>
    var editingName: string

    constructor ()
      ensures newSectionName == "" && editingSectionId.None? && editingName == ""
    {
      newSectionName := "";
      editingSectionId := None;
      editingName := "";
    }

    /** `handleAddSection`: a blank name adds nothing. Otherwise a section
        with the trimmed name is requested at the end (its order is the
        current count) and the field is cleared. */
    method HandleAddSection(sections: seq<QuoteSection>) returns (req: Option<NewSection>)
      modifies this
      ensures req.Some? <==> Filled(old(newSectionName))
      ensures req.Some? ==> req.value == NewSection(Trim(old(newSectionName)), |sections|)
      ensures req.Some? ==> newSectionName == ""
      ensures req.None? ==> newSectionName == old(newSectionName)
      ensures editingSectionId == old(editingSectionId) && editingName == old(editingName)
    {
      var name := Trim(newSectionName);
      if name == "" {
        return None;
      }
      req := Some(NewSection(name, |sections|));
      newSectionName := "";
    }

    /** `handleStartEditing`: the rename starts from the section's current
        name. */
    method HandleStartEditing(section: QuoteSection)
      modifies this
      ensures editingSectionId == Some(section.id) && editingName == section.name
      ensures newSectionName == old(newSectionName)
    {
      editingSectionId := Some(section.id);
      editingName := section.name;
    }

    /** `handleSaveEdit`: forwarded only while a rename is in progress and
        the name is not blank; then the rename is finished. */
    method HandleSaveEdit() returns (req: Option<Rename>)
      modifies this
      ensures req.Some? <==> old(editingSectionId).Some? && old(editingSectionId).value != "" && Filled(old(editingName))
      ensures req.Some? ==> req.value == Rename(old(editingSectionId).value, Trim(old(editingName)))
      ensures req.Some? ==> var n := req.value.newName; n != "" && !IsJsSpace(n[0]) && !IsJsSpace(n[|n| - 1])
      ensures req.Some? ==> editingSectionId.None? && editingName == ""
      ensures req.None? ==> editingSectionId == old(editingSectionId) && editingName == old(editingName)
      ensures newSectionName == old(newSectionName)
    {
      var name := Trim(editingName);
      if editingSectionId.None? || editingSectionId.value == "" || name == "" {
        return None;
      }
      req := Some(Rename(editingSectionId.value, name));
      editingSectionId := None;
      editingName := "";
    }

    /** `handleDeleteSection`: forwarded only when more than one section
        exists, so the last section can never be deleted from here. */
    method HandleDeleteSection(sections: seq<QuoteSection>, sectionId: string) returns (req: Option<string>)
      ensures req.Some? <==> |sections| > 1
      ensures req.Some? ==> req.value == sectionId
    {
      if |sections| > 1 {
        return Some(sectionId);
      }
      return None;
    }
  }
}

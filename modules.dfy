/** The admin module manager (src/pages/admin/Modules.jsx): the form that
    creates a module together with its four default sections or updates an
    existing one, the delete button, and the button that repairs a module
    whose sections are missing. */
module Modules {
  import opened Remote
  import opened Content

  /** `DEFAULT_SECTIONS`, in the order they are numbered. */
  const DefaultSections: seq<string> := ["Cours", "TP", "TD", "Examens"]

  /** `names.map((name, index) => ({ module_id, name, order_index: index }))`,
      with the index counted from `start`. */
  function NumberedRows(moduleId: string, names: seq<string>, start: nat): (rows: seq<SectionRow>)
    ensures |rows| == |names|
    ensures forall i :: 0 <= i < |rows| ==> rows[i] == SectionRow(moduleId, names[i], start + i)
    decreases |names|
  {
    if names == [] then [] else [SectionRow(moduleId, names[0], start)] + NumberedRows(moduleId, names[1..], start + 1)
  }

  /** The rows inserted for a new module: one per default section, in order,
      numbered 0 to 3, all pointing at the module. */
  function SectionRows(moduleId: string): (rows: seq<SectionRow>)
    ensures |rows| == 4
    ensures forall i :: 0 <= i < 4 ==> rows[i] == SectionRow(moduleId, DefaultSections[i], i)
  {
    NumberedRows(moduleId, DefaultSections, 0)
  }

  /** The rows of a section table that belong to one module, in table order:
      every row of the module and no other. */
  function SectionsOf(table: seq<SectionRow>, moduleId: string): (mine: seq<SectionRow>)
    ensures |mine| <= |table|
    ensures forall r :: r in mine ==> r in table && r.moduleId == moduleId
    ensures forall r :: r in table && r.moduleId == moduleId ==> r in mine
    decreases |table|
  {
    if table == [] then []
    else
      var rest := SectionsOf(table[1..], moduleId);
      assert forall r :: r in table ==> r == table[0] || r in table[1..];
      (if table[0].moduleId == moduleId then [table[0]] else []) + rest
  }

  /** Selecting a module's rows distributes over appending to the table. */
  lemma {:induction false} SectionsOfAppend(a: seq<SectionRow>, b: seq<SectionRow>, moduleId: string)
    ensures SectionsOf(a + b, moduleId) == SectionsOf(a, moduleId) + SectionsOf(b, moduleId)
    decreases |a|
  {
    if a == [] {
      assert a + b == b;
    } else {
      SectionsOfAppend(a[1..], b, moduleId);
      assert (a + b)[1..] == a[1..] + b;
    }
  }

  /** Every row built for a module belongs to it. */
  lemma {:induction false} NumberedRowsBelong(moduleId: string, names: seq<string>, start: nat)
    ensures SectionsOf(NumberedRows(moduleId, names, start), moduleId) == NumberedRows(moduleId, names, start)
    decreases |names|
  {
    if names != [] {
      NumberedRowsBelong(moduleId, names[1..], start + 1);
      assert NumberedRows(moduleId, names, start)[1..] == NumberedRows(moduleId, names[1..], start + 1);
    }
  }

  /** Inserting the default rows into a table with no section of the module
      leaves the module with exactly the four defaults, numbered in order. */
  lemma FillsEmptyModule(table: seq<SectionRow>, moduleId: string)
    requires SectionsOf(table, moduleId) == []
    ensures SectionsOf(table + SectionRows(moduleId), moduleId) == SectionRows(moduleId)
  {
    SectionsOfAppend(table, SectionRows(moduleId), moduleId);
    NumberedRowsBelong(moduleId, DefaultSections, 0);
  }

  /** Rows built for one module hold nothing of another. */
  lemma {:induction false} NumberedRowsForeign(other: string, names: seq<string>, start: nat, moduleId: string)
    requires other != moduleId
    ensures SectionsOf(NumberedRows(other, names, start), moduleId) == []
    decreases |names|
  {
    if names != [] {
      NumberedRowsForeign(other, names[1..], start + 1, moduleId);
      assert NumberedRows(other, names, start)[1..] == NumberedRows(other, names[1..], start + 1);
    }
  }

  /** Rows inserted for another module leave this module's sections alone. */
  lemma OtherModuleUntouched(table: seq<SectionRow>, moduleId: string, other: string)
    requires other != moduleId
    ensures SectionsOf(table + SectionRows(other), moduleId) == SectionsOf(table, moduleId)
  {
    SectionsOfAppend(table, SectionRows(other), moduleId);
    NumberedRowsForeign(other, DefaultSections, 0, moduleId);
  }

  /** What the page asks of the hosted service. */
  datatype Request =
    | UpdateModule(id: string, form: ModuleForm)
    | InsertModule(form: ModuleForm)
    | InsertSections(rows: seq<SectionRow>)
    | DeleteModule(id: string)
    | FetchModules(groupId: string)
    | QuerySections(moduleId: string)

  /** The alerts the page shows. */
  datatype Notice = SubmitFailed | Deleted | DeleteFailed | SectionsCreated | SectionsExist

  /** The repair button of module `m`. `existing` is the list of section ids
      the query returned, `None` when it returned none at all. The defaults
      are inserted only for an empty list, and the outcome of that insert is
      not consulted: the success alert follows it either way. */
  method Repair(m: ModuleRow, existing: Option<seq<string>>) returns (requests: seq<Request>, notice: Notice)
    ensures existing == Some([]) ==>
      requests == [QuerySections(m.id), InsertSections(SectionRows(m.id))] && notice == SectionsCreated
    ensures existing != Some([]) ==> requests == [QuerySections(m.id)] && notice == SectionsExist
  {
    requests := [QuerySections(m.id)];
    if existing.Some? && |existing.value| == 0 {
      requests := requests + [InsertSections(SectionRows(m.id))];
      notice := SectionsCreated;
    } else {
      notice := SectionsExist;
    }
  }

  /** The repair applied to a section table twice in a row, the query of
      each run answering from the table (`ids2` are the ids it finds the
      second time): the first run fills the module with the defaults, the
      second inserts nothing. */
  method RepairTwice(m: ModuleRow, table: seq<SectionRow>, ids2: seq<string>)
    returns (after: seq<SectionRow>, first: Notice, second: Notice)
    requires SectionsOf(table, m.id) == []
    requires |ids2| == |SectionsOf(table + SectionRows(m.id), m.id)|
    ensures SectionsOf(after, m.id) == SectionRows(m.id)
    ensures first == SectionsCreated && second == SectionsExist
  {
    var requests;
    requests, first := Repair(m, Some([]));
    assert requests[1] == InsertSections(SectionRows(m.id));
    after := table + requests[1].rows;
    FillsEmptyModule(table, m.id);
    requests, second := Repair(m, Some(ids2));
  }

  class ModulesPage {
    var modules: seq<ModuleRow>
    var selectedGroup: string
    var isModalOpen: bool
    var currentModule: Option<ModuleRow>
    var formData: ModuleForm

    constructor ()
      ensures modules == [] && selectedGroup == "" && !isModalOpen && currentModule == None
      ensures formData == ModuleForm("", "", "")
    {
      modules, selectedGroup, isModalOpen := [], "", false;
      currentModule := None;
      formData := ModuleForm("", "", "");
    }

    /** `openModal(mod)`: editing copies the module's fields (a null
        description becomes ''), creating starts from an empty form in the
        selected group; the modal opens either way. */
    method OpenModal(mod: Option<ModuleRow>)
      modifies this`currentModule, this`formData, this`isModalOpen
      ensures currentModule == mod && isModalOpen
      ensures mod.Some? ==> formData == ModuleForm(mod.value.name, mod.value.groupId,
        if mod.value.description.Some? then mod.value.description.value else "")
      ensures mod.None? ==> formData == ModuleForm("", selectedGroup, "")
    {
      if mod.Some? {
        currentModule := mod;
        var description := if mod.value.description.Some? then mod.value.description.value else "";
        formData := ModuleForm(mod.value.name, mod.value.groupId, description);
      } else {
        currentModule := None;
        formData := ModuleForm("", selectedGroup, "");
      }
      isModalOpen := true;
    }

    /** `handleSubmit`. `update`, `created` (the new module's id) and
        `sections` are the outcomes of the three calls it may make, each
        consulted only when that call is made. */
    method HandleSubmit(update: Status, created: Outcome<string>, sections: Status)
      returns (requests: seq<Request>, notice: Option<Notice>)
      modifies this`isModalOpen
      // editing: one update, never a module or section insert
      ensures currentModule.Some? ==>
        var sent := [UpdateModule(currentModule.value.id, formData)];
        && (update.Failed? ==> requests == sent && notice == Some(SubmitFailed) && isModalOpen == old(isModalOpen))
        && (update.Done? ==> requests == sent + [FetchModules(selectedGroup)] && notice == None && !isModalOpen)
      // creating: the sections are inserted only once the module exists
      ensures currentModule.None? && created.Err? ==>
        requests == [InsertModule(formData)] && notice == Some(SubmitFailed) && isModalOpen == old(isModalOpen)
      ensures currentModule.None? && created.Ok? ==>
        var sent := [InsertModule(formData), InsertSections(SectionRows(created.value))];
        && (sections.Failed? ==> requests == sent && notice == Some(SubmitFailed) && isModalOpen == old(isModalOpen))
        && (sections.Done? ==> requests == sent + [FetchModules(selectedGroup)] && notice == None && !isModalOpen)
    {
      notice := None;
      if currentModule.Some? {
        requests := [UpdateModule(currentModule.value.id, formData)];
        if update.Failed? {
          return requests, Some(SubmitFailed);
        }
      } else {
        requests := [InsertModule(formData)];
        if created.Err? {
          return requests, Some(SubmitFailed);
        }
        var rows := SectionRows(created.value);
        requests := requests + [InsertSections(rows)];
        if sections.Failed? {
          return requests, Some(SubmitFailed);
        }
      }
      isModalOpen := false;
      requests := requests + [FetchModules(selectedGroup)];
    }

    /** `handleDelete(id)`: after confirmation, one delete, then a re-fetch
        and the success alert, or the failure alert. */
    method HandleDelete(id: string, confirmed: bool, delete: Status) returns (requests: seq<Request>, notice: Option<Notice>)
      ensures !confirmed ==> requests == [] && notice == None
      ensures confirmed && delete.Done? ==> requests == [DeleteModule(id), FetchModules(selectedGroup)] && notice == Some(Deleted)
      ensures confirmed && delete.Failed? ==> requests == [DeleteModule(id)] && notice == Some(DeleteFailed)
    {
      if !confirmed {
        return [], None;
      }
      requests := [DeleteModule(id)];
      if delete.Failed? {
        notice := Some(DeleteFailed);
      } else {
        requests := requests + [FetchModules(selectedGroup)];
        notice := Some(Deleted);
      }
    }
  }

  /** A client of the page: opening the empty form and submitting it with
      every call succeeding creates the module in the selected group and
      its four default sections, and closes the modal. */
  method CreateModule(page: ModulesPage, newId: string) returns (requests: seq<Request>)
    modifies page
    ensures requests == [InsertModule(ModuleForm("", page.selectedGroup, "")),
      InsertSections(SectionRows(newId)), FetchModules(page.selectedGroup)]
    ensures !page.isModalOpen
  {
    page.OpenModal(None);
    var notice;
    requests, notice := page.HandleSubmit(Done, Ok(newId), Done);
  }
}

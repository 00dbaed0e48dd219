/** The packages table with its "Add New Package" dialog
    (src/views/admin/dataTables/components/PackagesTable.tsx): a local copy
    of the rows, a draft row edited field by field, and an add that appends
    the draft. Nothing is validated: empty names are accepted. */
module PackagesTable {
  import opened ProductRows

  /** The component's state: its local rows, the dialog flag and the draft. */
  datatype TableState = TableState(data: seq<Row>, modalOpen: bool, draft: Row)

  /** The empty draft: `{ name: '', status: '', date: '', progress: 0 }`. */
  const EmptyDraft := Row("", "", "", 0)

  /** One form input: name, status, date, or progress (its `parseInt`
      modelled as an integer). */
  datatype DraftEdit = EditName(name: string) | EditStatus(status: string)
                     | EditDate(date: string) | EditProgress(progress: int)

  /** The table as first rendered from its `tableData` prop. */
  function InitialState(tableData: seq<Row>): (s: TableState)
    ensures s.data == tableData && !s.modalOpen && s.draft == EmptyDraft
  {
    TableState(tableData, false, EmptyDraft)
  }

  /** The onChange of one input: that field of the draft takes the typed
      value, every other field keeps its value; rows and dialog are left
      alone. */
  function EditDraft(s: TableState, edit: DraftEdit): (r: TableState)
    ensures r.data == s.data && r.modalOpen == s.modalOpen
    ensures r.draft.name == (if edit.EditName? then edit.name else s.draft.name)
    ensures r.draft.status == (if edit.EditStatus? then edit.status else s.draft.status)
    ensures r.draft.date == (if edit.EditDate? then edit.date else s.draft.date)
    ensures r.draft.progress == (if edit.EditProgress? then edit.progress else s.draft.progress)
  {
    match edit
    case EditName(v) => s.(draft := s.draft.(name := v))
    case EditStatus(v) => s.(draft := s.draft.(status := v))
    case EditDate(v) => s.(draft := s.draft.(date := v))
    case EditProgress(v) => s.(draft := s.draft.(progress := v))
  }

  /** "Add New Package" opens the dialog. */
  function OpenModal(s: TableState): (r: TableState)
    ensures r.modalOpen && r.data == s.data && r.draft == s.draft
  {
    s.(modalOpen := true)
  }

  /** `handleAddProduct`: the draft is appended as the last row, the rows
      before it are unchanged, the dialog closes and the draft is reset. */
  function AddPackage(s: TableState): (r: TableState)
    ensures |r.data| == |s.data| + 1
    ensures r.data[..|s.data|] == s.data && r.data[|s.data|] == s.draft
    ensures !r.modalOpen && r.draft == EmptyDraft
  {
    s.(data := s.data + [s.draft], modalOpen := false, draft := EmptyDraft)
  }

  /** "Cancel" or the dialog's own close: only the dialog closes; rows and
      draft stay. */
  function CancelModal(s: TableState): (r: TableState)
    ensures !r.modalOpen && r.data == s.data && r.draft == s.draft
  {
    s.(modalOpen := false)
  }

  /** Typing every field and adding yields a row with exactly the typed
      values, and a fresh empty form afterwards. */
  lemma {:induction false} FillAndAdd(s: TableState, name: string, status: string,
                                      date: string, progress: int)
    ensures var filled := EditDraft(EditDraft(EditDraft(EditDraft(s,
                            EditName(name)), EditStatus(status)), EditDate(date)),
                            EditProgress(progress));
            var r := AddPackage(filled);
            && r.data == s.data + [Row(name, status, date, progress)]
            && r.draft == EmptyDraft
  {
    var filled := EditDraft(EditDraft(EditDraft(EditDraft(s,
                    EditName(name)), EditStatus(status)), EditDate(date)),
                    EditProgress(progress));
    assert filled.draft == Row(name, status, date, progress);
  }
}

/** The product row shared by the products table
    (src/views/admin/dataTables/components/DevelopmentTable.tsx) and the
    packages table (src/views/admin/dataTables/components/PackagesTable.tsx),
    the status cell both tables draw for it, and the sort arrow of a column
    header. */
module ProductRows {
  import opened Common

  /** `RowObj` of both tables. */
  datatype Row = Row(name: string, status: string, date: string, progress: int)

  const ReadyToOrder := "Ready to Order"
  const InRepair := "In Repair"
  const Occupied := "Occupied"

  datatype StatusColor = Green | Red | Orange | Gray
  datatype StatusIcon = CheckCircle | Cancel | OutlineError

  /** How the status cell is drawn: an icon colour and, possibly, an icon. */
  datatype StatusStyle = StatusStyle(color: StatusColor, icon: Option<StatusIcon>)

  /** The status cell: "Ready to Order" is a green check, "In Repair" a red
      cancel mark, "Occupied" an orange error mark; any other status is gray
      and has no icon. */
  function StyleOf(status: string): (s: StatusStyle)
    ensures s.color == Green <==> status == ReadyToOrder
    ensures s.color == Red <==> status == InRepair
    ensures s.color == Orange <==> status == Occupied
    ensures s.color == Gray <==> status !in {ReadyToOrder, InRepair, Occupied}
    ensures s.icon == None <==> s.color == Gray
    ensures s.icon == Some(CheckCircle) <==> s.color == Green
    ensures s.icon == Some(Cancel) <==> s.color == Red
    ensures s.icon == Some(OutlineError) <==> s.color == Orange
  {
    if status == ReadyToOrder then StatusStyle(Green, Some(CheckCircle))
    else if status == InRepair then StatusStyle(Red, Some(Cancel))
    else if status == Occupied then StatusStyle(Orange, Some(OutlineError))
    else StatusStyle(Gray, None)
  }

  /** `column.getIsSorted()`: not sorted, ascending or descending. */
  datatype SortState = Unsorted | Ascending | Descending

  /** The text after a column header: " 🔼" when ascending, " 🔽" when
      descending, nothing when unsorted. */
  function SortIndicator(s: SortState): (mark: Option<string>)
    ensures mark.None? <==> s == Unsorted
    ensures s == Ascending ==> mark == Some(" \U{1F53C}")
    ensures s == Descending ==> mark == Some(" \U{1F53D}")
  {
    match s
    case Unsorted => None
    case Ascending => Some(" \U{1F53C}")
    case Descending => Some(" \U{1F53D}")
  }

  /** The header tells the three sort states apart. */
  lemma SortIndicatorDistinguishes(s: SortState, t: SortState)
    requires SortIndicator(s) == SortIndicator(t)
    ensures s == t
  {
  }
}

/** The products page (src/views/admin/dataTables/index.tsx): a products
    table, a switch between the "Products" and "Product Types" views, and a
    dialog for the clicked product that offers an Order button only for a
    product that is ready to order. */
module Catalog {
  import opened Common
  import opened ProductRows

  /** The page's state: the clicked product, `canOrder`, the dialog flag
      and the view switch. */
  datatype CatalogPage = CatalogPage(
    selected: Option<Row>,
    canOrder: bool,
    modalOpen: bool,
    viewProductTypes: bool)

  /** The page as first rendered. */
  function InitialPage(): (p: CatalogPage)
    ensures p.selected == None && !p.canOrder && !p.modalOpen && !p.viewProductTypes
  {
    CatalogPage(None, false, false, false)
  }

  /** What the page keeps true: `canOrder` says whether the clicked
      product is ready to order, and is false before any click. */
  predicate Consistent(p: CatalogPage) {
    if p.selected.Some? then p.canOrder <==> p.selected.value.status == ReadyToOrder
    else !p.canOrder
  }

  /** `handleProductClick`: every click selects the product and opens the
      dialog, whatever its status; `canOrder` holds exactly for status
      "Ready to Order". */
  function ProductClick(p: CatalogPage, product: Row): (r: CatalogPage)
    ensures r.selected == Some(product) && r.modalOpen
    ensures r.canOrder <==> product.status == ReadyToOrder
    ensures r.viewProductTypes == p.viewProductTypes
    ensures Consistent(r)
  {
    p.(selected := Some(product), canOrder := product.status == ReadyToOrder, modalOpen := true)
  }

  /** Clicking the name in row `index` of the products table reports that
      row's own record to the page. */
  function ClickRow(p: CatalogPage, tableData: seq<Row>, index: int): (r: CatalogPage)
    requires 0 <= index < |tableData|
    ensures r.selected == Some(tableData[index]) && r.modalOpen
    ensures r.canOrder <==> tableData[index].status == ReadyToOrder
  {
    ProductClick(p, tableData[index])
  }

  /** Closing the dialog; the selection and `canOrder` stay. */
  function CloseModal(p: CatalogPage): (r: CatalogPage)
    ensures !r.modalOpen && r.selected == p.selected && r.canOrder == p.canOrder
    ensures r.viewProductTypes == p.viewProductTypes
  {
    p.(modalOpen := false)
  }

  /** The view switch flips `viewProductTypes` and nothing else. */
  function ToggleView(p: CatalogPage): (r: CatalogPage)
    ensures r.viewProductTypes == !p.viewProductTypes
    ensures r.selected == p.selected && r.canOrder == p.canOrder && r.modalOpen == p.modalOpen
  {
    p.(viewProductTypes := !p.viewProductTypes)
  }

  /** The heading above the table names the view the switch selects. */
  function Heading(p: CatalogPage): (h: string)
    ensures h == "Product Types" <==> p.viewProductTypes
    ensures h == "Products" <==> !p.viewProductTypes
  {
    if p.viewProductTypes then "Product Types" else "Products"
  }

  /** The rows handed to the table. The two branches of the conditional
      are kept as the page writes them, and both pass the products data:
      the switch has no effect on the rows. */
  function TableData(p: CatalogPage, products: seq<Row>): (rows: seq<Row>)
    ensures rows == products
  {
    if p.viewProductTypes then products else products
  }

  /** The Order button is in the dialog footer only when `canOrder`. */
  predicate OrderButtonShown(p: CatalogPage) {
    p.canOrder
  }

  /** The "available to order on" line appears only for a product that
      cannot be ordered and is "Occupied" or "In Repair". */
  predicate AvailabilityShown(p: CatalogPage) {
    !p.canOrder && p.selected.Some?
    && (p.selected.value.status == Occupied || p.selected.value.status == InRepair)
  }

  /** The switch changes only labels: the heading flips, the data does
      not. Toggling twice is no change at all. */
  lemma ToggleChangesOnlyLabels(p: CatalogPage, products: seq<Row>)
    ensures TableData(ToggleView(p), products) == TableData(p, products) == products
    ensures Heading(ToggleView(p)) != Heading(p)
    ensures ToggleView(ToggleView(p)) == p
  {
  }

  /** Every transition of the page keeps `canOrder` in step with the
      clicked product. */
  lemma TransitionsKeepConsistent(p: CatalogPage, product: Row)
    requires Consistent(p)
    ensures Consistent(InitialPage())
    ensures Consistent(ProductClick(p, product))
    ensures Consistent(CloseModal(p))
    ensures Consistent(ToggleView(p))
  {
  }

  /** In a consistent page, the dialog agrees with the table's status cell:
      the Order button appears exactly for a green check, and the
      availability line exactly for a red or orange mark. */
  lemma {:induction false} DialogAgreesWithStatusCell(p: CatalogPage)
    requires Consistent(p) && p.selected.Some?
    ensures OrderButtonShown(p) <==> StyleOf(p.selected.value.status).color == Green
    ensures AvailabilityShown(p) <==>
              StyleOf(p.selected.value.status).color in {Red, Orange}
  {
    var c := StyleOf(p.selected.value.status).color;
    assert c in {Red, Orange} <==> c == Red || c == Orange;
  }
}

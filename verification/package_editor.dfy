/** The packages dashboard (src/views/admin/dataTables/packages.tsx): a
    fixed list of packages, one selected package, and the "Modify Package"
    dialog that edits a draft list of product rows.

    JavaScript objects are shared by reference, and the screen depends on
    it: the draft array is a fresh array holding the SAME product objects as
    the selected package, and a field edit writes into such an object in
    place. The model therefore keeps product rows in a heap, a map from
    references to product values, and lists of products are lists of
    references. */
module PackageEditor {
  import opened Common
  import Text

  /** The identity of one product object. */
  type Ref = nat

  datatype Product = Product(id: string, name: string, quantity: int)

  datatype Package = Package(
    id: int,
    name: string,
    status: string,
    idCode: string,
    eventsCompleted: int,
    totalUsed: int,
    issueHistory: int,
    capacity: int,
    products: seq<Ref>)

  /** The component's state together with the product objects it can
      reach: `heap` holds every product object, `next` is the next unused
      reference, `draft` is the `updatedProducts` array of the dialog. */
  datatype Editor = Editor(
    heap: map<Ref, Product>,
    next: Ref,
    packages: seq<Package>,
    selected: Option<Package>,
    modalOpen: bool,
    draft: seq<Ref>)

  /** One edit of a product input: name, id, or quantity (the quantity
      input's `parseInt` is modelled as an integer). */
  datatype ProductEdit = SetName(name: string) | SetId(id: string) | SetQuantity(quantity: int)

  /** The row "Add Product" appends. */
  const Template := Product("", "", 1)

  /** Every reference of `refs` names a product object. */
  predicate Allocated(heap: map<Ref, Product>, refs: seq<Ref>) {
    forall i :: 0 <= i < |refs| ==> refs[i] in heap
  }

  /** No product object occurs twice in `refs`. */
  predicate Distinct(refs: seq<Ref>) {
    forall i, j :: 0 <= i < j < |refs| ==> refs[i] != refs[j]
  }

  /** A product list as the screen shows it: the values of its objects. */
  function View(heap: map<Ref, Product>, refs: seq<Ref>): (rows: seq<Product>)
    requires Allocated(heap, refs)
    ensures |rows| == |refs|
    ensures forall i :: 0 <= i < |refs| ==> rows[i] == heap[refs[i]]
  {
    seq(|refs|, i requires 0 <= i < |refs| => heap[refs[i]])
  }

  /** What the screen keeps true: every list names existing, distinct
      product objects, references beyond `next` are unused, and the dialog
      is open only while a package is selected. */
  predicate Valid(e: Editor) {
    && (forall r :: r in e.heap ==> r < e.next)
    && (forall k :: 0 <= k < |e.packages| ==>
          Allocated(e.heap, e.packages[k].products) && Distinct(e.packages[k].products))
    && (e.selected.Some? ==>
          Allocated(e.heap, e.selected.value.products) && Distinct(e.selected.value.products))
    && Allocated(e.heap, e.draft) && Distinct(e.draft)
    && (e.modalOpen ==> e.selected.Some?)
  }

  /** Clicking a package in the list selects that very package object. */
  function SelectPackage(e: Editor, k: int): (r: Editor)
    requires Valid(e) && 0 <= k < |e.packages|
    ensures Valid(r)
    ensures r.selected == Some(e.packages[k])
    ensures r.heap == e.heap && r.packages == e.packages && r.draft == e.draft
  {
    e.(selected := Some(e.packages[k]))
  }

  /** `handleModifyPackage`: without a selection nothing happens; otherwise
      the draft becomes a new array of the selected package's product
      objects (the very objects, not copies) and the dialog opens. */
  function ModifyPackage(e: Editor): (r: Editor)
    requires Valid(e)
    ensures Valid(r)
    ensures e.selected == None ==> r == e
    ensures e.selected.Some? ==>
              && r.modalOpen
              && View(r.heap, r.draft) == View(e.heap, e.selected.value.products)
              && r.heap == e.heap && r.selected == e.selected && r.packages == e.packages
    ensures e.selected.Some? ==> r.draft == e.selected.value.products && r.next == e.next
  {
    if e.selected.None? then e
    else e.(draft := e.selected.value.products, modalOpen := true)
  }

  /** Allocating a new product object leaves every existing list's view
      unchanged. */
  lemma FreshAllocationFrame(heap: map<Ref, Product>, next: Ref, refs: seq<Ref>, p: Product)
    requires Allocated(heap, refs) && forall r :: r in heap ==> r < next
    ensures Allocated(heap[next := p], refs)
    ensures View(heap[next := p], refs) == View(heap, refs)
  {
    assert forall i :: 0 <= i < |refs| ==> refs[i] != next;
  }

  /** Allocating a new product object at `next` changes the view of no
      list the editor holds. */
  lemma AllocationKeepsViews(e: Editor, p: Product)
    requires Valid(e)
    ensures Allocated(e.heap[e.next := p], e.draft)
    ensures View(e.heap[e.next := p], e.draft) == View(e.heap, e.draft)
    ensures e.selected.Some? ==>
              && Allocated(e.heap[e.next := p], e.selected.value.products)
              && View(e.heap[e.next := p], e.selected.value.products)
                 == View(e.heap, e.selected.value.products)
    ensures forall k :: 0 <= k < |e.packages| ==>
              && Allocated(e.heap[e.next := p], e.packages[k].products)
              && View(e.heap[e.next := p], e.packages[k].products)
                 == View(e.heap, e.packages[k].products)
  {
    FreshAllocationFrame(e.heap, e.next, e.draft, p);
    if e.selected.Some? {
      FreshAllocationFrame(e.heap, e.next, e.selected.value.products, p);
    }
    forall k | 0 <= k < |e.packages|
      ensures Allocated(e.heap[e.next := p], e.packages[k].products)
      ensures View(e.heap[e.next := p], e.packages[k].products)
              == View(e.heap, e.packages[k].products)
    {
      FreshAllocationFrame(e.heap, e.next, e.packages[k].products, p);
    }
  }

  /** `handleAddProduct`: one new template row object at the end of the
      draft, which keeps its earlier objects; the rows before it, and every
      other list, look as before. */
  function AddProductRow(e: Editor): (r: Editor)
    requires Valid(e)
    ensures Valid(r)
    ensures View(r.heap, r.draft) == View(e.heap, e.draft) + [Template]
    ensures r.selected == e.selected && r.packages == e.packages && r.modalOpen == e.modalOpen
    ensures e.selected.Some? ==>
              View(r.heap, r.selected.value.products) == View(e.heap, e.selected.value.products)
    ensures forall k :: 0 <= k < |e.packages| ==>
              View(r.heap, r.packages[k].products) == View(e.heap, e.packages[k].products)
    ensures e.next !in e.heap && r.draft == e.draft + [e.next]
    ensures r.next == e.next + 1 && r.heap == e.heap[e.next := Template]
  {
    var heap := e.heap[e.next := Template];
    AllocationKeepsViews(e, Template);
    assert forall i :: 0 <= i < |e.draft| ==> e.draft[i] != e.next;
    var r := e.(heap := heap, next := e.next + 1, draft := e.draft + [e.next]);
    assert View(r.heap, r.draft) == View(e.heap, e.draft) + [Template];
    r
  }

  /** The field assignment `row[field] = value`: the edited field takes the
      new value and the two other fields keep theirs. */
  function ApplyEdit(p: Product, edit: ProductEdit): (q: Product)
    ensures edit.SetName? ==> q.name == edit.name && q.id == p.id && q.quantity == p.quantity
    ensures edit.SetId? ==> q.id == edit.id && q.name == p.name && q.quantity == p.quantity
    ensures edit.SetQuantity? ==>
              q.quantity == edit.quantity && q.name == p.name && q.id == p.id
  {
    match edit
    case SetName(v) => p.(name := v)
    case SetId(v) => p.(id := v)
    case SetQuantity(v) => p.(quantity := v)
  }

  /** `handleProductChange`: writes the edit into the product object at
      draft position `index`, in place; the draft array keeps the same
      objects. Only that object of the heap changes, so every list holding
      it (the selected package's too) sees the edit and nothing else changes
      anywhere. An index outside the
      draft makes the assignment throw before anything is written, so the
      state stays as it was. */
  function ChangeProduct(e: Editor, index: int, edit: ProductEdit): (r: Editor)
    requires Valid(e)
    ensures Valid(r)
    ensures r.draft == e.draft && r.selected == e.selected && r.packages == e.packages
    ensures r.modalOpen == e.modalOpen
    ensures !(0 <= index < |e.draft|) ==> r == e
    ensures 0 <= index < |e.draft| ==>
              var before := View(e.heap, e.draft);
              var after := View(r.heap, r.draft);
              && after[index] == ApplyEdit(before[index], edit)
              && forall j :: 0 <= j < |before| && j != index ==> after[j] == before[j]
    ensures r.next == e.next && r.heap.Keys == e.heap.Keys
    ensures 0 <= index < |e.draft| ==>
              && r.heap[e.draft[index]] == ApplyEdit(e.heap[e.draft[index]], edit)
              && forall ref :: ref in e.heap && ref != e.draft[index] ==> r.heap[ref] == e.heap[ref]
  {
    if 0 <= index < |e.draft| then
      var ref := e.draft[index];
      e.(heap := e.heap[ref := ApplyEdit(e.heap[ref], edit)])
    else e
  }

  /** `handleRemoveProduct`: the draft without its row at `index`, the
      other objects in order; an index outside the draft removes nothing. */
  function RemoveProductRow(e: Editor, index: int): (r: Editor)
    requires Valid(e)
    ensures Valid(r)
    ensures View(r.heap, r.draft) == RemoveAt(View(e.heap, e.draft), index)
    ensures 0 <= index < |e.draft| ==> |r.draft| == |e.draft| - 1
    ensures !(0 <= index < |e.draft|) ==> r.draft == e.draft
    ensures r.heap == e.heap && r.selected == e.selected && r.packages == e.packages
    ensures r.draft == RemoveAt(e.draft, index) && r.next == e.next
  {
    var r := e.(draft := RemoveAt(e.draft, index));
    assert View(r.heap, r.draft) == RemoveAt(View(e.heap, e.draft), index);
    r
  }

  /** `handleSaveChanges`: the selected package is replaced by a copy whose
      `products` is the draft array, every other field kept; the dialog
      closes. The list of packages is not touched. "Save Changes" lives in
      the dialog, which is open only while a package is selected. */
  function SaveChanges(e: Editor): (r: Editor)
    requires Valid(e) && e.modalOpen
    ensures Valid(r)
    ensures r.selected.Some? && r.selected.value.products == e.draft
    ensures r.selected.value == e.selected.value.(products := r.selected.value.products)
    ensures View(r.heap, r.selected.value.products) == View(e.heap, e.draft)
    ensures !r.modalOpen && r.packages == e.packages && r.heap == e.heap
  {
    e.(selected := Some(e.selected.value.(products := e.draft)), modalOpen := false)
  }

  /** "Cancel", the close button or a click outside: the dialog closes and
      nothing else happens; in particular `selected.products` is not
      replaced. */
  function CancelModal(e: Editor): (r: Editor)
    requires Valid(e)
    ensures Valid(r)
    ensures !r.modalOpen
    ensures r.selected == e.selected && r.heap == e.heap && r.packages == e.packages
  {
    e.(modalOpen := false)
  }

  /** The aliasing consequence: editing a pre-existing row and then
      cancelling does NOT undo the edit. The selected package, and the
      package of the list it was picked from, show the edited row. */
  lemma {:induction false} CancelKeepsFieldEdits(e: Editor, k: int, index: int, edit: ProductEdit)
    requires Valid(e) && 0 <= k < |e.packages|
    requires 0 <= index < |e.packages[k].products|
    ensures var s := SelectPackage(e, k);
            var c := CancelModal(ChangeProduct(ModifyPackage(s), index, edit));
            && c.selected == s.selected
            && View(c.heap, c.selected.value.products)[index]
               == ApplyEdit(View(e.heap, e.packages[k].products)[index], edit)
            && View(c.heap, c.packages[k].products)[index]
               == ApplyEdit(View(e.heap, e.packages[k].products)[index], edit)
  {
    var s := SelectPackage(e, k);
    var m := ModifyPackage(s);
    assert m.draft == e.packages[k].products;
    var ch := ChangeProduct(m, index, edit);
    assert ch.heap == m.heap[m.draft[index] := ApplyEdit(m.heap[m.draft[index]], edit)];
  }

  /** Adding a row first does not protect the package either: the draft
      still holds the package's own objects, so an edit to an earlier row
      lands in the selected package even when the dialog is then
      cancelled, and the added row does not. */
  lemma {:induction false} AddThenEditThenCancel(e: Editor, k: int, index: int, edit: ProductEdit)
    requires Valid(e) && 0 <= k < |e.packages|
    requires 0 <= index < |e.packages[k].products|
    ensures var s := SelectPackage(e, k);
            var c := CancelModal(ChangeProduct(AddProductRow(ModifyPackage(s)), index, edit));
            var before := View(e.heap, e.packages[k].products);
            && c.selected == s.selected
            && View(c.heap, c.selected.value.products)
               == before[index := ApplyEdit(before[index], edit)]
  {
    var s := SelectPackage(e, k);
    var m := ModifyPackage(s);
    var a := AddProductRow(m);
    var ch := ChangeProduct(a, index, edit);
    var c := CancelModal(ch);
    var refs := e.packages[k].products;
    var before := View(e.heap, refs);
    assert a.draft[index] == refs[index];
    assert refs[index] in e.heap;
    forall i | 0 <= i < |refs|
      ensures c.heap[refs[i]] == before[index := ApplyEdit(before[index], edit)][i]
    {
      assert refs[i] in e.heap && refs[i] != e.next;
      if i != index {
        assert refs[i] != refs[index];
      }
    }
  }

  /** Structural edits, by contrast, live only in the draft array: a row
      added and then cancelled never reaches the selected package. */
  lemma CancelDiscardsAddedRows(e: Editor)
    requires Valid(e) && e.selected.Some?
    ensures var c := CancelModal(AddProductRow(ModifyPackage(e)));
            && c.selected == e.selected
            && View(c.heap, c.selected.value.products) == View(e.heap, e.selected.value.products)
  {
  }

  /** The random statistics of one seed package, with the ranges
      `Math.floor(Math.random() * n)` produces. */
  datatype Stats = Stats(eventsCompleted: int, totalUsed: int, issueHistory: int, capacity: int)

  predicate StatsInRange(s: Stats) {
    && 0 <= s.eventsCompleted < 100 && 0 <= s.totalUsed < 1000
    && 0 <= s.issueHistory < 10 && 50 <= s.capacity < 100
  }

  /** Seed product object `r`: package `r / 2` owns objects `2k` (row A,
      quantity 10) and `2k + 1` (row B, quantity 5). */
  function SeedProduct(r: nat): Product {
    var n := Text.NatToString(r / 2 + 1);
    if r % 2 == 0 then Product("PROD-" + n + "-A", "Product A-" + n, 10)
    else Product("PROD-" + n + "-B", "Product B-" + n, 5)
  }

  /** The status of seed package `k` (0-based): `i % 2 === 0` picks
      "Available". */
  function SeedStatus(k: nat): (status: string)
    ensures status == "Available" <==> (k + 1) % 2 == 1
  {
    if k % 2 == 0 then "Available" else "Unavailable"
  }

  /** Seed package `k` (0-based). */
  function SeedPackage(k: nat, s: Stats): (p: Package)
    ensures p.id == k + 1 && p.products == [2 * k, 2 * k + 1]
    ensures p.status == "Available" <==> p.id % 2 == 1
  {
    Package(k + 1, "Package " + Text.NatToString(k + 1),
            SeedStatus(k),
            "PKG" + Text.NatToString(100 + k),
            s.eventsCompleted, s.totalUsed, s.issueHistory, s.capacity,
            [2 * k, 2 * k + 1])
  }

  /** The fifteen seed packages, ids 1 to 15, each owning its own two
      product objects. */
  function SeedPackages(stats: seq<Stats>): (packages: seq<Package>)
    requires |stats| == 15
    ensures |packages| == 15
    ensures forall k :: 0 <= k < 15 ==> packages[k].id == k + 1
    ensures forall k :: 0 <= k < 15 ==>
              (packages[k].status == "Available" <==> packages[k].id % 2 == 1)
    ensures forall k :: 0 <= k < 15 ==> packages[k].products == [2 * k, 2 * k + 1]
  {
    seq(15, k requires 0 <= k < 15 => SeedPackage(k, stats[k]))
  }

  /** The thirty seed product objects. */
  function SeedHeap(): (heap: map<Ref, Product>)
    ensures forall r :: r in heap <==> 0 <= r < 30
    ensures forall r :: r in heap ==> heap[r].quantity == if r % 2 == 0 then 10 else 5
  {
    map r | 0 <= r < 30 :: SeedProduct(r)
  }

  /** The screen as first rendered: fifteen packages with ids 1 to 15, the
      odd ids "Available" and the even ones "Unavailable", two products
      each (quantities 10 and 5), nothing selected and the dialog closed. */
  function InitialEditor(stats: seq<Stats>): (e: Editor)
    requires |stats| == 15 && forall k :: 0 <= k < 15 ==> StatsInRange(stats[k])
    ensures Valid(e)
    ensures |e.packages| == 15
    ensures forall k :: 0 <= k < 15 ==> e.packages[k].id == k + 1
    ensures forall k :: 0 <= k < 15 ==>
              (e.packages[k].status == "Available" <==> e.packages[k].id % 2 == 1)
    ensures forall k :: 0 <= k < 15 ==>
              |View(e.heap, e.packages[k].products)| == 2
              && View(e.heap, e.packages[k].products)[0].quantity == 10
              && View(e.heap, e.packages[k].products)[1].quantity == 5
    ensures e.selected == None && !e.modalOpen && e.draft == []
  {
    var e := Editor(SeedHeap(), 30, SeedPackages(stats), None, false, []);
    SeedEditorFacts(e, stats);
    e
  }

  /** Seed package `k` names two distinct seed objects, showing
      quantities 10 and 5. */
  lemma SeedPackageFacts(stats: seq<Stats>, k: int)
    requires |stats| == 15 && 0 <= k < 15
    ensures var refs := SeedPackages(stats)[k].products;
            && Allocated(SeedHeap(), refs) && Distinct(refs)
            && |View(SeedHeap(), refs)| == 2
            && View(SeedHeap(), refs)[0].quantity == 10
            && View(SeedHeap(), refs)[1].quantity == 5
  {
    var refs := SeedPackages(stats)[k].products;
    assert refs == [2 * k, 2 * k + 1];
    assert (2 * k) % 2 == 0 && (2 * k + 1) % 2 == 1;
  }

  /** The seed lists are valid and show quantities 10 and 5. */
  lemma SeedEditorFacts(e: Editor, stats: seq<Stats>)
    requires |stats| == 15
    requires e.heap == SeedHeap() && e.next == 30 && e.packages == SeedPackages(stats)
    requires e.selected == None && !e.modalOpen && e.draft == []
    ensures Valid(e)
    ensures forall k :: 0 <= k < 15 ==>
              |View(e.heap, e.packages[k].products)| == 2
              && View(e.heap, e.packages[k].products)[0].quantity == 10
              && View(e.heap, e.packages[k].products)[1].quantity == 5
  {
    forall k | 0 <= k < 15
      ensures Allocated(e.heap, e.packages[k].products) && Distinct(e.packages[k].products)
      ensures |View(e.heap, e.packages[k].products)| == 2
      ensures View(e.heap, e.packages[k].products)[0].quantity == 10
      ensures View(e.heap, e.packages[k].products)[1].quantity == 5
    {
      SeedPackageFacts(stats, k);
    }
  }
}

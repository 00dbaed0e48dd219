/** The product type table with its "Add Product Type" dialog
    (src/views/admin/dataTables/components/ProductTypeTable.tsx): a local
    copy of the rows and a draft row. Text inputs store what is typed,
    except the images field, which is parsed into a URL list; the two
    switches set their own flag. */
module ProductTypes {
  import Text

  /** `RowObj` of the product type table. */
  datatype ProductType = ProductType(
    title: string,
    shortDescription: string,
    archived: bool,
    longDescription: string,
    images: seq<string>,
    transparentImages: bool)

  /** The `name` attribute of the four text inputs of the dialog. */
  datatype TextField = Title | ShortDescription | LongDescription | Images

  /** The component's state: its rows, the dialog flag and the draft. */
  datatype TypeForm = TypeForm(rows: seq<ProductType>, modalOpen: bool, draft: ProductType)

  /** The empty draft the dialog starts from and is reset to. */
  const EmptyDraft := ProductType("", "", false, "", [], false)

  /** The table as first rendered from its `tableData` prop. */
  function InitialForm(tableData: seq<ProductType>): (f: TypeForm)
    ensures f.rows == tableData && !f.modalOpen && f.draft == EmptyDraft
  {
    TypeForm(tableData, false, EmptyDraft)
  }

  /** `handleInputChange`: the named field takes the typed value, parsed
      into a list of trimmed, comma-free URLs for the images field; every
      other field of the draft, the rows and the dialog are unchanged. */
  function InputChange(f: TypeForm, field: TextField, value: string): (r: TypeForm)
    ensures r.rows == f.rows && r.modalOpen == f.modalOpen
    ensures r.draft.archived == f.draft.archived
    ensures r.draft.transparentImages == f.draft.transparentImages
    ensures r.draft.title == (if field == Title then value else f.draft.title)
    ensures r.draft.shortDescription
         == (if field == ShortDescription then value else f.draft.shortDescription)
    ensures r.draft.longDescription
         == (if field == LongDescription then value else f.draft.longDescription)
    ensures field != Images ==> r.draft.images == f.draft.images
    ensures field == Images ==> r.draft.images == Text.ParseImageList(value)
    ensures field == Images ==>
              && |r.draft.images| == Text.Count(value, ',') + 1
              && forall i :: 0 <= i < |r.draft.images| ==>
                   ',' !in r.draft.images[i] && Text.Trimmed(r.draft.images[i])
  {
    match field
    case Title => f.(draft := f.draft.(title := value))
    case ShortDescription => f.(draft := f.draft.(shortDescription := value))
    case LongDescription => f.(draft := f.draft.(longDescription := value))
    case Images => f.(draft := f.draft.(images := Text.ParseImageList(value)))
  }

  /** What the images input displays: the URL list joined with ", ". */
  function ImagesText(f: TypeForm): (value: string)
    ensures f.draft.images == [] ==> value == ""
  {
    Text.Join(f.draft.images, ", ")
  }

  /** The "Archived" switch sets only the archived flag. */
  function SetArchived(f: TypeForm, checked: bool): (r: TypeForm)
    ensures r.draft == f.draft.(archived := checked)
    ensures r.rows == f.rows && r.modalOpen == f.modalOpen
  {
    f.(draft := f.draft.(archived := checked))
  }

  /** The "Transparent Images" switch sets only the transparency flag. */
  function SetTransparent(f: TypeForm, checked: bool): (r: TypeForm)
    ensures r.draft == f.draft.(transparentImages := checked)
    ensures r.rows == f.rows && r.modalOpen == f.modalOpen
  {
    f.(draft := f.draft.(transparentImages := checked))
  }

  /** "Add Product Type" opens the dialog. */
  function OpenModal(f: TypeForm): (r: TypeForm)
    ensures r.modalOpen && r.rows == f.rows && r.draft == f.draft
  {
    f.(modalOpen := true)
  }

  /** `handleAddProduct`: the draft becomes the last row, the earlier rows
      are unchanged, the dialog closes and the draft is reset. No field is
      validated. */
  function AddProduct(f: TypeForm): (r: TypeForm)
    ensures |r.rows| == |f.rows| + 1
    ensures r.rows[..|f.rows|] == f.rows && r.rows[|f.rows|] == f.draft
    ensures !r.modalOpen && r.draft == EmptyDraft
  {
    f.(rows := f.rows + [f.draft], modalOpen := false, draft := EmptyDraft)
  }

  /** "Cancel" or the dialog's own close: the dialog closes and the draft is
      kept for the next time it opens. */
  function CancelModal(f: TypeForm): (r: TypeForm)
    ensures !r.modalOpen && r.rows == f.rows && r.draft == f.draft
  {
    f.(modalOpen := false)
  }

  /** Typing the displayed images text back into the field changes nothing,
      as long as the list is non-empty and its URLs have no commas or
      surrounding whitespace. */
  lemma {:induction false} RetypeImagesStable(f: TypeForm)
    requires |f.draft.images| >= 1
    requires forall i :: 0 <= i < |f.draft.images| ==>
               ',' !in f.draft.images[i] && Text.Trimmed(f.draft.images[i])
    ensures InputChange(f, Images, ImagesText(f)) == f
  {
    Text.ImageListRoundTrip(f.draft.images);
  }

  /** The empty draft shows an empty images field, and typing into it
      without a comma gives exactly one URL, so an untouched list of none
      cannot be restored by editing the field. */
  lemma EmptyImagesNotRestorable(f: TypeForm, value: string)
    requires ',' !in value
    ensures |InputChange(f, Images, value).draft.images| == 1
  {
    assert Text.Count(value, ',') == 0 by { CountAbsent(value, ','); }
  }

  /** A character that does not occur is counted zero times. */
  lemma {:induction false} CountAbsent(s: string, c: char)
    requires c !in s
    ensures Text.Count(s, c) == 0
  {
    if s != [] {
      assert forall k :: 0 <= k < |s[1..]| ==> s[1..][k] == s[k + 1];
      CountAbsent(s[1..], c);
    }
  }

  /** A text input and a switch touch different fields, so their order does
      not matter. */
  lemma InputAndSwitchCommute(f: TypeForm, field: TextField, value: string, checked: bool)
    ensures SetArchived(InputChange(f, field, value), checked)
         == InputChange(SetArchived(f, checked), field, value)
    ensures SetTransparent(InputChange(f, field, value), checked)
         == InputChange(SetTransparent(f, checked), field, value)
  {
  }
}

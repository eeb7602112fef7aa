/**
 * The catalogue of job items and materials: records with a stock level and
 * a usage count, the add/edit dialog and its schema, deletion by id, the
 * category option list and the searchable, category-filtered table.
 */
module JobItemsManagement {
  import opened Wrappers
  import Text
  import Lists

  // ---------------------------------------------------------------------------
  // Records and the validation schema
  // ---------------------------------------------------------------------------

  datatype JobItem = JobItem(
    id: string,
    name: string,
    description: Option<string>,
    category: string,
    unit: string,
    inStock: int,
    usageCount: int)

  /** The dialog's values, the stock figure already coerced to a number. */
  datatype ItemForm = ItemForm(
    name: string,
    description: Option<string>,
    category: string,
    unit: string,
    inStock: int)

  const DefaultForm := ItemForm("", Some(""), "", "", 0)

  predicate SchemaValid(f: ItemForm)
  {
    |f.name| >= 2 && |f.category| >= 1 && |f.unit| >= 1 && f.inStock >= 0
  }

  /** Running the schema: the values unchanged when every rule holds, nothing otherwise. */
  function ParseItem(f: ItemForm): (r: Option<ItemForm>)
    ensures r.Some? <==> |f.name| >= 2 && |f.category| >= 1 && |f.unit| >= 1 && f.inStock >= 0
    ensures r.Some? ==> r.value == f
  {
    if |f.name| < 2 || |f.category| < 1 || |f.unit| < 1 || f.inStock < 0 then None else Some(f)
  }

  /** The description never affects validity. */
  lemma DescriptionUnconstrained(f: ItemForm, description: Option<string>)
    ensures ParseItem(f.(description := description)).Some? == ParseItem(f).Some?
  {
  }

  /** The values the edit dialog opens with: a missing description shows as empty. */
  function EditForm(item: JobItem): (f: ItemForm)
    ensures f.name == item.name && f.category == item.category
    ensures f.unit == item.unit && f.inStock == item.inStock
    ensures f.description == Some(if item.description.Some? then item.description.value else "")
  {
    ItemForm(item.name, Some(item.description.GetOr("")), item.category, item.unit, item.inStock)
  }

  /** An item in the catalogue reopens in the edit dialog with values the schema accepts again. */
  lemma EditFormOfValidItem(item: JobItem)
    requires |item.name| >= 2 && |item.category| >= 1 && |item.unit| >= 1 && item.inStock >= 0
    ensures ParseItem(EditForm(item)) == Some(EditForm(item))
  {
  }

  // ---------------------------------------------------------------------------
  // List operations
  // ---------------------------------------------------------------------------

  /** The id given to an item added to a list of `n` items. */
  function NewId(n: nat): (id: string)
    ensures |id| > 4 && id[..4] == "item" && Text.AllDigits(id[4..])
    ensures Text.DigitsValue(id[4..]) == n + 1
    ensures id[4] != '0'
  {
    var digits := Text.NatToString(n + 1);
    Text.NatToStringRoundTrip(n + 1);
    assert ("item" + digits)[4..] == digits;
    "item" + digits
  }

  /** Adding: one item appended with a numbered id and no recorded use. */
  function AddItem(s: seq<JobItem>, d: ItemForm): (r: seq<JobItem>)
    ensures |r| == |s| + 1 && r[..|s|] == s
    ensures r[|s|].id == NewId(|s|) && r[|s|].usageCount == 0
    ensures && r[|s|].name == d.name && r[|s|].description == d.description
            && r[|s|].category == d.category && r[|s|].unit == d.unit && r[|s|].inStock == d.inStock
  {
    s + [JobItem(NewId(|s|), d.name, d.description, d.category, d.unit, d.inStock, 0)]
  }

  function Overwrite(item: JobItem, d: ItemForm): JobItem
  {
    item.(name := d.name, description := d.description, category := d.category,
          unit := d.unit, inStock := d.inStock)
  }

  /**
   * Editing: items with the selected id take the dialog's values and keep
   * their id and usage count; every other item is unchanged, in place.
   */
  function EditItems(s: seq<JobItem>, id: string, d: ItemForm): (r: seq<JobItem>)
    ensures |r| == |s|
    ensures forall i :: 0 <= i < |s| && s[i].id != id ==> r[i] == s[i]
    ensures forall i :: 0 <= i < |s| && s[i].id == id ==>
      && r[i].id == s[i].id && r[i].usageCount == s[i].usageCount
      && r[i].name == d.name && r[i].description == d.description
      && r[i].category == d.category && r[i].unit == d.unit && r[i].inStock == d.inStock
  {
    Lists.MapWhere(s, (item: JobItem) => item.id == id, (item: JobItem) => Overwrite(item, d))
  }

  /** Deleting: every item with the id goes, the others stay in order. */
  function DeleteItems(s: seq<JobItem>, id: string): (r: seq<JobItem>)
    ensures forall item :: item in r <==> item in s && item.id != id
    ensures Lists.IsSubsequence(r, s)
  {
    Lists.Filter(s, (item: JobItem) => item.id != id)
  }

  /** Deleting an id no item has changes nothing. */
  lemma DeleteAbsentId(s: seq<JobItem>, id: string)
    requires forall item :: item in s ==> item.id != id
    ensures DeleteItems(s, id) == s
  {
    Lists.FilterKeepsAll(s, (item: JobItem) => item.id != id);
  }

  /** The category filter's options: every category present, once, in order of first appearance. */
  function Categories(s: seq<JobItem>): (r: seq<string>)
    ensures Lists.NoDuplicates(r)
    ensures forall c :: c in r <==> exists i :: 0 <= i < |s| && s[i].category == c
  {
    Lists.DistinctValues(s, (item: JobItem) => item.category)
  }

  /** The options are listed in the order in which their categories first appear. */
  lemma CategoriesInFirstOccurrenceOrder(s: seq<JobItem>)
    ensures var column := Lists.Map(s, (item: JobItem) => item.category);
      forall i, j :: 0 <= i < j < |Categories(s)| ==>
        Lists.FirstIndex(column, Categories(s)[i]) < Lists.FirstIndex(column, Categories(s)[j])
  {
    Lists.DistinctValuesOrder(s, (item: JobItem) => item.category);
  }

  /**
   * The search: the query occurs in the name, or in a description that is
   * present; a missing description never matches. "all" disables the category filter.
   */
  predicate Matches(item: JobItem, query: string, categoryFilter: string)
  {
    && (Text.IncludesIgnoringCase(item.name, query)
        || (item.description.Some? && Text.IncludesIgnoringCase(item.description.value, query)))
    && (categoryFilter == "all" || item.category == categoryFilter)
  }

  /** The table rows: the matching items in catalogue order. */
  function Visible(s: seq<JobItem>, query: string, categoryFilter: string): (r: seq<JobItem>)
    ensures forall item :: item in r <==> item in s && Matches(item, query, categoryFilter)
    ensures Lists.IsSubsequence(r, s)
  {
    Lists.Filter(s, (item: JobItem) => Matches(item, query, categoryFilter))
  }

  /** With no query and "all" categories every item is listed. */
  lemma VisibleUnfiltered(s: seq<JobItem>)
    ensures Visible(s, "", "all") == s
  {
    forall item | item in s ensures Matches(item, "", "all") {
      Text.EmptyQueryMatches(item.name);
    }
    Lists.FilterKeepsAll(s, (item: JobItem) => Matches(item, "", "all"));
  }

  /** An item without a description is found only through its name. */
  lemma MissingDescriptionNeverMatches(item: JobItem, query: string, categoryFilter: string)
    requires item.description.None?
    ensures Matches(item, query, categoryFilter) <==>
      Text.IncludesIgnoringCase(item.name, query) && (categoryFilter == "all" || item.category == categoryFilter)
  {
  }

  /** The stock badge: "default" above ten units, "destructive" at ten or fewer. */
  function StockBadgeVariant(inStock: int): (v: string)
    ensures v == "default" <==> inStock > 10
    ensures v == "destructive" <==> inStock <= 10
  {
    if inStock > 10 then "default" else "destructive"
  }

  const InitialItems: seq<JobItem> := [
    JobItem("item1", "Electrical Outlet", Some("Standard 120V electrical outlet"), "Electrical", "pc", 45, 28),
    JobItem("item2", "Electrical Tape", Some("Insulating tape for electrical connections"), "Electrical", "roll", 32, 15),
    JobItem("item3", "Wire Connectors", Some("Wire nuts for connecting electrical wires"), "Electrical", "pack", 50, 22),
    JobItem("item4", "Pipe Wrench", Some("Adjustable wrench for plumbing pipes"), "Plumbing", "pc", 12, 8),
    JobItem("item5", "PVC Pipe (1-inch)", Some("1-inch diameter PVC pipe"), "Plumbing", "ft", 200, 45),
    JobItem("item6", "AC Filter", Some("Replacement air filter for AC units"), "AC Repair", "pc", 30, 18),
    JobItem("item7", "Interior Paint (White)", Some("Standard white interior paint"), "Painting", "gallon", 25, 12),
    JobItem("item8", "Wood Screws", Some("Assorted wood screws for carpentry"), "Carpentry", "box", 40, 20)
  ]

  // ---------------------------------------------------------------------------
  // The management page
  // ---------------------------------------------------------------------------

  class JobItemsManagement {
    var items: seq<JobItem>
    var isAddItemOpen: bool
    var isDeleteDialogOpen: bool
    var selected: Option<JobItem>
    var searchQuery: string
    var categoryFilter: string
    /** The values currently in the add/edit dialog's inputs. */
    var form: ItemForm
    /**
     * The values a bare `form.reset()` restores: the form's default values at
     * first, replaced by the values of every `form.reset(values)`.
     */
    var resetValues: ItemForm

    constructor ()
      ensures items == InitialItems
      ensures !isAddItemOpen && !isDeleteDialogOpen && selected == None
      ensures searchQuery == "" && categoryFilter == "all" && form == DefaultForm && resetValues == DefaultForm
    {
      items := InitialItems;
      isAddItemOpen, isDeleteDialogOpen := false, false;
      selected := None;
      searchQuery, categoryFilter := "", "all";
      form := DefaultForm;
      resetValues := DefaultForm;
    }

    function Filtered(): seq<JobItem>
      reads this
    {
      Visible(items, searchQuery, categoryFilter)
    }

    function CategoryOptions(): seq<string>
      reads this
    {
      Categories(items)
    }

    method SetSearchQuery(q: string)
      modifies this`searchQuery
      ensures searchQuery == q
    {
      searchQuery := q;
    }

    method SetCategoryFilter(c: string)
      modifies this`categoryFilter
      ensures categoryFilter == c
    {
      categoryFilter := c;
    }

    /** The user typing into the dialog's inputs. */
    method EnterForm(f: ItemForm)
      modifies this`form
      ensures form == f
    {
      form := f;
    }

    /**
     * "Add New Item": no selection, the form reset, dialog open. The reset restores the
     * last values the form was reset to, which are the defaults only until a
     * row has been opened for editing.
     */
    method OpenAddDialog()
      modifies this`selected, this`form, this`isAddItemOpen
      ensures selected == None && form == resetValues && isAddItemOpen
    {
      selected := None;
      form := resetValues;
      isAddItemOpen := true;
    }

    /** The edit button of a row: that item selected, the dialog filled from it. */
    method HandleEditItem(item: JobItem)
      modifies this`selected, this`form, this`resetValues, this`isAddItemOpen
      ensures selected == Some(item) && form == EditForm(item) && resetValues == EditForm(item) && isAddItemOpen
    {
      selected := Some(item);
      form := EditForm(item);
      resetValues := EditForm(item);
      isAddItemOpen := true;
    }

    /** The delete button of a row: that item selected, the confirmation open. */
    method HandleDeleteItem(item: JobItem)
      modifies this`selected, this`isDeleteDialogOpen
      ensures selected == Some(item) && isDeleteDialogOpen
    {
      selected := Some(item);
      isDeleteDialogOpen := true;
    }

    /**
     * The submit handler, reached with validated values: edits the selected
     * item's records or appends a new item; then closes the dialog, resets the
     * form and clears the selection.
     */
    method HandleAddItem(d: ItemForm)
      modifies this`items, this`isAddItemOpen, this`form, this`selected
      ensures items == if old(selected).Some? then EditItems(old(items), old(selected).value.id, d)
                       else AddItem(old(items), d)
      ensures !isAddItemOpen && form == resetValues && selected == None
    {
      if selected.Some? {
        items := EditItems(items, selected.value.id, d);
      } else {
        items := AddItem(items, d);
      }
      isAddItemOpen := false;
      form := resetValues;
      selected := None;
    }

    /** Submitting the dialog: only values the schema accepts reach the handler. */
    method Submit() returns (accepted: bool)
      modifies this`items, this`isAddItemOpen, this`form, this`selected
      ensures accepted <==> SchemaValid(old(form))
      ensures accepted ==> items == (if old(selected).Some? then EditItems(old(items), old(selected).value.id, old(form))
                                     else AddItem(old(items), old(form)))
      ensures accepted ==> !isAddItemOpen && form == resetValues && selected == None
      ensures !accepted ==> items == old(items) && isAddItemOpen == old(isAddItemOpen)
                            && form == old(form) && selected == old(selected)
    {
      var parsed := ParseItem(form);
      if parsed.None? {
        return false;
      }
      HandleAddItem(parsed.value);
      accepted := true;
    }

    /** The confirmation's delete button: removes the selected id's items, if anything is selected. */
    method ConfirmDelete()
      modifies this`items, this`isDeleteDialogOpen, this`selected
      ensures old(selected).Some? ==> items == DeleteItems(old(items), old(selected).value.id)
                                      && !isDeleteDialogOpen && selected == None
      ensures old(selected).None? ==> items == old(items)
                                      && isDeleteDialogOpen == old(isDeleteDialogOpen) && selected == None
    {
      if selected.Some? {
        items := DeleteItems(items, selected.value.id);
        isDeleteDialogOpen := false;
        selected := None;
      }
    }

    /** Cancel, or dismissing the add/edit dialog: it closes; the selection stays. */
    method CloseAddDialog()
      modifies this`isAddItemOpen
      ensures !isAddItemOpen
    {
      isAddItemOpen := false;
    }

    /** Cancel, or dismissing the delete confirmation: it closes; the selection stays. */
    method CloseDeleteDialog()
      modifies this`isDeleteDialogOpen
      ensures !isDeleteDialogOpen
    {
      isDeleteDialogOpen := false;
    }
  }

  /**
   * After a row has been opened for editing, "Add New Item" shows that row's values
   * rather than the empty defaults.
   */
  method AddItemAfterEditShowsEditedValues(item: JobItem) returns (shown: ItemForm)
    ensures shown == EditForm(item)
    ensures item.name != "" ==> shown != DefaultForm
  {
    var page := new JobItemsManagement();
    page.HandleEditItem(item);
    page.CloseAddDialog();
    page.OpenAddDialog();
    shown := page.form;
  }
}

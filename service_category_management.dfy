/**
 * The service-category registry: categories identified by a slug of their
 * name, each with a count of the jobs filed under it, the add/edit dialog and
 * its schema, deletion guarded by the job count, and the searchable table.
 */
module ServiceCategoryManagement {
  import opened Wrappers
  import Text
  import Lists

  // ---------------------------------------------------------------------------
  // Records and the validation schema
  // ---------------------------------------------------------------------------

  datatype ServiceCategory = ServiceCategory(
    id: string,
    name: string,
    description: string,
    icon: Option<string>,
    color: Option<string>,
    jobCount: int)

  datatype CategoryForm = CategoryForm(
    name: string,
    description: string,
    icon: Option<string>,
    color: Option<string>)

  const DefaultForm := CategoryForm("", "", Some(""), Some(""))

  predicate SchemaValid(f: CategoryForm)
  {
    |f.name| >= 2 && |f.description| >= 5
  }

  /** Running the schema: the values unchanged when name and description are long enough. */
  function ParseCategory(f: CategoryForm): (r: Option<CategoryForm>)
    ensures r.Some? <==> |f.name| >= 2 && |f.description| >= 5
    ensures r.Some? ==> r.value == f
  {
    if |f.name| < 2 || |f.description| < 5 then None else Some(f)
  }

  /** Icon and colour never affect validity. */
  lemma IconAndColorUnconstrained(f: CategoryForm, icon: Option<string>, color: Option<string>)
    ensures ParseCategory(f.(icon := icon, color := color)).Some? == ParseCategory(f).Some?
  {
  }

  /** The values the edit dialog opens with: a missing icon or colour shows as empty. */
  function EditForm(c: ServiceCategory): (f: CategoryForm)
    ensures f.name == c.name && f.description == c.description
    ensures f.icon == Some(if c.icon.Some? then c.icon.value else "")
    ensures f.color == Some(if c.color.Some? then c.color.value else "")
  {
    CategoryForm(c.name, c.description, Some(c.icon.GetOr("")), Some(c.color.GetOr("")))
  }

  // ---------------------------------------------------------------------------
  // The slug id
  // ---------------------------------------------------------------------------

  /** A new category's id: the name lower-cased, each whitespace run replaced by one "-". */
  function Slug(name: string): (id: string)
    ensures Text.NoSpace(id) && Text.NoUpper(id)
    ensures |id| <= |name|
  {
    Text.ReplaceSpaceRuns(Text.ToLower(name), '-', false)
  }

  /** A slug is its own slug: once lower-cased and joined, there is nothing left to change. */
  lemma SlugIdempotent(name: string)
    ensures Slug(Slug(name)) == Slug(name)
  {
    var id := Slug(name);
    Text.ToLowerOfNoUpper(id);
    Text.ReplaceSpaceRunsOfNoSpace(id, '-', false);
  }

  /** A name already in slug form is its own id. */
  lemma SlugOfSlugForm(name: string)
    requires Text.NoSpace(name) && Text.NoUpper(name)
    ensures Slug(name) == name
  {
    Text.ToLowerOfNoUpper(name);
    Text.ReplaceSpaceRunsOfNoSpace(name, '-', false);
  }

  /**
   * Each maximal whitespace run of the name becomes exactly one "-", and the
   * words on either side are slugged on their own.
   */
  lemma SlugJoinsWords(a: string, w: string, b: string)
    requires a == [] || !Text.IsSpace(a[|a| - 1])
    requires w != [] && Text.AllSpace(w)
    requires b == [] || !Text.IsSpace(b[0])
    ensures Slug(a + (w + b)) == Slug(a) + ("-" + Slug(b))
  {
    Text.ToLowerConcat(w, b);
    Text.ToLowerConcat(a, w + b);
    var la, lw, lb := Text.ToLower(a), Text.ToLower(w), Text.ToLower(b);
    assert Text.AllSpace(lw) by {
      forall i | 0 <= i < |lw| ensures Text.IsSpace(lw[i]) {
        assert Text.IsSpace(w[i]);
      }
    }
    assert la == [] || !Text.IsSpace(la[|la| - 1]);
    assert lb == [] || !Text.IsSpace(lb[0]);
    Text.ReplaceSpaceRunsJoinsWords(la, lw, lb, '-');
  }

  /** Apart from the dashes, the slug is the name lower-cased with its whitespace dropped, in order. */
  lemma SlugKeepsOthers(name: string)
    ensures Text.Without(Slug(name), '-') == Text.Without(Text.WithoutSpace(Text.ToLower(name)), '-')
  {
    Text.ReplaceSpaceRunsKeepsOthers(Text.ToLower(name), '-', false);
  }

  // ---------------------------------------------------------------------------
  // List operations
  // ---------------------------------------------------------------------------

  /** Adding: one category appended, id from the name's slug, no jobs yet. */
  function AddCategory(s: seq<ServiceCategory>, d: CategoryForm): (r: seq<ServiceCategory>)
    ensures |r| == |s| + 1 && r[..|s|] == s
    ensures r[|s|].id == Slug(d.name) && r[|s|].jobCount == 0
    ensures && r[|s|].name == d.name && r[|s|].description == d.description
            && r[|s|].icon == d.icon && r[|s|].color == d.color
  {
    s + [ServiceCategory(Slug(d.name), d.name, d.description, d.icon, d.color, 0)]
  }

  function Overwrite(c: ServiceCategory, d: CategoryForm): ServiceCategory
  {
    c.(name := d.name, description := d.description, icon := d.icon, color := d.color)
  }

  /**
   * Editing: categories with the selected id take the dialog's values and keep
   * their id and job count (a renamed category keeps its old slug); the
   * others are unchanged, in place.
   */
  function EditCategories(s: seq<ServiceCategory>, id: string, d: CategoryForm): (r: seq<ServiceCategory>)
    ensures |r| == |s|
    ensures forall i :: 0 <= i < |s| && s[i].id != id ==> r[i] == s[i]
    ensures forall i :: 0 <= i < |s| && s[i].id == id ==>
      && r[i].id == s[i].id && r[i].jobCount == s[i].jobCount
      && r[i].name == d.name && r[i].description == d.description
      && r[i].icon == d.icon && r[i].color == d.color
  {
    Lists.MapWhere(s, (c: ServiceCategory) => c.id == id, (c: ServiceCategory) => Overwrite(c, d))
  }

  /** Deleting: every category with the id goes, the others stay in order. */
  function DeleteCategories(s: seq<ServiceCategory>, id: string): (r: seq<ServiceCategory>)
    ensures forall c :: c in r <==> c in s && c.id != id
    ensures Lists.IsSubsequence(r, s)
  {
    Lists.Filter(s, (c: ServiceCategory) => c.id != id)
  }

  /**
   * The job-count guard sits on the buttons, not on the deletion by id: adding
   * a category whose name slugs to an existing id creates a second, empty
   * category that may be deleted, and deleting it removes the existing one and
   * its jobs' category too.
   */
  lemma CollidingSlugDeletesBusyCategory(s: seq<ServiceCategory>, k: nat, d: CategoryForm)
    requires k < |s| && Slug(d.name) == s[k].id
    ensures var r := AddCategory(s, d);
      && r[|s|].jobCount == 0 && r[|s|].id == s[k].id
      && s[k] !in DeleteCategories(r, r[|s|].id)
  {
  }

  /** The search: the query occurs in the name or the description. */
  predicate Matches(c: ServiceCategory, query: string)
  {
    Text.IncludesIgnoringCase(c.name, query) || Text.IncludesIgnoringCase(c.description, query)
  }

  /** The table rows: the matching categories in list order. */
  function Visible(s: seq<ServiceCategory>, query: string): (r: seq<ServiceCategory>)
    ensures forall c :: c in r <==> c in s && Matches(c, query)
    ensures Lists.IsSubsequence(r, s)
  {
    Lists.Filter(s, (c: ServiceCategory) => Matches(c, query))
  }

  /** With no query every category is listed. */
  lemma VisibleUnfiltered(s: seq<ServiceCategory>)
    ensures Visible(s, "") == s
  {
    forall c | c in s ensures Matches(c, "") {
      Text.EmptyQueryMatches(c.name);
    }
    Lists.FilterKeepsAll(s, (c: ServiceCategory) => Matches(c, ""));
  }

  /** The delete buttons are enabled only for a category without jobs. */
  predicate CanDelete(c: ServiceCategory)
  {
    !(c.jobCount > 0)
  }

  const InitialCategories: seq<ServiceCategory> := [
    ServiceCategory("electrical", "Electrical", "Electrical system maintenance and repairs",
                    Some("⚡"), Some("yellow"), 32),
    ServiceCategory("plumbing", "Plumbing", "Water system repairs and installations",
                    Some("\U{1F6BF}"), Some("blue"), 28),
    ServiceCategory("ac-repair", "AC Repair", "Air conditioning maintenance and repairs",
                    Some("❄️"), Some("cyan"), 24),
    ServiceCategory("painting", "Painting", "Interior and exterior painting services",
                    Some("\U{1F3A8}"), Some("purple"), 22),
    ServiceCategory("carpentry", "Carpentry", "Woodwork and structural repairs",
                    Some("\U{1F528}"), Some("amber"), 18)
  ]

  // ---------------------------------------------------------------------------
  // The management page
  // ---------------------------------------------------------------------------

  class ServiceCategoryManagement {
    var categories: seq<ServiceCategory>
    var isAddCategoryOpen: bool
    var isDeleteDialogOpen: bool
    var selected: Option<ServiceCategory>
    var searchQuery: string
    /** The values currently in the add/edit dialog's inputs. */
    var form: CategoryForm
    /**
     * The values a bare `form.reset()` restores: the form's default values at
     * first, replaced by the values of every `form.reset(values)`.
     */
    var resetValues: CategoryForm

    constructor ()
      ensures categories == InitialCategories
      ensures !isAddCategoryOpen && !isDeleteDialogOpen && selected == None
      ensures searchQuery == "" && form == DefaultForm && resetValues == DefaultForm
    {
      categories := InitialCategories;
      isAddCategoryOpen, isDeleteDialogOpen := false, false;
      selected := None;
      searchQuery := "";
      form := DefaultForm;
      resetValues := DefaultForm;
    }

    function Filtered(): seq<ServiceCategory>
      reads this
    {
      Visible(categories, searchQuery)
    }

    method SetSearchQuery(q: string)
      modifies this`searchQuery
      ensures searchQuery == q
    {
      searchQuery := q;
    }

    /** The user typing into the dialog's inputs. */
    method EnterForm(f: CategoryForm)
      modifies this`form
      ensures form == f
    {
      form := f;
    }

    /**
     * "Add New Category": no selection, the form reset, dialog open. The reset restores the
     * last values the form was reset to, which are the defaults only until a
     * row has been opened for editing.
     */
    method OpenAddDialog()
      modifies this`selected, this`form, this`isAddCategoryOpen
      ensures selected == None && form == resetValues && isAddCategoryOpen
    {
      selected := None;
      form := resetValues;
      isAddCategoryOpen := true;
    }

    /** The edit button of a row: that category selected, the dialog filled from it. */
    method HandleEditCategory(c: ServiceCategory)
      modifies this`selected, this`form, this`resetValues, this`isAddCategoryOpen
      ensures selected == Some(c) && form == EditForm(c) && resetValues == EditForm(c) && isAddCategoryOpen
    {
      selected := Some(c);
      form := EditForm(c);
      resetValues := EditForm(c);
      isAddCategoryOpen := true;
    }

    /** The delete button of a row, enabled only for a category without jobs. */
    method HandleDeleteCategory(c: ServiceCategory)
      requires CanDelete(c)
      modifies this`selected, this`isDeleteDialogOpen
      ensures selected == Some(c) && isDeleteDialogOpen
    {
      selected := Some(c);
      isDeleteDialogOpen := true;
    }

    /**
     * The submit handler, reached with validated values: edits the selected
     * category's records or appends a new one; then closes the dialog, resets
     * the form and clears the selection.
     */
    method HandleAddCategory(d: CategoryForm)
      modifies this`categories, this`isAddCategoryOpen, this`form, this`selected
      ensures categories == if old(selected).Some? then EditCategories(old(categories), old(selected).value.id, d)
                            else AddCategory(old(categories), d)
      ensures !isAddCategoryOpen && form == resetValues && selected == None
    {
      if selected.Some? {
        categories := EditCategories(categories, selected.value.id, d);
      } else {
        categories := AddCategory(categories, d);
      }
      isAddCategoryOpen := false;
      form := resetValues;
      selected := None;
    }

    /** Submitting the dialog: only values the schema accepts reach the handler. */
    method Submit() returns (accepted: bool)
      modifies this`categories, this`isAddCategoryOpen, this`form, this`selected
      ensures accepted <==> SchemaValid(old(form))
      ensures accepted ==> categories == (if old(selected).Some?
        then EditCategories(old(categories), old(selected).value.id, old(form))
        else AddCategory(old(categories), old(form)))
      ensures accepted ==> !isAddCategoryOpen && form == resetValues && selected == None
      ensures !accepted ==> categories == old(categories) && isAddCategoryOpen == old(isAddCategoryOpen)
                            && form == old(form) && selected == old(selected)
    {
      var parsed := ParseCategory(form);
      if parsed.None? {
        return false;
      }
      HandleAddCategory(parsed.value);
      accepted := true;
    }

    /**
     * The confirmation's delete button, disabled while the selected category
     * has jobs: removes the selected id's categories, if anything is selected.
     */
    method ConfirmDelete()
      requires selected.None? || CanDelete(selected.value)
      modifies this`categories, this`isDeleteDialogOpen, this`selected
      ensures old(selected).Some? ==> categories == DeleteCategories(old(categories), old(selected).value.id)
                                      && !isDeleteDialogOpen && selected == None
      ensures old(selected).None? ==> categories == old(categories)
                                      && isDeleteDialogOpen == old(isDeleteDialogOpen) && selected == None
    {
      if selected.Some? {
        categories := DeleteCategories(categories, selected.value.id);
        isDeleteDialogOpen := false;
        selected := None;
      }
    }

    /** Cancel, or dismissing the add/edit dialog: it closes; the selection stays. */
    method CloseAddDialog()
      modifies this`isAddCategoryOpen
      ensures !isAddCategoryOpen
    {
      isAddCategoryOpen := false;
    }

    /** Cancel, or dismissing the delete confirmation: it closes; the selection stays. */
    method CloseDeleteDialog()
      modifies this`isDeleteDialogOpen
      ensures !isDeleteDialogOpen
    {
      isDeleteDialogOpen := false;
    }
  }

  /**
   * After a row has been opened for editing, "Add New Category" shows that row's values
   * rather than the empty defaults.
   */
  method AddCategoryAfterEditShowsEditedValues(c: ServiceCategory) returns (shown: CategoryForm)
    ensures shown == EditForm(c)
    ensures c.name != "" ==> shown != DefaultForm
  {
    var page := new ServiceCategoryManagement();
    page.HandleEditCategory(c);
    page.CloseAddDialog();
    page.OpenAddDialog();
    shown := page.form;
  }
}

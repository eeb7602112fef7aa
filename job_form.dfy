/**
 * The job-documentation form: the validation schema of its fields, the
 * signature pad's drawing flag and captured image, the before/after photo
 * lists, the four tabs with their Back/Next buttons, and the record handed
 * to the caller on submission.
 */
module JobForm {
  import opened Wrappers
  import Lists

  // ---------------------------------------------------------------------------
  // Form fields and the validation schema
  // ---------------------------------------------------------------------------

  /** The form's values; `None` stands for an optional field left `undefined`. */
  datatype JobFormData = JobFormData(
    jobTitle: string,
    location: string,
    serviceCategory: string,
    description: string,
    materialsUsed: Option<string>,
    notes: Option<string>,
    customerName: Option<string>,
    customerEmail: Option<string>,
    customerPhone: Option<string>)

  /** The fields the schema constrains; the other four accept any value. */
  datatype Field = JobTitle | Location | ServiceCategory | Description | CustomerEmail

  /** The values the form starts from when its caller passes no initial data: every field `""`. */
  const DefaultData := JobFormData("", "", "", "", Some(""), Some(""), Some(""), Some(""), Some(""))

  /** The values offered by the service-category select. */
  const ServiceCategoryOptions: seq<string> := ["electrical", "plumbing", "ac_repair", "painting", "carpentry"]

  /** The schema fields in declaration order. */
  const SchemaFields: seq<Field> := [JobTitle, Location, ServiceCategory, Description, CustomerEmail]

  /**
   * The schema's rule for one field: minimum lengths for the four required
   * fields; an e-mail that is present must pass `isEmail`, which stands for the
   * schema library's e-mail check.
   */
  predicate Fails(d: JobFormData, f: Field, isEmail: string -> bool)
  {
    match f
    case JobTitle => |d.jobTitle| < 2
    case Location => |d.location| < 2
    case ServiceCategory => |d.serviceCategory| < 1
    case Description => |d.description| < 10
    case CustomerEmail => d.customerEmail.Some? && !isEmail(d.customerEmail.value)
  }

  /** The fields that fail the schema, in declaration order. */
  function Errors(d: JobFormData, isEmail: string -> bool): (errs: seq<Field>)
    ensures JobTitle in errs <==> |d.jobTitle| < 2
    ensures Location in errs <==> |d.location| < 2
    ensures ServiceCategory in errs <==> |d.serviceCategory| < 1
    ensures Description in errs <==> |d.description| < 10
    ensures CustomerEmail in errs <==> d.customerEmail.Some? && !isEmail(d.customerEmail.value)
    ensures Lists.IsSubsequence(errs, SchemaFields)
  {
    Lists.Filter(SchemaFields, f => Fails(d, f, isEmail))
  }

  /** The form validates when no field is in error. */
  predicate Valid(d: JobFormData, isEmail: string -> bool)
  {
    Errors(d, isEmail) == []
  }

  /** Validity is exactly the conjunction of the five field rules. */
  lemma ValidIff(d: JobFormData, isEmail: string -> bool)
    ensures Valid(d, isEmail) <==>
      && |d.jobTitle| >= 2
      && |d.location| >= 2
      && |d.serviceCategory| >= 1
      && |d.description| >= 10
      && (d.customerEmail.None? || isEmail(d.customerEmail.value))
  {
    var errs := Errors(d, isEmail);
    if errs != [] {
      assert errs[0] in errs;
    }
  }

  /** The materials, notes, customer name and customer phone never affect validity. */
  lemma UnconstrainedFields(d: JobFormData, materials: Option<string>, notes: Option<string>,
                            name: Option<string>, phone: Option<string>, isEmail: string -> bool)
    ensures Valid(d.(materialsUsed := materials, notes := notes, customerName := name, customerPhone := phone), isEmail)
        == Valid(d, isEmail)
  {
    ValidIff(d, isEmail);
    ValidIff(d.(materialsUsed := materials, notes := notes, customerName := name, customerPhone := phone), isEmail);
  }

  /**
   * An e-mail field left at its default `""` is present, so it must pass the
   * e-mail check, which the empty string does not: the form as first shown
   * cannot be submitted until the e-mail is filled in or cleared to `undefined`.
   */
  lemma DefaultEmailRejected(d: JobFormData, isEmail: string -> bool)
    requires d.customerEmail == Some("") && !isEmail("")
    ensures CustomerEmail in Errors(d, isEmail)
    ensures !Valid(d, isEmail)
  {
  }

  /** Nine characters of description are one too few, whatever else is entered. */
  lemma ShortDescriptionRejected(d: JobFormData, isEmail: string -> bool)
    requires |d.description| == 9
    ensures Description in Errors(d, isEmail)
  {
  }

  // ---------------------------------------------------------------------------
  // Tabs
  // ---------------------------------------------------------------------------

  datatype Tab = Details | Before | After | Customer

  /** The position of a tab in the tab bar. */
  function TabIndex(t: Tab): (i: nat)
    ensures i < 4
  {
    match t
    case Details => 0
    case Before => 1
    case After => 2
    case Customer => 3
  }

  /** Where the Back button of a tab leads; the details tab has none. */
  function BackTarget(t: Tab): Option<Tab>
  {
    match t
    case Details => None
    case Before => Some(Details)
    case After => Some(Before)
    case Customer => Some(After)
  }

  /** Where the Next button of a tab leads; only the two photo tabs have one. */
  function NextTarget(t: Tab): Option<Tab>
  {
    match t
    case Details => None
    case Before => Some(After)
    case After => Some(Customer)
    case Customer => None
  }

  /** Back and Next move exactly one position along the tab bar, and undo each other. */
  lemma BackNextAdjacent(t: Tab)
    ensures BackTarget(t).Some? <==> t != Details
    ensures BackTarget(t).Some? ==> TabIndex(BackTarget(t).value) + 1 == TabIndex(t)
    ensures NextTarget(t).Some? <==> t == Before || t == After
    ensures NextTarget(t).Some? ==> TabIndex(NextTarget(t).value) == TabIndex(t) + 1
    ensures NextTarget(t).Some? ==> BackTarget(NextTarget(t).value) == Some(t)
  {
  }

  // ---------------------------------------------------------------------------
  // Photos, signature and the submitted record
  // ---------------------------------------------------------------------------

  /** A file chosen in the browser's file picker, as an opaque token. */
  type PhotoFile = string

  /** The canvas snapshot returned by `toDataURL`, as an opaque value. */
  type DataUrl = string

  /** A pointer position relative to the canvas's top-left corner. */
  datatype Point = Point(x: int, y: int)

  datatype Slot = BeforeSlot | AfterSlot

  /** What the form hands to its `onSubmit` callback: the validated fields and the signature. */
  datatype Submission = Submission(data: JobFormData, customerSignature: Option<DataUrl>)

  /** The state of one mounted job form. */
  class JobFormState {
    /** Whether the signature canvas element (and its 2-D context) is attached. */
    const hasCanvas: bool
    var beforePhotos: seq<PhotoFile>
    var afterPhotos: seq<PhotoFile>
    var activeTab: Tab
    var customerSignature: Option<DataUrl>
    var isDrawing: bool
    /** The canvas's current path: the points given to `moveTo`/`lineTo` since the last `beginPath`. */
    var path: seq<Point>

    constructor (hasCanvas: bool)
      ensures this.hasCanvas == hasCanvas
      ensures beforePhotos == [] && afterPhotos == []
      ensures activeTab == Details
      ensures customerSignature == None && !isDrawing && path == []
    {
      this.hasCanvas := hasCanvas;
      beforePhotos, afterPhotos := [], [];
      activeTab := Details;
      customerSignature, isDrawing, path := None, false, [];
    }

    function Photos(slot: Slot): seq<PhotoFile>
      reads this
    {
      match slot
      case BeforeSlot => beforePhotos
      case AfterSlot => afterPhotos
    }

    /** Mouse down or touch start on the canvas: drawing starts and a new path begins at `p`. */
    method StartDrawing(p: Point)
      modifies this`isDrawing, this`path
      ensures isDrawing
      ensures path == if hasCanvas then [p] else old(path)
    {
      isDrawing := true;
      if !hasCanvas {
        return;
      }
      path := [p];
    }

    /** Mouse or touch move: extends the path only while drawing. */
    method Draw(p: Point)
      modifies this`path
      ensures path == if isDrawing && hasCanvas then old(path) + [p] else old(path)
    {
      if !isDrawing {
        return;
      }
      if !hasCanvas {
        return;
      }
      path := path + [p];
    }

    /**
     * Mouse up, mouse leave or touch end: drawing stops and the signature becomes
     * the canvas snapshot, whether or not anything was drawn.
     */
    method EndDrawing(snapshot: DataUrl)
      modifies this`isDrawing, this`customerSignature
      ensures !isDrawing
      ensures customerSignature == if hasCanvas then Some(snapshot) else old(customerSignature)
    {
      isDrawing := false;
      if hasCanvas {
        customerSignature := Some(snapshot);
      }
    }

    /** The Clear button: wipes the canvas and forgets the signature; the drawing flag is untouched. */
    method ClearSignature()
      modifies this`customerSignature
      ensures customerSignature == if hasCanvas then None else old(customerSignature)
    {
      if !hasCanvas {
        return;
      }
      customerSignature := None;
    }

    /** Files chosen for one slot are appended to it in order; the other slot is untouched. */
    method HandlePhotoUpload(files: seq<PhotoFile>, slot: Slot)
      modifies this`beforePhotos, this`afterPhotos
      ensures Photos(slot) == old(Photos(slot)) + files
      ensures slot == BeforeSlot ==> afterPhotos == old(afterPhotos)
      ensures slot == AfterSlot ==> beforePhotos == old(beforePhotos)
    {
      if |files| > 0 {
        if slot == BeforeSlot {
          beforePhotos := beforePhotos + files;
        } else {
          afterPhotos := afterPhotos + files;
        }
      }
    }

    /** Removes the photo at `index` from one slot; the other slot is untouched. */
    method RemovePhoto(index: int, slot: Slot)
      modifies this`beforePhotos, this`afterPhotos
      ensures Photos(slot) == Lists.RemoveAt(old(Photos(slot)), index)
      ensures 0 <= index < |old(Photos(slot))| ==>
        Photos(slot) == old(Photos(slot))[..index] + old(Photos(slot))[index + 1..]
      ensures !(0 <= index < |old(Photos(slot))|) ==> Photos(slot) == old(Photos(slot))
      ensures slot == BeforeSlot ==> afterPhotos == old(afterPhotos)
      ensures slot == AfterSlot ==> beforePhotos == old(beforePhotos)
    {
      if slot == BeforeSlot {
        beforePhotos := Lists.RemoveAt(beforePhotos, index);
      } else {
        afterPhotos := Lists.RemoveAt(afterPhotos, index);
      }
    }

    /** The tab bar: any tab may be selected directly. */
    method SelectTab(t: Tab)
      modifies this`activeTab
      ensures activeTab == t
    {
      activeTab := t;
    }

    /** The Back button of the current tab, if it has one. */
    method PressBack()
      modifies this`activeTab
      ensures activeTab == BackTarget(old(activeTab)).GetOr(old(activeTab))
    {
      var target := BackTarget(activeTab);
      if target.Some? {
        activeTab := target.value;
      }
    }

    /** The Next button of the current tab, if it has one. */
    method PressNext()
      modifies this`activeTab
      ensures activeTab == NextTarget(old(activeTab)).GetOr(old(activeTab))
    {
      var target := NextTarget(activeTab);
      if target.Some? {
        activeTab := target.value;
      }
    }

    /**
     * Submitting the form: the schema runs first; only valid data reaches the
     * submit handler, which passes the data with the current signature on.
     * Photos are not part of the record. Nothing in the form changes.
     */
    method Submit(d: JobFormData, isEmail: string -> bool) returns (submitted: Option<Submission>)
      ensures submitted.Some? <==> Valid(d, isEmail)
      ensures submitted.Some? ==> submitted.value == Submission(d, customerSignature)
    {
      if Errors(d, isEmail) != [] {
        return None;
      }
      submitted := Some(Submission(d, customerSignature));
    }
  }

  /**
   * A pointer that merely leaves the canvas, with no stroke drawn, still
   * records a signature: the end handler runs on mouse leave too.
   */
  method LeavingWithoutStrokeSetsSignature(snapshot: DataUrl) returns (form: JobFormState)
    ensures form.customerSignature == Some(snapshot) && !form.isDrawing && form.path == []
  {
    form := new JobFormState(true);
    form.EndDrawing(snapshot);
  }

  /** A move before any start event changes nothing; after a start it extends the path. */
  method MoveNeedsStart(p: Point, q: Point) returns (before: seq<Point>, after: seq<Point>)
    ensures before == [] && after == [p, q]
  {
    var form := new JobFormState(true);
    form.Draw(q);
    before := form.path;
    form.StartDrawing(p);
    form.Draw(q);
    after := form.path;
  }

  /** Clearing after any strokes leaves no signature. */
  method ClearAfterStroke(p: Point, snapshot: DataUrl) returns (sig: Option<DataUrl>)
    ensures sig == None
  {
    var form := new JobFormState(true);
    form.StartDrawing(p);
    form.Draw(p);
    form.EndDrawing(snapshot);
    form.ClearSignature();
    sig := form.customerSignature;
  }
}

/**
 * The user registry of the administration area: technicians, administrators
 * and back-office staff, with the add/edit dialog and its validation schema,
 * deletion by id, the searchable and role-filtered table, and the avatar
 * fallback initials.
 */
module TechnicianManagement {
  import opened Wrappers
  import Text
  import Lists

  // ---------------------------------------------------------------------------
  // Records and the validation schema
  // ---------------------------------------------------------------------------

  /** A registered user. The registry stores no password. */
  datatype Technician = Technician(
    id: string,
    name: string,
    email: string,
    phone: string,
    role: string,
    username: string,
    specialization: Option<string>,
    status: string,
    avatar: Option<string>)

  /** The dialog's form values; a `None` field is `undefined`. */
  datatype UserForm = UserForm(
    name: string,
    email: string,
    phone: string,
    role: string,
    username: string,
    password: string,
    specialization: Option<string>,
    status: Option<string>)

  /** The values the schema hands to the submit handler, the status default applied. */
  datatype UserData = UserData(
    name: string,
    email: string,
    phone: string,
    role: string,
    username: string,
    password: string,
    specialization: Option<string>,
    status: string)

  /** The values the dialog is reset to: role "Technician", status "active", everything else empty. */
  const DefaultForm := UserForm("", "", "", "Technician", "", "", Some(""), Some("active"))

  /** Every rule of the schema; `isEmail` stands for the schema library's e-mail check. */
  predicate SchemaValid(f: UserForm, isEmail: string -> bool)
  {
    && |f.name| >= 2
    && isEmail(f.email)
    && |f.phone| >= 10
    && |f.role| >= 1
    && |f.username| >= 2
    && |f.password| >= 6
  }

  /**
   * Running the schema: the form's values when every rule holds, with an
   * `undefined` status replaced by "active"; nothing otherwise.
   */
  function ParseUser(f: UserForm, isEmail: string -> bool): (r: Option<UserData>)
    ensures r.Some? <==> SchemaValid(f, isEmail)
    ensures r.Some? ==> r.value.status == (if f.status.Some? then f.status.value else "active")
    ensures r.Some? ==> && r.value.name == f.name && r.value.email == f.email
                        && r.value.phone == f.phone && r.value.role == f.role
                        && r.value.username == f.username && r.value.password == f.password
                        && r.value.specialization == f.specialization
  {
    if |f.name| < 2 || !isEmail(f.email) || |f.phone| < 10 || |f.role| < 1
       || |f.username| < 2 || |f.password| < 6
    then None
    else Some(UserData(f.name, f.email, f.phone, f.role, f.username, f.password,
                       f.specialization, f.status.GetOr("active")))
  }

  /** The form values the edit dialog opens with: the user's fields and a blank password. */
  function EditForm(t: Technician): (f: UserForm)
    ensures f.password == ""
    ensures f.name == t.name && f.email == t.email && f.phone == t.phone
    ensures f.role == t.role && f.username == t.username && f.status == Some(t.status)
    ensures f.specialization == Some(if t.specialization.Some? then t.specialization.value else "")
  {
    UserForm(t.name, t.email, t.phone, t.role, t.username, "",
             Some(t.specialization.GetOr("")), Some(t.status))
  }

  /**
   * The edit dialog invites the password to be left blank, but the six-character
   * rule still applies: an edit submitted without typing a password is rejected.
   */
  lemma BlankPasswordRejected(t: Technician, isEmail: string -> bool)
    ensures ParseUser(EditForm(t), isEmail).None?
  {
  }

  // ---------------------------------------------------------------------------
  // List operations
  // ---------------------------------------------------------------------------

  /** The id given to a user added to a list of `n` entries. */
  function NewId(n: nat): (id: string)
    ensures |id| > 4 && id[..4] == "tech" && Text.AllDigits(id[4..])
    ensures Text.DigitsValue(id[4..]) == n + 1
    ensures id[4] != '0'
  {
    var digits := Text.NatToString(n + 1);
    Text.NatToStringRoundTrip(n + 1);
    assert ("tech" + digits)[4..] == digits;
    "tech" + digits
  }

  /** The contract of `NewId` fixes the string: any id meeting it is `NewId(n)`. */
  lemma NewIdDetermined(n: nat, id: string)
    requires |id| > 4 && id[..4] == "tech" && Text.AllDigits(id[4..])
    requires Text.DigitsValue(id[4..]) == n + 1 && id[4] != '0'
    ensures id == NewId(n)
  {
    var other := NewId(n);
    Text.CanonicalDigitsUnique(id[4..], other[4..]);
    assert id == id[..4] + id[4..] && other == other[..4] + other[4..];
  }

  const AvatarBase := "https://api.dicebear.com/7.x/avataaars/svg?seed="

  /** The record an add creates for a list of `n` entries. */
  function NewTechnician(n: nat, d: UserData): Technician
  {
    Technician(NewId(n), d.name, d.email, d.phone, d.role, d.username, d.specialization,
               d.status, Some(AvatarBase + d.username))
  }

  /** Adding a user: one record appended, with a fresh numbered id and an avatar seeded by the username. */
  function AddTechnician(s: seq<Technician>, d: UserData): (r: seq<Technician>)
    ensures |r| == |s| + 1 && r[..|s|] == s
    ensures r[|s|].id == NewId(|s|)
    ensures r[|s|].avatar == Some(AvatarBase + d.username)
    ensures && r[|s|].name == d.name && r[|s|].email == d.email && r[|s|].phone == d.phone
            && r[|s|].role == d.role && r[|s|].username == d.username
            && r[|s|].specialization == d.specialization && r[|s|].status == d.status
  {
    s + [NewTechnician(|s|, d)]
  }

  /** The record `t` with the dialog's fields written over it. */
  function Overwrite(t: Technician, d: UserData): Technician
  {
    t.(name := d.name, email := d.email, phone := d.phone, role := d.role,
       username := d.username, specialization := d.specialization, status := d.status)
  }

  /**
   * Editing: every record with the selected id takes the dialog's fields and
   * keeps its id and avatar; every other record is unchanged, and so are the
   * length and the order.
   */
  function EditTechnicians(s: seq<Technician>, id: string, d: UserData): (r: seq<Technician>)
    ensures |r| == |s|
    ensures forall i :: 0 <= i < |s| && s[i].id != id ==> r[i] == s[i]
    ensures forall i :: 0 <= i < |s| && s[i].id == id ==>
      && r[i].id == s[i].id && r[i].avatar == s[i].avatar
      && r[i].name == d.name && r[i].email == d.email && r[i].phone == d.phone
      && r[i].role == d.role && r[i].username == d.username
      && r[i].specialization == d.specialization && r[i].status == d.status
  {
    Lists.MapWhere(s, (t: Technician) => t.id == id, (t: Technician) => Overwrite(t, d))
  }

  /** Deleting: every record with the id goes, the others stay in order. */
  function DeleteTechnicians(s: seq<Technician>, id: string): (r: seq<Technician>)
    ensures forall t :: t in r <==> t in s && t.id != id
    ensures Lists.IsSubsequence(r, s)
  {
    Lists.Filter(s, (t: Technician) => t.id != id)
  }

  /** Deleting an id nobody has changes nothing. */
  lemma DeleteAbsentId(s: seq<Technician>, id: string)
    requires forall t :: t in s ==> t.id != id
    ensures DeleteTechnicians(s, id) == s
  {
    Lists.FilterKeepsAll(s, (t: Technician) => t.id != id);
  }

  /**
   * Ids are numbered by list length, so they repeat: after an add, deleting a
   * user whose id is held once and then adding another user gives two records
   * with the same id.
   */
  lemma DuplicateIdAfterDelete(s: seq<Technician>, k: nat, d1: UserData, d2: UserData)
    requires k < |s| && s[k].id != NewId(|s|)
    requires forall j :: 0 <= j < |s| && j != k ==> s[j].id != s[k].id
    ensures var r := AddTechnician(DeleteTechnicians(AddTechnician(s, d1), s[k].id), d2);
      |r| == |s| + 1 && r[|s| - 1].id == r[|s|].id == NewId(|s|)
  {
    var s1 := AddTechnician(s, d1);
    var id := s[k].id;
    Lists.FilterRemovesOne(s1, (t: Technician) => t.id != id, k);
    var s2 := DeleteTechnicians(s1, id);
    assert s2 == s1[..k] + s1[k + 1..];
    assert |s2| == |s| && s2[|s| - 1] == s1[|s|];
  }

  /** The search and role filter of the table; "all" disables the role filter. */
  predicate Matches(t: Technician, query: string, roleFilter: string)
  {
    && (Text.IncludesIgnoringCase(t.name, query)
        || Text.IncludesIgnoringCase(t.email, query)
        || Text.IncludesIgnoringCase(t.username, query))
    && (roleFilter == "all" || t.role == roleFilter)
  }

  /** The rows of the table: the matching users, in list order. */
  function Visible(s: seq<Technician>, query: string, roleFilter: string): (r: seq<Technician>)
    ensures forall t :: t in r <==> t in s && Matches(t, query, roleFilter)
    ensures Lists.IsSubsequence(r, s)
  {
    Lists.Filter(s, (t: Technician) => Matches(t, query, roleFilter))
  }

  /** With no query and "all" roles the table lists everyone. */
  lemma VisibleUnfiltered(s: seq<Technician>)
    ensures Visible(s, "", "all") == s
  {
    forall t | t in s ensures Matches(t, "", "all") {
      Text.EmptyQueryMatches(t.name);
    }
    Lists.FilterKeepsAll(s, (t: Technician) => Matches(t, "", "all"));
  }

  // ---------------------------------------------------------------------------
  // Avatar fallback and badges
  // ---------------------------------------------------------------------------

  /**
   * `parts.map(n => n[0]).join("")`: the first character of every part; an empty
   * part's `n[0]` is `undefined`, which `join` renders as nothing.
   */
  function FirstChars(parts: seq<string>): string
  {
    if parts == [] then ""
    else (if parts[0] == "" then "" else [parts[0][0]]) + FirstChars(parts[1..])
  }

  /**
   * The avatar fallback: the first character of every space-separated part of
   * the name, which are exactly the name's word-start characters, in order.
   */
  function Initials(name: string): (r: string)
    ensures r == WordStarts(name, true)
    ensures forall i :: 0 <= i < |r| ==> r[i] != ' ' && r[i] in name
  {
    SplitWordStarts(name);
    FirstChars(Text.Split(name, ' '))
  }

  /**
   * Reference definition: the characters of `s` that are not spaces and come
   * first or right after a space (`atStart` says a space, or nothing, precedes `s`).
   */
  function WordStarts(s: string, atStart: bool): (r: string)
    ensures forall i :: 0 <= i < |r| ==> r[i] != ' ' && r[i] in s
  {
    if s == [] then ""
    else if s[0] == ' ' then WordStarts(s[1..], true)
    else (if atStart then [s[0]] else "") + WordStarts(s[1..], false)
  }

  lemma {:induction false} SplitWordStarts(s: string)
    ensures FirstChars(Text.Split(s, ' ')) == WordStarts(s, true)
    ensures FirstChars(Text.Split(s, ' ')[1..]) == WordStarts(s, false)
  {
    if s != [] {
      SplitWordStarts(s[1..]);
      var rest := Text.Split(s[1..], ' ');
      if s[0] == ' ' {
        assert Text.Split(s, ' ') == [""] + rest;
        assert ([""] + rest)[1..] == rest;
      } else {
        var parts := [[s[0]] + rest[0]] + rest[1..];
        assert Text.Split(s, ' ') == parts;
        assert parts[1..] == rest[1..];
      }
    }
  }

  /** The role badge's colour classes. */
  function RoleBadgeClass(role: string): (c: string)
    ensures role == "Administrator" ==> c == "bg-blue-100 text-blue-800"
    ensures role == "BackOffice" ==> c == "bg-purple-100 text-purple-800"
    ensures role != "Administrator" && role != "BackOffice" ==> c == "bg-green-100 text-green-800"
  {
    if role == "Administrator" then "bg-blue-100 text-blue-800"
    else if role == "BackOffice" then "bg-purple-100 text-purple-800"
    else "bg-green-100 text-green-800"
  }

  datatype Badge = Badge(variant: string, className: string, text: string)

  /** The status badge: "active" shows as Active; every other status shows as Inactive. */
  function StatusBadge(status: string): (b: Badge)
    ensures b.text == "Active" <==> status == "active"
    ensures b.text == "Inactive" <==> status != "active"
    ensures b.variant == (if status == "active" then "default" else "secondary")
  {
    if status == "active" then Badge("default", "bg-green-100 text-green-800", "Active")
    else Badge("secondary", "bg-gray-100 text-gray-800", "Inactive")
  }

  const InitialTechnicians: seq<Technician> := [
    Technician("tech1", "John Smith", "john.smith@example.com", "(555) 123-4567", "Technician",
               "johnsmith", Some("Electrical"), "active", Some(AvatarBase + "john")),
    Technician("tech2", "Maria Rodriguez", "maria.rodriguez@example.com", "(555) 987-6543", "Technician",
               "mariar", Some("Plumbing"), "active", Some(AvatarBase + "maria")),
    Technician("tech3", "David Chen", "david.chen@example.com", "(555) 456-7890", "Technician",
               "davidc", Some("AC Repair"), "inactive", Some(AvatarBase + "david")),
    Technician("admin1", "Sarah Johnson", "sarah.johnson@example.com", "(555) 789-0123", "Administrator",
               "sarahj", None, "active", Some(AvatarBase + "sarah")),
    Technician("back1", "Michael Brown", "michael.brown@example.com", "(555) 234-5678", "BackOffice",
               "michaelb", None, "active", Some(AvatarBase + "michael"))
  ]

  /**
   * The initial list meets the conditions of `DuplicateIdAfterDelete` for
   * "tech2": an add creates "tech6", deleting "tech2" and adding again creates
   * a second "tech6".
   */
  lemma InitialListAdmitsDuplicate()
    ensures |InitialTechnicians| == 5 && NewId(5) == "tech6"
    ensures InitialTechnicians[1].id == "tech2" != NewId(|InitialTechnicians|)
    ensures forall j :: 0 <= j < 5 && j != 1 ==> InitialTechnicians[j].id != "tech2"
  {
    assert Text.NatToString(6) == "6";
  }

  // ---------------------------------------------------------------------------
  // The management page
  // ---------------------------------------------------------------------------

  class TechnicianManagement {
    var technicians: seq<Technician>
    var isAddUserOpen: bool
    var isDeleteDialogOpen: bool
    var selected: Option<Technician>
    var searchQuery: string
    var roleFilter: string
    /** The values currently in the add/edit dialog's inputs. */
    var form: UserForm
    /**
     * The values a bare `form.reset()` restores: the form's default values at
     * first, replaced by the values of every `form.reset(values)`.
     */
    var resetValues: UserForm

    constructor ()
      ensures technicians == InitialTechnicians
      ensures !isAddUserOpen && !isDeleteDialogOpen && selected == None
      ensures searchQuery == "" && roleFilter == "all" && form == DefaultForm && resetValues == DefaultForm
    {
      technicians := InitialTechnicians;
      isAddUserOpen, isDeleteDialogOpen := false, false;
      selected := None;
      searchQuery, roleFilter := "", "all";
      form := DefaultForm;
      resetValues := DefaultForm;
    }

    /** The table rows. */
    function Filtered(): seq<Technician>
      reads this
    {
      Visible(technicians, searchQuery, roleFilter)
    }

    method SetSearchQuery(q: string)
      modifies this`searchQuery
      ensures searchQuery == q
    {
      searchQuery := q;
    }

    method SetRoleFilter(r: string)
      modifies this`roleFilter
      ensures roleFilter == r
    {
      roleFilter := r;
    }

    /** The user typing into the dialog's inputs. */
    method EnterForm(f: UserForm)
      modifies this`form
      ensures form == f
    {
      form := f;
    }

    /**
     * "Add New User": no selection, the form reset, dialog open. The reset
     * restores the last values the form was reset to, which are the defaults
     * only until a row has been opened for editing.
     */
    method OpenAddDialog()
      modifies this`selected, this`form, this`isAddUserOpen
      ensures selected == None && form == resetValues && isAddUserOpen
    {
      selected := None;
      form := resetValues;
      isAddUserOpen := true;
    }

    /** The edit button of a row: that user selected, the dialog filled from it with a blank password. */
    method HandleEditTechnician(t: Technician)
      modifies this`selected, this`form, this`resetValues, this`isAddUserOpen
      ensures selected == Some(t) && form == EditForm(t) && resetValues == EditForm(t) && isAddUserOpen
      ensures form.password == ""
    {
      selected := Some(t);
      form := EditForm(t);
      resetValues := EditForm(t);
      isAddUserOpen := true;
    }

    /** The delete button of a row: that user selected, the confirmation open. */
    method HandleDeleteTechnician(t: Technician)
      modifies this`selected, this`isDeleteDialogOpen
      ensures selected == Some(t) && isDeleteDialogOpen
    {
      selected := Some(t);
      isDeleteDialogOpen := true;
    }

    /**
     * The submit handler, reached with validated data: edits the selected
     * user's records, or adds a new one when nothing is selected; then closes
     * the dialog, resets the form and clears the selection.
     */
    method HandleAddUser(d: UserData)
      modifies this`technicians, this`isAddUserOpen, this`form, this`selected
      ensures technicians == if old(selected).Some? then EditTechnicians(old(technicians), old(selected).value.id, d)
                             else AddTechnician(old(technicians), d)
      ensures !isAddUserOpen && form == resetValues && selected == None
    {
      if selected.Some? {
        technicians := EditTechnicians(technicians, selected.value.id, d);
      } else {
        technicians := AddTechnician(technicians, d);
      }
      isAddUserOpen := false;
      form := resetValues;
      selected := None;
    }

    /** Submitting the dialog: the schema runs on the form; only valid values reach the handler. */
    method Submit(isEmail: string -> bool) returns (accepted: bool)
      modifies this`technicians, this`isAddUserOpen, this`form, this`selected
      ensures accepted <==> SchemaValid(old(form), isEmail)
      ensures accepted ==> technicians == (if old(selected).Some?
        then EditTechnicians(old(technicians), old(selected).value.id, ParseUser(old(form), isEmail).value)
        else AddTechnician(old(technicians), ParseUser(old(form), isEmail).value))
      ensures accepted ==> !isAddUserOpen && form == resetValues && selected == None
      ensures !accepted ==> technicians == old(technicians) && isAddUserOpen == old(isAddUserOpen)
                            && form == old(form) && selected == old(selected)
    {
      var parsed := ParseUser(form, isEmail);
      if parsed.None? {
        return false;
      }
      HandleAddUser(parsed.value);
      accepted := true;
    }

    /** The confirmation's delete button: removes the selected id's records, if anything is selected. */
    method ConfirmDelete()
      modifies this`technicians, this`isDeleteDialogOpen, this`selected
      ensures old(selected).Some? ==> technicians == DeleteTechnicians(old(technicians), old(selected).value.id)
                                      && !isDeleteDialogOpen && selected == None
      ensures old(selected).None? ==> technicians == old(technicians)
                                      && isDeleteDialogOpen == old(isDeleteDialogOpen) && selected == None
    {
      if selected.Some? {
        technicians := DeleteTechnicians(technicians, selected.value.id);
        isDeleteDialogOpen := false;
        selected := None;
      }
    }

    /** Cancel, or dismissing the add/edit dialog: it closes; the selection stays. */
    method CloseAddDialog()
      modifies this`isAddUserOpen
      ensures !isAddUserOpen
    {
      isAddUserOpen := false;
    }

    /** Cancel, or dismissing the delete confirmation: it closes; the selection stays. */
    method CloseDeleteDialog()
      modifies this`isDeleteDialogOpen
      ensures !isDeleteDialogOpen
    {
      isDeleteDialogOpen := false;
    }
  }

  /**
   * After a row has been opened for editing, "Add New User" shows that user's
   * values (with a blank password) rather than the empty defaults.
   */
  method AddAfterEditShowsEditedValues(t: Technician) returns (shown: UserForm)
    ensures shown == EditForm(t)
    ensures t.name != "" ==> shown != DefaultForm
  {
    var page := new TechnicianManagement();
    page.HandleEditTechnician(t);
    page.CloseAddDialog();
    page.OpenAddDialog();
    shown := page.form;
  }

  /** Opening a row for editing and submitting without typing a password changes nothing. */
  method EditWithoutPasswordIsRejected(t: Technician, isEmail: string -> bool) returns (accepted: bool, kept: bool)
    ensures !accepted && kept
  {
    var page := new TechnicianManagement();
    page.HandleEditTechnician(t);
    var before := page.technicians;
    accepted := page.Submit(isEmail);
    kept := page.technicians == before && page.isAddUserOpen;
  }
}

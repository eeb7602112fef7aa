# Maintenance-Pro dashboard: a Dafny model of its client-side logic

Maintenance-Pro is a browser dashboard for tracking maintenance jobs. It has
three roles: Technician, Administrator and BackOffice. All of its behaviour
is client-side, in the event handlers and filter expressions of its React
components. This project models that logic in Dafny and proves what the
components promise about it:

- The **job-documentation form** (`job_form.dfy`): the field validation
  schema, the signature pad's drawing flag and captured image, the
  before/after photo lists, the four tabs with their Back/Next buttons, and
  the record passed to the caller on submission. It is a class whose methods
  are the component's handlers.
- The three **administration registries**: users (`technician_management.dfy`),
  job items (`job_items_management.dfy`) and service categories
  (`service_category_management.dfy`).
  - Each is a list of records with a validation schema and numbered or
    slugged ids.
  - The record operations are add, edit by id and delete by id.
  - Each has a searchable, filtered table.
  - The list operations are functions on sequences. The pages are classes
    holding the list, the selection, the dialog flags and the dialog's form
    values.
- The **job lists**: the administrator table (`admin_job_list.dfy`) and the
  technician list (`job_list.dfy`).
  - Each filter is a case-insensitive search combined with equality filters
    that "all" switches off.
  - The lists of filter options are deduplicated.
  - Each list has its own status badges and labels.
- The **job detail dialog's** status and category badges
  (`job_detail_modal.dfy`).
- **Sign-in and roles**:
  - The login form's credential check and its error and loading flags
    (`login_page.dfy`).
  - The home screen's role toggle, its dashboard choice and its job-dialog
    state (`home.dfy`).
  - The application shell's login and logout handlers and its route guards
    (`app.dfy`).

Shared helpers:
- `wrappers.dfy`: `Option`.
- `text.dfy`: ASCII case mapping, substring search, decimal numbers,
  split/join, replacing the first occurrence, collapsing whitespace runs.
- `lists.dfy`: order-preserving filter and the sublist relation, in-place
  map, first-occurrence deduplication, removal by index.

Modelling conventions:
- Strings are `seq<char>`.
- `toLowerCase` maps ASCII letters only.
- The schema library's e-mail check is the parameter `isEmail`.
- The canvas snapshot (`toDataURL`) is an opaque `DataUrl` argument. Whether
  the canvas element is attached is the constant `hasCanvas`.
- An optional form field left `undefined` is `None`.

Behaviour of the code that a reader might not expect:
- **Signature:** every end event (mouse up, mouse leave, touch end) stores a
  canvas snapshot, whether a stroke was drawn or not. See
  `JobForm.LeavingWithoutStrokeSetsSignature`.
- **Default e-mail:** the default customer e-mail is `""`. That value is
  present, so the e-mail check runs on it, and an empty string fails it: the
  form does not submit with only its four required fields filled in. See
  `JobForm.DefaultEmailRejected`.
- **Materials:** "materials used" is a single free-text field, carried as a
  plain optional string.
- **Submitted record:** it holds the validated fields and the signature; the
  photos are not part of it.
- **Form reset in the registries:** `form.reset(values)` also makes `values`
  the form's defaults, so after a row has been opened for editing, a bare
  `form.reset()` (on "Add New User", "Add New Item", "Add New Category" and after a
  submission) restores that row's values, not the empty ones. Each registry
  class keeps these values as `resetValues`. See
  `TechnicianManagement.AddAfterEditShowsEditedValues`.
- **Route matching:** paths are compared ignoring ASCII case and trailing
  slashes, so "/LOGIN/" shows the login page. See `App.RouteKey`.

## Model

Source paths are relative to the repository root.

| member | source | states |
|---|---|---|
| JobForm.Errors | src/components/jobs/JobForm.tsx:28-42 | A field is in error exactly when its rule fails: title under 2 characters, location under 2, category empty, description under 10, or an e-mail that is present but fails the e-mail check. Errors come in schema order. |
| JobForm.ValidIff | src/components/jobs/JobForm.tsx:28-42 | The form validates if and only if all five field rules hold. |
| JobForm.UnconstrainedFields | src/components/jobs/JobForm.tsx:37-41 | Materials, notes, customer name and customer phone never change validity. |
| JobForm.DefaultEmailRejected | src/components/jobs/JobForm.tsx:40-60 | The default `""` e-mail is present and fails the check, so the untouched form is rejected. |
| JobForm.ShortDescriptionRejected | src/components/jobs/JobForm.tsx:34-36 | Every nine-character description is in error, whatever else is entered. |
| JobForm.TabIndex | src/components/jobs/JobForm.tsx:198-204 | Each tab has one of the four positions in the tab bar. |
| JobForm.BackNextAdjacent | src/components/jobs/JobForm.tsx:388-535 | Back exists on every tab except details and moves one position left. Next exists only on the two photo tabs and moves one position right. Back undoes Next. |
| JobForm.JobFormState.constructor | src/components/jobs/JobForm.tsx:65-72 | The form starts with no photos, on the details tab, with no signature, not drawing, and an empty path. |
| JobForm.JobFormState.StartDrawing | src/components/jobs/JobForm.tsx:90-116 | Drawing starts in every case. With a canvas, a new path begins at the pointer. |
| JobForm.JobFormState.Draw | src/components/jobs/JobForm.tsx:118-145 | A move extends the path only while drawing, on a canvas. Otherwise nothing changes. |
| JobForm.JobFormState.EndDrawing | src/components/jobs/JobForm.tsx:147-153 | Drawing stops. With a canvas, the signature becomes the snapshot, whether or not anything was drawn. |
| JobForm.JobFormState.ClearSignature | src/components/jobs/JobForm.tsx:155-164 | With a canvas the signature is cleared. The drawing flag is untouched. |
| JobForm.JobFormState.HandlePhotoUpload | src/components/jobs/JobForm.tsx:166-178 | The chosen files are appended in order to one slot. The other slot is untouched. An empty choice changes nothing. |
| JobForm.JobFormState.RemovePhoto | src/components/jobs/JobForm.tsx:180-186 | Exactly element `index` is removed from one slot, and the rest keep their order. An out-of-range index changes nothing. The other slot is untouched. |
| JobForm.JobFormState.SelectTab | src/components/jobs/JobForm.tsx:198 | The tab bar can jump to any tab. |
| JobForm.JobFormState.PressBack | src/components/jobs/JobForm.tsx:388-535 | The active tab moves to its Back target. A tab without a Back button stays. |
| JobForm.JobFormState.PressNext | src/components/jobs/JobForm.tsx:388-535 | The active tab moves to its Next target. A tab without a Next button stays. |
| JobForm.JobFormState.Submit | src/components/jobs/JobForm.tsx:79-87 | A submission is produced if and only if the data validates. It is the data plus the current signature. |
| JobForm.LeavingWithoutStrokeSetsSignature | src/components/jobs/JobForm.tsx:516-522 | A mouse-leave with no stroke drawn still records a signature. |
| JobForm.MoveNeedsStart | src/components/jobs/JobForm.tsx:95-123 | A move before any start leaves the path empty. After a start, a move extends it. |
| JobForm.ClearAfterStroke | src/components/jobs/JobForm.tsx:155-164 | After strokes and an end event, clearing leaves no signature. |
| TechnicianManagement.ParseUser | src/components/admin/TechnicianManagement.tsx:44-55 | The parse yields the data exactly when all six rules hold: name ≥2, valid e-mail, phone ≥10, role ≥1, username ≥2, password ≥6. The fields are copied and an undefined status becomes "active". |
| TechnicianManagement.EditForm | src/components/admin/TechnicianManagement.tsx:188-199 | The edit dialog is filled from the user, with a blank password and a missing specialization shown as `""`. |
| TechnicianManagement.BlankPasswordRejected | src/components/admin/TechnicianManagement.tsx:190-199 | An edit submitted without typing a password is always rejected by the six-character rule. |
| TechnicianManagement.NewId | src/components/admin/TechnicianManagement.tsx:169 | The new id is "tech" followed by the decimal digits of the old length plus one, with no leading zero. |
| TechnicianManagement.NewIdDetermined | src/components/admin/TechnicianManagement.tsx:169 | Any id meeting that description is exactly `NewId(n)`: zero-padded forms such as "tech06" are excluded. |
| TechnicianManagement.AddTechnician | src/components/admin/TechnicianManagement.tsx:167-180 | Exactly one record is appended, with the numbered id, the dialog's fields and an avatar seeded by the username. The old entries are unchanged. |
| TechnicianManagement.EditTechnicians | src/components/admin/TechnicianManagement.tsx:148-165 | Only records with the selected id take the fields, and they keep their id and avatar. Every other record, the length and the order are unchanged. |
| TechnicianManagement.DeleteTechnicians | src/components/admin/TechnicianManagement.tsx:208-212 | Exactly the records with the id are removed. The rest are an order-preserving sublist. |
| TechnicianManagement.DeleteAbsentId | src/components/admin/TechnicianManagement.tsx:210-212 | Deleting an id nobody has leaves the list unchanged. |
| TechnicianManagement.DuplicateIdAfterDelete | src/components/admin/TechnicianManagement.tsx:167-212 | Adding, deleting a user whose id is held once, then adding again gives two records with the same id. |
| TechnicianManagement.InitialListAdmitsDuplicate | src/components/admin/TechnicianManagement.tsx:70-124 | The seeded list meets that lemma's conditions for "tech2", with "tech6" as the repeated id. |
| TechnicianManagement.Visible | src/components/admin/TechnicianManagement.tsx:219-228 | A user is listed if and only if the query occurs, ignoring case, in the name, e-mail or username and the role filter is "all" or equal. The rows keep list order. |
| TechnicianManagement.VisibleUnfiltered | src/components/admin/TechnicianManagement.tsx:219-228 | An empty query with "all" roles lists everyone. |
| TechnicianManagement.Initials | src/components/admin/TechnicianManagement.tsx:303-306 | The split/first-character/join initials are exactly the name's word-start characters (non-space characters at the start or after a space), in order; none is a space and each occurs in the name. |
| TechnicianManagement.RoleBadgeClass | src/components/admin/TechnicianManagement.tsx:320-326 | Administrator is blue, BackOffice is purple, and every other role is green. |
| TechnicianManagement.StatusBadge | src/components/admin/TechnicianManagement.tsx:341-353 | "active" reads Active with the default variant. Every other status reads Inactive with the secondary variant. |
| TechnicianManagement.TechnicianManagement.constructor | src/components/admin/TechnicianManagement.tsx:70-145 | The page starts with the seeded list, both dialogs closed, no selection, an empty query, "all" roles and the default form. |
| TechnicianManagement.TechnicianManagement.SetSearchQuery | src/components/admin/TechnicianManagement.tsx:258 | The query becomes the typed text. |
| TechnicianManagement.TechnicianManagement.SetRoleFilter | src/components/admin/TechnicianManagement.tsx:262 | The role filter becomes the chosen value. |
| TechnicianManagement.TechnicianManagement.EnterForm | src/components/admin/TechnicianManagement.tsx:409 | The dialog's form holds the typed values. |
| TechnicianManagement.TechnicianManagement.OpenAddDialog | src/components/admin/TechnicianManagement.tsx:239-244 | "Add New User" clears the selection, resets the form to the values last given to a reset (the defaults, or the last user opened for editing) and opens the dialog. |
| TechnicianManagement.TechnicianManagement.HandleEditTechnician | src/components/admin/TechnicianManagement.tsx:188-201 | The user is selected, the form is filled from them with a blank password and those values become what later resets restore, and the dialog opens. |
| TechnicianManagement.TechnicianManagement.HandleDeleteTechnician | src/components/admin/TechnicianManagement.tsx:203-206 | The user is selected and the confirmation opens. |
| TechnicianManagement.TechnicianManagement.HandleAddUser | src/components/admin/TechnicianManagement.tsx:147-186 | With a selection the selected id is edited; otherwise a user is added. Then the dialog closes, the form returns to the values last given to a reset, and the selection clears. |
| TechnicianManagement.TechnicianManagement.Submit | src/components/admin/TechnicianManagement.tsx:409 | The submission is accepted if and only if the form passes the schema. Accepted, it does what the handler does with the parsed data, including the reset to the last reset values. Rejected, nothing changes. |
| TechnicianManagement.TechnicianManagement.ConfirmDelete | src/components/admin/TechnicianManagement.tsx:208-216 | With a selection, that id's records are removed and the confirmation closes. Without one, nothing changes. |
| TechnicianManagement.TechnicianManagement.CloseAddDialog | src/components/admin/TechnicianManagement.tsx:599 | Cancel closes the add/edit dialog. |
| TechnicianManagement.TechnicianManagement.CloseDeleteDialog | src/components/admin/TechnicianManagement.tsx:625 | Cancel closes the confirmation. |
| TechnicianManagement.EditWithoutPasswordIsRejected | src/components/admin/TechnicianManagement.tsx:190-196 | Opening a row for editing and submitting at once is rejected. The list is unchanged and the dialog stays open. |
| TechnicianManagement.AddAfterEditShowsEditedValues | src/components/admin/TechnicianManagement.tsx:188-244 | After a user has been opened for editing, "Add New User" shows that user's values with a blank password, not the empty defaults. |
| JobItemsManagement.ParseItem | src/components/admin/JobItemsManagement.tsx:44-50 | The values pass the schema exactly when name ≥2, category ≥1, unit ≥1 and stock ≥0. They pass unchanged. |
| JobItemsManagement.DescriptionUnconstrained | src/components/admin/JobItemsManagement.tsx:46 | The description never changes validity. |
| JobItemsManagement.EditForm | src/components/admin/JobItemsManagement.tsx:192-200 | The edit dialog is filled from the item, with a missing description shown as `""`. |
| JobItemsManagement.EditFormOfValidItem | src/components/admin/JobItemsManagement.tsx:194-200 | A valid item reopened for editing passes the schema again unchanged. |
| JobItemsManagement.NewId | src/components/admin/JobItemsManagement.tsx:175 | The new id is "item" followed by the decimal digits of the old length plus one, with no leading zero; by `Text.CanonicalDigitsUnique` no other string meets that. |
| JobItemsManagement.AddItem | src/components/admin/JobItemsManagement.tsx:173-184 | Exactly one item is appended, with the numbered id, the dialog's values and usage count 0. |
| JobItemsManagement.EditItems | src/components/admin/JobItemsManagement.tsx:156-171 | Only items with the id change their five fields, and they keep their id and usage count. Everything else stays in place. |
| JobItemsManagement.DeleteItems | src/components/admin/JobItemsManagement.tsx:209-211 | Exactly the items with the id are removed, and the rest keep their order. |
| JobItemsManagement.DeleteAbsentId | src/components/admin/JobItemsManagement.tsx:211 | Deleting an absent id leaves the list unchanged. |
| JobItemsManagement.Categories | src/components/admin/JobItemsManagement.tsx:218 | Every category present appears exactly once, and nothing else appears. |
| JobItemsManagement.CategoriesInFirstOccurrenceOrder | src/components/admin/JobItemsManagement.tsx:218 | The options are ordered by where their categories first appear. |
| JobItemsManagement.Visible | src/components/admin/JobItemsManagement.tsx:221-231 | An item is listed if and only if the query occurs, ignoring case, in its name or in a present description, and the category filter is "all" or equal. The rows keep list order. |
| JobItemsManagement.VisibleUnfiltered | src/components/admin/JobItemsManagement.tsx:221-231 | An empty query with "all" lists every item. |
| JobItemsManagement.MissingDescriptionNeverMatches | src/components/admin/JobItemsManagement.tsx:224-225 | An item without a description is found only through its name. |
| JobItemsManagement.StockBadgeVariant | src/components/admin/JobItemsManagement.tsx:313 | The variant is "default" exactly when stock is above 10, and "destructive" otherwise. |
| JobItemsManagement.JobItemsManagement.constructor | src/components/admin/JobItemsManagement.tsx:63-153 | The page starts with the seeded items, closed dialogs, no selection, an empty query, "all" categories and the default form. |
| JobItemsManagement.JobItemsManagement.SetSearchQuery | src/components/admin/JobItemsManagement.tsx:261 | The query becomes the typed text. |
| JobItemsManagement.JobItemsManagement.SetCategoryFilter | src/components/admin/JobItemsManagement.tsx:265 | The category filter becomes the chosen value. |
| JobItemsManagement.JobItemsManagement.EnterForm | src/components/admin/JobItemsManagement.tsx:377 | The dialog's form holds the typed values. |
| JobItemsManagement.JobItemsManagement.OpenAddDialog | src/components/admin/JobItemsManagement.tsx:243-247 | No selection, the form reset to the values last given to a reset (the defaults, or the last item opened for editing), and the dialog open. |
| JobItemsManagement.JobItemsManagement.HandleEditItem | src/components/admin/JobItemsManagement.tsx:192-202 | The item is selected, the form is filled from it and those values become what later resets restore, and the dialog opens. |
| JobItemsManagement.JobItemsManagement.HandleDeleteItem | src/components/admin/JobItemsManagement.tsx:204-207 | The item is selected and the confirmation opens. |
| JobItemsManagement.JobItemsManagement.HandleAddItem | src/components/admin/JobItemsManagement.tsx:155-190 | With a selection its id is edited; otherwise an item is added. Then the dialog closes, the form returns to the values last given to a reset, and the selection clears. |
| JobItemsManagement.JobItemsManagement.Submit | src/components/admin/JobItemsManagement.tsx:377 | The submission is accepted if and only if the form passes the schema. Accepted, it does what the handler does, including the reset to the last reset values. Rejected, nothing changes. |
| JobItemsManagement.JobItemsManagement.ConfirmDelete | src/components/admin/JobItemsManagement.tsx:209-215 | With a selection, that id's items are removed and the confirmation closes. Without one, nothing changes. |
| JobItemsManagement.JobItemsManagement.CloseAddDialog | src/components/admin/JobItemsManagement.tsx:496 | Cancel closes the add/edit dialog. |
| JobItemsManagement.JobItemsManagement.CloseDeleteDialog | src/components/admin/JobItemsManagement.tsx:522 | Cancel closes the confirmation. |
| JobItemsManagement.AddItemAfterEditShowsEditedValues | src/components/admin/JobItemsManagement.tsx:192-247 | After an item has been opened for editing, "Add New Item" shows that item's values, not the empty defaults. |
| ServiceCategoryManagement.ParseCategory | src/components/admin/ServiceCategoryManagement.tsx:37-42 | The values pass exactly when name ≥2 and description ≥5. They pass unchanged. |
| ServiceCategoryManagement.IconAndColorUnconstrained | src/components/admin/ServiceCategoryManagement.tsx:40-41 | Icon and colour never change validity. |
| ServiceCategoryManagement.EditForm | src/components/admin/ServiceCategoryManagement.tsx:148-155 | The edit dialog is filled from the category, with a missing icon or colour shown as `""`. |
| ServiceCategoryManagement.Slug | src/components/admin/ServiceCategoryManagement.tsx:132 | The slug has no whitespace and no upper-case letters, and is no longer than the name. |
| ServiceCategoryManagement.SlugJoinsWords | src/components/admin/ServiceCategoryManagement.tsx:132 | Each maximal whitespace run of the name becomes exactly one "-", between the slugs of the parts on either side. |
| ServiceCategoryManagement.SlugKeepsOthers | src/components/admin/ServiceCategoryManagement.tsx:132 | Dropping the dashes from the slug leaves the lower-cased name without its whitespace and dashes: every other character is kept, in order. |
| ServiceCategoryManagement.SlugIdempotent | src/components/admin/ServiceCategoryManagement.tsx:132 | Slugging a slug changes nothing. |
| ServiceCategoryManagement.SlugOfSlugForm | src/components/admin/ServiceCategoryManagement.tsx:132 | A lower-case name without whitespace is its own id. |
| ServiceCategoryManagement.AddCategory | src/components/admin/ServiceCategoryManagement.tsx:130-140 | Exactly one category is appended, with the slug id, the dialog's values and job count 0. |
| ServiceCategoryManagement.EditCategories | src/components/admin/ServiceCategoryManagement.tsx:114-128 | Only categories with the id change name, description, icon and colour, and they keep their id and job count. Everything else stays in place. |
| ServiceCategoryManagement.DeleteCategories | src/components/admin/ServiceCategoryManagement.tsx:164-166 | Exactly the categories with the id are removed, and the rest keep their order. |
| ServiceCategoryManagement.CollidingSlugDeletesBusyCategory | src/components/admin/ServiceCategoryManagement.tsx:131-166 | Adding a name whose slug is an existing id creates a deletable empty twin. Deleting the twin also removes the original, jobs and all. |
| ServiceCategoryManagement.Visible | src/components/admin/ServiceCategoryManagement.tsx:173-177 | A category is listed if and only if the query occurs, ignoring case, in its name or description. The rows keep list order. |
| ServiceCategoryManagement.VisibleUnfiltered | src/components/admin/ServiceCategoryManagement.tsx:173-177 | An empty query lists every category. |
| ServiceCategoryManagement.ServiceCategoryManagement.constructor | src/components/admin/ServiceCategoryManagement.tsx:54-111 | The page starts with the seeded categories, closed dialogs, no selection, an empty query and the default form. |
| ServiceCategoryManagement.ServiceCategoryManagement.SetSearchQuery | src/components/admin/ServiceCategoryManagement.tsx:206 | The query becomes the typed text. |
| ServiceCategoryManagement.ServiceCategoryManagement.EnterForm | src/components/admin/ServiceCategoryManagement.tsx:289 | The dialog's form holds the typed values. |
| ServiceCategoryManagement.ServiceCategoryManagement.OpenAddDialog | src/components/admin/ServiceCategoryManagement.tsx:189-193 | No selection, the form reset to the values last given to a reset (the defaults, or the last category opened for editing), and the dialog open. |
| ServiceCategoryManagement.ServiceCategoryManagement.HandleEditCategory | src/components/admin/ServiceCategoryManagement.tsx:148-157 | The category is selected, the form is filled from it and those values become what later resets restore, and the dialog opens. |
| ServiceCategoryManagement.ServiceCategoryManagement.HandleDeleteCategory | src/components/admin/ServiceCategoryManagement.tsx:159-162 | It is reachable only for a category without jobs (the button at line 249 is disabled otherwise). The category is selected and the confirmation opens. |
| ServiceCategoryManagement.ServiceCategoryManagement.HandleAddCategory | src/components/admin/ServiceCategoryManagement.tsx:113-146 | With a selection its id is edited; otherwise a category is added. Then the dialog closes, the form returns to the values last given to a reset, and the selection clears. |
| ServiceCategoryManagement.ServiceCategoryManagement.Submit | src/components/admin/ServiceCategoryManagement.tsx:289 | The submission is accepted if and only if the form passes the schema. Accepted, it does what the handler does, including the reset to the last reset values. Rejected, nothing changes. |
| ServiceCategoryManagement.ServiceCategoryManagement.ConfirmDelete | src/components/admin/ServiceCategoryManagement.tsx:164-170 | It is reachable only while the selection has no jobs (line 402). With a selection, that id's categories are removed and the confirmation closes. Without one, nothing changes. |
| ServiceCategoryManagement.ServiceCategoryManagement.CloseAddDialog | src/components/admin/ServiceCategoryManagement.tsx:363 | Cancel closes the add/edit dialog. |
| ServiceCategoryManagement.ServiceCategoryManagement.CloseDeleteDialog | src/components/admin/ServiceCategoryManagement.tsx:395 | Cancel closes the confirmation. |
| ServiceCategoryManagement.AddCategoryAfterEditShowsEditedValues | src/components/admin/ServiceCategoryManagement.tsx:148-193 | After a category has been opened for editing, "Add New Category" shows that category's values, not the empty defaults. |
| AdminJobList.FilteredJobs | src/components/dashboard/AdminJobList.tsx:109-130 | A job is shown if and only if the query occurs, ignoring case, in its title, id or location, and each of status, category and technician is "all" or equal. The rows are an order-preserving sublist. |
| AdminJobList.FilteredJobsUnfiltered | src/components/dashboard/AdminJobList.tsx:109-130 | An empty query with every filter on "all" shows the input unchanged. |
| AdminJobList.NarrowingStatusNeverAdds | src/components/dashboard/AdminJobList.tsx:117 | Moving the status filter from "all" to a value gives a sublist of the earlier rows. |
| AdminJobList.NarrowingCategoryNeverAdds | src/components/dashboard/AdminJobList.tsx:120-121 | Moving the category filter from "all" to a value gives a sublist of the earlier rows. |
| AdminJobList.NarrowingTechnicianNeverAdds | src/components/dashboard/AdminJobList.tsx:124-125 | Moving the technician filter from "all" to a value gives a sublist of the earlier rows. |
| AdminJobList.Technicians | src/components/dashboard/AdminJobList.tsx:133 | Each technician of the jobs appears exactly once, and nothing else appears. |
| AdminJobList.Categories | src/components/dashboard/AdminJobList.tsx:136 | Each category of the jobs appears exactly once, and nothing else appears. |
| AdminJobList.OptionsInFirstOccurrenceOrder | src/components/dashboard/AdminJobList.tsx:133-136 | Both option lists are ordered by where their values first appear. |
| AdminJobList.StatusBadgeVariant | src/components/dashboard/AdminJobList.tsx:138-149 | completed maps to default, in-progress to secondary, pending to outline, and anything else to default. |
| AdminJobList.StatusLabel | src/components/dashboard/AdminJobList.tsx:253 | The label has the status's length. A status without a dash is shown unchanged. In a status with a dash, the first dash becomes a space and every other character stays where it is. |
| AdminJobList.StatusLabelKeepsLaterDashes | src/components/dashboard/AdminJobList.tsx:253 | Only the first dash becomes a space, and later dashes survive. |
| JobList.FilteredJobs | src/components/dashboard/JobList.tsx:45-56 | A job is shown if and only if the term occurs, ignoring case, in its title, location or client, and the status filter is "all" or equal. The rows are an order-preserving sublist. |
| JobList.FilteredJobsUnfiltered | src/components/dashboard/JobList.tsx:45-56 | An empty term with "all" shows every job. |
| JobList.NarrowingStatusNeverAdds | src/components/dashboard/JobList.tsx:53 | Choosing a status gives a sublist of the "all" rows. |
| JobList.StatusColor | src/components/dashboard/JobList.tsx:58-69 | Pending is yellow, in-progress is blue, completed is green, and anything else is gray. |
| JobList.CardColor | src/components/dashboard/JobList.tsx:179-194 | The card has classes exactly for the three known statuses, and none (`undefined`) for any other. "pending" gets "bg-yellow-100 text-yellow-800", "in-progress" gets "bg-blue-100 text-blue-800" and "completed" gets "bg-green-100 text-green-800". |
| JobList.CardColorIsStatusColorPrefix | src/components/dashboard/JobList.tsx:179-183 | For a known status, the card's classes are non-empty, and the status colour is those classes followed by the hover class of the same hue (" hover:bg-yellow-200", " hover:bg-blue-200" or " hover:bg-green-200"). |
| JobList.CardLabel | src/components/dashboard/JobList.tsx:195-197 | "In Progress" for in-progress. Otherwise the status with its first letter upper-cased and the rest unchanged. |
| JobList.CardLabelsOfKnownStatuses | src/components/dashboard/JobList.tsx:195-197 | pending reads "Pending" and completed reads "Completed". |
| JobDetailModal.StatusBadge | src/components/jobs/JobDetailModal.tsx:101-123 | Each of the five statuses has its variant, classes and text. Anything else is an outline "Unknown". |
| JobDetailModal.StatusTextsDistinct | src/components/jobs/JobDetailModal.tsx:101-123 | The text is "Unknown" exactly for unknown statuses, and distinct known statuses have distinct texts. |
| JobDetailModal.LookupOr | src/components/jobs/JobDetailModal.tsx:145-147 | `record[key] \|\| fallback` gives the mapped value when present and non-empty, and the fallback otherwise. |
| JobDetailModal.CategoryBadge | src/components/jobs/JobDetailModal.tsx:125-150 | The badge is always secondary. The colour and text come from the two records, and an unknown key gives a gray "Unknown". |
| JobDetailModal.CategoryRecordsShareKeys | src/components/jobs/JobDetailModal.tsx:126-140 | Both records have the same five keys and no key maps to a fallback value, so colour and text fall back together. |
| JobDetailModal.FormCategoriesInDialog | src/components/jobs/JobDetailModal.tsx:129-137 | Of the job form's five category values (JobForm.tsx line 260), exactly "ac_repair" shows as a gray "Unknown". |
| LoginPage.RoleFor | src/components/auth/LoginPage.tsx:54-65 | Exactly the three demo pairs grant a role: admin/admin123 gives Administrator, tech/tech123 gives Technician, backoffice/office123 gives BackOffice. |
| LoginPage.SchemaMessages | src/components/auth/LoginPage.tsx:20-25 | "Username is required" is shown exactly when the username has fewer than two characters, the password message exactly when the password has fewer than six, and no message exactly when the values pass the schema. |
| LoginPage.DemoPairsPassSchema | src/components/auth/LoginPage.tsx:20-25 | Every demo pair passes the schema, so each role can be reached. |
| LoginPage.LoginPage.constructor | src/components/auth/LoginPage.tsx:32-33 | The page starts with no error and not loading. |
| LoginPage.LoginPage.HandleSubmit | src/components/auth/LoginPage.tsx:44-72 | `onLogin` is called once, with the pair's role, exactly when the pair is known. An unknown pair sets the invalid-credentials error; a failing callback sets the generic error; otherwise no error. Loading ends false. |
| LoginPage.LoginPage.Submit | src/components/auth/LoginPage.tsx:92 | Values failing the schema never reach the handler and change nothing. Values passing it get the handler's outcome. |
| LoginPage.AdminLogsIn | src/components/auth/LoginPage.tsx:54-56 | The administrator pair logs in as Administrator with no error. |
| LoginPage.WrongPasswordRejected | src/components/auth/LoginPage.tsx:63-65 | A wrong password sets the invalid-credentials error and logs nobody in. |
| Home.Toggle | src/components/home.tsx:26-32 | Technician goes to Administrator, Administrator to BackOffice, and anything else to Technician. The result is always one of the three roles. |
| Home.ToggleCycle | src/components/home.tsx:26-32 | Three toggles give back any of the three roles, and one or two do not. Any other value goes straight to Technician. |
| Home.ToggleLabel | src/components/home.tsx:76 | The button names Administrator exactly in the technician view, and Technician otherwise. |
| Home.ToggleLabelMismatch | src/components/home.tsx:76 | The button names the next role in every view except the administrator's, where it says Technician but toggles to BackOffice (line 29). |
| Home.DashboardFor | src/components/home.tsx:80-86 | Technician gets the technician dashboard, Administrator the admin dashboard, and any other role the back-office one. |
| Home.ToggleVisitsEveryDashboard | src/components/home.tsx:80-86 | Three successive roles of the toggle show all three dashboards. |
| Home.Home.constructor | src/components/home.tsx:14-23 | The screen starts with the given role, no selected job and the dialog closed. |
| Home.Home.ToggleUserRole | src/components/home.tsx:26-32 | The role becomes its toggle. |
| Home.Home.HandleViewJob | src/components/home.tsx:39-42 | The job is selected and the dialog opens. It renders exactly when the id is non-empty (line 90). |
| Home.Home.HandleCloseJobModal | src/components/home.tsx:44-47 | The dialog closes, the selection is cleared, and nothing renders. |
| Home.Home.HandleApproveJob | src/components/home.tsx:49-52 | The dialog closes and nothing renders. |
| Home.Home.HandleRequestChanges | src/components/home.tsx:54-57 | The dialog closes and nothing renders. |
| Home.ApproveKeepsSelection | src/components/home.tsx:49-52 | After view and approve, the job stays selected while the dialog is gone. |
| App.TrimTrailingSlashes | src/App.tsx:29-51 | The result is a prefix of the input, does not end in "/", and everything cut off is "/". |
| App.RouteKey | src/App.tsx:29-51 | The key compared with the route patterns is non-empty, lower-case, and "/" or free of a trailing slash. |
| App.RouteKeyIgnoresCase | src/App.tsx:29-51 | A path and its lower-cased form have the same key. |
| App.RouteKeyIgnoresTrailingSlash | src/App.tsx:29-51 | A path with one more trailing slash has the same key. |
| App.KeyOfPattern | src/App.tsx:30-43 | A lower-case pattern without a trailing slash, such as "/login" or "/admin/settings", is its own key. |
| App.RouteIgnoresCaseAndTrailingSlash | src/App.tsx:29-51 | Lower-casing the path or adding a trailing slash does not change where it is routed. |
| App.Route | src/App.tsx:29-51 | Paths are matched on their key. A key of "/login" always renders the login page. "/" renders home exactly when signed in, and redirects to "/login" otherwise. "/admin/settings" renders exactly for a signed-in Administrator, and redirects to "/" otherwise. Every other key redirects to "/". |
| App.EveryPathSettles | src/App.tsx:29-51 | Every path settles within two redirects. Signed out it always ends on the login page; signed in it ends on login, settings or home as the path and role allow. |
| App.RedirectTargetsAvoidSettings | src/App.tsx:30-40 | Following "/" or "/login" never reaches the settings page. |
| App.SettingsOnlyForAdministrators | src/App.tsx:41-50 | Only a signed-in Administrator asking for "/admin/settings" ever reaches the settings page. |
| App.App.constructor | src/App.tsx:9-13 | The shell starts signed out, with an empty name and role Technician. |
| App.App.HandleLogin | src/App.tsx:15-19 | Signed in, with the given name and role. |
| App.App.HandleLogout | src/App.tsx:21-24 | Signed out with an empty name. The role is kept. |
| App.AdministratorSession | src/App.tsx:15-50 | The administrator pair from the login form opens the settings page. After sign-out, the kept Administrator role opens nothing but the login page. |
| Text.ToLower | src/components/admin/TechnicianManagement.tsx:221 | Each character is lowered, with no upper-case letter left. |
| Text.Split | src/components/admin/TechnicianManagement.tsx:304 | There is at least one part, and no part contains the separator. |
| Text.NatToString | src/components/admin/TechnicianManagement.tsx:169 | `${n}`: a non-empty string of decimal digits with no leading zero unless `n` is 0. |
| Text.NatToStringRoundTrip | src/components/admin/TechnicianManagement.tsx:169 | Reading the digits back gives `n`. |
| Text.CanonicalDigitsRendering | src/components/admin/TechnicianManagement.tsx:169 | A digit string without a leading zero is the rendering of its own value. |
| Text.CanonicalDigitsUnique | src/components/admin/TechnicianManagement.tsx:169 | Two digit strings without leading zeros and with the same value are equal. |
| Text.ReplaceFirst | src/components/dashboard/AdminJobList.tsx:253 | Only the character at the first occurrence is replaced. |
| Text.Capitalize | src/components/dashboard/JobList.tsx:197 | The first character is upper-cased and the rest are kept. |
| Text.ReplaceSpaceRuns | src/components/admin/ServiceCategoryManagement.tsx:132 | The result has no whitespace and is no longer than the input, and lower-case input stays lower-case. |
| Text.ReplaceSpaceRunsConcat | src/components/admin/ServiceCategoryManagement.tsx:132 | Replacement works piece by piece; the second piece continues a run exactly when the first ends in whitespace. |
| Text.ReplaceSpaceRunsOfRun | src/components/admin/ServiceCategoryManagement.tsx:132 | A whitespace run on its own becomes exactly one replacement character. |
| Text.ReplaceSpaceRunsJoinsWords | src/components/admin/ServiceCategoryManagement.tsx:132 | A maximal whitespace run between two pieces becomes exactly one replacement character, and the pieces are replaced on their own. |
| Text.ReplaceSpaceRunsKeepsOthers | src/components/admin/ServiceCategoryManagement.tsx:132 | Only whitespace is replaced: without the replacement character, the result is the input without whitespace. |
| Lists.RemoveAt | src/components/jobs/JobForm.tsx:182 | The element at an in-range index is removed. Otherwise the list is unchanged. |
| Lists.DistinctValues | src/components/admin/JobItemsManagement.tsx:218 | The values have no duplicates and are exactly those that occur. |

## Left out

Browser, graphics and libraries:
- Canvas drawing: `getContext`, `beginPath`, `lineTo`, `stroke`, `clearRect` and the raster content of `toDataURL`. These are browser graphics. The snapshot is an opaque argument; the path is kept only as the list of points handed to the canvas.
- `URL.createObjectURL` photo previews. They are browser resources created during rendering.
- Schema library internals, including its e-mail regular expression. The e-mail check is a parameter.
- JobItemsManagement.ParseItem: models stock as an integer. The schema coerces the input to a floating-point number.
- Text.ToLower: maps only ASCII letters. `toLowerCase` follows Unicode.
- Text.Capitalize: upper-cases only ASCII letters, where `toUpperCase` follows Unicode.
- App.RouteKey: folds only ASCII case and trailing slashes; percent-encoded characters in a path are not decoded.
- LoginPage.SchemaMessages: counts lengths in Unicode scalar values, where the schema's `.min(n)` counts UTF-16 code units; a character outside the Basic Multilingual Plane counts once here and twice there. The same holds for LoginPage.SchemaValid, JobForm.Errors, TechnicianManagement.SchemaValid, TechnicianManagement.ParseUser, JobItemsManagement.SchemaValid, JobItemsManagement.ParseItem, ServiceCategoryManagement.SchemaValid and ServiceCategoryManagement.ParseCategory.
- TechnicianManagement.Initials: takes the first Unicode scalar value of each part, where `n[0]` takes the first UTF-16 code unit, which is half a character outside the Basic Multilingual Plane.
- Text.IsSpace: covers only the six ASCII whitespace characters, where the slug's `\s` also matches Unicode spaces.
- Slugs of concrete names, such as the seeded "AC Repair" giving "ac-repair". The general slug lemmas are kept.

Time, I/O and side effects:
- Dates and clocks: the job list's today/upcoming tabs, the detail dialog's `formatDate`, and the `new Date()` timestamps on the home screen.
- The offline-save alert and the network-status listener. Both are browser I/O with no state behind them.
- `console.log` calls, router navigation after login, and the development route table from tempo.

Structure and rendering:
- LoginPage.LoginPage.HandleSubmit: does not expose the moment when loading is true and the error is cleared. The handler awaits nothing, so no other event can observe that state before loading becomes false again.
- Record lookups: a key such as `constructor` is found on the prototype of a JavaScript object. The badge records are modelled as maps holding only their five keys.
- Dialog open/close animation and focus handling, beyond the open flags.
- Markup, class strings and UI components, beyond the mappings above.
- The dashboards, header, metrics summary, category tabs and settings page. They hold hard-coded data and setters with no logic to state. The home screen's logout handler only logs, and the shell's logout handler is not passed to any component, so `App.App.HandleLogout` models code that nothing calls. Likewise the home screen passes its view handler to none of the dashboards it renders (each dashboard keeps its own), so its job dialog is never opened and `Home.Home.HandleViewJob`, `Home.Home.HandleCloseJobModal`, `Home.Home.HandleApproveJob` and `Home.Home.HandleRequestChanges` model code that no event reaches.
- The job list's `getStatusColor` is declared but not used by any element; it is modelled as `JobList.StatusColor` and related to the card colours it matches.

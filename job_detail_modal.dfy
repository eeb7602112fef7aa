/**
 * The badges of the job detail dialog: the status badge chosen by a switch
 * over five statuses, and the category badge whose colour and text are record
 * lookups with a fallback.
 */
module JobDetailModal {
  import opened Wrappers
  import JobForm

  /** A badge: its variant, any extra classes, and its text. */
  datatype Badge = Badge(variant: string, className: Option<string>, text: string)

  const KnownStatuses: set<string> := {"pending", "in-progress", "completed", "approved", "changes-requested"}

  /** The status badge. */
  function StatusBadge(status: string): (b: Badge)
    ensures status == "pending" ==> b == Badge("secondary", None, "Pending")
    ensures status == "in-progress" ==> b == Badge("secondary", None, "In Progress")
    ensures status == "completed" ==> b == Badge("default", None, "Completed")
    ensures status == "approved" ==> b == Badge("secondary", Some("bg-green-500 hover:bg-green-600"), "Approved")
    ensures status == "changes-requested" ==> b == Badge("destructive", None, "Changes Requested")
    ensures status !in KnownStatuses ==> b == Badge("outline", None, "Unknown")
  {
    match status
    case "pending" => Badge("secondary", None, "Pending")
    case "in-progress" => Badge("secondary", None, "In Progress")
    case "completed" => Badge("default", None, "Completed")
    case "approved" => Badge("secondary", Some("bg-green-500 hover:bg-green-600"), "Approved")
    case "changes-requested" => Badge("destructive", None, "Changes Requested")
    case _ => Badge("outline", None, "Unknown")
  }

  /** Every known status has its own text, and only unknown statuses read "Unknown". */
  lemma StatusTextsDistinct(s: string, t: string)
    ensures StatusBadge(s).text == "Unknown" <==> s !in KnownStatuses
    ensures s in KnownStatuses && t in KnownStatuses && s != t ==> StatusBadge(s).text != StatusBadge(t).text
  {
  }

  const CategoryColors: map<string, string> := map[
    "electrical" := "bg-yellow-500 hover:bg-yellow-600",
    "plumbing" := "bg-blue-500 hover:bg-blue-600",
    "ac-repair" := "bg-cyan-500 hover:bg-cyan-600",
    "painting" := "bg-purple-500 hover:bg-purple-600",
    "carpentry" := "bg-amber-500 hover:bg-amber-600"
  ]

  const CategoryLabels: map<string, string> := map[
    "electrical" := "Electrical",
    "plumbing" := "Plumbing",
    "ac-repair" := "AC Repair",
    "painting" := "Painting",
    "carpentry" := "Carpentry"
  ]

  const GrayColor := "bg-gray-500 hover:bg-gray-600"

  /** `record[key] || fallback`: the mapped value when the key is present and the value non-empty. */
  function LookupOr(record: map<string, string>, key: string, fallback: string): (v: string)
    ensures key in record && record[key] != "" ==> v == record[key]
    ensures key !in record || record[key] == "" ==> v == fallback
  {
    if key in record && record[key] != "" then record[key] else fallback
  }

  /** The category badge: always the secondary variant, colour and text looked up by key. */
  function CategoryBadge(category: string): (b: Badge)
    ensures b.variant == "secondary"
    ensures category in CategoryColors ==> b.className == Some(CategoryColors[category])
    ensures category in CategoryLabels ==> b.text == CategoryLabels[category]
    ensures category !in CategoryLabels ==> b == Badge("secondary", Some(GrayColor), "Unknown")
  {
    Badge("secondary", Some(LookupOr(CategoryColors, category, GrayColor)),
          LookupOr(CategoryLabels, category, "Unknown"))
  }

  /** The two records cover the same five keys, so colour and text fall back together. */
  lemma CategoryRecordsShareKeys()
    ensures CategoryColors.Keys == CategoryLabels.Keys
    ensures |CategoryLabels.Keys| == 5
    ensures forall k :: k in CategoryLabels ==> CategoryLabels[k] != "Unknown" && CategoryColors[k] != GrayColor
  {
    assert CategoryLabels.Keys == {"electrical", "plumbing", "ac-repair", "painting", "carpentry"};
  }

  /**
   * The job form offers "ac_repair" where the dialog's records say "ac-repair":
   * a job filed from the form under air conditioning shows an Unknown gray
   * badge, while the four other form categories are recognised.
   */
  lemma FormCategoriesInDialog()
    ensures forall c :: c in JobForm.ServiceCategoryOptions ==> (CategoryBadge(c).text == "Unknown" <==> c == "ac_repair")
    ensures CategoryBadge("ac_repair") == Badge("secondary", Some(GrayColor), "Unknown")
  {
    assert JobForm.ServiceCategoryOptions == ["electrical", "plumbing", "ac_repair", "painting", "carpentry"];
    assert "ac_repair" !in CategoryLabels;
  }
}

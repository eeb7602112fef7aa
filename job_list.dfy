/**
 * The technician's job list: a text search over title, location and client
 * combined with a status filter, the status colour classes, and the label
 * and colour of each job card's status badge.
 */
module JobList {
  import opened Wrappers
  import Text
  import Lists

  datatype Job = Job(
    id: string,
    title: string,
    location: string,
    category: string,
    status: string,
    date: string,
    client: string)

  predicate Shown(job: Job, term: string, statusFilter: string)
  {
    && (|| Text.IncludesIgnoringCase(job.title, term)
        || Text.IncludesIgnoringCase(job.location, term)
        || Text.IncludesIgnoringCase(job.client, term))
    && (statusFilter == "all" || job.status == statusFilter)
  }

  function ShownBy(term: string, statusFilter: string): Job -> bool
  {
    (job: Job) => Shown(job, term, statusFilter)
  }

  /** The listed jobs: those passing the search and the status filter, in input order. */
  function FilteredJobs(jobs: seq<Job>, term: string, statusFilter: string): (r: seq<Job>)
    ensures forall job :: job in r <==> job in jobs && Shown(job, term, statusFilter)
    ensures Lists.IsSubsequence(r, jobs)
  {
    Lists.Filter(jobs, ShownBy(term, statusFilter))
  }

  /** With no search term and "all" statuses every job is listed. */
  lemma FilteredJobsUnfiltered(jobs: seq<Job>)
    ensures FilteredJobs(jobs, "", "all") == jobs
  {
    forall job | job in jobs ensures Shown(job, "", "all") {
      Text.EmptyQueryMatches(job.title);
    }
    Lists.FilterKeepsAll(jobs, ShownBy("", "all"));
  }

  /** Choosing a status never lists a job the "all" setting would not. */
  lemma NarrowingStatusNeverAdds(jobs: seq<Job>, term: string, status: string)
    ensures Lists.IsSubsequence(FilteredJobs(jobs, term, status), FilteredJobs(jobs, term, "all"))
  {
    Lists.FilterMonotone(jobs, ShownBy(term, status), ShownBy(term, "all"));
  }

  /** The status colour classes: one colour per known status, gray for anything else. */
  function StatusColor(status: string): (c: string)
    ensures status == "pending" ==> c == "bg-yellow-100 text-yellow-800 hover:bg-yellow-200"
    ensures status == "in-progress" ==> c == "bg-blue-100 text-blue-800 hover:bg-blue-200"
    ensures status == "completed" ==> c == "bg-green-100 text-green-800 hover:bg-green-200"
    ensures status !in {"pending", "in-progress", "completed"} ==> c == "bg-gray-100 text-gray-800 hover:bg-gray-200"
  {
    match status
    case "pending" => "bg-yellow-100 text-yellow-800 hover:bg-yellow-200"
    case "in-progress" => "bg-blue-100 text-blue-800 hover:bg-blue-200"
    case "completed" => "bg-green-100 text-green-800 hover:bg-green-200"
    case _ => "bg-gray-100 text-gray-800 hover:bg-gray-200"
  }

  /** The card badge's classes: a lookup over the three statuses, `undefined` for any other. */
  function CardColor(status: string): (c: Option<string>)
    ensures c.Some? <==> status in {"pending", "in-progress", "completed"}
    ensures status == "pending" ==> c == Some("bg-yellow-100 text-yellow-800")
    ensures status == "in-progress" ==> c == Some("bg-blue-100 text-blue-800")
    ensures status == "completed" ==> c == Some("bg-green-100 text-green-800")
  {
    match status
    case "pending" => Some("bg-yellow-100 text-yellow-800")
    case "in-progress" => Some("bg-blue-100 text-blue-800")
    case "completed" => Some("bg-green-100 text-green-800")
    case _ => None
  }

  /** The hover class, with its separating space, that the status colour ends in for a known status. */
  function HoverSuffix(status: string): string
  {
    match status
    case "pending" => " hover:bg-yellow-200"
    case "in-progress" => " hover:bg-blue-200"
    case _ => " hover:bg-green-200"
  }

  /** For a known status the card's classes are the status colour without its hover class. */
  lemma CardColorIsStatusColorPrefix(status: string)
    requires status in {"pending", "in-progress", "completed"}
    ensures CardColor(status).value != ""
    ensures StatusColor(status) == CardColor(status).value + HoverSuffix(status)
  {
    if status == "pending" {
      assert "bg-yellow-100 text-yellow-800" + " hover:bg-yellow-200" == "bg-yellow-100 text-yellow-800 hover:bg-yellow-200";
    } else if status == "in-progress" {
      assert "bg-blue-100 text-blue-800" + " hover:bg-blue-200" == "bg-blue-100 text-blue-800 hover:bg-blue-200";
    } else {
      assert "bg-green-100 text-green-800" + " hover:bg-green-200" == "bg-green-100 text-green-800 hover:bg-green-200";
    }
  }

  /** The card badge's text: "In Progress", or the status with its first letter upper-cased. */
  function CardLabel(status: string): (text: string)
    ensures status == "in-progress" ==> text == "In Progress"
    ensures status != "in-progress" ==> |text| == |status|
    ensures status != "in-progress" && status != [] ==>
      text[0] == Text.UpperChar(status[0]) && text[1..] == status[1..]
  {
    if status == "in-progress" then "In Progress" else Text.Capitalize(status)
  }

  /** The two other known statuses read "Pending" and "Completed". */
  lemma CardLabelsOfKnownStatuses()
    ensures CardLabel("pending") == "Pending"
    ensures CardLabel("completed") == "Completed"
  {
    assert Text.UpperChar('p') == 'P' && Text.UpperChar('c') == 'C';
  }
}

/**
 * The administrator's job table: a text search over title, id and location
 * combined with status, category and technician filters, the option lists of
 * the two value filters, and the status badge.
 */
module AdminJobList {
  import Text
  import Lists

  datatype Job = Job(
    id: string,
    title: string,
    location: string,
    technician: string,
    category: string,
    status: string,
    date: string)

  /** The three value filters; "all" switches a filter off. */
  datatype Filters = Filters(status: string, category: string, technician: string)

  const NoFilters := Filters("all", "all", "all")

  predicate MatchesSearch(job: Job, query: string)
  {
    || Text.IncludesIgnoringCase(job.title, query)
    || Text.IncludesIgnoringCase(job.id, query)
    || Text.IncludesIgnoringCase(job.location, query)
  }

  predicate MatchesFilters(job: Job, f: Filters)
  {
    && (f.status == "all" || job.status == f.status)
    && (f.category == "all" || job.category == f.category)
    && (f.technician == "all" || job.technician == f.technician)
  }

  predicate Shown(job: Job, query: string, f: Filters)
  {
    MatchesSearch(job, query) && MatchesFilters(job, f)
  }

  function ShownBy(query: string, f: Filters): Job -> bool
  {
    (job: Job) => Shown(job, query, f)
  }

  /** The table rows: the jobs passing the search and every filter, in input order. */
  function FilteredJobs(jobs: seq<Job>, query: string, f: Filters): (r: seq<Job>)
    ensures forall job :: job in r <==> job in jobs && Shown(job, query, f)
    ensures Lists.IsSubsequence(r, jobs)
  {
    Lists.Filter(jobs, ShownBy(query, f))
  }

  /** With no query and every filter on "all" the table shows all jobs. */
  lemma FilteredJobsUnfiltered(jobs: seq<Job>)
    ensures FilteredJobs(jobs, "", NoFilters) == jobs
  {
    forall job | job in jobs ensures Shown(job, "", NoFilters) {
      Text.EmptyQueryMatches(job.title);
    }
    Lists.FilterKeepsAll(jobs, ShownBy("", NoFilters));
  }

  /** A filter moved from "all" to a value: the rows are a sublist of those shown before. */
  lemma NarrowingStatusNeverAdds(jobs: seq<Job>, query: string, f: Filters, status: string)
    requires f.status == "all"
    ensures Lists.IsSubsequence(FilteredJobs(jobs, query, f.(status := status)), FilteredJobs(jobs, query, f))
  {
    Lists.FilterMonotone(jobs, ShownBy(query, f.(status := status)), ShownBy(query, f));
  }

  lemma NarrowingCategoryNeverAdds(jobs: seq<Job>, query: string, f: Filters, category: string)
    requires f.category == "all"
    ensures Lists.IsSubsequence(FilteredJobs(jobs, query, f.(category := category)), FilteredJobs(jobs, query, f))
  {
    Lists.FilterMonotone(jobs, ShownBy(query, f.(category := category)), ShownBy(query, f));
  }

  lemma NarrowingTechnicianNeverAdds(jobs: seq<Job>, query: string, f: Filters, technician: string)
    requires f.technician == "all"
    ensures Lists.IsSubsequence(FilteredJobs(jobs, query, f.(technician := technician)), FilteredJobs(jobs, query, f))
  {
    Lists.FilterMonotone(jobs, ShownBy(query, f.(technician := technician)), ShownBy(query, f));
  }

  /** The technician filter's options: each technician once, in order of first appearance. */
  function Technicians(jobs: seq<Job>): (r: seq<string>)
    ensures Lists.NoDuplicates(r)
    ensures forall t :: t in r <==> exists i :: 0 <= i < |jobs| && jobs[i].technician == t
  {
    Lists.DistinctValues(jobs, (job: Job) => job.technician)
  }

  /** The category filter's options: each category once, in order of first appearance. */
  function Categories(jobs: seq<Job>): (r: seq<string>)
    ensures Lists.NoDuplicates(r)
    ensures forall c :: c in r <==> exists i :: 0 <= i < |jobs| && jobs[i].category == c
  {
    Lists.DistinctValues(jobs, (job: Job) => job.category)
  }

  /** Both option lists follow the order in which their values first appear in the jobs. */
  lemma OptionsInFirstOccurrenceOrder(jobs: seq<Job>)
    ensures var column := Lists.Map(jobs, (job: Job) => job.technician);
      forall i, j :: 0 <= i < j < |Technicians(jobs)| ==>
        Lists.FirstIndex(column, Technicians(jobs)[i]) < Lists.FirstIndex(column, Technicians(jobs)[j])
    ensures var column := Lists.Map(jobs, (job: Job) => job.category);
      forall i, j :: 0 <= i < j < |Categories(jobs)| ==>
        Lists.FirstIndex(column, Categories(jobs)[i]) < Lists.FirstIndex(column, Categories(jobs)[j])
  {
    Lists.DistinctValuesOrder(jobs, (job: Job) => job.technician);
    Lists.DistinctValuesOrder(jobs, (job: Job) => job.category);
  }

  /** The badge variant: completed and unknown statuses share "default". */
  function StatusBadgeVariant(status: string): (v: string)
    ensures status == "completed" ==> v == "default"
    ensures status == "in-progress" ==> v == "secondary"
    ensures status == "pending" ==> v == "outline"
    ensures status !in {"completed", "in-progress", "pending"} ==> v == "default"
  {
    match status
    case "completed" => "default"
    case "in-progress" => "secondary"
    case "pending" => "outline"
    case _ => "default"
  }

  /** The badge text: the status with its first "-" turned into a space. */
  function StatusLabel(status: string): (text: string)
    ensures |text| == |status|
    ensures '-' !in status ==> text == status
    ensures '-' in status ==> text[Text.IndexOf(status, '-')] == ' '
    ensures '-' in status ==> forall i :: 0 <= i < |status| && i != Text.IndexOf(status, '-') ==> text[i] == status[i]
  {
    var r := Text.ReplaceFirst(status, '-', ' ');
    assert '-' !in status ==> r == status by {
      if '-' !in status {
        assert forall i :: 0 <= i < |status| ==> r[i] == status[i];
      }
    }
    r
  }

  /** Only the first dash is replaced: a later dash survives in the label. */
  lemma StatusLabelKeepsLaterDashes(status: string, i: nat, j: nat)
    requires i < j < |status| && status[i] == '-' && status[j] == '-'
    ensures StatusLabel(status)[j] == '-'
    ensures StatusLabel(status)[Text.IndexOf(status, '-')] == ' '
  {
  }
}

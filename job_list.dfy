/** The list screen's state: the fetched postings, the filtered list it shows,
    the loading flag, the error message and the filter controls. Each React
    state setter becomes a field assignment; the effect that re-runs
    `applyFilters` whenever the postings or the filters change runs at the end
    of every method that changes either. */
module JobListComponent {
  import opened Results
  import opened Posting
  import opened JobFilter
  import opened TransportErrors

  /** The text and select controls wired to `handleFilterChange`, by their `name`. */
  datatype FilterControl = JobTitleControl | LocationControl | JobTypeControl

  /** `{ ...prev, [name]: value }` on the filters. */
  function WithControl(f: Filters, c: FilterControl, v: string): (r: Filters)
    ensures r.salary == f.salary
    ensures r.jobTitle == (if c == JobTitleControl then v else f.jobTitle)
    ensures r.location == (if c == LocationControl then v else f.location)
    ensures r.jobType == (if c == JobTypeControl then v else f.jobType)
  {
    match c
    case JobTitleControl => f.(jobTitle := v)
    case LocationControl => f.(location := v)
    case JobTypeControl => f.(jobType := v)
  }

  class JobList {
    var jobs: seq<Job>
    var filteredJobs: seq<Job>
    var loading: bool
    var error: Option<string>
    var filters: Filters

    /** The filter effect is up to date. */
    ghost predicate Valid()
      reads this
    {
      filteredJobs == ApplyFilters(jobs, filters)
    }

    /** The initial state: nothing fetched, loading, no error, every control cleared. */
    constructor ()
      ensures Valid()
      ensures jobs == [] && filteredJobs == [] && loading && error == None && filters == Cleared
    {
      jobs := [];
      filteredJobs := [];
      loading := true;
      error := None;
      filters := Cleared;
    }

    /** The synchronous start of `fetchJobs`, before the first await. */
    method BeginFetch()
      requires Valid()
      modifies this
      ensures Valid()
      ensures loading && error == None
      ensures jobs == old(jobs) && filteredJobs == old(filteredJobs) && filters == old(filters)
    {
      loading := true;
      error := None;
    }

    /** The rest of `fetchJobs` once the health check and, if that succeeded, the
        list request have settled: store the postings, or classify the first
        failure; `loading` is cleared either way. */
    method FinishFetch(health: Reply<()>, list: Reply<seq<Job>>)
      requires Valid()
      modifies this
      ensures Valid() && !loading && filters == old(filters)
      ensures health.Failed? ==>
        error == Some(FetchErrorMessage(health.error)) && jobs == old(jobs)
      ensures health.Delivered? && list.Failed? ==>
        error == Some(FetchErrorMessage(list.error)) && jobs == old(jobs)
      ensures health.Delivered? && list.Delivered? ==>
        error == old(error) && jobs == list.value && filteredJobs == ApplyFilters(list.value, filters)
    {
      if health.Failed? {
        error := Some(FetchErrorMessage(health.error));
      } else if list.Failed? {
        error := Some(FetchErrorMessage(list.error));
      } else {
        jobs := list.value;
        filteredJobs := list.value;
        filteredJobs := ApplyFilters(jobs, filters);
      }
      loading := false;
    }

    /** `fetchJobs` (and `retryFetch`) as one step: exactly one outcome, and
        `loading` false after it. */
    method FetchJobs(health: Reply<()>, list: Reply<seq<Job>>)
      requires Valid()
      modifies this
      ensures Valid() && !loading && filters == old(filters)
      ensures error.None? <==> health.Delivered? && list.Delivered?
      ensures error.Some? ==> jobs == old(jobs) && filteredJobs == old(filteredJobs)
      ensures health.Failed? ==> error == Some(FetchErrorMessage(health.error))
      ensures health.Delivered? && list.Failed? ==> error == Some(FetchErrorMessage(list.error))
      ensures error.None? ==> jobs == list.value
    {
      BeginFetch();
      FinishFetch(health, list);
    }

    /** `handleFilterChange` for one text or select control, then the filter effect. */
    method HandleFilterChange(control: FilterControl, value: string)
      requires Valid()
      modifies this`filters, this`filteredJobs
      ensures Valid()
      ensures filters == WithControl(old(filters), control, value)
      ensures filteredJobs == ApplyFilters(jobs, filters)
    {
      filters := WithControl(filters, control, value);
      filteredJobs := ApplyFilters(jobs, filters);
    }

    /** `handleSalaryChange`: only the salary changes, then the filter effect. */
    method HandleSalaryChange(value: nat)
      requires Valid()
      modifies this`filters, this`filteredJobs
      ensures Valid()
      ensures filters == old(filters).(salary := value)
    {
      filters := filters.(salary := value);
      filteredJobs := ApplyFilters(jobs, filters);
    }

    /** `clearFilters`: every control back to its initial value, so the whole
        fetched list is shown again. */
    method ClearFilters()
      requires Valid()
      modifies this`filters, this`filteredJobs
      ensures Valid()
      ensures filters == Cleared && filteredJobs == jobs
    {
      filters := Cleared;
      filteredJobs := ApplyFilters(jobs, filters);
      ClearedShowsAll(jobs);
    }
  }
}

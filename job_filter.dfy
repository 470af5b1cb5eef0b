/** The list screen's client-side filter (`applyFilters`): four optional passes
    over the postings already fetched, each a `.filter` on one predicate. */
module JobFilter {
  import opened Text
  import opened Posting
  import SalaryPattern

  /** The filter controls: title text, location text, job-type select, salary slider. */
  datatype Filters = Filters(jobTitle: string, location: string, jobType: string, salary: nat)

  /** The state `clearFilters` sets and the screen starts with. */
  const Cleared := Filters("", "", "", 0)

  /** One `.filter` predicate of `applyFilters`. */
  datatype Criterion =
    | TitleContains(text: string)
    | LocationContains(text: string)
    | TypeIs(jobType: string)
    | SalaryWithin(value: nat)

  /** The salary test of one posting: a non-empty range text whose first match
      brackets `value`, both ends included. */
  predicate SalaryFits(range: string, value: nat)
  {
    range != "" &&
    match SalaryPattern.SalaryBounds(range)
    case None => false
    case Some((lo, hi)) => lo <= value <= hi
  }

  predicate Holds(c: Criterion, job: Job)
  {
    match c
    case TitleContains(t) => Includes(Lower(job.fields.jobTitle), Lower(t))
    case LocationContains(t) => Includes(Lower(job.fields.location), Lower(t))
    case TypeIs(t) => job.fields.jobType == t
    case SalaryWithin(v) => SalaryFits(job.fields.salaryRange, v)
  }

  /** `jobs.filter(job => Holds(c, job))`. */
  function FilterBy(jobs: seq<Job>, c: Criterion): (r: seq<Job>)
    ensures |r| <= |jobs|
    ensures forall j :: j in r <==> j in jobs && Holds(c, j)
  {
    if jobs == [] then [] else (if Holds(c, jobs[0]) then [jobs[0]] else []) + FilterBy(jobs[1..], c)
  }

  /** `applyFilters`: each non-empty text filter, the chosen job type and a positive
      salary add one pass, in this order, to the list the previous pass left. */
  function ApplyFilters(jobs: seq<Job>, f: Filters): seq<Job>
  {
    var byTitle := PassIf(f.jobTitle != "", jobs, TitleContains(f.jobTitle));
    var byLocation := PassIf(f.location != "", byTitle, LocationContains(f.location));
    var byType := PassIf(f.jobType != "", byLocation, TypeIs(f.jobType));
    PassIf(f.salary > 0, byType, SalaryWithin(f.salary))
  }

  /** `if (active) filtered = filtered.filter(…)`. */
  function PassIf(active: bool, jobs: seq<Job>, c: Criterion): seq<Job>
  {
    if active then FilterBy(jobs, c) else jobs
  }

  /** Reference definition: the conjunction of the active tests, an empty text,
      an empty type and a zero salary each switching their test off. */
  predicate Accepts(f: Filters, job: Job)
  {
    && (f.jobTitle == "" || Includes(Lower(job.fields.jobTitle), Lower(f.jobTitle)))
    && (f.location == "" || Includes(Lower(job.fields.location), Lower(f.location)))
    && (f.jobType == "" || job.fields.jobType == f.jobType)
    && (f.salary == 0 || SalaryFits(job.fields.salaryRange, f.salary))
  }

  /** Reference definition: one pass keeping the accepted postings in order. */
  function Selected(jobs: seq<Job>, f: Filters): (r: seq<Job>)
    ensures forall j :: j in r <==> j in jobs && Accepts(f, j)
  {
    if jobs == [] then [] else (if Accepts(f, jobs[0]) then [jobs[0]] else []) + Selected(jobs[1..], f)
  }

  /** `sub` is `s` with some elements dropped: nothing added, duplicated or reordered. */
  predicate IsSubsequence(sub: seq<Job>, s: seq<Job>)
    decreases |s|
  {
    if sub == [] then true
    else if s == [] then false
    else if sub[0] == s[0] then IsSubsequence(sub[1..], s[1..])
    else IsSubsequence(sub, s[1..])
  }

  lemma {:induction false} FilterByAppend(a: seq<Job>, b: seq<Job>, c: Criterion)
    ensures FilterBy(a + b, c) == FilterBy(a, c) + FilterBy(b, c)
  {
    if a == [] {
      assert a + b == b;
    } else {
      assert (a + b)[1..] == a[1..] + b;
      FilterByAppend(a[1..], b, c);
    }
  }

  lemma PassIfAppend(active: bool, a: seq<Job>, b: seq<Job>, c: Criterion)
    ensures PassIf(active, a + b, c) == PassIf(active, a, c) + PassIf(active, b, c)
  {
    FilterByAppend(a, b, c);
  }

  /** Filtering a list splits into filtering its head and its tail. */
  lemma ApplyFiltersCons(x: Job, rest: seq<Job>, f: Filters)
    ensures ApplyFilters([x] + rest, f) == ApplyFilters([x], f) + ApplyFilters(rest, f)
  {
    var a1 := PassIf(f.jobTitle != "", [x], TitleContains(f.jobTitle));
    var b1 := PassIf(f.jobTitle != "", rest, TitleContains(f.jobTitle));
    PassIfAppend(f.jobTitle != "", [x], rest, TitleContains(f.jobTitle));
    var a2 := PassIf(f.location != "", a1, LocationContains(f.location));
    var b2 := PassIf(f.location != "", b1, LocationContains(f.location));
    PassIfAppend(f.location != "", a1, b1, LocationContains(f.location));
    var a3 := PassIf(f.jobType != "", a2, TypeIs(f.jobType));
    var b3 := PassIf(f.jobType != "", b2, TypeIs(f.jobType));
    PassIfAppend(f.jobType != "", a2, b2, TypeIs(f.jobType));
    PassIfAppend(f.salary > 0, a3, b3, SalaryWithin(f.salary));
  }

  /** On one posting, the four passes keep it exactly when it is accepted. */
  lemma ApplyFiltersSingle(x: Job, f: Filters)
    ensures ApplyFilters([x], f) == if Accepts(f, x) then [x] else []
  {
    FilterBySingle(x, TitleContains(f.jobTitle));
    FilterBySingle(x, LocationContains(f.location));
    FilterBySingle(x, TypeIs(f.jobType));
    FilterBySingle(x, SalaryWithin(f.salary));
  }

  lemma FilterBySingle(x: Job, c: Criterion)
    ensures FilterBy([x], c) == (if Holds(c, x) then [x] else []) && FilterBy([], c) == []
  {
    assert [x][1..] == [];
  }

  /** The chain of passes is one filter by the conjunction of the active tests. */
  lemma {:induction false} ApplyFiltersIsConjunction(jobs: seq<Job>, f: Filters)
    ensures ApplyFilters(jobs, f) == Selected(jobs, f)
  {
    if jobs != [] {
      assert jobs == [jobs[0]] + jobs[1..];
      ApplyFiltersCons(jobs[0], jobs[1..], f);
      ApplyFiltersSingle(jobs[0], f);
      ApplyFiltersIsConjunction(jobs[1..], f);
    }
  }

  lemma {:induction false} SelectedIsSubsequence(jobs: seq<Job>, f: Filters)
    ensures IsSubsequence(Selected(jobs, f), jobs)
  {
    if jobs != [] {
      SelectedIsSubsequence(jobs[1..], f);
      var r := Selected(jobs, f);
      if Accepts(f, jobs[0]) {
        assert r[0] == jobs[0] && r[1..] == Selected(jobs[1..], f);
      } else if r != [] {
        assert r == Selected(jobs[1..], f);
        assert r[0] in r;
      }
    }
  }

  /** What `applyFilters` leaves is an order-preserving sub-list of the fetched
      postings, and holds exactly the fetched postings the active tests accept. */
  lemma ApplyFiltersSpec(jobs: seq<Job>, f: Filters)
    ensures IsSubsequence(ApplyFilters(jobs, f), jobs)
    ensures forall j :: j in ApplyFilters(jobs, f) <==> j in jobs && Accepts(f, j)
  {
    ApplyFiltersIsConjunction(jobs, f);
    SelectedIsSubsequence(jobs, f);
  }

  /** Two passes give the same list in either order, so the four passes of
      `applyFilters` could run in any order. */
  lemma {:induction false} FilterByCommutes(jobs: seq<Job>, c1: Criterion, c2: Criterion)
    ensures FilterBy(FilterBy(jobs, c1), c2) == FilterBy(FilterBy(jobs, c2), c1)
  {
    if jobs != [] {
      var x, rest := jobs[0], jobs[1..];
      assert jobs == [x] + rest;
      FilterByCommutes(rest, c1, c2);
      var h1 := if Holds(c1, x) then [x] else [];
      var h2 := if Holds(c2, x) then [x] else [];
      FilterByAppend(h1, FilterBy(rest, c1), c2);
      FilterByAppend(h2, FilterBy(rest, c2), c1);
      assert FilterBy(h1, c2) == FilterBy(h2, c1) by {
        assert [x][1..] == [];
      }
    }
  }

  /** With every control cleared the list shown is the list fetched. */
  lemma ClearedShowsAll(jobs: seq<Job>)
    ensures ApplyFilters(jobs, Cleared) == jobs
  {
  }

  /** Title alone: a posting is kept iff the lower-cased title contains the
      lower-cased filter text. */
  lemma TitleFilterSpec(jobs: seq<Job>, text: string, j: Job)
    requires text != ""
    ensures j in ApplyFilters(jobs, Filters(text, "", "", 0))
        <==> j in jobs && Includes(Lower(j.fields.jobTitle), Lower(text))
  {
    ApplyFiltersSpec(jobs, Filters(text, "", "", 0));
  }

  /** Searching for a posting's own title, in any letter case, keeps that posting. */
  lemma OwnTitleKept(jobs: seq<Job>, j: Job)
    requires j in jobs && j.fields.jobTitle != ""
    ensures j in ApplyFilters(jobs, Filters(j.fields.jobTitle, "", "", 0))
  {
    IncludesTrivial(Lower(j.fields.jobTitle));
    TitleFilterSpec(jobs, j.fields.jobTitle, j);
  }

  /** Location alone: the same test on the location. */
  lemma LocationFilterSpec(jobs: seq<Job>, text: string, j: Job)
    requires text != ""
    ensures j in ApplyFilters(jobs, Filters("", text, "", 0))
        <==> j in jobs && Includes(Lower(j.fields.location), Lower(text))
  {
    ApplyFiltersSpec(jobs, Filters("", text, "", 0));
  }

  /** Job type alone: exact equality. */
  lemma TypeFilterSpec(jobs: seq<Job>, jobType: string, j: Job)
    requires jobType != ""
    ensures j in ApplyFilters(jobs, Filters("", "", jobType, 0)) <==> j in jobs && j.fields.jobType == jobType
  {
    ApplyFiltersSpec(jobs, Filters("", "", jobType, 0));
  }

  /** A job type no fetched posting has (one outside the enum, say) empties the
      list; it is not an error. */
  lemma UnknownTypeEmpties(jobs: seq<Job>, f: Filters)
    requires f.jobType != ""
    requires forall j :: j in jobs ==> j.fields.jobType in JobTypes
    requires f.jobType !in JobTypes
    ensures ApplyFilters(jobs, f) == []
  {
    ApplyFiltersSpec(jobs, f);
  }

  /** Salary alone: an empty text, or one with no match of the pattern
      ("Negotiable"), is dropped; otherwise the posting is kept iff the value lies
      between the two captured numbers, both included. */
  lemma SalaryFilterSpec(jobs: seq<Job>, value: nat, j: Job)
    requires value > 0 && j in jobs
    ensures j.fields.salaryRange == "" ==> j !in ApplyFilters(jobs, Filters("", "", "", value))
    ensures SalaryPattern.SalaryBounds(j.fields.salaryRange).None? ==> j !in ApplyFilters(jobs, Filters("", "", "", value))
    ensures SalaryPattern.SalaryBounds(j.fields.salaryRange).Some? ==>
      var (lo, hi) := SalaryPattern.SalaryBounds(j.fields.salaryRange).value;
      (j in ApplyFilters(jobs, Filters("", "", "", value)) <==> lo <= value <= hi)
  {
    ApplyFiltersSpec(jobs, Filters("", "", "", value));
  }

  /** The worked example: "₹50k - ₹80k" is kept for 50, 60 and 80 and dropped for 90. */
  lemma SalaryExample(j: Job)
    requires j.fields.salaryRange == "₹50k - ₹80k"
    ensures ApplyFilters([j], Filters("", "", "", 50)) == [j]
    ensures ApplyFilters([j], Filters("", "", "", 60)) == [j]
    ensures ApplyFilters([j], Filters("", "", "", 80)) == [j]
    ensures ApplyFilters([j], Filters("", "", "", 90)) == []
  {
    SalaryPattern.CanonicalFifty();
    SalaryPattern.RangeTextRoundTrip(50, 80);
    ApplyFiltersSingle(j, Filters("", "", "", 50));
    ApplyFiltersSingle(j, Filters("", "", "", 60));
    ApplyFiltersSingle(j, Filters("", "", "", 80));
    ApplyFiltersSingle(j, Filters("", "", "", 90));
  }
}

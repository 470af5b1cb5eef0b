/** The list route's query builder: a fixed SELECT extended by one `AND … ?`
    clause per present filter, with the filter values kept apart in a parameter
    list bound to the `?` placeholders. */
module ListQuery {
  import opened Text

  /** The query-string values the list route reads. An absent value and an empty
      one are both the empty string: the route tests each for truthiness. */
  datatype ListRequest = ListRequest(jobTitle: string, location: string, jobType: string, salaryMin: string, salaryMax: string)

  const Select := "SELECT * FROM jobs WHERE 1=1"
  const TitleClause := " AND job_title LIKE ?"
  const LocationClause := " AND location LIKE ?"
  const TypeClause := " AND job_type = ?"
  const SalaryClause := " AND salary_range IS NOT NULL"
  const OrderClause := " ORDER BY created_at DESC"

  /** A LIKE pattern matching any text that contains `term`. */
  function Wrap(term: string): (r: string)
    ensures |r| == |term| + 2 && r[0] == '%' && r[|r| - 1] == '%' && r[1..|r| - 1] == term
  {
    "%" + term + "%"
  }

  /** Which fragments the request switches on: the three filters, and the salary
      gate, which needs both bounds. */
  function Presence(q: ListRequest): (bool, bool, bool, bool)
  {
    (q.jobTitle != "", q.location != "", q.jobType != "", q.salaryMin != "" && q.salaryMax != "")
  }

  /** A fragment that is appended only when `present`. */
  function When(present: bool, fragment: string): string
  {
    if present then fragment else ""
  }

  /** The clauses between the SELECT and the ORDER BY, in their fixed order. */
  function FilterClauses(q: ListRequest): string
  {
    When(q.jobTitle != "", TitleClause)
    + When(q.location != "", LocationClause)
    + When(q.jobType != "", TypeClause)
    + When(q.salaryMin != "" && q.salaryMax != "", SalaryClause)
  }

  /** The SQL text the route sends. */
  function QueryText(q: ListRequest): string
  {
    Select + FilterClauses(q) + OrderClause
  }

  /** The values bound to the placeholders, in placeholder order. */
  function QueryParams(q: ListRequest): seq<string>
  {
    (if q.jobTitle != "" then [Wrap(q.jobTitle)] else [])
    + (if q.location != "" then [Wrap(q.location)] else [])
    + (if q.jobType != "" then [q.jobType] else [])
  }

  /** The route's builder: `query +=` and `params.push` across a run of ifs. */
  method BuildListQuery(q: ListRequest) returns (query: string, params: seq<string>)
    ensures query == QueryText(q) && params == QueryParams(q)
  {
    query := Select;
    params := [];
    if q.jobTitle != "" {
      query := query + TitleClause;
      params := params + [Wrap(q.jobTitle)];
    }
    ghost var clauses := When(q.jobTitle != "", TitleClause);
    assert query == Select + clauses;
    if q.location != "" {
      query := query + LocationClause;
      params := params + [Wrap(q.location)];
    }
    Extend(Select, clauses, q.location != "", LocationClause);
    clauses := clauses + When(q.location != "", LocationClause);
    if q.jobType != "" {
      query := query + TypeClause;
      params := params + [q.jobType];
    }
    Extend(Select, clauses, q.jobType != "", TypeClause);
    clauses := clauses + When(q.jobType != "", TypeClause);
    if q.salaryMin != "" && q.salaryMax != "" {
      query := query + SalaryClause;
    }
    Extend(Select, clauses, q.salaryMin != "" && q.salaryMax != "", SalaryClause);
    clauses := clauses + When(q.salaryMin != "" && q.salaryMax != "", SalaryClause);
    assert query == Select + clauses && clauses == FilterClauses(q);
    query := query + OrderClause;
  }

  /** Appending an optional fragment to the query built so far appends it to
      the clauses after the head. */
  lemma Extend(head: string, clauses: string, present: bool, fragment: string)
    ensures (head + clauses) + When(present, fragment) == head + (clauses + When(present, fragment))
    ensures present ==> (head + clauses) + fragment == head + (clauses + fragment)
    ensures !present ==> head + clauses == head + (clauses + When(present, fragment))
  {
  }

  /** With no filters the route lists the whole table, newest first, with no
      parameters. */
  lemma NoFilterQuery(q: ListRequest)
    requires q.jobTitle == "" && q.location == "" && q.jobType == ""
    requires q.salaryMin == "" || q.salaryMax == ""
    ensures QueryText(q) == "SELECT * FROM jobs WHERE 1=1" + " ORDER BY created_at DESC"
    ensures QueryParams(q) == []
  {
    assert QueryText(q) == Select + OrderClause;
  }

  lemma OnePlaceholder(head: string)
    requires '?' !in head
    ensures Count(head + "?", '?') == 1
  {
    CountZero(head, '?');
    CountAppend(head, "?", '?');
  }

  lemma SelectPlaceholders()
    ensures Count(Select, '?') == 0
  {
    assert '?' !in Select;
    CountZero(Select, '?');
  }

  lemma SalaryPlaceholders()
    ensures Count(SalaryClause, '?') == 0
  {
    assert '?' !in SalaryClause;
    CountZero(SalaryClause, '?');
  }

  lemma OrderPlaceholders()
    ensures Count(OrderClause, '?') == 0
  {
    assert '?' !in OrderClause;
    CountZero(OrderClause, '?');
  }

  lemma TitlePlaceholder()
    ensures Count(TitleClause, '?') == 1
  {
    assert TitleClause == " AND job_title LIKE " + "?";
    OnePlaceholder(" AND job_title LIKE ");
  }

  lemma LocationPlaceholder()
    ensures Count(LocationClause, '?') == 1
  {
    assert LocationClause == " AND location LIKE " + "?";
    OnePlaceholder(" AND location LIKE ");
  }

  lemma TypePlaceholder()
    ensures Count(TypeClause, '?') == 1
  {
    assert TypeClause == " AND job_type = " + "?";
    OnePlaceholder(" AND job_type = ");
  }

  lemma CountWhen(present: bool, fragment: string, c: char)
    ensures Count(When(present, fragment), c) == if present then Count(fragment, c) else 0
  {
  }

  lemma CountFour(a: string, b: string, c: string, d: string, ch: char)
    ensures Count(a + b + c + d, ch) == Count(a, ch) + Count(b, ch) + Count(c, ch) + Count(d, ch)
  {
    CountAppend(a, b, ch);
    CountAppend(a + b, c, ch);
    CountAppend(a + b + c, d, ch);
  }

  /** Number of filters present among title, location and type. */
  function PresentFilters(q: ListRequest): nat
  {
    (if q.jobTitle != "" then 1 else 0) + (if q.location != "" then 1 else 0) + (if q.jobType != "" then 1 else 0)
  }

  lemma FilterClausesPlaceholders(q: ListRequest)
    ensures Count(FilterClauses(q), '?') == PresentFilters(q)
  {
    var (title, location, jobType, salary) := Presence(q);
    assert FilterClauses(q)
        == When(title, TitleClause) + When(location, LocationClause) + When(jobType, TypeClause) + When(salary, SalaryClause);
    ClausePlaceholders(title, location, jobType, salary);
  }

  /** One placeholder per present filter clause, none for the salary gate. */
  lemma ClausePlaceholders(title: bool, location: bool, jobType: bool, salary: bool)
    ensures Count(When(title, TitleClause) + When(location, LocationClause) + When(jobType, TypeClause) + When(salary, SalaryClause), '?')
            == (if title then 1 else 0) + (if location then 1 else 0) + (if jobType then 1 else 0)
  {
    FragmentPlaceholders();
    CountClauses(title, location, jobType, salary, TitleClause, LocationClause, TypeClause, SalaryClause);
  }

  /** The three filter clauses hold one placeholder each, the salary gate none. */
  lemma FragmentPlaceholders()
    ensures Count(TitleClause, '?') == 1 && Count(LocationClause, '?') == 1
    ensures Count(TypeClause, '?') == 1 && Count(SalaryClause, '?') == 0
  {
    TitlePlaceholder();
    LocationPlaceholder();
    TypePlaceholder();
    SalaryPlaceholders();
  }

  /** Placeholders of four optional fragments of which the first three hold one each
      and the last none. */
  lemma CountClauses(p1: bool, p2: bool, p3: bool, p4: bool, f1: string, f2: string, f3: string, f4: string)
    requires Count(f1, '?') == 1 && Count(f2, '?') == 1 && Count(f3, '?') == 1 && Count(f4, '?') == 0
    ensures Count(When(p1, f1) + When(p2, f2) + When(p3, f3) + When(p4, f4), '?')
            == (if p1 then 1 else 0) + (if p2 then 1 else 0) + (if p3 then 1 else 0)
  {
    CountWhen(p1, f1, '?');
    CountWhen(p2, f2, '?');
    CountWhen(p3, f3, '?');
    CountWhen(p4, f4, '?');
    CountFour(When(p1, f1), When(p2, f2), When(p3, f3), When(p4, f4), '?');
  }

  /** A query text made of a placeholder-free head and tail around the clauses. */
  lemma CountAround(head: string, middle: string, tail: string)
    requires Count(head, '?') == 0 && Count(tail, '?') == 0
    ensures Count(head + middle + tail, '?') == Count(middle, '?')
  {
    CountAppend(head, middle, '?');
    CountAppend(head + middle, tail, '?');
  }

  /** Every parameter has its own placeholder and every placeholder its parameter. */
  lemma PlaceholdersMatchParams(q: ListRequest)
    ensures Count(QueryText(q), '?') == |QueryParams(q)|
  {
    FilterClausesPlaceholders(q);
    ParamsSpec(q);
    SelectPlaceholders();
    OrderPlaceholders();
    CountAround(Select, FilterClauses(q), OrderClause);
  }

  /** The SQL text depends only on which filters are present, never on their
      values: user text reaches the database only as a bound parameter. */
  lemma QueryTextIgnoresValues(q1: ListRequest, q2: ListRequest)
    requires Presence(q1) == Presence(q2)
    ensures QueryText(q1) == QueryText(q2)
  {
  }

  /** One parameter per present filter; the text filters' values are the raw
      terms wrapped in `%`, the job type goes through verbatim and unchecked. */
  lemma ParamsSpec(q: ListRequest)
    ensures |QueryParams(q)| == PresentFilters(q)
    ensures q.jobTitle != "" ==> QueryParams(q)[0] == Wrap(q.jobTitle)
    ensures q.location != "" ==> QueryParams(q)[if q.jobTitle != "" then 1 else 0] == Wrap(q.location)
    ensures q.jobType != "" ==> QueryParams(q)[|QueryParams(q)| - 1] == q.jobType
  {
  }

  /** The salary bounds add no parameter and no number to the query: only their
      joint presence adds the `IS NOT NULL` gate, and one bound alone adds nothing. */
  lemma SalaryBoundsUnused(q: ListRequest, lo: string, hi: string)
    ensures QueryParams(q.(salaryMin := lo, salaryMax := hi)) == QueryParams(q)
    ensures (lo != "") == (q.salaryMin != "") && (hi != "") == (q.salaryMax != "") ==>
      QueryText(q.(salaryMin := lo, salaryMax := hi)) == QueryText(q)
    ensures q.salaryMin == "" || q.salaryMax == "" ==>
      QueryText(q) == QueryText(q.(salaryMin := "", salaryMax := ""))
  {
  }
}

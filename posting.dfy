/** The job posting record shared by the server table, the list screen and the
    creation form: nine user-supplied text fields, plus the id the table assigns. */
module Posting {

  /** The nine columns a client supplies (`job_title` … `application_deadline`).
      A missing value (`null`) and the empty string are both the empty string here. */
  datatype JobFields = JobFields(
    jobTitle: string,
    companyName: string,
    location: string,
    jobType: string,
    salaryRange: string,
    jobDescription: string,
    requirements: string,
    responsibilities: string,
    applicationDeadline: string)

  /** A stored posting as the list and get routes return it. */
  datatype Job = Job(id: nat, fields: JobFields)

  /** The name of one of the nine fields (the `name` attribute of a form input). */
  datatype FieldName =
    | JobTitle | CompanyName | Location | JobType | SalaryRange
    | JobDescription | Requirements | Responsibilities | ApplicationDeadline

  /** The four values of the `job_type` enum column, in declaration order. */
  const JobTypes: seq<string> := ["Full-time", "Part-time", "Contract", "Internship"]

  /** The record of nine empty strings. */
  const EmptyFields := JobFields("", "", "", "", "", "", "", "", "")

  /** Reads the field called `n`. */
  function Get(f: JobFields, n: FieldName): string
  {
    match n
    case JobTitle => f.jobTitle
    case CompanyName => f.companyName
    case Location => f.location
    case JobType => f.jobType
    case SalaryRange => f.salaryRange
    case JobDescription => f.jobDescription
    case Requirements => f.requirements
    case Responsibilities => f.responsibilities
    case ApplicationDeadline => f.applicationDeadline
  }

  /** `{ ...f, [n]: v }`: the record with field `n` set to `v` and every other field kept. */
  function WithField(f: JobFields, n: FieldName, v: string): (r: JobFields)
    ensures Get(r, n) == v
    ensures forall m :: m != n ==> Get(r, m) == Get(f, m)
  {
    match n
    case JobTitle => f.(jobTitle := v)
    case CompanyName => f.(companyName := v)
    case Location => f.(location := v)
    case JobType => f.(jobType := v)
    case SalaryRange => f.(salaryRange := v)
    case JobDescription => f.(jobDescription := v)
    case Requirements => f.(requirements := v)
    case Responsibilities => f.(responsibilities := v)
    case ApplicationDeadline => f.(applicationDeadline := v)
  }

  /** Two records that agree on every named field are the same record. */
  lemma FieldsExtensional(f: JobFields, g: JobFields)
    requires forall n :: Get(f, n) == Get(g, n)
    ensures f == g
  {
    assert Get(f, JobTitle) == Get(g, JobTitle);
    assert Get(f, CompanyName) == Get(g, CompanyName);
    assert Get(f, Location) == Get(g, Location);
    assert Get(f, JobType) == Get(g, JobType);
    assert Get(f, SalaryRange) == Get(g, SalaryRange);
    assert Get(f, JobDescription) == Get(g, JobDescription);
    assert Get(f, Requirements) == Get(g, Requirements);
    assert Get(f, Responsibilities) == Get(g, Responsibilities);
    assert Get(f, ApplicationDeadline) == Get(g, ApplicationDeadline);
  }

  /** Setting a field to the value it already has changes nothing. */
  lemma WithFieldSame(f: JobFields, n: FieldName)
    ensures WithField(f, n, Get(f, n)) == f
  {
    FieldsExtensional(WithField(f, n, Get(f, n)), f);
  }
}

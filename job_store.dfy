/** The server: the `jobs` table as an id-to-record map with an AUTO_INCREMENT
    counter, and the five routes over it. A statement that fails without taking
    effect for a reason the table does not decide (a connection lost before it
    ran, a refusal by another column) cannot be predicted from the table, so each
    route takes it as a `fault` flag; the one failure the model does predict is
    the `job_type` ENUM column refusing a value. The column sets no collation, so
    the default case-insensitive one applies: a value that differs from a member
    only in letter case is accepted and stored as that member. A value that
    matches no member but is one of "1" to "4" is read as the member's 1-based
    index. */
module JobStore {
  import opened Results
  import opened Posting
  import Text
  import ListQuery

  /** The table: stored rows by id, and the id the next insert receives. */
  datatype Table = Table(rows: map<nat, JobFields>, nextId: nat)

  /** The freshly created table. */
  const EmptyTable := Table(map[], 1)

  /** Ids start at 1 and stay below the counter; every stored type is an enum value. */
  predicate Consistent(t: Table)
  {
    1 <= t.nextId && forall id :: id in t.rows ==> 1 <= id < t.nextId && t.rows[id].jobType in JobTypes
  }

  /** Equality under the column's default collation, as far as the model
      follows it: letter case is ignored, character by character. */
  predicate SameIgnoringCase(a: string, b: string)
  {
    |a| == |b| && forall k :: 0 <= k < |a| ==> Text.LowerChar(a[k]) == Text.LowerChar(b[k])
  }

  /** The texts of the four members' 1-based indexes, in declaration order. */
  const IndexTexts: seq<string> := ["1", "2", "3", "4"]

  /** A quoted number read as a 1-based index into the members. */
  function ByIndex(v: string): (r: Option<string>)
    ensures r.Some? <==> v in IndexTexts
    ensures forall k :: 0 <= k < |IndexTexts| && v == IndexTexts[k] ==> r == Some(JobTypes[k])
  {
    if v == "1" then Some("Full-time")
    else if v == "2" then Some("Part-time")
    else if v == "3" then Some("Contract")
    else if v == "4" then Some("Internship")
    else None
  }

  /** The ENUM member a `job_type` value is stored as, if any: the member equal
      to it once letter case is ignored, and failing that the member whose index
      it spells. */
  function EnumMember(v: string): (r: Option<string>)
    ensures r.Some? ==> r.value in JobTypes
    ensures r.Some? ==> SameIgnoringCase(v, r.value) || r == ByIndex(v)
    ensures (forall m :: m in JobTypes ==> !SameIgnoringCase(v, m)) ==> r == ByIndex(v)
    ensures r.None? <==> (forall m :: m in JobTypes ==> !SameIgnoringCase(v, m)) && v !in IndexTexts
  {
    if SameIgnoringCase(v, "Full-time") then Some("Full-time")
    else if SameIgnoringCase(v, "Part-time") then Some("Part-time")
    else if SameIgnoringCase(v, "Contract") then Some("Contract")
    else if SameIgnoringCase(v, "Internship") then Some("Internship")
    else ByIndex(v)
  }

  /** What the ENUM column accepts. */
  predicate Storable(f: JobFields)
  {
    EnumMember(f.jobType).Some?
  }

  /** The record as the table keeps it: the type replaced by its ENUM member,
      every other field as submitted. */
  function Stored(f: JobFields): (r: JobFields)
    requires Storable(f)
    ensures r.jobType in JobTypes && EnumMember(f.jobType) == Some(r.jobType)
    ensures f.jobType !in IndexTexts ==> SameIgnoringCase(f.jobType, r.jobType)
    ensures r == f.(jobType := r.jobType)
  {
    f.(jobType := EnumMember(f.jobType).value)
  }

  /** A response: HTTP status and JSON body. */
  datatype Body =
    | ErrorBody(error: string)
    | JobBody(job: Job)
    | JobsBody(jobs: seq<Job>)
    | CreatedBody(message: string, jobId: nat)
    | MessageBody(message: string)

  datatype Response = Response(status: nat, body: Body)

  const ServerFailure := Response(500, ErrorBody("Internal server error"))
  const NotFound := Response(404, ErrorBody("Job not found"))
  const Created := "Job created successfully"
  const Updated := "Job updated successfully"
  const Deleted := "Job deleted successfully"

  /** INSERT: the new row takes the counter's id and the counter moves on. */
  function Insert(t: Table, f: JobFields): Table
  {
    Table(t.rows[t.nextId := f], t.nextId + 1)
  }

  /** `SELECT * FROM jobs WHERE id = ?`: zero or one row, since `id` is the key. */
  function SelectById(t: Table, id: nat): (r: seq<Job>)
    ensures |r| <= 1
    ensures |r| == 0 <==> id !in t.rows
    ensures r != [] ==> r[0] == Job(id, t.rows[id])
  {
    if id in t.rows then [Job(id, t.rows[id])] else []
  }

  /** GET /api/jobs/:id. */
  function GetOutcome(t: Table, id: nat, fault: bool): Response
  {
    var results := SelectById(t, id);
    if fault then ServerFailure
    else if |results| == 0 then NotFound
    else Response(200, JobBody(results[0]))
  }

  /** POST /api/jobs: the table after the insert, and the response. */
  function CreateOutcome(t: Table, f: JobFields, fault: bool): (Table, Response)
  {
    if fault || !Storable(f) then (t, ServerFailure)
    else (Insert(t, Stored(f)), Response(201, CreatedBody(Created, t.nextId)))
  }

  /** PUT /api/jobs/:id: `affectedRows` is the number of rows the id matches. */
  function UpdateOutcome(t: Table, id: nat, f: JobFields, fault: bool): (Table, Response)
  {
    var affectedRows := |SelectById(t, id)|;
    if fault || (affectedRows > 0 && !Storable(f)) then (t, ServerFailure)
    else if affectedRows == 0 then (t, NotFound)
    else (Table(t.rows[id := Stored(f)], t.nextId), Response(200, MessageBody(Updated)))
  }

  /** DELETE /api/jobs/:id. */
  function DeleteOutcome(t: Table, id: nat, fault: bool): (Table, Response)
  {
    var affectedRows := |SelectById(t, id)|;
    if fault then (t, ServerFailure)
    else if affectedRows == 0 then (t, NotFound)
    else (Table(t.rows - {id}, t.nextId), Response(200, MessageBody(Deleted)))
  }

  /** The four sample rows, in insertion order. */
  const SampleJobs: seq<JobFields> := [AmazonSample, TeslaSample, MetaSample, GoogleSample]

  const AmazonSample := JobFields("Full Stack Developer", "Amazon", "Chennai", "Full-time", "₹50k - ₹80k",
    "A user-friendly interface lets you browse stunning photos and videos", "React, Node.js, MySQL",
    "Develop web applications", "2024-08-30")
  const TeslaSample := JobFields("Node Js Developer", "Tesla", "Bangalore", "Full-time", "₹60k - ₹90k",
    "Backend development with Node.js", "Node.js, Express, MongoDB", "Build APIs and services", "2024-08-25")
  const MetaSample := JobFields("UX/UI Designer", "Meta", "Mumbai", "Part-time", "₹40k - ₹70k",
    "Design user interfaces and experiences", "Figma, Adobe XD, Sketch", "Create wireframes and prototypes", "2024-09-15")
  const GoogleSample := JobFields("Full Stack Developer", "Google", "Hyderabad", "Contract", "₹70k - ₹100k",
    "Full stack web development", "React, Python, PostgreSQL", "End-to-end development", "2024-09-01")

  /** One multi-row INSERT: the rows take consecutive ids in order. */
  function InsertAll(t: Table, fs: seq<JobFields>): Table
    decreases |fs|
  {
    if fs == [] then t else InsertAll(Insert(t, fs[0]), fs[1..])
  }

  /** Start-up seeding: count the rows; only an empty table gets the samples.
      A failed count or a failed insert leaves the table as it was. */
  function SeedOutcome(t: Table, countFault: bool, insertFault: bool): Table
  {
    if countFault || |t.rows| != 0 || insertFault then t else InsertAll(t, SampleJobs)
  }

  class JobDatabase {
    var rows: map<nat, JobFields>
    var nextId: nat

    ghost predicate Valid()
      reads this
    {
      Consistent(Value())
    }

    /** The table as a value. */
    function Value(): Table
      reads this
    {
      Table(rows, nextId)
    }

    /** `CREATE TABLE IF NOT EXISTS` on a new database: no rows, counter at 1. */
    constructor ()
      ensures Valid() && Value() == EmptyTable
    {
      rows := map[];
      nextId := 1;
    }

    /** GET /api/jobs/:id: 500 on a database fault, 404 when no row has the id,
        else 200 with the first (only) row. */
    method GetJob(id: nat, fault: bool) returns (resp: Response)
      requires Valid()
      ensures resp == GetOutcome(Value(), id, fault)
      ensures !fault && id in rows ==> resp == Response(200, JobBody(Job(id, rows[id])))
      ensures !fault && id !in rows ==> resp == NotFound
      ensures fault ==> resp == ServerFailure
    {
      var results := SelectById(Value(), id);
      if fault {
        resp := ServerFailure;
      } else if |results| == 0 {
        resp := NotFound;
      } else {
        resp := Response(200, JobBody(results[0]));
      }
    }

    /** POST /api/jobs. */
    method CreateJob(f: JobFields, fault: bool) returns (resp: Response)
      requires Valid()
      modifies this
      ensures Valid()
      ensures (Value(), resp) == CreateOutcome(old(Value()), f, fault)
    {
      if fault || !Storable(f) {
        resp := ServerFailure;
      } else {
        var insertId := nextId;
        rows := rows[insertId := Stored(f)];
        nextId := nextId + 1;
        resp := Response(201, CreatedBody(Created, insertId));
      }
    }

    /** PUT /api/jobs/:id. */
    method UpdateJob(id: nat, f: JobFields, fault: bool) returns (resp: Response)
      requires Valid()
      modifies this
      ensures Valid()
      ensures (Value(), resp) == UpdateOutcome(old(Value()), id, f, fault)
    {
      var affectedRows := if id in rows then 1 else 0;
      if fault || (affectedRows > 0 && !Storable(f)) {
        resp := ServerFailure;
      } else if affectedRows == 0 {
        resp := NotFound;
      } else {
        rows := rows[id := Stored(f)];
        resp := Response(200, MessageBody(Updated));
      }
    }

    /** DELETE /api/jobs/:id. */
    method DeleteJob(id: nat, fault: bool) returns (resp: Response)
      requires Valid()
      modifies this
      ensures Valid()
      ensures (Value(), resp) == DeleteOutcome(old(Value()), id, fault)
    {
      var affectedRows := if id in rows then 1 else 0;
      if fault {
        resp := ServerFailure;
      } else if affectedRows == 0 {
        resp := NotFound;
      } else {
        rows := rows - {id};
        resp := Response(200, MessageBody(Deleted));
      }
    }

    /** Start-up seeding. */
    method SeedIfEmpty(countFault: bool, insertFault: bool)
      requires Valid()
      modifies this
      ensures Valid()
      ensures Value() == SeedOutcome(old(Value()), countFault, insertFault)
    {
      if !countFault {
        var count := |rows|;
        if count == 0 && !insertFault {
          var seeded := InsertAll(Value(), SampleJobs);
          SampleJobsStorable();
          InsertAllConsistent(Value(), SampleJobs);
          rows, nextId := seeded.rows, seeded.nextId;
        }
      }
    }
  }

  /** GET /api/jobs: the query and parameters it sends, and the response for
      what the database returned (`None` for a query error). */
  method ListJobs(q: ListQuery.ListRequest, results: Option<seq<Job>>) returns (query: string, params: seq<string>, resp: Response)
    ensures query == ListQuery.QueryText(q) && params == ListQuery.QueryParams(q)
    ensures results.None? ==> resp == ServerFailure
    ensures results.Some? ==> resp == Response(200, JobsBody(results.value))
  {
    query, params := ListQuery.BuildListQuery(q);
    if results.None? {
      resp := ServerFailure;
    } else {
      resp := Response(200, JobsBody(results.value));
    }
  }

  /** Every sample row's type is an enum value (they use three of the four;
      none is an internship). */
  lemma SampleJobsStorable()
    ensures forall k :: 0 <= k < |SampleJobs| ==> SampleJobs[k].jobType in JobTypes
    ensures forall k :: 0 <= k < |SampleJobs| ==> SampleJobs[k].jobType != "Internship"
  {
  }

  /** A multi-row insert gives the k-th record the id `nextId + k` and keeps every
      earlier row. */
  lemma {:induction false} InsertAllSpec(t: Table, fs: seq<JobFields>)
    ensures InsertAll(t, fs).nextId == t.nextId + |fs|
    ensures forall id :: id in InsertAll(t, fs).rows <==> id in t.rows || t.nextId <= id < t.nextId + |fs|
    ensures forall k :: 0 <= k < |fs| ==> InsertAll(t, fs).rows[t.nextId + k] == fs[k]
    ensures forall id :: id in t.rows && id < t.nextId ==> InsertAll(t, fs).rows[id] == t.rows[id]
    decreases |fs|
  {
    if fs != [] {
      InsertAllSpec(Insert(t, fs[0]), fs[1..]);
      forall k | 0 <= k < |fs| ensures InsertAll(t, fs).rows[t.nextId + k] == fs[k] {
        if k > 0 { assert fs[1..][k - 1] == fs[k]; }
      }
    }
  }

  /** Inserting storable records keeps the table consistent. */
  lemma {:induction false} InsertAllConsistent(t: Table, fs: seq<JobFields>)
    requires Consistent(t) && forall k :: 0 <= k < |fs| ==> fs[k].jobType in JobTypes
    ensures Consistent(InsertAll(t, fs))
    decreases |fs|
  {
    if fs != [] {
      assert fs[0].jobType in JobTypes;
      assert forall k :: 0 <= k < |fs[1..]| ==> fs[1..][k].jobType in JobTypes by {
        forall k | 0 <= k < |fs[1..]| ensures fs[1..][k].jobType in JobTypes { assert fs[1..][k] == fs[k + 1]; }
      }
      InsertAllConsistent(Insert(t, fs[0]), fs[1..]);
    }
  }

  /** On a consistent table every inserted record adds one row. */
  lemma {:induction false} InsertAllCount(t: Table, fs: seq<JobFields>)
    requires forall id :: id in t.rows ==> id < t.nextId
    ensures |InsertAll(t, fs).rows| == |t.rows| + |fs|
    decreases |fs|
  {
    if fs != [] {
      assert t.nextId !in t.rows;
      InsertAllCount(Insert(t, fs[0]), fs[1..]);
    }
  }

  /** Seeding keeps the table consistent and fills only an empty table, with the
      four samples under consecutive fresh ids. */
  lemma SeedSpec(t: Table)
    requires Consistent(t)
    ensures Consistent(SeedOutcome(t, false, false))
    ensures |t.rows| != 0 ==> SeedOutcome(t, false, false) == t
    ensures |t.rows| == 0 ==>
              SeedOutcome(t, false, false) == Table(map[t.nextId := AmazonSample, t.nextId + 1 := TeslaSample,
                                                        t.nextId + 2 := MetaSample, t.nextId + 3 := GoogleSample], t.nextId + 4)
  {
    if |t.rows| == 0 {
      SampleJobsStorable();
      InsertAllConsistent(t, SampleJobs);
      InsertFour(t, AmazonSample, TeslaSample, MetaSample, GoogleSample);
      FourInsertsOnEmpty(t, AmazonSample, TeslaSample, MetaSample, GoogleSample);
    }
  }

  /** Four inserts into an empty table leave exactly those four rows. */
  lemma FourInsertsOnEmpty(t: Table, a: JobFields, b: JobFields, c: JobFields, d: JobFields)
    requires |t.rows| == 0
    ensures Insert(Insert(Insert(Insert(t, a), b), c), d)
            == Table(map[t.nextId := a, t.nextId + 1 := b, t.nextId + 2 := c, t.nextId + 3 := d], t.nextId + 4)
  {
    assert t.rows == map[];
  }

  /** A four-row insert spelled out, one `Insert` per record. */
  lemma InsertFour(t: Table, a: JobFields, b: JobFields, c: JobFields, d: JobFields)
    ensures InsertAll(t, [a, b, c, d]) == Insert(Insert(Insert(Insert(t, a), b), c), d)
  {
    assert [a, b, c, d] == [a] + [b, c, d];
    InsertAllCons(t, a, [b, c, d]);
    InsertThree(Insert(t, a), b, c, d);
  }

  lemma InsertThree(t: Table, b: JobFields, c: JobFields, d: JobFields)
    ensures InsertAll(t, [b, c, d]) == Insert(Insert(Insert(t, b), c), d)
  {
    assert [b, c, d] == [b] + [c, d] && [c, d] == [c] + [d] && [d] == [d] + [];
    InsertAllCons(t, b, [c, d]);
    InsertAllCons(Insert(t, b), c, [d]);
    InsertAllCons(Insert(Insert(t, b), c), d, []);
  }

  lemma InsertAllCons(t: Table, f: JobFields, fs: seq<JobFields>)
    ensures InsertAll(t, [f] + fs) == InsertAll(Insert(t, f), fs)
  {
    assert ([f] + fs)[1..] == fs;
  }

  /** Seeding a second time changes nothing. */
  lemma SeedOnce(t: Table)
    requires Consistent(t)
    ensures SeedOutcome(SeedOutcome(t, false, false), false, false) == SeedOutcome(t, false, false)
  {
    SeedSpec(t);
  }

  /** A created posting is read back by its returned id with exactly the submitted
      fields; no earlier row is disturbed and the id was never used before. */
  lemma CreateThenGet(t: Table, f: JobFields)
    requires Consistent(t) && Storable(f)
    ensures var (t2, r) := CreateOutcome(t, f, false);
      && r == Response(201, CreatedBody(Created, t.nextId))
      && t.nextId !in t.rows
      && GetOutcome(t2, t.nextId, false) == Response(200, JobBody(Job(t.nextId, Stored(f))))
      && (forall id :: id in t.rows ==> GetOutcome(t2, id, false) == GetOutcome(t, id, false))
      && Consistent(t2)
    ensures f.jobType in JobTypes ==> Stored(f) == f
  {
    if f.jobType in JobTypes {
      EnumMemberIgnoresCase(f.jobType, f.jobType);
    }
  }

  /** Every route keeps the table consistent and never moves the counter back,
      so an id, once handed out, is never handed out again. */
  lemma RoutesPreserveConsistency(t: Table, id: nat, f: JobFields, fault: bool)
    requires Consistent(t)
    ensures Consistent(CreateOutcome(t, f, fault).0) && CreateOutcome(t, f, fault).0.nextId >= t.nextId
    ensures Consistent(UpdateOutcome(t, id, f, fault).0) && UpdateOutcome(t, id, f, fault).0.nextId == t.nextId
    ensures Consistent(DeleteOutcome(t, id, fault).0) && DeleteOutcome(t, id, fault).0.nextId == t.nextId
    ensures CreateOutcome(t, f, fault).1.status == 201 ==> CreateOutcome(t, f, fault).1.body.jobId !in t.rows
  {
  }

  /** A 404 or a 500 leaves the table as it was; a success is reported exactly
      when the id exists (and, for create and update, the type is storable). */
  lemma FailuresChangeNothing(t: Table, id: nat, f: JobFields, fault: bool)
    ensures CreateOutcome(t, f, fault).1.status != 201 ==> CreateOutcome(t, f, fault).0 == t
    ensures UpdateOutcome(t, id, f, fault).1.status != 200 ==> UpdateOutcome(t, id, f, fault).0 == t
    ensures DeleteOutcome(t, id, fault).1.status != 200 ==> DeleteOutcome(t, id, fault).0 == t
    ensures DeleteOutcome(t, id, fault).1.status == 404 <==> !fault && id !in t.rows
    ensures UpdateOutcome(t, id, f, fault).1.status == 404 <==> !fault && id !in t.rows
    ensures DeleteOutcome(t, id, fault).1.status == 200 <==> !fault && id in t.rows
  {
  }

  /** Delete removes exactly that id: a later get answers 404 and every other row
      is still there. */
  lemma DeleteThenGet(t: Table, id: nat)
    requires id in t.rows
    ensures var (t2, r) := DeleteOutcome(t, id, false);
      && r == Response(200, MessageBody(Deleted))
      && GetOutcome(t2, id, false) == NotFound
      && (forall other :: other != id ==> GetOutcome(t2, other, false) == GetOutcome(t, other, false))
  {
  }

  /** Update replaces the nine fields of exactly that id; updating a row with its
      own values answers 200 and leaves the table unchanged. */
  lemma UpdateThenGet(t: Table, id: nat, f: JobFields)
    requires Consistent(t) && id in t.rows && Storable(f)
    ensures var (t2, r) := UpdateOutcome(t, id, f, false);
      && r == Response(200, MessageBody(Updated))
      && GetOutcome(t2, id, false) == Response(200, JobBody(Job(id, Stored(f))))
      && (forall other :: other != id ==> GetOutcome(t2, other, false) == GetOutcome(t, other, false))
    ensures f.jobType in JobTypes ==> Stored(f) == f
    ensures UpdateOutcome(t, id, t.rows[id], false) == (t, Response(200, MessageBody(Updated)))
  {
    if f.jobType in JobTypes {
      EnumMemberIgnoresCase(f.jobType, f.jobType);
    }
    EnumMemberIgnoresCase(t.rows[id].jobType, t.rows[id].jobType);
    assert t.rows[id := t.rows[id]] == t.rows;
  }

  /** Ignoring letter case character by character is comparing the lower-cased texts. */
  lemma SameIgnoringCaseSpec(a: string, b: string)
    ensures SameIgnoringCase(a, b) <==> Text.Lower(a) == Text.Lower(b)
  {
    if Text.Lower(a) == Text.Lower(b) {
      forall k | 0 <= k < |a| ensures Text.LowerChar(a[k]) == Text.LowerChar(b[k]) {
        assert Text.Lower(a)[k] == Text.Lower(b)[k];
      }
    }
  }

  /** Two members that are equal once letter case is ignored are the same
      member: the four begin with four different letters. */
  lemma MembersDistinctIgnoringCase(a: string, b: string)
    requires a in JobTypes && b in JobTypes && SameIgnoringCase(a, b)
    ensures a == b
  {
    assert Text.LowerChar(a[0]) == Text.LowerChar(b[0]);
  }

  /** A value equal to member `m` once letter case is ignored is stored as `m`;
      in particular every member is stored as itself. */
  lemma EnumMemberIgnoresCase(v: string, m: string)
    requires m in JobTypes && SameIgnoringCase(v, m)
    ensures EnumMember(v) == Some(m)
  {
    assert EnumMember(v).Some?;
    MembersDistinctIgnoringCase(EnumMember(v).value, m);
  }

  /** Create and update accept a type that matches a member only up to letter
      case, and store the member in its declared spelling. */
  lemma CaseVariantAccepted(t: Table, id: nat, f: JobFields, m: string)
    requires m in JobTypes && Text.Lower(f.jobType) == Text.Lower(m)
    ensures CreateOutcome(t, f, false) == (Insert(t, f.(jobType := m)), Response(201, CreatedBody(Created, t.nextId)))
    ensures id in t.rows ==>
              UpdateOutcome(t, id, f, false) == (Table(t.rows[id := f.(jobType := m)], t.nextId), Response(200, MessageBody(Updated)))
  {
    SameIgnoringCaseSpec(f.jobType, m);
    EnumMemberIgnoresCase(f.jobType, m);
  }

  /** `"full-time"` is stored as `"Full-time"`; `"Freelance"` matches no member. */
  lemma LowerCaseFullTime()
    ensures EnumMember("full-time") == Some("Full-time")
    ensures EnumMember("Freelance") == None
  {
    assert "full-time" == ['f'] + "ull-time" && "Full-time" == ['F'] + "ull-time";
    EnumMemberIgnoresCase("full-time", "Full-time");
    assert Text.LowerChar("Freelance"[1]) != Text.LowerChar("Full-time"[1]);
    assert Text.LowerChar("Freelance"[0]) != Text.LowerChar("Part-time"[0]);
  }

  /** A text that no member equals even with letter case ignored, but that spells
      index k + 1, is stored as the k-th member: create answers 201 and update of
      an existing id answers 200. */
  lemma IndexAccepted(t: Table, id: nat, f: JobFields, k: nat)
    requires k < |IndexTexts| && f.jobType == IndexTexts[k]
    ensures CreateOutcome(t, f, false) == (Insert(t, f.(jobType := JobTypes[k])), Response(201, CreatedBody(Created, t.nextId)))
    ensures id in t.rows ==>
              UpdateOutcome(t, id, f, false) == (Table(t.rows[id := f.(jobType := JobTypes[k])], t.nextId), Response(200, MessageBody(Updated)))
  {
    ShortTextMatchesNoMember(f.jobType);
    assert EnumMember(f.jobType) == Some(JobTypes[k]);
    assert Stored(f) == f.(jobType := JobTypes[k]);
  }

  /** No member is a single character, so a one-character text equals none of
      them even with letter case ignored. */
  lemma ShortTextMatchesNoMember(v: string)
    requires |v| == 1
    ensures forall m :: m in JobTypes ==> !SameIgnoringCase(v, m)
  {
    assert |"Full-time"| == 9 && |"Part-time"| == 9 && |"Contract"| == 8 && |"Internship"| == 10;
  }

  /** `"2"` is stored as `"Part-time"`; `"0"` and `"5"` are refused. */
  lemma IndexExamples()
    ensures EnumMember("2") == Some("Part-time")
    ensures EnumMember("0") == None && EnumMember("5") == None
  {
    ShortTextMatchesNoMember("2");
    ShortTextMatchesNoMember("0");
    ShortTextMatchesNoMember("5");
  }
}

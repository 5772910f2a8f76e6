/**
 * The job board's domain vocabulary: the four closed enumerations, the
 * stored job record, the submission payload, the listing filters and the
 * three label tables.
 */
module Types {
  import opened Wrappers

  datatype JobStatus = Pending | Approved | Rejected
  datatype Department = BD | Backend | Frontend | SmartContract
  datatype LocationType = Remote | Onsite | Hybrid
  datatype JobType = FullTime | PartTime | Contract

  const AllStatuses: set<JobStatus> := {Pending, Approved, Rejected}
  const AllDepartments: set<Department> := {BD, Backend, Frontend, SmartContract}
  const AllLocationTypes: set<LocationType> := {Remote, Onsite, Hybrid}
  const AllJobTypes: set<JobType> := {FullTime, PartTime, Contract}

  /** Each enumeration lists every value, and has three, four, three and three values. */
  lemma EnumerationsComplete()
    ensures forall s: JobStatus :: s in AllStatuses
    ensures forall d: Department :: d in AllDepartments
    ensures forall l: LocationType :: l in AllLocationTypes
    ensures forall t: JobType :: t in AllJobTypes
    ensures |AllStatuses| == 3 && |AllDepartments| == 4
    ensures |AllLocationTypes| == 3 && |AllJobTypes| == 3
  {
    forall s: JobStatus ensures s in AllStatuses {
      match s
      case Pending => case Approved => case Rejected =>
    }
    forall d: Department ensures d in AllDepartments {
      match d
      case BD => case Backend => case Frontend => case SmartContract =>
    }
    forall l: LocationType ensures l in AllLocationTypes {
      match l
      case Remote => case Onsite => case Hybrid =>
    }
    forall t: JobType ensures t in AllJobTypes {
      match t
      case FullTime => case PartTime => case Contract =>
    }
  }

  // The string literals the TypeScript types are made of; they are what
  // travels in JSON bodies and what the select inputs carry.

  function StatusName(s: JobStatus): string {
    match s
    case Pending => "PENDING"
    case Approved => "APPROVED"
    case Rejected => "REJECTED"
  }

  function DepartmentName(d: Department): string {
    match d
    case BD => "BD"
    case Backend => "BACKEND"
    case Frontend => "FRONTEND"
    case SmartContract => "SMART_CONTRACT"
  }

  function LocationTypeName(l: LocationType): string {
    match l
    case Remote => "REMOTE"
    case Onsite => "ONSITE"
    case Hybrid => "HYBRID"
  }

  function JobTypeName(t: JobType): string {
    match t
    case FullTime => "FULL_TIME"
    case PartTime => "PART_TIME"
    case Contract => "CONTRACT"
  }

  /** Membership in a string-literal union: the literal's value, if `s` is one. */
  function ParseDepartment(s: string): (r: Option<Department>)
    ensures r.Some? ==> DepartmentName(r.value) == s
    ensures forall d :: DepartmentName(d) == s ==> r == Some(d)
  {
    if s == "BD" then Some(BD)
    else if s == "BACKEND" then Some(Backend)
    else if s == "FRONTEND" then Some(Frontend)
    else if s == "SMART_CONTRACT" then Some(SmartContract)
    else None
  }

  function ParseLocationType(s: string): (r: Option<LocationType>)
    ensures r.Some? ==> LocationTypeName(r.value) == s
    ensures forall l :: LocationTypeName(l) == s ==> r == Some(l)
  {
    if s == "REMOTE" then Some(Remote)
    else if s == "ONSITE" then Some(Onsite)
    else if s == "HYBRID" then Some(Hybrid)
    else None
  }

  function ParseJobType(s: string): (r: Option<JobType>)
    ensures r.Some? ==> JobTypeName(r.value) == s
    ensures forall t :: JobTypeName(t) == s ==> r == Some(t)
  {
    if s == "FULL_TIME" then Some(FullTime)
    else if s == "PART_TIME" then Some(PartTime)
    else if s == "CONTRACT" then Some(Contract)
    else None
  }

  /**
   * Every literal is a non-empty string, so a present enum value is truthy:
   * the `!body[field]` test and the `if (filters.department)` tests see an
   * enum value exactly when one is there.
   */
  lemma NamesAreTruthy()
    ensures forall s :: StatusName(s) != ""
    ensures forall d :: DepartmentName(d) != ""
    ensures forall l :: LocationTypeName(l) != ""
    ensures forall t :: JobTypeName(t) != ""
  {
  }

  type JobId = nat

  /**
   * A stored job. Exactly companyWebsite, location and salaryRange may be
   * null; createdAt and updatedAt are instants in milliseconds.
   */
  datatype Job = Job(
    id: JobId,
    createdAt: int,
    updatedAt: int,
    status: JobStatus,
    companyName: string,
    companyWebsite: Option<string>,
    companyContact: string,
    companyDescription: string,
    jobTitle: string,
    department: Department,
    locationType: LocationType,
    location: Option<string>,
    jobType: JobType,
    salaryRange: Option<string>,
    jobDescription: string)

  /** The keys of a submission payload, named as in the JSON body. */
  datatype Field =
    | companyName | companyWebsite | companyContact | companyDescription
    | jobTitle | department | locationType | location | jobType
    | salaryRange | jobDescription

  /** A key that the submission interface declares without `?`. */
  predicate IsRequiredKey(f: Field) {
    !(f == companyWebsite || f == location || f == salaryRange)
  }

  /** The required keys, in the order in which the server checks them. */
  const RequiredFields: seq<Field> :=
    [companyName, companyContact, companyDescription, jobTitle,
     department, locationType, jobType, jobDescription]

  /**
   * The server's list of required keys is exactly the set of keys the
   * submission interface declares as non-optional, each listed once.
   */
  lemma RequiredFieldsAreTheRequiredKeys()
    ensures forall f :: f in RequiredFields <==> IsRequiredKey(f)
    ensures |RequiredFields| == 8
    ensures forall i, j :: 0 <= i < j < |RequiredFields| ==> RequiredFields[i] != RequiredFields[j]
  {
  }

  /** The listing filters; every key is optional, so `{}` is a filter. */
  datatype JobFilters = JobFilters(
    department: Option<Department>,
    locationType: Option<LocationType>,
    jobType: Option<JobType>)

  const NoFilters := JobFilters(None, None, None)

  const DepartmentLabels: map<Department, string> := map[
    BD := "Business Development",
    Backend := "Backend Development",
    Frontend := "Frontend Development",
    SmartContract := "Smart Contract Development"]

  const LocationTypeLabels: map<LocationType, string> := map[
    Remote := "Remote",
    Onsite := "On-site",
    Hybrid := "Hybrid"]

  const JobTypeLabels: map<JobType, string> := map[
    FullTime := "Full-time",
    PartTime := "Part-time",
    Contract := "Contract"]

  /** Each label table is a total record over its enumeration, with distinct labels. */
  lemma LabelsTotal()
    ensures DepartmentLabels.Keys == AllDepartments
    ensures LocationTypeLabels.Keys == AllLocationTypes
    ensures JobTypeLabels.Keys == AllJobTypes
    ensures forall d, e :: d in DepartmentLabels && e in DepartmentLabels && d != e ==>
      DepartmentLabels[d] != DepartmentLabels[e]
    ensures forall l, m :: l in LocationTypeLabels && m in LocationTypeLabels && l != m ==>
      LocationTypeLabels[l] != LocationTypeLabels[m]
    ensures forall t, u :: t in JobTypeLabels && u in JobTypeLabels && t != u ==>
      JobTypeLabels[t] != JobTypeLabels[u]
  {
    EnumerationsComplete();
  }
}

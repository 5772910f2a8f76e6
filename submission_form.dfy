/**
 * The job submission form: the client-side schema the values must pass
 * before they are sent, and the `onSubmit` handler's state changes.
 */
module SubmissionForm {
  import opened Wrappers
  import opened Types
  import opened JobsRoute

  /**
   * What the form's inputs hold. Text inputs hold strings; the three
   * selects hold '' (the placeholder option) or an enum literal; the keys
   * the schema marks optional may be absent.
   */
  datatype FormValues = FormValues(
    companyName: string,
    companyWebsite: Option<string>,
    companyContact: string,
    companyDescription: string,
    jobTitle: string,
    department: string,
    locationType: string,
    location: Option<string>,
    jobType: string,
    salaryRange: Option<string>,
    jobDescription: string)

  /** The kinds of check the schema applies to one key. */
  datatype Rule =
    | MinLength(min: nat)   // z.string().min(min)
    | DepartmentEnum        // z.enum(['BD', 'BACKEND', 'FRONTEND', 'SMART_CONTRACT'])
    | LocationTypeEnum      // z.enum(['REMOTE', 'ONSITE', 'HYBRID'])
    | JobTypeEnum           // z.enum(['FULL_TIME', 'PART_TIME', 'CONTRACT'])
    | UrlOrEmpty            // z.string().url().optional().or(z.literal(''))
    | AnyText               // z.string().optional()

  /** `jobSubmissionSchema`: the rule for each key. */
  function RuleOf(f: Field): Rule {
    match f
    case companyName => MinLength(2)
    case companyWebsite => UrlOrEmpty
    case companyContact => MinLength(3)
    case companyDescription => MinLength(10)
    case jobTitle => MinLength(2)
    case department => DepartmentEnum
    case locationType => LocationTypeEnum
    case location => AnyText
    case jobType => JobTypeEnum
    case salaryRange => AnyText
    case jobDescription => MinLength(50)
  }

  /** The schema's keys: every key of a submission. */
  const SchemaKeys: set<Field> :=
    {companyName, companyWebsite, companyContact, companyDescription, jobTitle,
     department, locationType, location, jobType, salaryRange, jobDescription}

  /** The value the form holds for a key. */
  function ValueOf(d: FormValues, f: Field): Option<string> {
    match f
    case companyName => Some(d.companyName)
    case companyWebsite => d.companyWebsite
    case companyContact => Some(d.companyContact)
    case companyDescription => Some(d.companyDescription)
    case jobTitle => Some(d.jobTitle)
    case department => Some(d.department)
    case locationType => Some(d.locationType)
    case location => d.location
    case jobType => Some(d.jobType)
    case salaryRange => d.salaryRange
    case jobDescription => Some(d.jobDescription)
  }

  /** Whether a value passes a rule. Whether a string is a URL is the parameter `isUrl`. */
  predicate Passes(rule: Rule, v: Option<string>, isUrl: string -> bool) {
    match rule
    case MinLength(n) => v.Some? && |v.value| >= n
    case DepartmentEnum => v.Some? && ParseDepartment(v.value).Some?
    case LocationTypeEnum => v.Some? && ParseLocationType(v.value).Some?
    case JobTypeEnum => v.Some? && ParseJobType(v.value).Some?
    case UrlOrEmpty => v.None? || v.value == "" || isUrl(v.value)
    case AnyText => true
  }

  /**
   * The keys whose rule the values fail: the keys of react-hook-form's
   * `errors` object. The form calls `onSubmit` only when it is empty.
   */
  function Errors(d: FormValues, isUrl: string -> bool): (r: set<Field>)
    ensures r <= SchemaKeys
    ensures forall f :: f in r <==> f in SchemaKeys && !Passes(RuleOf(f), ValueOf(d, f), isUrl)
  {
    set f | f in SchemaKeys && !Passes(RuleOf(f), ValueOf(d, f), isUrl)
  }

  /** The schema's requirements, stated key by key. */
  predicate Acceptable(d: FormValues, isUrl: string -> bool) {
    && |d.companyName| >= 2
    && (d.companyWebsite.None? || d.companyWebsite.value == "" || isUrl(d.companyWebsite.value))
    && |d.companyContact| >= 3
    && |d.companyDescription| >= 10
    && |d.jobTitle| >= 2
    && ParseDepartment(d.department).Some?
    && ParseLocationType(d.locationType).Some?
    && ParseJobType(d.jobType).Some?
    && |d.jobDescription| >= 50
  }

  /** The schema reports no error exactly when the values meet every requirement. */
  lemma NoErrorsIffAcceptable(d: FormValues, isUrl: string -> bool)
    ensures Errors(d, isUrl) == {} <==> Acceptable(d, isUrl)
  {
    if Errors(d, isUrl) == {} {
      assert companyName !in Errors(d, isUrl);
      assert companyWebsite !in Errors(d, isUrl);
      assert companyContact !in Errors(d, isUrl);
      assert companyDescription !in Errors(d, isUrl);
      assert jobTitle !in Errors(d, isUrl);
      assert department !in Errors(d, isUrl);
      assert locationType !in Errors(d, isUrl);
      assert jobType !in Errors(d, isUrl);
      assert jobDescription !in Errors(d, isUrl);
    } else {
      var f :| f in Errors(d, isUrl);
    }
  }

  /** location and salaryRange never carry an error, whatever they hold. */
  lemma FreeTextNeverReported(d: FormValues, isUrl: string -> bool)
    ensures location !in Errors(d, isUrl) && salaryRange !in Errors(d, isUrl)
  {
  }

  /** The JSON body `onSubmit` posts: the parsed values, no status. */
  function RequestBody(d: FormValues): (r: SubmissionBody)
    ensures r.status == None
    ensures r.department.Some? ==> DepartmentName(r.department.value) == d.department
    ensures r.locationType.Some? ==> LocationTypeName(r.locationType.value) == d.locationType
    ensures r.jobType.Some? ==> JobTypeName(r.jobType.value) == d.jobType
  {
    SubmissionBody(
      Some(d.companyName), d.companyWebsite, Some(d.companyContact),
      Some(d.companyDescription), Some(d.jobTitle), ParseDepartment(d.department),
      ParseLocationType(d.locationType), d.location, ParseJobType(d.jobType), d.salaryRange,
      Some(d.jobDescription), None)
  }

  /**
   * Every payload the schema accepts passes the server's required-key
   * check, because each required string has a positive minimum length and
   * each enum key holds a literal; with a working store it is created as
   * a PENDING record holding exactly the submitted values.
   */
  lemma AcceptedPassesServerCheck(d: FormValues, isUrl: string -> bool, id: JobId, now: int)
    requires Errors(d, isUrl) == {}
    ensures FirstMissing(RequestBody(d)) == None
    ensures PostOutcome(RequestBody(d), id, now, NoFault).Created?
    ensures var job := PostOutcome(RequestBody(d), id, now, NoFault).job;
            job.status == Pending && job.companyName == d.companyName && job.jobTitle == d.jobTitle &&
            job.companyContact == d.companyContact && job.companyDescription == d.companyDescription &&
            job.jobDescription == d.jobDescription && job.companyWebsite == d.companyWebsite &&
            job.location == d.location && job.salaryRange == d.salaryRange &&
            DepartmentName(job.department) == d.department &&
            LocationTypeName(job.locationType) == d.locationType &&
            JobTypeName(job.jobType) == d.jobType
  {
    NoErrorsIffAcceptable(d, isUrl);
    NoneMissingIffComplete(RequestBody(d));
  }

  /**
   * The server is laxer than the form: a one-character company name, or any
   * non-empty text shorter than the schema's minimum, passes the server's
   * check although the form reports it.
   */
  lemma ServerIsLaxerThanForm(d: FormValues, isUrl: string -> bool)
    requires |d.companyName| == 1
    requires d.companyContact != "" && d.companyDescription != "" && d.jobTitle != "" && d.jobDescription != ""
    requires ParseDepartment(d.department).Some? && ParseLocationType(d.locationType).Some?
    requires ParseJobType(d.jobType).Some?
    ensures companyName in Errors(d, isUrl)
    ensures FirstMissing(RequestBody(d)) == None
  {
    NoneMissingIffComplete(RequestBody(d));
  }

  const SubmitFailedMessage := "Failed to submit job. Please try again."

  /** What the inputs hold after `reset()`: every input blank. */
  const BlankValues := FormValues("", Some(""), "", "", "", "", "", Some(""), "", Some(""), "")

  /** The form component's state. */
  class FormState {
    var isSubmitting: bool
    var error: Option<string>
    var values: FormValues
    /** Bodies posted to /api/jobs, oldest first. */
    var requests: seq<SubmissionBody>
    /** How many times the page's `onSuccess` callback has run. */
    var successCalls: nat
    /** isSubmitting and error as they stand while the most recent request is in flight. */
    ghost var whileSending: (bool, Option<string>)

    constructor ()
      ensures !isSubmitting && error == None && values == BlankValues
      ensures requests == [] && successCalls == 0
    {
      isSubmitting := false;
      error := None;
      values := BlankValues;
      requests := [];
      successCalls := 0;
      whileSending := (false, None);
    }

    /**
     * `onSubmit(data)`. `responseOk` is `response.ok` of the fetch; a
     * fetch that throws is modelled as `responseOk == false` as well.
     */
    method OnSubmit(data: FormValues, responseOk: bool)
      modifies this
      ensures whileSending == (true, None)
      ensures requests == old(requests) + [RequestBody(data)]
      ensures !isSubmitting
      ensures responseOk ==> error == None && values == BlankValues && successCalls == old(successCalls) + 1
      ensures !responseOk ==> error == Some(SubmitFailedMessage) && values == old(values) &&
                              successCalls == old(successCalls)
    {
      isSubmitting := true;
      error := None;
      whileSending := (isSubmitting, error);
      requests := requests + [RequestBody(data)];
      if responseOk {
        values := BlankValues;
        successCalls := successCalls + 1;
      } else {
        error := Some(SubmitFailedMessage);
      }
      isSubmitting := false;
    }
  }
}

/**
 * The public job list: only APPROVED jobs, narrowed by a case-insensitive
 * free-text search over four fields and by the three enum filters, all
 * AND-combined.
 */
module HomePage {
  import opened Wrappers
  import opened Types
  import opened Seqs

  /** `toLowerCase` on one character, over ASCII. */
  function LowerChar(c: char): char {
    if 'A' <= c <= 'Z' then (c as int - 'A' as int + 'a' as int) as char else c
  }

  function Lower(s: string): (r: string)
    ensures |r| == |s|
    ensures forall i :: 0 <= i < |r| ==> !('A' <= r[i] <= 'Z')
    ensures forall i :: 0 <= i < |r| && !('A' <= s[i] <= 'Z') ==> r[i] == s[i]
    ensures forall i :: 0 <= i < |s| && 'A' <= s[i] <= 'Z' ==> r[i] == (s[i] as int + 32) as char
  {
    seq(|s|, i requires 0 <= i < |s| => LowerChar(s[i]))
  }

  /** Lower-casing twice is lower-casing once. */
  lemma LowerIdempotent(s: string)
    ensures Lower(Lower(s)) == Lower(s)
  {
  }

  predicate IsPrefix(p: string, s: string) {
    |p| <= |s| && s[..|p|] == p
  }

  /** `s.includes(sub)`. */
  predicate Contains(s: string, sub: string)
    ensures Contains(s, sub) ==> |sub| <= |s|
    decreases |s|
  {
    IsPrefix(sub, s) || (s != [] && Contains(s[1..], sub))
  }

  /** `sub` occurs in `s` starting at position `i`. */
  predicate OccursAt(s: string, sub: string, i: int) {
    0 <= i <= |s| - |sub| && s[i..i + |sub|] == sub
  }

  /** `includes` holds exactly when `sub` occurs in `s` at some position. */
  lemma {:induction false} ContainsIffOccurs(s: string, sub: string)
    ensures Contains(s, sub) <==> exists i :: OccursAt(s, sub, i)
    decreases |s|
  {
    if IsPrefix(sub, s) {
      assert OccursAt(s, sub, 0);
    } else if s != [] {
      ContainsIffOccurs(s[1..], sub);
      if Contains(s[1..], sub) {
        var i :| OccursAt(s[1..], sub, i);
        assert s[i + 1..i + 1 + |sub|] == s[1..][i..i + |sub|];
        assert OccursAt(s, sub, i + 1);
      }
      if exists i :: OccursAt(s, sub, i) {
        var i :| OccursAt(s, sub, i);
        assert i != 0;
        assert s[1..][i - 1..i - 1 + |sub|] == s[i..i + |sub|];
        assert OccursAt(s[1..], sub, i - 1);
      }
    }
  }

  /** The search test for an already lower-cased query: any of the four fields contains it. */
  predicate TextMatches(job: Job, query: string) {
    || Contains(Lower(job.jobTitle), query)
    || Contains(Lower(job.companyName), query)
    || Contains(Lower(job.companyDescription), query)
    || Contains(Lower(job.jobDescription), query)
  }

  predicate IsApprovedJob(job: Job) {
    job.status == Approved
  }

  predicate InDepartment(job: Job, f: JobFilters) {
    f.department.None? || job.department == f.department.value
  }

  predicate InLocationType(job: Job, f: JobFilters) {
    f.locationType.None? || job.locationType == f.locationType.value
  }

  predicate OfJobType(job: Job, f: JobFilters) {
    f.jobType.None? || job.jobType == f.jobType.value
  }

  /** The search box's condition; an empty query restricts nothing. */
  predicate SearchHit(job: Job, searchQuery: string) {
    searchQuery == "" || TextMatches(job, Lower(searchQuery))
  }

  /** Whether the home page shows a job, as one condition. */
  predicate Visible(job: Job, searchQuery: string, f: JobFilters) {
    IsApprovedJob(job) && SearchHit(job, searchQuery) &&
    InDepartment(job, f) && InLocationType(job, f) && OfJobType(job, f)
  }

  /** The jobs the home page lists, in the order they were fetched. */
  function PublicListing(jobs: seq<Job>, searchQuery: string, f: JobFilters): (r: seq<Job>)
    ensures |r| <= |jobs|
    ensures forall i :: 0 <= i < |r| ==> r[i].status == Approved
  {
    Filter(j => Visible(j, searchQuery, f), jobs)
  }

  /**
   * The listing holds only APPROVED jobs, each one visible, and keeps the
   * fetched order: it is a subsequence of the fetched jobs.
   */
  lemma ListingIsApprovedSubsequence(jobs: seq<Job>, searchQuery: string, f: JobFilters)
    ensures forall j :: j in PublicListing(jobs, searchQuery, f) ==> j.status == Approved
    ensures forall j :: j in PublicListing(jobs, searchQuery, f) <==> j in jobs && Visible(j, searchQuery, f)
    ensures IsSubsequence(PublicListing(jobs, searchQuery, f), jobs)
  {
    FilterIsSubsequence(j => Visible(j, searchQuery, f), jobs);
  }

  /** An empty query restricts nothing; what shows is decided by status and filters alone. */
  lemma EmptyQueryRestrictsNothing(jobs: seq<Job>, f: JobFilters)
    ensures PublicListing(jobs, "", f) ==
            Filter(j => IsApprovedJob(j) && InDepartment(j, f) && InLocationType(j, f) && OfJobType(j, f), jobs)
  {
    FilterExt(j => Visible(j, "", f),
              j => IsApprovedJob(j) && InDepartment(j, f) && InLocationType(j, f) && OfJobType(j, f), jobs);
  }

  /** The search ignores case: a query and its lower-cased form show the same jobs. */
  lemma SearchIgnoresCase(job: Job, searchQuery: string, f: JobFilters)
    ensures Visible(job, searchQuery, f) == Visible(job, Lower(searchQuery), f)
  {
    LowerIdempotent(searchQuery);
  }

  /**
   * Only jobTitle, companyName, companyDescription and jobDescription are
   * searched: two jobs that agree on those four fields match the same queries.
   */
  lemma OnlyFourFieldsSearched(a: Job, b: Job, query: string)
    requires a.jobTitle == b.jobTitle && a.companyName == b.companyName
    requires a.companyDescription == b.companyDescription && a.jobDescription == b.jobDescription
    ensures TextMatches(a, query) == TextMatches(b, query)
  {
  }

  /** A job matches a query exactly when the query occurs in one of its four lower-cased fields. */
  lemma MatchIffOccursInField(job: Job, query: string)
    ensures TextMatches(job, query) <==>
      exists s, i :: s in [Lower(job.jobTitle), Lower(job.companyName), Lower(job.companyDescription),
                           Lower(job.jobDescription)] && OccursAt(s, query, i)
  {
    ContainsIffOccurs(Lower(job.jobTitle), query);
    ContainsIffOccurs(Lower(job.companyName), query);
    ContainsIffOccurs(Lower(job.companyDescription), query);
    ContainsIffOccurs(Lower(job.jobDescription), query);
  }

  /** "Senior Frontend Developer" matches the query "frontend". */
  lemma SearchExample(job: Job)
    requires job.jobTitle == "Senior Frontend Developer"
    ensures TextMatches(job, Lower("frontend"))
  {
    var t := Lower(job.jobTitle);
    assert Lower("frontend") == "frontend";
    assert t[7] == 'f';
    assert t[7..15] == "frontend";
    assert OccursAt(t, "frontend", 7);
    ContainsIffOccurs(t, "frontend");
  }

  /**
   * Each enum filter is one more conjunct: the listing with a filter set is
   * the listing without it, narrowed to the jobs whose field equals it.
   */
  lemma DepartmentIsConjunct(jobs: seq<Job>, q: string, f: JobFilters)
    ensures PublicListing(jobs, q, f) ==
            Filter(j => InDepartment(j, f), PublicListing(jobs, q, f.(department := None)))
  {
    var g := f.(department := None);
    FilterFilter(j => Visible(j, q, g), j => InDepartment(j, f), j => Visible(j, q, f), jobs);
  }

  lemma LocationTypeIsConjunct(jobs: seq<Job>, q: string, f: JobFilters)
    ensures PublicListing(jobs, q, f) ==
            Filter(j => InLocationType(j, f), PublicListing(jobs, q, f.(locationType := None)))
  {
    var g := f.(locationType := None);
    FilterFilter(j => Visible(j, q, g), j => InLocationType(j, f), j => Visible(j, q, f), jobs);
  }

  lemma JobTypeIsConjunct(jobs: seq<Job>, q: string, f: JobFilters)
    ensures PublicListing(jobs, q, f) ==
            Filter(j => OfJobType(j, f), PublicListing(jobs, q, f.(jobType := None)))
  {
    var g := f.(jobType := None);
    FilterFilter(j => Visible(j, q, g), j => OfJobType(j, f), j => Visible(j, q, f), jobs);
  }

  /**
   * The order of the narrowing steps does not matter: every pair of the
   * search and the three enum filters commutes, so the four steps can be
   * applied in any order.
   */
  lemma NarrowingOrderIrrelevant(jobs: seq<Job>, q: string, f: JobFilters)
    ensures Filter((j: Job) => InDepartment(j, f), Filter((j: Job) => SearchHit(j, q), jobs)) ==
            Filter((j: Job) => SearchHit(j, q), Filter((j: Job) => InDepartment(j, f), jobs))
    ensures Filter((j: Job) => InLocationType(j, f), Filter((j: Job) => InDepartment(j, f), jobs)) ==
            Filter((j: Job) => InDepartment(j, f), Filter((j: Job) => InLocationType(j, f), jobs))
    ensures Filter((j: Job) => OfJobType(j, f), Filter((j: Job) => InLocationType(j, f), jobs)) ==
            Filter((j: Job) => InLocationType(j, f), Filter((j: Job) => OfJobType(j, f), jobs))
    ensures Filter((j: Job) => InLocationType(j, f), Filter((j: Job) => SearchHit(j, q), jobs)) ==
            Filter((j: Job) => SearchHit(j, q), Filter((j: Job) => InLocationType(j, f), jobs))
    ensures Filter((j: Job) => OfJobType(j, f), Filter((j: Job) => SearchHit(j, q), jobs)) ==
            Filter((j: Job) => SearchHit(j, q), Filter((j: Job) => OfJobType(j, f), jobs))
    ensures Filter((j: Job) => OfJobType(j, f), Filter((j: Job) => InDepartment(j, f), jobs)) ==
            Filter((j: Job) => InDepartment(j, f), Filter((j: Job) => OfJobType(j, f), jobs))
  {
    FilterCommutes((j: Job) => SearchHit(j, q), (j: Job) => InDepartment(j, f), jobs);
    FilterCommutes((j: Job) => InDepartment(j, f), (j: Job) => InLocationType(j, f), jobs);
    FilterCommutes((j: Job) => InLocationType(j, f), (j: Job) => OfJobType(j, f), jobs);
    FilterCommutes((j: Job) => SearchHit(j, q), (j: Job) => InLocationType(j, f), jobs);
    FilterCommutes((j: Job) => SearchHit(j, q), (j: Job) => OfJobType(j, f), jobs);
    FilterCommutes((j: Job) => InDepartment(j, f), (j: Job) => OfJobType(j, f), jobs);
  }

  /** Filtering the listing again with the same query and filters changes nothing. */
  lemma ListingIdempotent(jobs: seq<Job>, q: string, f: JobFilters)
    ensures PublicListing(PublicListing(jobs, q, f), q, f) == PublicListing(jobs, q, f)
  {
    FilterIdempotent(j => Visible(j, q, f), jobs);
  }

  /** With the query cleared and no filter set, every APPROVED job is listed. */
  lemma ClearedListingIsAllApproved(jobs: seq<Job>)
    ensures PublicListing(jobs, "", NoFilters) == Filter(IsApprovedJob, jobs)
  {
    FilterExt(j => Visible(j, "", NoFilters), IsApprovedJob, jobs);
  }

  // The stages of `filterJobs`: after each step the list is the fetched
  // jobs filtered by the conjunction of the conditions applied so far.

  function AfterSearch(jobs: seq<Job>, q: string): seq<Job> {
    Filter(j => IsApprovedJob(j) && SearchHit(j, q), jobs)
  }

  function AfterDepartment(jobs: seq<Job>, q: string, f: JobFilters): seq<Job> {
    Filter(j => IsApprovedJob(j) && SearchHit(j, q) && InDepartment(j, f), jobs)
  }

  function AfterLocationType(jobs: seq<Job>, q: string, f: JobFilters): seq<Job> {
    Filter(j => IsApprovedJob(j) && SearchHit(j, q) && InDepartment(j, f) && InLocationType(j, f), jobs)
  }

  lemma ThroughSearch(jobs: seq<Job>, q: string)
    ensures AfterSearch(jobs, q) ==
            if q == "" then Filter(IsApprovedJob, jobs)
            else Filter((j: Job) => TextMatches(j, Lower(q)), Filter(IsApprovedJob, jobs))
  {
    if q == "" {
      FilterExt(j => IsApprovedJob(j) && SearchHit(j, q), IsApprovedJob, jobs);
    } else {
      FilterFilter(IsApprovedJob, (j: Job) => TextMatches(j, Lower(q)),
                   j => IsApprovedJob(j) && SearchHit(j, q), jobs);
    }
  }

  lemma ThroughDepartment(jobs: seq<Job>, q: string, f: JobFilters)
    ensures AfterDepartment(jobs, q, f) ==
            if f.department.None? then AfterSearch(jobs, q)
            else Filter((j: Job) => j.department == f.department.value, AfterSearch(jobs, q))
  {
    if f.department.None? {
      FilterExt(j => IsApprovedJob(j) && SearchHit(j, q) && InDepartment(j, f),
                j => IsApprovedJob(j) && SearchHit(j, q), jobs);
    } else {
      FilterFilter(j => IsApprovedJob(j) && SearchHit(j, q), (j: Job) => j.department == f.department.value,
                   j => IsApprovedJob(j) && SearchHit(j, q) && InDepartment(j, f), jobs);
    }
  }

  lemma ThroughLocationType(jobs: seq<Job>, q: string, f: JobFilters)
    ensures AfterLocationType(jobs, q, f) ==
            if f.locationType.None? then AfterDepartment(jobs, q, f)
            else Filter((j: Job) => j.locationType == f.locationType.value, AfterDepartment(jobs, q, f))
  {
    if f.locationType.None? {
      FilterExt(j => IsApprovedJob(j) && SearchHit(j, q) && InDepartment(j, f) && InLocationType(j, f),
                j => IsApprovedJob(j) && SearchHit(j, q) && InDepartment(j, f), jobs);
    } else {
      FilterFilter(j => IsApprovedJob(j) && SearchHit(j, q) && InDepartment(j, f),
                   (j: Job) => j.locationType == f.locationType.value,
                   j => IsApprovedJob(j) && SearchHit(j, q) && InDepartment(j, f) && InLocationType(j, f), jobs);
    }
  }

  lemma ThroughJobType(jobs: seq<Job>, q: string, f: JobFilters)
    ensures PublicListing(jobs, q, f) ==
            if f.jobType.None? then AfterLocationType(jobs, q, f)
            else Filter((j: Job) => j.jobType == f.jobType.value, AfterLocationType(jobs, q, f))
  {
    if f.jobType.None? {
      FilterExt(j => Visible(j, q, f),
                j => IsApprovedJob(j) && SearchHit(j, q) && InDepartment(j, f) && InLocationType(j, f), jobs);
    } else {
      FilterFilter(j => IsApprovedJob(j) && SearchHit(j, q) && InDepartment(j, f) && InLocationType(j, f),
                   (j: Job) => j.jobType == f.jobType.value, j => Visible(j, q, f), jobs);
    }
  }

  /** The home page component's state. */
  class HomeView {
    var jobs: seq<Job>
    var filteredJobs: seq<Job>
    var filters: JobFilters
    var searchQuery: string
    var loading: bool

    constructor ()
      ensures jobs == [] && filteredJobs == [] && filters == NoFilters && searchQuery == "" && loading
    {
      jobs := [];
      filteredJobs := [];
      filters := NoFilters;
      searchQuery := "";
      loading := true;
    }

    /**
     * `fetchJobs`, followed by the effect that recomputes the list:
     * `fetched` is the decoded GET response, or None when the request or
     * the decoding throws; loading ends either way.
     */
    method FetchJobs(fetched: Option<seq<Job>>)
      modifies this`jobs, this`loading, this`filteredJobs
      ensures jobs == if fetched.Some? then fetched.value else old(jobs)
      ensures !loading
      ensures filteredJobs == PublicListing(jobs, searchQuery, filters)
    {
      if fetched.Some? {
        jobs := fetched.value;
      }
      loading := false;
      FilterJobs();
    }

    /** Typing into the search box, followed by the recompute. */
    method SetSearchQuery(q: string)
      modifies this`searchQuery, this`filteredJobs
      ensures searchQuery == q
      ensures filteredJobs == PublicListing(jobs, q, filters)
    {
      searchQuery := q;
      FilterJobs();
    }

    /** The filter panel's `onFiltersChange`, followed by the recompute. */
    method SetFilters(f: JobFilters)
      modifies this`filters, this`filteredJobs
      ensures filters == f
      ensures filteredJobs == PublicListing(jobs, searchQuery, f)
    {
      filters := f;
      FilterJobs();
    }

    /** `filterJobs`: narrows the fetched jobs step by step and stores the result. */
    method FilterJobs()
      modifies this`filteredJobs
      ensures filteredJobs == PublicListing(jobs, searchQuery, filters)
    {
      var q, f := searchQuery, filters;
      var filtered := Filter(IsApprovedJob, jobs);
      if q != "" {
        var query := Lower(q);
        filtered := Filter((j: Job) => TextMatches(j, query), filtered);
      }
      ThroughSearch(jobs, q);
      if f.department.Some? {
        filtered := Filter((j: Job) => j.department == f.department.value, filtered);
      }
      ThroughDepartment(jobs, q, f);
      if f.locationType.Some? {
        filtered := Filter((j: Job) => j.locationType == f.locationType.value, filtered);
      }
      ThroughLocationType(jobs, q, f);
      if f.jobType.Some? {
        filtered := Filter((j: Job) => j.jobType == f.jobType.value, filtered);
      }
      ThroughJobType(jobs, q, f);
      filteredJobs := filtered;
    }

    /** The "Clear all filters" button, followed by the effect that recomputes the list. */
    method ClearAll()
      modifies this`searchQuery, this`filters, this`filteredJobs
      ensures searchQuery == "" && filters == NoFilters
      ensures filteredJobs == Filter(IsApprovedJob, jobs)
    {
      searchQuery := "";
      filters := NoFilters;
      FilterJobs();
      ClearedListingIsAllApproved(jobs);
    }
  }
}

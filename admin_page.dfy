/**
 * The admin panel page: the jobs it holds locally, the local updates it
 * makes after the status-change and delete requests come back ok, the
 * status filter and the counts shown on its cards.
 */
module AdminPage {
  import opened Wrappers
  import opened Types
  import opened Seqs

  /** The page's filter: 'ALL' or one status. */
  datatype StatusFilter = All | Only(status: JobStatus)

  const StatusChangeFailedMessage: string := "Failed to update job status. Please try again."
  const DeleteFailedMessage: string := "Failed to delete job. Please try again."

  /** `prevJobs.map(job => job.id === jobId ? { ...job, status } : job)`. */
  function WithStatus(jobs: seq<Job>, id: JobId, s: JobStatus): (r: seq<Job>)
    ensures |r| == |jobs|
    ensures forall i :: 0 <= i < |r| && jobs[i].id == id ==> r[i] == jobs[i].(status := s)
    ensures forall i :: 0 <= i < |r| && jobs[i].id != id ==> r[i] == jobs[i]
  {
    if jobs == [] then []
    else [if jobs[0].id == id then jobs[0].(status := s) else jobs[0]] + WithStatus(jobs[1..], id, s)
  }

  /** `prevJobs.filter(job => job.id !== jobId)`. */
  function WithoutId(jobs: seq<Job>, id: JobId): (r: seq<Job>)
    ensures forall j :: j in r <==> j in jobs && j.id != id
    ensures |r| <= |jobs|
  {
    Filter((j: Job) => j.id != id, jobs)
  }

  /** `filter === 'ALL' ? jobs : jobs.filter(job => job.status === filter)`. */
  function FilteredJobs(jobs: seq<Job>, filter: StatusFilter): (r: seq<Job>)
    ensures filter.All? ==> r == jobs
    ensures filter.Only? ==> forall i :: 0 <= i < |r| ==> r[i].status == filter.status
  {
    match filter
    case All => jobs
    case Only(s) => Filter((j: Job) => j.status == s, jobs)
  }

  /** `jobs.filter(job => job.status === s).length`. */
  function CountStatus(jobs: seq<Job>, s: JobStatus): (n: nat)
    ensures n <= |jobs|
  {
    |Filter((j: Job) => j.status == s, jobs)|
  }

  datatype Stats = Stats(total: nat, pending: nat, approved: nat, rejected: nat)

  /** `getStats`. */
  function GetStats(jobs: seq<Job>): (r: Stats)
    ensures r.pending + r.approved + r.rejected == r.total == |jobs|
    ensures r.pending <= r.total && r.approved <= r.total && r.rejected <= r.total
  {
    CountsPartition(jobs);
    Stats(|jobs|, CountStatus(jobs, Pending), CountStatus(jobs, Approved), CountStatus(jobs, Rejected))
  }

  /** Every job has exactly one of the three statuses, so the three counts add up to the length. */
  lemma {:induction false} CountsPartition(jobs: seq<Job>)
    ensures CountStatus(jobs, Pending) + CountStatus(jobs, Approved) + CountStatus(jobs, Rejected) == |jobs|
  {
    if jobs != [] {
      CountsPartition(jobs[1..]);
    }
  }

  /** The status change touches only the jobs with that id: their other fields and every other job stay. */
  lemma StatusChangeTouchesOnlyThatId(jobs: seq<Job>, id: JobId, s: JobStatus)
    ensures forall i :: 0 <= i < |jobs| ==>
      WithStatus(jobs, id, s)[i].(status := jobs[i].status) == jobs[i]
    ensures forall i :: 0 <= i < |jobs| ==>
      WithStatus(jobs, id, s)[i].status == (if jobs[i].id == id then s else jobs[i].status)
  {
  }

  /** After a status change to `s` the count for `s` does not decrease. */
  lemma {:induction false} StatusChangeDoesNotLowerCount(jobs: seq<Job>, id: JobId, s: JobStatus)
    ensures CountStatus(WithStatus(jobs, id, s), s) >= CountStatus(jobs, s)
  {
    if jobs != [] {
      StatusChangeDoesNotLowerCount(jobs[1..], id, s);
      assert WithStatus(jobs, id, s)[1..] == WithStatus(jobs[1..], id, s);
    }
  }

  /** A status change keeps the total and moves jobs only into `s`: no other status gains. */
  lemma {:induction false} StatusChangeRaisesNoOtherCount(jobs: seq<Job>, id: JobId, s: JobStatus, t: JobStatus)
    requires t != s
    ensures CountStatus(WithStatus(jobs, id, s), t) <= CountStatus(jobs, t)
    ensures GetStats(WithStatus(jobs, id, s)).total == GetStats(jobs).total
  {
    if jobs != [] {
      StatusChangeRaisesNoOtherCount(jobs[1..], id, s, t);
      assert WithStatus(jobs, id, s)[1..] == WithStatus(jobs[1..], id, s);
    }
  }

  /** Delete removes every job with that id and keeps the others in their original order. */
  lemma DeleteRemovesExactlyThatId(jobs: seq<Job>, id: JobId)
    ensures forall j :: j in WithoutId(jobs, id) <==> j in jobs && j.id != id
    ensures IsSubsequence(WithoutId(jobs, id), jobs)
    ensures (forall j :: j in jobs ==> j.id != id) ==> WithoutId(jobs, id) == jobs
  {
    FilterIsSubsequence((j: Job) => j.id != id, jobs);
    if forall j :: j in jobs ==> j.id != id {
      assert forall i :: 0 <= i < |jobs| ==> jobs[i] in jobs;
      FilterKeepsAll((j: Job) => j.id != id, jobs);
    }
  }

  /** 'ALL' shows the list unchanged; a status shows exactly the jobs with that status, in order. */
  lemma FilterShowsThatStatus(jobs: seq<Job>, filter: StatusFilter)
    ensures filter.All? ==> FilteredJobs(jobs, filter) == jobs
    ensures filter.Only? ==> forall j :: j in FilteredJobs(jobs, filter) <==> j in jobs && j.status == filter.status
    ensures IsSubsequence(FilteredJobs(jobs, filter), jobs)
    ensures filter.Only? ==> |FilteredJobs(jobs, filter)| == CountStatus(jobs, filter.status)
  {
    match filter
    case All => SubsequenceReflexive(jobs);
    case Only(s) => FilterIsSubsequence((j: Job) => j.status == s, jobs);
  }

  /** The page's local state. */
  class AdminView {
    var jobs: seq<Job>
    var filter: StatusFilter
    var loading: bool
    /** The alert messages shown so far, oldest first. */
    var alerts: seq<string>

    constructor()
      ensures jobs == [] && filter == All && loading && alerts == []
    {
      jobs := [];
      filter := All;
      loading := true;
      alerts := [];
    }

    /** The jobs the table shows. */
    function Shown(): (r: seq<Job>)
      reads this
      ensures filter.All? ==> r == jobs
      ensures IsSubsequence(r, jobs)
      ensures filter.Only? ==> forall j :: j in r <==> j in jobs && j.status == filter.status
    {
      FilterShowsThatStatus(jobs, filter);
      FilteredJobs(jobs, filter)
    }

    /** The card counts. */
    function Counts(): (r: Stats)
      reads this
      ensures r.pending + r.approved + r.rejected == r.total == |jobs|
      ensures r.pending == |FilteredJobs(jobs, Only(Pending))|
      ensures r.approved == |FilteredJobs(jobs, Only(Approved))|
      ensures r.rejected == |FilteredJobs(jobs, Only(Rejected))|
    {
      GetStats(jobs)
    }

    /**
     * `fetchJobs`: `fetched` is the decoded response, or None when the
     * request or the decoding throws; loading ends either way.
     */
    method FetchJobs(fetched: Option<seq<Job>>)
      modifies this
      ensures jobs == if fetched.Some? then fetched.value else old(jobs)
      ensures !loading
      ensures filter == old(filter) && alerts == old(alerts)
    {
      if fetched.Some? {
        jobs := fetched.value;
      }
      loading := false;
    }

    /** Choosing a filter value. */
    method SetFilter(f: StatusFilter)
      modifies this`filter
      ensures filter == f
    {
      filter := f;
    }

    /**
     * `handleStatusChange`: `responseOk` is false when the PATCH request
     * throws or answers with a non-ok status; then only an alert is added.
     */
    method HandleStatusChange(id: JobId, s: JobStatus, responseOk: bool)
      modifies this`jobs, this`alerts
      ensures responseOk ==> jobs == WithStatus(old(jobs), id, s) && alerts == old(alerts)
      ensures !responseOk ==> jobs == old(jobs) && alerts == old(alerts) + [StatusChangeFailedMessage]
    {
      if !responseOk {
        alerts := alerts + [StatusChangeFailedMessage];
        return;
      }
      jobs := WithStatus(jobs, id, s);
    }

    /** `handleDelete`: the same shape as the status change, with the DELETE request. */
    method HandleDelete(id: JobId, responseOk: bool)
      modifies this`jobs, this`alerts
      ensures responseOk ==> jobs == WithoutId(old(jobs), id) && alerts == old(alerts)
      ensures !responseOk ==> jobs == old(jobs) && alerts == old(alerts) + [DeleteFailedMessage]
    {
      if !responseOk {
        alerts := alerts + [DeleteFailedMessage];
        return;
      }
      jobs := WithoutId(jobs, id);
    }
  }
}

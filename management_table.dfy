/**
 * The admin table: which actions each job's row offers, and the per-job
 * loading flags it raises around the page's status-change and delete
 * handlers.
 */
module ManagementTable {
  import opened Wrappers
  import opened Types
  import opened AdminPage

  /** The buttons a row can show. */
  datatype Action = Approve | Reject | MoveToPending | View | Delete

  /** The status an action asks the page to set, if it is a status action. */
  function TargetStatus(a: Action): Option<JobStatus> {
    match a
    case Approve => Some(Approved)
    case Reject => Some(Rejected)
    case MoveToPending => Some(Pending)
    case View => None
    case Delete => None
  }

  /** The buttons shown for a job with status `s`. */
  function OfferedActions(s: JobStatus): (r: set<Action>)
    ensures Delete in r && View in r
    ensures Approve in r <==> s == Pending
    ensures Reject in r <==> s == Pending
    ensures MoveToPending in r <==> s != Pending
  {
    match s
    case Pending => {Approve, Reject, View, Delete}
    case Approved => {MoveToPending, View, Delete}
    case Rejected => {MoveToPending, View, Delete}
  }

  /** The statuses a job with status `s` can be moved to from its row. */
  function Moves(s: JobStatus): (r: set<JobStatus>)
    ensures forall t :: t in r <==> exists a :: a in OfferedActions(s) && TargetStatus(a) == Some(t)
  {
    assert TargetStatus(Approve) == Some(Approved);
    assert TargetStatus(Reject) == Some(Rejected);
    assert TargetStatus(MoveToPending) == Some(Pending);
    match s
    case Pending => {Approved, Rejected}
    case Approved => {Pending}
    case Rejected => {Pending}
  }

  /** A pending job offers exactly approve and reject; an approved or rejected one only "to pending". */
  lemma MovesPerStatus()
    ensures Moves(Pending) == {Approved, Rejected}
    ensures Moves(Approved) == {Pending}
    ensures Moves(Rejected) == {Pending}
  {
  }

  /** No row moves a job straight between approved and rejected, and none offers its own status. */
  lemma NoDirectVerdictSwap(s: JobStatus, t: JobStatus)
    ensures s == Approved && t == Rejected ==> t !in Moves(s)
    ensures s == Rejected && t == Approved ==> t !in Moves(s)
    ensures s !in Moves(s)
  {
  }

  /** Delete and view are offered whatever the status. */
  lemma DeleteAlwaysOffered(s: JobStatus)
    ensures Delete in OfferedActions(s) && View in OfferedActions(s)
  {
  }

  /** Any status can be reached from any other in at most two moves, through pending. */
  lemma EveryStatusReachable(s: JobStatus, t: JobStatus)
    ensures t == s || t in Moves(s) || exists m :: m in Moves(s) && t in Moves(m)
  {
    if s != t && t !in Moves(s) {
      assert s != Pending;
      assert Pending in Moves(s) && t in Moves(Pending);
    }
  }

  /** `loadingStates[job.id]` read as a flag: a missing entry is undefined, so not loading. */
  function IsLoading(states: map<JobId, bool>, id: JobId): bool {
    id in states && states[id]
  }

  /** `disabled={loadingStates[job.id]}` sits on every button except view. */
  function Disabled(states: map<JobId, bool>, id: JobId, a: Action): (r: bool)
    ensures r <==> a != View && id in states && states[id]
  {
    a != View && IsLoading(states, id)
  }

  /** While a job's flag is raised all its action buttons are disabled, and lowering it enables them again. */
  lemma LoadingDisablesActions(states: map<JobId, bool>, id: JobId, other: JobId, a: Action)
    ensures a != View ==> Disabled(states[id := true], id, a)
    ensures !Disabled(states[id := false], id, a)
    ensures other != id ==> Disabled(states[id := true], other, a) == Disabled(states, other, a)
  {
  }

  /** The table's own state; `page` is the admin page whose handlers are the callbacks. */
  class TableView {
    var loadingStates: map<JobId, bool>
    const page: AdminView
    /** The loading flags as they stood while the last callback was awaited. */
    ghost var duringCall: map<JobId, bool>

    constructor(p: AdminView)
      ensures page == p && loadingStates == map[]
    {
      page := p;
      loadingStates := map[];
      duringCall := map[];
    }

    /**
     * `handleStatusChange`: raise the flag, await the page's handler, and
     * lower the flag in the `finally` block.
     */
    method HandleStatusChange(id: JobId, s: JobStatus, responseOk: bool)
      modifies this, page
      ensures duringCall == old(loadingStates)[id := true]
      ensures loadingStates == old(loadingStates)[id := false]
      ensures responseOk ==> page.jobs == WithStatus(old(page.jobs), id, s) && page.alerts == old(page.alerts)
      ensures !responseOk ==> page.jobs == old(page.jobs) && page.alerts == old(page.alerts) + [StatusChangeFailedMessage]
      ensures page.filter == old(page.filter) && page.loading == old(page.loading)
    {
      loadingStates := loadingStates[id := true];
      duringCall := loadingStates;
      page.HandleStatusChange(id, s, responseOk);
      loadingStates := loadingStates[id := false];
    }

    /**
     * `handleDelete`: only when the user confirms the dialog, the same
     * raise / await / lower sequence around the page's delete handler.
     */
    method HandleDelete(id: JobId, confirmed: bool, responseOk: bool)
      modifies this, page
      ensures !confirmed ==> loadingStates == old(loadingStates) && duringCall == old(duringCall) &&
                             page.jobs == old(page.jobs) && page.alerts == old(page.alerts)
      ensures confirmed ==> duringCall == old(loadingStates)[id := true]
      ensures confirmed ==> loadingStates == old(loadingStates)[id := false]
      ensures confirmed && responseOk ==> page.jobs == WithoutId(old(page.jobs), id) && page.alerts == old(page.alerts)
      ensures confirmed && !responseOk ==> page.jobs == old(page.jobs) && page.alerts == old(page.alerts) + [DeleteFailedMessage]
      ensures page.filter == old(page.filter) && page.loading == old(page.loading)
    {
      if !confirmed {
        return;
      }
      loadingStates := loadingStates[id := true];
      duringCall := loadingStates;
      page.HandleDelete(id, responseOk);
      loadingStates := loadingStates[id := false];
    }
  }
}

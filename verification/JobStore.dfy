/** The job store (internal/db) as maps plus an ordered event log. SQLite runs on
    one connection, so every operation below is one atomic step, and event ids
    grow in commit order and are never reused. */
module JobStore {
  import opened Wrappers

  type JobId = nat
  type Key = string

  datatype Status = Queued | Running | Completed | Failed | Cancelled {
    predicate IsTerminal() {
      Completed? || Failed? || Cancelled?
    }
  }

  /** ItemDone stands for item_completed, item_skipped and item_failed; Detail for
      every remaining type that is neither a milestone nor a hook event. */
  datatype Kind =
    | JobQueued | JobStarted | JobRetried | JobRecovered
    | JobFinished | JobFailed | JobCancelled | JobDeleted
    | ResolvedInput | MotionArtwork | ItemProgress | ItemDone | Detail
    | HookStarted | HookSucceeded | HookFailed
  {
    predicate IsMilestone() {
      !(ItemProgress? || Detail? || IsHook())
    }

    predicate IsTerminal() {
      JobFinished? || JobFailed? || JobCancelled?
    }

    predicate IsHook() {
      HookStarted? || HookSucceeded? || HookFailed?
    }
  }

  /** hook is a hook event's hook name. cause and exec are model-only: for a hook
      event, the terminal event whose dispatch launched the hook (0 for a creation
      hook), and which of the executions recorded it. */
  datatype Event = Event(job: JobId, kind: Kind, cause: nat, exec: nat := 0, hook: string := "")

  /** term is model-only: the id of the job's latest terminal event, 0 before one. */
  datatype Row = Row(status: Status, key: Key, term: nat)

  datatype Filter = OfJob(job: JobId) | HookEvents(job: JobId) | Milestones {
    predicate Accepts(ev: Event) {
      match this
      case OfJob(j) => ev.job == j
      case HookEvents(j) => ev.job == j && ev.kind.IsHook()
      case Milestones => ev.kind.IsMilestone()
    }
  }

  /** tombs is model-only: each deleted job with the id of its tombstone. */
  datatype Store = Store(jobs: map<JobId, Row>, log: map<nat, Event>, nextId: nat, tombs: map<JobId, nat>) {

    predicate Known(id: JobId) {
      id in jobs || id in tombs
    }

    function GetJob(id: JobId): Option<Status> {
      if id in jobs then Some(jobs[id].status) else None
    }

    predicate IsActive(id: JobId) {
      id in jobs && !jobs[id].status.IsTerminal()
    }

    /** FindActiveJobByKey found a row. */
    predicate HasActive(key: Key) {
      exists id :: id in jobs && jobs[id].key == key && IsActive(id)
    }

    function AddEvent(ev: Event): Store {
      this.(log := log[nextId := ev], nextId := nextId + 1)
    }

    function CreateJob(id: JobId, key: Key): Store {
      this.(jobs := jobs[id := Row(Queued, key, 0)])
    }

    function UpdateJob(id: JobId, status: Status): Store
      requires id in jobs
    {
      this.(jobs := jobs[id := jobs[id].(status := status)])
    }

    /** Terminal status, progress pruning and terminal event in one transaction. */
    function FinalizeJob(id: JobId, status: Status, kind: Kind): Store
      requires id in jobs
    {
      var pruned := map e | e in log && !(log[e].job == id && log[e].kind == ItemProgress) :: log[e];
      this.(jobs := jobs[id := jobs[id].(status := status, term := nextId)], log := pruned)
          .AddEvent(Event(id, kind, 0))
    }

    /** Row, items and events removed and the tombstone filed, in one transaction. */
    function DeleteJob(id: JobId): Store
      requires id in jobs
    {
      var kept := map e | e in log && log[e].job != id :: log[e];
      this.(jobs := jobs - {id}, log := kept, tombs := tombs[id := nextId])
          .AddEvent(Event(id, JobDeleted, 0))
    }

    /** Ids in [lo, hi) that f accepts, ascending. */
    function Matching(f: Filter, lo: nat, hi: nat): seq<nat>
      decreases hi
    {
      if hi <= lo then []
      else Matching(f, lo, hi - 1) + (if hi - 1 in log && f.Accepts(log[hi - 1]) then [hi - 1] else [])
    }

    /** ListEventsAfterLimit and ListMilestoneEventsAfterLimit. */
    function ListAfter(f: Filter, after: nat, limit: nat): seq<nat> {
      var all := Matching(f, after + 1, nextId);
      if |all| <= limit then all else all[..limit]
    }
  }

  /** After a job's end is written its row, its event and the pruning are all there: of
      the job's progress nothing is left, and every other event is. */
  lemma FinalizeExact(db: Store, id: JobId, status: Status, kind: Kind)
    requires id in db.jobs && forall e :: e in db.log ==> e < db.nextId
    ensures var now := db.FinalizeJob(id, status, kind);
      && now.GetJob(id) == Some(status) && now.jobs[id].key == db.jobs[id].key && now.nextId == db.nextId + 1
      && (forall j :: j != id ==> now.GetJob(j) == db.GetJob(j)) && now.tombs == db.tombs
      && (forall e :: e in now.log <==> e == db.nextId || (e in db.log && (db.log[e].job == id ==> db.log[e].kind != ItemProgress)))
      && (forall e :: e in now.log && e < db.nextId ==> now.log[e] == db.log[e])
      && now.log[db.nextId] == Event(id, kind, 0)
  {
  }

  /** After a deletion only the tombstone is left of the job, and all of the others. */
  lemma DeleteExact(db: Store, id: JobId)
    requires id in db.jobs && forall e :: e in db.log ==> e < db.nextId
    ensures var now := db.DeleteJob(id);
      && now.jobs == (map j | j in db.jobs && j != id :: db.jobs[j])
      && (forall e :: e in now.log && now.log[e].job == id <==> e == db.nextId)
      && now.log[db.nextId] == Event(id, JobDeleted, 0) && now.nextId == db.nextId + 1
      && (forall e :: e in db.log && db.log[e].job != id ==> e in now.log && now.log[e] == db.log[e])
  {
  }

  /** The types the overview replays. */
  lemma MilestoneTypes(kind: Kind)
    ensures kind.IsMilestone() <==> kind in {JobQueued, JobRecovered, JobRetried, JobStarted, ResolvedInput,
                                             MotionArtwork, ItemDone, JobFinished, JobFailed, JobCancelled, JobDeleted}
  {
  }

  function Members(ids: seq<JobId>): set<JobId> {
    set j | j in ids
  }

  predicate Ascending(ids: seq<nat>) {
    forall i, j :: 0 <= i < j < |ids| ==> ids[i] < ids[j]
  }

  lemma {:induction false} MatchingExact(db: Store, f: Filter, lo: nat, hi: nat)
    ensures Ascending(db.Matching(f, lo, hi))
    ensures forall e :: e in db.Matching(f, lo, hi) <==> lo <= e < hi && e in db.log && f.Accepts(db.log[e])
    decreases hi
  {
    if lo < hi {
      MatchingExact(db, f, lo, hi - 1);
      var init := db.Matching(f, lo, hi - 1);
      forall i | 0 <= i < |init|
        ensures init[i] < hi - 1
      {
        assert init[i] in init;
      }
    }
  }

  /** A page holds, in order, every accepted event after the cursor up to the
      page's last one; a short page holds every accepted event after the cursor. */
  lemma PageExact(db: Store, f: Filter, after: nat, limit: nat)
    requires limit > 0
    ensures var page := db.ListAfter(f, after, limit);
      && |page| <= limit
      && Ascending(page)
      && (forall e :: e in page ==> after < e < db.nextId && e in db.log && f.Accepts(db.log[e]))
      && (forall e ::
            && after < e < db.nextId && e in db.log && f.Accepts(db.log[e])
            && (|page| < limit || e <= page[|page| - 1])
            ==> e in page)
  {
    MatchingExact(db, f, after + 1, db.nextId);
    var all := db.Matching(f, after + 1, db.nextId);
    var page := db.ListAfter(f, after, limit);
    assert forall e :: e in page ==> e in all;
    if |all| > limit {
      forall e | e in all && e <= all[limit - 1]
        ensures e in all[..limit]
      {
        var i :| 0 <= i < |all| && all[i] == e;
        assert i < limit;
        assert all[..limit][i] == e;
      }
    }
  }
}

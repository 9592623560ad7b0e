/** What every reachable state of the job protocol satisfies. */
module JobInvariants {
  import opened Wrappers
  import opened JobStore
  import opened JobLifecycle

  ghost predicate StatusIs(s: Sys, j: JobId, status: Status) {
    j in s.db.jobs && s.db.jobs[j].status == status
  }

  ghost predicate Ended(s: Sys, j: JobId) {
    j in s.db.jobs && s.db.jobs[j].status.IsTerminal()
  }

  /** What an actor at pc holds, and what it knows about the row it works on. */
  ghost predicate PcOk(s: Sys, a: Actor, pc: Pc) {
    && (pc.HoldsMu() ==> s.locks.mu == Some(a))
    && (pc.HoldsSubmit() ==> s.locks.submitMu == Some(a))
    && (pc.InRun() ==> pc.job in s.marks.cancels && s.marks.cancels[pc.job] == a && pc.run < s.runs.nextRun)
    && (pc.CancelDispatch? || pc.CancelClear? ==> pc.job in s.marks.finalizing && s.marks.finalizing[pc.job] == a)
    && (pc.HoldsMu() ==> !s.FinalizeInFlight(pc.job))
    && (pc.Owes().Some? ==> pc.term in s.books.owing && s.books.owing[pc.term] == a && Ended(s, pc.job) && s.db.jobs[pc.job].term == pc.term)
    && (pc.ClaimWrite? || pc.RetryEvent? || pc.RetrySend? ==> StatusIs(s, pc.job, Queued))
    && (pc.ClaimRegister? || pc.Starting? || pc.Processing? || pc.Persisting? ==> StatusIs(s, pc.job, Status.Running))
    && (pc.Persisting? ==> Outcome(pc.kind == JobCancelled, pc.status, pc.kind))
    && (pc.Cleanup? ==> pc.job in s.db.jobs && s.db.jobs[pc.job].status != Queued)
    && (pc.CancelWrite? ==> s.db.IsActive(pc.job))
    && (pc.CancelClear? || pc.RetryFind? || pc.RetryWrite? ==> Ended(s, pc.job))
    && (pc.WillSend() ==> |s.line.queue| < QUEUE_CAP)
    && (pc.SubmitCreate? ==> !s.db.HasActive(pc.key))
    && (pc.RetryWrite? ==> pc.job in s.db.jobs && !s.db.HasActive(s.db.jobs[pc.job].key))
  }

  ghost predicate Actors(s: Sys) {
    forall a :: a in s.actors ==> PcOk(s, a, s.actors[a])
  }

  /** Every lock, mark and debt has its actor. */
  ghost predicate Held(s: Sys) {
    && (s.locks.mu.Some? ==> s.locks.mu.value in s.actors && s.actors[s.locks.mu.value].HoldsMu())
    && (s.locks.submitMu.Some? ==> s.locks.submitMu.value in s.actors && s.actors[s.locks.submitMu.value].HoldsSubmit())
    && (forall j :: j in s.marks.cancels ==> s.marks.cancels[j] in s.actors && s.actors[s.marks.cancels[j]].Runs(j))
    && (forall j :: j in s.marks.finalizing ==> s.marks.finalizing[j] in s.actors && s.actors[s.marks.finalizing[j]].Marks(j))
    && (forall e :: e in s.books.owing ==> s.books.owing[e] in s.actors && s.actors[s.books.owing[e]].Owes() == Some(e))
  }

  /** No queued row carries a mark; a terminal row has its terminal event on file;
      at most one active row per key. */
  ghost predicate Rows(s: Sys) {
    && (forall j :: j in s.db.jobs && s.db.jobs[j].status == Queued ==> !s.FinalizeInFlight(j))
    && (forall j :: j in s.db.jobs && s.db.jobs[j].status.IsTerminal() ==>
          var e := s.db.jobs[j].term;
          && e in s.books.ended && s.books.ended[e] == j
          && e in s.db.log && s.db.log[e].job == j && s.db.log[e].kind.IsTerminal())
    && (forall i, j ::
          && i in s.db.jobs && j in s.db.jobs && s.db.jobs[i].key == s.db.jobs[j].key
          && !s.db.jobs[i].status.IsTerminal() && !s.db.jobs[j].status.IsTerminal()
          ==> i == j)
  }

  /** Each terminal event is either owed or has been dispatched exactly once. */
  ghost predicate Books(s: Sys) {
    && (forall e :: e in s.books.ended ==> 0 < e < s.db.nextId)
    && (forall e :: e in s.books.ended <==> e in s.books.owing || e in s.books.dispatched)
    && (forall e :: e in s.books.dispatched ==> e !in s.books.owing && s.books.dispatched[e] == 1)
  }

  /** Ids below nextId are spent; a deleted job is gone for good, its tombstone on
      file; a recorded hook event stays on file until its job is deleted. */
  ghost predicate Log(db: Store, recorded: map<nat, Event>) {
    && db.nextId > 0
    && (forall e :: e in db.log ==> 0 < e < db.nextId)
    && (forall j :: j in db.tombs ==>
          j !in db.jobs && db.tombs[j] in db.log && db.log[db.tombs[j]] == Event(j, JobDeleted, 0))
    && (forall e :: e in db.log && db.log[e].kind.JobDeleted? ==> db.log[e].job in db.tombs && db.tombs[db.log[e].job] == e)
    && (forall e :: e in recorded ==>
          && 0 < e < db.nextId && recorded[e].kind.IsHook()
          && ((e in db.log && db.log[e] == recorded[e]) || recorded[e].job in db.tombs))
  }

  function HooksOf(execs: map<nat, Execution>, j: JobId): set<nat> {
    set x | x in execs && execs[x].job == j
  }

  /** The pending count of a job is the number of its hook executions that have not
      gone through donePending. */
  ghost predicate Counted(h: Hooks) {
    && (forall j :: |HooksOf(h.execs, j)| == h.PendingOf(j))
    && (forall x :: x in h.execs ==> x < h.nextExec)
  }

  /** A hook's cause is the terminal event of its own job, dispatched before. */
  ghost predicate CauseOk(books: Ledger, job: JobId, cause: nat) {
    cause != 0 ==> cause in books.dispatched && cause in books.ended && books.ended[cause] == job
  }

  ghost predicate Causes(s: Sys) {
    && (forall x :: x in s.hooks.execs ==> CauseOk(s.books, s.hooks.execs[x].job, s.hooks.execs[x].cause))
    && (forall e :: e in s.books.recorded ==> CauseOk(s.books, s.books.recorded[e].job, s.books.recorded[e].cause))
  }

  ghost predicate Reached(s: Sys, j: JobId) {
    j in s.line.queue || j in s.line.backlog || exists a :: a in s.actors && s.actors[a].Carries(j)
  }

  /** Unless a store call failed or shutdown began, every queued job is on its way
      to a worker, and a non-empty backlog keeps some worker awake. */
  ghost predicate NotStranded(s: Sys) {
    && |s.line.queue| <= QUEUE_CAP
    && (!s.disturbed ==>
      && (forall j :: StatusIs(s, j, Queued) ==> Reached(s, j))
      && (s.line.backlog != [] ==> s.line.token || exists a :: a in s.actors && s.actors[a].IsAwake()))
  }

  ghost predicate Core(s: Sys) {
    Actors(s) && Held(s) && Rows(s) && Books(s) && Log(s.db, s.books.recorded)
  }

  ghost predicate Inv(s: Sys) {
    Core(s) && Counted(s.hooks) && Causes(s) && NotStranded(s)
  }

  lemma {:induction false} SomeIdFree(s: Sys)
    requires Inv(s)
    ensures s.db.nextId > 0
  {
  }

  // ---- Steps that leave rows, marks and debts alone

  /** A lock moves only by being taken free or given up. */
  ghost predicate LockMoved(was: Option<Actor>, now: Option<Actor>, a: Actor, held: bool, holds: bool) {
    && now == (if holds then Some(a) else if held then None else was)
    && (holds ==> held || was.None?)
  }

  ghost predicate OnlyMoved(s: Sys, t: Sys, a: Actor) {
    && a in s.actors && a in t.actors && t.actors == s.actors[a := t.actors[a]]
    && LockMoved(s.locks.mu, t.locks.mu, a, s.actors[a].HoldsMu(), t.actors[a].HoldsMu())
    && LockMoved(s.locks.submitMu, t.locks.submitMu, a, s.actors[a].HoldsSubmit(), t.actors[a].HoldsSubmit())
  }

  /** At most one event was appended, and none disappeared. */
  ghost predicate Appended(s: Store, t: Store) {
    || t == s
    || exists ev: Event :: !ev.kind.JobDeleted? && t == s.AddEvent(ev)
  }

  /** The event appended is a milestone of j. */
  predicate Filed(s: Store, t: Store, j: JobId) {
    s.nextId in t.log && t.log[s.nextId].job == j && t.log[s.nextId].kind.IsMilestone()
  }

  /** A job is no longer muted once a milestone of it is filed. */
  ghost predicate Heeds(s: Sys, t: Sys) {
    forall j :: j in s.books.muted && j !in t.books.muted ==> Filed(s.db, t.db, j)
  }

  ghost predicate HooksUntouched(s: Sys, t: Sys) {
    && t.hooks == s.hooks
    && t.books.recorded == s.books.recorded && t.books.dispatched == s.books.dispatched
  }

  ghost predicate Quiet(s: Sys, t: Sys, a: Actor) {
    && OnlyMoved(s, t, a)
    && (HooksUntouched(s, t) || s.actors[a].SubmitHook?)
    && Appended(s.db, t.db)
    && t.marks.cancels == s.marks.cancels && t.marks.finalizing == s.marks.finalizing && t.runs.nextRun == s.runs.nextRun
    && t.books.ended == s.books.ended && t.books.owing == s.books.owing && t.books.dispatched == s.books.dispatched && t.books.recorded == s.books.recorded
    && (|t.line.queue| <= |s.line.queue| || s.locks.submitMu == Some(a))
    && (s.actors[a].InRun() ==> t.actors[a].InRun() && t.actors[a].job == s.actors[a].job)
    && !s.actors[a].CancelDispatch? && !s.actors[a].CancelClear? && s.actors[a].Owes().None?
    && (s.disturbed ==> t.disturbed)
    && (s.actors[a].Starting? || s.actors[a].RetryEvent? || s.actors[a].SubmitEvent? ==>
          s.actors[a].job in t.books.muted || Filed(s.db, t.db, s.actors[a].job))
    && Heeds(s, t)
    && !s.actors[a].ClaimRegister?
  }

  lemma {:induction false} QuietOther(s: Sys, t: Sys, a: Actor, b: Actor)
    requires Quiet(s, t, a) && PcOk(s, a, s.actors[a]) && b in s.actors && b != a && PcOk(s, b, s.actors[b])
    ensures b in t.actors && PcOk(t, b, t.actors[b])
  {
  }

  lemma {:induction false} QuietHeld(s: Sys, t: Sys, a: Actor)
    requires Quiet(s, t, a) && Held(s)
    ensures Held(t)
  {
  }

  lemma {:induction false} QuietActors(s: Sys, t: Sys, a: Actor)
    requires Actors(s) && Held(s) && Quiet(s, t, a)
    requires PcOk(t, a, t.actors[a])
    ensures Actors(t) && Held(t)
  {
    hide PcOk, Held;
    forall b | b in t.actors
      ensures PcOk(t, b, t.actors[b])
    {
      if b != a {
        QuietOther(s, t, a, b);
      }
    }
    QuietHeld(s, t, a);
  }

  lemma {:induction false} QuietRows(s: Sys, t: Sys, a: Actor)
    requires Rows(s) && Books(s) && Log(s.db, s.books.recorded) && Quiet(s, t, a)
    ensures Rows(t) && Books(t) && Log(t.db, t.books.recorded)
  {
  }

  lemma {:induction false} QuietKept(s: Sys, t: Sys, a: Actor)
    requires Core(s) && Quiet(s, t, a)
    requires PcOk(t, a, t.actors[a])
    ensures Core(t)
  {
    QuietActors(s, t, a);
    QuietRows(s, t, a);
  }

  /** Marks outlive neither their actor nor the row. */
  lemma {:induction false} MarkedHasRow(s: Sys)
    requires Actors(s) && Held(s)
    ensures forall j :: s.FinalizeInFlight(j) ==> j in s.db.jobs
    ensures forall j :: j in s.marks.finalizing ==> Ended(s, j)
  {
    forall j | s.FinalizeInFlight(j)
      ensures j in s.db.jobs && (j in s.marks.finalizing ==> Ended(s, j))
    {
      if j in s.marks.cancels { assert PcOk(s, s.marks.cancels[j], s.actors[s.marks.cancels[j]]); }
      if j in s.marks.finalizing { assert PcOk(s, s.marks.finalizing[j], s.actors[s.marks.finalizing[j]]); }
    }
  }

  // ---- Steps that change a row, a mark or a debt

  ghost predicate Updates(s: Sys, t: Sys, a: Actor)
    requires a in s.actors
  {
    match s.actors[a]
    case ClaimWrite(j) =>
      j in s.db.jobs && t == s.(db := s.db.UpdateJob(j, Status.Running)).Move(a, ClaimRegister(j))
    case RetryWrite(j) =>
      j in s.db.jobs && t == s.(db := s.db.UpdateJob(j, Queued)).Move(a, RetryEvent(j))
    case _ => false
  }

  lemma {:induction false} ClaimsActor(s: Sys, t: Sys, a: Actor, b: Actor)
    requires a in s.actors && s.actors[a].ClaimWrite? && Updates(s, t, a) && b in s.actors && b in t.actors
    requires PcOk(s, a, s.actors[a]) && PcOk(s, b, s.actors[b]) && Rows(s) && Books(s)
    ensures PcOk(t, b, t.actors[b])
  {
  }

  lemma {:induction false} RetriesActor(s: Sys, t: Sys, a: Actor, b: Actor)
    requires a in s.actors && s.actors[a].RetryWrite? && Updates(s, t, a) && b in s.actors && b in t.actors
    requires PcOk(s, a, s.actors[a]) && PcOk(s, b, s.actors[b]) && Rows(s) && Books(s)
    ensures PcOk(t, b, t.actors[b])
  {
  }

  lemma {:induction false} UpdatesHeld(s: Sys, t: Sys, a: Actor)
    requires a in s.actors && Updates(s, t, a) && PcOk(s, a, s.actors[a]) && Held(s)
    ensures Held(t) && HooksUntouched(s, t)
  {
  }

  lemma {:induction false} ClaimsRows(s: Sys, t: Sys, a: Actor)
    requires a in s.actors && s.actors[a].ClaimWrite? && Updates(s, t, a) && PcOk(s, a, s.actors[a])
    requires Rows(s) && Books(s) && Log(s.db, s.books.recorded)
    ensures Rows(t) && Books(t) && Log(t.db, t.books.recorded)
  {
  }

  lemma {:induction false} RetriesRows(s: Sys, t: Sys, a: Actor)
    requires a in s.actors && s.actors[a].RetryWrite? && Updates(s, t, a) && PcOk(s, a, s.actors[a])
    requires Rows(s) && Books(s) && Log(s.db, s.books.recorded)
    ensures Rows(t) && Books(t) && Log(t.db, t.books.recorded)
  {
  }

  lemma {:induction false} UpdatesKept(s: Sys, t: Sys, a: Actor)
    requires a in s.actors && Updates(s, t, a) && Core(s)
    ensures Core(t) && HooksUntouched(s, t)
  {
    assert PcOk(s, a, s.actors[a]);
    forall b | b in t.actors
      ensures PcOk(t, b, t.actors[b])
    {
      if s.actors[a].ClaimWrite? {
        ClaimsActor(s, t, a, b);
      } else {
        RetriesActor(s, t, a, b);
      }
    }
    UpdatesHeld(s, t, a);
    if s.actors[a].ClaimWrite? {
      ClaimsRows(s, t, a);
    } else {
      RetriesRows(s, t, a);
    }
  }

  ghost predicate Creates(s: Sys, t: Sys, a: Actor)
    requires a in s.actors
  {
    && s.actors[a].SubmitCreate?
    && exists id :: !s.db.Known(id) && t == s.(db := s.db.CreateJob(id, s.actors[a].key)).Move(a, SubmitEvent(id))
  }

  lemma {:induction false} CreatesActor(s: Sys, t: Sys, a: Actor, b: Actor)
    requires a in s.actors && Creates(s, t, a) && b in s.actors && b in t.actors
    requires PcOk(s, a, s.actors[a]) && PcOk(s, b, s.actors[b]) && Rows(s) && Books(s)
    ensures PcOk(t, b, t.actors[b])
  {
  }

  lemma {:induction false} CreatesHeld(s: Sys, t: Sys, a: Actor)
    requires a in s.actors && Creates(s, t, a) && PcOk(s, a, s.actors[a]) && Held(s)
    ensures Held(t) && HooksUntouched(s, t)
  {
  }

  lemma {:induction false} CreatesRows(s: Sys, t: Sys, a: Actor)
    requires a in s.actors && Creates(s, t, a) && PcOk(s, a, s.actors[a])
    requires Rows(s) && Books(s) && Log(s.db, s.books.recorded)
    requires forall j :: s.FinalizeInFlight(j) ==> j in s.db.jobs
    ensures Rows(t) && Books(t) && Log(t.db, t.books.recorded)
  {
  }

  lemma {:induction false} CreatesKept(s: Sys, t: Sys, a: Actor)
    requires a in s.actors && Creates(s, t, a) && Core(s)
    ensures Core(t) && HooksUntouched(s, t)
  {
    assert PcOk(s, a, s.actors[a]);
    forall b | b in t.actors
      ensures PcOk(t, b, t.actors[b])
    {
      CreatesActor(s, t, a, b);
    }
    CreatesHeld(s, t, a);
    MarkedHasRow(s);
    CreatesRows(s, t, a);
  }

  ghost predicate Deletes(s: Sys, t: Sys, a: Actor)
    requires a in s.actors
  {
    var pc := s.actors[a];
    && pc.DeleteWrite? && pc.job in s.db.jobs && s.db.jobs[pc.job].status.IsTerminal()
    && t == s.(db := s.db.DeleteJob(pc.job), books := s.books.Heard(pc.job)).UnlockMu().Move(a, Done)
  }

  lemma {:induction false} DeletesActor(s: Sys, t: Sys, a: Actor, b: Actor)
    requires a in s.actors && Deletes(s, t, a) && b in s.actors && b in t.actors
    requires PcOk(s, a, s.actors[a]) && PcOk(s, b, s.actors[b]) && Rows(s) && Books(s)
    ensures PcOk(t, b, t.actors[b])
  {
  }

  lemma {:induction false} DeletesHeld(s: Sys, t: Sys, a: Actor)
    requires a in s.actors && Deletes(s, t, a) && PcOk(s, a, s.actors[a]) && Held(s)
    ensures Held(t) && HooksUntouched(s, t)
  {
  }

  lemma {:induction false} DeletesRows(s: Sys, t: Sys, a: Actor)
    requires a in s.actors && Deletes(s, t, a) && Rows(s) && Books(s) && Log(s.db, s.books.recorded)
    ensures Rows(t) && Books(t)
  {
  }

  lemma {:induction false} DeletesLog(s: Sys, t: Sys, a: Actor)
    requires a in s.actors && Deletes(s, t, a) && Log(s.db, s.books.recorded)
    ensures Log(t.db, t.books.recorded)
  {
  }

  lemma {:induction false} DeletesKept(s: Sys, t: Sys, a: Actor)
    requires a in s.actors && Deletes(s, t, a) && Core(s)
    ensures Core(t) && HooksUntouched(s, t)
  {
    assert PcOk(s, a, s.actors[a]);
    forall b | b in t.actors
      ensures PcOk(t, b, t.actors[b])
    {
      DeletesActor(s, t, a, b);
    }
    DeletesHeld(s, t, a);
    DeletesRows(s, t, a);
    DeletesLog(s, t, a);
  }

  ghost predicate Persists(s: Sys, t: Sys, a: Actor)
    requires a in s.actors
  {
    match s.actors[a]
    case Persisting(j, run, status, kind) =>
      j in s.db.jobs && t == s.Persist(a, j, status, kind).Move(a, RunDispatch(j, run, s.db.nextId))
    case CancelWrite(j) =>
      j in s.db.jobs && t == s.Persist(a, j, Cancelled, JobCancelled).Move(a, CancelMark(j, s.db.nextId))
    case _ => false
  }

  lemma {:induction false} RunPersistsSelf(s: Sys, t: Sys, a: Actor)
    requires a in s.actors && s.actors[a].Persisting? && Persists(s, t, a) && PcOk(s, a, s.actors[a])
    ensures a in t.actors && PcOk(t, a, t.actors[a])
  {
  }

  lemma {:induction false} RunPersistsActor(s: Sys, t: Sys, a: Actor, b: Actor)
    requires a in s.actors && s.actors[a].Persisting? && Persists(s, t, a) && b in s.actors && b != a
    requires PcOk(s, a, s.actors[a]) && PcOk(s, b, s.actors[b]) && Books(s)
    ensures b in t.actors && PcOk(t, b, t.actors[b])
  {
  }

  lemma {:induction false} CancelPersistsActor(s: Sys, t: Sys, a: Actor, b: Actor)
    requires a in s.actors && s.actors[a].CancelWrite? && Persists(s, t, a) && b in s.actors && b in t.actors
    requires PcOk(s, a, s.actors[a]) && PcOk(s, b, s.actors[b]) && Rows(s) && Books(s)
    ensures PcOk(t, b, t.actors[b])
  {
  }

  lemma {:induction false} RunPersistsHeld(s: Sys, t: Sys, a: Actor)
    requires a in s.actors && s.actors[a].Persisting? && Persists(s, t, a) && PcOk(s, a, s.actors[a]) && Held(s)
    ensures Held(t) && HooksUntouched(s, t)
  {
  }

  lemma {:induction false} CancelPersistsHeld(s: Sys, t: Sys, a: Actor)
    requires a in s.actors && s.actors[a].CancelWrite? && Persists(s, t, a) && PcOk(s, a, s.actors[a]) && Held(s)
    ensures Held(t) && HooksUntouched(s, t)
  {
  }

  lemma {:induction false} RunPersistsRows(s: Sys, t: Sys, a: Actor)
    requires a in s.actors && s.actors[a].Persisting? && Persists(s, t, a) && PcOk(s, a, s.actors[a])
    requires Rows(s) && Books(s) && s.db.nextId > 0 && forall e :: e in s.db.log ==> e < s.db.nextId
    ensures Rows(t) && Books(t)
  {
  }

  lemma {:induction false} CancelPersistsRows(s: Sys, t: Sys, a: Actor)
    requires a in s.actors && s.actors[a].CancelWrite? && Persists(s, t, a) && PcOk(s, a, s.actors[a])
    requires Rows(s) && Books(s) && s.db.nextId > 0 && forall e :: e in s.db.log ==> e < s.db.nextId
    ensures Rows(t) && Books(t)
  {
  }

  lemma {:induction false} FinalizeLog(db: Store, recorded: map<nat, Event>, j: JobId, status: Status, kind: Kind)
    requires j in db.jobs && !kind.JobDeleted? && Log(db, recorded)
    ensures Log(db.FinalizeJob(j, status, kind), recorded)
  {
  }

  lemma {:induction false} PersistsKept(s: Sys, t: Sys, a: Actor)
    requires a in s.actors && Persists(s, t, a) && Core(s)
    ensures Core(t) && HooksUntouched(s, t)
  {
    assert PcOk(s, a, s.actors[a]);
    forall b | b in t.actors
      ensures PcOk(t, b, t.actors[b])
    {
      if s.actors[a].Persisting? {
        RunPersistsSelf(s, t, a);
        if b != a {
          RunPersistsActor(s, t, a, b);
        }
      } else {
        CancelPersistsActor(s, t, a, b);
      }
    }
    if s.actors[a].Persisting? {
      RunPersistsHeld(s, t, a);
      RunPersistsRows(s, t, a);
      FinalizeLog(s.db, s.books.recorded, s.actors[a].job, s.actors[a].status, s.actors[a].kind);
    } else {
      CancelPersistsHeld(s, t, a);
      CancelPersistsRows(s, t, a);
      FinalizeLog(s.db, s.books.recorded, s.actors[a].job, Cancelled, JobCancelled);
    }
  }

  ghost predicate SetsMark(s: Sys, t: Sys, a: Actor)
    requires a in s.actors
  {
    match s.actors[a]
    case ClaimRegister(j) =>
      t == s.(marks := s.marks.(cancels := s.marks.cancels[j := a]), runs := s.runs.(nextRun := s.runs.nextRun + 1)).UnlockMu().Move(a, Starting(j, s.runs.nextRun))
    case CancelMark(j, term) =>
      t == s.(marks := s.marks.(finalizing := s.marks.finalizing[j := a])).UnlockMu().Move(a, CancelDispatch(j, term))
    case _ => false
  }

  lemma {:induction false} RegistersActor(s: Sys, t: Sys, a: Actor, b: Actor)
    requires a in s.actors && s.actors[a].ClaimRegister? && SetsMark(s, t, a) && b in s.actors && b in t.actors
    requires PcOk(s, a, s.actors[a]) && PcOk(s, b, s.actors[b])
    ensures PcOk(t, b, t.actors[b])
  {
  }

  lemma {:induction false} FinalizesActor(s: Sys, t: Sys, a: Actor, b: Actor)
    requires a in s.actors && s.actors[a].CancelMark? && SetsMark(s, t, a) && b in s.actors && b in t.actors
    requires PcOk(s, a, s.actors[a]) && PcOk(s, b, s.actors[b])
    ensures PcOk(t, b, t.actors[b])
  {
  }

  lemma {:induction false} SetsMarkHeld(s: Sys, t: Sys, a: Actor)
    requires a in s.actors && SetsMark(s, t, a) && PcOk(s, a, s.actors[a]) && Held(s)
    ensures Held(t) && HooksUntouched(s, t)
  {
  }

  lemma {:induction false} SetsMarkRows(s: Sys, t: Sys, a: Actor)
    requires a in s.actors && SetsMark(s, t, a) && PcOk(s, a, s.actors[a])
    requires Rows(s) && Books(s) && Log(s.db, s.books.recorded)
    ensures Rows(t) && Books(t) && Log(t.db, t.books.recorded)
  {
  }

  lemma {:induction false} SetsMarkKept(s: Sys, t: Sys, a: Actor)
    requires a in s.actors && SetsMark(s, t, a) && Core(s)
    ensures Core(t) && HooksUntouched(s, t)
  {
    assert PcOk(s, a, s.actors[a]);
    forall b | b in t.actors
      ensures PcOk(t, b, t.actors[b])
    {
      if s.actors[a].ClaimRegister? {
        RegistersActor(s, t, a, b);
      } else {
        FinalizesActor(s, t, a, b);
      }
    }
    SetsMarkHeld(s, t, a);
    SetsMarkRows(s, t, a);
  }

  ghost predicate DropsMark(s: Sys, t: Sys, a: Actor)
    requires a in s.actors
  {
    match s.actors[a]
    case Cleanup(j, run) => t == s.(marks := s.marks.(cancels := s.marks.cancels - {j})).Move(a, Top)
    case CancelClear(j) => t == s.(marks := s.marks.(finalizing := s.marks.finalizing - {j})).Move(a, Done)
    case _ => false
  }

  lemma {:induction false} CleansActor(s: Sys, t: Sys, a: Actor, b: Actor)
    requires a in s.actors && s.actors[a].Cleanup? && DropsMark(s, t, a) && b in s.actors && b in t.actors
    requires PcOk(s, a, s.actors[a]) && PcOk(s, b, s.actors[b])
    ensures PcOk(t, b, t.actors[b])
  {
  }

  lemma {:induction false} ClearsActor(s: Sys, t: Sys, a: Actor, b: Actor)
    requires a in s.actors && s.actors[a].CancelClear? && DropsMark(s, t, a) && b in s.actors && b in t.actors
    requires PcOk(s, a, s.actors[a]) && PcOk(s, b, s.actors[b])
    ensures PcOk(t, b, t.actors[b])
  {
  }

  lemma {:induction false} DropsMarkHeld(s: Sys, t: Sys, a: Actor)
    requires a in s.actors && DropsMark(s, t, a) && PcOk(s, a, s.actors[a]) && Held(s)
    ensures Held(t) && HooksUntouched(s, t)
  {
  }

  lemma {:induction false} DropsMarkRows(s: Sys, t: Sys, a: Actor)
    requires a in s.actors && DropsMark(s, t, a) && PcOk(s, a, s.actors[a])
    requires Rows(s) && Books(s) && Log(s.db, s.books.recorded)
    ensures Rows(t) && Books(t) && Log(t.db, t.books.recorded)
  {
  }

  lemma {:induction false} DropsMarkKept(s: Sys, t: Sys, a: Actor)
    requires a in s.actors && DropsMark(s, t, a) && Core(s)
    ensures Core(t) && HooksUntouched(s, t)
  {
    assert PcOk(s, a, s.actors[a]);
    forall b | b in t.actors
      ensures PcOk(t, b, t.actors[b])
    {
      if s.actors[a].Cleanup? {
        CleansActor(s, t, a, b);
      } else {
        ClearsActor(s, t, a, b);
      }
    }
    DropsMarkHeld(s, t, a);
    DropsMarkRows(s, t, a);
  }

  ghost predicate Dispatches(s: Sys, t: Sys, a: Actor)
    requires a in s.actors
  {
    var pc := s.actors[a];
    && (pc.RunDispatch? || pc.CancelDispatch?)
    && t == s.(hooks := t.hooks, books := s.books.Settle(pc.term))
            .Move(a, if pc.RunDispatch? then Cleanup(pc.job, pc.run) else CancelClear(pc.job))
  }

  lemma {:induction false} DispatchesActor(s: Sys, t: Sys, a: Actor)
    requires a in s.actors && Dispatches(s, t, a) && PcOk(s, a, s.actors[a])
    ensures PcOk(t, a, t.actors[a])
  {
  }

  lemma {:induction false} DispatchesOther(s: Sys, t: Sys, a: Actor, b: Actor)
    requires a in s.actors && Dispatches(s, t, a) && b in s.actors && b != a
    requires PcOk(s, a, s.actors[a]) && PcOk(s, b, s.actors[b])
    ensures b in t.actors && PcOk(t, b, t.actors[b])
  {
  }

  lemma {:induction false} DispatchesHeld(s: Sys, t: Sys, a: Actor)
    requires a in s.actors && Dispatches(s, t, a) && PcOk(s, a, s.actors[a]) && Held(s)
    ensures Held(t)
  {
  }

  lemma {:induction false} DispatchesRows(s: Sys, t: Sys, a: Actor)
    requires a in s.actors && Dispatches(s, t, a) && PcOk(s, a, s.actors[a])
    requires Rows(s) && Books(s) && Log(s.db, s.books.recorded)
    ensures Rows(t) && Books(t) && Log(t.db, t.books.recorded)
  {
  }

  lemma {:induction false} DispatchesKept(s: Sys, t: Sys, a: Actor)
    requires a in s.actors && Dispatches(s, t, a) && Core(s)
    ensures Core(t)
  {
    assert PcOk(s, a, s.actors[a]);
    forall b | b in t.actors
      ensures PcOk(t, b, t.actors[b])
    {
      if b == a {
        DispatchesActor(s, t, a);
      } else {
        DispatchesOther(s, t, a, b);
      }
    }
    DispatchesHeld(s, t, a);
    DispatchesRows(s, t, a);
  }

  // ---- Every step

  /** Each step of an actor is of one of these shapes. */
  ghost predicate Shaped(s: Sys, t: Sys, a: Actor)
    requires a in s.actors
  {
    || (Quiet(s, t, a) && PcOk(t, a, t.actors[a]))
    || Updates(s, t, a) || Creates(s, t, a) || Deletes(s, t, a) || Persists(s, t, a)
    || SetsMark(s, t, a) || DropsMark(s, t, a) || Dispatches(s, t, a)
  }

  lemma PcLocks(s: Sys, a: Actor)
    requires a in s.actors && PcOk(s, a, s.actors[a])
    ensures s.actors[a].HoldsMu() ==> s.locks.mu == Some(a)
    ensures s.actors[a].HoldsSubmit() ==> s.locks.submitMu == Some(a)
  {
  }

  lemma IdleOk(s: Sys, a: Actor, pc: Pc)
    requires pc.Top? || pc.Select? || pc.Delivered? || pc.Done?
    ensures PcOk(s, a, pc)
  {
  }

  lemma {:induction false} TopQuiet(s: Sys, t: Sys, a: Actor, c: Choice)
    requires a in s.actors && s.actors[a].Top? && LoopNext(s, t, a, c)
    ensures Quiet(s, t, a) && PcOk(t, a, t.actors[a])
  {
    hide PcOk;
    IdleOk(t, a, t.actors[a]);
  }

  lemma {:induction false} SelectQuiet(s: Sys, t: Sys, a: Actor, c: Choice)
    requires a in s.actors && s.actors[a].Select? && LoopNext(s, t, a, c)
    ensures Quiet(s, t, a) && PcOk(t, a, t.actors[a])
  {
    hide PcOk;
    IdleOk(t, a, t.actors[a]);
  }

  lemma {:induction false} ClaimQuiet(s: Sys, t: Sys, a: Actor, c: Choice)
    requires a in s.actors && s.actors[a].ClaimWrite? && LoopNext(s, t, a, c) && PcOk(s, a, s.actors[a])
    requires !Updates(s, t, a)
    ensures Quiet(s, t, a) && PcOk(t, a, t.actors[a])
  {
  }

  lemma {:induction false} TakenQuiet(s: Sys, a: Actor)
    requires a in s.actors && s.actors[a].Delivered? && PcOk(s, a, s.actors[a])
    requires s.locks.mu.None? && StatusIs(s, s.actors[a].job, Queued) && !s.FinalizeInFlight(s.actors[a].job)
    ensures var t := s.LockMu(a).Move(a, ClaimWrite(s.actors[a].job)); Quiet(s, t, a) && PcOk(t, a, t.actors[a])
  {
  }

  lemma {:induction false} DeliveredQuiet(s: Sys, t: Sys, a: Actor, c: Choice)
    requires a in s.actors && s.actors[a].Delivered? && LoopNext(s, t, a, c) && PcOk(s, a, s.actors[a])
    requires StatusIs(s, s.actors[a].job, Queued) ==> !s.FinalizeInFlight(s.actors[a].job)
    ensures Quiet(s, t, a) && PcOk(t, a, t.actors[a])
  {
    hide PcOk, Sys.FinalizeInFlight;
    if t.actors[a].ClaimWrite? {
      TakenQuiet(s, a);
    } else {
      IdleOk(t, a, t.actors[a]);
    }
  }

  lemma {:induction false} StartingQuiet(s: Sys, t: Sys, a: Actor, c: Choice)
    requires a in s.actors && s.actors[a].Starting? && RunNext(s, t, a, c) && PcOk(s, a, s.actors[a])
    ensures Quiet(s, t, a) && PcOk(t, a, t.actors[a])
  {
    hide PcOk;
    assert PcOk(t, a, t.actors[a]) by {
      StartedOk(s, t, a, c);
    }
  }

  lemma {:induction false} StartedOk(s: Sys, t: Sys, a: Actor, c: Choice)
    requires a in s.actors && s.actors[a].Starting? && RunNext(s, t, a, c) && PcOk(s, a, s.actors[a])
    ensures a in t.actors && PcOk(t, a, t.actors[a])
  {
  }

  lemma {:induction false} PersistingQuiet(s: Sys, t: Sys, a: Actor, c: Choice)
    requires a in s.actors && s.actors[a].Persisting? && RunNext(s, t, a, c) && PcOk(s, a, s.actors[a])
    requires !Persists(s, t, a)
    ensures Quiet(s, t, a) && PcOk(t, a, t.actors[a])
  {
  }

  lemma {:induction false} ProcessingQuiet(s: Sys, t: Sys, a: Actor, c: Choice)
    requires a in s.actors && s.actors[a].Processing? && RunNext(s, t, a, c) && PcOk(s, a, s.actors[a])
    ensures Quiet(s, t, a) && PcOk(t, a, t.actors[a])
  {
    hide PcOk;
    assert PcOk(t, a, t.actors[a]) by {
      ProcessedOk(s, t, a, c);
    }
  }

  lemma {:induction false} ProcessedOk(s: Sys, t: Sys, a: Actor, c: Choice)
    requires a in s.actors && s.actors[a].Processing? && RunNext(s, t, a, c) && PcOk(s, a, s.actors[a])
    ensures a in t.actors && PcOk(t, a, t.actors[a])
  {
  }

  lemma {:induction false} CancelEnterQuiet(s: Sys, t: Sys, a: Actor, c: Choice)
    requires a in s.actors && s.actors[a].CancelEnter? && CancelNext(s, t, a, c) && PcOk(s, a, s.actors[a])
    requires forall j :: j in s.marks.finalizing ==> Ended(s, j)
    ensures Quiet(s, t, a) && PcOk(t, a, t.actors[a])
  {
  }

  lemma {:induction false} CancelQuiet(s: Sys, t: Sys, a: Actor, c: Choice)
    requires a in s.actors && (s.actors[a].CancelSignal? || s.actors[a].CancelWrite?) && CancelNext(s, t, a, c) && PcOk(s, a, s.actors[a])
    requires !Persists(s, t, a)
    ensures Quiet(s, t, a) && PcOk(t, a, t.actors[a])
  {
  }

  lemma {:induction false} RetryLockQuiet(s: Sys, t: Sys, a: Actor, c: Choice)
    requires a in s.actors && (s.actors[a].RetryEnter? || s.actors[a].RetryLocked?)
    requires RetryNext(s, t, a, c) && PcOk(s, a, s.actors[a])
    ensures Quiet(s, t, a) && PcOk(t, a, t.actors[a])
  {
    PcLocks(s, a);
    hide PcOk;
    assert PcOk(t, a, t.actors[a]) by {
      RetryLockOk(s, t, a, c);
    }
  }

  lemma {:induction false} RetryLockOk(s: Sys, t: Sys, a: Actor, c: Choice)
    requires a in s.actors && (s.actors[a].RetryEnter? || s.actors[a].RetryLocked?)
    requires RetryNext(s, t, a, c) && PcOk(s, a, s.actors[a])
    ensures a in t.actors && PcOk(t, a, t.actors[a])
  {
  }

  lemma {:induction false} RetryQuiet(s: Sys, t: Sys, a: Actor, c: Choice)
    requires a in s.actors && (s.actors[a].RetryFind? || s.actors[a].RetryWrite?)
    requires RetryNext(s, t, a, c) && PcOk(s, a, s.actors[a])
    requires !Updates(s, t, a)
    ensures Quiet(s, t, a) && PcOk(t, a, t.actors[a])
  {
    PcLocks(s, a);
    hide PcOk;
    assert PcOk(t, a, t.actors[a]) by {
      RetryOk(s, t, a, c);
    }
  }

  lemma {:induction false} RetryOk(s: Sys, t: Sys, a: Actor, c: Choice)
    requires a in s.actors && (s.actors[a].RetryFind? || s.actors[a].RetryWrite?)
    requires RetryNext(s, t, a, c) && PcOk(s, a, s.actors[a])
    requires !Updates(s, t, a)
    ensures a in t.actors && PcOk(t, a, t.actors[a])
  {
  }

  lemma {:induction false} RetriedQuiet(s: Sys, t: Sys, a: Actor, c: Choice)
    requires a in s.actors && (s.actors[a].RetryEvent? || s.actors[a].RetrySend?)
    requires RetryNext(s, t, a, c) && PcOk(s, a, s.actors[a])
    ensures Quiet(s, t, a) && PcOk(t, a, t.actors[a])
  {
    PcLocks(s, a);
    hide PcOk;
    assert PcOk(t, a, t.actors[a]) by {
      RetriedOk(s, t, a, c);
    }
  }

  lemma {:induction false} RetriedOk(s: Sys, t: Sys, a: Actor, c: Choice)
    requires a in s.actors && (s.actors[a].RetryEvent? || s.actors[a].RetrySend?)
    requires RetryNext(s, t, a, c) && PcOk(s, a, s.actors[a])
    ensures a in t.actors && PcOk(t, a, t.actors[a])
  {
  }

  lemma {:induction false} DeleteQuiet(s: Sys, t: Sys, a: Actor, c: Choice)
    requires a in s.actors && (s.actors[a].DeleteEnter? || s.actors[a].DeleteWrite?) && SubmitStep(s, t, a, c) && PcOk(s, a, s.actors[a])
    requires !Deletes(s, t, a)
    ensures Quiet(s, t, a) && PcOk(t, a, t.actors[a])
  {
    PcLocks(s, a);
    hide PcOk;
    assert PcOk(t, a, t.actors[a]) by {
      DeleteOk(s, t, a, c);
    }
  }

  lemma {:induction false} DeleteOk(s: Sys, t: Sys, a: Actor, c: Choice)
    requires a in s.actors && (s.actors[a].DeleteEnter? || s.actors[a].DeleteWrite?) && SubmitStep(s, t, a, c) && PcOk(s, a, s.actors[a])
    requires !Deletes(s, t, a)
    ensures a in t.actors && PcOk(t, a, t.actors[a])
  {
  }

  lemma {:induction false} SubmitQuiet(s: Sys, t: Sys, a: Actor, c: Choice)
    requires a in s.actors && (s.actors[a].SubmitEnter? || s.actors[a].SubmitNext? || s.actors[a].SubmitCreate? || s.actors[a].SubmitSend?) && SubmitStep(s, t, a, c) && PcOk(s, a, s.actors[a])
    requires !Creates(s, t, a)
    ensures Quiet(s, t, a) && PcOk(t, a, t.actors[a])
  {
    PcLocks(s, a);
    hide PcOk;
    assert PcOk(t, a, t.actors[a]) by {
      SubmitOk(s, t, a, c);
    }
  }

  lemma {:induction false} SubmitOk(s: Sys, t: Sys, a: Actor, c: Choice)
    requires a in s.actors && (s.actors[a].SubmitEnter? || s.actors[a].SubmitNext? || s.actors[a].SubmitCreate? || s.actors[a].SubmitSend?) && SubmitStep(s, t, a, c) && PcOk(s, a, s.actors[a])
    requires !Creates(s, t, a)
    ensures a in t.actors && PcOk(t, a, t.actors[a])
  {
  }

  lemma {:induction false} AnnounceQuiet(s: Sys, t: Sys, a: Actor, c: Choice)
    requires a in s.actors && (s.actors[a].SubmitEvent? || s.actors[a].SubmitHook?) && SubmitStep(s, t, a, c) && PcOk(s, a, s.actors[a])
    ensures Quiet(s, t, a) && PcOk(t, a, t.actors[a])
  {
    PcLocks(s, a);
    hide PcOk;
    assert PcOk(t, a, t.actors[a]) by {
      AnnounceOk(s, t, a, c);
    }
  }

  lemma {:induction false} AnnounceOk(s: Sys, t: Sys, a: Actor, c: Choice)
    requires a in s.actors && (s.actors[a].SubmitEvent? || s.actors[a].SubmitHook?) && SubmitStep(s, t, a, c) && PcOk(s, a, s.actors[a])
    ensures a in t.actors && PcOk(t, a, t.actors[a])
  {
  }

  lemma {:induction false} LoopShape(s: Sys, t: Sys, a: Actor, c: Choice)
    requires a in s.actors && s.actors[a].InLoop() && LoopNext(s, t, a, c) && PcOk(s, a, s.actors[a])
    requires s.actors[a].Delivered? && StatusIs(s, s.actors[a].job, Queued) ==> !s.FinalizeInFlight(s.actors[a].job)
    ensures Shaped(s, t, a)
  {
    if s.actors[a].Delivered? {
      DeliveredQuiet(s, t, a, c);
    } else if s.actors[a].ClaimRegister? {
      assert SetsMark(s, t, a);
    } else if s.actors[a].Top? {
      TopQuiet(s, t, a, c);
    } else if s.actors[a].Select? {
      SelectQuiet(s, t, a, c);
    } else if !Updates(s, t, a) {
      ClaimQuiet(s, t, a, c);
    }
  }

  lemma {:induction false} RunShape(s: Sys, t: Sys, a: Actor, c: Choice)
    requires a in s.actors && s.actors[a].InRun() && RunNext(s, t, a, c) && PcOk(s, a, s.actors[a])
    ensures Shaped(s, t, a)
  {
    if s.actors[a].RunDispatch? {
      assert Dispatches(s, t, a);
    } else if s.actors[a].Cleanup? {
      assert DropsMark(s, t, a);
    } else if s.actors[a].Processing? {
      ProcessingQuiet(s, t, a, c);
    } else if s.actors[a].Starting? {
      StartingQuiet(s, t, a, c);
    } else if !Persists(s, t, a) {
      PersistingQuiet(s, t, a, c);
    }
  }

  lemma {:induction false} CancelShape(s: Sys, t: Sys, a: Actor, c: Choice)
    requires a in s.actors && s.actors[a].InCancel() && CancelNext(s, t, a, c) && PcOk(s, a, s.actors[a])
    requires forall j :: j in s.marks.finalizing ==> Ended(s, j)
    ensures Shaped(s, t, a)
  {
    if s.actors[a].CancelMark? {
      assert SetsMark(s, t, a);
    } else if s.actors[a].CancelDispatch? {
      assert Dispatches(s, t, a);
    } else if s.actors[a].CancelClear? {
      assert DropsMark(s, t, a);
    } else if !Persists(s, t, a) {
      if s.actors[a].CancelEnter? {
        CancelEnterQuiet(s, t, a, c);
      } else {
        CancelQuiet(s, t, a, c);
      }
    }
  }

  lemma {:induction false} RetryShape(s: Sys, t: Sys, a: Actor, c: Choice)
    requires a in s.actors && s.actors[a].InRetry() && RetryNext(s, t, a, c) && PcOk(s, a, s.actors[a])
    ensures Shaped(s, t, a)
  {
    if s.actors[a].RetryEvent? || s.actors[a].RetrySend? {
      RetriedQuiet(s, t, a, c);
    } else if s.actors[a].RetryEnter? || s.actors[a].RetryLocked? {
      RetryLockQuiet(s, t, a, c);
    } else if !Updates(s, t, a) {
      RetryQuiet(s, t, a, c);
    }
  }

  lemma {:induction false} SubmitShape(s: Sys, t: Sys, a: Actor, c: Choice)
    requires a in s.actors && SubmitStep(s, t, a, c) && PcOk(s, a, s.actors[a])
    ensures Shaped(s, t, a)
  {
    if s.actors[a].DeleteEnter? || s.actors[a].DeleteWrite? {
      if !Deletes(s, t, a) {
        DeleteQuiet(s, t, a, c);
      }
    } else if s.actors[a].SubmitEvent? || s.actors[a].SubmitHook? {
      AnnounceQuiet(s, t, a, c);
    } else if !Creates(s, t, a) {
      SubmitQuiet(s, t, a, c);
    }
  }

  lemma {:induction false} StepShape(s: Sys, t: Sys, a: Actor, c: Choice)
    requires Core(s) && Next(s, t, Step(a, c))
    ensures Shaped(s, t, a)
  {
    assert PcOk(s, a, s.actors[a]);
    MarkedHasRow(s);
    if s.actors[a].InLoop() {
      LoopShape(s, t, a, c);
    } else if s.actors[a].InRun() {
      RunShape(s, t, a, c);
    } else if s.actors[a].InCancel() {
      CancelShape(s, t, a, c);
    } else if s.actors[a].InRetry() {
      RetryShape(s, t, a, c);
    } else {
      SubmitShape(s, t, a, c);
    }
  }

  predicate Launches(pc: Pc) {
    pc.RunDispatch? || pc.CancelDispatch? || pc.SubmitHook?
  }

  lemma {:induction false} ShapeKept(s: Sys, t: Sys, a: Actor)
    requires a in s.actors && Core(s) && Shaped(s, t, a)
    ensures Core(t) && (HooksUntouched(s, t) || Launches(s.actors[a]))
  {
    if Updates(s, t, a) {
      UpdatesKept(s, t, a);
    } else if Creates(s, t, a) {
      CreatesKept(s, t, a);
    } else if Deletes(s, t, a) {
      DeletesKept(s, t, a);
    } else if Persists(s, t, a) {
      PersistsKept(s, t, a);
    } else if SetsMark(s, t, a) {
      SetsMarkKept(s, t, a);
    } else if DropsMark(s, t, a) {
      DropsMarkKept(s, t, a);
    } else if Dispatches(s, t, a) {
      DispatchesKept(s, t, a);
    } else {
      QuietKept(s, t, a);
    }
  }

  // ---- Hooks, detached events and new calls

  /** No actor moves, and no row, mark or debt changes. */
  ghost predicate Background(s: Sys, t: Sys) {
    && t == s.(db := t.db, hooks := t.hooks, books := s.books.(recorded := t.books.recorded, muted := t.books.muted))
    && Appended(s.db, t.db) && Heeds(s, t)
  }

  lemma {:induction false} BackgroundActors(s: Sys, t: Sys)
    requires Actors(s) && Held(s) && Background(s, t)
    ensures Actors(t) && Held(t)
  {
    forall b | b in t.actors
      ensures PcOk(t, b, t.actors[b])
    {
      assert PcOk(s, b, s.actors[b]);
    }
  }

  lemma {:induction false} BackgroundRows(s: Sys, t: Sys)
    requires Rows(s) && Books(s) && Log(s.db, s.books.recorded) && Background(s, t)
    ensures Rows(t) && Books(t)
  {
  }

  lemma {:induction false} HookBackground(s: Sys, t: Sys, x: nat, c: Choice)
    requires x in s.hooks.execs && HookNext(s, t, x, c)
    ensures Background(s, t)
  {
  }

  lemma {:induction false} RecordLog(db: Store, recorded: map<nat, Event>, ev: Event)
    requires ev.kind.IsHook() && Log(db, recorded)
    ensures Log(db.AddEvent(ev), recorded[db.nextId := ev])
  {
  }

  lemma {:induction false} HookKept(s: Sys, t: Sys, x: nat, c: Choice)
    requires x in s.hooks.execs && HookNext(s, t, x, c) && Log(s.db, s.books.recorded)
    ensures Log(t.db, t.books.recorded)
  {
    hide Log;
    if !s.hooks.execs[x].at.Recorded? && c.ok {
      RecordLog(s.db, s.books.recorded, t.books.recorded[s.db.nextId]);
    }
  }

  lemma {:induction false} SpawnKept(s: Sys, t: Sys, a: Actor, pc: Pc)
    requires Core(s) && Next(s, t, Spawn(a, pc))
    ensures Core(t)
  {
    forall b | b in t.actors
      ensures PcOk(t, b, t.actors[b])
    {
      assert b in s.actors ==> PcOk(s, b, s.actors[b]);
    }
  }

  // ---- Counting hooks

  lemma {:induction false} LaunchOneCounted(h: Hooks, j: JobId, cause: nat, name: string)
    requires Counted(h)
    ensures Counted(h.LaunchOne(j, cause, name))
  {
    var k := h.LaunchOne(j, cause, name);
    forall i
      ensures |HooksOf(k.execs, i)| == k.PendingOf(i)
    {
      assert |HooksOf(h.execs, i)| == h.PendingOf(i);
      assert HooksOf(k.execs, i) == if i == j then HooksOf(h.execs, i) + {h.nextExec} else HooksOf(h.execs, i);
    }
  }

  lemma {:induction false} LaunchCounted(h: Hooks, j: JobId, cause: nat, names: seq<string>)
    requires Counted(h)
    ensures Counted(h.Launch(j, cause, names))
    ensures var k := h.Launch(j, cause, names);
      forall x :: x in k.execs ==> (x in h.execs && k.execs[x] == h.execs[x]) || (k.execs[x].job == j && k.execs[x].cause == cause)
    decreases |names|
  {
    if names != [] {
      var front, last := names[..|names| - 1], names[|names| - 1];
      LaunchCounted(h, j, cause, front);
      LaunchOneCounted(h.Launch(j, cause, front), j, cause, last);
    }
  }

  lemma {:induction false} HookCounted(s: Sys, t: Sys, x: nat, c: Choice)
    requires x in s.hooks.execs && HookNext(s, t, x, c) && Counted(s.hooks)
    ensures Counted(t.hooks)
  {
    forall i
      ensures |HooksOf(t.hooks.execs, i)| == t.hooks.PendingOf(i)
    {
      assert |HooksOf(s.hooks.execs, i)| == s.hooks.PendingOf(i);
      if s.hooks.execs[x].at.Recorded? && i == s.hooks.execs[x].job {
        assert HooksOf(t.hooks.execs, i) == HooksOf(s.hooks.execs, i) - {x};
        assert x in HooksOf(s.hooks.execs, i);
      } else {
        assert HooksOf(t.hooks.execs, i) == HooksOf(s.hooks.execs, i);
      }
    }
  }

  lemma LaunchIs(s: Sys, t: Sys, a: Actor, c: Choice)
    requires a in s.actors && Next(s, t, Step(a, c)) && Launches(s.actors[a])
    ensures var pc := s.actors[a];
      && t.hooks == s.hooks.Launch(pc.job, if pc.SubmitHook? then 0 else pc.term, c.names)
      && t.books == if pc.SubmitHook? then s.books else s.books.Settle(pc.term)
  {
    hide Hooks.Launch;
  }

  lemma LaunchCause(s: Sys, a: Actor)
    requires Core(s) && a in s.actors && (s.actors[a].RunDispatch? || s.actors[a].CancelDispatch?)
    ensures s.actors[a].term in s.books.ended && s.books.ended[s.actors[a].term] == s.actors[a].job
  {
    assert PcOk(s, a, s.actors[a]);
    hide Held, Books, Log;
  }

  lemma {:induction false} LaunchKept(s: Sys, t: Sys, a: Actor, c: Choice)
    requires a in s.actors && Next(s, t, Step(a, c)) && Launches(s.actors[a])
    requires Core(s) && Counted(s.hooks) && Causes(s)
    ensures Counted(t.hooks) && Causes(t)
  {
    hide Core, Next, Counted, Hooks.Launch;
    var pc := s.actors[a];
    LaunchIs(s, t, a, c);
    LaunchCounted(s.hooks, pc.job, if pc.SubmitHook? then 0 else pc.term, c.names);
    if !pc.SubmitHook? {
      LaunchCause(s, a);
    }
  }

  lemma {:induction false} HookCauses(s: Sys, t: Sys, x: nat, c: Choice)
    requires x in s.hooks.execs && HookNext(s, t, x, c) && Causes(s)
    ensures Causes(t)
  {
  }

  // ---- Reaching a worker

  /** How a step by a bears on the way of queued jobs to a worker. */
  ghost predicate Onward(s: Sys, t: Sys, a: Actor) {
    && a in s.actors && a in t.actors && t.actors == s.actors[a := t.actors[a]]
    && (s.disturbed ==> t.disturbed) && |t.line.queue| <= QUEUE_CAP
    && (!t.disturbed ==>
      && (forall j :: j in t.db.jobs && t.db.jobs[j].status == Queued ==>
            t.actors[a].Carries(j) || j in t.line.queue || (!s.actors[a].Carries(j) && StatusIs(s, j, Queued)))
      && (forall j :: j in s.line.queue || j in s.line.backlog ==> j in t.line.queue || j in t.line.backlog || t.actors[a].Carries(j))
      && (t.line.backlog != [] ==>
            && s.line.backlog != []
            && (s.actors[a].IsAwake() ==> t.actors[a].IsAwake())
            && (s.line.token ==> t.line.token || t.actors[a].IsAwake())))
  }

  lemma {:induction false} OnwardKept(s: Sys, t: Sys, a: Actor)
    requires Onward(s, t, a) && NotStranded(s)
    ensures NotStranded(t)
  {
    if !t.disturbed {
      forall j | StatusIs(t, j, Queued)
        ensures Reached(t, j)
      {
        if StatusIs(s, j, Queued) && !s.actors[a].Carries(j) {
          assert Reached(s, j);
          if b :| b in s.actors && s.actors[b].Carries(j) {
            assert t.actors[b].Carries(j);
          }
        }
      }
      if t.line.backlog != [] && !t.line.token {
        if b :| b in s.actors && s.actors[b].IsAwake() {
          assert t.actors[b].IsAwake();
        }
      }
    }
  }

  lemma {:induction false} LoopOnward(s: Sys, t: Sys, a: Actor, c: Choice)
    requires a in s.actors && LoopNext(s, t, a, c) && PcOk(s, a, s.actors[a]) && |s.line.queue| <= QUEUE_CAP
    requires s.actors[a].Top? || s.actors[a].Select?
    ensures Onward(s, t, a)
  {
    match s.actors[a]
    case Top =>
    case _ =>
  }

  lemma {:induction false} ClaimOnward(s: Sys, t: Sys, a: Actor, c: Choice)
    requires a in s.actors && LoopNext(s, t, a, c) && PcOk(s, a, s.actors[a]) && |s.line.queue| <= QUEUE_CAP
    requires !s.actors[a].Top? && !s.actors[a].Select?
    ensures Onward(s, t, a)
  {
    match s.actors[a]
    case Delivered(_) =>
    case ClaimWrite(_) =>
    case _ =>
  }

  lemma {:induction false} PersistOnward(s: Sys, t: Sys, a: Actor, c: Choice)
    requires a in s.actors && RunNext(s, t, a, c) && PcOk(s, a, s.actors[a]) && |s.line.queue| <= QUEUE_CAP
    requires s.actors[a].Persisting?
    ensures Onward(s, t, a)
  {
  }

  lemma {:induction false} WorkOnward(s: Sys, t: Sys, a: Actor, c: Choice)
    requires a in s.actors && RunNext(s, t, a, c) && |s.line.queue| <= QUEUE_CAP
    requires s.actors[a].Starting? || s.actors[a].Processing?
    ensures Onward(s, t, a)
  {
    match s.actors[a]
    case Starting(_, _) =>
    case _ =>
  }

  lemma {:induction false} RunEndOnward(s: Sys, t: Sys, a: Actor, c: Choice)
    requires a in s.actors && RunNext(s, t, a, c) && |s.line.queue| <= QUEUE_CAP
    requires s.actors[a].RunDispatch? || s.actors[a].Cleanup?
    ensures Onward(s, t, a)
  {
    match s.actors[a]
    case Cleanup(_, _) =>
    case _ =>
  }

  lemma {:induction false} RunOnward(s: Sys, t: Sys, a: Actor, c: Choice)
    requires a in s.actors && RunNext(s, t, a, c) && PcOk(s, a, s.actors[a]) && |s.line.queue| <= QUEUE_CAP
    ensures Onward(s, t, a)
  {
    hide RunNext, Onward, PcOk;
    if s.actors[a].Starting? || s.actors[a].Processing? {
      WorkOnward(s, t, a, c);
    } else if s.actors[a].Persisting? {
      PersistOnward(s, t, a, c);
    } else {
      RunEndOnward(s, t, a, c) by {
        RunsOn(s, t, a, c);
      }
    }
  }

  lemma RunsOn(s: Sys, t: Sys, a: Actor, c: Choice)
    requires a in s.actors && RunNext(s, t, a, c)
    ensures s.actors[a].InRun()
  {
  }

  lemma {:induction false} CancelOnward(s: Sys, t: Sys, a: Actor, c: Choice)
    requires a in s.actors && CancelNext(s, t, a, c) && PcOk(s, a, s.actors[a]) && |s.line.queue| <= QUEUE_CAP
    ensures Onward(s, t, a)
  {
    hide Onward;
    if s.actors[a].CancelWrite? {
      CancelWriteOnward(s, t, a, c);
    } else {
      CancelRestOnward(s, t, a, c);
    }
  }

  lemma {:induction false} CancelWriteOnward(s: Sys, t: Sys, a: Actor, c: Choice)
    requires a in s.actors && s.actors[a].CancelWrite? && CancelNext(s, t, a, c) && |s.line.queue| <= QUEUE_CAP
    ensures Onward(s, t, a)
  {
  }

  lemma {:induction false} CancelRestOnward(s: Sys, t: Sys, a: Actor, c: Choice)
    requires a in s.actors && !s.actors[a].CancelWrite? && CancelNext(s, t, a, c) && |s.line.queue| <= QUEUE_CAP
    ensures Onward(s, t, a)
  {
    match s.actors[a]
    case CancelEnter(_) =>
    case _ =>
  }

  lemma {:induction false} RetryOnward(s: Sys, t: Sys, a: Actor, c: Choice)
    requires a in s.actors && RetryNext(s, t, a, c) && PcOk(s, a, s.actors[a]) && |s.line.queue| <= QUEUE_CAP
    ensures Onward(s, t, a)
  {
    hide Onward, RetryNext, PcOk;
    if s.actors[a].RetryWrite? || s.actors[a].RetryEvent? || s.actors[a].RetrySend? {
      RetrySendOnward(s, t, a, c);
    } else {
      RetryLookOnward(s, t, a, c);
    }
  }

  lemma {:induction false} RetryLookOnward(s: Sys, t: Sys, a: Actor, c: Choice)
    requires a in s.actors && RetryNext(s, t, a, c) && |s.line.queue| <= QUEUE_CAP
    requires !(s.actors[a].RetryWrite? || s.actors[a].RetryEvent? || s.actors[a].RetrySend?)
    ensures Onward(s, t, a)
  {
  }

  lemma {:induction false} RetrySendOnward(s: Sys, t: Sys, a: Actor, c: Choice)
    requires a in s.actors && RetryNext(s, t, a, c) && PcOk(s, a, s.actors[a]) && |s.line.queue| <= QUEUE_CAP
    requires s.actors[a].RetryWrite? || s.actors[a].RetryEvent? || s.actors[a].RetrySend?
    ensures Onward(s, t, a)
  {
    match s.actors[a]
    case RetryWrite(_) =>
    case _ =>
  }

  lemma {:induction false} DeleteOnward(s: Sys, t: Sys, a: Actor, c: Choice)
    requires a in s.actors && SubmitStep(s, t, a, c) && PcOk(s, a, s.actors[a]) && |s.line.queue| <= QUEUE_CAP
    requires s.actors[a].DeleteEnter? || s.actors[a].DeleteWrite?
    ensures Onward(s, t, a)
  {
    match s.actors[a]
    case DeleteEnter(_) =>
    case _ =>
  }

  lemma {:induction false} SubmitOnward(s: Sys, t: Sys, a: Actor, c: Choice)
    requires a in s.actors && SubmitStep(s, t, a, c) && PcOk(s, a, s.actors[a]) && |s.line.queue| <= QUEUE_CAP
    requires !s.actors[a].DeleteEnter? && !s.actors[a].DeleteWrite?
    ensures Onward(s, t, a)
  {
    match s.actors[a]
    case SubmitNext =>
    case SubmitCreate(_) =>
    case SubmitEvent(_) =>
    case _ =>
  }

  // ---- The theorem

  lemma {:induction false} StepKept(s: Sys, t: Sys, a: Actor, c: Choice)
    requires Inv(s) && Next(s, t, Step(a, c))
    ensures Inv(t)
  {
    hide Core, PcOk, Counted, Causes, NotStranded, Next, Shaped, Onward, HooksUntouched, Launches;
    StepActor(s, t, a, c);
    StepShape(s, t, a, c);
    ShapeKept(s, t, a);
    if Launches(s.actors[a]) {
      LaunchKept(s, t, a, c);
    } else {
      ShapeCauses(s, t, a);
    }
    StepOnward(s, t, a, c);
    OnwardKept(s, t, a);
  }

  lemma StepActor(s: Sys, t: Sys, a: Actor, c: Choice)
    requires Inv(s) && Next(s, t, Step(a, c))
    ensures a in s.actors && PcOk(s, a, s.actors[a])
  {
  }

  lemma {:induction false} ShapeCauses(s: Sys, t: Sys, a: Actor)
    requires a in s.actors && Shaped(s, t, a) && HooksUntouched(s, t) && Counted(s.hooks) && Causes(s)
    requires Core(s)
    ensures Counted(t.hooks) && Causes(t)
  {
    hide Counted;
    EndedGrows(s, t, a);
  }

  lemma {:induction false} EndedGrows(s: Sys, t: Sys, a: Actor)
    requires a in s.actors && Shaped(s, t, a) && Core(s)
    ensures forall e :: e in s.books.ended ==> e in t.books.ended && t.books.ended[e] == s.books.ended[e]
  {
    hide Actors, Held, Rows, Log, Quiet, Persists;
    if Quiet(s, t, a) {
      QuietBooks(s, t, a);
    } else if Persists(s, t, a) {
      PersistsBooks(s, t, a);
    }
  }

  lemma QuietBooks(s: Sys, t: Sys, a: Actor)
    requires Quiet(s, t, a)
    ensures t.books.ended == s.books.ended
  {
  }

  lemma PersistsBooks(s: Sys, t: Sys, a: Actor)
    requires a in s.actors && Persists(s, t, a) && Books(s)
    ensures forall e :: e in s.books.ended ==> e in t.books.ended && t.books.ended[e] == s.books.ended[e]
  {
  }

  lemma {:induction false} StepOnward(s: Sys, t: Sys, a: Actor, c: Choice)
    requires Inv(s) && Next(s, t, Step(a, c))
    ensures Onward(s, t, a)
  {
    assert PcOk(s, a, s.actors[a]);
    if s.actors[a].Top? || s.actors[a].Select? {
      LoopOnward(s, t, a, c);
    } else if s.actors[a].InLoop() {
      ClaimOnward(s, t, a, c);
    } else if s.actors[a].InRun() {
      RunOnward(s, t, a, c);
    } else if s.actors[a].InCancel() {
      CancelOnward(s, t, a, c);
    } else if s.actors[a].InRetry() {
      RetryOnward(s, t, a, c);
    } else if s.actors[a].DeleteEnter? || s.actors[a].DeleteWrite? {
      DeleteOnward(s, t, a, c);
    } else {
      SubmitOnward(s, t, a, c);
    }
  }

  lemma {:induction false} BackgroundStranded(s: Sys, t: Sys)
    requires Background(s, t) && NotStranded(s)
    ensures NotStranded(t)
  {
    forall j | Reached(s, j)
      ensures Reached(t, j)
    {
    }
  }

  lemma {:induction false} SpawnStranded(s: Sys, t: Sys, a: Actor, pc: Pc)
    requires Next(s, t, Spawn(a, pc)) && NotStranded(s)
    ensures NotStranded(t)
  {
    forall j | Reached(s, j)
      ensures Reached(t, j)
    {
      if b :| b in s.actors && s.actors[b].Carries(j) {
        assert t.actors[b].Carries(j);
      }
    }
    if b :| b in s.actors && s.actors[b].IsAwake() {
      assert t.actors[b].IsAwake();
    }
  }

  lemma {:induction false} InvKept(s: Sys, t: Sys, act: Action)
    requires Inv(s) && Next(s, t, act)
    ensures Inv(t)
  {
    hide Inv, Next;
    match act
    case Spawn(a, pc) => SpawnInv(s, t, a, pc);
    case Step(a, c) => StepKept(s, t, a, c);
    case Hook(x, c) => HookInv(s, t, x, c);
    case Motion(j) => MotionInv(s, t, j);
  }

  lemma {:induction false} SpawnInv(s: Sys, t: Sys, a: Actor, pc: Pc)
    requires Inv(s) && Next(s, t, Spawn(a, pc))
    ensures Inv(t)
  {
    hide Core, NotStranded, Counted;
    SpawnKept(s, t, a, pc);
    SpawnStranded(s, t, a, pc);
  }

  lemma {:induction false} HookInv(s: Sys, t: Sys, x: nat, c: Choice)
    requires Inv(s) && Next(s, t, Hook(x, c))
    ensures Inv(t)
  {
    hide Actors, Held, Rows, Books, Log, NotStranded, Counted, Causes, HookNext, Background;
    HookBackground(s, t, x, c);
    HookKept(s, t, x, c);
    HookCounted(s, t, x, c);
    HookCauses(s, t, x, c);
    BackgroundActors(s, t);
    BackgroundRows(s, t);
    BackgroundStranded(s, t);
  }

  lemma {:induction false} MotionInv(s: Sys, t: Sys, j: JobId)
    requires Inv(s) && Next(s, t, Motion(j))
    ensures Inv(t)
  {
    hide Actors, Held, Rows, Books, Log, NotStranded, Counted, Causes, Background, Next;
    MotionBackground(s, t, j);
    BackgroundActors(s, t);
    BackgroundRows(s, t);
    BackgroundStranded(s, t);
    SameCauses(s, t);
  }

  lemma {:induction false} MotionBackground(s: Sys, t: Sys, j: JobId)
    requires Next(s, t, Motion(j)) && Log(s.db, s.books.recorded)
    ensures Background(s, t) && t.hooks == s.hooks && t.books == s.books.(muted := t.books.muted) && Log(t.db, t.books.recorded)
  {
  }

  lemma SameCauses(s: Sys, t: Sys)
    requires Causes(s) && t.hooks == s.hooks && t.books == s.books.(muted := t.books.muted)
    ensures Causes(t)
  {
  }
}

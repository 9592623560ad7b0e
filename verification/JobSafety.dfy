/** The guarantees of the job manager, over every run from a recovered start. */
module JobSafety {
  import opened Wrappers
  import opened JobStore
  import opened JobLifecycle
  import opened JobInvariants
  import opened JobHistory

  // ---- Start

  /** A process that has opened db and started nothing. Terminal events of earlier
      processes count as dispatched. */
  function Idle(db: Store, ended: map<nat, JobId>): Sys {
    Sys(db, Locks(None, None), Marks(map[], map[]), Runs({}, 0), Hooks(map[], map[], 0), Line([], [], false),
        map[], Ledger(ended, map[], map e | e in ended :: 1, map[], {}), false)
  }

  /** A store as an earlier process may have left it: terminal rows have their
      terminal event on file, and at most one job per key is queued or running. */
  ghost predicate Restartable(db: Store, ended: map<nat, JobId>) {
    && Log(db, map[])
    && (forall e :: e in ended ==> 0 < e < db.nextId)
    && (forall j :: j in db.jobs && db.jobs[j].status.IsTerminal() ==>
          var e := db.jobs[j].term;
          && e in ended && ended[e] == j
          && e in db.log && db.log[e].job == j && db.log[e].kind.IsTerminal())
    && (forall i, j ::
          && i in db.jobs && j in db.jobs && db.jobs[i].key == db.jobs[j].key && db.IsActive(i) && db.IsActive(j)
          ==> i == j)
  }

  function Workers(n: nat): (m: map<Actor, Pc>)
    ensures forall a: Actor :: a in m <==> a < n
    ensures forall a: Actor :: a in m ==> m[a] == Top
  {
    if n == 0 then map[] else var m := Workers(n - 1); m[n - 1 := Top]
  }

  /** The rows as recovery leaves them: those in the backlog queued, the rest alone. */
  ghost predicate Requeued(db: Store, now: Store, backlog: seq<JobId>) {
    && (forall j :: j in now.jobs <==> j in db.jobs)
    && (forall j :: j in now.jobs ==> now.jobs[j] == if j in backlog then db.jobs[j].(status := Queued) else db.jobs[j])
  }

  /** The events from..to are job_recovered, one per job in order. */
  ghost predicate Announced(log: map<nat, Event>, from: nat, to: nat, jobs: seq<JobId>) {
    && to == from + |jobs|
    && forall e :: from <= e < to ==> e in log && log[e] == Event(jobs[e - from], JobRecovered, 0)
  }

  lemma {:induction false} RequeuedRestartable(db: Store, ended: map<nat, JobId>, j: JobId)
    requires Restartable(db, ended) && db.IsActive(j)
    ensures Restartable(db.UpdateJob(j, Queued), ended)
  {
  }

  lemma {:induction false} AnnouncedRestartable(db: Store, ended: map<nat, JobId>, j: JobId)
    requires Restartable(db, ended)
    ensures Restartable(db.AddEvent(Event(j, JobRecovered, 0)), ended)
  {
  }

  /** One write of a recovery pass: a job back to queued, or its event. */
  ghost predicate Recovering(db: Store, now: Store) {
    exists j :: db.IsActive(j) && (now == db.UpdateJob(j, Queued) || now == db.AddEvent(Event(j, JobRecovered, 0)))
  }

  /** The writes of a recovery pass up to where it ended or failed. */
  ghost predicate RecoveryPath(path: seq<Store>) {
    path != [] && forall i :: 0 < i < |path| ==> path[i] == path[i - 1] || Recovering(path[i - 1], path[i])
  }

  lemma {:induction false} PathRestartable(path: seq<Store>, ended: map<nat, JobId>)
    requires RecoveryPath(path) && Restartable(path[0], ended)
    ensures Restartable(path[|path| - 1], ended)
    decreases |path|
  {
    hide Restartable;
    if |path| > 1 {
      var db, now := path[|path| - 2], path[|path| - 1];
      assert RecoveryPath(path[..|path| - 1]);
      PathRestartable(path[..|path| - 1], ended);
      assert now == db || Recovering(db, now);
      if now != db {
        var j :| db.IsActive(j) && (now == db.UpdateJob(j, Queued) || now == db.AddEvent(Event(j, JobRecovered, 0)));
        RequeuedRestartable(db, ended, j);
        AnnouncedRestartable(db, ended, j);
      }
    }
  }

  lemma PathGoesOn(path: seq<Store>, mid: Store, now: Store)
    requires RecoveryPath(path) && (mid == path[|path| - 1] || Recovering(path[|path| - 1], mid))
    requires now == mid || Recovering(mid, now)
    ensures RecoveryPath(path + [mid, now])
  {
    hide Recovering;
  }

  /** The state in which a process starts: it opened db, its recovery pass made some
      writes, all of them unless one failed, and its workers are idle. */
  ghost predicate StartsFrom(s: Sys, db: Store, ended: map<nat, JobId>) {
    exists path, backlog, workers :: Launched(s, path, backlog, workers, ended) && path != [] && path[0] == db
  }

  ghost predicate Launched(s: Sys, path: seq<Store>, backlog: seq<JobId>, workers: nat, ended: map<nat, JobId>) {
    && RecoveryPath(path)
    && s == Idle(path[|path| - 1], ended).(line := Line([], backlog, backlog != []), actors := Workers(workers), disturbed := s.disturbed)
    && (!s.disturbed ==> forall j :: StatusIs(s, j, Queued) ==> j in backlog)
  }

  datatype Recovery = NotRequeued | NotAnnounced | Complete

  /** The store calls of a recovery pass that would fail: of which jobs the update, and
      of which the event. */
  datatype Faults = Faults(updates: set<JobId>, events: set<JobId>) {
    function Of(db: Store, j: JobId): Recovery {
      if j in db.jobs && db.jobs[j].status == Status.Running && j in updates then NotRequeued
      else if j in events then NotAnnounced
      else Complete
    }
  }

  /** One job of the recovery pass: back to queued, then its event. */
  method RecoverOne(db: Store, ghost ended: map<nat, JobId>, j: JobId, faults: Faults)
    returns (now: Store, done: Recovery, ghost mid: Store)
    requires Restartable(db, ended) && db.IsActive(j)
    ensures done == faults.Of(db, j)
    ensures Restartable(now, ended)
    ensures (mid == db || Recovering(db, mid)) && (now == mid || Recovering(mid, now))
    ensures done.NotRequeued? ==> now == db
    ensures done.NotAnnounced? ==> now == db.UpdateJob(j, Queued)
    ensures done.Complete? ==>
      && now.jobs == db.jobs[j := db.jobs[j].(status := Queued)]
      && now.log == db.log[db.nextId := Event(j, JobRecovered, 0)] && now.nextId == db.nextId + 1
  {
    hide Restartable;
    now, mid := db, db;
    if db.jobs[j].status == Status.Running {
      if j in faults.updates {
        return now, NotRequeued, mid;
      }
      RequeuedRestartable(now, ended, j);
      now := now.UpdateJob(j, Queued);
      mid := now;
    }
    if j in faults.events {
      return now, NotAnnounced, mid;
    }
    AnnouncedRestartable(now, ended, j);
    assert mid.IsActive(j);
    return now.AddEvent(Event(j, JobRecovered, 0)), Complete, mid;
  }

  /** RecoverUnfinished, then Start. unfinished is what ListRecoverableJobs read:
      the queued and running jobs. The first k went through; a job whose event failed
      is still enqueued, and the pass ends with it. */
  method Recover(db: Store, ended: map<nat, JobId>, unfinished: seq<JobId>, workers: nat, faults: Faults)
    returns (s: Sys, recovered: nat, ghost k: nat)
    requires Restartable(db, ended)
    requires forall j :: j in unfinished <==> db.IsActive(j)
    requires forall i, k :: 0 <= i < k < |unfinished| ==> unfinished[i] != unfinished[k]
    ensures Inv(s) && StartsFrom(s, db, ended)
    ensures k <= |unfinished| && forall i :: 0 <= i < k ==> faults.Of(db, unfinished[i]).Complete?
    ensures k < |unfinished| ==> !faults.Of(db, unfinished[k]).Complete?
    ensures s.disturbed <==> k < |unfinished|
    ensures var last := if k < |unfinished| then faults.Of(db, unfinished[k]) else Complete;
      && s.line.backlog == unfinished[..if last.NotAnnounced? then k + 1 else k] && s.line.queue == []
      && recovered == if last.NotRequeued? then 0 else |s.line.backlog|
    ensures Requeued(db, s.db, s.line.backlog) && Announced(s.db.log, db.nextId, s.db.nextId, unfinished[..k])
  {
    hide Inv, Restartable, RecoveryPath, Recovering, Requeued, Announced, StartsFrom, Launched;
    var now, backlog, done := db, [], Complete;
    ghost var path := [db];
    ghost var mid := db;
    PathStarts(db);
    NoneRecovered(db);
    recovered, k := 0, 0;
    while |backlog| < |unfinished| && done.Complete?
      invariant Restartable(now, ended)
      invariant path != [] && RecoveryPath(path) && path[0] == db && path[|path| - 1] == now
      invariant backlog <= unfinished && k <= |unfinished| && forall i :: 0 <= i < k ==> faults.Of(db, unfinished[i]).Complete?
      invariant if done.Complete? then k == |backlog| else k < |unfinished| && faults.Of(db, unfinished[k]) == done
      invariant backlog == unfinished[..if done.NotAnnounced? then k + 1 else k]
      invariant recovered == if done.NotRequeued? then 0 else |backlog|
      invariant Requeued(db, now, backlog) && Announced(now.log, db.nextId, now.nextId, unfinished[..k])
      decreases |unfinished| - |backlog|, done.Complete?
    {
      var j := unfinished[|backlog|];
      assert j in unfinished && j !in backlog;
      StillActive(db, now, backlog, j);
      ghost var before := now;
      SameRow(db, now, backlog, j);
      now, done, mid := RecoverOne(now, ended, j, faults);
      match done {
        case Complete =>
          OneMoreRecovered(db, before, now, backlog, j);
          k := k + 1;
        case NotAnnounced =>
          OneMoreRequeued(db, before, now, backlog, j);
        case NotRequeued =>
      }
      PathGoesOn(path, mid, now);
      path := path + [mid, now];
      if done.NotRequeued? {
        recovered := 0;
      } else {
        backlog, recovered := backlog + [j], recovered + 1;
      }
    }
    if done.Complete? {
      assert backlog == unfinished;
      QueuedIn(db, now, backlog);
    }
    s := Idle(now, ended).(line := Line([], backlog, backlog != []), actors := Workers(workers), disturbed := !done.Complete?);
    Started(now, ended, backlog, workers, !done.Complete?);
    LaunchedSo(s, db, path, backlog, workers, ended);
  }

  lemma NoneRecovered(db: Store)
    ensures Requeued(db, db, []) && Announced(db.log, db.nextId, db.nextId, [])
  {
  }

  lemma StillActive(db: Store, now: Store, backlog: seq<JobId>, j: JobId)
    requires Requeued(db, now, backlog) && j !in backlog && db.IsActive(j)
    ensures now.IsActive(j)
  {
  }

  lemma SameRow(db: Store, now: Store, backlog: seq<JobId>, j: JobId)
    requires Requeued(db, now, backlog) && j !in backlog && j in now.jobs
    ensures now.jobs[j] == db.jobs[j]
  {
  }

  lemma {:induction false} OneMoreRequeued(db: Store, before: Store, now: Store, backlog: seq<JobId>, j: JobId)
    requires Requeued(db, before, backlog) && Announced(before.log, db.nextId, before.nextId, backlog)
    requires j !in backlog && before.IsActive(j) && now == before.UpdateJob(j, Queued)
    ensures Requeued(db, now, backlog + [j]) && Announced(now.log, db.nextId, now.nextId, backlog)
  {
  }

  lemma {:induction false} OneMoreRecovered(db: Store, before: Store, now: Store, backlog: seq<JobId>, j: JobId)
    requires Requeued(db, before, backlog) && Announced(before.log, db.nextId, before.nextId, backlog)
    requires j !in backlog && before.IsActive(j)
    requires now.jobs == before.jobs[j := before.jobs[j].(status := Queued)]
    requires now.log == before.log[before.nextId := Event(j, JobRecovered, 0)] && now.nextId == before.nextId + 1
    ensures Requeued(db, now, backlog + [j]) && Announced(now.log, db.nextId, now.nextId, backlog + [j])
  {
  }

  lemma QueuedIn(db: Store, now: Store, backlog: seq<JobId>)
    requires Requeued(db, now, backlog) && forall j :: db.IsActive(j) ==> j in backlog
    ensures forall j :: j in now.jobs && now.jobs[j].status == Queued ==> j in backlog
  {
  }

  lemma LaunchedSo(s: Sys, db: Store, path: seq<Store>, backlog: seq<JobId>, workers: nat, ended: map<nat, JobId>)
    requires RecoveryPath(path) && path != [] && path[0] == db
    requires s == Idle(path[|path| - 1], ended).(line := Line([], backlog, backlog != []), actors := Workers(workers), disturbed := s.disturbed)
    requires !s.disturbed ==> forall j :: j in s.db.jobs && s.db.jobs[j].status == Queued ==> j in backlog
    ensures StartsFrom(s, db, ended)
  {
    hide RecoveryPath, Workers;
    assert Launched(s, path, backlog, workers, ended);
  }

  lemma PathStarts(db: Store)
    ensures RecoveryPath([db])
  {
  }

  lemma IdleWorker(s: Sys, a: Actor)
    requires a in s.actors && s.actors[a].Top?
    ensures PcOk(s, a, s.actors[a])
  {
  }

  lemma {:induction false} Started(db: Store, ended: map<nat, JobId>, backlog: seq<JobId>, workers: nat, failed: bool)
    requires Restartable(db, ended)
    requires !failed ==> forall j :: j in db.jobs && db.jobs[j].status == Queued ==> j in backlog
    ensures Inv(Idle(db, ended).(line := Line([], backlog, backlog != []), actors := Workers(workers), disturbed := failed))
  {
    var s := Idle(db, ended).(line := Line([], backlog, backlog != []), actors := Workers(workers), disturbed := failed);
    hide Actors, Held, Rows, Books, Log, Counted, Causes, NotStranded, Restartable, Workers;
    IdleWorkers(s, workers);
    IdleRowsOk(s, ended);
    NoHooks(s.hooks);
    NothingLeftOver(s);
  }

  lemma {:induction false} IdleWorkers(s: Sys, workers: nat)
    requires s.actors == Workers(workers)
    ensures Actors(s)
  {
    hide PcOk;
    forall a | a in s.actors
      ensures PcOk(s, a, s.actors[a])
    {
      IdleWorker(s, a);
    }
  }

  lemma {:induction false} IdleRowsOk(s: Sys, ended: map<nat, JobId>)
    requires Restartable(s.db, ended) && s.marks == Marks(map[], map[])
    requires s.books == Ledger(ended, map[], map e | e in ended :: 1, map[], {})
    ensures Rows(s) && Books(s) && Log(s.db, s.books.recorded)
  {
  }

  lemma {:induction false} NoHooks(h: Hooks)
    requires h == Hooks(map[], map[], 0)
    ensures Counted(h)
  {
    forall j
      ensures |HooksOf(h.execs, j)| == h.PendingOf(j)
    {
      assert HooksOf(h.execs, j) == {};
    }
  }

  lemma {:induction false} NothingLeftOver(s: Sys)
    requires s.locks == Locks(None, None) && s.marks == Marks(map[], map[]) && s.books.owing == map[]
    requires s.hooks.execs == map[] && s.books.recorded == map[]
    requires s.line == Line([], s.line.backlog, s.line.backlog != [])
    requires !s.disturbed ==> forall j :: j in s.db.jobs && s.db.jobs[j].status == Queued ==> j in s.line.backlog
    ensures Held(s) && Causes(s) && NotStranded(s)
  {
  }

  // ---- One worker per job

  /** At most one worker runs a job, and the entry its cleanup removes is its own. */
  lemma {:induction false} OneWorker(s: Sys, a: Actor, b: Actor, j: JobId)
    requires Inv(s) && a in s.actors && b in s.actors && s.actors[a].Runs(j)
    ensures j in s.marks.cancels && s.marks.cancels[j] == a
    ensures s.actors[b].Runs(j) ==> a == b
  {
    assert PcOk(s, a, s.actors[a]);
    assert PcOk(s, b, s.actors[b]);
  }

  lemma {:induction false} OthersKeepMarks(s: Sys, t: Sys, a: Actor)
    requires a in s.actors && Shaped(s, t, a) && !SetsMark(s, t, a) && !DropsMark(s, t, a)
    ensures t.marks == s.marks
  {
  }

  /** A worker claims a job nobody runs, cancels or finalizes, and what it then
      registers replaces no other entry; its cleanup takes out that entry alone. */
  lemma {:induction false} EntriesAreOwn(s: Sys, t: Sys, a: Actor, c: Choice)
    requires Inv(s) && Next(s, t, Step(a, c)) && t.marks != s.marks
    ensures s.actors[a].ClaimRegister? ==>
      !s.FinalizeInFlight(s.actors[a].job) && t.marks == s.marks.(cancels := s.marks.cancels[s.actors[a].job := a])
    ensures s.actors[a].CancelMark? ==>
      !s.FinalizeInFlight(s.actors[a].job) && t.marks == s.marks.(finalizing := s.marks.finalizing[s.actors[a].job := a])
    ensures s.actors[a].Cleanup? ==>
      s.marks.cancels[s.actors[a].job] == a && t.marks == s.marks.(cancels := s.marks.cancels - {s.actors[a].job})
    ensures s.actors[a].CancelClear? ==>
      s.marks.finalizing[s.actors[a].job] == a && t.marks == s.marks.(finalizing := s.marks.finalizing - {s.actors[a].job})
    ensures s.actors[a].ClaimRegister? || s.actors[a].CancelMark? || s.actors[a].Cleanup? || s.actors[a].CancelClear?
  {
    assert PcOk(s, a, s.actors[a]);
    StepShape(s, t, a, c);
    if !SetsMark(s, t, a) && !DropsMark(s, t, a) {
      OthersKeepMarks(s, t, a);
    }
  }

  // ---- Terminal events

  ghost predicate Ends(s: Sys, t: Sys, j: JobId) {
    s.db.IsActive(j) && Ended(t, j)
  }

  predicate EventFits(status: Status, kind: Kind) {
    match status
    case Completed => kind.JobFinished?
    case Failed => kind.JobFinished? || kind.JobFailed?
    case Cancelled => kind.JobCancelled?
    case _ => false
  }

  lemma {:induction false} OthersEndNothing(s: Sys, t: Sys, a: Actor)
    requires a in s.actors && PcOk(s, a, s.actors[a]) && Shaped(s, t, a) && !Persists(s, t, a)
    ensures t.books.ended == s.books.ended
    ensures forall j :: !Ends(s, t, j)
  {
    if Deletes(s, t, a) {
    } else if Dispatches(s, t, a) {
      assert t.db == s.db;
    }
  }

  lemma {:induction false} PersistEnds(s: Sys, t: Sys, a: Actor)
    requires a in s.actors && PcOk(s, a, s.actors[a]) && Persists(s, t, a)
    ensures forall j :: Ends(s, t, j) ==> j == s.actors[a].job
    ensures var j := s.actors[a].job;
      && Ends(s, t, j)
      && t.books.ended == s.books.ended[s.db.nextId := j] && t.db.nextId == s.db.nextId + 1
      && t.db.jobs[j].term == s.db.nextId && s.db.nextId in t.db.log
      && t.db.log[s.db.nextId].job == j && EventFits(t.db.jobs[j].status, t.db.log[s.db.nextId].kind)
  {
  }

  /** A step ends job j exactly when it files a terminal event for it; it files at
      most one, and the event fits the status written with it. */
  lemma {:induction false} EndsWithOneEvent(s: Sys, t: Sys, a: Actor, c: Choice)
    requires Inv(s) && Next(s, t, Step(a, c))
    ensures forall j :: Ends(s, t, j) ==>
      && t.books.ended == s.books.ended[s.db.nextId := j] && t.db.nextId == s.db.nextId + 1
      && t.db.jobs[j].term == s.db.nextId && s.db.nextId in t.db.log
      && t.db.log[s.db.nextId].job == j && EventFits(t.db.jobs[j].status, t.db.log[s.db.nextId].kind)
    ensures t.books.ended != s.books.ended ==> exists j :: Ends(s, t, j)
  {
    assert PcOk(s, a, s.actors[a]);
    StepShape(s, t, a, c);
    hide Inv, PcOk, EventFits;
    if Persists(s, t, a) {
      PersistEnds(s, t, a);
    } else {
      OthersEndNothing(s, t, a);
    }
  }

  predicate AtRest(pc: Pc) {
    pc.Top? || pc.Select? || pc.Done?
  }

  /** Once every call has returned and every worker is idle, each terminal event has
      been dispatched exactly once, and no lock, mark or debt is left. */
  lemma {:induction false} DispatchedExactlyOnce(s: Sys)
    requires Inv(s) && forall a :: a in s.actors ==> AtRest(s.actors[a])
    ensures s.books.dispatched.Keys == s.books.ended.Keys
    ensures forall e :: e in s.books.ended ==> s.books.dispatched[e] == 1
    ensures s.locks == Locks(None, None) && s.marks == Marks(map[], map[]) && s.books.owing == map[]
  {
    hide Actors, Held, Rows, Log, Counted, Causes, NotStranded;
    NothingHeld(s);
  }

  lemma {:induction false} NothingHeld(s: Sys)
    requires Held(s) && forall a :: a in s.actors ==> AtRest(s.actors[a])
    ensures s.locks == Locks(None, None) && s.marks == Marks(map[], map[]) && s.books.owing == map[]
  {
    assert forall a :: a in s.actors ==> !s.actors[a].HoldsMu() && !s.actors[a].HoldsSubmit() && s.actors[a].Owes().None?;
    assert s.marks.cancels == map[] && s.marks.finalizing == map[] && s.books.owing == map[];
  }

  /** A run whose cancel was requested before it reported an outcome never ends
      completed. */
  ghost predicate CancelHeeded(s: Sys, run: nat) {
    && run in s.runs.stopped
    && forall a :: a in s.actors && s.actors[a].Persisting? && s.actors[a].run == run ==> s.actors[a].status != Completed
  }

  lemma {:induction false} WorkerHeeds(s: Sys, t: Sys, a: Actor, c: Choice, run: nat)
    requires a in s.actors && CancelHeeded(s, run)
    requires if s.actors[a].InRun() then RunNext(s, t, a, c) else LoopNext(s, t, a, c)
    ensures CancelHeeded(t, run)
  {
    if s.actors[a].Processing? {
    }
  }

  lemma {:induction false} CallerHeeds(s: Sys, t: Sys, a: Actor, c: Choice, run: nat)
    requires a in s.actors && !s.actors[a].InLoop() && !s.actors[a].InRun() && CancelHeeded(s, run)
    requires CancelNext(s, t, a, c) || RetryNext(s, t, a, c) || SubmitStep(s, t, a, c)
    ensures CancelHeeded(t, run)
  {
  }

  lemma {:induction false} CancelHeededStep(s: Sys, t: Sys, act: Action, run: nat)
    requires Next(s, t, act) && CancelHeeded(s, run)
    ensures CancelHeeded(t, run)
  {
    if act.Step? {
      if s.actors[act.who].InLoop() || s.actors[act.who].InRun() {
        WorkerHeeds(s, t, act.who, act.choice, run);
      } else {
        CallerHeeds(s, t, act.who, act.choice, run);
      }
    }
  }

  lemma {:induction false} CancelWins(steps: seq<Sys>, run: nat)
    requires IsRun(steps) && CancelHeeded(steps[0], run)
    ensures CancelHeeded(steps[|steps| - 1], run)
    decreases |steps|
  {
    if |steps| > 1 {
      var front := steps[..|steps| - 1];
      assert IsRun(front) by {
        forall i | 0 < i < |front|
          ensures Steps(front[i - 1], front[i])
        {
          assert Steps(steps[i - 1], steps[i]);
        }
      }
      CancelWins(front, run);
      assert Steps(steps[|steps| - 2], steps[|steps| - 1]);
      var act :| Next(steps[|steps| - 2], steps[|steps| - 1], act);
      CancelHeededStep(steps[|steps| - 2], steps[|steps| - 1], act, run);
    }
  }

  // ---- Announcements

  /** A step that has changed a job's row and fails to file the milestone for it. */
  predicate FailsToAnnounce(s: Sys, a: Actor, c: Choice, j: JobId) {
    a in s.actors && !c.ok && s.actors[a].WillAnnounce(j) && !s.actors[a].ClaimRegister?
  }

  lemma {:induction false} WorkerMutes(s: Sys, t: Sys, a: Actor, c: Choice, j: JobId)
    requires a in s.actors && j in t.books.muted && j !in s.books.muted
    requires if s.actors[a].InRun() then RunNext(s, t, a, c) else LoopNext(s, t, a, c)
    ensures FailsToAnnounce(s, a, c, j)
  {
  }

  lemma {:induction false} CancelMutes(s: Sys, t: Sys, a: Actor, c: Choice)
    requires a in s.actors && CancelNext(s, t, a, c)
    ensures t.books.muted <= s.books.muted
  {
    if s.actors[a].CancelEnter? {
    }
  }

  lemma {:induction false} RetryMutes(s: Sys, t: Sys, a: Actor, c: Choice, j: JobId)
    requires a in s.actors && j in t.books.muted && j !in s.books.muted && RetryNext(s, t, a, c)
    ensures FailsToAnnounce(s, a, c, j)
  {
  }

  lemma {:induction false} DeleteMutes(s: Sys, t: Sys, a: Actor, c: Choice)
    requires a in s.actors && (s.actors[a].DeleteEnter? || s.actors[a].DeleteWrite?) && SubmitStep(s, t, a, c)
    ensures t.books.muted <= s.books.muted
  {
  }

  lemma {:induction false} SubmitMutes(s: Sys, t: Sys, a: Actor, c: Choice, j: JobId)
    requires a in s.actors && !s.actors[a].DeleteEnter? && !s.actors[a].DeleteWrite?
    requires j in t.books.muted && j !in s.books.muted && SubmitStep(s, t, a, c)
    ensures FailsToAnnounce(s, a, c, j)
  {
  }

  lemma {:induction false} OthersMuteNothing(s: Sys, t: Sys, act: Action)
    requires Next(s, t, act) && !act.Step?
    ensures t.books.muted <= s.books.muted
  {
  }

  /** Nothing else silences a job: no failure of another job's, no other failed store
      call, no shutdown. */
  lemma {:induction false} OnlyItsOwnEvent(s: Sys, t: Sys, act: Action, j: JobId)
    requires Next(s, t, act) && j in t.books.muted && j !in s.books.muted
    ensures act.Step? && FailsToAnnounce(s, act.who, act.choice, j)
  {
    hide FailsToAnnounce, LoopNext, RunNext, CancelNext, RetryNext, SubmitStep, HookNext;
    if !act.Step? {
      OthersMuteNothing(s, t, act);
    } else {
      if s.actors[act.who].InLoop() || s.actors[act.who].InRun() {
        WorkerMutes(s, t, act.who, act.choice, j);
      } else {
        if s.actors[act.who].InCancel() {
          CancelMutes(s, t, act.who, act.choice);
        } else if s.actors[act.who].InRetry() {
          RetryMutes(s, t, act.who, act.choice, j);
        } else if s.actors[act.who].DeleteEnter? || s.actors[act.who].DeleteWrite? {
          DeleteMutes(s, t, act.who, act.choice);
        } else {
          SubmitMutes(s, t, act.who, act.choice, j);
        }
      }
    }
  }

  // ---- Admission

  lemma {:induction false} OthersActivateNothing(s: Sys, t: Sys, a: Actor)
    requires a in s.actors && PcOk(s, a, s.actors[a]) && Shaped(s, t, a) && !Updates(s, t, a) && !Creates(s, t, a)
    ensures forall j :: t.db.IsActive(j) ==> s.db.IsActive(j)
  {
    if Persists(s, t, a) {
      assert forall j :: j in t.db.jobs && j != s.actors[a].job ==> t.db.jobs[j] == s.db.jobs[j];
    } else if Dispatches(s, t, a) {
      assert t.db == s.db;
    }
  }

  /** The lookup under submitMu is enough: when a row is inserted or requeued, no
      other active row has its key, so the unique index never fires. */
  lemma {:induction false} KeysUnique(s: Sys, t: Sys, a: Actor, c: Choice, j: JobId)
    requires Inv(s) && Next(s, t, Step(a, c)) && !s.db.IsActive(j) && t.db.IsActive(j)
    ensures s.locks.submitMu == Some(a)
    ensures forall i :: s.db.IsActive(i) ==> s.db.jobs[i].key != t.db.jobs[j].key
  {
    assert PcOk(s, a, s.actors[a]);
    StepShape(s, t, a, c);
    if !Updates(s, t, a) && !Creates(s, t, a) {
      OthersActivateNothing(s, t, a);
    }
  }

  /** Without store failures or shutdown, a queued job is in the admission queue, in
      the backlog, or held by an actor about to send or to claim it; and a non-empty
      backlog has its signal pending or a worker that will look at it. */
  lemma {:induction false} NothingStranded(s: Sys, j: JobId)
    requires Inv(s) && !s.disturbed && StatusIs(s, j, Queued)
    ensures j in s.line.queue || j in s.line.backlog || exists a :: a in s.actors && s.actors[a].Carries(j)
    ensures s.line.backlog != [] ==> s.line.token || exists a :: a in s.actors && s.actors[a].IsAwake()
  {
    assert Reached(s, j);
  }

  /** What the manager guarantees at any moment. */
  ghost predicate Guarantees(s: Sys) {
    // at most one worker runs a job, and the cancel entry of the job is that worker's
    && (forall a, j :: a in s.actors && s.actors[a].Runs(j) ==> j in s.marks.cancels && s.marks.cancels[j] == a)
    // a queued job is neither running nor being finalized
    && (forall j :: j in s.db.jobs && s.db.jobs[j].status == Queued ==> !s.FinalizeInFlight(j))
    // a terminal event is either still to be dispatched or has been, once
    && (forall e :: e in s.books.ended ==> (e in s.books.owing <==> e !in s.books.dispatched))
    && (forall e :: e in s.books.ended && e in s.books.dispatched ==> s.books.dispatched[e] == 1)
    // at most one active job per key
    && (forall i, j :: s.db.IsActive(i) && s.db.IsActive(j) && s.db.jobs[i].key == s.db.jobs[j].key ==> i == j)
    // the admission queue never overflows, and no queued job is stranded
    && |s.line.queue| <= QUEUE_CAP
    && (!s.disturbed ==> forall j :: StatusIs(s, j, Queued) ==> Reached(s, j))
  }

  lemma {:induction false} InvGuarantees(s: Sys)
    requires Inv(s)
    ensures Guarantees(s)
  {
    forall a, j | a in s.actors && s.actors[a].Runs(j)
      ensures j in s.marks.cancels && s.marks.cancels[j] == a
    {
      OneWorker(s, a, a, j);
    }
  }

  /** Whatever moment a process stops at, the next one can start from its store. */
  lemma {:induction false} LeavesRestartable(s: Sys)
    requires Inv(s)
    ensures Restartable(s.db, s.books.ended)
  {
  }

  lemma {:induction false} StartsWell(s: Sys, db: Store, ended: map<nat, JobId>)
    requires Restartable(db, ended) && StartsFrom(s, db, ended)
    ensures Inv(s)
  {
    hide Inv, Restartable, RecoveryPath, Idle, Workers;
    var path, backlog, workers :| Launched(s, path, backlog, workers, ended) && path != [] && path[0] == db;
    PathRestartable(path, ended);
    var now := path[|path| - 1];
    IdleRows(s, now, ended, backlog, workers);
    Started(now, ended, backlog, workers, s.disturbed);
  }

  lemma IdleRows(s: Sys, now: Store, ended: map<nat, JobId>, backlog: seq<JobId>, workers: nat)
    requires s == Idle(now, ended).(line := Line([], backlog, backlog != []), actors := Workers(workers), disturbed := s.disturbed)
    ensures s.db == now
  {
  }

  /** The runs of successive processes: each stops anywhere, and the next starts from
      the store as it left it. */
  ghost predicate Lives(lives: seq<seq<Sys>>, db: Store, ended: map<nat, JobId>) {
    && (forall k :: 0 <= k < |lives| ==> IsRun(lives[k]))
    && (lives != [] ==> StartsFrom(lives[0][0], db, ended))
    && (forall k :: 0 < k < |lives| ==>
          var last := lives[k - 1][|lives[k - 1]| - 1]; StartsFrom(lives[k][0], last.db, last.books.ended))
  }

  lemma {:induction false} OneLife(run: seq<Sys>, i: nat)
    requires IsRun(run) && i < |run| && Inv(run[0])
    ensures Inv(run[i])
  {
    hide Inv;
    var part := run[..i + 1];
    forall k | 0 < k < |part|
      ensures Steps(part[k - 1], part[k])
    {
      assert Steps(run[k - 1], run[k]);
    }
    RunLater(part);
  }

  /** They hold at every moment of every process, whatever failed during recovery and
      wherever the earlier processes stopped. */
  lemma {:induction false} EveryRun(lives: seq<seq<Sys>>, db: Store, ended: map<nat, JobId>, k: nat, i: nat)
    requires Restartable(db, ended) && Lives(lives, db, ended) && k < |lives| && i < |lives[k]|
    ensures Inv(lives[k][i]) && Guarantees(lives[k][i])
    decreases k
  {
    hide Inv, Guarantees, Restartable, StartsFrom, Steps;
    if k == 0 {
      StartsWell(lives[0][0], db, ended);
    } else {
      var last := lives[k - 1][|lives[k - 1]| - 1];
      EveryRun(lives, db, ended, k - 1, |lives[k - 1]| - 1);
      LeavesRestartable(last);
      StartsWell(lives[k][0], last.db, last.books.ended);
    }
    OneLife(lives[k], i);
    InvGuarantees(lives[k][i]);
  }

  // ---- Progress

  ghost predicate CanStep(s: Sys, a: Actor) {
    exists c, t :: Next(s, t, Step(a, c)) && t.disturbed == s.disturbed
  }

  lemma {:induction false} Moves(s: Sys, t: Sys, a: Actor, c: Choice)
    requires Next(s, t, Step(a, c)) && t.disturbed == s.disturbed
    ensures CanStep(s, a)
  {
  }

  lemma Standing(s: Sys, a: Actor)
    requires Inv(s) && a in s.actors
    ensures PcOk(s, a, s.actors[a])
  {
  }

  lemma {:induction false} Above(ids: set<JobId>) returns (id: JobId)
    ensures forall j :: j in ids ==> j < id
    decreases ids
  {
    id := 0;
    if ids != {} {
      var j :| j in ids;
      var rest := Above(ids - {j});
      id := if rest <= j then j + 1 else rest;
      assert forall i :: i in ids ==> i == j || i in ids - {j};
    }
  }

  lemma {:induction false} FreshId(db: Store) returns (id: JobId)
    ensures !db.Known(id)
  {
    id := Above(db.jobs.Keys + db.tombs.Keys);
  }

  /** The choice of an actor whose store calls succeed. */
  const GO := Choice(true, false, 0, 0, "", Completed, Detail)

  lemma {:induction false} MuHolderActs(s: Sys, a: Actor)
    requires Inv(s) && a in s.actors && s.actors[a].HoldsMu() && !s.actors[a].InRetry()
    ensures CanStep(s, a)
  {
    assert PcOk(s, a, s.actors[a]);
    hide Actors, Held, Rows, Books, Log, Counted, Causes, NotStranded;
    match s.actors[a]
    case ClaimWrite(j) =>
      Moves(s, s.(db := s.db.UpdateJob(j, Status.Running)).Move(a, ClaimRegister(j)), a, GO);
    case ClaimRegister(j) =>
      Moves(s, s.(marks := s.marks.(cancels := s.marks.cancels[j := a]), runs := s.runs.(nextRun := s.runs.nextRun + 1))
                 .UnlockMu().Move(a, Starting(j, s.runs.nextRun)), a, GO);
    case CancelWrite(j) =>
      Moves(s, s.Persist(a, j, Cancelled, JobCancelled).Move(a, CancelMark(j, s.db.nextId)), a, GO);
    case CancelMark(j, term) =>
      Moves(s, s.(marks := s.marks.(finalizing := s.marks.finalizing[j := a])).UnlockMu().Move(a, CancelDispatch(j, term)), a, GO);
    case DeleteWrite(j) =>
      if s.db.GetJob(j).Some? && s.db.jobs[j].status.IsTerminal() {
        Moves(s, s.(db := s.db.DeleteJob(j), books := s.books.Heard(j)).UnlockMu().Move(a, Done), a, GO);
      } else {
        Moves(s, s.UnlockMu().Move(a, Done), a, GO);
      }
  }

  /** The send inside Retry finds a free slot. */
  lemma {:induction false} RetryHolderActs(s: Sys, a: Actor)
    requires Inv(s) && a in s.actors && s.actors[a].HoldsMu() && s.actors[a].InRetry()
    ensures CanStep(s, a)
  {
    assert PcOk(s, a, s.actors[a]);
    match s.actors[a]
    case RetryFind(j) =>
      if !s.db.HasActive(s.db.jobs[j].key) && |s.line.queue| < QUEUE_CAP {
        Moves(s, s.Move(a, RetryWrite(j)), a, GO);
      } else {
        Moves(s, s.UnlockMu().UnlockSubmit().Move(a, Done), a, GO);
      }
    case RetryWrite(j) =>
      Moves(s, s.(db := s.db.UpdateJob(j, Queued)).Move(a, RetryEvent(j)), a, GO);
    case RetryEvent(j) =>
      Moves(s, s.Add(j, JobRetried).Move(a, RetrySend(j)), a, GO);
    case RetrySend(j) =>
      Moves(s, s.Send(j).UnlockMu().UnlockSubmit().Move(a, Done), a, GO);
  }

  /** Whoever holds mu waits for nothing. */
  lemma {:induction false} MuHolderMoves(s: Sys, a: Actor)
    requires Inv(s) && a in s.actors && s.actors[a].HoldsMu()
    ensures CanStep(s, a)
  {
    if s.actors[a].InRetry() {
      RetryHolderActs(s, a);
    } else {
      MuHolderActs(s, a);
    }
  }

  lemma {:induction false} RetryLockedMoves(s: Sys, a: Actor)
    requires a in s.actors && s.actors[a].RetryLocked? && s.locks.mu.None?
    ensures CanStep(s, a)
  {
    var j := s.actors[a].job;
    if (s.db.GetJob(j) == Some(Failed) || s.db.GetJob(j) == Some(Cancelled)) && !s.FinalizeInFlight(j) {
      Moves(s, s.LockMu(a).Move(a, RetryFind(j)), a, GO);
    } else {
      Moves(s, s.UnlockSubmit().Move(a, Done), a, GO);
    }
  }

  lemma {:induction false} SubmitNextMoves(s: Sys, a: Actor)
    requires a in s.actors && s.actors[a].SubmitNext?
    ensures CanStep(s, a)
  {
    Moves(s, s.UnlockSubmit().Move(a, Done), a, GO.(quit := true));
  }

  lemma {:induction false} SubmitCreateMoves(s: Sys, a: Actor)
    requires a in s.actors && s.actors[a].SubmitCreate?
    ensures CanStep(s, a)
  {
    var id := FreshId(s.db);
    Moves(s, s.(db := s.db.CreateJob(id, s.actors[a].key)).Move(a, SubmitEvent(id)), a, GO.(id := id));
  }

  lemma {:induction false} SubmitEventMoves(s: Sys, a: Actor)
    requires a in s.actors && s.actors[a].SubmitEvent?
    ensures CanStep(s, a)
  {
    var j := s.actors[a].job;
    Moves(s, s.Add(j, JobQueued).Move(a, SubmitHook(j)), a, GO);
  }

  lemma {:induction false} SubmitHookMoves(s: Sys, a: Actor)
    requires a in s.actors && s.actors[a].SubmitHook?
    ensures CanStep(s, a)
  {
    var j := s.actors[a].job;
    Moves(s, s.(hooks := s.hooks.Launch(j, 0, [])).Move(a, SubmitSend(j)), a, GO);
  }

  /** The send inside SubmitBatch finds a free slot. */
  lemma {:induction false} SubmitSendMoves(s: Sys, a: Actor)
    requires a in s.actors && s.actors[a].SubmitSend? && PcOk(s, a, s.actors[a])
    ensures CanStep(s, a)
  {
    var j := s.actors[a].job;
    Moves(s, s.Send(j).Move(a, SubmitNext), a, GO);
  }

  /** Whoever holds submitMu waits for mu at most. */
  lemma {:induction false} SubmitHolderMoves(s: Sys, a: Actor)
    requires Inv(s) && a in s.actors && s.actors[a].HoldsSubmit() && !s.actors[a].HoldsMu()
    requires s.actors[a].RetryLocked? ==> s.locks.mu.None?
    ensures CanStep(s, a)
  {
    hide Inv, CanStep, PcOk;
    match s.actors[a]
    case RetryLocked(_) => RetryLockedMoves(s, a);
    case SubmitNext => SubmitNextMoves(s, a);
    case SubmitCreate(_) => SubmitCreateMoves(s, a);
    case SubmitEvent(_) => SubmitEventMoves(s, a);
    case SubmitHook(_) => SubmitHookMoves(s, a);
    case SubmitSend(_) =>
      Standing(s, a);
      SubmitSendMoves(s, a);
  }

  lemma {:induction false} FreeWorkerMoves(s: Sys, a: Actor)
    requires Inv(s) && a in s.actors && !AtRest(s.actors[a]) && (s.actors[a].InLoop() || s.actors[a].InRun())
    requires s.locks.mu.None? && s.locks.submitMu.None?
    ensures CanStep(s, a)
  {
    assert PcOk(s, a, s.actors[a]);
    match s.actors[a]
    case Delivered(j) =>
      Moves(s, if s.db.GetJob(j) == Some(Queued) then s.LockMu(a).Move(a, ClaimWrite(j)) else s.Move(a, Top), a, GO);
    case Starting(j, run) => Moves(s, s.Add(j, JobStarted).Move(a, Processing(j, run)), a, GO);
    case Processing(j, run) => Moves(s, s.Add(j, Detail), a, GO);
    case Persisting(j, run, status, kind) =>
      Moves(s, s.Persist(a, j, status, kind).Move(a, RunDispatch(j, run, s.db.nextId)), a, GO);
    case RunDispatch(j, run, term) => Moves(s, s.Dispatch(j, term, []).Move(a, Cleanup(j, run)), a, GO);
    case Cleanup(j, run) => Moves(s, s.(marks := s.marks.(cancels := s.marks.cancels - {j})).Move(a, Top), a, GO);
  }

  lemma {:induction false} CancelEnterMoves(s: Sys, a: Actor)
    requires Held(s) && a in s.actors && s.actors[a].CancelEnter? && s.locks.mu.None?
    ensures CanStep(s, a)
  {
    var j := s.actors[a].job;
    if j in s.marks.cancels {
      assert s.actors[s.marks.cancels[j]].Runs(j);
      Moves(s, s.Move(a, CancelSignal(s.actors[s.marks.cancels[j]].run)), a, GO);
    } else if s.db.IsActive(j) {
      Moves(s, s.LockMu(a).Move(a, CancelWrite(j)), a, GO);
    } else {
      Moves(s, s.Move(a, Done), a, GO);
    }
  }

  lemma {:induction false} DeleteEnterMoves(s: Sys, a: Actor)
    requires a in s.actors && s.actors[a].DeleteEnter? && s.locks.mu.None?
    ensures CanStep(s, a)
  {
    var j := s.actors[a].job;
    if s.FinalizeInFlight(j) || s.HooksPending(j) || j !in s.db.jobs {
      Moves(s, s.Move(a, Done), a, GO);
    } else {
      Moves(s, s.LockMu(a).Move(a, DeleteWrite(j)), a, GO);
    }
  }

  lemma {:induction false} FreeCallerMoves(s: Sys, a: Actor)
    requires Inv(s) && a in s.actors && !AtRest(s.actors[a]) && !s.actors[a].InLoop() && !s.actors[a].InRun()
    requires s.locks.mu.None? && s.locks.submitMu.None?
    ensures CanStep(s, a)
  {
    assert PcOk(s, a, s.actors[a]);
    hide Actors, Held, Rows, Books, Log, Counted, Causes, NotStranded, CanStep;
    match s.actors[a]
    case CancelEnter(_) => CancelEnterMoves(s, a);
    case CancelSignal(run) => Moves(s, s.(runs := s.runs.(stopped := s.runs.stopped + {run})).Move(a, Done), a, GO);
    case CancelDispatch(j, term) => Moves(s, s.Dispatch(j, term, []).Move(a, CancelClear(j)), a, GO);
    case CancelClear(j) => Moves(s, s.(marks := s.marks.(finalizing := s.marks.finalizing - {j})).Move(a, Done), a, GO);
    case RetryEnter(j) => Moves(s, s.LockSubmit(a).Move(a, RetryLocked(j)), a, GO);
    case DeleteEnter(_) => DeleteEnterMoves(s, a);
    case SubmitEnter => Moves(s, s.LockSubmit(a).Move(a, SubmitNext), a, GO);
  }

  /** No deadlock: an unfinished call or run has a step of its own that needs neither a
      failing store call nor shutdown, unless a lock is held; then the holder of mu, or
      of submitMu when mu is free, has such a step, and it is a call or run too. */
  lemma {:induction false} NoDeadlock(s: Sys, a: Actor)
    requires Inv(s) && a in s.actors && !AtRest(s.actors[a])
    ensures s.locks.mu.None? && s.locks.submitMu.None? ==> CanStep(s, a)
    ensures s.locks.mu.Some? ==>
      var b := s.locks.mu.value; b in s.actors && s.actors[b].HoldsMu() && !AtRest(s.actors[b]) && CanStep(s, b)
    ensures s.locks.mu.None? && s.locks.submitMu.Some? ==>
      var b := s.locks.submitMu.value; b in s.actors && s.actors[b].HoldsSubmit() && !AtRest(s.actors[b]) && CanStep(s, b)
  {
    if s.locks.mu.Some? {
      MuHolderMoves(s, s.locks.mu.value);
    } else if s.locks.submitMu.Some? {
      SubmitHolderMoves(s, s.locks.submitMu.value);
    } else {
      if s.actors[a].InLoop() || s.actors[a].InRun() {
        FreeWorkerMoves(s, a);
      } else {
        FreeCallerMoves(s, a);
      }
    }
  }
}

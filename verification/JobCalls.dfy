/** What a call of the job manager has done by the time it returns, and what a worker
    has done with a job it was given, over every run in which everybody else acts too
    (internal/jobs/finalize.go, internal/jobs/submit.go). */
module JobCalls {
  import opened Wrappers
  import opened JobStore
  import opened JobLifecycle
  import opened JobInvariants
  import opened JobHistory
  import opened JobSafety

  /** A run with the actions taken. */
  ghost predicate Course(run: seq<Sys>, acts: seq<Action>) {
    |run| == |acts| + 1 && forall i :: 0 <= i < |acts| ==> Next(run[i], run[i + 1], acts[i])
  }

  /** From one state to another none of a's own store calls failed, and it did not stop
      for shutdown. */
  ghost predicate Unhindered(acts: seq<Action>, a: Actor, from: nat, to: nat)
    requires to <= |acts|
  {
    forall i :: from <= i < to && acts[i].Step? && acts[i].who == a ==> acts[i].choice.ok && !acts[i].choice.quit
  }

  /** A call spawned by action from has returned by state to. */
  ghost predicate Returned(run: seq<Sys>, acts: seq<Action>, a: Actor, call: Pc, from: nat, to: nat) {
    && Course(run, acts) && Inv(run[0]) && from < to <= |acts|
    && acts[from] == Spawn(a, call)
    && a in run[to].actors && run[to].actors[a].Done?
    && Unhindered(acts, a, from, to)
  }

  lemma {:induction false} CourseInv(run: seq<Sys>, acts: seq<Action>, k: nat)
    requires Course(run, acts) && Inv(run[0]) && k < |run|
    ensures Inv(run[k])
  {
    hide Inv, Next;
    if k > 0 {
      CourseInv(run, acts, k - 1);
      InvKept(run[k - 1], run[k], acts[k - 1]);
    }
  }

  /** Actors move only by their own steps. */
  lemma {:induction false} Still(s: Sys, t: Sys, act: Action, a: Actor)
    requires Inv(s) && Next(s, t, act) && a in s.actors && !(act.Step? && act.who == a)
    ensures a in t.actors && t.actors[a] == s.actors[a]
  {
    if act.Step? {
      hide Quiet, PcOk, Next;
      StepMoves(s, t, act.who, act.choice);
    }
  }

  lemma {:induction false} StepMoves(s: Sys, t: Sys, a: Actor, c: Choice)
    requires Inv(s) && Next(s, t, Step(a, c))
    ensures a in s.actors && a in t.actors && t.actors == s.actors[a := t.actors[a]]
  {
    hide Inv, Next, Onward;
    StepOnward(s, t, a, c);
    OnwardMoves(s, t, a);
  }

  lemma OnwardMoves(s: Sys, t: Sys, a: Actor)
    requires Onward(s, t, a)
    ensures a in s.actors && a in t.actors && t.actors == s.actors[a := t.actors[a]]
  {
  }

  // ---- Cancel

  /** The job is not there, or is at its end. */
  predicate Over(s: Sys, j: JobId) {
    j !in s.db.jobs || s.db.jobs[j].status in {Completed, Failed, Cancelled}
  }

  /** Some worker runs the job, under the given run. */
  ghost predicate RunsUnder(s: Sys, j: JobId, run: nat) {
    exists w :: w in s.actors && s.actors[w].Runs(j) && s.actors[w].run == run
  }

  /** Since action from there was a moment at which the job was over, or at which it ran
      and by now the context of that run is cancelled. */
  ghost predicate Stopped(run: seq<Sys>, from: nat, k: nat, j: JobId)
    requires k < |run|
  {
    exists m :: from < m <= k && (Over(run[m], j) || exists r :: RunsUnder(run[m], j, r) && r in run[k].runs.stopped)
  }

  ghost predicate CancelAt(run: seq<Sys>, from: nat, k: nat, j: JobId, pc: Pc)
    requires k < |run|
  {
    match pc
    case CancelEnter(x) => x == j
    case CancelSignal(r) => exists m :: from < m <= k && RunsUnder(run[m], j, r)
    case CancelWrite(x) => x == j
    case CancelMark(x, _) => x == j && Stopped(run, from, k, j)
    case CancelDispatch(x, _) => x == j && Stopped(run, from, k, j)
    case CancelClear(x) => x == j && Stopped(run, from, k, j)
    case Done => Stopped(run, from, k, j)
    case _ => false
  }

  lemma {:induction false} StoppedGrows(s: Sys, t: Sys, act: Action)
    requires Next(s, t, act)
    ensures s.runs.stopped <= t.runs.stopped
  {
    if act.Step? {
      if s.actors[act.who].InLoop() || s.actors[act.who].InRun() {
        WorkerStops(s, t, act.who, act.choice);
      } else {
        CallerStops(s, t, act.who, act.choice);
      }
    }
  }

  lemma {:induction false} WorkerStops(s: Sys, t: Sys, a: Actor, c: Choice)
    requires a in s.actors && if s.actors[a].InRun() then RunNext(s, t, a, c) else LoopNext(s, t, a, c)
    ensures s.runs.stopped <= t.runs.stopped
  {
  }

  lemma {:induction false} CallerStops(s: Sys, t: Sys, a: Actor, c: Choice)
    requires a in s.actors && !s.actors[a].InLoop() && !s.actors[a].InRun()
    requires CancelNext(s, t, a, c) || RetryNext(s, t, a, c) || SubmitStep(s, t, a, c)
    ensures s.runs.stopped <= t.runs.stopped
  {
  }

  /** One step of the call, seen from outside. */
  lemma {:induction false} CancelStep(s: Sys, t: Sys, a: Actor, c: Choice)
    requires Inv(s) && Next(s, t, Step(a, c)) && s.actors[a].InCancel() && c.ok
    ensures a in t.actors
    ensures s.actors[a].CancelEnter? ==>
      var j := s.actors[a].job;
      match t.actors[a]
      case CancelSignal(r) => RunsUnder(s, j, r)
      case CancelWrite(x) => x == j
      case Done => Over(s, j)
      case _ => false
    ensures s.actors[a].CancelSignal? ==> t.actors[a].Done? && s.actors[a].run in t.runs.stopped
    ensures s.actors[a].CancelWrite? ==>
      && t.actors[a].CancelMark? && t.actors[a].job == s.actors[a].job
      && StatusIs(t, s.actors[a].job, Cancelled)
    ensures s.actors[a].CancelMark? ==> t.actors[a].CancelDispatch? && t.actors[a].job == s.actors[a].job
    ensures s.actors[a].CancelDispatch? ==> t.actors[a].CancelClear? && t.actors[a].job == s.actors[a].job
    ensures s.actors[a].CancelClear? ==> t.actors[a].Done?
  {
    hide Rows, Books, Log, Counted, Causes, NotStranded;
    assert PcOk(s, a, s.actors[a]);
    if s.actors[a].CancelEnter? {
      var j := s.actors[a].job;
      if j in s.marks.cancels {
        assert s.actors[s.marks.cancels[j]].Runs(j);
      }
    }
  }

  lemma {:induction false} StoppedStays(run: seq<Sys>, acts: seq<Action>, from: nat, k: nat, j: JobId)
    requires Course(run, acts) && k < |acts| && Stopped(run, from, k, j)
    ensures Stopped(run, from, k + 1, j)
  {
    hide Next, Over, RunsUnder;
    StoppedGrows(run[k], run[k + 1], acts[k]);
  }

  lemma {:induction false} CancelGoes(run: seq<Sys>, acts: seq<Action>, a: Actor, j: JobId, from: nat, k: nat)
    requires Course(run, acts) && Inv(run[0]) && from < k <= |acts| && acts[from] == Spawn(a, CancelEnter(j))
    requires Unhindered(acts, a, from, k)
    ensures a in run[k].actors && CancelAt(run, from, k, j, run[k].actors[a])
    decreases k
  {
    hide Inv, Next, Stopped, RunsUnder;
    if k == from + 1 {
      Spawned(run[from], run[k], a, CancelEnter(j));
    } else {
      CancelGoes(run, acts, a, j, from, k - 1);
      var s, t, act := run[k - 1], run[k], acts[k - 1];
      CourseInv(run, acts, k - 1);
      if act.Step? && act.who == a {
        CancelGoesOn(run, acts, a, j, from, k - 1);
      } else {
        Still(s, t, act, a);
        CancelWaits(run, acts, from, k - 1, j, s.actors[a]);
      }
    }
  }

  lemma Spawned(s: Sys, t: Sys, a: Actor, pc: Pc)
    requires Next(s, t, Spawn(a, pc))
    ensures a in t.actors && t.actors[a] == pc
  {
  }

  lemma ActorStays(s: Sys, t: Sys, a: Actor, c: Choice)
    requires Next(s, t, Step(a, c))
    ensures a in t.actors
  {
  }

  lemma DoneStays(s: Sys, t: Sys, a: Actor, c: Choice)
    requires Next(s, t, Step(a, c))
    ensures a in s.actors && !s.actors[a].Done?
  {
  }

  lemma {:induction false} CancelWaits(run: seq<Sys>, acts: seq<Action>, from: nat, k: nat, j: JobId, pc: Pc)
    requires Course(run, acts) && k < |acts| && CancelAt(run, from, k, j, pc)
    ensures CancelAt(run, from, k + 1, j, pc)
  {
    hide Next, Stopped, RunsUnder;
    if Stopped(run, from, k, j) {
      StoppedStays(run, acts, from, k, j);
    }
  }

  lemma {:induction false} CancelGoesOn(run: seq<Sys>, acts: seq<Action>, a: Actor, j: JobId, from: nat, k: nat)
    requires Course(run, acts) && from < k < |acts| && Inv(run[k]) && acts[k].Step? && acts[k].who == a && acts[k].choice.ok
    requires a in run[k].actors && CancelAt(run, from, k, j, run[k].actors[a])
    ensures a in run[k + 1].actors && CancelAt(run, from, k + 1, j, run[k + 1].actors[a])
  {
    hide Inv, Next, RunsUnder;
    var s, t := run[k], run[k + 1];
    DoneStays(s, t, a, acts[k].choice);
    CancelStep(s, t, a, acts[k].choice);
    match s.actors[a]
    case CancelEnter(_) =>
      if t.actors[a].Done? {
        assert Over(run[k], j);
      } else if t.actors[a].CancelSignal? {
        assert RunsUnder(run[k], j, t.actors[a].run);
      }
    case CancelSignal(r) =>
      var m :| from < m <= k && RunsUnder(run[m], j, r);
      assert r in run[k + 1].runs.stopped;
    case CancelWrite(_) => assert Over(run[k + 1], j);
    case _ => StoppedStays(run, acts, from, k, j);
  }

  /** Cancel cancels: by its return there was a moment since the call at which the job
      was not there or at its end, or at which a worker ran it whose context is cancelled
      by then. */
  lemma {:induction false} CancelCancels(run: seq<Sys>, acts: seq<Action>, a: Actor, j: JobId, from: nat, to: nat)
    requires Returned(run, acts, a, CancelEnter(j), from, to)
    ensures exists m ::
      && from < m <= to
      && (j in run[m].db.jobs && run[m].db.jobs[j].status !in {Completed, Failed, Cancelled} ==>
            exists w :: w in run[m].actors && run[m].actors[w].Runs(j) && run[m].actors[w].run in run[to].runs.stopped)
  {
    hide Inv, Next;
    CancelGoes(run, acts, a, j, from, to);
    var m :| from < m <= to && (Over(run[m], j) || exists r :: RunsUnder(run[m], j, r) && r in run[to].runs.stopped);
    if !Over(run[m], j) {
      var r :| RunsUnder(run[m], j, r) && r in run[to].runs.stopped;
    }
  }

  /** And if that run has not reported by then, it never ends completed. */
  lemma {:induction false} CancelLasts(run: seq<Sys>, acts: seq<Action>, r: nat, to: nat, k: nat)
    requires Course(run, acts) && to <= k < |run| && r in run[to].runs.stopped
    requires forall w :: w in run[to].actors && run[to].actors[w].Persisting? && run[to].actors[w].run == r ==> run[to].actors[w].status != Completed
    ensures forall w :: w in run[k].actors && run[k].actors[w].Persisting? && run[k].actors[w].run == r ==> run[k].actors[w].status != Completed
  {
    hide Next;
    assert CancelHeeded(run[to], r);
    HeededOn(run, acts, r, to, k);
  }

  lemma {:induction false} HeededOn(run: seq<Sys>, acts: seq<Action>, r: nat, to: nat, k: nat)
    requires Course(run, acts) && to <= k < |run| && CancelHeeded(run[to], r)
    ensures CancelHeeded(run[k], r)
    decreases k
  {
    hide Next, CancelHeeded;
    if to < k {
      HeededOn(run, acts, r, to, k - 1);
      CancelHeededStep(run[k - 1], run[k], acts[k - 1], r);
    }
  }

  /** A job ended by the call itself is that job, and it is cancelled. */
  lemma {:induction false} CancelEnds(run: seq<Sys>, acts: seq<Action>, a: Actor, j: JobId, from: nat, i: nat, x: JobId)
    requires Course(run, acts) && Inv(run[0]) && from < i < |acts| && acts[from] == Spawn(a, CancelEnter(j))
    requires Unhindered(acts, a, from, i + 1) && acts[i].Step? && acts[i].who == a && Ends(run[i], run[i + 1], x)
    ensures x == j && run[i + 1].db.jobs[x].status == Cancelled
  {
    hide Inv, Next;
    CancelGoes(run, acts, a, j, from, i);
    DoneStays(run[i], run[i + 1], a, acts[i].choice);
    CancelWrites(run[i], run[i + 1], a, acts[i].choice, x);
  }

  lemma {:induction false} CancelWrites(s: Sys, t: Sys, a: Actor, c: Choice, x: JobId)
    requires Next(s, t, Step(a, c)) && s.actors[a].InCancel() && Ends(s, t, x)
    ensures s.actors[a].CancelWrite? && x == s.actors[a].job && t.db.jobs[x].status == Cancelled
  {
  }

  // ---- Retry

  /** What Retry refuses: a job that is not there or did not fail, one still being
      finalized, a key that is active again, a full queue. */
  predicate NotRetryable(s: Sys, j: JobId) {
    || j !in s.db.jobs || s.db.jobs[j].status !in {Failed, Cancelled}
    || j in s.marks.cancels || j in s.marks.finalizing
    || (exists i :: i in s.db.jobs && s.db.jobs[i].key == s.db.jobs[j].key && s.db.jobs[i].status !in {Completed, Failed, Cancelled})
    || |s.line.queue| >= QUEUE_CAP
  }

  ghost predicate Refused(run: seq<Sys>, from: nat, k: nat, j: JobId)
    requires k < |run|
  {
    exists m :: from < m <= k && NotRetryable(run[m], j)
  }

  ghost predicate Requeued(run: seq<Sys>, from: nat, k: nat, j: JobId)
    requires k < |run|
  {
    exists m :: from < m <= k && StatusIs(run[m], j, Queued)
  }

  /** An event of the kind was filed for the job since action from. */
  ghost predicate FiledSince(run: seq<Sys>, from: nat, k: nat, j: JobId, kind: Kind)
    requires from < k < |run|
  {
    exists m, e :: from < m <= k && run[from].db.nextId <= e && e in run[m].db.log && run[m].db.log[e] == Event(j, kind, 0)
  }

  ghost predicate Enqueued(run: seq<Sys>, from: nat, k: nat, j: JobId)
    requires k < |run|
  {
    exists m :: from < m <= k && j in run[m].line.queue
  }

  ghost predicate Retried(run: seq<Sys>, from: nat, k: nat, j: JobId)
    requires from < k < |run|
  {
    Requeued(run, from, k, j) && FiledSince(run, from, k, j, JobRetried) && Enqueued(run, from, k, j)
  }

  ghost predicate RetryAt(run: seq<Sys>, from: nat, k: nat, j: JobId, pc: Pc)
    requires from < k < |run|
  {
    match pc
    case RetryEnter(x) => x == j
    case RetryLocked(x) => x == j
    case RetryFind(x) => x == j
    case RetryWrite(x) => x == j
    case RetryEvent(x) => x == j && Requeued(run, from, k, j)
    case RetrySend(x) => x == j && Requeued(run, from, k, j) && FiledSince(run, from, k, j, JobRetried)
    case Done => Refused(run, from, k, j) || Retried(run, from, k, j)
    case _ => false
  }

  lemma {:induction false} RetryStep(s: Sys, t: Sys, a: Actor, c: Choice)
    requires Inv(s) && Next(s, t, Step(a, c)) && s.actors[a].InRetry() && c.ok
    ensures a in t.actors
    ensures s.actors[a].RetryEnter? ==> t.actors[a] == RetryLocked(s.actors[a].job)
    ensures s.actors[a].RetryLocked? ==>
      t.actors[a] == RetryFind(s.actors[a].job) || (t.actors[a].Done? && NotRetryable(s, s.actors[a].job))
    ensures s.actors[a].RetryFind? ==>
      t.actors[a] == RetryWrite(s.actors[a].job) || (t.actors[a].Done? && NotRetryable(s, s.actors[a].job))
    ensures s.actors[a].RetryWrite? ==> t.actors[a] == RetryEvent(s.actors[a].job) && StatusIs(t, s.actors[a].job, Queued)
    ensures s.actors[a].RetryEvent? ==>
      && t.actors[a] == RetrySend(s.actors[a].job)
      && s.db.nextId in t.db.log && t.db.log[s.db.nextId] == Event(s.actors[a].job, JobRetried, 0)
    ensures s.actors[a].RetrySend? ==> t.actors[a].Done? && s.actors[a].job in t.line.queue
  {
    hide LoopNext, RunNext, CancelNext, SubmitStep, HookNext, Held, Rows, Books, Log, Counted, Causes, NotStranded;
    assert PcOk(s, a, s.actors[a]);
  }

  lemma {:induction false} RetryGoesOn(run: seq<Sys>, acts: seq<Action>, a: Actor, j: JobId, from: nat, k: nat)
    requires Course(run, acts) && from < k < |acts| && Inv(run[k]) && acts[k].Step? && acts[k].who == a && acts[k].choice.ok
    requires run[from].db.nextId <= run[k].db.nextId
    requires a in run[k].actors && RetryAt(run, from, k, j, run[k].actors[a])
    ensures a in run[k + 1].actors && RetryAt(run, from, k + 1, j, run[k + 1].actors[a])
  {
    hide Inv, Next, NotRetryable, StatusIs;
    var s, t := run[k], run[k + 1];
    DoneStays(s, t, a, acts[k].choice);
    RetryStep(s, t, a, acts[k].choice);
    match s.actors[a]
    case RetryLocked(_) =>
    case RetryFind(_) =>
    case RetryWrite(_) => assert StatusIs(run[k + 1], j, Queued);
    case RetryEvent(_) => assert s.db.nextId in run[k + 1].db.log;
    case RetrySend(_) => assert j in run[k + 1].line.queue;
    case _ =>
  }

  lemma {:induction false} RetryWaits(run: seq<Sys>, acts: seq<Action>, from: nat, k: nat, j: JobId, pc: Pc)
    requires from < k < |acts| && |run| == |acts| + 1 && RetryAt(run, from, k, j, pc)
    ensures RetryAt(run, from, k + 1, j, pc)
  {
    hide NotRetryable, StatusIs;
  }

  lemma {:induction false} IdsGrow(run: seq<Sys>, acts: seq<Action>, i: nat, k: nat)
    requires Course(run, acts) && Inv(run[0]) && i <= k < |run|
    ensures run[i].db.nextId <= run[k].db.nextId
    decreases k
  {
    hide Inv, Next, HooksLater, Told;
    if i < k {
      IdsGrow(run, acts, i, k - 1);
      CourseInv(run, acts, k - 1);
      LaterKept(run[k - 1], run[k], acts[k - 1]);
    }
  }

  lemma {:induction false} RetryGoes(run: seq<Sys>, acts: seq<Action>, a: Actor, j: JobId, from: nat, k: nat)
    requires Course(run, acts) && Inv(run[0]) && from < k <= |acts| && acts[from] == Spawn(a, RetryEnter(j))
    requires Unhindered(acts, a, from, k)
    ensures a in run[k].actors && RetryAt(run, from, k, j, run[k].actors[a])
    decreases k
  {
    hide Inv, Next, Refused, Retried, Requeued, FiledSince;
    if k == from + 1 {
      Spawned(run[from], run[k], a, RetryEnter(j));
    } else {
      RetryGoes(run, acts, a, j, from, k - 1);
      var s, t, act := run[k - 1], run[k], acts[k - 1];
      CourseInv(run, acts, k - 1);
      if act.Step? && act.who == a {
        IdsGrow(run, acts, from, k - 1);
        RetryGoesOn(run, acts, a, j, from, k - 1);
      } else {
        Still(s, t, act, a);
        RetryWaits(run, acts, from, k - 1, j, s.actors[a]);
      }
    }
  }

  /** Retry retries: by its return there was a moment since the call at which the job was
      not one to retry; or the row was queued again, the event filed, and the job put on
      the queue. */
  lemma {:induction false} RetryRetries(run: seq<Sys>, acts: seq<Action>, a: Actor, j: JobId, from: nat, to: nat)
    requires Returned(run, acts, a, RetryEnter(j), from, to)
    ensures Refused(run, from, to, j)
      || (&& (exists m :: from < m <= to && StatusIs(run[m], j, Queued))
          && (exists m :: from < m <= to && j in run[m].line.queue)
          && (exists m, e :: from < m <= to && run[from].db.nextId <= e && e in run[m].db.log && run[m].db.log[e] == Event(j, JobRetried, 0)))
  {
    hide Inv, Next, Refused;
    RetryGoes(run, acts, a, j, from, to);
  }

  // ---- Delete

  predicate NotDeletable(s: Sys, j: JobId) {
    || j !in s.db.jobs || s.db.jobs[j].status !in {Completed, Failed, Cancelled}
    || j in s.marks.cancels || j in s.marks.finalizing || s.hooks.PendingOf(j) > 0
  }

  /** The row is gone, and of its events only the tombstone is left. */
  ghost predicate Gone(s: Sys, j: JobId) {
    && j !in s.db.jobs
    && exists e :: e in s.db.log && s.db.log[e] == Event(j, JobDeleted, 0)
         && forall d :: d in s.db.log && s.db.log[d].job == j ==> d == e
  }

  ghost predicate DeleteAt(run: seq<Sys>, from: nat, k: nat, j: JobId, pc: Pc)
    requires from < k < |run|
  {
    match pc
    case DeleteEnter(x) => x == j
    case DeleteWrite(x) => x == j
    case Done => exists m :: from < m <= k && (NotDeletable(run[m], j) || Gone(run[m], j))
    case _ => false
  }

  lemma {:induction false} DeleteStep(s: Sys, t: Sys, a: Actor, c: Choice)
    requires Inv(s) && Next(s, t, Step(a, c)) && (s.actors[a].DeleteEnter? || s.actors[a].DeleteWrite?) && c.ok
    ensures a in t.actors
    ensures var j := s.actors[a].job;
      || (s.actors[a].DeleteEnter? && t.actors[a] == DeleteWrite(j))
      || (t.actors[a].Done? && (NotDeletable(s, j) || Gone(t, j)))
  {
    hide Held, Rows, Books, Counted, Causes, NotStranded;
    assert PcOk(s, a, s.actors[a]);
    if s.actors[a].DeleteWrite? && Deletes(s, t, a) {
      TombstoneLeft(s, s.actors[a].job);
    }
  }

  lemma TombstoneLeft(s: Sys, j: JobId)
    requires j in s.db.jobs
    ensures var db := s.db.DeleteJob(j);
      && j !in db.jobs && s.db.nextId in db.log && db.log[s.db.nextId] == Event(j, JobDeleted, 0)
      && forall d :: d in db.log && db.log[d].job == j ==> d == s.db.nextId
  {
  }

  lemma {:induction false} DeleteGoes(run: seq<Sys>, acts: seq<Action>, a: Actor, j: JobId, from: nat, k: nat)
    requires Course(run, acts) && Inv(run[0]) && from < k <= |acts| && acts[from] == Spawn(a, DeleteEnter(j))
    requires Unhindered(acts, a, from, k)
    ensures a in run[k].actors && DeleteAt(run, from, k, j, run[k].actors[a])
    decreases k
  {
    hide Inv, Next, NotDeletable, Gone;
    if k == from + 1 {
      Spawned(run[from], run[k], a, DeleteEnter(j));
    } else {
      DeleteGoes(run, acts, a, j, from, k - 1);
      var s, t, act := run[k - 1], run[k], acts[k - 1];
      CourseInv(run, acts, k - 1);
      if act.Step? && act.who == a {
        DoneStays(s, t, a, act.choice);
        DeleteStep(s, t, a, act.choice);
        assert run[k] == t && run[k - 1] == s;
      } else {
        Still(s, t, act, a);
      }
    }
  }

  /** Delete deletes: by its return there was a moment since the call at which the job was
      not one to delete, or at which it was gone but for its tombstone. */
  lemma {:induction false} DeleteDeletes(run: seq<Sys>, acts: seq<Action>, a: Actor, j: JobId, from: nat, to: nat)
    requires Returned(run, acts, a, DeleteEnter(j), from, to)
    ensures exists m :: from < m <= to && (NotDeletable(run[m], j) || Gone(run[m], j))
  {
    hide Inv, Next, NotDeletable, Gone;
    DeleteGoes(run, acts, a, j, from, to);
  }

  // ---- A job in a worker's hands

  /** The worker found the job, given to it, not queued. */
  ghost predicate PassedOver(run: seq<Sys>, from: nat, k: nat, a: Actor, j: JobId)
    requires k < |run|
  {
    exists m :: from <= m <= k && a in run[m].actors && run[m].actors[a] == Delivered(j) && !StatusIs(run[m], j, Queued)
  }

  /** The worker ran the job, and wrote the outcome it had, with its event. */
  ghost predicate RanToItsEnd(run: seq<Sys>, from: nat, k: nat, a: Actor, j: JobId)
    requires k < |run|
  {
    exists m :: from <= m < k && Wrote(run[m], run[m + 1], a, j)
  }

  ghost predicate Wrote(s: Sys, t: Sys, a: Actor, j: JobId) {
    && a in s.actors && s.actors[a].Persisting? && s.actors[a].job == j
    && StatusIs(t, j, s.actors[a].status) && s.actors[a].status in {Completed, Failed, Cancelled}
    && s.db.nextId in t.db.log && t.db.log[s.db.nextId] == Event(j, s.actors[a].kind, 0)
  }

  ghost predicate WorkerAt(run: seq<Sys>, from: nat, k: nat, a: Actor, j: JobId, pc: Pc)
    requires k < |run|
  {
    || PassedOver(run, from, k, a, j) || RanToItsEnd(run, from, k, a, j)
    || ((pc.Delivered? || pc.ClaimWrite? || pc.ClaimRegister? || pc.Starting? || pc.Processing? || pc.Persisting?) && pc.job == j)
  }

  /** One step of a worker with a job in its hands. */
  lemma {:induction false} LoopStep(s: Sys, t: Sys, a: Actor, c: Choice)
    requires Inv(s) && Next(s, t, Step(a, c)) && c.ok && !c.quit
    ensures s.actors[a].Delivered? ==>
      a in t.actors && (t.actors[a] == ClaimWrite(s.actors[a].job) || !StatusIs(s, s.actors[a].job, Queued))
    ensures s.actors[a].ClaimWrite? ==> a in t.actors && t.actors[a] == ClaimRegister(s.actors[a].job)
    ensures s.actors[a].ClaimRegister? ==> a in t.actors && t.actors[a].Starting? && t.actors[a].job == s.actors[a].job
  {
    hide RunNext, CancelNext, RetryNext, SubmitStep, HookNext, Held, Rows, Books, Log, Counted, Causes, NotStranded;
    assert PcOk(s, a, s.actors[a]);
  }

  lemma {:induction false} RunStep(s: Sys, t: Sys, a: Actor, c: Choice)
    requires Inv(s) && Next(s, t, Step(a, c)) && c.ok && !c.quit
    ensures s.actors[a].Starting? || s.actors[a].Processing? ==>
      a in t.actors && (t.actors[a].Processing? || t.actors[a].Persisting?) && t.actors[a].job == s.actors[a].job
    ensures s.actors[a].Persisting? ==> a in t.actors && Wrote(s, t, a, s.actors[a].job)
  {
    hide LoopNext, CancelNext, RetryNext, SubmitStep, HookNext, Held, Rows, Books, Log, Counted, Causes, NotStranded;
    assert PcOk(s, a, s.actors[a]);
  }

  lemma {:induction false} WorkerStep(s: Sys, t: Sys, a: Actor, c: Choice)
    requires Inv(s) && Next(s, t, Step(a, c)) && c.ok && !c.quit
    ensures a in t.actors
    ensures s.actors[a].Delivered? ==>
      t.actors[a] == ClaimWrite(s.actors[a].job) || !StatusIs(s, s.actors[a].job, Queued)
    ensures s.actors[a].ClaimWrite? ==> t.actors[a] == ClaimRegister(s.actors[a].job)
    ensures s.actors[a].ClaimRegister? ==> t.actors[a].Starting? && t.actors[a].job == s.actors[a].job
    ensures s.actors[a].Starting? || s.actors[a].Processing? ==>
      (t.actors[a].Processing? || t.actors[a].Persisting?) && t.actors[a].job == s.actors[a].job
    ensures s.actors[a].Persisting? ==> Wrote(s, t, a, s.actors[a].job)
  {
    LoopStep(s, t, a, c);
    RunStep(s, t, a, c);
    ActorStays(s, t, a, c);
    hide Inv, LoopNext, RunNext, CancelNext, RetryNext, SubmitStep, Wrote, StatusIs;
  }

  lemma {:induction false} WorkerGoes(run: seq<Sys>, acts: seq<Action>, a: Actor, j: JobId, from: nat, k: nat)
    requires Course(run, acts) && Inv(run[0]) && from <= k <= |acts|
    requires a in run[from].actors && run[from].actors[a] == Delivered(j) && Unhindered(acts, a, from, k)
    ensures a in run[k].actors && WorkerAt(run, from, k, a, j, run[k].actors[a])
    decreases k
  {
    hide Inv, Next, Wrote, StatusIs;
    if k > from {
      WorkerGoes(run, acts, a, j, from, k - 1);
      var s, t, act := run[k - 1], run[k], acts[k - 1];
      CourseInv(run, acts, k - 1);
      if act.Step? && act.who == a {
        WorkerStep(s, t, a, act.choice);
        assert s.actors[a].Persisting? ==> Wrote(run[k - 1], run[k - 1 + 1], a, s.actors[a].job);
      } else {
        Still(s, t, act, a);
      }
    }
  }

  /** A job given to a worker is run: by the time the worker looks for another it had
      found the job not queued, or it ran it and wrote the outcome it had. */
  lemma {:induction false} WorkerRuns(run: seq<Sys>, acts: seq<Action>, a: Actor, j: JobId, from: nat, to: nat)
    requires Course(run, acts) && Inv(run[0]) && from <= to <= |acts| && Unhindered(acts, a, from, to)
    requires a in run[from].actors && run[from].actors[a] == Delivered(j)
    requires a in run[to].actors && run[to].actors[a].Top?
    ensures PassedOver(run, from, to, a, j) || RanToItsEnd(run, from, to, a, j)
  {
    hide Inv, Next, PassedOver, RanToItsEnd;
    WorkerGoes(run, acts, a, j, from, to);
  }

  /** What is taken from the line is in the hands of who took it. */
  lemma {:induction false} WorkerTakes(s: Sys, t: Sys, a: Actor, c: Choice, j: JobId)
    requires Next(s, t, Step(a, c)) && (j in s.line.queue || j in s.line.backlog)
    requires !(j in t.line.queue || j in t.line.backlog)
    ensures a in t.actors && t.actors[a] == Delivered(j)
  {
    hide LoopNext, RunNext, CancelNext, RetryNext, SubmitStep;
    if s.actors[a].InLoop() {
      LoopTakes(s, t, a, c, j);
    } else if s.actors[a].InRun() {
      RunTakesNothing(s, t, a, c);
    } else {
      CallTakesNothing(s, t, a, c);
    }
  }

  lemma {:induction false} LoopTakes(s: Sys, t: Sys, a: Actor, c: Choice, j: JobId)
    requires a in s.actors && LoopNext(s, t, a, c) && (j in s.line.queue || j in s.line.backlog)
    requires !(j in t.line.queue || j in t.line.backlog)
    ensures a in t.actors && t.actors[a] == Delivered(j)
  {
  }

  lemma {:induction false} RunTakesNothing(s: Sys, t: Sys, a: Actor, c: Choice)
    requires a in s.actors && RunNext(s, t, a, c)
    ensures t.line == s.line
  {
  }

  lemma {:induction false} CallTakesNothing(s: Sys, t: Sys, a: Actor, c: Choice)
    requires a in s.actors && (CancelNext(s, t, a, c) || RetryNext(s, t, a, c) || SubmitStep(s, t, a, c))
    ensures s.line.queue <= t.line.queue && t.line.backlog == s.line.backlog
  {
  }

  // ---- One candidate of a batch

  /** A job that was not known before is queued under the key. */
  ghost predicate Created(run: seq<Sys>, from: nat, k: nat, key: Key, id: JobId)
    requires from < |run| && k < |run|
  {
    && !run[from].db.Known(id)
    && exists m :: from < m <= k && StatusIs(run[m], id, Queued) && run[m].db.jobs[id].key == key
  }

  ghost predicate Submitted(run: seq<Sys>, from: nat, k: nat, key: Key)
    requires from < k < |run|
  {
    exists id :: Created(run, from, k, key, id) && FiledSince(run, from, k, id, JobQueued) && Enqueued(run, from, k, id)
  }

  ghost predicate SubmitAt(run: seq<Sys>, from: nat, k: nat, key: Key, pc: Pc)
    requires from <= k < |run|
  {
    || (k > from && Submitted(run, from, k, key))
    || pc == SubmitCreate(key)
    || (pc.SubmitEvent? && Created(run, from, k, key, pc.job))
    || ((pc.SubmitHook? || pc.SubmitSend?) && k > from && Created(run, from, k, key, pc.job) && FiledSince(run, from, k, pc.job, JobQueued))
  }

  lemma {:induction false} SubmitGoesOne(s: Sys, t: Sys, a: Actor, c: Choice)
    requires Inv(s) && Next(s, t, Step(a, c)) && c.ok
    ensures a in t.actors
    ensures s.actors[a].SubmitCreate? ==>
      && t.actors[a].SubmitEvent? && !s.db.Known(t.actors[a].job)
      && StatusIs(t, t.actors[a].job, Queued) && t.db.jobs[t.actors[a].job].key == s.actors[a].key
    ensures s.actors[a].SubmitEvent? ==>
      && t.actors[a] == SubmitHook(s.actors[a].job)
      && s.db.nextId in t.db.log && t.db.log[s.db.nextId] == Event(s.actors[a].job, JobQueued, 0)
    ensures s.actors[a].SubmitHook? ==> t.actors[a] == SubmitSend(s.actors[a].job)
    ensures s.actors[a].SubmitSend? ==> t.actors[a].SubmitNext? && s.actors[a].job in t.line.queue
  {
    hide Inv, LoopNext, RunNext, CancelNext, RetryNext, Hooks.Launch;
    StepMoves(s, t, a, c);
  }

  lemma {:induction false} KnownGrows(run: seq<Sys>, acts: seq<Action>, i: nat, k: nat, id: JobId)
    requires Course(run, acts) && Inv(run[0]) && i <= k < |run| && run[i].db.Known(id)
    ensures run[k].db.Known(id)
    decreases k
  {
    hide Inv, Next, HooksLater, Told;
    if i < k {
      KnownGrows(run, acts, i, k - 1, id);
      CourseInv(run, acts, k - 1);
      LaterKept(run[k - 1], run[k], acts[k - 1]);
    }
  }

  lemma {:induction false} SubmitGoesOn(run: seq<Sys>, acts: seq<Action>, a: Actor, key: Key, from: nat, k: nat)
    requires Course(run, acts) && from <= k < |acts| && Inv(run[k]) && acts[k].Step? && acts[k].who == a && acts[k].choice.ok
    requires run[from].db.nextId <= run[k].db.nextId && forall id :: run[from].db.Known(id) ==> run[k].db.Known(id)
    requires a in run[k].actors && SubmitAt(run, from, k, key, run[k].actors[a])
    ensures a in run[k + 1].actors && SubmitAt(run, from, k + 1, key, run[k + 1].actors[a])
  {
    hide Inv, Next, StatusIs, Store.Known;
    var s, t := run[k], run[k + 1];
    SubmitGoesOne(s, t, a, acts[k].choice);
    if k > from && Submitted(run, from, k, key) {
      SubmitWaits(run, acts, from, k, key, s.actors[a]);
      SubmittedStays(run, from, k, key);
    } else {
      match s.actors[a]
      case SubmitCreate(_) => assert StatusIs(run[k + 1], t.actors[a].job, Queued);
      case SubmitEvent(_) => assert s.db.nextId in run[k + 1].db.log;
      case SubmitHook(_) =>
      case SubmitSend(id) =>
        assert id in run[k + 1].line.queue;
        assert Created(run, from, k + 1, key, id);
      case _ =>
    }
  }

  lemma {:induction false} SubmittedStays(run: seq<Sys>, from: nat, k: nat, key: Key)
    requires from < k && k + 1 < |run| && Submitted(run, from, k, key)
    ensures Submitted(run, from, k + 1, key)
  {
    hide StatusIs, Store.Known;
    var id :| Created(run, from, k, key, id) && FiledSince(run, from, k, id, JobQueued) && Enqueued(run, from, k, id);
    assert Created(run, from, k + 1, key, id);
  }

  lemma {:induction false} SubmitWaits(run: seq<Sys>, acts: seq<Action>, from: nat, k: nat, key: Key, pc: Pc)
    requires from <= k < |acts| && |run| == |acts| + 1 && SubmitAt(run, from, k, key, pc)
    ensures SubmitAt(run, from, k + 1, key, pc)
  {
    hide StatusIs, Store.Known;
    if k > from && Submitted(run, from, k, key) {
      SubmittedStays(run, from, k, key);
    }
  }

  lemma {:induction false} SubmitGoes(run: seq<Sys>, acts: seq<Action>, a: Actor, key: Key, from: nat, k: nat)
    requires Course(run, acts) && Inv(run[0]) && from <= k <= |acts|
    requires a in run[from].actors && run[from].actors[a] == SubmitCreate(key) && Unhindered(acts, a, from, k)
    ensures a in run[k].actors && SubmitAt(run, from, k, key, run[k].actors[a])
    decreases k
  {
    hide Inv, Next, Submitted, Created, FiledSince, Store.Known;
    if k > from {
      SubmitGoes(run, acts, a, key, from, k - 1);
      var s, t, act := run[k - 1], run[k], acts[k - 1];
      CourseInv(run, acts, k - 1);
      if act.Step? && act.who == a {
        IdsGrow(run, acts, from, k - 1);
        forall id | run[from].db.Known(id)
          ensures run[k - 1].db.Known(id)
        {
          KnownGrows(run, acts, from, k - 1, id);
        }
        SubmitGoesOn(run, acts, a, key, from, k - 1);
      } else {
        Still(s, t, act, a);
        SubmitWaits(run, acts, from, k - 1, key, s.actors[a]);
      }
    }
  }

  /** A candidate let in is submitted: by the time the batch goes on to the next there is
      a new job under its key, queued, its event filed, and put on the queue. */
  lemma {:induction false} SubmitSubmits(run: seq<Sys>, acts: seq<Action>, a: Actor, key: Key, from: nat, to: nat)
    requires Course(run, acts) && Inv(run[0]) && from <= to <= |acts| && Unhindered(acts, a, from, to)
    requires a in run[from].actors && run[from].actors[a] == SubmitCreate(key)
    requires a in run[to].actors && run[to].actors[a].SubmitNext?
    ensures from < to && Submitted(run, from, to, key)
  {
    hide Inv, Next, Submitted;
    SubmitGoes(run, acts, a, key, from, to);
  }

  /** And a candidate whose key is free and for whom there is room is let in. */
  lemma SubmitLetsIn(s: Sys, a: Actor, key: Key)
    requires a in s.actors && s.actors[a].SubmitNext? && |s.line.queue| < QUEUE_CAP
    requires forall i :: i in s.db.jobs && s.db.jobs[i].key == key ==> s.db.jobs[i].status in {Completed, Failed, Cancelled}
    ensures exists t, c :: Next(s, t, Step(a, c)) && t.actors == s.actors[a := SubmitCreate(key)]
  {
    var c := GO.(key := key);
    assert Next(s, s.Move(a, SubmitCreate(key)), Step(a, c));
  }

  // ---- What stands open

  /** An idle worker takes the head of the backlog before anything else, and can take the
      head of the queue. */
  lemma {:induction false} IdleTakes(s: Sys, a: Actor)
    requires a in s.actors
    ensures s.actors[a].Top? && s.line.backlog != [] ==>
      forall t, c :: Next(s, t, Step(a, c)) && !c.quit ==> a in t.actors && t.actors[a] == Delivered(s.line.backlog[0])
    ensures s.actors[a].Select? && s.line.queue != [] ==>
      exists t, c :: Next(s, t, Step(a, c)) && !c.quit && a in t.actors && t.actors[a] == Delivered(s.line.queue[0])
    ensures s.actors[a].Select? && s.line.token ==>
      exists t, c :: Next(s, t, Step(a, c)) && !c.quit && a in t.actors && t.actors[a].Top?
  {
    if s.actors[a].Select? && s.line.queue != [] {
      var t := s.(line := s.line.(queue := s.line.queue[1..])).Move(a, Delivered(s.line.queue[0]));
      assert Next(s, t, Step(a, GO));
    }
    if s.actors[a].Select? && s.line.token {
      var t := s.(line := s.line.(token := false)).Move(a, Top);
      assert Next(s, t, Step(a, GO.(n := 1)));
    }
  }

  /** A run may fail whatever happened; besides, one whose context is cancelled may end
      cancelled, and any other may end completed, or failed by its items. */
  lemma {:induction false} MayReport(s: Sys, a: Actor, status: Status, kind: Kind)
    requires a in s.actors && s.actors[a].Processing? && kind !in {ResolvedInput, ItemProgress, ItemDone, Detail}
    ensures
      var cancelled := s.actors[a].run in s.runs.stopped;
      (exists t, c :: Next(s, t, Step(a, c)) && a in t.actors && t.actors[a] == Persisting(s.actors[a].job, s.actors[a].run, status, kind))
      <==>
      || (status == Failed && kind == JobFailed)
      || (cancelled && status == Cancelled && kind == JobCancelled)
      || (!cancelled && status in {Completed, Failed} && kind == JobFinished)
  {
    var pc := Persisting(s.actors[a].job, s.actors[a].run, status, kind);
    if Outcome(s.actors[a].run in s.runs.stopped, status, kind) {
      assert Next(s, s.Move(a, pc), Step(a, GO.(status := status, kind := kind)));
    }
    if t, c :| Next(s, t, Step(a, c)) && a in t.actors && t.actors[a] == pc {
      assert t == s.Move(a, Persisting(s.actors[a].job, s.actors[a].run, c.status, c.kind));
    }
  }

  /** A recorded hook execution leaves, and with it one of the job's pending count. */
  lemma {:induction false} HookLeaves(s: Sys, t: Sys, x: nat, c: Choice)
    requires Counted(s.hooks) && Next(s, t, Hook(x, c)) && s.hooks.execs[x].at.Recorded?
    ensures x !in t.hooks.execs && t.db == s.db && t.hooks.PendingOf(s.hooks.execs[x].job) == s.hooks.PendingOf(s.hooks.execs[x].job) - 1
    ensures forall j :: j != s.hooks.execs[x].job ==> t.hooks.PendingOf(j) == s.hooks.PendingOf(j)
  {
    var j := s.hooks.execs[x].job;
    assert x in HooksOf(s.hooks.execs, j);
    assert |HooksOf(s.hooks.execs, j)| == s.hooks.PendingOf(j);
  }

  ghost predicate WentOn(s: Sys, t: Sys, x: nat)
    requires x in s.hooks.execs
  {
    match s.hooks.execs[x].at
    case Waiting => x in t.hooks.execs && t.hooks.execs[x].at == HookPc.Running && t.db.nextId == s.db.nextId + 1
    case Running => x in t.hooks.execs && t.hooks.execs[x].at.Recorded? && t.db.nextId == s.db.nextId + 1
    case Recorded => x !in t.hooks.execs
  }

  /** Every hook execution can go on: to its start on file, to its outcome, and away. */
  lemma {:induction false} HookGoesOn(s: Sys, x: nat)
    requires x in s.hooks.execs
    ensures exists t, c :: Next(s, t, Hook(x, c)) && c.ok && !c.quit && WentOn(s, t, x)
  {
    var e := s.hooks.execs[x];
    var c := GO.(kind := HookSucceeded);
    if e.at.Recorded? {
      var j := e.job;
      var t := if s.hooks.PendingOf(j) <= 1
        then s.(hooks := s.hooks.(execs := s.hooks.execs - {x}, pending := s.hooks.pending - {j}))
        else s.(hooks := s.hooks.(execs := s.hooks.execs - {x}, pending := s.hooks.pending[j := s.hooks.PendingOf(j) - 1]));
      assert Next(s, t, Hook(x, c)) && WentOn(s, t, x);
    } else {
      var kind, at := if e.at.Waiting? then HookStarted else HookSucceeded, if e.at.Waiting? then HookPc.Running else Recorded;
      var t := s.(hooks := s.hooks.(execs := s.hooks.execs[x := e.(at := at)]),
                  books := s.books.Record(s.db.nextId, Event(e.job, kind, e.cause, x, e.name)),
                  db := s.db.AddEvent(Event(e.job, kind, e.cause, x, e.name)));
      assert Next(s, t, Hook(x, c)) && WentOn(s, t, x);
    }
  }

  /** An execution that is not recorded yet files one event about itself: its start, or
      its failure when shutdown comes first; then its outcome. */
  lemma {:induction false} HookFiles(s: Sys, t: Sys, x: nat, c: Choice)
    requires Next(s, t, Hook(x, c)) && c.ok && !s.hooks.execs[x].at.Recorded?
    ensures t.db.nextId == s.db.nextId + 1 && s.db.nextId in t.db.log
    ensures var e, ev := s.hooks.execs[x], t.db.log[s.db.nextId];
      && ev.job == e.job && ev.cause == e.cause && ev.exec == x && ev.hook == e.name
      && (e.at.Waiting? ==> ev.kind == (if c.quit then HookFailed else HookStarted))
      && (e.at.Running? ==> ev.kind == c.kind && ev.kind in {HookSucceeded, HookFailed})
  {
    hide Records;
    if s.hooks.execs[x].at.Running? {
      RecordFiled(s, t, x, c.kind, Recorded);
    } else if c.quit {
      RecordFiled(s, t, x, HookFailed, Recorded);
    } else {
      RecordFiled(s, t, x, HookStarted, HookPc.Running);
    }
  }

  lemma RecordFiled(s: Sys, t: Sys, x: nat, kind: Kind, at: HookPc)
    requires x in s.hooks.execs && Records(s, t, x, kind, true, at)
    ensures t.db.nextId == s.db.nextId + 1 && s.db.nextId in t.db.log
    ensures t.db.log[s.db.nextId] == Event(s.hooks.execs[x].job, kind, s.hooks.execs[x].cause, x, s.hooks.execs[x].name)
  {
  }

  /** Each named hook has one new execution, waiting, for the job and the event; those
      there before are as they were. */
  ghost predicate Launched(h: Hooks, k: Hooks, j: JobId, cause: nat, names: seq<string>) {
    && (forall i :: 0 <= i < |names| ==>
          h.nextExec + i in k.execs && k.execs[h.nextExec + i] == Execution(j, cause, names[i], Waiting))
    && (forall x :: x in k.execs <==> x in h.execs || h.nextExec <= x < h.nextExec + |names|)
    && (forall x :: x in h.execs ==> k.execs[x] == h.execs[x])
    && (forall i :: k.PendingOf(i) == h.PendingOf(i) + if i == j then |names| else 0)
    && k.nextExec == h.nextExec + |names|
  }

  lemma {:induction false} LaunchesAll(h: Hooks, j: JobId, cause: nat, names: seq<string>)
    requires forall x :: x in h.execs ==> x < h.nextExec
    ensures Launched(h, h.Launch(j, cause, names), j, cause, names)
    decreases |names|
  {
    if names != [] {
      var front, last := names[..|names| - 1], names[|names| - 1];
      LaunchesAll(h, j, cause, front);
      hide Launched;
      LaunchedMore(h, h.Launch(j, cause, front), j, cause, front, last);
      assert front + [last] == names;
    }
  }

  lemma LaunchedMore(h: Hooks, k: Hooks, j: JobId, cause: nat, front: seq<string>, last: string)
    requires Launched(h, k, j, cause, front) && forall x :: x in h.execs ==> x < h.nextExec
    ensures Launched(h, k.LaunchOne(j, cause, last), j, cause, front + [last])
  {
  }

  /** The end of a run, of a cancel, and an accepted job launch the hooks that match. */
  lemma {:induction false} DispatchLaunches(s: Sys, t: Sys, a: Actor, c: Choice)
    requires Counted(s.hooks) && Next(s, t, Step(a, c))
    requires s.actors[a].RunDispatch? || s.actors[a].CancelDispatch? || s.actors[a].SubmitHook?
    ensures Launched(s.hooks, t.hooks, s.actors[a].job, if s.actors[a].SubmitHook? then 0 else s.actors[a].term, c.names)
  {
    hide Hooks.Launch, Launched;
    LaunchesAll(s.hooks, s.actors[a].job, if s.actors[a].SubmitHook? then 0 else s.actors[a].term, c.names);
  }

  /** What the processor reports while it runs is filed. */
  lemma {:induction false} ReportFiled(s: Sys, t: Sys, a: Actor, c: Choice)
    requires Next(s, t, Step(a, c)) && !c.quit && s.actors[a].Processing?
    requires c.kind in {ResolvedInput, ItemProgress, ItemDone, Detail}
    ensures t.db.log == s.db.log[s.db.nextId := Event(s.actors[a].job, c.kind, 0)] && t.actors == s.actors
  {
  }
}

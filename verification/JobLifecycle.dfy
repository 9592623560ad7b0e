/** The job manager (internal/jobs) and the hook dispatcher (internal/hooks) as a
    protocol: every goroutine is an actor with a program counter, and one step is
    one store call or one critical section. Store calls made under a lock are
    steps of their own, because stream readers read the store without it. */
module JobLifecycle {
  import opened Wrappers
  import opened JobStore

  type Actor = nat

  const QUEUE_CAP: nat := 256

  datatype Pc =
    // worker loop and run()
    | Top | Select
    | Delivered(job: JobId)
    | ClaimWrite(job: JobId) | ClaimRegister(job: JobId)
    | Starting(job: JobId, run: nat) | Processing(job: JobId, run: nat)
    | Persisting(job: JobId, run: nat, status: Status, kind: Kind)
    | RunDispatch(job: JobId, run: nat, term: nat)
    | Cleanup(job: JobId, run: nat)
    // Cancel
    | CancelEnter(job: JobId) | CancelSignal(run: nat)
    | CancelWrite(job: JobId)
    | CancelMark(job: JobId, term: nat) | CancelDispatch(job: JobId, term: nat) | CancelClear(job: JobId)
    // Retry
    | RetryEnter(job: JobId) | RetryLocked(job: JobId) | RetryFind(job: JobId)
    | RetryWrite(job: JobId) | RetryEvent(job: JobId) | RetrySend(job: JobId)
    // Delete
    | DeleteEnter(job: JobId) | DeleteWrite(job: JobId)
    // SubmitBatch, one candidate at a time
    | SubmitEnter | SubmitNext | SubmitCreate(key: Key)
    | SubmitEvent(job: JobId) | SubmitHook(job: JobId) | SubmitSend(job: JobId)
    | Done
  {
    predicate InLoop() { Top? || Select? || Delivered? || ClaimWrite? || ClaimRegister? }

    predicate InRun() { Starting? || Processing? || Persisting? || RunDispatch? || Cleanup? }

    predicate InCancel() { CancelEnter? || CancelSignal? || CancelWrite? || CancelMark? || CancelDispatch? || CancelClear? }

    predicate InRetry() { RetryEnter? || RetryLocked? || RetryFind? || RetryWrite? || RetryEvent? || RetrySend? }

    predicate HoldsMu() {
      ClaimWrite? || ClaimRegister? || CancelWrite? || CancelMark? || DeleteWrite?
      || RetryFind? || RetryWrite? || RetryEvent? || RetrySend?
    }

    predicate HoldsSubmit() {
      RetryLocked? || RetryFind? || RetryWrite? || RetryEvent? || RetrySend?
      || SubmitNext? || SubmitCreate? || SubmitEvent? || SubmitHook? || SubmitSend?
    }

    /** Inside run(), from the registration of the cancel func to its removal. */
    predicate Runs(id: JobId) {
      InRun() && job == id
    }

    predicate Marks(id: JobId) {
      (CancelDispatch? || CancelClear?) && job == id
    }

    /** The terminal event this actor has persisted and not yet dispatched. */
    function Owes(): Option<nat> {
      if RunDispatch? || CancelMark? || CancelDispatch? then Some(term) else None
    }

    /** Has changed the job's row and will record the milestone that says so. */
    predicate WillAnnounce(id: JobId) {
      (ClaimRegister? || Starting? || RetryEvent? || SubmitEvent?) && job == id
    }

    /** A worker that will look at the backlog before it blocks. */
    predicate IsAwake() {
      (InLoop() && !Select?) || InRun()
    }

    /** Holds a queued job that is neither in the queue nor in the backlog. */
    predicate Carries(id: JobId) {
      (Delivered? || ClaimWrite? || RetryEvent? || RetrySend? || SubmitEvent? || SubmitHook? || SubmitSend?)
      && job == id
    }

    /** About to send on the admission queue, capacity already checked. */
    predicate WillSend() {
      RetryWrite? || RetryEvent? || RetrySend? || SubmitCreate? || SubmitEvent? || SubmitHook? || SubmitSend?
    }
  }

  datatype HookPc = Waiting | Running | Recorded

  /** One dispatched hook execution; cause as in Event. */
  datatype Execution = Execution(job: JobId, cause: nat, name: string, at: HookPc)

  /** The manager's two mutexes, each with its holder. */
  datatype Locks = Locks(mu: Option<Actor>, submitMu: Option<Actor>)

  /** The manager's cancels and finalizing maps, with the actor that set each mark. */
  datatype Marks = Marks(cancels: map<JobId, Actor>, finalizing: map<JobId, Actor>)

  /** Run contexts: the next one's number, and those whose cancel was requested. */
  datatype Runs = Runs(stopped: set<nat>, nextRun: nat)

  /** The admission queue, the recovery backlog and its one-slot signal. */
  datatype Line = Line(queue: seq<JobId>, backlog: seq<JobId>, token: bool)

  datatype Hooks = Hooks(pending: map<JobId, nat>, execs: map<nat, Execution>, nextExec: nat) {

    function PendingOf(job: JobId): nat {
      if job in pending then pending[job] else 0
    }

    /** Dispatcher.Dispatch: count the matched hooks as pending, then launch them. */
    function Launch(job: JobId, cause: nat, names: seq<string>): Hooks {
      if names == [] then this
      else Launch(job, cause, names[..|names| - 1]).LaunchOne(job, cause, names[|names| - 1])
    }

    function LaunchOne(job: JobId, cause: nat, name: string): Hooks {
      Hooks(pending[job := PendingOf(job) + 1],
            execs[nextExec := Execution(job, cause, name, Waiting)],
            nextExec + 1)
    }
  }

  /** Model-only: what has happened so far. */
  datatype Ledger = Ledger(
    ended: map<nat, JobId>,      // every terminal event ever written
    owing: map<nat, Actor>,      // terminal events not dispatched yet, with who will
    dispatched: map<nat, nat>,   // terminal events with the number of dispatches
    recorded: map<nat, Event>,   // every hook event ever recorded
    muted: set<JobId>            // jobs whose changed row was not announced, and no milestone since
  ) {
    function Owe(term: nat, job: JobId, who: Actor): Ledger {
      this.(ended := ended[term := job], owing := owing[term := who])
    }

    function Settle(term: nat): Ledger {
      this.(owing := owing - {term},
            dispatched := dispatched[term := (if term in dispatched then dispatched[term] else 0) + 1])
    }

    function Mute(job: JobId): Ledger {
      this.(muted := muted + {job})
    }

    function Heard(job: JobId): Ledger {
      this.(muted := muted - {job})
    }

    function Record(id: nat, ev: Event): Ledger {
      this.(recorded := recorded[id := ev])
    }
  }

  /** disturbed is model-only: a store call that moves a job along failed, or shutdown
      began. */
  datatype Sys = Sys(
    db: Store, locks: Locks, marks: Marks, runs: Runs, hooks: Hooks, line: Line,
    actors: map<Actor, Pc>, books: Ledger, disturbed: bool
  ) {
    function Move(who: Actor, pc: Pc): Sys {
      this.(actors := actors[who := pc])
    }

    function LockMu(who: Actor): Sys { this.(locks := locks.(mu := Some(who))) }

    function UnlockMu(): Sys { this.(locks := locks.(mu := None)) }

    function LockSubmit(who: Actor): Sys { this.(locks := locks.(submitMu := Some(who))) }

    function UnlockSubmit(): Sys { this.(locks := locks.(submitMu := None)) }

    function Disturb(): Sys { this.(disturbed := true) }

    function Add(job: JobId, kind: Kind): Sys {
      this.(db := db.AddEvent(Event(job, kind, 0)), books := if kind.IsMilestone() then books.Heard(job) else books)
    }

    /** The job's milestone could not be filed. */
    function Mute(job: JobId): Sys { this.(books := books.Mute(job)) }

    function Send(job: JobId): Sys { this.(line := line.(queue := line.queue + [job])) }

    /** FinalizeJob by who, with the books kept. */
    function Persist(who: Actor, job: JobId, status: Status, kind: Kind): Sys
      requires job in db.jobs
    {
      this.(books := books.Owe(db.nextId, job, who).Heard(job), db := db.FinalizeJob(job, status, kind))
    }

    function Dispatch(job: JobId, term: nat, names: seq<string>): Sys {
      this.(hooks := hooks.Launch(job, term, names), books := books.Settle(term))
    }

    predicate FinalizeInFlight(job: JobId) {
      job in marks.cancels || job in marks.finalizing
    }

    predicate HooksPending(job: JobId) {
      hooks.PendingOf(job) > 0
    }
  }

  /** How an actor's open choices fall out at its next step: whether the store call
      succeeds, whether it stops for shutdown (or, for a submitter, has no candidate
      left), which hooks match, and what the processor reports. */
  datatype Choice =
    Choice(ok: bool, quit: bool, n: nat, id: JobId, key: Key, status: Status, kind: Kind, names: seq<string> := [])

  /** The outcome a finished run may report: a panic fails it whatever happened;
      otherwise a requested cancel takes priority over ProcessJob's answer. */
  predicate Outcome(cancelled: bool, status: Status, kind: Kind) {
    || (status == Failed && kind == JobFailed)
    || (cancelled && status == Cancelled && kind == JobCancelled)
    || (!cancelled && (status == Completed || status == Failed) && kind == JobFinished)
  }

  /** The worker loop and the claim at the start of run(). */
  predicate LoopNext(s: Sys, t: Sys, w: Actor, c: Choice)
    requires w in s.actors
  {
    match s.actors[w]
    case Top =>
      if c.quit then t == s.Disturb().Move(w, Done)
      else if s.line.backlog == [] then t == s.Move(w, Select)
      else t == s.(line := s.line.(backlog := s.line.backlog[1..])).Move(w, Delivered(s.line.backlog[0]))
    case Select =>
      if c.quit then t == s.Disturb().Move(w, Done)
      else if c.n == 0 && s.line.queue != [] then t == s.(line := s.line.(queue := s.line.queue[1..])).Move(w, Delivered(s.line.queue[0]))
      else if s.line.token then t == s.(line := s.line.(token := false)).Move(w, Top)
      else false
    case Delivered(j) =>
      if c.quit then t == s.Disturb().Move(w, Done)
      else if s.locks.mu.Some? then false
      else if !c.ok then t == s.Disturb().Move(w, Top)
      else if s.db.GetJob(j) == Some(Queued) then t == s.LockMu(w).Move(w, ClaimWrite(j))
      else t == s.Move(w, Top)
    case ClaimWrite(j) =>
      if c.ok && j in s.db.jobs then t == s.(db := s.db.UpdateJob(j, Status.Running)).Move(w, ClaimRegister(j))
      else t == s.UnlockMu().Disturb().Move(w, Top)
    case ClaimRegister(j) =>
      t == s.(marks := s.marks.(cancels := s.marks.cancels[j := w]), runs := s.runs.(nextRun := s.runs.nextRun + 1)).UnlockMu().Move(w, Starting(j, s.runs.nextRun))
    case _ => false
  }

  /** The rest of run(). */
  predicate RunNext(s: Sys, t: Sys, w: Actor, c: Choice)
    requires w in s.actors
  {
    match s.actors[w]
    case Starting(j, run) =>
      if c.ok then t == s.Add(j, JobStarted).Move(w, Processing(j, run)) else t == s.Mute(j).Move(w, Processing(j, run))
    case Processing(j, run) =>
      if c.quit then t == s.Disturb().Move(w, Cleanup(j, run))
      else if c.kind.ResolvedInput? || c.kind.ItemProgress? || c.kind.ItemDone? || c.kind.Detail? then t == s.Add(j, c.kind)
      else if Outcome(run in s.runs.stopped, c.status, c.kind) then t == s.Move(w, Persisting(j, run, c.status, c.kind))
      else false
    case Persisting(j, run, status, kind) =>
      if c.ok && j in s.db.jobs then t == s.Persist(w, j, status, kind).Move(w, RunDispatch(j, run, s.db.nextId))
      else t == s.Disturb().Move(w, Cleanup(j, run))
    case RunDispatch(j, run, term) => t == s.Dispatch(j, term, c.names).Move(w, Cleanup(j, run))
    case Cleanup(j, run) =>
      s.locks.mu.None? && t == s.(marks := s.marks.(cancels := s.marks.cancels - {j})).Move(w, Top)
    case _ => false
  }

  /** Cancel. Ending the job's items leaves rows, events and marks alone and is no
      step here. */
  predicate CancelNext(s: Sys, t: Sys, a: Actor, c: Choice)
    requires a in s.actors
  {
    match s.actors[a]
    case CancelEnter(j) =>
      s.locks.mu.None? &&
      if j in s.marks.cancels then
        var w := s.marks.cancels[j];
        t == s.Move(a, if w in s.actors && s.actors[w].Runs(j) then CancelSignal(s.actors[w].run) else Done)
      else if c.ok && s.db.IsActive(j) then t == s.LockMu(a).Move(a, CancelWrite(j))
      else t == s.Move(a, Done)
    case CancelSignal(run) => t == s.(runs := s.runs.(stopped := s.runs.stopped + {run})).Move(a, Done)
    case CancelWrite(j) =>
      if c.ok && j in s.db.jobs then
        t == s.Persist(a, j, Cancelled, JobCancelled).Move(a, CancelMark(j, s.db.nextId))
      else t == s.UnlockMu().Disturb().Move(a, Done)
    case CancelMark(j, term) => t == s.(marks := s.marks.(finalizing := s.marks.finalizing[j := a])).UnlockMu().Move(a, CancelDispatch(j, term))
    case CancelDispatch(j, term) => t == s.Dispatch(j, term, c.names).Move(a, CancelClear(j))
    case CancelClear(j) =>
      s.locks.mu.None? && t == s.(marks := s.marks.(finalizing := s.marks.finalizing - {j})).Move(a, Done)
    case _ => false
  }

  /** Retry. */
  predicate RetryNext(s: Sys, t: Sys, a: Actor, c: Choice)
    requires a in s.actors
  {
    match s.actors[a]
    case RetryEnter(j) =>
      s.locks.submitMu.None? && t == s.LockSubmit(a).Move(a, RetryLocked(j))
    case RetryLocked(j) =>
      s.locks.mu.None? &&
      if c.ok && (s.db.GetJob(j) == Some(Failed) || s.db.GetJob(j) == Some(Cancelled)) && !s.FinalizeInFlight(j) then
        t == s.LockMu(a).Move(a, RetryFind(j))
      else t == s.UnlockSubmit().Move(a, Done)
    case RetryFind(j) =>
      if c.ok && j in s.db.jobs && !s.db.HasActive(s.db.jobs[j].key) && |s.line.queue| < QUEUE_CAP then
        t == s.Move(a, RetryWrite(j))
      else t == s.UnlockMu().UnlockSubmit().Move(a, Done)
    case RetryWrite(j) =>
      if c.ok && j in s.db.jobs then t == s.(db := s.db.UpdateJob(j, Queued)).Move(a, RetryEvent(j))
      else t == s.UnlockMu().UnlockSubmit().Move(a, Done)
    case RetryEvent(j) =>
      if c.ok then t == s.Add(j, JobRetried).Move(a, RetrySend(j)) else t == s.Mute(j).Move(a, RetrySend(j))
    case RetrySend(j) =>
      |s.line.queue| < QUEUE_CAP && t == s.Send(j).UnlockMu().UnlockSubmit().Move(a, Done)
    case _ => false
  }

  /** Delete, and one candidate after another of SubmitBatch. */
  predicate SubmitStep(s: Sys, t: Sys, a: Actor, c: Choice)
    requires a in s.actors
  {
    match s.actors[a]
    case DeleteEnter(j) =>
      // a row that does not decode (ok false) is deleted without artifact cleanup
      s.locks.mu.None? &&
      if s.FinalizeInFlight(j) || s.HooksPending(j) || (c.ok && j !in s.db.jobs) then t == s.Move(a, Done)
      else t == s.LockMu(a).Move(a, DeleteWrite(j))
    case DeleteWrite(j) =>
      if c.ok && j in s.db.jobs && s.db.jobs[j].status.IsTerminal() then
        t == s.(db := s.db.DeleteJob(j), books := s.books.Heard(j)).UnlockMu().Move(a, Done)
      else t == s.UnlockMu().Move(a, Done)
    case SubmitEnter =>
      s.locks.submitMu.None? && t == s.LockSubmit(a).Move(a, SubmitNext)
    case SubmitNext =>
      if c.quit then t == s.UnlockSubmit().Move(a, Done)
      else if c.ok && !s.db.HasActive(c.key) && |s.line.queue| < QUEUE_CAP then t == s.Move(a, SubmitCreate(c.key))
      else t == s
    case SubmitCreate(key) =>
      if c.ok then !s.db.Known(c.id) && t == s.(db := s.db.CreateJob(c.id, key)).Move(a, SubmitEvent(c.id))
      else t == s.Move(a, SubmitNext)
    case SubmitEvent(j) =>
      if c.ok then t == s.Add(j, JobQueued).Move(a, SubmitHook(j)) else t == s.Mute(j).Move(a, SubmitHook(j))
    case SubmitHook(j) => t == s.(hooks := s.hooks.Launch(j, 0, c.names)).Move(a, SubmitSend(j))
    case SubmitSend(j) => |s.line.queue| < QUEUE_CAP && t == s.Send(j).Move(a, SubmitNext)
    case _ => false
  }

  /** One hook event; a write that fails is only logged, so nothing is recorded. */
  predicate Records(s: Sys, t: Sys, x: nat, kind: Kind, ok: bool, at: HookPc)
    requires x in s.hooks.execs
  {
    var e := s.hooks.execs[x];
    var ev := Event(e.job, kind, e.cause, x, e.name);
    if ok then
      t == s.(hooks := s.hooks.(execs := s.hooks.execs[x := e.(at := at)]),
              books := s.books.Record(s.db.nextId, ev),
              db := s.db.AddEvent(ev))
    else
      t == s.(hooks := s.hooks.(execs := s.hooks.execs[x := e.(at := at)]))
  }

  /** One hook execution. It goes straight to hook_failed when shutdown comes before
      it has a slot, and donePending runs after the outcome is recorded. */
  predicate HookNext(s: Sys, t: Sys, x: nat, c: Choice)
    requires x in s.hooks.execs
  {
    match s.hooks.execs[x].at
    case Waiting =>
      if c.quit then Records(s, t, x, HookFailed, c.ok, Recorded) else Records(s, t, x, HookStarted, c.ok, HookPc.Running)
    case Running =>
      (c.kind.HookSucceeded? || c.kind.HookFailed?) && Records(s, t, x, c.kind, c.ok, Recorded)
    case Recorded =>
      var j := s.hooks.execs[x].job;
      if s.hooks.PendingOf(j) <= 1 then t == s.(hooks := s.hooks.(execs := s.hooks.execs - {x}, pending := s.hooks.pending - {j}))
      else t == s.(hooks := s.hooks.(execs := s.hooks.execs - {x}, pending := s.hooks.pending[j := s.hooks.PendingOf(j) - 1]))
  }

  datatype Action =
    | Spawn(who: Actor, pc: Pc)
    | Step(who: Actor, choice: Choice)
    | Hook(exec: nat, choice: Choice)
    | Motion(job: JobId)

  predicate Next(s: Sys, t: Sys, act: Action) {
    match act
    case Spawn(a, pc) =>
      a !in s.actors && (pc.CancelEnter? || pc.RetryEnter? || pc.DeleteEnter? || pc.SubmitEnter?) && t == s.Move(a, pc)
    case Step(a, c) =>
      a in s.actors &&
      if s.actors[a].InLoop() then LoopNext(s, t, a, c)
      else if s.actors[a].InRun() then RunNext(s, t, a, c)
      else if s.actors[a].InCancel() then CancelNext(s, t, a, c)
      else if s.actors[a].InRetry() then RetryNext(s, t, a, c)
      else SubmitStep(s, t, a, c)
    case Hook(x, c) => x in s.hooks.execs && HookNext(s, t, x, c)
    case Motion(j) => s.db.Known(j) && t == s.Add(j, MotionArtwork)
  }

  ghost predicate Steps(s: Sys, t: Sys) {
    exists act :: Next(s, t, act)
  }

  /** A run: every state follows from the one before it by some step. */
  ghost predicate IsRun(run: seq<Sys>) {
    && run != []
    && forall i :: 0 < i < |run| ==> Steps(run[i - 1], run[i])
  }
}

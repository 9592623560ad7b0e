/** A run on which FollowJob (internal/client/follow.go) takes a job for over, twice,
    although a hook of it is still to report. */
module JobFollowEarly {
  import opened Wrappers
  import opened JobStore
  import opened JobLifecycle
  import opened JobInvariants
  import opened JobHistory
  import JobSafety
  import JobStream
  import opened JobFollow

  /** One queued job and one worker, after recovery. */
  function Recovered(): Sys {
    JobSafety.Idle(Store(map[0 := Row(Queued, "key", 0)], map[], 1, map[]), map[])
    .(line := Line([], [0], true), actors := JobSafety.Workers(1))
  }

  const TERM: nat := 2

  /** Up to the moment the job runs. */
  function Before(n: nat): (c: Sys)
    ensures 0 in c.actors && 0 in c.db.jobs
  {
    match n
    case 0 => Recovered()
    case 1 => Before(0).(line := Line([], [], true)).Move(0, Delivered(0))
    case 2 => Before(1).LockMu(0).Move(0, ClaimWrite(0))
    case 3 => Before(2).(db := Before(2).db.UpdateJob(0, JobStore.Status.Running)).Move(0, ClaimRegister(0))
    case _ => Before(3).(marks := Marks(map[0 := 0], map[]), runs := Runs({}, 1)).UnlockMu().Move(0, Starting(0, 0))
  }

  function Working(): Sys {
    Before(4).Add(0, JobStarted).Move(0, Processing(0, 0))
  }

  function Finishing(): (c: Sys)
    ensures 0 in c.db.jobs
  {
    Working().Move(0, Persisting(0, 0, Completed, JobFinished))
  }

  /** Then the job ends, its one hook is launched, and the hook records its start. */
  function Persisted(): (c: Sys) {
    Finishing().Persist(0, 0, Completed, JobFinished).Move(0, RunDispatch(0, 0, Finishing().db.nextId))
  }

  function Launched(): (c: Sys) {
    Persisted().Dispatch(0, TERM, ["hook"]).Move(0, Cleanup(0, 0))
  }

  function Reported(): (c: Sys) {
    var s, ev := Launched(), Event(0, HookStarted, TERM, 0, "hook");
    s.(hooks := s.hooks.(execs := s.hooks.execs[0 := Execution(0, TERM, "hook", HookPc.Running)]),
       books := s.books.Record(s.db.nextId, ev), db := s.db.AddEvent(ev))
  }

  function Course(n: nat): Sys {
    match n
    case 5 => Working()
    case 6 => Finishing()
    case 7 => Persisted()
    case 8 => Launched()
    case 9 => Reported()
    case _ => Before(n)
  }

  const GO := Choice(true, false, 0, 0, "", Completed, Detail)

  lemma {:induction false} FirstSteps()
    ensures Next(Before(0), Before(1), Step(0, GO))
    ensures Next(Before(1), Before(2), Step(0, GO))
    ensures Next(Before(2), Before(3), Step(0, GO))
    ensures Next(Before(3), Before(4), Step(0, GO))
  {
  }

  lemma Started()
    ensures Before(4).actors == map[0 := Starting(0, 0)] && Before(4).hooks == Hooks(map[], map[], 0)
    ensures Before(4).db == Store(map[0 := Row(JobStore.Status.Running, "key", 0)], map[], 1, map[])
    ensures Before(4).runs.stopped == {} && Before(4).books == Ledger(map[], map[], map[], map[], {})
  {
    assert JobSafety.Workers(0) == map[];
  }

  lemma {:induction false} StartStep(s: Sys)
    requires 0 in s.actors && s.actors[0] == Starting(0, 0)
    ensures Next(s, s.Add(0, JobStarted).Move(0, Processing(0, 0)), Step(0, GO))
  {
  }

  lemma {:induction false} OutcomeStep(s: Sys)
    requires 0 in s.actors && s.actors[0] == Processing(0, 0) && 0 !in s.runs.stopped
    ensures Next(s, s.Move(0, Persisting(0, 0, Completed, JobFinished)), Step(0, GO.(kind := JobFinished)))
  {
  }

  lemma {:induction false} RunSteps()
    ensures Next(Before(4), Working(), Step(0, GO))
    ensures Next(Working(), Finishing(), Step(0, GO.(kind := JobFinished)))
  {
    hide Next, Before;
    Started();
    StartStep(Before(4));
    OutcomeStep(Working());
  }

  lemma BeforeEnd()
    ensures Finishing().actors == map[0 := Persisting(0, 0, Completed, JobFinished)]
    ensures Finishing().db == Store(map[0 := Row(JobStore.Status.Running, "key", 0)], map[1 := Event(0, JobStarted, 0)], TERM, map[])
    ensures Finishing().hooks == Hooks(map[], map[], 0) && Finishing().books == Ledger(map[], map[], map[], map[], {})
  {
    hide Before;
    Started();
  }

  lemma {:induction false} PersistStep()
    ensures Next(Finishing(), Persisted(), Step(0, GO))
  {
    hide Before, Working, Finishing;
    BeforeEnd();
  }

  lemma {:induction false} AtEnd()
    ensures Persisted().db == Store(map[0 := Row(Completed, "key", TERM)],
                                map[1 := Event(0, JobStarted, 0), 2 := Event(0, JobFinished, 0)], 3, map[])
    ensures Persisted().actors == map[0 := RunDispatch(0, 0, TERM)] && Persisted().hooks == Hooks(map[], map[], 0)
    ensures Persisted().books.recorded == map[] && TERM !in Persisted().books.dispatched
  {
    hide Before, Working, Finishing;
    BeforeEnd();
  }

  lemma {:induction false} DispatchStep()
    ensures Next(Persisted(), Launched(), Step(0, GO.(names := ["hook"])))
    ensures Launched().hooks.execs == map[0 := Execution(0, TERM, "hook", Waiting)]
    ensures Launched().db == Persisted().db && Launched().books.recorded == map[]
  {
    hide Before, Working, Finishing, Persisted;
    AtEnd();
    assert ["hook"][..0] == [];
  }

  lemma {:induction false} HookStep()
    ensures Next(Launched(), Reported(), Hook(0, GO))
    ensures 3 in Reported().books.recorded && Reported().books.recorded[3].cause == TERM
  {
    hide Before, Working, Finishing, Launched;
    DispatchStep();
    AtEnd();
  }

  function Run(n: nat): (run: seq<Sys>)
    ensures |run| == n && forall i :: 0 <= i < n ==> run[i] == Course(i)
  {
    hide Course;
    if n == 0 then [] else Run(n - 1) + [Course(n - 1)]
  }

  lemma {:induction false} RecoveredStart()
    ensures JobSafety.Restartable(Recovered().db, map[]) && Inv(Recovered())
  {
    JobSafety.Started(Recovered().db, map[], [0], 1, false);
  }

  lemma {:induction false} IsCourse()
    ensures IsRun(Run(10))
  {
    hide Before, Working, Finishing, Persisted, Launched, Reported, Next;
    FirstSteps();
    RunSteps();
    PersistStep();
    DispatchStep();
    HookStep();
    var run := Run(10);
    forall i | 0 < i < |run|
      ensures Steps(run[i - 1], run[i])
    {
      assert i == 1 || i == 2 || i == 3 || i == 4 || i == 5 || i == 6 || i == 7 || i == 8 || i == 9;
    }
  }

  lemma {:induction false} NoFrames(db: Store, job: JobId, below: nat)
    requires forall e :: e in db.log ==> !db.log[e].kind.IsHook()
    ensures HookFrames(db, job, below) == []
  {
    if below > 0 {
      NoFrames(db, job, below - 1);
    }
  }

  /** All reads of a snapshot made in one state. */
  function At(n: nat): Snapshot {
    Snapshot(Course(n), Course(n), Course(n))
  }

  lemma {:induction false} SnapshotOver(n: nat)
    requires n == 7 || n == 8
    ensures 0 in Course(n).db.jobs && At(n).Over(0, false) && Course(n).db.jobs[0].term == TERM
    ensures !NoneSince(Course(n), Course(9), TERM)
  {
    hide Before, Working, Finishing, Persisted, Launched, Reported, ShowsRunning, HookFrames;
    AtEnd();
    DispatchStep();
    HookStep();
    ShowsNothing(Course(n));
  }

  lemma {:induction false} ShowsNothing(s: Sys)
    requires forall e :: e in s.db.log ==> !s.db.log[e].kind.IsHook()
    ensures !ShowsRunning(Snapshot(s, s, s).Events(0), s.HooksPending(0))
  {
    NoFrames(s.db, 0, s.db.nextId);
  }

  /** A snapshot in state s at which FollowJob that waits for hooks takes job 0 for over,
      while a hook event of its terminal event is recorded by state last. */
  ghost predicate TooSoon(s: Sys, last: Sys) {
    var snap := Snapshot(s, s, s);
    && snap.Valid(0) && snap.row.db.jobs[0].term == TERM
    && After([snap.Answer(0)], false, false).end == Some(JobOver)
    && !NoneSince(s, last, TERM) && !NothingHidden(snap, 0, TERM)
  }

  lemma {:induction false} TooSoonAt(n: nat)
    requires n == 7 || n == 8
    ensures TooSoon(Course(n), Course(9))
  {
    hide Course, Inv, NothingHidden, NoneSince, ShowsRunning, HookFrames, After;
    SnapshotOver(n);
    StillInv(n);
    LaterRefl(Course(n));
    SettledShown(At(n), 0);
    NotSettled(n);
    AfterNone(false, false);
    AfterMore([], At(n).Answer(0), false, false);
    assert [] + [At(n).Answer(0)] == [At(n).Answer(0)];
  }

  /** On this run from a recovered start, FollowJob that waits for hooks takes the job for
      over at a snapshot made before the hook is dispatched, and at one made while the
      hook waits for its slot; and the hook's start is recorded afterwards. */
  lemma {:induction false} EndsTooSoon()
    ensures var run := Run(10);
      && IsRun(run) && run[0] == Recovered() && JobSafety.Restartable(Recovered().db, map[])
      && TooSoon(run[7], run[9]) && TERM !in run[7].books.dispatched
      && TooSoon(run[8], run[9]) && run[8].hooks.execs == map[0 := Execution(0, TERM, "hook", Waiting)]
  {
    hide Course, TooSoon, Recovered, JobSafety.Restartable;
    IsCourse();
    RecoveredStart();
    CourseStart();
    TwoWindows();
    TooSoonAt(7);
    TooSoonAt(8);
  }

  lemma TwoWindows()
    ensures TERM !in Course(7).books.dispatched
    ensures Course(8).hooks.execs == map[0 := Execution(0, TERM, "hook", Waiting)]
  {
    hide Before, Working, Finishing, Persisted, Launched, Reported;
    AtEnd();
    DispatchStep();
  }

  lemma CourseStart()
    ensures Course(0) == Recovered()
  {
  }

  lemma {:induction false} StillInv(n: nat)
    requires n < 10
    ensures Inv(Course(n))
  {
    hide Course, Inv, IsRun, Recovered;
    IsCourse();
    RecoveredStart();
    CourseStart();
    JobSafety.OneLife(Run(10), n);
  }

  lemma NotSettled(n: nat)
    requires n == 7 || n == 8
    ensures !Settled(Course(n), TERM)
  {
    hide Before, Working, Finishing, Persisted, Launched, Reported;
    AtEnd();
    DispatchStep();
    assert n == 8 ==> 0 in Course(n).hooks.execs;
  }
}

/** What one state of the job protocol says about every later one: the facts a
    stream reader, which holds no lock, carries from one read to the next. */
module JobHistory {
  import opened Wrappers
  import opened JobStore
  import opened JobLifecycle
  import opened JobInvariants

  // ---- The store

  /** Ids only grow, nothing is filed below them afterwards, and an event leaves
      the log only as pruned progress or with its job. */
  ghost predicate LogLater(s: Store, t: Store) {
    && s.nextId <= t.nextId
    && (forall e :: e in t.log && e < s.nextId ==> e in s.log && t.log[e] == s.log[e])
    && (forall e :: e in s.log ==>
          || (e in t.log && t.log[e] == s.log[e])
          || s.log[e].kind == ItemProgress
          || (s.log[e].job in t.tombs && s.log[e].job !in s.tombs))
    && (forall j :: j in s.tombs ==> j in t.tombs && t.tombs[j] == s.tombs[j])
    && (forall j :: j in s.jobs ==> t.Known(j))
  }

  lemma {:induction false} LogLaterTrans(s: Store, t: Store, u: Store)
    requires LogLater(s, t) && LogLater(t, u)
    ensures LogLater(s, u)
  {
  }

  lemma {:induction false} UpdatedLater(db: Store, j: JobId, status: Status)
    requires j in db.jobs && (forall e :: e in db.log ==> e < db.nextId)
    ensures LogLater(db, db.UpdateJob(j, status))
  {
  }

  lemma {:induction false} CreatedLater(db: Store, j: JobId, key: Key)
    ensures LogLater(db, db.CreateJob(j, key))
  {
  }

  lemma {:induction false} FinalizedLater(db: Store, j: JobId, status: Status, kind: Kind)
    requires j in db.jobs && (forall e :: e in db.log ==> e < db.nextId)
    ensures LogLater(db, db.FinalizeJob(j, status, kind))
  {
  }

  lemma {:induction false} DeletedLater(db: Store, j: JobId)
    requires j in db.jobs && j !in db.tombs && (forall e :: e in db.log ==> e < db.nextId)
    ensures LogLater(db, db.DeleteJob(j))
  {
  }

  lemma {:induction false} AppendedLater(s: Store, t: Store)
    requires Appended(s, t) && (forall e :: e in s.log ==> e < s.nextId)
    ensures LogLater(s, t)
  {
  }

  // ---- Hooks

  /** Every hook of terminal event e that will ever run has recorded its outcome. */
  ghost predicate Settled(s: Sys, e: nat) {
    e in s.books.dispatched && forall x :: x in s.hooks.execs && s.hooks.execs[x].cause == e ==> s.hooks.execs[x].at.Recorded?
  }

  /** Books only grow; a settled event stays settled and gains no hook event. */
  ghost predicate HooksLater(s: Sys, t: Sys) {
    && (forall e :: e in s.books.ended ==> e in t.books.ended && t.books.ended[e] == s.books.ended[e])
    && (forall e :: e in s.books.dispatched ==> e in t.books.dispatched)
    && (forall r :: r in s.books.recorded ==> r in t.books.recorded && t.books.recorded[r] == s.books.recorded[r])
    && (forall e :: Settled(s, e) ==>
          && Settled(t, e)
          && forall r :: r in t.books.recorded && t.books.recorded[r].cause == e ==> r in s.books.recorded)
  }

  lemma {:induction false} HooksLaterTrans(s: Sys, t: Sys, u: Sys)
    requires HooksLater(s, t) && HooksLater(t, u)
    ensures HooksLater(s, u)
  {
  }

  // ---- Announcements

  /** What the overview shows of a job: its status, or that it is gone. */
  function View(db: Store, j: JobId): (Option<Status>, bool) {
    (db.GetJob(j), j in db.tombs)
  }

  /** A milestone of j is on file after the cursor. */
  ghost predicate Due(db: Store, j: JobId, cursor: nat) {
    exists e :: e in db.log && cursor < e && db.log[e].job == j && db.log[e].kind.IsMilestone()
  }

  /** A milestone of j is on file after the cursor, or one is about to be filed. */
  ghost predicate Behind(s: Sys, j: JobId, cursor: nat) {
    || Due(s.db, j, cursor)
    || (exists a :: a in s.actors && s.actors[a].WillAnnounce(j))
  }

  /** A change of view is announced after every cursor already given out, and an
      announcement once due stays due until it is on file after the cursor; but for a
      job whose milestone could not be filed, until the next one that could. */
  ghost predicate Told(s: Sys, t: Sys) {
    forall j, cursor: nat ::
      && cursor < s.db.nextId && j !in t.books.muted
      && (j in s.books.muted || Behind(s, j, cursor) || View(s.db, j) != View(t.db, j))
      ==> Behind(t, j, cursor)
  }

  lemma {:induction false} ToldTrans(s: Sys, t: Sys, u: Sys)
    requires Told(s, t) && Told(t, u) && s.db.nextId <= t.db.nextId
    ensures Told(s, u)
  {
    forall j, cursor: nat
      | && cursor < s.db.nextId && j !in u.books.muted
        && (j in s.books.muted || Behind(s, j, cursor) || View(s.db, j) != View(u.db, j))
      ensures Behind(u, j, cursor)
    {
      assert j in t.books.muted || Behind(t, j, cursor) || View(t.db, j) != View(u.db, j);
    }
  }

  /** The part of Told that concerns what an actor's step announces: a changed row
      has its milestone on file, or the actor is about to file it. */
  ghost predicate StepTold(s: Sys, t: Sys, a: Actor) {
    && a in s.actors && a in t.actors && t.actors == s.actors[a := t.actors[a]]
    && (forall j :: View(s.db, j) != View(t.db, j) || s.actors[a].WillAnnounce(j) ==>
          t.actors[a].WillAnnounce(j) || j in t.books.muted || Filed(s.db, t.db, j))
    && Heeds(s, t)
  }

  lemma {:induction false} StepTells(s: Sys, t: Sys, a: Actor)
    requires StepTold(s, t, a) && LogLater(s.db, t.db)
    requires Log(s.db, s.books.recorded) && Log(t.db, t.books.recorded)
    ensures Told(s, t)
  {
    forall j, cursor: nat
      | && cursor < s.db.nextId && j !in t.books.muted
        && (j in s.books.muted || Behind(s, j, cursor) || View(s.db, j) != View(t.db, j))
      ensures Behind(t, j, cursor)
    {
      if j !in s.books.muted && View(s.db, j) == View(t.db, j) {
        if b :| b in s.actors && s.actors[b].WillAnnounce(j) {
          if b != a { assert t.actors[b].WillAnnounce(j); }
        }
      }
    }
  }

  // ---- Every step

  ghost predicate Later(s: Sys, t: Sys) {
    LogLater(s.db, t.db) && HooksLater(s, t) && Told(s, t)
  }

  lemma {:induction false} LaterRefl(s: Sys)
    ensures Later(s, s)
  {
  }

  lemma {:induction false} LaterTrans(s: Sys, t: Sys, u: Sys)
    requires Later(s, t) && Later(t, u)
    ensures Later(s, u)
  {
    LogLaterTrans(s.db, t.db, u.db);
    HooksLaterTrans(s, t, u);
    ToldTrans(s, t, u);
  }

  lemma {:induction false} QuietLater(s: Sys, t: Sys, a: Actor)
    requires Core(s) && Quiet(s, t, a)
    ensures LogLater(s.db, t.db) && StepTold(s, t, a)
  {
    AppendedLater(s.db, t.db);
  }

  lemma {:induction false} UpdatesLater(s: Sys, t: Sys, a: Actor)
    requires Core(s) && a in s.actors && Updates(s, t, a)
    ensures LogLater(s.db, t.db) && StepTold(s, t, a)
  {
    hide Actors, Held, Rows, Books, LogLater, StepTold;
    UpdatedLater(s.db, s.actors[a].job, t.db.jobs[s.actors[a].job].status);
    UpdatesTold(s, t, a);
  }

  lemma {:induction false} UpdatesTold(s: Sys, t: Sys, a: Actor)
    requires a in s.actors && Updates(s, t, a)
    ensures StepTold(s, t, a)
  {
  }

  lemma {:induction false} CreatesLater(s: Sys, t: Sys, a: Actor)
    requires Core(s) && a in s.actors && Creates(s, t, a)
    ensures LogLater(s.db, t.db) && StepTold(s, t, a)
  {
    var id :| !s.db.Known(id) && t == s.(db := s.db.CreateJob(id, s.actors[a].key)).Move(a, SubmitEvent(id));
    CreatedLater(s.db, id, s.actors[a].key);
  }

  lemma {:induction false} DeletesLater(s: Sys, t: Sys, a: Actor)
    requires Core(s) && a in s.actors && Deletes(s, t, a)
    ensures LogLater(s.db, t.db) && StepTold(s, t, a)
  {
    hide Actors, Held, Rows, Books, LogLater, StepTold;
    DeletedLater(s.db, s.actors[a].job);
    DeletesTold(s, t, a);
  }

  lemma {:induction false} DeletesTold(s: Sys, t: Sys, a: Actor)
    requires a in s.actors && Deletes(s, t, a)
    ensures StepTold(s, t, a)
  {
  }

  lemma {:induction false} PersistsLater(s: Sys, t: Sys, a: Actor)
    requires a in s.actors && Persists(s, t, a) && (forall e :: e in s.db.log ==> e < s.db.nextId)
    ensures LogLater(s.db, t.db)
  {
    var j := s.actors[a].job;
    if s.actors[a].Persisting? {
      FinalizedLater(s.db, j, s.actors[a].status, s.actors[a].kind);
    } else {
      FinalizedLater(s.db, j, Cancelled, JobCancelled);
    }
  }

  lemma {:induction false} RunPersistsTold(s: Sys, t: Sys, a: Actor)
    requires a in s.actors && s.actors[a].Persisting? && PcOk(s, a, s.actors[a]) && Persists(s, t, a)
    ensures StepTold(s, t, a)
  {
  }

  lemma {:induction false} CancelPersistsTold(s: Sys, t: Sys, a: Actor)
    requires a in s.actors && s.actors[a].CancelWrite? && Persists(s, t, a)
    ensures StepTold(s, t, a)
  {
  }

  lemma {:induction false} MarksLater(s: Sys, t: Sys, a: Actor)
    requires a in s.actors && (SetsMark(s, t, a) || DropsMark(s, t, a) || Dispatches(s, t, a))
    ensures LogLater(s.db, t.db) && StepTold(s, t, a)
  {
    if SetsMark(s, t, a) {
    } else if DropsMark(s, t, a) {
    } else {
    }
  }

  lemma {:induction false} ShapeLater(s: Sys, t: Sys, a: Actor)
    requires Core(s) && a in s.actors && Shaped(s, t, a)
    ensures LogLater(s.db, t.db) && StepTold(s, t, a)
    ensures forall e :: e in s.books.ended ==> e in t.books.ended && t.books.ended[e] == s.books.ended[e]
  {
    EndedGrows(s, t, a);
    if Updates(s, t, a) {
      UpdatesLater(s, t, a);
    } else if Creates(s, t, a) {
      CreatesLater(s, t, a);
    } else if Deletes(s, t, a) {
      DeletesLater(s, t, a);
    } else if Persists(s, t, a) {
      assert PcOk(s, a, s.actors[a]);
      PersistsLater(s, t, a);
      if s.actors[a].Persisting? {
        RunPersistsTold(s, t, a);
      } else {
        CancelPersistsTold(s, t, a);
      }
    } else if SetsMark(s, t, a) || DropsMark(s, t, a) || Dispatches(s, t, a) {
      MarksLater(s, t, a);
    } else {
      QuietLater(s, t, a);
    }
  }

  lemma {:induction false} CreationHooksLater(s: Sys, t: Sys, a: Actor, c: Choice)
    requires a in s.actors && s.actors[a].SubmitHook? && SubmitStep(s, t, a, c) && Books(s) && Counted(s.hooks)
    ensures HooksLater(s, t)
  {
    LaunchCounted(s.hooks, s.actors[a].job, 0, c.names);
  }

  /** The hooks of a terminal event are launched while it is still owed. */
  lemma {:induction false} TerminalHooksLater(s: Sys, t: Sys, a: Actor, names: seq<string>)
    requires a in s.actors && s.actors[a].Owes().Some? && PcOk(s, a, s.actors[a]) && Books(s) && Counted(s.hooks)
    requires t.hooks == s.hooks.Launch(s.actors[a].job, s.actors[a].term, names) && t.books == s.books.Settle(s.actors[a].term)
    ensures HooksLater(s, t)
  {
    LaunchCounted(s.hooks, s.actors[a].job, s.actors[a].term, names);
  }

  lemma {:induction false} StepHooksLater(s: Sys, t: Sys, a: Actor, c: Choice)
    requires Inv(s) && Next(s, t, Step(a, c)) && (HooksUntouched(s, t) || Launches(s.actors[a]))
    requires forall e :: e in s.books.ended ==> e in t.books.ended && t.books.ended[e] == s.books.ended[e]
    ensures HooksLater(s, t)
  {
    if Launches(s.actors[a]) {
      assert PcOk(s, a, s.actors[a]);
      if s.actors[a].SubmitHook? {
        CreationHooksLater(s, t, a, c);
      } else {
        TerminalHooksLater(s, t, a, c.names);
      }
    }
  }

  lemma {:induction false} StepLater(s: Sys, t: Sys, a: Actor, c: Choice)
    requires Inv(s) && Next(s, t, Step(a, c))
    ensures Later(s, t)
  {
    hide PcOk, HooksLater, LogLater, StepTold, Log;
    StepShape(s, t, a, c);
    ShapeKept(s, t, a);
    ShapeLater(s, t, a);
    StepHooksLater(s, t, a, c);
    StepTells(s, t, a);
  }

  lemma {:induction false} BackgroundTold(s: Sys, t: Sys)
    requires Background(s, t) && LogLater(s.db, t.db)
    ensures Told(s, t)
  {
    forall j, cursor: nat | Behind(s, j, cursor)
      ensures Behind(t, j, cursor)
    {
      if a :| a in s.actors && s.actors[a].WillAnnounce(j) {
        assert t.actors[a].WillAnnounce(j);
      }
    }
  }

  lemma {:induction false} HookLater(s: Sys, t: Sys, x: nat, c: Choice)
    requires Core(s) && x in s.hooks.execs && HookNext(s, t, x, c)
    ensures Background(s, t) && LogLater(s.db, t.db) && HooksLater(s, t)
  {
    hide Actors, Held, Rows, LogLater, HooksLater;
    HookBackground(s, t, x, c);
    AppendedLater(s.db, t.db);
    hide Background, Log;
    HookStepLater(s, t, x, c);
  }

  lemma {:induction false} HookStepLater(s: Sys, t: Sys, x: nat, c: Choice)
    requires x in s.hooks.execs && HookNext(s, t, x, c) && Log(s.db, s.books.recorded)
    ensures HooksLater(s, t)
  {
    hide Log, HooksLater, Records;
    RecordedBelow(s);
    match s.hooks.execs[x].at
    case Waiting =>
      if c.quit {
        RecordLater(s, t, x, HookFailed, c.ok, Recorded);
      } else {
        RecordLater(s, t, x, HookStarted, c.ok, HookPc.Running);
      }
    case Running => RecordLater(s, t, x, c.kind, c.ok, Recorded);
    case Recorded => LeaveLater(s, t, x);
  }

  lemma {:induction false} RecordLater(s: Sys, t: Sys, x: nat, kind: Kind, ok: bool, at: HookPc)
    requires x in s.hooks.execs && Records(s, t, x, kind, ok, at) && !s.hooks.execs[x].at.Recorded?
    requires forall e :: e in s.books.recorded ==> e < s.db.nextId
    ensures HooksLater(s, t)
  {
    if ok {
    }
  }

  lemma {:induction false} LeaveLater(s: Sys, t: Sys, x: nat)
    requires t.books == s.books && t.hooks.execs == s.hooks.execs - {x}
    ensures HooksLater(s, t)
  {
  }

  lemma RecordedBelow(s: Sys)
    requires Log(s.db, s.books.recorded)
    ensures forall e :: e in s.books.recorded ==> e < s.db.nextId
  {
  }

  lemma {:induction false} SpawnTold(s: Sys, t: Sys, a: Actor, pc: Pc)
    requires Next(s, t, Spawn(a, pc))
    ensures Told(s, t)
  {
    forall j, cursor: nat | Behind(s, j, cursor)
      ensures Behind(t, j, cursor)
    {
      if b :| b in s.actors && s.actors[b].WillAnnounce(j) {
        assert t.actors[b].WillAnnounce(j);
      }
    }
  }

  lemma {:induction false} LaterKept(s: Sys, t: Sys, act: Action)
    requires Inv(s) && Next(s, t, act)
    ensures Inv(t) && Later(s, t)
  {
    hide Inv, Later, Next;
    InvKept(s, t, act);
    if act.Step? {
      TakenLater(s, t, act);
    } else {
      OtherLater(s, t, act);
    }
  }

  lemma {:induction false} TakenLater(s: Sys, t: Sys, act: Action)
    requires Inv(s) && Next(s, t, act) && act.Step?
    ensures Later(s, t)
  {
    hide Inv, Later;
    StepLater(s, t, act.who, act.choice);
  }

  lemma {:induction false} OtherLater(s: Sys, t: Sys, act: Action)
    requires Inv(s) && Next(s, t, act) && !act.Step?
    ensures Later(s, t)
  {
    hide Actors, Held, Rows, Books, Log, Counted, Causes, NotStranded, HooksLater, LogLater, Told, Background;
    match act
    case Hook(x, c) =>
      HookLater(s, t, x, c);
      BackgroundTold(s, t);
    case Motion(j) => MotionLater(s, t, j);
    case Spawn(a, pc) => SpawnLater(s, t, a, pc);
  }

  lemma {:induction false} MotionLater(s: Sys, t: Sys, j: JobId)
    requires Log(s.db, s.books.recorded) && Next(s, t, Motion(j))
    ensures Later(s, t)
  {
    hide Next, Background, LogLater, Told;
    MotionBackground(s, t, j);
    BackgroundIs(s, t);
    BackgroundTold(s, t);
  }

  lemma BackgroundIs(s: Sys, t: Sys)
    requires Background(s, t) && Log(s.db, s.books.recorded)
    ensures LogLater(s.db, t.db) && t.books == s.books.(recorded := t.books.recorded, muted := t.books.muted)
  {
    hide LogLater;
    AppendedLater(s.db, t.db);
  }

  lemma {:induction false} SpawnLater(s: Sys, t: Sys, a: Actor, pc: Pc)
    requires Next(s, t, Spawn(a, pc))
    ensures Later(s, t)
  {
    hide Told;
    SpawnTold(s, t, a, pc);
  }

  /** Over whole runs. */
  lemma {:induction false} RunLater(run: seq<Sys>)
    requires IsRun(run) && Inv(run[0])
    ensures Inv(run[|run| - 1]) && Later(run[0], run[|run| - 1])
    decreases |run|
  {
    if |run| > 1 {
      var front := run[..|run| - 1];
      assert IsRun(front) by {
        forall i | 0 < i < |front|
          ensures Steps(front[i - 1], front[i])
        {
          assert Steps(run[i - 1], run[i]);
        }
      }
      RunLater(front);
      assert Steps(run[|run| - 2], run[|run| - 1]);
      var act :| Next(run[|run| - 2], run[|run| - 1], act);
      LaterKept(run[|run| - 2], run[|run| - 1], act);
      LaterTrans(run[0], run[|run| - 2], run[|run| - 1]);
    }
  }
}

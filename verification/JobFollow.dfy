/** FollowJob (internal/client/follow.go): the client's side of a job stream, through
    the bytes on the wire, across any number of broken connections. */
module JobFollow {
  import opened Wrappers
  import opened JobStore
  import opened JobLifecycle
  import opened JobInvariants
  import opened JobHistory
  import opened JobStream
  import Sse
  import SseWire

  /** How the server writes an event: under its decimal id, each field one line. */
  ghost predicate Renders(text: JobStream.Frame -> Sse.Event) {
    forall fr :: text(fr).id == Sse.Decimal(fr.id) && Sse.Plain(text(fr))
  }

  /** No message is too long for the client. */
  ghost predicate AllFit(text: JobStream.Frame -> Sse.Event) {
    forall fr :: Sse.Fits(Sse.Message(text(fr)))
  }

  lemma EachFits(frames: seq<JobStream.Frame>, text: JobStream.Frame -> Sse.Event)
    requires AllFit(text)
    ensures SseWire.Fit(frames, text)
  {
  }

  lemma {:induction false} RendersOnWire(text: JobStream.Frame -> Sse.Event)
    requires Renders(text)
    ensures SseWire.Renders(text)
  {
    forall fr: JobStream.Frame
      ensures text(fr).id != "" && Sse.Plain(text(fr))
    {
      assert text(fr).id == Sse.Decimal(fr.id);
    }
  }

  /** A client that received only the first n frames has every event up to its own
      cursor. */
  lemma {:induction false} FirstReceived(db: Store, job: JobId, sent: seq<JobStream.Frame>, start: nat, n: nat)
    requires n <= |sent| && Ordered(db, job, sent, start) && UpTo(db, job, sent, start, Cursor(sent, start))
    ensures Ordered(db, job, sent[..n], start) && UpTo(db, job, sent[..n], start, Cursor(sent[..n], start))
  {
    var got := sent[..n];
    forall e | e in db.log && db.log[e].job == job && e <= Cursor(got, start)
      ensures Got(got, start, e)
    {
      if e > start {
        assert Got(sent, start, e);
        var i :| 0 <= i < |sent| && sent[i].id == e;
        assert got[i].id == e;
      }
    }
  }

  /** What has arrived since the latest snapshot, whose cursor was start: every stored
      event up to the client's cursor, each once and in order. */
  ghost predicate Whole(s: Sys, job: JobId, seen: seq<JobStream.Frame>, start: nat) {
    Ordered(s.db, job, seen, start) && UpTo(s.db, job, seen, start, Cursor(seen, start))
  }

  lemma {:induction false} WholeLater(s: Sys, t: Sys, job: JobId, seen: seq<JobStream.Frame>, start: nat)
    requires Later(s, t) && Whole(s, job, seen, start)
    ensures Whole(t, job, seen, start)
  {
    assert seen + [] == seen;
    Resumed(s, t, job, seen, start, [], Cursor(seen, start));
  }

  lemma {:induction false} WholeMore(s: Sys, t: Sys, job: JobId, seen: seq<JobStream.Frame>, start: nat, got: seq<JobStream.Frame>)
    requires Later(s, t) && Whole(s, job, seen, start) && Whole(t, job, got, Cursor(seen, start))
    ensures Whole(t, job, seen + got, start)
    ensures Cursor(seen + got, start) == Cursor(got, Cursor(seen, start))
  {
    var upto := Cursor(got, Cursor(seen, start));
    if got == [] {
      assert seen + got == seen;
    }
    Resumed(s, t, job, seen, start, got, upto);
  }

  // ---- One connection

  datatype Status = BadRequest | NotFound | ServerError | NoContent | Opened(clean: bool)

  /** The server ended the stream because nothing was left, after terminal event term. */
  ghost predicate Exhausting(s: Sys, job: JobId, ended: Option<nat>) {
    ended.Some? ==> job in s.db.tombs || Settled(s, ended.value)
  }

  /** Client.Stream on a job's event stream, the server and a connection that may
      break at any byte included. ended: the server ended it by exhaustion. */
  method Connect(world: World, job: JobId, raw: string, ghost cursor: nat, text: JobStream.Frame -> Sse.Event)
    returns (status: Status, lastID: string, got: seq<JobStream.Frame>, ghost ended: Option<nat>)
    requires Inv(world.s) && Renders(text) && raw == Sse.Decimal(cursor)
    modifies world
    ensures Inv(world.s) && Later(old(world.s), world.s)
    ensures status.NotFound? ==> world.s.db.GetJob(job).None?
    ensures Whole(world.s, job, got, cursor)
    ensures lastID == Sse.Decimal(Cursor(got, cursor))
    ensures Exhausting(world.s, job, ended) && (status.NoContent? ==> ended.Some?)
    ensures world.trouble >= old(world.trouble)
    ensures status.ServerError? ==> world.trouble > old(world.trouble)
    ensures status.BadRequest? ==> cursor > Sse.MAX_CURSOR
    // unless something fails the client has all the server sent: after a stream that ended
    // by exhaustion, all there is
    ensures world.trouble == old(world.trouble) && AllFit(text) && status.Opened? ==>
      status == Opened(true) && (ended.Some? ==> Finished(world.s, job, got, cursor, ended.value))
  {
    hide Inv, Later, Renders, Ordered, UpTo, Finished, Exhausting, Cursor, Sse.Decimal, SseWire.Renders, AllFit, SseWire.Fit;
    ended := None;
    NotExhausting(world.s, job);
    var parsed := Sse.StreamCursor("", raw);
    if parsed.Err? {
      LaterRefl(world.s);
      NothingYet(world.s, job, cursor);
      return BadRequest, raw, [], ended;
    }
    SseWire.CursorExact(cursor);
    var reply, sent;
    ghost var term, looks, read;
    reply, sent, term, looks, read := JobEvents(world, job, parsed.value);
    NotExhausting(world.s, job);
    NothingYet(world.s, job, cursor);
    if reply.NoContent? || reply == Streamed(End.Complete) {
      ended := Some(term);
      FinishedExhausts(world.s, job, sent, cursor, term);
    }
    match reply
    case NotFound => return Status.NotFound, raw, [], ended;
    case StoreError => return ServerError, raw, [], ended;
    case NoContent => return Status.NoContent, raw, [], ended;
    case Streamed(_) =>
      RendersOnWire(text);
      var broken := world.Fails();
      var delivered;
      lastID, delivered := SseWire.Transmit(sent, raw, text, broken);
      got := sent[..|delivered|];
      if AllFit(text) {
        EachFits(sent, text);
      }
      assert |got| == |sent| ==> got == sent;
      LastRendered(sent, |delivered|, cursor, text);
      FirstReceived(world.s.db, job, sent, cursor, |delivered|);
      return Opened(!broken), lastID, got, ended;
  }

  lemma {:induction false} LastRendered(sent: seq<JobStream.Frame>, n: nat, cursor: nat, text: JobStream.Frame -> Sse.Event)
    requires Renders(text) && n <= |sent|
    ensures n > 0 ==> text(sent[n - 1]).id == Sse.Decimal(Cursor(sent[..n], cursor))
  {
  }

  lemma NotExhausting(s: Sys, job: JobId)
    ensures Exhausting(s, job, None)
  {
  }

  lemma FinishedExhausts(s: Sys, job: JobId, sent: seq<JobStream.Frame>, start: nat, term: nat)
    requires Finished(s, job, sent, start, term)
    ensures Exhausting(s, job, Some(term))
  {
  }

  lemma ExhaustingStays(s: Sys, t: Sys, job: JobId, ended: Option<nat>)
    requires Exhausting(s, job, ended) && Later(s, t)
    ensures Exhausting(t, job, ended)
  {
  }

  lemma {:induction false} NothingYet(s: Sys, job: JobId, cursor: nat)
    ensures Whole(s, job, [], cursor) && Cursor([], cursor) == cursor
  {
  }

  // ---- The hooks a snapshot shows

  datatype HookStatus = HookIsRunning | HookHasSucceeded | HookHasFailed | HookInterrupted

  /** The kind of the last of the events that is about the named hook. */
  function LatestOf(events: seq<JobStream.Frame>, name: string): Option<Kind> {
    if events == [] then None
    else
      var last := events[|events| - 1].ev;
      if last.hook == name then Some(last.kind) else LatestOf(events[..|events| - 1], name)
  }

  function StatusOf(kind: Kind, pending: bool): HookStatus {
    match kind
    case HookSucceeded => HookHasSucceeded
    case HookFailed => HookHasFailed
    case _ => if pending then HookIsRunning else HookInterrupted
  }

  /** A snapshot shows a hook running: one is pending, and the last event of some hook is
      its start. */
  predicate ShowsRunning(events: seq<JobStream.Frame>, pending: bool) {
    pending && exists i :: 0 <= i < |events| && LatestOf(events, events[i].ev.hook) == Some(HookStarted)
  }

  lemma {:induction false} LatestAppend(events: seq<JobStream.Frame>, fr: JobStream.Frame, name: string)
    ensures LatestOf(events + [fr], name) == if fr.ev.hook == name then Some(fr.ev.kind) else LatestOf(events, name)
  {
    assert (events + [fr])[..|events|] == events;
  }

  lemma {:induction false} LatestAmong(events: seq<JobStream.Frame>, name: string)
    ensures LatestOf(events, name).Some? <==> exists i :: 0 <= i < |events| && events[i].ev.hook == name
  {
    if events != [] {
      var front := events[..|events| - 1];
      LatestAmong(front, name);
      if i :| 0 <= i < |events| && events[i].ev.hook == name && i < |events| - 1 {
        assert front[i].ev.hook == name;
      }
    }
  }

  /** SummarizeHooks: the latest event of each hook, and its status. */
  method SummarizeHooks(events: seq<JobStream.Frame>, pending: bool) returns (hooks: map<string, HookStatus>)
    ensures forall name :: name in hooks <==> LatestOf(events, name).Some?
    ensures forall name :: name in hooks ==> hooks[name] == StatusOf(LatestOf(events, name).value, pending)
  {
    var latest: map<string, Kind> := map[];
    var i := 0;
    while i < |events|
      invariant 0 <= i <= |events|
      invariant forall name :: name in latest <==> LatestOf(events[..i], name).Some?
      invariant forall name :: name in latest ==> Some(latest[name]) == LatestOf(events[..i], name)
    {
      assert events[..i + 1] == events[..i] + [events[i]];
      forall name { LatestAppend(events[..i], events[i], name); }
      latest := latest[events[i].ev.hook := events[i].ev.kind];
      i := i + 1;
    }
    assert events[..i] == events;
    hooks := map name | name in latest :: StatusOf(latest[name], pending);
  }

  /** DownloadDetail.HooksRunning of such a summary. Every event is a hook event. */
  method HooksRunning(events: seq<JobStream.Frame>, pending: bool) returns (running: bool)
    requires forall i :: 0 <= i < |events| ==> events[i].ev.kind.IsHook()
    ensures running <==> ShowsRunning(events, pending)
  {
    var hooks := SummarizeHooks(events, pending);
    running := HookIsRunning in hooks.Values;
    LatestIsHook(events);
    if running {
      var name :| name in hooks && hooks[name] == HookIsRunning;
      LatestAmong(events, name);
    } else {
      forall i | 0 <= i < |events| && pending
        ensures LatestOf(events, events[i].ev.hook) != Some(HookStarted)
      {
        LatestAmong(events, events[i].ev.hook);
        assert hooks[events[i].ev.hook] in hooks.Values;
      }
    }
  }

  lemma {:induction false} LatestIsHook(events: seq<JobStream.Frame>)
    requires forall i :: 0 <= i < |events| ==> events[i].ev.kind.IsHook()
    ensures forall name :: LatestOf(events, name).Some? ==> LatestOf(events, name).value.IsHook()
  {
    if events != [] {
      LatestIsHook(events[..|events| - 1]);
    }
  }

  /** ListHookEvents: the job's hook events below an id, in order. */
  function HookFrames(db: Store, job: JobId, below: nat): seq<JobStream.Frame> {
    if below == 0 then []
    else
      var e := below - 1;
      HookFrames(db, job, e)
        + if e in db.log && HookEvents(job).Accepts(db.log[e]) then [JobStream.Frame(e, db.log[e])] else []
  }

  lemma {:induction false} FramesAreHooks(db: Store, job: JobId, below: nat)
    ensures forall i :: 0 <= i < |HookFrames(db, job, below)| ==>
      HookFrames(db, job, below)[i].ev.kind.IsHook() && HookFrames(db, job, below)[i].ev.job == job
  {
    if below > 0 {
      FramesAreHooks(db, job, below - 1);
    }
  }

  /** They are the job's hook events, all of them, in order. */
  lemma {:induction false} HookFramesExact(db: Store, job: JobId, below: nat)
    ensures var frames := HookFrames(db, job, below);
      && AreHookFrames(db, job, below, frames)
      && AllHookFrames(db, job, below, frames)
  {
    hide AreHookFrames, AllHookFrames;
    if below > 0 {
      var e: nat := below - 1;
      HookFramesExact(db, job, e);
      HookFramesStep(db, job, e, HookFrames(db, job, e), HookFrames(db, job, below));
    } else {
      NoHookFrames(db, job);
    }
  }

  lemma NoHookFrames(db: Store, job: JobId)
    ensures AreHookFrames(db, job, 0, []) && AllHookFrames(db, job, 0, [])
  {
  }

  /** No hook event of the job below the id is missing. */
  ghost predicate AllHookFrames(db: Store, job: JobId, below: nat, frames: seq<JobStream.Frame>) {
    forall e :: e in db.log && e < below && db.log[e].job == job && db.log[e].kind in {HookStarted, HookSucceeded, HookFailed} ==>
      JobStream.Frame(e, db.log[e]) in frames
  }

  lemma {:induction false} HookFramesStep(db: Store, job: JobId, e: nat, before: seq<JobStream.Frame>, frames: seq<JobStream.Frame>)
    requires frames == before + if e in db.log && HookEvents(job).Accepts(db.log[e]) then [JobStream.Frame(e, db.log[e])] else []
    requires AreHookFrames(db, job, e, before) && AllHookFrames(db, job, e, before)
    ensures AreHookFrames(db, job, e + 1, frames) && AllHookFrames(db, job, e + 1, frames)
  {
    forall i | 0 <= i < |before|
      ensures IsHookFrame(db, job, e + 1, before[i]) && before[i].id < e
    {
      assert IsHookFrame(db, job, e, before[i]);
    }
    assert forall fr :: fr in before ==> fr in frames;
  }

  /** Hook events of the job below an id, as they are stored, in ascending order. */
  predicate AreHookFrames(db: Store, job: JobId, below: nat, frames: seq<JobStream.Frame>) {
    && (forall i :: 0 <= i < |frames| ==> IsHookFrame(db, job, below, frames[i]))
    && (forall i, k :: 0 <= i < k < |frames| ==> frames[i].id < frames[k].id)
  }

  predicate IsHookFrame(db: Store, job: JobId, below: nat, fr: JobStream.Frame) {
    && fr.id < below && fr.id in db.log && db.log[fr.id] == fr.ev
    && fr.ev.job == job && fr.ev.kind in {HookStarted, HookSucceeded, HookFailed}
  }

  // ---- When a snapshot's answer is the last word

  /** FollowJob's own test of a snapshot. */
  predicate TakenForOver(status: JobStore.Status, running: bool, stopAtTerminal: bool) {
    status.IsTerminal() && (stopAtTerminal || !running)
  }

  /** The states in which a snapshot's reads were made, one after another: the row, the
      hook events, the pending count. */
  datatype Snapshot = Snapshot(row: Sys, listed: Sys, asked: Sys) {
    ghost predicate Valid(job: JobId) {
      && Inv(row) && Inv(listed) && Inv(asked) && Later(row, listed) && Later(listed, asked)
      && row.db.GetJob(job).Some?
    }

    function Events(job: JobId): seq<JobStream.Frame> {
      HookFrames(listed.db, job, listed.db.nextId)
    }

    function Answer(job: JobId): Reading
      requires job in row.db.jobs
    {
      SnapshotRead(row.db.jobs[job].status, ShowsRunning(Events(job), asked.HooksPending(job)))
    }

    predicate Over(job: JobId, stopAtTerminal: bool)
      requires job in row.db.jobs
    {
      TakenForOver(row.db.jobs[job].status, ShowsRunning(Events(job), asked.HooksPending(job)), stopAtTerminal)
    }
  }

  /** The start of execution x is among the events, and is the last event of its hook. */
  predicate StartShown(events: seq<JobStream.Frame>, x: nat) {
    exists i :: 0 <= i < |events| && events[i].ev.kind.HookStarted? && events[i].ev.exec == x
                && LatestOf(events, events[i].ev.hook) == Some(HookStarted)
  }

  /** An execution of terminal event e that has not recorded its outcome. */
  predicate Unfinished(s: Sys, e: nat, x: nat) {
    x in s.hooks.execs && s.hooks.execs[x].cause == e && !s.hooks.execs[x].at.Recorded?
  }

  /** Nothing of terminal event e escapes the snapshot: it was dispatched, and the start
      of each unfinished execution of it shows. */
  ghost predicate NothingHidden(snap: Snapshot, job: JobId, e: nat) {
    e in snap.asked.books.dispatched && forall x :: Unfinished(snap.asked, e, x) ==> StartShown(snap.Events(job), x)
  }

  /** When FollowJob takes a finished job for over, no later run records a hook event of
      it if and only if nothing of its hooks was hidden from the snapshot. */
  lemma {:induction false} OverExactly(snap: Snapshot, job: JobId)
    requires snap.Valid(job) && snap.Over(job, false)
    ensures var e := snap.row.db.jobs[job].term;
      && e in snap.asked.books.ended
      && (NoneFollows(snap.asked, e) <==> NothingHidden(snap, job, e))
  {
    hide Inv, NoneFollows, Settled, NothingHidden, ShowsRunning, HookFrames;
    SettledShown(snap, job);
    SettledExactly(snap.asked, snap.row.db.jobs[job].term);
  }

  lemma {:induction false} SettledShown(snap: Snapshot, job: JobId)
    requires snap.Valid(job) && snap.Over(job, false)
    ensures var e := snap.row.db.jobs[job].term;
      && Inv(snap.asked) && e in snap.asked.books.ended
      && (Settled(snap.asked, e) <==> NothingHidden(snap, job, e))
  {
    var e := snap.row.db.jobs[job].term;
    LaterTrans(snap.row, snap.listed, snap.asked);
    EndedStays(snap.row, snap.asked, job);
    if NothingHidden(snap, job, e) {
      forall x | x in snap.asked.hooks.execs && snap.asked.hooks.execs[x].cause == e
        ensures snap.asked.hooks.execs[x].at.Recorded?
      {
        if Unfinished(snap.asked, e, x) {
          UnfinishedPends(snap.asked, job, e, x);
        }
      }
    }
  }

  lemma {:induction false} UnfinishedPends(s: Sys, job: JobId, e: nat, x: nat)
    requires Inv(s) && e in s.books.ended && s.books.ended[e] == job && e != 0 && Unfinished(s, e, x)
    ensures s.HooksPending(job)
  {
    assert CauseOk(s.books, s.hooks.execs[x].job, e);
    assert x in HooksOf(s.hooks.execs, job);
    assert |HooksOf(s.hooks.execs, job)| == s.hooks.PendingOf(job);
  }

  // ---- What may still follow

  /** No hook event of terminal event e follows state s. */
  ghost predicate NoneFollows(s: Sys, e: nat) {
    forall run :: IsRun(run) && run[0] == s ==> NoneSince(s, run[|run| - 1], e)
  }

  ghost predicate NoneSince(s: Sys, t: Sys, e: nat) {
    forall r :: r in t.books.recorded && t.books.recorded[r].cause == e ==> r in s.books.recorded
  }

  /** Settled means just that: no run from here records another hook event of e. */
  lemma {:induction false} SettledExactly(s: Sys, e: nat)
    requires Inv(s) && e in s.books.ended
    ensures Settled(s, e) <==> NoneFollows(s, e)
  {
    if Settled(s, e) {
      forall run | IsRun(run) && run[0] == s
        ensures NoneSince(s, run[|run| - 1], e)
      {
        RunLater(run);
      }
    } else {
      var run := OneMoreFollows(s, e);
    }
  }

  /** An unfinished execution has a step that records an event. */
  lemma {:induction false} ExecutionRecords(s: Sys, e: nat, x: nat) returns (t: Sys)
    requires Inv(s) && e > 0 && Unfinished(s, e, x)
    ensures Steps(s, t) && !NoneSince(s, t, e)
  {
    var kind, at := if s.hooks.execs[x].at.Waiting? then HookStarted else HookSucceeded,
                    if s.hooks.execs[x].at.Waiting? then HookPc.Running else Recorded;
    var ex := s.hooks.execs[x];
    var ev := Event(ex.job, kind, ex.cause, x, ex.name);
    t := s.(hooks := s.hooks.(execs := s.hooks.execs[x := ex.(at := at)]),
            books := s.books.Record(s.db.nextId, ev), db := s.db.AddEvent(ev));
    assert Next(s, t, Hook(x, Choice(true, false, 0, 0, "", Completed, kind)));
    assert s.db.nextId in t.books.recorded && s.db.nextId !in s.books.recorded;
  }

  lemma LaunchesOne(h: Hooks, job: JobId, cause: nat)
    ensures h.Launch(job, cause, ["hook"]) == h.LaunchOne(job, cause, "hook")
  {
    assert ["hook"][..0] == [];
  }

  /** Whoever owes the dispatch of e can launch a hook of it. */
  lemma {:induction false} WorkerLaunches(s: Sys, e: nat, a: Actor) returns (t: Sys)
    requires a in s.actors && s.actors[a].RunDispatch? && s.actors[a].term == e
    ensures Steps(s, t) && Unfinished(t, e, s.hooks.nextExec) && t.books.recorded == s.books.recorded
  {
    hide Hooks.Launch;
    var pc := s.actors[a];
    LaunchesOne(s.hooks, pc.job, e);
    t := s.Dispatch(pc.job, e, ["hook"]).Move(a, Cleanup(pc.job, pc.run));
    assert RunNext(s, t, a, Choice(true, false, 0, 0, "", Completed, Detail, ["hook"]));
    assert Next(s, t, Step(a, Choice(true, false, 0, 0, "", Completed, Detail, ["hook"])));
  }

  lemma {:induction false} CancelLaunches(s: Sys, e: nat, a: Actor) returns (t: Sys)
    requires a in s.actors && s.actors[a].CancelDispatch? && s.actors[a].term == e
    ensures Steps(s, t) && Unfinished(t, e, s.hooks.nextExec) && t.books.recorded == s.books.recorded
  {
    hide Hooks.Launch;
    var pc := s.actors[a];
    LaunchesOne(s.hooks, pc.job, e);
    t := s.Dispatch(pc.job, e, ["hook"]).Move(a, CancelClear(pc.job));
    assert CancelNext(s, t, a, Choice(true, false, 0, 0, "", Completed, Detail, ["hook"]));
    assert Next(s, t, Step(a, Choice(true, false, 0, 0, "", Completed, Detail, ["hook"])));
  }

  lemma {:induction false} MarkThenLaunch(s: Sys, e: nat, a: Actor) returns (t: Sys)
    requires Inv(s) && a in s.actors && s.actors[a].Owes() == Some(e) && s.actors[a].CancelMark?
    ensures Inv(t) && Steps(s, t) && a in t.actors && t.actors[a].Owes() == Some(e) && !t.actors[a].CancelMark?
    ensures t.books == s.books
  {
    var j := s.actors[a].job;
    t := s.(marks := s.marks.(finalizing := s.marks.finalizing[j := a])).UnlockMu().Move(a, CancelDispatch(j, e));
    var c := Choice(true, false, 0, 0, "", Completed, Detail);
    assert Next(s, t, Step(a, c));
    InvKept(s, t, Step(a, c));
  }

  lemma {:induction false} StepsKeep(s: Sys, t: Sys)
    requires Inv(s) && Steps(s, t)
    ensures Inv(t)
  {
    hide Inv, Next;
    var act :| Next(s, t, act);
    InvKept(s, t, act);
  }

  lemma {:induction false} LaunchThenRecord(s: Sys, e: nat, a: Actor) returns (t: Sys, u: Sys)
    requires Inv(s) && e > 0 && a in s.actors && s.actors[a].Owes() == Some(e) && !s.actors[a].CancelMark?
    ensures Steps(s, t) && Steps(t, u) && !NoneSince(s, u, e)
  {
    hide Inv, Steps, Unfinished;
    if s.actors[a].RunDispatch? {
      t := WorkerLaunches(s, e, a);
    } else {
      t := CancelLaunches(s, e, a);
    }
    StepsKeep(s, t);
    u := ExecutionRecords(t, e, s.hooks.nextExec);
  }

  lemma {:induction false} Owed(s: Sys, e: nat) returns (a: Actor)
    requires Inv(s) && e in s.books.ended && e !in s.books.dispatched
    ensures a in s.actors && s.actors[a].Owes() == Some(e) && e > 0
  {
    a := s.books.owing[e];
  }

  lemma {:induction false} OneMoreFollows(s: Sys, e: nat) returns (run: seq<Sys>)
    requires Inv(s) && e in s.books.ended && !Settled(s, e)
    ensures IsRun(run) && run[0] == s && !NoneSince(s, run[|run| - 1], e)
  {
    hide Inv, Steps, Settled, NoneSince;
    if e in s.books.dispatched {
      var x := OneUnfinished(s, e);
      var t := ExecutionRecords(s, e, x);
      run := [s, t];
    } else {
      var a := Owed(s, e);
      var t, u;
      if s.actors[a].CancelMark? {
        var first := MarkThenLaunch(s, e, a);
        t, u := LaunchThenRecord(first, e, a);
        SameBooks(s, first, u, e);
        run := [s, first, t, u];
      } else {
        t, u := LaunchThenRecord(s, e, a);
        run := [s, t, u];
      }
    }
  }

  lemma {:induction false} OneUnfinished(s: Sys, e: nat) returns (x: nat)
    requires Inv(s) && e in s.books.dispatched && !Settled(s, e)
    ensures Unfinished(s, e, x) && e > 0
  {
    x :| x in s.hooks.execs && s.hooks.execs[x].cause == e && !s.hooks.execs[x].at.Recorded?;
    assert e in s.books.ended;
  }

  lemma SameBooks(s: Sys, first: Sys, u: Sys, e: nat)
    requires first.books == s.books && !NoneSince(first, u, e)
    ensures !NoneSince(s, u, e)
  {
  }

  // ---- FollowJob

  datatype FollowEnd = JobGone | JobOver | Stopped

  /** GET /downloads/{id}: the cursor is read before the job, so whatever is stored in
      between lies beyond it; then the row, the hook events and the pending count, with
      others acting between the reads. */
  method Download(world: World, job: JobId) returns (status: Option<JobStore.Status>, cursor: nat, running: bool, failed: bool, ghost snap: Snapshot)
    requires Inv(world.s)
    modifies world`s, world`trouble
    ensures Inv(world.s) && Later(old(world.s), world.s)
    ensures failed <==> world.trouble > old(world.trouble)
    ensures cursor < old(world.s).db.nextId
    ensures cursor == 0 || (cursor in old(world.s).db.log && old(world.s).db.log[cursor].job == job)
    ensures forall e :: e in old(world.s).db.log && old(world.s).db.log[e].job == job ==> e <= cursor
    ensures !failed && status.None? ==> world.s.db.GetJob(job).None?
    ensures !failed && status.Some? ==>
      && snap.Valid(job) && snap.asked == world.s && Later(old(world.s), snap.row) && snap.row.db.GetJob(job) == status
      && (running <==> ShowsRunning(snap.Events(job), snap.asked.HooksPending(job)))
  {
    hide Inv, Later;
    var db := world.s.db;
    var ids := db.Matching(OfJob(job), 0, db.nextId);
    MatchingExact(db, OfJob(job), 0, db.nextId);
    cursor := if ids == [] then 0 else ids[|ids| - 1];
    StoredBelow(world.s);
    SomeIdFree(world.s);
    LastIsGreatest(ids);
    assert cursor == 0 || cursor in ids;
    world.Interfere();
    ghost var row := world.s;
    snap := Snapshot(row, row, row);
    status, running := world.s.db.GetJob(job), false;
    failed := world.Fails();
    if failed || status.None? {
      return;
    }
    world.Interfere();
    ghost var listed := world.s;
    LaterTrans(old(world.s), row, listed);
    failed := world.Fails();
    if failed {
      return;
    }
    var events := HookFrames(world.s.db, job, world.s.db.nextId);
    FramesAreHooks(world.s.db, job, world.s.db.nextId);
    world.Interfere();
    LaterTrans(old(world.s), listed, world.s);
    snap := Snapshot(row, listed, world.s);
    running := HooksRunning(events, world.s.HooksPending(job));
  }

  lemma {:induction false} LastIsGreatest(ids: seq<nat>)
    requires Ascending(ids)
    ensures forall e :: e in ids ==> e <= ids[|ids| - 1]
  {
  }

  /** What FollowJob reads, one thing after another: a snapshot, or a stream to its end. */
  datatype Reading =
    | NoAnswer
    | NoJob
    | SnapshotRead(status: JobStore.Status, running: bool)
    | StreamRead(answer: Status, finished: bool)

  datatype Client = Client(needDetail: bool, first: bool, end: Option<FollowEnd>)

  function Advance(c: Client, reading: Reading, fromStart: bool, stopAtTerminal: bool): Client {
    match reading
    case NoAnswer => c
    case NoJob => c.(end := Some(JobGone))
    case SnapshotRead(status, running) =>
      if !(c.first && fromStart) && TakenForOver(status, running, stopAtTerminal) then c.(end := Some(JobOver))
      else Client(false, false, c.end)
    case StreamRead(answer, finished) =>
      if stopAtTerminal && finished then c.(needDetail := true)
      else if answer.NotFound? then c.(end := Some(JobGone))
      else if answer.NoContent? || answer == Opened(true) then c.(needDetail := true)
      else c
  }

  /** What FollowJob does is decided by what it reads. */
  function After(readings: seq<Reading>, fromStart: bool, stopAtTerminal: bool): Client {
    if readings == [] then Client(true, true, None)
    else Advance(After(readings[..|readings| - 1], fromStart, stopAtTerminal), readings[|readings| - 1], fromStart, stopAtTerminal)
  }

  lemma AfterMore(readings: seq<Reading>, r: Reading, fromStart: bool, stopAtTerminal: bool)
    ensures After(readings + [r], fromStart, stopAtTerminal) ==
      Advance(After(readings, fromStart, stopAtTerminal), r, fromStart, stopAtTerminal)
  {
    assert (readings + [r])[..|readings|] == readings;
  }

  lemma AfterNone(fromStart: bool, stopAtTerminal: bool)
    ensures After([], fromStart, stopAtTerminal) == Client(true, true, None)
  {
  }

  /** One stream, added to what the handler was given before. */
  method Listen(world: World, job: JobId, raw: string, sofar: seq<JobStream.Frame>, ghost start: nat, text: JobStream.Frame -> Sse.Event)
    returns (status: Status, finished: bool, cursor: string, seen: seq<JobStream.Frame>, ghost heard: Option<nat>,
             ghost got: seq<JobStream.Frame>)
    requires Inv(world.s) && Renders(text) && Whole(world.s, job, sofar, start) && raw == Sse.Decimal(Cursor(sofar, start))
    modifies world
    ensures Inv(world.s) && Later(old(world.s), world.s)
    ensures Whole(world.s, job, seen, start) && cursor == Sse.Decimal(Cursor(seen, start)) && seen == sofar + got
    ensures world.trouble == old(world.trouble) && AllFit(text) && status.Opened? ==>
      status == Opened(true) && (heard.Some? ==> Finished(world.s, job, got, Cursor(sofar, start), heard.value))
    ensures finished <==> exists i :: |sofar| <= i < |seen| && seen[i].ev.kind.IsTerminal()
    ensures status.NotFound? ==> world.s.db.GetJob(job).None?
    ensures Exhausting(world.s, job, heard)
  {
    hide Inv, Later, Renders, Whole, Exhausting, Cursor, Sse.Decimal, AllFit, Finished;
    ghost var before := world.s;
    var arrived;
    status, cursor, arrived, heard := Connect(world, job, raw, Cursor(sofar, start), text);
    got := arrived;
    WholeMore(before, world.s, job, sofar, start, got);
    seen, finished := sofar + arrived, exists i :: 0 <= i < |arrived| && arrived[i].ev.kind.IsTerminal();
    assert forall i :: |sofar| <= i < |seen| ==> seen[i] == got[i - |sofar|];
    assert forall i :: 0 <= i < |got| ==> got[i] == seen[|sofar| + i];
  }

  /** Download, with what it leaves of the client's knowledge and what it adds: the
      verdict on the snapshot, should the client take it for the last word. */
  method Refresh(world: World, job: JobId, ghost seen: seq<JobStream.Frame>, ghost start: nat, ghost heard: Option<nat>)
    returns (status: Option<JobStore.Status>, cursor: nat, running: bool, failed: bool, ghost snap: Snapshot)
    requires Inv(world.s) && Whole(world.s, job, seen, start) && Exhausting(world.s, job, heard)
    modifies world`s, world`trouble
    ensures Inv(world.s) && Later(old(world.s), world.s)
    ensures failed <==> world.trouble > old(world.trouble)
    ensures Whole(world.s, job, seen, start) && Exhausting(world.s, job, heard)
    ensures !failed && status.None? ==> world.s.db.GetJob(job).None?
    ensures !failed && status.Some? ==> Judged(snap, world.s, job, heard) && snap.Answer(job) == SnapshotRead(status.value, running)
  {
    hide Inv, Later, Whole, Exhausting, NoneFollows, NothingHidden, ShowsRunning, HookFrames;
    ghost var before := world.s;
    status, cursor, running, failed, snap := Download(world, job);
    WholeLater(before, world.s, job, seen, start);
    ExhaustingStays(before, world.s, job, heard);
    if !failed && status.Some? {
      if snap.Over(job, false) {
        OverExactly(snap, job);
      }
      HeardIsSettled(before, snap, job, heard);
    }
  }

  /** What is known of a snapshot whose last read was made in state s. */
  ghost predicate Judged(snap: Snapshot, s: Sys, job: JobId, heard: Option<nat>) {
    && snap.Valid(job) && snap.asked == s
    && (snap.Over(job, false) ==>
          (NoneFollows(s, snap.row.db.jobs[job].term) <==> NothingHidden(snap, job, snap.row.db.jobs[job].term)))
    && (heard == Some(snap.row.db.jobs[job].term) ==> NoneFollows(s, heard.value))
  }

  lemma JudgedOver(snap: Snapshot, s: Sys, job: JobId, heard: Option<nat>, status: JobStore.Status, running: bool, stopAtTerminal: bool)
    requires Judged(snap, s, job, heard) && snap.Answer(job) == SnapshotRead(status, running)
    requires TakenForOver(status, running, stopAtTerminal)
    ensures snap.Valid(job) && snap.asked == s && snap.Over(job, stopAtTerminal)
    ensures !stopAtTerminal ==>
      (NoneFollows(s, snap.row.db.jobs[job].term) <==> NothingHidden(snap, job, snap.row.db.jobs[job].term))
    ensures heard == Some(snap.row.db.jobs[job].term) ==> NoneFollows(s, heard.value)
  {
    hide NoneFollows, NothingHidden, ShowsRunning;
  }

  // ---- Its turns, in the client's own terms

  predicate IsSnapshot(r: Reading) { r.NoAnswer? || r.NoJob? || r.SnapshotRead? }

  /** The snapshot is read first, again until it answers, and whenever a stream ended
      because nothing was left (204), was closed by the server, or, when the client stops
      there, brought the terminal event; otherwise the stream is resumed. */
  predicate SnapshotNext(heard: seq<Reading>, stopAtTerminal: bool) {
    heard == [] ||
    match heard[|heard| - 1]
    case NoAnswer => true
    case StreamRead(answer, finished) => answer == Status.NoContent || answer == Opened(true) || (stopAtTerminal && finished)
    case _ => false
  }

  predicate FirstSnapshot(heard: seq<Reading>) {
    forall i :: 0 <= i < |heard| ==> !heard[i].SnapshotRead?
  }

  /** What the reading after heard ends the call with, if it does. */
  function EndsWith(heard: seq<Reading>, next: Reading, fromStart: bool, stopAtTerminal: bool): Option<FollowEnd> {
    match next
    case NoJob => Some(JobGone)
    case SnapshotRead(status, running) =>
      if status in {Completed, Failed, Cancelled} && (stopAtTerminal || !running) && !(fromStart && FirstSnapshot(heard))
      then Some(JobOver) else None
    case StreamRead(answer, finished) =>
      if answer == Status.NotFound && !(stopAtTerminal && finished) then Some(JobGone) else None
    case NoAnswer => None
  }

  /** Each reading came in its turn, and none before the last ended the call. */
  ghost predicate InTurn(heard: seq<Reading>, fromStart: bool, stopAtTerminal: bool) {
    forall i :: 0 <= i < |heard| ==>
      && (IsSnapshot(heard[i]) <==> SnapshotNext(heard[..i], stopAtTerminal))
      && (i < |heard| - 1 ==> EndsWith(heard[..i], heard[i], fromStart, stopAtTerminal).None?)
  }

  function LastEnds(heard: seq<Reading>, fromStart: bool, stopAtTerminal: bool): Option<FollowEnd> {
    if heard == [] then None else EndsWith(heard[..|heard| - 1], heard[|heard| - 1], fromStart, stopAtTerminal)
  }

  lemma {:induction false} OneTurn(heard: seq<Reading>, next: Reading, fromStart: bool, stopAtTerminal: bool)
    requires InTurn(heard, fromStart, stopAtTerminal) && LastEnds(heard, fromStart, stopAtTerminal).None?
    requires IsSnapshot(next) <==> SnapshotNext(heard, stopAtTerminal)
    ensures InTurn(heard + [next], fromStart, stopAtTerminal)
    ensures LastEnds(heard + [next], fromStart, stopAtTerminal) == EndsWith(heard, next, fromStart, stopAtTerminal)
    ensures SnapshotNext(heard + [next], stopAtTerminal) <==> SnapshotNext([next], stopAtTerminal)
    ensures FirstSnapshot(heard + [next]) <==> FirstSnapshot(heard) && !next.SnapshotRead?
  {
    hide EndsWith, FirstSnapshot, SnapshotNext, IsSnapshot;
    var all := heard + [next];
    assert all[..|heard|] == heard;
    NextIsLast(heard, next, stopAtTerminal);
    forall i | 0 <= i < |all|
      ensures IsSnapshot(all[i]) <==> SnapshotNext(all[..i], stopAtTerminal)
      ensures i < |all| - 1 ==> EndsWith(all[..i], all[i], fromStart, stopAtTerminal).None?
    {
      if i < |heard| {
        assert all[..i] == heard[..i] && all[i] == heard[i];
      }
    }
    FirstAppend(heard, next);
  }

  lemma NextIsLast(heard: seq<Reading>, next: Reading, stopAtTerminal: bool)
    ensures SnapshotNext(heard + [next], stopAtTerminal) <==> SnapshotNext([next], stopAtTerminal)
  {
  }

  lemma FirstAppend(heard: seq<Reading>, next: Reading)
    ensures FirstSnapshot(heard + [next]) <==> FirstSnapshot(heard) && !next.SnapshotRead?
  {
    assert forall i :: 0 <= i < |heard| ==> (heard + [next])[i] == heard[i];
    assert (heard + [next])[|heard|] == next;
  }

  /** Where the call stands after its readings: what it reads next, whether a snapshot
      came, and what it has ended with. */
  ghost predicate Turns(readings: seq<Reading>, fromStart: bool, stopAtTerminal: bool, needDetail: bool, first: bool, end: Option<FollowEnd>) {
    var c := After(readings, fromStart, stopAtTerminal);
    && InTurn(readings, fromStart, stopAtTerminal) && LastEnds(readings, fromStart, stopAtTerminal) == end && c.end == end
    && (end.None? ==>
          && c == Client(needDetail, first, None)
          && (needDetail <==> SnapshotNext(readings, stopAtTerminal)) && (first <==> FirstSnapshot(readings)))
  }

  lemma NoTurnYet(fromStart: bool, stopAtTerminal: bool)
    ensures Turns([], fromStart, stopAtTerminal, true, true, None)
  {
  }

  lemma {:induction false} TurnTaken(readings: seq<Reading>, r: Reading, fromStart: bool, stopAtTerminal: bool, needDetail: bool, first: bool)
    requires Turns(readings, fromStart, stopAtTerminal, needDetail, first, None) && (IsSnapshot(r) <==> needDetail)
    ensures var more := readings + [r];
      match r
      case NoAnswer => Turns(more, fromStart, stopAtTerminal, true, first, None)
      case NoJob => Turns(more, fromStart, stopAtTerminal, needDetail, first, Some(JobGone))
      case SnapshotRead(status, running) =>
        Turns(more, fromStart, stopAtTerminal, false, false,
              if !(first && fromStart) && TakenForOver(status, running, stopAtTerminal) then Some(JobOver) else None)
      case StreamRead(answer, finished) =>
        Turns(more, fromStart, stopAtTerminal, (stopAtTerminal && finished) || answer.NoContent? || answer == Opened(true), first,
              if answer.NotFound? && !(stopAtTerminal && finished) then Some(JobGone) else None)
  {
    hide InTurn, FirstSnapshot, After;
    AfterMore(readings, r, fromStart, stopAtTerminal);
    OneTurn(readings, r, fromStart, stopAtTerminal);
  }

  lemma TurnsMean(readings: seq<Reading>, fromStart: bool, stopAtTerminal: bool, needDetail: bool, first: bool, end: Option<FollowEnd>)
    requires Turns(readings, fromStart, stopAtTerminal, needDetail, first, end)
    ensures InTurn(readings, fromStart, stopAtTerminal) && LastEnds(readings, fromStart, stopAtTerminal) == end
    ensures After(readings, fromStart, stopAtTerminal).end == end
  {
  }

  lemma FromZero()
    ensures Sse.Decimal(0) == "0"
  {
  }

  /** FollowJob. seen holds what the handler was given since the latest snapshot, which is
      what arrived, snap that snapshot, and heard how the stream before it ended. */
  method FollowJob(world: World, job: JobId, fromStart: bool, stopAtTerminal: bool, text: JobStream.Frame -> Sse.Event)
    returns (end: FollowEnd, seen: seq<JobStream.Frame>, ghost start: nat, ghost snap: Snapshot, ghost heard: Option<nat>,
             ghost readings: seq<Reading>, ghost arrived: seq<JobStream.Frame>)
    requires Inv(world.s) && Renders(text)
    modifies world
    ensures After(readings, fromStart, stopAtTerminal).end == if end.Stopped? then None else Some(end)
    ensures InTurn(readings, fromStart, stopAtTerminal)
    ensures LastEnds(readings, fromStart, stopAtTerminal) == if end.Stopped? then None else Some(end)
    ensures Inv(world.s) && Later(old(world.s), world.s)
    ensures Whole(world.s, job, seen, start) && seen == arrived
    ensures end.JobGone? ==> world.s.db.GetJob(job).None?
    ensures end.JobOver? ==>
      && snap.Valid(job) && snap.asked == world.s && snap.Over(job, stopAtTerminal) && readings != []
      && readings[|readings| - 1] == snap.Answer(job)
    // whatever happens later, no hook event of the job's end is recorded any more, if and
    // only if nothing of its hooks was hidden from that snapshot
    ensures end.JobOver? && !stopAtTerminal ==>
      var e := snap.row.db.jobs[job].term;
      NoneFollows(world.s, e) <==> NothingHidden(snap, job, e)
    // the case a client can see: the stream before the snapshot ended because nothing was left
    ensures end.JobOver? && heard == Some(snap.row.db.jobs[job].term) ==> NoneFollows(world.s, heard.value)
  {
    hide Inv, Later, Renders, Whole, Exhausting, Judged, NoneFollows, NothingHidden, ShowsRunning, HookFrames, After, Cursor,
      InTurn, LastEnds, Turns, TakenForOver;
    LaterRefl(world.s);
    NoTurnYet(fromStart, stopAtTerminal);
    FromZero();
    seen, start, heard, readings, arrived := [], 0, None, [], [];
    snap := Snapshot(world.s, world.s, world.s);
    NothingYet(world.s, job, start);
    NotExhausting(world.s, job);
    var cursor := "0";
    var needDetail, first := true, true;
    var rounds: nat := *;
    while rounds > 0
      invariant Inv(world.s) && Later(old(world.s), world.s)
      invariant seen == arrived && Whole(world.s, job, seen, start) && cursor == Sse.Decimal(Cursor(seen, start))
      invariant Exhausting(world.s, job, heard)
      invariant Turns(readings, fromStart, stopAtTerminal, needDetail, first, None)
      decreases rounds
    {
      rounds := rounds - 1;
      ghost var before := world.s;
      if needDetail {
        var status, latest, running, failed;
        status, latest, running, failed, snap := Refresh(world, job, seen, start, heard);
        LaterTrans(old(world.s), before, world.s);
        ghost var reading := if failed then NoAnswer else if status.None? then NoJob else SnapshotRead(status.value, running);
        TurnTaken(readings, reading, fromStart, stopAtTerminal, needDetail, first);
        readings := readings + [reading];
        if failed {
          continue;
        }
        if status.None? {
          TurnsMean(readings, fromStart, stopAtTerminal, needDetail, first, Some(JobGone));
          return JobGone, seen, start, snap, heard, readings, arrived;
        }
        needDetail, seen, arrived := false, [], [];
        if first && fromStart {
          cursor, start := "0", 0;
        } else {
          cursor, start := Sse.Decimal(latest), latest;
        }
        NothingYet(world.s, job, start);
        if !(first && fromStart) && TakenForOver(status.value, running, stopAtTerminal) {
          JudgedOver(snap, world.s, job, heard, status.value, running, stopAtTerminal);
          TurnsMean(readings, fromStart, stopAtTerminal, false, false, Some(JobOver));
          return JobOver, seen, start, snap, heard, readings, arrived;
        }
        first := false;
      }
      before := world.s;
      var status, finished;
      ghost var got;
      status, finished, cursor, seen, heard, got := Listen(world, job, cursor, seen, start, text);
      arrived := arrived + got;
      LaterTrans(old(world.s), before, world.s);
      TurnTaken(readings, StreamRead(status, finished), fromStart, stopAtTerminal, needDetail, first);
      readings := readings + [StreamRead(status, finished)];
      if stopAtTerminal && finished {
        needDetail := true;
      } else if status.NotFound? {
        TurnsMean(readings, fromStart, stopAtTerminal, needDetail, first, Some(JobGone));
        return JobGone, seen, start, snap, heard, readings, arrived;
      } else if status.NoContent? || status == Opened(true) {
        needDetail := true;
      }
    }
    TurnsMean(readings, fromStart, stopAtTerminal, needDetail, first, None);
    return Stopped, seen, start, snap, heard, readings, arrived;
  }

  lemma {:induction false} HeardIsSettled(before: Sys, snap: Snapshot, job: JobId, heard: Option<nat>)
    requires snap.Valid(job) && Exhausting(before, job, heard) && Later(before, snap.row)
    ensures heard == Some(snap.row.db.jobs[job].term) ==> NoneFollows(snap.asked, heard.value)
  {
    hide NoneFollows;
    HeardLasts(before, snap, job, heard);
    if heard == Some(snap.row.db.jobs[job].term) {
      SettledEnded(snap.asked, heard.value);
      SettledExactly(snap.asked, heard.value);
    }
  }

  lemma SettledEnded(s: Sys, e: nat)
    requires Inv(s) && Settled(s, e)
    ensures e in s.books.ended
  {
  }

  lemma {:induction false} HeardLasts(before: Sys, snap: Snapshot, job: JobId, heard: Option<nat>)
    requires snap.Valid(job) && Exhausting(before, job, heard) && Later(before, snap.row)
    ensures heard == Some(snap.row.db.jobs[job].term) ==> Settled(snap.asked, heard.value)
  {
    LaterTrans(before, snap.row, snap.listed);
    LaterTrans(before, snap.listed, snap.asked);
    RowIsNoTomb(snap.row, job);
  }

  lemma {:induction false} RowIsNoTomb(s: Sys, job: JobId)
    requires Inv(s) && job in s.db.jobs
    ensures job !in s.db.tombs
  {
  }
}

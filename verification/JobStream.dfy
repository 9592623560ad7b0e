/** The per-job event stream (internal/api/job_events.go), run by one reader while
    every other actor keeps stepping between its reads. */
module JobStream {
  import opened Wrappers
  import opened JobStore
  import opened JobLifecycle
  import opened JobInvariants
  import opened JobHistory

  const PAGE_SIZE: nat := 512

  /** The process around the reader. Model-only counters: trouble of reads that failed,
      clients found gone and observations that ended, wakes and ticks of waits. */
  class World {
    var s: Sys
    var trouble: nat
    var wakes: nat
    var ticks: nat

    constructor (s: Sys)
      ensures this.s == s && trouble == 0 && wakes == 0 && ticks == 0
    {
      this.s, trouble, wakes, ticks := s, 0, 0, 0;
    }

    /** Whether what is tried next fails. */
    method Fails() returns (failed: bool)
      modifies this`trouble
      ensures trouble == old(trouble) + if failed then 1 else 0
    {
      failed := *;
      trouble := trouble + if failed then 1 else 0;
    }

    /** Whether a tick comes next. */
    method Ticked() returns (ticked: bool)
      modifies this`ticks
      ensures ticks == old(ticks) + if ticked then 1 else 0
    {
      ticked := *;
      ticks := ticks + if ticked then 1 else 0;
    }

    /** The observation ends. */
    method EndsHere()
      modifies this`trouble
      ensures trouble == old(trouble) + 1
    {
      trouble := trouble + 1;
    }

    /** A wait, until woken or for something else. */
    method Woken() returns (woken: bool)
      modifies this`wakes
      ensures wakes == old(wakes) + if woken then 1 else 0
    {
      woken := *;
      wakes := wakes + if woken then 1 else 0;
    }

    /** Any number of steps by anyone else. */
    method Interfere()
      requires Inv(s)
      modifies this`s
      ensures Inv(s) && Later(old(s), s)
    {
      hide Inv, Later;
      LaterRefl(s);
      var n: nat := *;
      while n > 0
        invariant Inv(s) && Later(old(s), s)
      {
        var t: Sys := *;
        var act: Action := *;
        if Next(s, t, act) {
          LaterKept(s, t, act);
          LaterTrans(old(s), s, t);
          s := t;
        }
        n := n - 1;
      }
    }
  }

  datatype Frame = Frame(id: nat, ev: Event)

  /** Event e reached the client: in this stream, or before the cursor it came with. */
  ghost predicate Got(sent: seq<Frame>, start: nat, e: nat) {
    e <= start || exists i :: 0 <= i < |sent| && sent[i].id == e
  }

  /** Every event of job stored at or below the cursor has reached the client. */
  ghost predicate UpTo(db: Store, job: JobId, sent: seq<Frame>, start: nat, cursor: nat) {
    forall e :: e in db.log && db.log[e].job == job && e <= cursor ==> Got(sent, start, e)
  }

  /** The cursor after sent: the last delivered id, or the one the client came with. */
  function Cursor(sent: seq<Frame>, start: nat): nat {
    if sent == [] then start else sent[|sent| - 1].id
  }

  ghost predicate AllSent(db: Store, job: JobId, sent: seq<Frame>, start: nat) {
    forall e :: e in db.log && db.log[e].job == job ==> Got(sent, start, e)
  }

  /** Frames in strictly increasing id order after start, each an event of job. */
  ghost predicate Ordered(db: Store, job: JobId, sent: seq<Frame>, start: nat) {
    && (forall i :: 0 <= i < |sent| ==> start < sent[i].id < db.nextId && sent[i].ev.job == job)
    && (forall i, k :: 0 <= i < k < |sent| ==> sent[i].id < sent[k].id)
    && (forall i :: 0 <= i < |sent| && sent[i].id in db.log ==> db.log[sent[i].id] == sent[i].ev)
  }

  /** The deletion tombstone was delivered; or terminal event term was, with every
      hook event ever recorded for it, and no hook of it is left to run. */
  ghost predicate Finished(s: Sys, job: JobId, sent: seq<Frame>, start: nat, term: nat) {
    || (job in s.db.tombs && Got(sent, start, s.db.tombs[job]))
    || (&& term in s.books.ended && s.books.ended[term] == job && Settled(s, term)
        && Got(sent, start, term)
        && forall r :: r in s.books.recorded && s.books.recorded[r].cause == term ==> Got(sent, start, r))
  }

  /** Nothing that happens later makes a finished stream incomplete. */
  lemma {:induction false} FinishedForGood(s: Sys, u: Sys, job: JobId, sent: seq<Frame>, start: nat, term: nat)
    requires Later(s, u) && Finished(s, job, sent, start, term)
    ensures Finished(u, job, sent, start, term)
  {
  }

  // ---- Why the order of the reads is right

  /** Whoever owes a dispatch holds mu or has left a finalize mark. */
  lemma {:induction false} OwedIsMarked(s: Sys, e: nat)
    requires Inv(s) && e in s.books.owing
    ensures s.locks.mu.Some? || s.FinalizeInFlight(s.books.ended[e])
  {
    assert PcOk(s, s.books.owing[e], s.actors[s.books.owing[e]]);
  }

  /** So with mu free and no mark, a job's terminal events are all dispatched. */
  lemma {:induction false} DispatchedWhenUnmarked(s: Sys, job: JobId, e: nat)
    requires Inv(s) && s.locks.mu.None? && !s.FinalizeInFlight(job)
    requires e in s.books.ended && s.books.ended[e] == job
    ensures e in s.books.dispatched
  {
    if e in s.books.owing {
      OwedIsMarked(s, e);
    }
  }

  /** With no hook of the job pending, a dispatched event's hooks are all done. */
  lemma {:induction false} SettledWhenNotPending(s: Sys, job: JobId, e: nat)
    requires Inv(s) && !s.HooksPending(job)
    requires e in s.books.dispatched && s.books.ended[e] == job
    ensures Settled(s, e)
  {
    assert |HooksOf(s.hooks.execs, job)| == s.hooks.PendingOf(job);
    forall x | x in s.hooks.execs
      ensures s.hooks.execs[x].job != job
    {
      assert x !in HooksOf(s.hooks.execs, job);
    }
  }

  /** At a moment between s and t the row was terminal, and by t every hook of its
      terminal event is done; or the job was gone. */
  ghost predicate Exhausted(s: Sys, at: Sys, t: Sys, job: JobId) {
    && Inv(at) && Later(s, at) && Later(at, t)
    && (job in at.db.tombs || (Ended(at, job) && Settled(t, at.db.jobs[job].term)))
  }

  lemma {:induction false} EndedStays(s: Sys, t: Sys, job: JobId)
    requires Inv(s) && Ended(s, job) && Later(s, t)
    ensures s.db.jobs[job].term in t.books.ended && t.books.ended[s.db.jobs[job].term] == job
  {
  }

  lemma {:induction false} DispatchedStays(s: Sys, t: Sys, e: nat)
    requires e in s.books.dispatched && e in s.books.ended && Later(s, t)
    ensures e in t.books.dispatched && e in t.books.ended && t.books.ended[e] == s.books.ended[e]
  {
  }

  function TermOf(db: Store, job: JobId): nat {
    if job in db.jobs then db.jobs[job].term else 0
  }

  /** After that, a read of everything stored finishes the stream. */
  lemma {:induction false} DrainFinishes(s: Sys, at: Sys, t: Sys, u: Sys, job: JobId, sent: seq<Frame>, start: nat)
    requires Inv(u) && Exhausted(s, at, t, job) && Later(t, u)
    requires AllSent(u.db, job, sent, start)
    ensures Finished(u, job, sent, start, TermOf(at.db, job))
  {
    LaterTrans(at, t, u);
    if job !in u.db.tombs {
      var e := at.db.jobs[job].term;
      assert e in u.db.log && u.db.log[e].job == job;
      forall r | r in u.books.recorded && u.books.recorded[r].cause == e
        ensures Got(sent, start, r)
      {
        assert CauseOk(u.books, u.books.recorded[r].job, e);
      }
    }
  }

  /** Sending the next frame of a page moves the cursor over that event alone. */
  lemma {:induction false} FrameSent(db: Store, job: JobId, sent: seq<Frame>, start: nat, page: seq<Frame>, from: nat, i: nat)
    requires i < |page|
    requires Ordered(db, job, page, from) && UpTo(db, job, page, from, page[|page| - 1].id)
    requires Ordered(db, job, sent, start)
    requires var cursor := if i == 0 then from else page[i - 1].id;
      UpTo(db, job, sent, start, cursor) && cursor == Cursor(sent, start)
    ensures Ordered(db, job, sent + [page[i]], start)
    ensures UpTo(db, job, sent + [page[i]], start, page[i].id)
  {
    var now := sent + [page[i]];
    forall e | e in db.log && db.log[e].job == job && e <= page[i].id
      ensures Got(now, start, e)
    {
      if e <= (if i == 0 then from else page[i - 1].id) {
        assert Got(sent, start, e);
        if k :| 0 <= k < |sent| && sent[k].id == e {
          assert now[k].id == e;
        }
      } else {
        assert e <= page[|page| - 1].id;
        assert Got(page, from, e);
        assert now[|sent|].id == e;
      }
    }
  }

  lemma {:induction false} StoredBelow(s: Sys)
    requires Inv(s)
    ensures forall e :: e in s.db.log ==> e < s.db.nextId
    ensures forall e :: e in s.db.log && s.db.log[e].kind.JobDeleted? ==> s.db.log[e].job in s.db.tombs
  {
  }

  lemma {:induction false} EventsRead(db: Store, job: JobId, after: nat, ids: seq<nat>, page: seq<Frame>)
    requires ids == db.ListAfter(OfJob(job), after, PAGE_SIZE) && |page| == |ids|
    requires forall i :: 0 <= i < |ids| ==> ids[i] in db.log && page[i] == Frame(ids[i], db.log[ids[i]])
    ensures Ordered(db, job, page, after)
    ensures UpTo(db, job, page, after, Cursor(page, after))
    ensures |page| < PAGE_SIZE && (forall e :: e in db.log ==> e < db.nextId) ==> AllSent(db, job, page, after)
  {
    PageExact(db, OfJob(job), after, PAGE_SIZE);
    forall i | 0 <= i < |page|
      ensures after < page[i].id < db.nextId && page[i].ev.job == job
    {
      assert ids[i] in ids;
    }
    forall e | e in db.log && db.log[e].job == job && e < db.nextId && (|page| < PAGE_SIZE || e <= page[|page| - 1].id)
      ensures Got(page, after, e)
    {
      if e > after {
        assert e in ids;
        var i :| 0 <= i < |ids| && ids[i] == e;
        assert page[i].id == e;
      }
    }
  }

  datatype End = Gone | Complete | Open

  /** The states in which eventsExhausted looked: at the row, then at mu and the marks,
      then at the pending hooks. */
  datatype Looks = Looks(row: Sys, marks: Sys, hooks: Sys) {
    ghost predicate Between(s: Sys, t: Sys) {
      Later(s, row) && Later(row, marks) && Later(marks, hooks) && Later(hooks, t)
    }

    /** What the three looks say. */
    predicate Over(job: JobId) {
      || job !in row.db.jobs
      || (&& row.db.jobs[job].status in {Completed, Failed, Cancelled}
          && marks.locks.mu.None? && job !in marks.marks.cancels && job !in marks.marks.finalizing
          && hooks.hooks.PendingOf(job) == 0)
    }
  }

  /** Looks that say so are right: nothing is owed any more. */
  lemma {:induction false} LooksDecide(s: Sys, looks: Looks, job: JobId)
    requires Inv(looks.row) && Inv(looks.marks) && Inv(looks.hooks) && looks.Between(s, looks.hooks)
    requires looks.row.db.Known(job) && looks.Over(job)
    ensures Exhausted(s, looks.row, looks.hooks, job)
  {
    hide Later;
    LaterTrans(looks.row, looks.marks, looks.hooks);
    if job in looks.row.db.jobs {
      var e := looks.row.db.jobs[job].term;
      EndedStays(looks.row, looks.marks, job);
      DispatchedWhenUnmarked(looks.marks, job, e);
      DispatchedStays(looks.marks, looks.hooks, e);
      SettledWhenNotPending(looks.hooks, job, e);
    }
  }

  /** One open stream: the closure state of runJobEventStream. */
  class Stream {
    const world: World
    const job: JobId
    const start: nat
    var lastID: nat
    var sent: seq<Frame>
    ghost var asks: nat   // rounds of done

    ghost predicate Valid()
      reads this, world
    {
      && Inv(world.s) && world.s.db.Known(job)
      && Ordered(world.s.db, job, sent, start)
      && UpTo(world.s.db, job, sent, start, lastID)
      && lastID == Cursor(sent, start)
    }

    constructor (world: World, job: JobId, start: nat)
      requires Inv(world.s) && world.s.db.Known(job)
      ensures Valid() && this.world == world && this.job == job && this.start == start && sent == []
    {
      this.world, this.job, this.start, this.lastID, this.sent := world, job, start, start, [];
    }

    /** What others do never disturbs what was sent. */
    method Interfere()
      requires Valid()
      modifies world`s
      ensures Valid() && Later(old(world.s), world.s)
    {
      world.Interfere();
    }

    method Read() returns (page: seq<Frame>)
      requires Valid()
      ensures |page| <= PAGE_SIZE
      ensures Ordered(world.s.db, job, page, lastID)
      ensures UpTo(world.s.db, job, page, lastID, Cursor(page, lastID))
      ensures |page| < PAGE_SIZE ==> AllSent(world.s.db, job, page, lastID)
      ensures page == [] <==> forall e :: e in world.s.db.log && world.s.db.log[e].job == job ==> e <= lastID
    {
      hide Inv, Ordered, UpTo, AllSent;
      var db := world.s.db;
      var ids := db.ListAfter(OfJob(job), lastID, PAGE_SIZE);
      PageExact(db, OfJob(job), lastID, PAGE_SIZE);
      page := seq(|ids|, i requires 0 <= i < |ids| && ids[i] in db.log => Frame(ids[i], db.log[ids[i]]));
      StoredBelow(world.s);
      EventsRead(db, job, lastID, ids, page);
      NoneRead(db, job, lastID, ids, page);
    }

    /** send: the events in order, until the client is gone. */
    method Send(page: seq<Frame>) returns (ok: bool)
      requires Valid()
      requires Ordered(world.s.db, job, page, lastID)
      requires UpTo(world.s.db, job, page, lastID, Cursor(page, lastID))
      modifies this`sent, this`lastID, world`trouble
      ensures Valid()
      ensures ok ==> sent == old(sent) + page
      ensures old(sent) <= sent
      ensures world.trouble == old(world.trouble) + if ok then 0 else 1
    {
      hide Inv, UpTo, Ordered;
      var i := 0;
      while i < |page|
        invariant 0 <= i <= |page|
        invariant sent == old(sent) + page[..i]
        invariant lastID == if i == 0 then old(lastID) else page[i - 1].id
        invariant Valid() && world.trouble == old(world.trouble)
      {
        var gone := world.Fails();
        if gone {
          return false;
        }
        FrameSent(world.s.db, job, sent, start, page, old(lastID), i);
        sent, lastID := sent + [page[i]], page[i].id;
        i := i + 1;
      }
      return true;
    }

    /** drain: complete only when a short page was read and sent. A read that fails,
        or a client that is gone, ends it early; patience bounds the observed reads. */
    method Drain() returns (complete: bool, gone: bool)
      requires Valid()
      modifies this`sent, this`lastID, world`s, world`trouble
      ensures Valid() && Later(old(world.s), world.s) && world.trouble >= old(world.trouble)
      ensures complete ==> AllSent(world.s.db, job, sent, start)
      // nothing else keeps it from completing
      ensures complete <==> world.trouble == old(world.trouble)
      ensures gone ==> !complete
    {
      hide Inv, Later;
      LaterRefl(world.s);
      var patience: nat := *;
      while patience > 0
        invariant Valid() && Later(old(world.s), world.s) && world.trouble == old(world.trouble)
      {
        ghost var before := world.s;
        Interfere();
        LaterTrans(old(world.s), before, world.s);
        var failed := world.Fails();
        if failed {
          return false, false;
        }
        var page := Read();
        var ok := Send(page);
        if !ok {
          return false, true;
        }
        if |page| < PAGE_SIZE {
          return true, false;
        }
        patience := patience - 1;
      }
      world.EndsHere();
      return false, false;
    }

    /** eventsExhausted: the status, then the finalize marks, then the pending hooks.
        An observation that ends while the reader waits for mu counts as false. */
    method EventsExhausted() returns (exhausted: bool, ghost looks: Looks)
      requires Valid()
      modifies world`s, world`trouble
      ensures Valid() && Later(old(world.s), world.s) && world.trouble >= old(world.trouble)
      ensures exhausted ==> Exhausted(old(world.s), looks.row, world.s, job)
      // no is as exact as yes: a read failed, or one of the looks stood against it
      ensures exhausted <==> world.trouble == old(world.trouble) && looks.Over(job)
      ensures looks.Between(old(world.s), world.s)
    {
      hide Inv, Later, Exhausted;
      Interfere();
      ghost var at := world.s;
      LaterRefl(at);
      looks := Looks(at, at, at);
      var status := world.s.db.GetJob(job);
      var failed := world.Fails();
      if !failed && status.None? {
        LooksDecide(old(world.s), looks, job);
        return true, looks;
      }
      if failed || !status.value.IsTerminal() {
        return false, looks;
      }
      Interfere();
      ghost var unmarked := world.s;
      LaterTrans(old(world.s), at, unmarked);
      LaterRefl(unmarked);
      looks := Looks(at, unmarked, unmarked);
      if world.s.locks.mu.Some? || world.s.FinalizeInFlight(job) {
        return false, looks;
      }
      Interfere();
      LaterTrans(old(world.s), unmarked, world.s);
      LaterTrans(at, unmarked, world.s);
      LaterRefl(world.s);
      looks := Looks(at, unmarked, world.s);
      if world.s.HooksPending(job) {
        return false, looks;
      }
      LooksDecide(old(world.s), looks, job);
      return true, looks;
    }

    /** done: drain, ask, drain again. Gone when a send failed. */
    method Finish() returns (end: End, ghost term: nat, ghost looks: Looks)
      requires Valid()
      modifies this, world`s, world`trouble
      ensures Valid() && Later(old(world.s), world.s) && world.trouble >= old(world.trouble)
      ensures end.Complete? ==> Finished(world.s, job, sent, start, term)
      // it ends the stream whenever nothing failed and the looks stood for it
      ensures end.Complete? <==> world.trouble == old(world.trouble) && looks.Over(job)
      ensures end.Gone? ==> world.trouble > old(world.trouble)
      ensures world.trouble == old(world.trouble) ==> looks.Between(old(world.s), world.s)
      ensures asks == old(asks) + 1
    {
      hide Inv, Later, Exhausted, Finished, Looks.Over;
      asks := asks + 1;
      term, looks := 0, Looks(world.s, world.s, world.s);
      var complete, gone := Drain();
      if gone {
        return Gone, term, looks;
      }
      if !complete {
        return Open, term, looks;
      }
      ghost var drained := world.s;
      var exhausted;
      exhausted, looks := EventsExhausted();
      ghost var asked := world.s;
      LaterTrans(old(world.s), drained, asked);
      LaterTrans(old(world.s), drained, looks.row);
      if !exhausted {
        return Open, term, looks;
      }
      complete, gone := Drain();
      LaterTrans(old(world.s), asked, world.s);
      LaterTrans(looks.hooks, asked, world.s);
      if complete {
        DrainFinishes(drained, looks.row, asked, world.s, job, sent, start);
        return Complete, TermOf(looks.row.db, job), looks;
      }
      return if gone then Gone else Open, term, looks;
    }

    /** runJobEventStream: the backlog, then a round of done on each wake or re-drain
        tick. The hub is only a source of wakes, so every choice below is open. */
    method Run(backlog: seq<Frame>) returns (end: End, ghost term: nat, ghost looks: Looks)
      requires Valid()
      requires Ordered(world.s.db, job, backlog, lastID)
      requires UpTo(world.s.db, job, backlog, lastID, Cursor(backlog, lastID))
      modifies this, world
      ensures Valid() && Later(old(world.s), world.s) && world.trouble >= old(world.trouble)
      ensures end.Complete? ==> Finished(world.s, job, sent, start, term)
      // one round of done at the start and one on each wake; unless something fails, it
      // ends at the first whose looks stand for it, and only there
      ensures world.trouble == old(world.trouble) ==>
        && !end.Gone? && (end.Complete? <==> looks.Over(job))
        && asks - old(asks) == 1 + (world.wakes - old(world.wakes))
    {
      hide Inv, Later, Finished, Looks.Over, Looks.Between;
      LaterRefl(world.s);
      term, looks := 0, Looks(world.s, world.s, world.s);
      var ok := Send(backlog);
      if !ok {
        return Gone, term, looks;
      }
      end, term, looks := Finish();
      var rounds: nat := *;
      while end.Open? && rounds > 0
        invariant Valid() && Later(old(world.s), world.s)
        invariant end.Complete? ==> Finished(world.s, job, sent, start, term)
        invariant world.trouble >= old(world.trouble)
        invariant world.trouble == old(world.trouble) ==>
          && !end.Gone? && (end.Complete? <==> looks.Over(job))
          && asks - old(asks) == 1 + (world.wakes - old(world.wakes))
      {
        var gone := world.Fails();
        if gone {
          return Gone, term, looks;
        }
        var woken := world.Woken();
        if woken {
          ghost var before := world.s;
          end, term, looks := Finish();
          LaterTrans(old(world.s), before, world.s);
        }
        rounds := rounds - 1;
      }
    }
  }

  lemma {:induction false} NoneRead(db: Store, job: JobId, after: nat, ids: seq<nat>, page: seq<Frame>)
    requires ids == db.ListAfter(OfJob(job), after, PAGE_SIZE) && |page| == |ids|
    requires forall e :: e in db.log ==> e < db.nextId
    ensures page == [] <==> forall e :: e in db.log && db.log[e].job == job ==> e <= after
  {
    PageExact(db, OfJob(job), after, PAGE_SIZE);
    if ids != [] {
      assert ids[0] in ids;
    }
  }

  datatype Reply = NotFound | StoreError | NoContent | Streamed(end: End)

  /** jobEvents, from the job lookup on: exhaustion is asked before the backlog is
      read, so an empty backlog then means that nothing is left. */
  method JobEvents(world: World, job: JobId, cursor: nat)
    returns (reply: Reply, sent: seq<Frame>, ghost term: nat, ghost looks: Looks, ghost read: Sys)
    requires Inv(world.s)
    modifies world
    ensures Inv(world.s) && Later(old(world.s), world.s)
    ensures Ordered(world.s.db, job, sent, cursor)
    ensures UpTo(world.s.db, job, sent, cursor, Cursor(sent, cursor))
    ensures reply.NotFound? ==> world.s.db.GetJob(job).None?
    ensures !reply.Streamed? ==> sent == []
    ensures reply.NoContent? || reply == Streamed(Complete) ==> Finished(world.s, job, sent, cursor, term)
    ensures world.trouble >= old(world.trouble)
    ensures reply.StoreError? ==> world.trouble > old(world.trouble)
    // and when nothing fails: not found exactly when the job is not there, and no content
    // exactly when the looks stand for it and no event of the job is stored after the cursor
    ensures world.trouble == old(world.trouble) ==>
      && !reply.StoreError?
      && (!reply.NotFound? ==>
            && looks.row.db.Known(job) && Later(old(world.s), looks.row) && Later(looks.hooks, read) && Later(read, world.s)
            && (reply.NoContent? <==>
                  looks.Over(job) && forall e :: e in read.db.log && read.db.log[e].job == job ==> e <= cursor))
  {
    hide Inv, Later, Finished, Exhausted, Looks.Over;
    world.Interfere();
    ghost var first := world.s;
    sent, term, looks, read := [], 0, Looks(first, first, first), first;
    var failed := world.Fails();
    if failed {
      return StoreError, [], term, looks, read;
    }
    if world.s.db.GetJob(job).None? {
      return NotFound, [], term, looks, read;
    }
    var stream := new Stream(world, job, cursor);
    var exhausted;
    exhausted, looks := stream.EventsExhausted();
    ghost var asked := world.s;
    LaterTrans(old(world.s), first, asked);
    LaterTrans(old(world.s), first, looks.row);
    StillKnown(first, looks.row, job);
    stream.Interfere();
    read := world.s;
    LaterTrans(old(world.s), asked, read);
    LaterTrans(looks.hooks, asked, read);
    failed := world.Fails();
    if failed {
      return StoreError, [], term, looks, read;
    }
    var backlog := stream.Read();
    LaterRefl(read);
    if backlog == [] && exhausted {
      DrainFinishes(first, looks.row, asked, world.s, job, [], cursor);
      return NoContent, [], TermOf(looks.row.db, job), looks, read;
    }
    var end;
    ghost var last;
    end, term, last := stream.Run(backlog);
    LaterTrans(old(world.s), read, world.s);
    return Streamed(end), stream.sent, term, looks, read;
  }

  lemma StillKnown(s: Sys, t: Sys, job: JobId)
    requires Later(s, t) && job in s.db.jobs
    ensures t.db.Known(job)
  {
  }

  /** A client cut off anywhere and resuming from its last id: the two streams put
      together skip no stored event, repeat none, and stay in order. */
  lemma {:induction false} Resumed(s: Sys, t: Sys, job: JobId, first: seq<Frame>, start: nat, second: seq<Frame>, upto: nat)
    requires LogLater(s.db, t.db)
    requires Ordered(s.db, job, first, start) && UpTo(s.db, job, first, start, Cursor(first, start))
    requires Ordered(t.db, job, second, Cursor(first, start)) && UpTo(t.db, job, second, Cursor(first, start), upto)
    ensures Ordered(t.db, job, first + second, start) && UpTo(t.db, job, first + second, start, upto)
  {
    var all := first + second;
    forall e | e in t.db.log && t.db.log[e].job == job && e <= upto
      ensures Got(all, start, e)
    {
      assert Got(second, Cursor(first, start), e);
      if i :| 0 <= i < |second| && second[i].id == e {
        assert all[|first| + i].id == e;
      } else if e > start {
        assert Got(first, start, e);
        var i :| 0 <= i < |first| && first[i].id == e;
        assert all[i].id == e;
      }
    }
  }
}

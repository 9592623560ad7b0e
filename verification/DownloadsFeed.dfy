/** The overview feed (internal/api/downloads_feed.go) and the follower that keeps a
    list current from it (internal/client/follow.go), run while every other actor
    keeps stepping between the store reads. */
module DownloadsFeed {
  import opened Wrappers
  import opened JobStore
  import opened JobLifecycle
  import opened JobInvariants
  import opened JobHistory
  import opened JobStream
  import Sse
  import SseWire

  const SNAPSHOT_LIMIT: nat := 200
  const PROGRESS_JOBS: nat := 64

  /** download_upserted with the job's snapshot, or download_deleted. */
  datatype Msg = Upserted(job: JobId, status: Status, id: nat) | Deleted(job: JobId, id: nat)

  /** What a client shows, the cursor it would resume from, and the jobs that were
      too old for its snapshot and of which it has heard nothing since. */
  datatype Picture = Picture(shown: map<JobId, Status>, cursor: nat, unseen: set<JobId>) {
    function Apply(msg: Msg): Picture {
      Picture(if msg.Upserted? then shown[msg.job := msg.status] else shown - {msg.job},
              if msg.id > cursor then msg.id else cursor,
              unseen - {msg.job})
    }

    function After(msgs: seq<Msg>): Picture {
      if msgs == [] then this else After(msgs[..|msgs| - 1]).Apply(msgs[|msgs| - 1])
    }

    function Shows(j: JobId): Option<Status> {
      if j in shown then Some(shown[j]) else None
    }
  }

  /** Each job is shown as the store has it, or a milestone after the cursor will
      correct it; but for a job whose own last milestone could not be filed. */
  ghost predicate Faithful(s: Sys, p: Picture) {
    && p.cursor < s.db.nextId
    && forall j :: j !in p.unseen && j !in s.books.muted ==> p.Shows(j) == s.db.GetJob(j) || Behind(s, j, p.cursor)
  }

  lemma {:induction false} FaithfulLater(s: Sys, t: Sys, p: Picture)
    requires Faithful(s, p) && Later(s, t)
    ensures Faithful(t, p)
  {
    forall j | j !in p.unseen && j !in t.books.muted
      ensures p.Shows(j) == t.db.GetJob(j) || Behind(t, j, p.cursor)
    {
      assert (j !in s.books.muted && View(s.db, j) == View(t.db, j)) || Behind(t, j, p.cursor);
    }
  }

  /** A client that has drained the feed, with no announcement about to be filed,
      shows exactly the store's jobs, each with its status, and no deleted one,
      whatever failed for other jobs. */
  lemma {:induction false} Converged(s: Sys, p: Picture)
    requires Faithful(s, p) && p.unseen == {} && NothingDue(s.db, p.cursor)
    requires forall a, j :: a in s.actors ==> !s.actors[a].WillAnnounce(j)
    ensures forall j :: j !in s.books.muted ==> (j in p.shown <==> j in s.db.jobs)
    ensures forall j :: j in p.shown && j !in s.books.muted ==> p.shown[j] == s.db.jobs[j].status
  {
    forall j | j !in s.books.muted
      ensures p.Shows(j) == s.db.GetJob(j)
    {
      assert !Behind(s, j, p.cursor);
    }
    assert forall j :: j in p.shown <==> p.Shows(j).Some?;
    assert forall j :: j in s.db.jobs <==> s.db.GetJob(j).Some?;
  }

  /** Ids from the cursor on, never falling. */
  predicate Rising(msgs: seq<Msg>, cursor: nat) {
    && (forall i :: 0 <= i < |msgs| ==> cursor <= msgs[i].id)
    && (forall i, k :: 0 <= i <= k < |msgs| ==> msgs[i].id <= msgs[k].id)
  }

  /** The last message about the job. */
  function LastAbout(msgs: seq<Msg>, j: JobId): Option<Msg> {
    if msgs == [] then None
    else if msgs[|msgs| - 1].job == j then Some(msgs[|msgs| - 1])
    else LastAbout(msgs[..|msgs| - 1], j)
  }

  /** The larger of the cursor and the messages' ids. */
  function Highest(cursor: nat, msgs: seq<Msg>): (h: nat)
    ensures h >= cursor && forall i :: 0 <= i < |msgs| ==> h >= msgs[i].id
    ensures h == cursor || exists i :: 0 <= i < |msgs| && h == msgs[i].id
  {
    if msgs == [] then cursor
    else
      var before, last := Highest(cursor, msgs[..|msgs| - 1]), msgs[|msgs| - 1];
      if before < last.id then last.id else before
  }

  /** p is the list as read, with what each of the messages says of its job. */
  ghost predicate Applied(p: Picture, list: Picture, msgs: seq<Msg>) {
    && p.cursor == Highest(list.cursor, msgs)
    && (forall j :: j in p.unseen <==> j in list.unseen && LastAbout(msgs, j).None?)
    && (forall j :: p.Shows(j) == match LastAbout(msgs, j)
          case None => list.Shows(j)
          case Some(Upserted(_, status, _)) => Some(status)
          case Some(Deleted(_, _)) => None)
  }

  lemma {:induction false} AfterApplied(list: Picture, msgs: seq<Msg>)
    ensures Applied(list.After(msgs), list, msgs)
  {
    if msgs != [] {
      AfterApplied(list, msgs[..|msgs| - 1]);
    }
  }

  lemma {:induction false} AfterBoth(list: Picture, a: seq<Msg>, b: seq<Msg>)
    ensures list.After(a + b) == list.After(a).After(b)
  {
    if b == [] {
      assert a + b == a;
    } else {
      assert (a + b)[..|a + b| - 1] == a + b[..|b| - 1];
      AfterBoth(list, a, b[..|b| - 1]);
    }
  }

  /** Each milestone at or below the cursor is covered: a message for its job went
      out with an id at least as large, or a newer one is still after the cursor. */
  ghost predicate Covered(db: Store, msgs: seq<Msg>, start: nat, cursor: nat) {
    forall e :: e in db.log && db.log[e].kind.IsMilestone() && start < e <= cursor ==>
      || (exists i :: 0 <= i < |msgs| && msgs[i].job == db.log[e].job && e <= msgs[i].id)
      || Due(db, db.log[e].job, cursor)
  }

  lemma {:induction false} DueLater(s: Sys, t: Sys, j: JobId, cursor: nat)
    requires Inv(s) && Inv(t) && Later(s, t) && cursor < s.db.nextId && Due(s.db, j, cursor)
    ensures Due(t.db, j, cursor)
  {
    hide Actors, Held, Rows, Books, Counted, Causes, NotStranded, HooksLater, Told;
    var e :| e in s.db.log && cursor < e && s.db.log[e].job == j && s.db.log[e].kind.IsMilestone();
    if e !in t.db.log {
      assert t.db.tombs[j] in t.db.log;
    }
  }

  lemma {:induction false} CoveredLater(s: Sys, t: Sys, msgs: seq<Msg>, start: nat, cursor: nat)
    requires Inv(s) && Inv(t) && Later(s, t) && cursor < s.db.nextId && Covered(s.db, msgs, start, cursor)
    ensures Covered(t.db, msgs, start, cursor)
  {
    forall e | e in t.db.log && t.db.log[e].kind.IsMilestone() && start < e <= cursor && Due(s.db, t.db.log[e].job, cursor)
      ensures Due(t.db, t.db.log[e].job, cursor)
    {
      DueLater(s, t, t.db.log[e].job, cursor);
    }
  }

  // ---- One page

  datatype Pending = Pending(id: nat, deleted: bool)

  /** page holds every milestone stored after from, up to the page's last one. */
  ghost predicate PageOf(db: Store, page: seq<Frame>, from: nat) {
    && (forall i :: 0 <= i < |page| ==>
          && from < page[i].id < db.nextId && page[i].id in db.log && db.log[page[i].id] == page[i].ev
          && page[i].ev.kind.IsMilestone())
    && (forall i, k :: 0 <= i < k < |page| ==> page[i].id < page[k].id)
    && (forall e :: e in db.log && db.log[e].kind.IsMilestone() && from < e && page != [] && e <= page[|page| - 1].id ==>
          exists i :: 0 <= i < |page| && page[i].id == e)
  }

  /** For each job in page its last event there. */
  ghost predicate LatestOf(page: seq<Frame>, latest: map<JobId, Pending>) {
    && (forall i :: 0 <= i < |page| ==> page[i].ev.job in latest && page[i].id <= latest[page[i].ev.job].id)
    && (forall j :: j in latest ==> exists i ::
          0 <= i < |page| && page[i].ev.job == j && latest[j] == Pending(page[i].id, page[i].ev.kind.JobDeleted?))
  }

  ghost predicate ByID(latest: map<JobId, Pending>, order: seq<JobId>) {
    && (forall i :: 0 <= i < |order| ==> order[i] in latest)
    && (forall i, k :: 0 <= i < k < |order| ==> latest[order[i]].id < latest[order[k]].id)
  }

  /** The order in which a page is sent: every job of it once, by its last id. */
  ghost predicate SendOrder(latest: map<JobId, Pending>, order: seq<JobId>) {
    ByID(latest, order) && forall j :: j in latest ==> j in order
  }

  function Insert(latest: map<JobId, Pending>, order: seq<JobId>, j: JobId): (r: seq<JobId>)
    requires ByID(latest, order) && j in latest
    requires forall i :: 0 <= i < |order| ==> latest[order[i]].id != latest[j].id
    ensures ByID(latest, r) && |r| == |order| + 1
    ensures forall x :: x in r <==> x in order || x == j
    ensures r[0] == if order == [] || latest[j].id < latest[order[0]].id then j else order[0]
  {
    hide ByID;
    if order == [] || latest[j].id < latest[order[0]].id then
      Ahead(latest, j, order);
      [j] + order
    else
      Behead(latest, order);
      var rest := Insert(latest, order[1..], j);
      Ahead(latest, order[0], rest);
      [order[0]] + rest
  }

  lemma {:induction false} Ahead(latest: map<JobId, Pending>, j: JobId, rest: seq<JobId>)
    requires ByID(latest, rest) && j in latest && (rest == [] || (rest[0] in latest && latest[j].id < latest[rest[0]].id))
    ensures ByID(latest, [j] + rest) && forall x :: x in [j] + rest <==> x == j || x in rest
  {
    forall i, k | 0 <= i < k < |rest| + 1
      ensures latest[([j] + rest)[i]].id < latest[([j] + rest)[k]].id
    {
      if i == 0 && k > 1 {
        assert latest[rest[0]].id < latest[rest[k - 1]].id;
      }
    }
  }

  lemma {:induction false} Behead(latest: map<JobId, Pending>, order: seq<JobId>)
    requires ByID(latest, order) && order != []
    ensures ByID(latest, order[1..]) && order[0] in latest && forall x :: x in order <==> x == order[0] || x in order[1..]
    ensures |order| > 1 ==> order[1] in latest && latest[order[0]].id < latest[order[1]].id
  {
    assert order == [order[0]] + order[1..];
  }

  function Sort(latest: map<JobId, Pending>, order: seq<JobId>): (r: seq<JobId>)
    requires forall i :: 0 <= i < |order| ==> order[i] in latest
    requires forall i, k :: 0 <= i < k < |order| ==> latest[order[i]].id != latest[order[k]].id
    ensures ByID(latest, r)
    ensures forall x :: x in r <==> x in order
  {
    if order == [] then []
    else
      var rest := Sort(latest, order[1..]);
      assert forall i :: 0 <= i < |rest| ==> rest[i] in rest;
      Insert(latest, rest, order[0])
  }

  lemma {:induction false} CollectOne(page: seq<Frame>, i: nat, was: map<JobId, Pending>)
    requires i < |page| && LatestOf(page[..i], was)
    requires forall k :: 0 <= k < i ==> page[k].id < page[i].id
    ensures page[i].ev.job in was ==> was[page[i].ev.job].id < page[i].id
    ensures LatestOf(page[..i + 1], was[page[i].ev.job := Pending(page[i].id, page[i].ev.kind.JobDeleted?)])
  {
    var now := was[page[i].ev.job := Pending(page[i].id, page[i].ev.kind.JobDeleted?)];
    var done, next := page[..i], page[..i + 1];
    assert forall k :: 0 <= k < i ==> done[k] == next[k];
    assert next[i] == page[i];
    forall j | j in was
      ensures was[j].id < page[i].id
    {
      var k :| 0 <= k < i && done[k].ev.job == j && was[j] == Pending(done[k].id, done[k].ev.kind.JobDeleted?);
      assert done[k] == page[k];
    }
    forall j | j in now && j != page[i].ev.job
      ensures exists k :: 0 <= k < |next| && next[k].ev.job == j && now[j] == Pending(next[k].id, next[k].ev.kind.JobDeleted?)
    {
      var k :| 0 <= k < i && done[k].ev.job == j && was[j] == Pending(done[k].id, done[k].ev.kind.JobDeleted?);
      assert next[k] == done[k];
    }
  }

  lemma {:induction false} NoneCollected(page: seq<Frame>)
    requires page == []
    ensures LatestOf(page, map[])
  {
  }

  lemma {:induction false} LastsDiffer(page: seq<Frame>, latest: map<JobId, Pending>, j: JobId, k: JobId)
    requires LatestOf(page, latest) && j in latest && k in latest && j != k
    requires forall a, b :: 0 <= a < b < |page| ==> page[a].id < page[b].id
    ensures latest[j].id != latest[k].id
  {
    var a :| 0 <= a < |page| && page[a].ev.job == j && latest[j] == Pending(page[a].id, page[a].ev.kind.JobDeleted?);
    var b :| 0 <= b < |page| && page[b].ev.job == k && latest[k] == Pending(page[b].id, page[b].ev.kind.JobDeleted?);
  }

  /** Collecting a page: the last event of each job, then the jobs by that id. */
  method Collect(ghost db: Store, page: seq<Frame>, ghost from: nat) returns (latest: map<JobId, Pending>, order: seq<JobId>)
    requires PageOf(db, page, from)
    ensures LatestOf(page, latest) && SendOrder(latest, order)
  {
    hide LatestOf;
    latest, order := map[], [];
    NoneCollected(page[..0]);
    var i := 0;
    while i < |page|
      invariant 0 <= i <= |page|
      invariant LatestOf(page[..i], latest)
      invariant forall j :: j in order <==> j in latest
      invariant forall k, l :: 0 <= k < l < |order| ==> order[k] != order[l]
    {
      var id, ev := page[i].id, page[i].ev;
      if ev.job !in latest {
        order := order + [ev.job];
      }
      CollectOne(page, i, latest);
      if ev.job !in latest || id > latest[ev.job].id {
        latest := latest[ev.job := Pending(id, ev.kind.JobDeleted?)];
      }
      i := i + 1;
    }
    assert page[..i] == page;
    forall k, l | 0 <= k < l < |order|
      ensures latest[order[k]].id != latest[order[l]].id
    {
      LastsDiffer(page, latest, order[k], order[l]);
    }
    order := Sort(latest, order);
  }

  // ---- One message

  /** The cursor before the k-th message of a page. */
  function Before(latest: map<JobId, Pending>, order: seq<JobId>, k: nat, from: nat): nat
    requires ByID(latest, order) && k <= |order|
  {
    if k == 0 then from else latest[order[k - 1]].id
  }

  /** read is when the page was read, s is now. */
  ghost predicate Sending(read: Sys, s: Sys, page: seq<Frame>, latest: map<JobId, Pending>, order: seq<JobId>, from: nat) {
    && Inv(read) && Inv(s) && Later(read, s)
    && page != [] && PageOf(read.db, page, from) && LatestOf(page, latest) && SendOrder(latest, order)
  }

  lemma {:induction false} LastOf(read: Sys, page: seq<Frame>, latest: map<JobId, Pending>, from: nat, j: JobId)
    requires PageOf(read.db, page, from) && LatestOf(page, latest) && j in latest
    ensures var id := latest[j].id;
      && from < id < read.db.nextId && id <= page[|page| - 1].id
      && id in read.db.log && read.db.log[id].job == j && read.db.log[id].kind.IsMilestone()
      && latest[j].deleted == read.db.log[id].kind.JobDeleted?
  {
    hide PageOf;
    var i :| 0 <= i < |page| && page[i].ev.job == j && latest[j] == Pending(page[i].id, page[i].ev.kind.JobDeleted?);
    InPage(read.db, page, from, i);
  }

  lemma {:induction false} InPage(db: Store, page: seq<Frame>, from: nat, i: nat)
    requires PageOf(db, page, from) && i < |page|
    ensures from < page[i].id < db.nextId && page[i].id <= page[|page| - 1].id
    ensures page[i].id in db.log && db.log[page[i].id] == page[i].ev && page[i].ev.kind.IsMilestone()
  {
  }

  lemma {:induction false} StillToSend(latest: map<JobId, Pending>, order: seq<JobId>, from: nat, k: nat, j: JobId)
    requires SendOrder(latest, order) && k < |order| && j in latest && j != order[k]
    requires latest[j].id > Before(latest, order, k, from)
    ensures latest[j].id > latest[order[k]].id
  {
    var q :| 0 <= q < |order| && order[q] == j;
    assert q >= k;
  }

  lemma {:induction false} NextIdGrows(read: Sys, s: Sys)
    requires Later(read, s)
    ensures read.db.nextId <= s.db.nextId
  {
  }

  lemma {:induction false} WasStored(read: Sys, s: Sys, e: nat)
    requires Later(read, s) && e in s.db.log && e < read.db.nextId
    ensures e in read.db.log && read.db.log[e] == s.db.log[e]
  {
  }

  /** Moving the cursor over the k-th job's last milestone leaves every other job's
      due milestones due. */
  lemma {:induction false} DueAfter(read: Sys, s: Sys, page: seq<Frame>, latest: map<JobId, Pending>, order: seq<JobId>, from: nat, k: nat, j: JobId)
    requires Sending(read, s, page, latest, order, from) && k < |order|
    requires j != order[k] && Due(s.db, j, Before(latest, order, k, from))
    ensures Due(s.db, j, latest[order[k]].id)
  {
    hide Inv, Later;
    var m, next := Before(latest, order, k, from), latest[order[k]].id;
    var e :| e in s.db.log && m < e && s.db.log[e].job == j && s.db.log[e].kind.IsMilestone();
    LastOf(read, page, latest, from, order[k]);
    if e <= next {
      WasStored(read, s, e);
      OrderedAbove(page, latest, order, from, read, k);
      var i :| 0 <= i < |page| && page[i].id == e;
      LastOf(read, page, latest, from, j);
      StillToSend(latest, order, from, k, j);
      DueLater(read, s, j, next);
    }
  }

  /** Before the k-th message the cursor is at or after from and below its id. */
  lemma {:induction false} OrderedAbove(page: seq<Frame>, latest: map<JobId, Pending>, order: seq<JobId>, from: nat, read: Sys, k: nat)
    requires PageOf(read.db, page, from) && LatestOf(page, latest) && SendOrder(latest, order) && k < |order|
    ensures from <= Before(latest, order, k, from) < latest[order[k]].id
  {
    LastOf(read, page, latest, from, order[k]);
    if k > 0 {
      LastOf(read, page, latest, from, order[k - 1]);
    }
  }

  /** A message that shows its job as the store has it keeps the picture faithful. */
  lemma {:induction false} SentFaithful(read: Sys, s: Sys, page: seq<Frame>, latest: map<JobId, Pending>, order: seq<JobId>, from: nat, k: nat, p: Picture, msg: Msg)
    requires Sending(read, s, page, latest, order, from) && k < |order|
    requires Faithful(s, p) && p.cursor == Before(latest, order, k, from)
    requires msg.job == order[k] && msg.id == latest[order[k]].id
    requires (if msg.Upserted? then Some(msg.status) else None) == s.db.GetJob(msg.job)
    ensures Faithful(s, p.Apply(msg)) && p.Apply(msg).cursor == msg.id
  {
    hide Inv, Later;
    var now := p.Apply(msg);
    NextIdGrows(read, s);
    OrderedAbove(page, latest, order, from, read, k);
    LastOf(read, page, latest, from, order[k]);
    forall j | j !in now.unseen && j !in s.books.muted
      ensures now.Shows(j) == s.db.GetJob(j) || Behind(s, j, now.cursor)
    {
      if j != msg.job {
        assert now.Shows(j) == p.Shows(j);
        if Due(s.db, j, p.cursor) {
          DueAfter(read, s, page, latest, order, from, k, j);
        }
      }
    }
  }

  lemma {:induction false} SentCovered(read: Sys, s: Sys, page: seq<Frame>, latest: map<JobId, Pending>, order: seq<JobId>, from: nat, k: nat, out: seq<Msg>, start: nat, msg: Msg)
    requires Sending(read, s, page, latest, order, from) && k < |order|
    requires Covered(s.db, out, start, Before(latest, order, k, from))
    requires msg.job == order[k] && msg.id == latest[order[k]].id
    ensures Covered(s.db, out + [msg], start, msg.id)
  {
    hide Inv, Later;
    var m := Before(latest, order, k, from);
    var now := out + [msg];
    forall e | e in s.db.log && s.db.log[e].kind.IsMilestone() && start < e <= msg.id
      ensures (exists i :: 0 <= i < |now| && now[i].job == s.db.log[e].job && e <= now[i].id) || Due(s.db, s.db.log[e].job, msg.id)
    {
      var j := s.db.log[e].job;
      if j == msg.job {
        assert now[|out|] == msg;
      } else if e <= m && !Due(s.db, j, m) {
        var i :| 0 <= i < |out| && out[i].job == j && e <= out[i].id;
        assert now[i] == out[i];
      } else {
        DueAfter(read, s, page, latest, order, from, k, j);
      }
    }
  }

  /** A progress message carries no new id: it shows a running job as it was when
      the running jobs were listed. */
  lemma {:induction false} ProgressFaithful(listed: Sys, s: Sys, p: Picture, j: JobId)
    requires Later(listed, s) && Faithful(listed, p) && Faithful(s, p) && listed.db.GetJob(j) == Some(Status.Running)
    ensures Faithful(s, p.Apply(Upserted(j, Status.Running, p.cursor)))
    ensures Faithful(listed, p.Apply(Upserted(j, Status.Running, p.cursor)))
  {
    assert View(listed.db, j) == View(s.db, j) || j in s.books.muted || Behind(s, j, p.cursor);
  }

  // ---- One connection

  /** A client that received the first k messages and was then cut off. */
  ghost predicate CutSafe(s: Sys, from: Picture, out: seq<Msg>, k: nat)
    requires k <= |out|
  {
    var p := from.After(out[..k]);
    Faithful(s, p) && Covered(s.db, out[..k], from.cursor, p.cursor)
  }

  ghost predicate CutsSafe(s: Sys, from: Picture, out: seq<Msg>) {
    forall k :: 0 <= k <= |out| ==> CutSafe(s, from, out, k)
  }

  lemma {:induction false} CutsLater(s: Sys, t: Sys, from: Picture, out: seq<Msg>)
    requires Inv(s) && Inv(t) && Later(s, t) && CutsSafe(s, from, out)
    ensures CutsSafe(t, from, out)
  {
    hide Inv, Later, Covered, Faithful;
    forall k | 0 <= k <= |out|
      ensures CutSafe(t, from, out, k)
    {
      assert CutSafe(s, from, out, k);
      var p := from.After(out[..k]);
      FaithfulLater(s, t, p);
      CursorStored(s, p);
      CoveredLater(s, t, out[..k], from.cursor, p.cursor);
    }
  }

  lemma {:induction false} CursorStored(s: Sys, p: Picture)
    requires Faithful(s, p)
    ensures p.cursor < s.db.nextId
  {
  }

  lemma {:induction false} OneMore(s: Sys, from: Picture, out: seq<Msg>, msg: Msg)
    requires CutsSafe(s, from, out)
    requires Faithful(s, from.After(out).Apply(msg))
    requires Covered(s.db, out + [msg], from.cursor, from.After(out).Apply(msg).cursor)
    ensures from.After(out + [msg]) == from.After(out).Apply(msg)
    ensures CutsSafe(s, from, out + [msg])
  {
    hide Covered, Faithful;
    var now := out + [msg];
    assert now[..|now| - 1] == out;
    forall k | 0 <= k <= |now|
      ensures CutSafe(s, from, now, k)
    {
      if k < |now| {
        assert now[..k] == out[..k];
        assert CutSafe(s, from, out, k);
      } else {
        assert now[..k] == now;
      }
    }
  }

  lemma {:induction false} LastCutSafe(s: Sys, from: Picture, out: seq<Msg>)
    requires CutsSafe(s, from, out)
    ensures Faithful(s, from.After(out)) && Covered(s.db, out, from.cursor, from.After(out).cursor)
  {
    assert CutSafe(s, from, out, |out|);
    assert out[..|out|] == out;
  }

  lemma {:induction false} OneMoreAfter(from: Picture, out: seq<Msg>, msg: Msg)
    ensures from.After(out + [msg]) == from.After(out).Apply(msg)
  {
    assert (out + [msg])[..|out|] == out;
  }

  lemma {:induction false} CoveredMore(db: Store, out: seq<Msg>, start: nat, cursor: nat, msg: Msg)
    requires Covered(db, out, start, cursor)
    ensures Covered(db, out + [msg], start, cursor)
  {
    var now := out + [msg];
    forall e | e in db.log && db.log[e].kind.IsMilestone() && start < e <= cursor && !Due(db, db.log[e].job, cursor)
      ensures exists i :: 0 <= i < |now| && now[i].job == db.log[e].job && e <= now[i].id
    {
      var i :| 0 <= i < |out| && out[i].job == db.log[e].job && e <= out[i].id;
      assert now[i] == out[i];
    }
  }

  /** The last job sent is the one of the page's last event. */
  lemma {:induction false} EndOfPage(read: Sys, s: Sys, page: seq<Frame>, latest: map<JobId, Pending>, order: seq<JobId>, from: nat)
    requires Sending(read, s, page, latest, order, from)
    ensures Before(latest, order, |order|, from) == Cursor(page, from)
  {
    hide Inv, Later;
    var last := page[|page| - 1];
    assert last.ev.job in latest;
    LastOf(read, page, latest, from, last.ev.job);
    var q :| 0 <= q < |order| && order[q] == last.ev.job;
    LastOf(read, page, latest, from, order[|order| - 1]);
  }

  /** ListJobs: up to limit of the jobs with the wanted status, all of them when
      they fit. The order (newest first) is not modelled. */
  method ListJobs(db: Store, wanted: Option<Status>, limit: nat) returns (ids: seq<JobId>)
    ensures |ids| <= limit
    ensures forall i, k :: 0 <= i < k < |ids| ==> ids[i] != ids[k]
    ensures forall j :: j in ids ==> j in db.jobs && (wanted.Some? ==> db.jobs[j].status == wanted.value)
    ensures |ids| < limit ==> forall j :: j in db.jobs && (wanted.Some? ==> db.jobs[j].status == wanted.value) ==> j in ids
  {
    ids := [];
    var rest := db.jobs.Keys;
    while rest != {} && |ids| < limit
      invariant |ids| <= limit && rest <= db.jobs.Keys
      invariant forall i, k :: 0 <= i < k < |ids| ==> ids[i] != ids[k]
      invariant forall j :: j in ids ==>
        j in db.jobs && j !in rest && (wanted.Some? ==> db.jobs[j].status == wanted.value)
      invariant forall j :: j in db.jobs && (wanted.Some? ==> db.jobs[j].status == wanted.value) ==> j in ids || j in rest
      decreases rest
    {
      var j :| j in rest;
      rest := rest - {j};
      if wanted.None? || db.jobs[j].status == wanted.value {
        ids := ids + [j];
      }
    }
  }

  lemma {:induction false} StaysDeleted(read: Sys, s: Sys, j: JobId)
    requires Inv(s) && Later(read, s) && j in read.db.tombs
    ensures s.db.GetJob(j).None?
  {
  }

  ghost predicate NothingDue(db: Store, cursor: nat) {
    forall e :: e in db.log && db.log[e].kind.IsMilestone() ==> e <= cursor
  }

  lemma {:induction false} MilestonesRead(db: Store, after: nat, ids: seq<nat>, page: seq<Frame>)
    requires ids == db.ListAfter(Milestones, after, PAGE_SIZE) && |page| == |ids|
    requires forall i :: 0 <= i < |ids| ==> ids[i] in db.log && page[i] == Frame(ids[i], db.log[ids[i]])
    requires forall e :: e in db.log ==> e < db.nextId
    ensures PageOf(db, page, after)
    ensures |page| < PAGE_SIZE ==> NothingDue(db, Cursor(page, after))
  {
    PageExact(db, Milestones, after, PAGE_SIZE);
    forall i | 0 <= i < |page|
      ensures after < page[i].id < db.nextId && page[i].ev.kind.IsMilestone()
    {
      assert ids[i] in ids;
    }
    forall e | e in db.log && db.log[e].kind.IsMilestone() && after < e && (|page| < PAGE_SIZE || e <= page[|page| - 1].id)
      ensures exists i :: 0 <= i < |page| && page[i].id == e
    {
      assert e in ids;
      var i :| 0 <= i < |ids| && ids[i] == e;
      assert page[i].id == e;
    }
  }

  /** The progress of jobs, however it is computed. */
  method ProgressOf(running: seq<JobId>) returns (progress: seq<real>)
    ensures |progress| == |running|
  {
    progress := seq(|running|, _ => 0.0);
    var any: seq<real> := *;
    if |any| == |running| {
      progress := any;
    }
  }

  /** A round of progress: the running jobs as listed, their progress, and which moved. */
  datatype Push = Push(listed: Sys, running: seq<JobId>, progress: seq<real>, moved: seq<nat>) {
    ghost predicate Reads(s: Sys, t: Sys) {
      Later(s, listed) && Later(listed, t) && Listed()
    }

    ghost predicate Listed() {
      && |progress| == |running|
      && (forall j :: j in running ==> StatusIs(listed, j, Status.Running))
      && (|running| < PROGRESS_JOBS ==> forall j :: StatusIs(listed, j, Status.Running) ==> j in running)
    }

    ghost predicate Sends(sent: map<JobId, real>)
      requires |progress| == |running|
    {
      && (forall i :: 0 <= i < |moved| ==> moved[i] < |running|)
      && forall i :: 0 <= i < |running| ==> (i in moved <==> running[i] !in sent || sent[running[i]] != progress[i])
    }

    /** One message about each running job whose progress is not the one last sent, and
        from then on the progress just read is the one last sent. */
    ghost predicate Moves(was: map<JobId, real>, sent: map<JobId, real>, before: seq<Msg>, out: seq<Msg>) {
      && |progress| == |running| && Sends(was)
      && |out| == |before| + |moved|
      && (forall i :: 0 <= i < |moved| ==> out[|before| + i].job == running[moved[i]])
      && (forall j :: j in sent <==> j in running)
      && (forall i :: 0 <= i < |running| ==> sent[running[i]] == progress[i])
    }
  }

  /** What was sent so far: the earlier progress of jobs still running, and the new one
      of those done. */
  ghost predicate Sent(sent: map<JobId, real>, was: map<JobId, real>, running: seq<JobId>, progress: seq<real>, done: seq<nat>)
    requires |running| == |progress|
  {
    && (forall j :: j in sent ==> j in running)
    && (forall i :: 0 <= i < |running| && i in done ==> running[i] in sent && sent[running[i]] == progress[i])
    && (forall i :: 0 <= i < |running| && i !in done && running[i] in was ==>
          running[i] in sent && sent[running[i]] == was[running[i]])
  }

  lemma {:induction false} SentMore(sent: map<JobId, real>, was: map<JobId, real>, running: seq<JobId>, progress: seq<real>, done: seq<nat>, i: nat)
    requires |running| == |progress| && Sent(sent, was, running, progress, done) && i < |running|
    requires forall k, l :: 0 <= k < l < |running| ==> running[k] != running[l]
    ensures Sent(sent[running[i] := progress[i]], was, running, progress, done + [i])
  {
  }

  lemma SentNone(was: map<JobId, real>, running: seq<JobId>, progress: seq<real>)
    requires |running| == |progress|
    ensures Sent(map j | j in was && j in running :: was[j], was, running, progress, [])
  {
  }

  lemma {:induction false} SentAll(sent: map<JobId, real>, was: map<JobId, real>, push: Push, before: seq<Msg>, out: seq<Msg>)
    requires |push.running| == |push.progress| && push.Sends(was)
    requires Sent(sent, was, push.running, push.progress, push.moved)
    requires |out| == |before| + |push.moved|
    requires forall i :: 0 <= i < |push.moved| ==> out[|before| + i].job == push.running[push.moved[i]]
    ensures push.Moves(was, sent, before, out)
  {
    forall i | 0 <= i < |push.running|
      ensures push.running[i] in sent && sent[push.running[i]] == push.progress[i]
    {
      assert i in push.moved || i !in push.moved;
    }
  }

  class Feed {
    const world: World
    const from: Picture
    var lastID: nat
    var out: seq<Msg>
    var sent: map<JobId, real>
    ghost var drains: nat   // drains begun
    ghost var pushes: nat   // and progress rounds

    ghost predicate Valid()
      reads this, world
    {
      && Inv(world.s) && CutsSafe(world.s, from, out) && lastID == from.After(out).cursor
      && Rising(out, from.cursor) && lastID == if out == [] then from.cursor else out[|out| - 1].id
    }

    constructor (world: World, from: Picture)
      requires Inv(world.s) && Faithful(world.s, from)
      ensures Valid() && this.world == world && this.from == from && out == []
    {
      this.world, this.from, lastID, out, sent := world, from, from.cursor, [], map[];
      drains, pushes := 0, 0;
      new;
      hide Inv;
      assert CutSafe(world.s, from, out, 0);
    }

    method Interfere()
      requires Valid()
      modifies world`s
      ensures Valid() && Later(old(world.s), world.s)
    {
      hide Inv, Later;
      world.Interfere();
      CutsLater(old(world.s), world.s, from, out);
    }

    /** The write of one message; the cursor moves only when it went through. */
    method Write(msg: Msg) returns (ok: bool)
      requires Valid() && lastID <= msg.id
      requires Faithful(world.s, from.After(out).Apply(msg))
      requires Covered(world.s.db, out + [msg], from.cursor, from.After(out).Apply(msg).cursor)
      modifies this`lastID, this`out, world`trouble
      ensures Valid() && world.trouble == old(world.trouble) + if ok then 0 else 1
      ensures ok ==> out == old(out) + [msg] && lastID == msg.id
      ensures !ok ==> out == old(out)
    {
      hide Inv, Faithful, Covered, CutsSafe;
      var gone := world.Fails();
      ok := !gone;
      if ok {
        OneMore(world.s, from, out, msg);
        out, lastID := out + [msg], msg.id;
      }
    }

    method ReadMilestones() returns (page: seq<Frame>)
      requires Valid()
      ensures |page| <= PAGE_SIZE
      ensures PageOf(world.s.db, page, lastID)
      ensures |page| < PAGE_SIZE ==> NothingDue(world.s.db, Cursor(page, lastID))
    {
      hide PageOf, NothingDue, Inv, CutsSafe;
      var db := world.s.db;
      var ids := db.ListAfter(Milestones, lastID, PAGE_SIZE);
      PageExact(db, Milestones, lastID, PAGE_SIZE);
      page := seq(|ids|, i requires 0 <= i < |ids| && ids[i] in db.log => Frame(ids[i], db.log[ids[i]]));
      StoredBelow(world.s);
      MilestonesRead(db, lastID, ids, page);
    }

    /** The k-th job of a page: its deletion, or its snapshot read now. */
    method SendJob(ghost read: Sys, page: seq<Frame>, latest: map<JobId, Pending>, order: seq<JobId>, ghost start: nat, k: nat)
      returns (result: End)
      requires Valid() && Sending(read, world.s, page, latest, order, start) && k < |order|
      requires lastID == Before(latest, order, k, start)
      modifies world`s, world`trouble, this`lastID, this`out
      ensures Valid() && Sending(read, world.s, page, latest, order, start) && Later(old(world.s), world.s)
      ensures result.Complete? ==> lastID == latest[order[k]].id && |out| == |old(out)| + 1 && out[|out| - 1].job == order[k]
      ensures old(out) <= out && world.trouble == old(world.trouble) + if result.Complete? then 0 else 1
    {
      hide Inv, Later, Faithful, Covered, CutsSafe, PageOf, LatestOf;
      var job, pending := order[k], latest[order[k]];
      LaterRefl(world.s);
      OrderedAbove(page, latest, order, start, read, k);
      LastOf(read, page, latest, start, job);
      StoredBelow(read);
      var msg := Deleted(job, pending.id);
      if pending.deleted {
        StaysDeleted(read, world.s, job);
      } else {
        ghost var was := world.s;
        Interfere();
        LaterTrans(read, was, world.s);
        var failed := world.Fails();
        if failed {
          return Open;
        }
        var status := world.s.db.GetJob(job);
        if status.Some? {
          msg := Upserted(job, status.value, pending.id);
        }
      }
      LastCutSafe(world.s, from, out);
      SentFaithful(read, world.s, page, latest, order, start, k, from.After(out), msg);
      SentCovered(read, world.s, page, latest, order, start, k, out, from.cursor, msg);
      var ok := Write(msg);
      return if ok then Complete else Gone;
    }

    method SendPage(ghost read: Sys, page: seq<Frame>, latest: map<JobId, Pending>, order: seq<JobId>, ghost start: nat)
      returns (result: End)
      requires Valid() && Sending(read, world.s, page, latest, order, start)
      requires lastID == Before(latest, order, 0, start)
      modifies world`s, world`trouble, this`lastID, this`out
      ensures Valid() && Sending(read, world.s, page, latest, order, start) && Later(old(world.s), world.s)
      ensures result.Complete? ==> lastID == Before(latest, order, |order|, start)
      ensures old(out) <= out && world.trouble == old(world.trouble) + if result.Complete? then 0 else 1
    {
      hide Inv, Later, Faithful, Covered, CutsSafe, PageOf, LatestOf, Rising;
      LaterRefl(world.s);
      var k := 0;
      while k < |order|
        invariant 0 <= k <= |order| && old(out) <= out && world.trouble == old(world.trouble)
        invariant Valid() && Later(old(world.s), world.s)
        invariant Sending(read, world.s, page, latest, order, start)
        invariant lastID == Before(latest, order, k, start)
      {
        ghost var now := world.s;
        result := SendJob(read, page, latest, order, start, k);
        LaterTrans(old(world.s), now, world.s);
        if !result.Complete? {
          return result;
        }
        k := k + 1;
      }
      return Complete;
    }

    /** One page: every job of it once, in the order of their last milestones. more: the
        page was full. */
    method DrainPage() returns (result: End, more: bool, ghost at: Sys)
      requires Valid()
      modifies world`s, world`trouble, this`lastID, this`out
      ensures Valid() && Later(old(world.s), world.s) && old(out) <= out
      ensures Later(old(world.s), at) && Later(at, world.s)
      ensures result.Complete? && !more ==> NothingDue(at.db, lastID)
      ensures world.trouble == old(world.trouble) + if result.Complete? then 0 else 1
    {
      hide Inv, Later, Faithful, Covered, CutsSafe, PageOf, LatestOf, NothingDue, Rising;
      Interfere();
      at, more := world.s, false;
      LaterRefl(at);
      ghost var start := lastID;
      var failed := world.Fails();
      if failed {
        return Open, more, at;
      }
      var page := ReadMilestones();
      if page == [] {
        return Complete, more, at;
      }
      var latest, order := Collect(at.db, page, lastID);
      Interfere();  // the status counts sent along are read here
      LaterTrans(old(world.s), at, world.s);
      failed := world.Fails();
      if failed {
        return Open, more, at;
      }
      ghost var now := world.s;
      result := SendPage(at, page, latest, order, start);
      LaterTrans(old(world.s), now, world.s);
      LaterTrans(at, now, world.s);
      if result.Complete? {
        EndOfPage(at, world.s, page, latest, order, start);
      }
      return result, |page| >= PAGE_SIZE, at;
    }

    /** drain: page after page. Complete only when nothing stored was left to send. */
    method Drain() returns (result: End, ghost at: Sys)
      requires Valid()
      modifies world`s, world`trouble, this`lastID, this`out, this`drains
      ensures Valid() && Later(old(world.s), world.s) && world.trouble >= old(world.trouble)
      ensures result.Complete? ==> Later(old(world.s), at) && Later(at, world.s) && NothingDue(at.db, lastID)
      // nothing else keeps it from completing
      ensures result.Complete? <==> world.trouble == old(world.trouble)
      ensures old(out) <= out && drains == old(drains) + 1
    {
      hide Inv, Later, NothingDue, CutsSafe, Rising, Picture.After, Faithful;
      drains := drains + 1;
      LaterRefl(world.s);
      at := world.s;
      var patience: nat := *;
      while patience > 0
        invariant Valid() && Later(old(world.s), world.s) && old(out) <= out
        invariant world.trouble == old(world.trouble) && drains == old(drains) + 1
      {
        ghost var before := world.s;
        var more;
        result, more, at := DrainPage();
        LaterTrans(old(world.s), before, world.s);
        LaterTrans(old(world.s), before, at);
        if !result.Complete? || !more {
          return result, at;
        }
        patience := patience - 1;
      }
      world.EndsHere();
      return Open, at;
    }

    /** The running jobs whose progress is not the one last sent. */
    method Moved(running: seq<JobId>, progress: seq<real>) returns (moved: seq<nat>)
      requires |progress| == |running|
      ensures forall k :: 0 <= k < |moved| ==> moved[k] < |running|
      ensures forall i :: 0 <= i < |running| ==>
        (i in moved <==> running[i] !in sent || sent[running[i]] != progress[i])
    {
      moved := [];
      var i := 0;
      while i < |running|
        invariant 0 <= i <= |running|
        invariant forall k :: 0 <= k < |moved| ==> moved[k] < i
        invariant forall k :: 0 <= k < i ==> (k in moved <==> running[k] !in sent || sent[running[k]] != progress[k])
      {
        if running[i] !in sent || sent[running[i]] != progress[i] {
          moved := moved + [i];
        }
        i := i + 1;
      }
    }

    /** pushProgress: each running job whose progress moved since it was last sent,
        at the cursor already reached. */
    method PushProgress() returns (result: End, ghost push: Push)
      requires Valid()
      modifies this`out, this`lastID, this`sent, this`pushes, world`s, world`trouble
      ensures Valid() && Later(old(world.s), world.s) && lastID == old(lastID)
      ensures old(out) <= out && world.trouble >= old(world.trouble) && pushes == old(pushes) + 1
      ensures forall i :: |old(out)| <= i < |out| ==>
        out[i] == Upserted(out[i].job, Status.Running, lastID) && out[i].job in sent
      // and unless something fails, the round is complete
      ensures result.Complete? <==> world.trouble == old(world.trouble)
      ensures result.Complete? ==> push.Reads(old(world.s), world.s) && push.Moves(old(sent), sent, old(out), out)
    {
      hide Inv, Later, Faithful, CutsSafe, Picture.After, Rising, Sent, Push.Sends, Push.Moves;
      pushes := pushes + 1;
      LaterRefl(world.s);
      Interfere();
      ghost var listed, was := world.s, sent;
      LaterRefl(listed);
      LastCutSafe(listed, from, out);
      push := Push(listed, [], [], []);
      var failed := world.Fails();
      if failed {
        return Open, push;
      }
      var running, progress, moved;
      running, progress, moved, push := ReadProgress();
      if moved == [] {
        SentAll(sent, was, push, old(out), out);
        return Complete, push;
      }
      Interfere();
      LaterTrans(old(world.s), listed, world.s);
      failed := world.Fails();
      if failed {
        return Open, push;
      }
      result := PushMoved(listed, was, running, progress, moved);
      if result.Complete? {
        SentAll(sent, was, push, old(out), out);
      }
      return result, push;
    }

    /** The running jobs, their progress, and which of it moved. */
    method ReadProgress() returns (running: seq<JobId>, progress: seq<real>, moved: seq<nat>, ghost push: Push)
      modifies this`sent
      ensures push == Push(world.s, running, progress, moved) && |progress| == |running|
      ensures forall i, k :: 0 <= i < k < |running| ==> running[i] != running[k]
      ensures forall k :: 0 <= k < |moved| ==> moved[k] < |running|
      ensures forall j :: j in running ==> StatusIs(world.s, j, Status.Running)
      ensures push.Listed() && push.Sends(old(sent)) && Sent(sent, old(sent), running, progress, [])
    {
      running := ListJobs(world.s.db, Some(Status.Running), PROGRESS_JOBS);
      progress := ProgressOf(running);
      moved := Moved(running, progress);
      push := Push(world.s, running, progress, moved);
      SentNone(sent, running, progress);
      sent := map j | j in sent && j in running :: sent[j];
    }

    /** One message about a running job, at the cursor already reached. */
    method PushOne(ghost listed: Sys, job: JobId) returns (ok: bool)
      requires Valid() && Later(listed, world.s) && Inv(listed) && Faithful(listed, from.After(out))
      requires StatusIs(listed, job, Status.Running)
      modifies this`out, this`lastID, world`trouble
      ensures Valid() && lastID == old(lastID) && world.trouble == old(world.trouble) + if ok then 0 else 1
      ensures out == if ok then old(out) + [Upserted(job, Status.Running, lastID)] else old(out)
      ensures Faithful(listed, from.After(out))
    {
      hide Inv, Later, Faithful, Covered, CutsSafe, Picture.After, Rising;
      LastCutSafe(world.s, from, out);
      ProgressFaithful(listed, world.s, from.After(out), job);
      var msg := Upserted(job, Status.Running, lastID);
      CoveredMore(world.s.db, out, from.cursor, lastID, msg);
      OneMoreAfter(from, out, msg);
      ok := Write(msg);
    }

    /** One message about each job that moved. */
    method PushMoved(ghost listed: Sys, ghost was: map<JobId, real>, running: seq<JobId>, progress: seq<real>, moved: seq<nat>)
      returns (result: End)
      requires Valid() && Later(listed, world.s) && Inv(listed) && Faithful(listed, from.After(out))
      requires |progress| == |running| && forall j :: j in running ==> StatusIs(listed, j, Status.Running)
      requires Sent(sent, was, running, progress, [])
      requires forall i, k :: 0 <= i < k < |running| ==> running[i] != running[k]
      requires forall k :: 0 <= k < |moved| ==> moved[k] < |running|
      modifies this`out, this`lastID, this`sent, world`trouble
      ensures Valid() && lastID == old(lastID) && old(out) <= out
      ensures world.trouble >= old(world.trouble) && (result.Complete? <==> world.trouble == old(world.trouble))
      ensures forall k :: |old(out)| <= k < |out| ==>
        out[k] == Upserted(out[k].job, Status.Running, lastID) && out[k].job in sent
      ensures result.Complete? ==>
        && |out| == |old(out)| + |moved| && Sent(sent, was, running, progress, moved)
        && forall i :: 0 <= i < |moved| ==> out[|old(out)| + i].job == running[moved[i]]
    {
      hide Inv, Later, Faithful, CutsSafe, Rising, Picture.After, Sent;
      var i := 0;
      while i < |moved|
        invariant 0 <= i <= |moved| && |out| == |old(out)| + i
        invariant Valid() && lastID == old(lastID) && old(out) <= out
        invariant world.trouble == old(world.trouble)
        invariant Faithful(listed, from.After(out))
        invariant forall k :: |old(out)| <= k < |out| ==>
          && out[k] == Upserted(running[moved[k - |old(out)|]], Status.Running, lastID)
          && out[k].job in sent
        invariant Sent(sent, was, running, progress, moved[..i])
      {
        var job := running[moved[i]];
        assert job in running;
        var ok := PushOne(listed, job);
        if !ok {
          return Gone;
        }
        assert moved[..i + 1] == moved[..i] + [moved[i]];
        SentMore(sent, was, running, progress, moved[..i], moved[i]);
        sent := sent[job := progress[moved[i]]];
        i := i + 1;
      }
      assert moved[..i] == moved;
      return Complete;
    }

    /** runDownloadsFeed, until the client is gone or the observation ends; at is when the
        last drain read. */
    method Run() returns (ghost at: Sys)
      requires Valid()
      modifies this, world
      ensures Valid() && Later(old(world.s), world.s)
      // a drain at the start and on each wake, a progress round on each tick
      ensures world.trouble >= old(world.trouble)
      ensures world.trouble == old(world.trouble) ==>
        && drains - old(drains) == 1 + (world.wakes - old(world.wakes))
        && pushes - old(pushes) == world.ticks - old(world.ticks)
        && Later(old(world.s), at) && Later(at, world.s) && NothingDue(at.db, lastID)
    {
      hide Inv, Later, CutsSafe, Rising, Faithful, NothingDue;
      ghost var push;
      var result;
      result, at := Drain();
      var rounds: nat := *;
      while !result.Gone? && rounds > 0
        invariant Valid() && Later(old(world.s), world.s)
        invariant world.trouble >= old(world.trouble)
        invariant world.trouble == old(world.trouble) ==>
          && drains - old(drains) == 1 + (world.wakes - old(world.wakes))
          && pushes - old(pushes) == world.ticks - old(world.ticks)
          && Later(old(world.s), at) && Later(at, world.s) && NothingDue(at.db, lastID)
      {
        ghost var before, drained := world.s, at;
        LaterRefl(before);
        var woken := world.Woken();
        if woken {
          result, at := Drain();
          if result.Complete? {
            LaterTrans(old(world.s), before, at);
          }
        } else {
          var ticked := world.Ticked();
          if ticked {
            result, push := PushProgress();
          } else {
            var gone := world.Fails();
            result := if gone then Gone else Open;
          }
          if world.trouble == old(world.trouble) {
            LaterTrans(drained, before, world.s);
          }
        }
        LaterTrans(old(world.s), before, world.s);
        rounds := rounds - 1;
      }
    }
  }

  // ---- The follower

  function LatestId(db: Store, below: nat): (id: nat)
    ensures id < below || id == 0
    ensures forall e :: e in db.log && e < below ==> e <= id
  {
    if below == 0 then 0
    else if below - 1 in db.log then below - 1
    else LatestId(db, below - 1)
  }

  /** GET /downloads: the cursor is read before the list. */
  method Downloads(world: World) returns (ok: bool, p: Picture)
    requires Inv(world.s)
    modifies world`s, world`trouble
    ensures Inv(world.s) && Later(old(world.s), world.s)
    ensures ok ==> Faithful(world.s, p)
    ensures ok && |p.shown| < SNAPSHOT_LIMIT ==> p.unseen == {}
    ensures ok <==> world.trouble == old(world.trouble)
    ensures world.trouble >= old(world.trouble)
  {
    hide Inv, Later;
    world.Interfere();
    ghost var first := world.s;
    var cursor := LatestId(world.s.db, world.s.db.nextId);
    SomeIdFree(world.s);
    world.Interfere();
    LaterTrans(old(world.s), first, world.s);
    NextIdGrows(first, world.s);
    var failed := world.Fails();
    ok := !failed;
    var db := world.s.db;
    var ids := ListJobs(db, None, SNAPSHOT_LIMIT);
    var shown := map j | j in ids && j in db.jobs :: db.jobs[j].status;
    p := Picture(shown, cursor, db.jobs.Keys - shown.Keys);
    if |shown| < SNAPSHOT_LIMIT {
      assert shown.Keys == Members(ids);
      DistinctCount(ids);
    }
  }

  lemma {:induction false} DistinctCount(ids: seq<JobId>)
    requires forall i, k :: 0 <= i < k < |ids| ==> ids[i] != ids[k]
    ensures |Members(ids)| == |ids|
  {
    if ids == [] {
      assert Members(ids) == {};
    } else {
      var front, last := ids[..|ids| - 1], ids[|ids| - 1];
      DistinctCount(front);
      assert ids == front + [last];
      assert Members(ids) == Members(front) + {last};
      assert last !in Members(front);
    }
  }

  /** How the server writes a message: under its decimal id, each field one line. */
  ghost predicate Writes(text: Msg -> Sse.Event) {
    forall msg :: text(msg).id == Sse.Decimal(msg.id) && Sse.Plain(text(msg))
  }

  /** No message is too long for the client. */
  ghost predicate AllFit(text: Msg -> Sse.Event) {
    forall msg :: Sse.Fits(Sse.Message(text(msg)))
  }

  lemma EachFits(msgs: seq<Msg>, text: Msg -> Sse.Event)
    requires AllFit(text)
    ensures SseWire.Fit(msgs, text)
  {
  }

  lemma {:induction false} WritesRender(text: Msg -> Sse.Event)
    requires Writes(text)
    ensures SseWire.Renders(text)
  {
    forall msg: Msg
      ensures text(msg).id != "" && Sse.Plain(text(msg))
    {
      assert text(msg).id == Sse.Decimal(msg.id);
    }
  }

  /** Client.Stream on the feed, the server and a connection that may break at any byte
      included: the messages that arrive are the first ones sent, and applying them
      leaves a faithful picture. A cursor the server does not take is rejected. */
  method Connect(world: World, p: Picture, text: Msg -> Sse.Event) returns (rejected: bool, got: seq<Msg>, ghost at: Sys)
    requires Inv(world.s) && Faithful(world.s, p) && Writes(text)
    modifies world
    ensures Inv(world.s) && Later(old(world.s), world.s)
    ensures Faithful(world.s, p.After(got)) && Rising(got, p.cursor)
    ensures rejected ==> got == [] && p.cursor > Sse.MAX_CURSOR
    ensures world.trouble >= old(world.trouble)
    // and when neither server nor connection fails, nothing stored at some moment of the
    // connection is left behind
    ensures !rejected && world.trouble == old(world.trouble) && AllFit(text) ==>
      Later(old(world.s), at) && Later(at, world.s) && NothingDue(at.db, p.After(got).cursor)
  {
    hide Inv, Later, Faithful, CutsSafe, Writes, NothingDue, AllFit, SseWire.Fit;
    at := world.s;
    var raw := Sse.Decimal(p.cursor);
    var parsed := Sse.StreamCursor("", raw);
    if parsed.Err? {
      LaterRefl(world.s);
      return true, [], at;
    }
    SseWire.CursorExact(p.cursor);
    ghost var before := world.s;
    var feed := new Feed(world, p.(cursor := parsed.value));
    at := feed.Run();
    FaithfulLater(before, world.s, p);
    WritesRender(text);
    var broken := world.Fails();
    var lastID, delivered := SseWire.Transmit(feed.out, raw, text, broken);
    got := feed.out[..|delivered|];
    ReceivedFaithful(world.s, p, feed.out, |delivered|);
    if AllFit(text) {
      EachFits(feed.out, text);
    }
    assert |got| == |feed.out| ==> got == feed.out;
    return false, got, at;
  }

  /** What FollowFeed reads: a list, a stream until it breaks, from a cursor, or an
      answer that rejects the cursor. */
  datatype FeedRead = NoList | Listed(list: Picture) | Streamed(from: nat, got: seq<Msg>) | Rejected(cursor: nat)

  /** What is read when nothing fails: only a cursor the server does not take is rejected. */
  predicate Untroubled(r: FeedRead) {
    !r.NoList? && (r.Rejected? ==> r.cursor > Sse.MAX_CURSOR)
  }

  /** The latest list read, and what arrived since. */
  function LatestList(heard: seq<FeedRead>): Option<Picture> {
    if heard == [] then None
    else if heard[|heard| - 1].Listed? then Some(heard[|heard| - 1].list)
    else LatestList(heard[..|heard| - 1])
  }

  function Arrived(heard: seq<FeedRead>): seq<Msg> {
    if heard == [] || heard[|heard| - 1].Listed? then []
    else Arrived(heard[..|heard| - 1]) + if heard[|heard| - 1].Streamed? then heard[|heard| - 1].got else []
  }

  /** A list is wanted until there is one, and after a rejected cursor. */
  predicate WantsList(heard: seq<FeedRead>) {
    heard == [] || heard[|heard| - 1].NoList? || heard[|heard| - 1].Rejected?
  }

  /** Each thing was read in its turn: a list when one was wanted, and otherwise a stream
      from the highest id there was. */
  ghost predicate InTurn(heard: seq<FeedRead>) {
    forall i :: 0 <= i < |heard| ==> TurnAt(heard[..i], heard[i])
  }

  ghost predicate TurnAt(before: seq<FeedRead>, next: FeedRead) {
    match next
    case NoList => WantsList(before)
    case Listed(_) => WantsList(before)
    case Streamed(from, _) => !WantsList(before) && LatestList(before).Some? && from == Reached(before)
    case Rejected(cursor) => !WantsList(before) && LatestList(before).Some? && cursor == Reached(before)
  }

  function Reached(heard: seq<FeedRead>): nat {
    if LatestList(heard).None? then 0 else Highest(LatestList(heard).value.cursor, Arrived(heard))
  }

  lemma {:induction false} OneRead(heard: seq<FeedRead>, next: FeedRead)
    requires InTurn(heard) && TurnAt(heard, next)
    ensures InTurn(heard + [next])
    ensures LatestList(heard + [next]) == if next.Listed? then Some(next.list) else LatestList(heard)
    ensures Arrived(heard + [next]) ==
      if next.Listed? then [] else Arrived(heard) + if next.Streamed? then next.got else []
    ensures WantsList(heard + [next]) <==> next.NoList? || next.Rejected?
  {
    var all := heard + [next];
    assert all[..|heard|] == heard;
    forall i | 0 <= i < |all|
      ensures TurnAt(all[..i], all[i])
    {
      assert i < |heard| ==> all[..i] == heard[..i];
    }
  }

  /** FollowFeed: a list, then one stream after another, each resumed from the last
      message received. The picture is faithful at every moment, and it is the latest
      list with everything that arrived since. */
  method FollowFeed(world: World, text: Msg -> Sse.Event) returns (started: bool, p: Picture, ghost heard: seq<FeedRead>)
    requires Inv(world.s) && Writes(text)
    modifies world
    ensures Inv(world.s) && Later(old(world.s), world.s)
    ensures started ==> Faithful(world.s, p)
    ensures InTurn(heard) && (started <==> LatestList(heard).Some?)
    ensures started ==> Applied(p, LatestList(heard).value, Arrived(heard))
    ensures world.trouble >= old(world.trouble)
    ensures world.trouble == old(world.trouble) ==> forall i :: 0 <= i < |heard| ==> Untroubled(heard[i])
  {
    hide Inv, Later, Faithful, Writes, InTurn, TurnAt, LatestList, Arrived, Picture.After, Highest, Rising;
    LaterRefl(world.s);
    started, heard := false, [];
    NothingRead();
    p := Picture(map[], 0, {});
    var haveSnapshot := false;
    var rounds: nat := *;
    while rounds > 0
      invariant Inv(world.s) && Later(old(world.s), world.s)
      invariant haveSnapshot ==> started
      invariant started ==> Faithful(world.s, p)
      invariant InTurn(heard) && (haveSnapshot <==> !WantsList(heard)) && (started <==> LatestList(heard).Some?)
      invariant started ==> p == LatestList(heard).value.After(Arrived(heard))
      invariant world.trouble >= old(world.trouble)
      invariant world.trouble == old(world.trouble) ==> forall i :: 0 <= i < |heard| ==> Untroubled(heard[i])
    {
      ghost var before := world.s;
      ghost var next := NoList;
      if !haveSnapshot {
        var ok, list := Downloads(world);
        if ok {
          next := Listed(list);
          p, started, haveSnapshot := list, true, true;
        } else if started {
          FaithfulLater(before, world.s, p);
        }
        Turns(heard, next);
      } else {
        AfterApplied(LatestList(heard).value, Arrived(heard));
        var refused := world.Fails();
        if refused {
          next := Rejected(p.cursor);
          haveSnapshot := false;
        } else {
          var rejected, got;
          ghost var at;
          rejected, got, at := Connect(world, p, text);
          next := if rejected then Rejected(p.cursor) else FeedRead.Streamed(p.cursor, got);
          NothingMore(p, got);
          AfterBoth(LatestList(heard).value, Arrived(heard), got);
          p := p.After(got);
          haveSnapshot := !rejected;
        }
        Turns(heard, next);
      }
      AddedNone(Arrived(heard));
      OneRead(heard, next);
      heard := heard + [next];
      if next.Listed? {
        NothingMore(p, []);
      }
      LaterRefl(before);
      LaterTrans(old(world.s), before, world.s);
      rounds := rounds - 1;
    }
    if started {
      AfterApplied(LatestList(heard).value, Arrived(heard));
    }
  }

  lemma NothingRead()
    ensures InTurn([]) && LatestList([]).None? && WantsList([])
  {
  }

  lemma NothingMore(p: Picture, got: seq<Msg>)
    ensures got == [] ==> p.After(got) == p
  {
  }

  lemma AddedNone(msgs: seq<Msg>)
    ensures msgs + [] == msgs
  {
  }

  lemma Turns(heard: seq<FeedRead>, next: FeedRead)
    requires if next.NoList? || next.Listed? then WantsList(heard)
             else !WantsList(heard) && LatestList(heard).Some? && (if next.Streamed? then next.from else next.cursor) == Reached(heard)
    ensures TurnAt(heard, next)
  {
  }

  lemma {:induction false} ReceivedFaithful(s: Sys, from: Picture, out: seq<Msg>, k: nat)
    requires CutsSafe(s, from, out) && k <= |out|
    ensures Faithful(s, from.After(out[..k]))
  {
    assert CutSafe(s, from, out, k);
  }
}

/** SubmitBatch (internal/jobs/submit.go): one batch, while workers, cancels and
    deletes go on around it. submitMu keeps every other submit and retry out. */
module JobSubmit {
  import opened Wrappers
  import opened JobStore
  import opened JobLifecycle
  import opened JobInvariants
  import JobSafety

  /** ValidateRequest's answer: a refusal, its own failure, or the canonical key. */
  datatype Verdict = Refused | Failure | Valid(key: Key)

  datatype Answer =
    | Accepted(job: JobId) | Invalid | DuplicateInRequest
    | DuplicateActive(existing: Option<JobId>) | QueueFull | ServerError

  predicate OneActivePerKey(db: Store) {
    forall i, j ::
      i in db.jobs && j in db.jobs && db.IsActive(i) && db.IsActive(j) && db.jobs[i].key == db.jobs[j].key ==> i == j
  }

  predicate ActiveSince(db: Store, later: Store) {
    forall j :: j in later.jobs && later.IsActive(j) ==> db.IsActive(j) && later.jobs[j].key == db.jobs[j].key
  }

  function Ids(db: Store): set<JobId> {
    db.jobs.Keys + db.tombs.Keys
  }

  predicate SuffixOf(tail: seq<JobId>, all: seq<JobId>) {
    |tail| <= |all| && tail == all[|all| - |tail|..]
  }

  /** What can happen while another actor holds submitMu: no job becomes active, no id
      is new or forgotten, and the queue is only taken from. */
  predicate OthersOnly(db: Store, queue: seq<JobId>, later: Store, left: seq<JobId>) {
    ActiveSince(db, later) && Ids(later) == Ids(db) && SuffixOf(left, queue)
  }

  lemma {:induction false} OthersTrans(db: Store, queue: seq<JobId>, mid: Store, between: seq<JobId>, later: Store, left: seq<JobId>)
    requires OthersOnly(db, queue, mid, between) && OthersOnly(mid, between, later, left)
    ensures OthersOnly(db, queue, later, left)
  {
    SuffixTrans(left, between, queue);
  }

  lemma {:induction false} SuffixMore(tail: seq<JobId>, all: seq<JobId>, id: JobId)
    requires SuffixOf(tail, all)
    ensures SuffixOf(tail + [id], all + [id])
  {
    assert (all + [id])[|all| - |tail|..] == all[|all| - |tail|..] + [id];
  }

  lemma {:induction false} SuffixTrans(a: seq<JobId>, b: seq<JobId>, c: seq<JobId>)
    requires SuffixOf(a, b) && SuffixOf(b, c)
    ensures SuffixOf(a, c)
  {
    assert c[|c| - |b|..][|b| - |a|..] == c[|c| - |a|..];
  }

  lemma {:induction false} OthersSend(db: Store, queue: seq<JobId>, later: Store, left: seq<JobId>, id: JobId)
    requires OthersOnly(db, queue, later, left)
    ensures OthersOnly(db, queue + [id], later, left + [id])
  {
    SuffixMore(left, queue, id);
  }

  lemma {:induction false} NoKeyAgain(db: Store, queue: seq<JobId>, later: Store, left: seq<JobId>, key: Key)
    requires OthersOnly(db, queue, later, left) && !db.HasActive(key)
    ensures !later.HasActive(key)
  {
  }

  lemma {:induction false} LoopTakes(s: Sys, t: Sys, a: Actor, c: Choice)
    requires a in s.actors && LoopNext(s, t, a, c)
    ensures t.line.queue == s.line.queue || (s.line.queue != [] && t.line.queue == s.line.queue[1..])
  {
  }

  lemma {:induction false} RunTakesNothing(s: Sys, t: Sys, a: Actor, c: Choice)
    requires a in s.actors && RunNext(s, t, a, c)
    ensures t.line == s.line
  {
  }

  lemma {:induction false} CallerLeaves(s: Sys, t: Sys, a: Actor, c: Choice)
    requires a in s.actors && !s.actors[a].HoldsSubmit()
    requires CancelNext(s, t, a, c) || RetryNext(s, t, a, c) || SubmitStep(s, t, a, c)
    ensures t.line == s.line
  {
  }

  lemma {:induction false} QueueKept(s: Sys, t: Sys, a: Actor, c: Choice)
    requires a in s.actors && !s.actors[a].HoldsSubmit() && Next(s, t, Step(a, c))
    ensures SuffixOf(t.line.queue, s.line.queue)
  {
    hide LoopNext, RunNext, CancelNext, RetryNext, SubmitStep, Pc.HoldsSubmit;
    if s.actors[a].InLoop() {
      LoopTakes(s, t, a, c);
    } else if s.actors[a].InRun() {
      RunTakesNothing(s, t, a, c);
    } else {
      CallerLeaves(s, t, a, c);
    }
  }

  lemma {:induction false} StoreKept(s: Sys, t: Sys, a: Actor)
    requires a in s.actors && PcOk(s, a, s.actors[a]) && Shaped(s, t, a) && s.locks.submitMu != Some(a)
    ensures Ids(t.db) == Ids(s.db)
    ensures forall j :: j in s.db.jobs && j in t.db.jobs ==> t.db.jobs[j].key == s.db.jobs[j].key
  {
    if SetsMark(s, t, a) || DropsMark(s, t, a) || Dispatches(s, t, a) {
      assert t.db == s.db;
    }
  }

  lemma {:induction false} NothingActivated(s: Sys, t: Sys, a: Actor, c: Choice)
    requires Inv(s) && Next(s, t, Step(a, c)) && s.locks.submitMu != Some(a)
    ensures forall j :: t.db.IsActive(j) ==> s.db.IsActive(j)
  {
    hide Inv, Next;
    forall j | t.db.IsActive(j)
      ensures s.db.IsActive(j)
    {
      if !s.db.IsActive(j) {
        JobSafety.KeysUnique(s, t, a, c, j);
      }
    }
  }

  lemma {:induction false} StepExcluded(s: Sys, t: Sys, a: Actor, c: Choice)
    requires Inv(s) && Next(s, t, Step(a, c)) && s.locks.submitMu != Some(a)
    ensures OthersOnly(s.db, s.line.queue, t.db, t.line.queue)
  {
    assert PcOk(s, a, s.actors[a]);
    StepShape(s, t, a, c);
    NothingActivated(s, t, a, c);
    hide Inv;
    QueueKept(s, t, a, c);
    hide Next, Shaped;
    StoreKept(s, t, a);
  }

  lemma {:induction false} HookExcluded(s: Sys, t: Sys, act: Action)
    requires !act.Step? && Next(s, t, act)
    ensures OthersOnly(s.db, s.line.queue, t.db, t.line.queue)
  {
    assert s.line.queue[0..] == s.line.queue;
  }

  /** The protocol's steps are within that. */
  lemma {:induction false} SubmitMuExcludes(s: Sys, t: Sys, act: Action)
    requires Inv(s) && Next(s, t, act)
    requires s.locks.submitMu.Some? && (act.Step? ==> s.locks.submitMu != Some(act.who))
    ensures OthersOnly(s.db, s.line.queue, t.db, t.line.queue)
  {
    hide Inv, Next, OthersOnly;
    if act.Step? {
      StepExcluded(s, t, act.who, act.choice);
    } else {
      HookExcluded(s, t, act);
    }
  }

  lemma {:induction false} WasActive(db: Store, queue: seq<JobId>, later: Store, left: seq<JobId>, id: JobId)
    requires OthersOnly(db, queue, later, left) && later.IsActive(id)
    ensures db.IsActive(id) && id in later.jobs && db.jobs[id].key == later.jobs[id].key
  {
  }

  lemma {:induction false} NoLonger(db: Store, queue: seq<JobId>, later: Store, left: seq<JobId>)
    requires OthersOnly(db, queue, later, left)
    ensures |left| <= |queue|
  {
  }

  // ---- The first pass

  /** Valid, and no earlier URL of the batch has its key. */
  predicate FirstOfKey(verdicts: seq<Verdict>, i: nat)
    requires i < |verdicts|
  {
    verdicts[i].Valid? && forall k :: 0 <= k < i ==> verdicts[k] != verdicts[i]
  }

  /** The answer a URL has before the store is asked; a candidate has none yet. */
  function Screened(verdicts: seq<Verdict>, i: nat): Option<Answer>
    requires i < |verdicts|
  {
    match verdicts[i]
    case Refused => Some(Invalid)
    case Failure => Some(ServerError)
    case Valid(_) => if FirstOfKey(verdicts, i) then None else Some(DuplicateInRequest)
  }

  method Screen(verdicts: seq<Verdict>) returns (results: seq<Option<Answer>>, candidates: seq<nat>)
    ensures |results| == |verdicts|
    ensures forall i :: 0 <= i < |verdicts| ==> results[i] == Screened(verdicts, i)
    ensures Ascending(candidates)
    ensures forall i :: i in candidates <==> 0 <= i < |verdicts| && FirstOfKey(verdicts, i)
  {
    results, candidates := seq(|verdicts|, _ => None), [];
    var seenKeys: set<Key> := {};
    var i := 0;
    while i < |verdicts|
      invariant 0 <= i <= |verdicts| == |results|
      invariant forall k :: 0 <= k < i ==> results[k] == Screened(verdicts, k)
      invariant forall k :: i <= k < |results| ==> results[k] == None
      invariant forall key :: key in seenKeys <==> Verdict.Valid(key) in verdicts[..i]
      invariant Ascending(candidates)
      invariant forall k :: k in candidates <==> 0 <= k < i && FirstOfKey(verdicts, k)
    {
      match verdicts[i] {
        case Refused => results := results[i := Some(Invalid)];
        case Failure => results := results[i := Some(ServerError)];
        case Valid(key) =>
          if key in seenKeys {
            results := results[i := Some(DuplicateInRequest)];
          } else {
            seenKeys := seenKeys + {key};
            forall k | 0 <= k < |candidates|
              ensures candidates[k] < i
            {
              assert candidates[k] in candidates;
            }
            candidates := candidates + [i];
          }
      }
      i := i + 1;
    }
  }

  // ---- What a batch answers

  /** The jobs accepted, in URL order. */
  function AcceptedIds(results: seq<Option<Answer>>): seq<JobId> {
    if results == [] then []
    else
      var last := results[|results| - 1];
      AcceptedIds(results[..|results| - 1]) + if last.Some? && last.value.Accepted? then [last.value.job] else []
  }

  /** The answer to URL i, given the store and the queue length before the batch. A
      duplicate names a job that was active before the batch; the queue was full only
      if it was so short of slots that the jobs accepted before this URL filled it. */
  ghost predicate AnswerFits(verdicts: seq<Verdict>, newIds: seq<JobId>, db: Store, queued: nat, results: seq<Option<Answer>>, i: nat)
    requires i < |verdicts| == |newIds| == |results|
  {
    && results[i].Some?
    && match Screened(verdicts, i)
       case Some(answer) => results[i].value == answer
       case None =>
         match results[i].value
         case Accepted(job) => job == newIds[i]
         case DuplicateActive(e) =>
           e.Some? && db.IsActive(e.value) && db.jobs[e.value].key == verdicts[i].key
         case QueueFull => queued + |AcceptedIds(results[..i])| >= QUEUE_CAP
         case other => other == ServerError
  }

  /** Once one candidate found the queue full, no later one is tried. */
  ghost predicate FullSticks(verdicts: seq<Verdict>, results: seq<Option<Answer>>, upto: nat)
    requires |verdicts| == |results|
  {
    forall i, k :: 0 <= i < k < upto <= |results| && results[i] == Some(QueueFull) && FirstOfKey(verdicts, k) ==>
      results[k] == Some(QueueFull)
  }

  predicate IsAccepted(result: Option<Answer>) {
    result.Some? && result.value.Accepted?
  }

  lemma {:induction false} NoneAccepted(results: seq<Option<Answer>>, a: nat, b: nat)
    requires a <= b <= |results|
    requires forall i :: a <= i < b ==> !IsAccepted(results[i])
    ensures AcceptedIds(results[..b]) == AcceptedIds(results[..a])
    decreases b
  {
    if a < b {
      assert results[..b][..b - 1] == results[..b - 1];
      NoneAccepted(results, a, b - 1);
    }
  }

  lemma {:induction false} OneAccepted(results: seq<Option<Answer>>, a: nat)
    requires a < |results|
    ensures AcceptedIds(results[..a + 1]) ==
      AcceptedIds(results[..a]) + if IsAccepted(results[a]) then [results[a].value.job] else []
  {
    assert results[..a + 1][..a] == results[..a];
  }

  lemma {:induction false} AcceptedAmong(results: seq<Option<Answer>>, job: JobId)
    requires job in AcceptedIds(results)
    ensures exists i :: 0 <= i < |results| && results[i] == Some(Accepted(job))
    decreases |results|
  {
    var front := results[..|results| - 1];
    if job in AcceptedIds(front) {
      AcceptedAmong(front, job);
      var i :| 0 <= i < |front| && front[i] == Some(Accepted(job));
      assert results[i] == Some(Accepted(job));
    } else {
      assert results[|results| - 1] == Some(Accepted(job));
    }
  }

  /** Where a job active now comes from: it was active before, or this batch made it. */
  ghost predicate Origins(verdicts: seq<Verdict>, db: Store, now: Store, results: seq<Option<Answer>>, upto: nat)
    requires |verdicts| == |results|
  {
    forall j :: j in now.jobs && now.IsActive(j) ==>
      || (db.IsActive(j) && now.jobs[j].key == db.jobs[j].key)
      || exists i :: 0 <= i < upto <= |results| && results[i] == Some(Accepted(j)) && FirstOfKey(verdicts, i)
                     && now.jobs[j].key == verdicts[i].key
  }

  /** A batch answered up to URL upto: started from db and queue, now at store now with
      line in the queue, having sent made. */
  ghost predicate Batch(verdicts: seq<Verdict>, newIds: seq<JobId>, db: Store, queue: seq<JobId>,
                        now: Store, line: seq<JobId>, made: seq<JobId>, results: seq<Option<Answer>>, upto: nat)
  {
    && upto <= |results| == |verdicts| == |newIds|
    && (forall i :: 0 <= i < upto ==> AnswerFits(verdicts, newIds, db, |queue|, results, i))
    && (forall i :: upto <= i < |results| ==> results[i] == Screened(verdicts, i))
    && FullSticks(verdicts, results, upto)
    && made == AcceptedIds(results[..upto])
    && SuffixOf(line, queue + made)
    && Ids(now) == Ids(db) + Members(made)
    && Origins(verdicts, db, now, results, upto)
  }

  lemma {:induction false} OriginsGrow(verdicts: seq<Verdict>, db: Store, now: Store, results: seq<Option<Answer>>, a: nat, b: nat)
    requires |verdicts| == |results| && a <= b <= |results| && Origins(verdicts, db, now, results, a)
    ensures Origins(verdicts, db, now, results, b)
  {
  }

  /** URLs that are no candidates were answered by the first pass. */
  lemma {:induction false} BatchSkip(verdicts: seq<Verdict>, newIds: seq<JobId>, db: Store, queue: seq<JobId>,
                                     now: Store, line: seq<JobId>, made: seq<JobId>, results: seq<Option<Answer>>, a: nat, b: nat)
    requires Batch(verdicts, newIds, db, queue, now, line, made, results, a) && a <= b <= |results|
    requires forall i :: a <= i < b ==> !FirstOfKey(verdicts, i)
    ensures Batch(verdicts, newIds, db, queue, now, line, made, results, b)
  {
    hide Ids, Origins, SuffixOf;
    NoneAccepted(results, a, b);
    OriginsGrow(verdicts, db, now, results, a, b);
  }

  /** The first pass leaves a batch that has sent nothing. */
  lemma {:induction false} BatchStarts(verdicts: seq<Verdict>, newIds: seq<JobId>, db: Store, queue: seq<JobId>, results: seq<Option<Answer>>)
    requires |results| == |verdicts| == |newIds|
    requires forall i :: 0 <= i < |verdicts| ==> results[i] == Screened(verdicts, i)
    ensures Batch(verdicts, newIds, db, queue, db, queue, [], results, 0)
  {
    assert results[..0] == [];
    assert (queue + [])[0..] == queue;
    assert Members([]) == {};
  }

  lemma {:induction false} AnsweredStays(verdicts: seq<Verdict>, newIds: seq<JobId>, db: Store, queued: nat,
                                         results: seq<Option<Answer>>, c: nat, answer: Answer, i: nat)
    requires i < c < |results| == |verdicts| == |newIds| && AnswerFits(verdicts, newIds, db, queued, results, i)
    ensures AnswerFits(verdicts, newIds, db, queued, results[c := Some(answer)], i)
  {
    assert results[c := Some(answer)][..i] == results[..i];
  }

  /** An active job that carries the candidate's key was active before the batch. */
  lemma {:induction false} KeyFromBefore(verdicts: seq<Verdict>, db: Store, now: Store, results: seq<Option<Answer>>, c: nat, j: JobId)
    requires |verdicts| == |results| && c < |results| && FirstOfKey(verdicts, c)
    requires Origins(verdicts, db, now, results, c) && now.IsActive(j) && now.jobs[j].key == verdicts[c].key
    ensures db.IsActive(j) && db.jobs[j].key == verdicts[c].key
  {
  }

  lemma {:induction false} OriginsStep(verdicts: seq<Verdict>, db: Store, now: Store, later: Store, results: seq<Option<Answer>>, c: nat, answer: Answer)
    requires |verdicts| == |results| && c < |results| && FirstOfKey(verdicts, c)
    requires Origins(verdicts, db, now, results, c)
    requires forall j :: j in later.jobs && later.IsActive(j) ==>
      || (now.IsActive(j) && later.jobs[j].key == now.jobs[j].key)
      || (answer == Accepted(j) && later.jobs[j].key == verdicts[c].key)
    ensures Origins(verdicts, db, later, results[c := Some(answer)], c + 1)
  {
    var done := results[c := Some(answer)];
    forall j | j in later.jobs && later.IsActive(j)
      ensures (db.IsActive(j) && later.jobs[j].key == db.jobs[j].key)
              || exists i :: 0 <= i < c + 1 <= |done| && done[i] == Some(Accepted(j)) && FirstOfKey(verdicts, i)
                             && later.jobs[j].key == verdicts[i].key
    {
      if now.IsActive(j) && later.jobs[j].key == now.jobs[j].key {
        if !(db.IsActive(j) && now.jobs[j].key == db.jobs[j].key) {
          var i :| 0 <= i < c && results[i] == Some(Accepted(j)) && FirstOfKey(verdicts, i) && now.jobs[j].key == verdicts[i].key;
          assert done[i] == Some(Accepted(j));
        }
      } else {
        assert done[c] == Some(Accepted(j));
      }
    }
  }

  /** One candidate answered. */
  lemma {:induction false} BatchStep(verdicts: seq<Verdict>, newIds: seq<JobId>, db: Store, queue: seq<JobId>,
                                     now: Store, line: seq<JobId>, made: seq<JobId>, results: seq<Option<Answer>>, c: nat,
                                     answer: Answer, later: Store, left: seq<JobId>)
    requires Batch(verdicts, newIds, db, queue, now, line, made, results, c)
    requires c < |results| && FirstOfKey(verdicts, c)
    requires var extra := if answer.Accepted? then [newIds[c]] else [];
      SuffixOf(left, line + extra) && Ids(later) == Ids(now) + Members(extra)
    requires answer == Accepted(newIds[c]) || answer.DuplicateActive? || answer == QueueFull || answer == ServerError
    requires answer.DuplicateActive? ==>
      answer.existing.Some? && now.IsActive(answer.existing.value) && now.jobs[answer.existing.value].key == verdicts[c].key
    requires answer.QueueFull? ==> |queue| + |made| >= QUEUE_CAP
    requires (exists i :: 0 <= i < c && results[i] == Some(QueueFull)) ==> answer == QueueFull
    requires forall j :: j in later.jobs && later.IsActive(j) ==>
      || (now.IsActive(j) && later.jobs[j].key == now.jobs[j].key)
      || (answer == Accepted(j) && later.jobs[j].key == verdicts[c].key)
    ensures var extra := if answer.Accepted? then [newIds[c]] else [];
      Batch(verdicts, newIds, db, queue, later, left, made + extra, results[c := Some(answer)], c + 1)
  {
    hide Ids, SuffixOf, Origins, Screened, Members;
    var done, extra := results[c := Some(answer)], if answer.Accepted? then [newIds[c]] else [];
    OriginsStep(verdicts, db, now, later, results, c, answer);
    if answer.DuplicateActive? {
      KeyFromBefore(verdicts, db, now, results, c, answer.existing.value);
    }
    forall i | 0 <= i < c
      ensures AnswerFits(verdicts, newIds, db, |queue|, done, i)
    {
      AnsweredStays(verdicts, newIds, db, |queue|, results, c, answer, i);
    }
    assert done[..c] == results[..c];
    NoAnswerYet(verdicts, c);
    assert AnswerFits(verdicts, newIds, db, |queue|, done, c);
    OneAccepted(done, c);
    MadeMore(queue, line, made, extra, left);
    MembersJoin(made, extra);
  }

  lemma {:induction false} NoAnswerYet(verdicts: seq<Verdict>, i: nat)
    requires i < |verdicts| && FirstOfKey(verdicts, i)
    ensures Screened(verdicts, i).None?
  {
  }

  lemma {:induction false} MembersJoin(made: seq<JobId>, extra: seq<JobId>)
    ensures Members(made + extra) == Members(made) + Members(extra)
  {
  }

  lemma {:induction false} MadeMore(queue: seq<JobId>, line: seq<JobId>, made: seq<JobId>, extra: seq<JobId>, left: seq<JobId>)
    requires SuffixOf(line, queue + made) && SuffixOf(left, line + extra)
    ensures SuffixOf(left, queue + (made + extra))
  {
    var all := queue + made;
    assert (all + extra)[|all| - |line|..] == all[|all| - |line|..] + extra;
    SuffixTrans(left, line + extra, all + extra);
    assert all + extra == queue + (made + extra);
  }

  lemma {:induction false} NextCandidate(verdicts: seq<Verdict>, candidates: seq<nat>, k: nat)
    requires Ascending(candidates) && k < |candidates|
    requires forall i :: i in candidates <==> 0 <= i < |verdicts| && FirstOfKey(verdicts, i)
    ensures candidates[k] < |verdicts| && FirstOfKey(verdicts, candidates[k])
    ensures var next := if k == 0 then 0 else candidates[k - 1] + 1;
      next <= candidates[k] && forall i :: next <= i < candidates[k] ==> !FirstOfKey(verdicts, i)
  {
    assert candidates[k] in candidates;
    var next := if k == 0 then 0 else candidates[k - 1] + 1;
    forall i | next <= i < candidates[k]
      ensures !FirstOfKey(verdicts, i)
    {
      if i in candidates {
        var m :| 0 <= m < |candidates| && candidates[m] == i;
      }
    }
  }

  lemma {:induction false} NoneLeft(verdicts: seq<Verdict>, candidates: seq<nat>)
    requires Ascending(candidates)
    requires forall i :: i in candidates <==> 0 <= i < |verdicts| && FirstOfKey(verdicts, i)
    ensures var next := if candidates == [] then 0 else candidates[|candidates| - 1] + 1;
      next <= |verdicts| && forall i :: next <= i < |verdicts| ==> !FirstOfKey(verdicts, i)
  {
    if candidates != [] {
      assert candidates[|candidates| - 1] in candidates;
    }
    assert forall i :: i in candidates ==> i <= candidates[|candidates| - 1];
  }

  /** No answer of the first pass is about the queue. */
  lemma {:induction false} NothingFull(verdicts: seq<Verdict>, newIds: seq<JobId>, db: Store, queue: seq<JobId>,
                                       now: Store, line: seq<JobId>, made: seq<JobId>, results: seq<Option<Answer>>, a: nat, b: nat)
    requires Batch(verdicts, newIds, db, queue, now, line, made, results, a) && a <= b <= |results|
    requires forall i :: a <= i < b ==> !FirstOfKey(verdicts, i)
    ensures |results| == |verdicts| == |newIds| && |line| <= |queue| + |made|
    ensures forall i :: a <= i < b ==> results[i] != Some(QueueFull)
  {
  }

  lemma {:induction false} MadeWithNewId(verdicts: seq<Verdict>, newIds: seq<JobId>, db: Store, queue: seq<JobId>,
                                         now: Store, line: seq<JobId>, made: seq<JobId>, results: seq<Option<Answer>>, c: nat, job: JobId)
    returns (i: nat)
    requires Batch(verdicts, newIds, db, queue, now, line, made, results, c) && job in made
    ensures i < c <= |newIds| && job == newIds[i]
  {
    hide Ids, Origins, SuffixOf, FullSticks;
    AcceptedAmong(results[..c], job);
    i :| 0 <= i < c && results[..c][i] == Some(Accepted(job));
    assert AnswerFits(verdicts, newIds, db, |queue|, results, i);
    assert results[i] == Some(Accepted(job));
  }

  lemma {:induction false} NewIdFree(verdicts: seq<Verdict>, newIds: seq<JobId>, db: Store, queue: seq<JobId>,
                                     now: Store, line: seq<JobId>, made: seq<JobId>, results: seq<Option<Answer>>, c: nat)
    requires Batch(verdicts, newIds, db, queue, now, line, made, results, c) && c < |newIds|
    requires forall i :: 0 <= i < |newIds| ==> newIds[i] !in Ids(db)
    requires forall i, k :: 0 <= i < k < |newIds| ==> newIds[i] != newIds[k]
    ensures newIds[c] !in Ids(now)
  {
    forall job | job in made
      ensures job != newIds[c]
    {
      var i := MadeWithNewId(verdicts, newIds, db, queue, now, line, made, results, c, job);
    }
  }

  lemma {:induction false} BatchDone(verdicts: seq<Verdict>, newIds: seq<JobId>, db: Store, queue: seq<JobId>,
                                     now: Store, line: seq<JobId>, made: seq<JobId>, results: seq<Option<Answer>>)
    requires Batch(verdicts, newIds, db, queue, now, line, made, results, |results|)
    ensures made == AcceptedIds(results) && |results| == |verdicts|
  {
    assert results[..|results|] == results;
  }

  /** How many of the first n URLs are candidates answered with a store failure. */
  ghost function FailedAnswers(verdicts: seq<Verdict>, results: seq<Option<Answer>>, n: nat): nat
    requires n <= |verdicts| == |results|
  {
    if n == 0 then 0
    else FailedAnswers(verdicts, results, n - 1) + if FirstOfKey(verdicts, n - 1) && results[n - 1] == Some(ServerError) then 1 else 0
  }

  lemma {:induction false} FailedMore(verdicts: seq<Verdict>, results: seq<Option<Answer>>, n: nat, c: nat, answer: Answer)
    requires n <= c < |verdicts| == |results|
    requires FirstOfKey(verdicts, c) && forall i :: n <= i < c ==> !FirstOfKey(verdicts, i)
    ensures FailedAnswers(verdicts, results[c := Some(answer)], c + 1)
         == FailedAnswers(verdicts, results, n) + if answer == ServerError then 1 else 0
  {
    FailedSame(verdicts, results, results[c := Some(answer)], c);
    FailedStays(verdicts, results, n, c);
  }

  lemma {:induction false} FailedSame(verdicts: seq<Verdict>, a: seq<Option<Answer>>, b: seq<Option<Answer>>, n: nat)
    requires n <= |verdicts| == |a| == |b| && a[..n] == b[..n]
    ensures FailedAnswers(verdicts, a, n) == FailedAnswers(verdicts, b, n)
  {
    if n > 0 {
      assert a[n - 1] == a[..n][n - 1] && b[n - 1] == b[..n][n - 1];
      assert a[..n - 1] == a[..n][..n - 1] && b[..n - 1] == b[..n][..n - 1];
      FailedSame(verdicts, a, b, n - 1);
    }
  }

  lemma {:induction false} FailedStays(verdicts: seq<Verdict>, results: seq<Option<Answer>>, n: nat, c: nat)
    requires n <= c <= |verdicts| == |results| && forall i :: n <= i < c ==> !FirstOfKey(verdicts, i)
    ensures FailedAnswers(verdicts, results, c) == FailedAnswers(verdicts, results, n)
    decreases c
  {
    hide FirstOfKey;
    if n < c {
      FailedStays(verdicts, results, n, c - 1);
    }
  }

  /** The response's counts. */
  method Count(results: seq<Option<Answer>>) returns (accepted: nat, rejected: nat)
    ensures accepted == |AcceptedIds(results)| && accepted + rejected == |results|
  {
    accepted, rejected := 0, 0;
    var i := 0;
    while i < |results|
      invariant 0 <= i <= |results|
      invariant accepted == |AcceptedIds(results[..i])| && accepted + rejected == i
    {
      OneAccepted(results, i);
      if results[i].Some? && results[i].value.Accepted? {
        accepted := accepted + 1;
      } else {
        rejected := rejected + 1;
      }
      i := i + 1;
    }
    assert results[..i] == results;
  }

  // ---- The second pass

  datatype CreateError = AlreadyActive | Unavailable

  /** The store and the admission queue as the holder of submitMu sees them; sent is
      everything it has put on the queue, failures the number of its store calls that
      failed. */
  class Admission {
    ghost var failures: nat
    var db: Store
    var queue: seq<JobId>
    ghost var sent: seq<JobId>

    ghost predicate Valid()
      reads this
    {
      OneActivePerKey(db) && |queue| <= QUEUE_CAP
    }

    method Interfere()
      requires Valid()
      modifies this`db, this`queue
      ensures Valid() && OthersOnly(old(db), old(queue), db, queue)
    {
      var later: Store, left: seq<JobId> := *, *;
      if OthersOnly(db, queue, later, left) {
        db, queue := later, left;
      }
    }

    /** Whether a store call fails. */
    method Fails() returns (failed: bool)
      modifies this`failures
      ensures failures == old(failures) + if failed then 1 else 0
    {
      failed := *;
      failures := failures + if failed then 1 else 0;
    }

    /** FindActiveJobByKey; None when nothing was found. */
    method FindActive(key: Key) returns (found: Option<JobId>)
      ensures found.Some? ==> db.IsActive(found.value) && db.jobs[found.value].key == key
      ensures found.None? ==> !db.HasActive(key)
    {
      if id :| id in db.jobs && db.jobs[id].key == key && db.IsActive(id) {
        return Some(id);
      }
      return None;
    }

    /** CreateJob under its unique index on active keys. */
    method CreateJob(id: JobId, key: Key, available: bool) returns (failure: Option<CreateError>)
      requires Valid() && id !in Ids(db)
      modifies this`db
      ensures Valid()
      ensures failure == if !available then Some(Unavailable) else if old(db).HasActive(key) then Some(AlreadyActive) else None
      ensures db == if failure.None? then old(db).CreateJob(id, key) else old(db)
    {
      if !available {
        return Some(Unavailable);
      }
      if db.HasActive(key) {
        return Some(AlreadyActive);
      }
      db := db.CreateJob(id, key);
      return None;
    }

    /** The send never blocks: it needs a free slot. */
    method Send(id: JobId)
      requires Valid() && |queue| < QUEUE_CAP
      modifies this`queue, this`sent
      ensures Valid() && queue == old(queue) + [id] && sent == old(sent) + [id]
    {
      queue, sent := queue + [id], sent + [id];
    }

    /** The lookup and the capacity check. */
    method Look(key: Key) returns (early: Option<Answer>)
      requires Valid()
      modifies this`db, this`queue, this`failures
      ensures Valid() && OthersOnly(old(db), old(queue), db, queue)
      ensures failures == old(failures) + if early == Some(ServerError) then 1 else 0
      ensures early.None? ==> !db.HasActive(key) && |queue| < QUEUE_CAP
      ensures early.Some? ==> early.value.DuplicateActive? || early.value == QueueFull || early.value == ServerError
      ensures early.Some? && early.value.DuplicateActive? ==>
        var e := early.value.existing;
        e.Some? && old(db).IsActive(e.value) && old(db).jobs[e.value].key == key
      ensures early == Some(QueueFull) ==> |old(queue)| == QUEUE_CAP
    {
      hide OneActivePerKey, Store.HasActive, Store.IsActive, OthersOnly;
      Interfere();
      var failed := Fails();
      if failed {
        return Some(ServerError);
      }
      var found := FindActive(key);
      if found.Some? {
        WasActive(old(db), old(queue), db, queue, found.value);
        return Some(DuplicateActive(found));
      }
      ghost var asked, line := db, queue;
      Interfere();
      OthersTrans(old(db), old(queue), asked, line, db, queue);
      NoKeyAgain(asked, line, db, queue, key);
      NoLonger(old(db), old(queue), db, queue);
      return if |queue| >= QUEUE_CAP then Some(QueueFull) else None;
    }

    /** Insert and send. The unique index stands behind the lookup and never fires. */
    method Enqueue(id: JobId, key: Key) returns (answer: Answer)
      requires Valid() && id !in Ids(db) && !db.HasActive(key) && |queue| < QUEUE_CAP
      modifies this
      ensures Valid() && (answer == Accepted(id) || answer == ServerError)
      ensures failures == old(failures) + if answer == ServerError then 1 else 0
      ensures answer == ServerError ==> db == old(db) && queue == old(queue) && sent == old(sent)
      ensures answer.Accepted? ==>
        OthersOnly(old(db).CreateJob(id, key), old(queue) + [id], db, queue) && sent == old(sent) + [id]
    {
      hide OneActivePerKey, Store.HasActive;
      var failed := Fails();
      var failure := CreateJob(id, key, !failed);
      if failure == Some(AlreadyActive) {
        return DuplicateActive(None);
      }
      if failure.Some? {
        return ServerError;
      }
      ghost var created, line := db, queue;
      Interfere();
      ActiveBefore(created, line, db, queue);
      OthersSend(created, line, db, queue, id);
      Send(id);
      return Accepted(id);
    }

    /** One candidate. The id is new to the store; which store calls fail is open. */
    method Admit(id: JobId, key: Key) returns (answer: Answer)
      requires Valid() && id !in Ids(db)
      modifies this
      ensures Valid() && Ids(db) == Ids(old(db)) + if answer.Accepted? then {id} else {}
      ensures answer == Accepted(id) || answer.DuplicateActive? || answer == QueueFull || answer == ServerError
      ensures sent == old(sent) + if answer.Accepted? then [id] else []
      ensures SuffixOf(queue, old(queue) + if answer.Accepted? then [id] else [])
      ensures answer.DuplicateActive? ==>
        answer.existing.Some? && old(db).IsActive(answer.existing.value) && old(db).jobs[answer.existing.value].key == key
      ensures answer.QueueFull? ==> |old(queue)| == QUEUE_CAP
      ensures failures == old(failures) + if answer == ServerError then 1 else 0
      ensures forall j :: j in db.jobs && db.IsActive(j) ==>
        || (old(db).IsActive(j) && db.jobs[j].key == old(db).jobs[j].key)
        || (answer == Accepted(j) && db.jobs[j].key == key)
    {
      hide OneActivePerKey, Store.HasActive, OthersOnly;
      var early := Look(key);
      ActiveBefore(old(db), old(queue), db, queue);
      if early.Some? {
        assert old(queue) + [] == old(queue);
        return early.value;
      }
      ghost var before, line := db, queue;
      answer := Enqueue(id, key);
      if answer.Accepted? {
        ActiveBefore(before.CreateJob(id, key), line + [id], db, queue);
        SuffixMore(line, old(queue), id);
        SuffixTrans(queue, line + [id], old(queue) + [id]);
      } else {
        assert old(queue) + [] == old(queue);
      }
    }

    /** One URL after another, and the counts. newIds are the ids drawn for new jobs. */
    method SubmitBatch(verdicts: seq<Verdict>, newIds: seq<JobId>)
      returns (results: seq<Option<Answer>>, accepted: nat, rejected: nat)
      requires Valid() && |newIds| == |verdicts|
      requires forall i :: 0 <= i < |newIds| ==> newIds[i] !in Ids(db)
      requires forall i, k :: 0 <= i < k < |newIds| ==> newIds[i] != newIds[k]
      modifies this
      ensures Valid()
      ensures Batch(verdicts, newIds, old(db), old(queue), db, queue, AcceptedIds(results), results, |verdicts|)
      ensures sent == old(sent) + AcceptedIds(results)
      ensures failures == old(failures) + FailedAnswers(verdicts, results, |verdicts|)
      ensures accepted == |AcceptedIds(results)| && accepted + rejected == |verdicts|
    {
      hide OneActivePerKey, Ids, Batch, AcceptedIds, FirstOfKey;
      var candidates;
      results, candidates := Screen(verdicts);
      BatchStarts(verdicts, newIds, db, queue, results);
      ghost var made: seq<JobId>, next: nat := [], 0;
      var queueFull, k := false, 0;
      while k < |candidates|
        invariant Valid() && sent == old(sent) + made
        invariant Batch(verdicts, newIds, old(db), old(queue), db, queue, made, results, next)
        invariant 0 <= k <= |candidates| && next == (if k == 0 then 0 else candidates[k - 1] + 1)
        invariant |results| == |verdicts| && next <= |results|
        invariant !queueFull ==> forall i :: 0 <= i < next ==> results[i] != Some(QueueFull)
        invariant queueFull ==> |old(queue)| + |made| >= QUEUE_CAP
        invariant failures == old(failures) + FailedAnswers(verdicts, results, next)
      {
        var c := candidates[k];
        NextCandidate(verdicts, candidates, k);
        BatchSkip(verdicts, newIds, old(db), old(queue), db, queue, made, results, next, c);
        NothingFull(verdicts, newIds, old(db), old(queue), db, queue, made, results, next, c);
        NewIdFree(verdicts, newIds, old(db), old(queue), db, queue, made, results, c);
        ghost var now, line := db, queue;
        var answer := QueueFull;
        if queueFull {
          assert line + [] == line;
        } else {
          answer := Admit(newIds[c], verdicts[c].key);
        }
        BatchStep(verdicts, newIds, old(db), old(queue), now, line, made, results, c, answer, db, queue);
        FailedMore(verdicts, results, next, c, answer);
        results := results[c := Some(answer)];
        made := made + if answer.Accepted? then [newIds[c]] else [];
        queueFull, next := queueFull || answer == QueueFull, c + 1;
        k := k + 1;
      }
      assert k == |candidates|;
      NoneLeft(verdicts, candidates);
      BatchSkip(verdicts, newIds, old(db), old(queue), db, queue, made, results, next, |results|);
      BatchDone(verdicts, newIds, old(db), old(queue), db, queue, made, results);
      FailedStays(verdicts, results, next, |verdicts|);
      accepted, rejected := Count(results);
    }
  }

  lemma {:induction false} ActiveBefore(db: Store, queue: seq<JobId>, later: Store, left: seq<JobId>)
    requires OthersOnly(db, queue, later, left)
    ensures forall j :: j in later.jobs && later.IsActive(j) ==> db.IsActive(j) && later.jobs[j].key == db.jobs[j].key
    ensures Ids(later) == Ids(db) && SuffixOf(left, queue)
  {
  }
}

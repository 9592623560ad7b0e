/** Whole runs of the semaphore (internal/limits/semaphore.go): callers arriving,
    waking, cancelling and releasing in any order. Each locked section is one step,
    and what it does to the pool is the contract of the Semaphore class. */
module SemaphoreRuns {
  import opened Wrappers
  import opened Semaphore

  type Caller = nat

  /** Granted: its channel is closed, but it has not looked yet. */
  datatype Phase = Waiting(rank: Rank) | Granted(rank: Rank) | Holding | Gone

  /** grants lists every permit given out: None at once, Some(r) to waiter r. */
  datatype Sys = Sys(pool: Pool, callers: map<Caller, Phase>, grants: seq<Option<Rank>>)

  datatype Action =
    | Arrive(who: Caller, priority: int, subpriority: int)
    | Take(who: Caller)                                     // woken, context alive
    | Free(who: Caller, granted: Option<Rank>, next: Caller) // release, or a cancelled caller that was granted
    | Withdraw(who: Caller)                                 // cancelled while waiting

  predicate Next(s: Sys, t: Sys, act: Action) {
    match act
    case Arrive(c, p, q) =>
      c !in s.callers &&
      if s.pool.Free() then
        t == Sys(s.pool.(inUse := s.pool.inUse + 1), s.callers[c := Holding], s.grants + [None])
      else
        var r := Rank(p, q, s.pool.arrival);
        t == Sys(s.pool.(arrival := s.pool.arrival + 1, waiting := s.pool.waiting + {r}), s.callers[c := Waiting(r)], s.grants)
    case Take(c) =>
      c in s.callers && s.callers[c].Granted? && t == s.(callers := s.callers[c := Holding])
    case Free(c, granted, d) =>
      && c in s.callers && (s.callers[c].Granted? || s.callers[c].Holding?)
      && s.pool.inUse > 0 && s.pool.Releases(t.pool, granted)
      && (match granted
          case None => t == Sys(t.pool, s.callers[c := Gone], s.grants)
          case Some(r) =>
            && d in s.callers && s.callers[d] == Waiting(r)
            && t == Sys(t.pool, s.callers[c := Gone][d := Granted(r)], s.grants + [Some(r)]))
    case Withdraw(c) =>
      && c in s.callers && s.callers[c].Waiting?
      && t == Sys(s.pool.(waiting := s.pool.waiting - {s.callers[c].rank}), s.callers[c := Gone], s.grants)
  }

  /** Those with a permit of their own. */
  function Busy(callers: map<Caller, Phase>): set<Caller> {
    set c | c in callers && (callers[c].Granted? || callers[c].Holding?)
  }

  ghost predicate Inv(s: Sys) {
    && s.pool.inUse == |Busy(s.callers)| <= s.pool.limit && s.pool.limit > 0
    && (s.pool.waiting != {} ==> s.pool.inUse == s.pool.limit)
    && (forall c :: c in s.callers && s.callers[c].Waiting? ==>
          s.callers[c].rank in s.pool.waiting && s.callers[c].rank.arrival < s.pool.arrival)
    && (forall r :: r in s.pool.waiting ==> exists c :: c in s.callers && s.callers[c] == Waiting(r))
    && (forall c, d :: c in s.callers && d in s.callers && s.callers[c].Waiting? && s.callers[c] == s.callers[d] ==> c == d)
  }

  lemma {:induction false} ArriveKept(s: Sys, t: Sys, c: Caller, p: int, q: int)
    requires Inv(s) && Next(s, t, Arrive(c, p, q))
    ensures Inv(t)
  {
    if s.pool.Free() {
      assert Busy(t.callers) == Busy(s.callers) + {c};
    } else {
      assert Busy(t.callers) == Busy(s.callers);
      assert t.callers[c] == Waiting(Rank(p, q, s.pool.arrival));
      forall r | r in t.pool.waiting
        ensures exists d :: d in t.callers && t.callers[d] == Waiting(r)
      {
        if r in s.pool.waiting {
          var d :| d in s.callers && s.callers[d] == Waiting(r);
          assert t.callers[d] == Waiting(r);
        }
      }
      if s.pool.waiting == {} {
        assert s.pool.inUse == s.pool.limit;
      }
    }
  }

  lemma {:induction false} TakeKept(s: Sys, t: Sys, c: Caller)
    requires Inv(s) && Next(s, t, Take(c))
    ensures Inv(t)
  {
    assert Busy(t.callers) == Busy(s.callers);
    forall r | r in t.pool.waiting
      ensures exists d :: d in t.callers && t.callers[d] == Waiting(r)
    {
      var d :| d in s.callers && s.callers[d] == Waiting(r);
      assert t.callers[d] == Waiting(r);
    }
  }

  lemma {:induction false} FreeKept(s: Sys, t: Sys, c: Caller, granted: Option<Rank>, d: Caller)
    requires Inv(s) && Next(s, t, Free(c, granted, d))
    ensures Inv(t)
  {
    if granted.None? {
      assert Busy(t.callers) == Busy(s.callers) - {c};
    } else {
      HandedOver(s, c, granted.value, d, t.grants);
    }
  }

  lemma {:induction false} SameCount(callers: map<Caller, Phase>, c: Caller, d: Caller, r: Rank)
    requires c in callers && (callers[c].Granted? || callers[c].Holding?)
    requires d in callers && callers[d].Waiting?
    ensures |Busy(callers[c := Gone][d := Granted(r)])| == |Busy(callers)|
  {
    assert Busy(callers[c := Gone][d := Granted(r)]) == Busy(callers) - {c} + {d};
    assert c in Busy(callers) && d !in Busy(callers);
  }

  /** The permit of c handed to d, the waiter of rank r. */
  lemma {:induction false} HandedOver(s: Sys, c: Caller, r: Rank, d: Caller, grants: seq<Option<Rank>>)
    requires Inv(s) && c in s.callers && (s.callers[c].Granted? || s.callers[c].Holding?)
    requires r in s.pool.waiting && d in s.callers && s.callers[d] == Waiting(r)
    ensures Inv(Sys(s.pool.(waiting := s.pool.waiting - {r}), s.callers[c := Gone][d := Granted(r)], grants))
  {
    var now := s.callers[c := Gone][d := Granted(r)];
    SameCount(s.callers, c, d, r);
    hide Busy;
    forall q | q in s.pool.waiting && q != r
      ensures exists e :: e in now && now[e] == Waiting(q)
    {
      var e :| e in s.callers && s.callers[e] == Waiting(q);
      assert now[e] == Waiting(q);
    }
    forall e | e in now && now[e].Waiting?
      ensures now[e] == s.callers[e] && now[e].rank != r
    {
    }
  }

  lemma {:induction false} WithdrawKept(s: Sys, t: Sys, c: Caller)
    requires Inv(s) && Next(s, t, Withdraw(c))
    ensures Inv(t)
  {
    assert Busy(t.callers) == Busy(s.callers);
    forall r | r in t.pool.waiting
      ensures exists d :: d in t.callers && t.callers[d] == Waiting(r)
    {
      var d :| d in s.callers && s.callers[d] == Waiting(r);
      assert t.callers[d] == Waiting(r);
    }
  }

  lemma {:induction false} InvKept(s: Sys, t: Sys, act: Action)
    requires Inv(s) && Next(s, t, act)
    ensures Inv(t)
  {
    match act
    case Arrive(c, p, q) => ArriveKept(s, t, c, p, q);
    case Take(c) => TakeKept(s, t, c);
    case Free(c, granted, d) => FreeKept(s, t, c, granted, d);
    case Withdraw(c) => WithdrawKept(s, t, c);
  }

  /** The release of a held permit never panics, and when somebody waits a caller is
      there to take it. */
  lemma {:induction false} ReleasePossible(s: Sys, c: Caller)
    requires Inv(s) && c in s.callers && (s.callers[c].Granted? || s.callers[c].Holding?)
    ensures s.pool.inUse > 0
    ensures forall r :: Least(r, s.pool.waiting) ==> exists d :: d in s.callers && s.callers[d] == Waiting(r)
  {
    assert c in Busy(s.callers);
  }

  /** Nothing leaks: when every caller is gone every permit is back. */
  lemma {:induction false} AllReturned(s: Sys)
    requires Inv(s) && forall c :: c in s.callers ==> s.callers[c].Gone?
    ensures s.pool.inUse == 0 && s.pool.waiting == {}
  {
    assert Busy(s.callers) == {};
  }

  // ---- Runs

  ghost predicate Steps(s: Sys, t: Sys) {
    exists act :: Next(s, t, act)
  }

  ghost predicate IsRun(run: seq<Sys>) {
    run != [] && forall i :: 0 < i < |run| ==> Steps(run[i - 1], run[i])
  }

  predicate Start(s: Sys) {
    s.pool.inUse == 0 && s.pool.limit > 0 && s.pool.waiting == {} && s.callers == map[] && s.grants == []
  }

  /** Over every run: the permits out are those of the callers that have one, never
      more than the limit, and nobody waits while one is free. */
  lemma {:induction false} Conserved(run: seq<Sys>, i: nat)
    requires IsRun(run) && Start(run[0]) && i < |run|
    ensures Inv(run[i]) && run[i].pool.limit == run[0].pool.limit
  {
    if i == 0 {
      assert Busy(run[0].callers) == {};
    } else {
      Conserved(run, i - 1);
      assert Steps(run[i - 1], run[i]);
      var act :| Next(run[i - 1], run[i], act);
      InvKept(run[i - 1], run[i], act);
    }
  }

  /** While a waiter waits, every permit given out goes to a waiter of lower priority, or
      of the same and a lower subpriority, or of the same both and an earlier arrival. */
  lemma {:induction false} Overtaken(run: seq<Sys>, w: Rank, n: nat)
    requires IsRun(run) && n < |run| && forall i :: 0 <= i <= n ==> w in run[i].pool.waiting
    ensures |run[0].grants| <= |run[n].grants|
    ensures forall k :: |run[0].grants| <= k < |run[n].grants| ==>
      && run[n].grants[k].Some?
      && var r := run[n].grants[k].value;
      || r.priority < w.priority
      || (r.priority == w.priority && r.subpriority < w.subpriority)
      || (r.priority == w.priority && r.subpriority == w.subpriority && r.arrival < w.arrival)
  {
    if n > 0 {
      Overtaken(run, w, n - 1);
      assert Steps(run[n - 1], run[n]);
      var act :| Next(run[n - 1], run[n], act);
      assert w in run[n - 1].pool.waiting && w in run[n].pool.waiting;
    }
  }
}

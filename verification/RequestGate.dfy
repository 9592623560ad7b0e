/** The request gate (internal/limits/request_gate.go): one caller's requests while
    time passes and other callers penalize. Times and durations are nanoseconds. */
module RequestGate {
  import opened Wrappers

  const MAX_COOLDOWN: int := 60_000_000_000
  const TOO_MANY_REQUESTS: nat := 429

  /** What one caller has done, in order. Clear is a look at the cooldown that found
      none in force, with what it saw; Answered a response, with when it came and the
      delay its headers ask for. */
  datatype Event =
    | Permit | Token | Clear(now: int, cooldown: int) | Sent | Answered(status: nat, delay: int, at: int) | Released

  /** Permits the caller holds after the events of log. */
  function Held(log: seq<Event>): int {
    if log == [] then 0
    else
      var before, last := Held(log[..|log| - 1]), log[|log| - 1];
      if last.Permit? then before + 1 else if last.Released? then before - 1 else before
  }

  function Sends(log: seq<Event>): nat {
    if log == [] then 0
    else Sends(log[..|log| - 1]) + (if log[|log| - 1].Sent? then 1 else 0)
  }

  /** Never more than one permit at a time, none given back twice, each look that let
      the caller through was at or after the cooldown's end. */
  ghost predicate Sound(log: seq<Event>) {
    && (forall k :: 0 <= k <= |log| ==> 0 <= Held(log[..k]) <= 1)
    && (forall k :: 0 <= k < |log| && log[k].Clear? ==> log[k].now >= log[k].cooldown)
  }

  /** The last events of an admission: the permit, then a look; and when rate limited
      the token, then another look. */
  predicate Admitted(log: seq<Event>, rateLimited: bool) {
    if rateLimited then
      && |log| >= 4 && log[|log| - 4].Permit? && log[|log| - 3].Clear?
      && log[|log| - 2].Token? && log[|log| - 1].Clear?
    else |log| >= 2 && log[|log| - 2].Permit? && log[|log| - 1].Clear?
  }

  lemma {:induction false} Logged(log: seq<Event>, e: Event)
    requires Sound(log)
    requires e.Permit? ==> Held(log) == 0
    requires e.Released? ==> Held(log) == 1
    requires e.Clear? ==> e.now >= e.cooldown
    ensures Sound(log + [e])
    ensures Held(log + [e]) == if e.Permit? then 1 else if e.Released? then 0 else Held(log)
    ensures Sends(log + [e]) == Sends(log) + (if e.Sent? then 1 else 0)
  {
    var now := log + [e];
    assert now[..|log|] == log;
    assert log[..|log|] == log;
    forall k | 0 <= k <= |now|
      ensures 0 <= Held(now[..k]) <= 1
    {
      if k <= |log| {
        assert now[..k] == log[..k];
      } else {
        assert now[..k] == now;
      }
    }
  }

  datatype Response = Response(status: nat, delay: int, hasBody: bool)

  /** Every 429 answered from position from on is paid for: the cooldown lasts its delay,
      or 60 seconds, from when it came. */
  ghost predicate Paid(log: seq<Event>, from: nat, cooldownUntil: int) {
    forall k :: from <= k < |log| && log[k].Answered? && log[k].status == 429 && log[k].delay > 0 ==>
      cooldownUntil >= log[k].at + if log[k].delay < 60_000_000_000 then log[k].delay else 60_000_000_000
  }

  /** What was answered from position from on is this response alone. */
  ghost predicate AnsweredOnce(log: seq<Event>, from: nat, resp: Option<Response>, now: int) {
    && (forall k :: from <= k < |log| && log[k].Answered? ==>
          resp.Some? && log[k].status == resp.value.status && log[k].delay == resp.value.delay && log[k].at <= now)
    && (resp.Some? ==> exists k :: from <= k < |log| && log[k].Answered?)
  }

  lemma {:induction false} PaysFor(a: seq<Event>, b: seq<Event>, from: nat, was: int, resp: Option<Response>, now: int, cooldownUntil: int)
    requires a <= b && from <= |a| && Paid(a, from, was) && was <= cooldownUntil
    requires AnsweredOnce(b, |a|, resp, now)
    requires resp.Some? && resp.value.status == 429 && resp.value.delay > 0 ==>
      cooldownUntil >= now + if resp.value.delay < 60_000_000_000 then resp.value.delay else 60_000_000_000
    ensures Paid(b, from, cooldownUntil)
  {
    forall k | from <= k < |b| && b[k].Answered? && b[k].status == 429 && b[k].delay > 0
      ensures cooldownUntil >= b[k].at + if b[k].delay < 60_000_000_000 then b[k].delay else 60_000_000_000
    {
      if k < |a| {
        assert a[k] == b[k];
      }
    }
  }

  lemma {:induction false} StillPaid(a: seq<Event>, e: Event, from: nat, was: int, cooldownUntil: int)
    requires Paid(a, from, was) && was <= cooldownUntil && !e.Answered?
    ensures Paid(a + [e], from, cooldownUntil)
  {
  }

  class RequestGate {
    var now: int
    var cooldownUntil: int
    var log: seq<Event>
    var failures: nat   // model-only: contexts that ended and requests that failed

    /** No cooldown ends more than the cap ahead. */
    ghost predicate Valid()
      reads this
    {
      cooldownUntil <= now + MAX_COOLDOWN && Sound(log)
    }

    /** Neither time nor the cooldown's end ever moves back. */
    twostate predicate Onward()
      reads this
    {
      old(now) <= now && old(cooldownUntil) <= cooldownUntil && old(log) <= log
    }

    constructor (start: int)
      ensures Valid() && log == []
    {
      now, cooldownUntil, log, failures := start, start, [], 0;
      new;
      assert log[..0] == [];
    }

    /** Time passes, and others may penalize. */
    method Elapse()
      requires Valid()
      modifies this`now, this`cooldownUntil
      ensures Valid() && Onward() && log == old(log)
    {
      var passed: nat, delay: int, penalized: bool := *, *, *;
      now := now + passed;
      if penalized {
        Penalize(delay);
      }
    }

    /** Whether what is tried next fails. */
    method Fails() returns (failed: bool)
      modifies this`failures
      ensures failures == old(failures) + if failed then 1 else 0
    {
      failed := *;
      failures := failures + if failed then 1 else 0;
    }

    method Note(e: Event)
      requires Valid()
      requires e.Permit? ==> Held(log) == 0
      requires e.Released? ==> Held(log) == 1
      requires e.Clear? ==> e.now >= e.cooldown
      modifies this`log
      ensures Valid() && log == old(log) + [e]
      ensures Held(log) == if e.Permit? then 1 else if e.Released? then 0 else old(Held(log))
      ensures Sends(log) == old(Sends(log)) + (if e.Sent? then 1 else 0)
    {
      Logged(log, e);
      log := log + [e];
    }

    /** Penalize: a delay at or below zero does nothing, a longer one is capped, and a
        shorter cooldown never replaces a longer one. */
    method Penalize(delay: int)
      requires Valid()
      modifies this`cooldownUntil
      ensures Valid() && Onward()
      ensures cooldownUntil ==
        if delay <= 0 then old(cooldownUntil)
        else
          var until := now + (if delay > MAX_COOLDOWN then MAX_COOLDOWN else delay);
          if until > old(cooldownUntil) then until else old(cooldownUntil)
    {
      if delay <= 0 {
        return;
      }
      var applied := if delay > MAX_COOLDOWN then MAX_COOLDOWN else delay;
      var until := now + applied;
      if until > cooldownUntil {
        cooldownUntil := until;
      }
    }

    /** coolingDown; a look that finds no cooldown is noted. */
    method CoolingDown() returns (cooling: bool)
      requires Valid()
      modifies this`now, this`cooldownUntil, this`log
      ensures Valid() && Onward() && Held(log) == old(Held(log)) && Sends(log) == old(Sends(log))
      ensures cooling <==> now < cooldownUntil
      ensures log == if cooling then old(log) else old(log) + [Clear(now, cooldownUntil)]
    {
      Elapse();
      cooling := now < cooldownUntil;
      if !cooling {
        Note(Clear(now, cooldownUntil));
      }
    }

    /** waitCooldown: false when the context ends first. */
    method WaitCooldown() returns (ok: bool)
      requires Valid()
      modifies this`now, this`cooldownUntil, this`failures
      ensures Valid() && Onward() && log == old(log)
      ensures ok ==> now >= old(cooldownUntil)
      ensures ok <==> failures == old(failures)
    {
      var patience: nat := *;
      while patience > 0
        invariant Valid() && Onward() && log == old(log) && failures == old(failures)
      {
        Elapse();
        var until := cooldownUntil;
        Elapse();
        if until - now <= 0 {
          return true;
        }
        patience := patience - 1;
      }
      failures := failures + 1;
      return false;
    }

    /** Acquire. The semaphore and the token bucket answer freely. */
    method Acquire(rateLimited: bool) returns (ok: bool)
      requires Valid() && Held(log) == 0
      modifies this
      ensures Valid() && Onward() && Sends(log) == old(Sends(log))
      ensures ok ==> Held(log) == 1 && Admitted(log, rateLimited)
      ensures !ok ==> Held(log) == 0
      ensures ok <==> failures == old(failures)
      ensures NoneAnswered(log, |old(log)|)
    {
      hide Held, Sends, Sound, NoneAnswered;
      var patience: nat := *;
      NoneYet(log);
      while patience > 0
        invariant Valid() && Onward() && Held(log) == 0 && Sends(log) == old(Sends(log))
        invariant failures == old(failures) && NoneAnswered(log, |old(log)|)
      {
        ghost var before := log;
        var waited := WaitCooldown();
        if !waited {
          return false;
        }
        Elapse();
        var refused := Fails();
        if refused {
          return false;
        }
        Note(Permit);
        NoneMore(before, Permit, |old(log)|);
        var cooling := CoolingDown();
        NoneMore(before + [Permit], Clear(now, cooldownUntil), |old(log)|);
        if cooling {
          NoneMore(log, Released, |old(log)|);
          Note(Released);
        } else if rateLimited {
          Elapse();
          refused := Fails();
          if refused {
            NoneMore(log, Released, |old(log)|);
            Note(Released);
            return false;
          }
          NoneMore(log, Token, |old(log)|);
          Note(Token);
          ghost var sofar := log;
          cooling := CoolingDown();
          NoneMore(sofar, Clear(now, cooldownUntil), |old(log)|);
          if cooling {
            NoneMore(log, Released, |old(log)|);
            Note(Released);
          } else {
            return true;
          }
        } else {
          return true;
        }
        patience := patience - 1;
      }
      failures := failures + 1;
      return false;
    }

    /** Do: the permit is held until the body is closed; a failed transport or a
        response without a body gives it back at once. */
    method Do(rateLimited: bool) returns (resp: Option<Response>)
      requires Valid() && Held(log) == 0
      modifies this
      ensures Valid() && Onward()
      ensures Held(log) == if resp.Some? && resp.value.hasBody then 1 else 0
      ensures old(Sends(log)) <= Sends(log) <= old(Sends(log)) + 1
      ensures AllAdmitted(log, |old(log)|, rateLimited)
      ensures resp.Some? ==> Sends(log) == old(Sends(log)) + 1
      ensures resp.Some? <==> failures == old(failures)
      ensures AnsweredOnce(log, |old(log)|, resp, now)
    {
      hide Held, Sends, Sound, Admitted, AllAdmitted, NoneAnswered;
      var admitted := Acquire(rateLimited);
      NothingSent(old(log), log);
      ghost var before := log;
      NoneToAdmit(log, |old(log)|, rateLimited);
      if !admitted {
        assert log == before + [];
        OnlyAnswer(before, [], |old(log)|, None, now);
        return None;
      }
      Note(Sent);
      OneAdmitted(before, Sent, |old(log)|, rateLimited);
      Elapse();
      var status: nat, delay: int, hasBody: bool := *, *, *;
      var failed := Fails();
      if failed {
        Note(Released);
        OneAdmitted(before + [Sent], Released, |old(log)|, rateLimited);
        assert log == before + [Sent, Released];
        OnlyAnswer(before, [Sent, Released], |old(log)|, None, now);
        return None;
      }
      Note(Answered(status, delay, now));
      OneAdmitted(before + [Sent], Answered(status, delay, now), |old(log)|, rateLimited);
      resp := Some(Response(status, delay, hasBody));
      if hasBody {
        ghost var after := [Sent, Answered(status, delay, now)];
        assert log == before + after && after[1].Answered?;
        OnlyAnswer(before, after, |old(log)|, resp, now);
      } else {
        Note(Released);
        OneAdmitted(before + [Sent] + [Answered(status, delay, now)], Released, |old(log)|, rateLimited);
        ghost var after := [Sent, Answered(status, delay, now), Released];
        assert log == before + after && after[1].Answered?;
        OnlyAnswer(before, after, |old(log)|, resp, now);
      }
    }

    /** DoWith429Retry: every 429 penalizes; the first is retried, its body closed
        before. Two sends at most, and Sound allows one permit at a time. */
    method DoWith429Retry(rateLimited: bool) returns (resp: Option<Response>)
      requires Valid() && Held(log) == 0
      modifies this
      ensures Valid() && Onward()
      ensures Held(log) == if resp.Some? && resp.value.hasBody then 1 else 0
      ensures Sends(log) <= old(Sends(log)) + 2
      ensures resp.Some? && Sends(log) == old(Sends(log)) + 1 ==> resp.value.status != TOO_MANY_REQUESTS
      ensures AllAdmitted(log, |old(log)|, rateLimited)
      ensures Paid(log, |old(log)|, cooldownUntil)
      ensures resp.Some? <==> failures == old(failures)
    {
      hide Held, Sends, Sound, Admitted, Paid, AnsweredOnce;
      var attempt := 0;
      NonePaid(log, cooldownUntil);
      while attempt < 2
        invariant attempt <= 2 && Valid() && Onward() && Held(log) == 0
        invariant Paid(log, |old(log)|, cooldownUntil) && failures == old(failures)
        invariant Sends(log) == old(Sends(log)) + attempt
        invariant AllAdmitted(log, |old(log)|, rateLimited)
      {
        ghost var before, was := log, cooldownUntil;
        resp := Do(rateLimited);
        MoreAdmitted(before, log, |old(log)|, rateLimited);
        if resp.None? || resp.value.status != TOO_MANY_REQUESTS {
          PaysFor(before, log, |old(log)|, was, resp, now, cooldownUntil);
          return;
        }
        Penalize(resp.value.delay);
        PaysFor(before, log, |old(log)|, was, resp, now, cooldownUntil);
        if attempt == 1 {
          return resp;
        }
        if resp.value.hasBody {
          ghost var sofar := log;
          StillPaid(log, Released, |old(log)|, cooldownUntil, cooldownUntil);
          Note(Released);
          MoreAdmitted(sofar, log, |old(log)|, rateLimited);
        }
        attempt := attempt + 1;
      }
    }
  }

  /** Every request sent from position from on was admitted just before. */
  predicate AllAdmitted(log: seq<Event>, from: nat, rateLimited: bool) {
    forall k :: from <= k < |log| && log[k].Sent? ==> Admitted(log[..k], rateLimited)
  }

  predicate NoneAnswered(log: seq<Event>, from: nat) {
    forall k :: from <= k < |log| ==> !log[k].Answered?
  }

  lemma NoneYet(log: seq<Event>)
    ensures NoneAnswered(log, |log|)
  {
  }

  lemma NoneMore(log: seq<Event>, e: Event, from: nat)
    requires NoneAnswered(log, from) && !e.Answered?
    ensures NoneAnswered(log + [e], from)
  {
  }

  lemma NonePaid(log: seq<Event>, cooldownUntil: int)
    ensures Paid(log, |log|, cooldownUntil)
  {
  }

  lemma {:induction false} OnlyAnswer(before: seq<Event>, after: seq<Event>, from: nat, resp: Option<Response>, now: int)
    requires from <= |before| && NoneAnswered(before, from)
    requires AnsweredOnce(after, 0, resp, now)
    ensures AnsweredOnce(before + after, from, resp, now)
  {
    if resp.Some? {
      var k :| 0 <= k < |after| && after[k].Answered?;
      assert (before + after)[|before| + k].Answered?;
    }
  }

  lemma {:induction false} NoneToAdmit(log: seq<Event>, from: nat, rateLimited: bool)
    requires forall k :: from <= k < |log| ==> !log[k].Sent?
    ensures AllAdmitted(log, from, rateLimited)
  {
  }

  lemma {:induction false} OneAdmitted(log: seq<Event>, e: Event, from: nat, rateLimited: bool)
    requires AllAdmitted(log, from, rateLimited) && (e.Sent? ==> Admitted(log, rateLimited))
    ensures AllAdmitted(log + [e], from, rateLimited)
  {
    var now := log + [e];
    forall k | from <= k < |now| && now[k].Sent?
      ensures Admitted(now[..k], rateLimited)
    {
      assert now[..k] == log[..k];
      assert log[..|log|] == log;
    }
  }

  lemma {:induction false} MoreAdmitted(a: seq<Event>, b: seq<Event>, from: nat, rateLimited: bool)
    requires a <= b && from <= |a| && AllAdmitted(a, from, rateLimited) && AllAdmitted(b, |a|, rateLimited)
    ensures AllAdmitted(b, from, rateLimited)
  {
    forall k | from <= k < |b| && b[k].Sent?
      ensures Admitted(b[..k], rateLimited)
    {
      if k < |a| {
        assert a[..k] == b[..k] && a[k] == b[k];
      }
    }
  }

  lemma {:induction false} NothingSent(a: seq<Event>, b: seq<Event>)
    requires a <= b && Sends(a) == Sends(b)
    ensures forall k :: |a| <= k < |b| ==> !b[k].Sent?
    decreases |b|
  {
    if |a| < |b| {
      SendsGrow(a, b[..|b| - 1]);
      NothingSent(a, b[..|b| - 1]);
    }
  }

  lemma {:induction false} SendsGrow(a: seq<Event>, b: seq<Event>)
    requires a <= b
    ensures Sends(a) <= Sends(b)
    decreases |b|
  {
    if |a| < |b| {
      SendsGrow(a, b[..|b| - 1]);
    } else {
      assert a == b;
    }
  }
}

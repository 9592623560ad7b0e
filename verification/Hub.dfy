/** The wake hub (internal/events/hub.go): one-slot channels in which any number of
    events published since the last receive leave exactly one wake. */
module Hub {
  import opened Wrappers
  import opened JobStore

  type Chan = nat

  datatype Watch = OneJob(job: JobId) | Overview

  datatype Note =
    | Subscribed(ch: Chan, watch: Watch)
    | Published(job: JobId, milestone: bool)
    | Woken(job: JobId)
    | Received(ch: Chan)
    | Left(ch: Chan)
  {
    predicate Hits(watch: Watch) {
      match this
      case Published(j, milestone) => watch == OneJob(j) || (milestone && watch.Overview?)
      case Woken(j) => watch == OneJob(j)
      case _ => false
    }
  }

  /** What ch is subscribed to after a history. */
  function WatchOf(history: seq<Note>, ch: Chan): Option<Watch> {
    if history == [] then None
    else match history[|history| - 1]
      case Subscribed(c, watch) => if c == ch then Some(watch) else WatchOf(history[..|history| - 1], ch)
      case Left(c) => if c == ch then None else WatchOf(history[..|history| - 1], ch)
      case _ => WatchOf(history[..|history| - 1], ch)
  }

  /** Something ch watched was published since it was last received from. */
  predicate Due(history: seq<Note>, ch: Chan) {
    history != [] &&
    var front, last := history[..|history| - 1], history[|history| - 1];
    if last == Received(ch) || (last.Subscribed? && last.ch == ch) then false
    else Due(front, ch) || (WatchOf(front, ch).Some? && last.Hits(WatchOf(front, ch).value))
  }

  lemma {:induction false} OneMore(history: seq<Note>, note: Note, ch: Chan)
    ensures Due(history + [note], ch) ==
      if note == Received(ch) || (note.Subscribed? && note.ch == ch) then false
      else Due(history, ch) || (WatchOf(history, ch).Some? && note.Hits(WatchOf(history, ch).value))
    ensures WatchOf(history + [note], ch) ==
      if note.Subscribed? && note.ch == ch then Some(note.watch)
      else if note == Left(ch) then None
      else WatchOf(history, ch)
  {
    assert (history + [note])[..|history|] == history;
  }

  lemma {:induction false} SubscribedMore(history: seq<Note>, ch: Chan, watch: Watch)
    ensures forall c :: Due(history + [Subscribed(ch, watch)], c) == (c != ch && Due(history, c))
    ensures forall c :: WatchOf(history + [Subscribed(ch, watch)], c) == if c == ch then Some(watch) else WatchOf(history, c)
  {
    hide Due, WatchOf;
    forall c { OneMore(history, Subscribed(ch, watch), c); }
  }

  lemma {:induction false} LeftMore(history: seq<Note>, ch: Chan)
    ensures forall c :: Due(history + [Left(ch)], c) == Due(history, c)
    ensures forall c :: WatchOf(history + [Left(ch)], c) == if c == ch then None else WatchOf(history, c)
  {
    hide Due, WatchOf;
    forall c { OneMore(history, Left(ch), c); }
  }

  class EventHub {
    var subs: map<JobId, set<Chan>>
    var allSubs: set<Chan>
    var slots: map<Chan, bool>
    var closed: set<Chan>
    var next: Chan
    ghost var history: seq<Note>

    /** The maps hold exactly the live subscriptions, and a slot holds a wake exactly
        when one is due. */
    ghost predicate Valid()
      reads this
    {
      && (forall j :: j in subs ==> subs[j] != {})
      && (forall ch, j :: WatchOf(history, ch) == Some(OneJob(j)) <==> j in subs && ch in subs[j])
      && (forall ch :: WatchOf(history, ch) == Some(Overview) <==> ch in allSubs)
      && (forall ch: Chan :: ch in slots ==> ch < next)
      && (forall ch: Chan :: ch < next ==> ch in slots)
      && (forall ch :: ch in slots ==> (slots[ch] <==> Due(history, ch)))
      && (forall ch :: ch in slots ==> (ch in closed <==> WatchOf(history, ch).None?))
      && (forall ch :: ch >= next ==> WatchOf(history, ch).None? && ch !in closed)
    }

    /** The subscribers of a job, and those of the overview, are open. */
    lemma Listening(job: JobId)
      requires Valid()
      ensures forall ch :: ch in Listeners(job) ==> ch in slots && ch !in closed && WatchOf(history, ch) == Some(OneJob(job))
      ensures forall ch :: ch in allSubs ==> ch in slots && ch !in closed
      ensures forall ch :: WatchOf(history, ch) == Some(OneJob(job)) ==> ch in Listeners(job)
    {
      hide WatchOf, Due;
      forall ch | ch in Listeners(job)
        ensures ch in slots && ch !in closed && WatchOf(history, ch) == Some(OneJob(job))
      {
        assert WatchOf(history, ch) == Some(OneJob(job));
      }
    }

    function Listeners(job: JobId): set<Chan>
      reads this
    {
      if job in subs then subs[job] else {}
    }

    constructor ()
      ensures Valid() && history == []
    {
      subs, allSubs, slots, closed, next, history := map[], {}, map[], {}, 0, [];
    }

    method Subscribe(job: JobId) returns (ch: Chan)
      requires Valid()
      modifies this
      ensures Valid() && ch == old(next) && history == old(history) + [Subscribed(ch, OneJob(job))]
    {
      ch := next;
      hide WatchOf, Due;
      SubscribedMore(history, ch, OneJob(job));
      assert forall j :: j in subs ==> WatchOf(history, ch) != Some(OneJob(j));
      if job !in subs {
        subs := subs[job := {}];
      }
      subs := subs[job := subs[job] + {ch}];
      slots, next := slots[ch := false], next + 1;
      history := history + [Subscribed(ch, OneJob(job))];
    }

    method SubscribeAll() returns (ch: Chan)
      requires Valid()
      modifies this
      ensures Valid() && ch == old(next) && history == old(history) + [Subscribed(ch, Overview)]
    {
      ch := next;
      hide WatchOf, Due;
      SubscribedMore(history, ch, Overview);
      allSubs := allSubs + {ch};
      slots, next := slots[ch := false], next + 1;
      history := history + [Subscribed(ch, Overview)];
    }

    /** wake on each of a set of open channels: never blocks, never sends on a closed
        one. */
    method WakeEach(chans: set<Chan>)
      requires forall ch :: ch in chans ==> ch in slots && ch !in closed
      modifies this`slots
      ensures slots.Keys == old(slots).Keys
      ensures forall ch :: ch in slots ==> slots[ch] == (old(slots)[ch] || ch in chans)
    {
      var rest := chans;
      while rest != {}
        invariant rest <= chans && slots.Keys == old(slots).Keys
        invariant forall ch :: ch in slots ==> slots[ch] == (old(slots)[ch] || ch in chans - rest)
        decreases |rest|
      {
        var ch :| ch in rest;
        rest := rest - {ch};
        if !slots[ch] {
          slots := slots[ch := true];
        }
      }
    }

    method Publish(job: JobId, milestone: bool)
      requires Valid()
      modifies this`slots, this`history
      ensures Valid() && history == old(history) + [Published(job, milestone)]
    {
      hide WatchOf, Due;
      forall c { OneMore(history, Published(job, milestone), c); }
      Listening(job);
      WakeEach(Listeners(job));
      if milestone {
        WakeEach(allSubs);
      }
      history := history + [Published(job, milestone)];
    }

    method Wake(job: JobId)
      requires Valid()
      modifies this`slots, this`history
      ensures Valid() && history == old(history) + [Woken(job)]
    {
      hide WatchOf, Due;
      forall c { OneMore(history, Woken(job), c); }
      Listening(job);
      WakeEach(Listeners(job));
      history := history + [Woken(job)];
    }

    /** A receive that does not block, by the subscriber. */
    method Receive(ch: Chan) returns (woken: bool)
      requires Valid() && ch < next
      modifies this`slots, this`history
      ensures Valid() && woken == Due(old(history), ch)
      ensures history == if woken then old(history) + [Received(ch)] else old(history)
    {
      hide WatchOf, Due;
      forall c { OneMore(history, Received(ch), c); }
      woken := slots[ch];
      if woken {
        slots := slots[ch := false];
        history := history + [Received(ch)];
      }
    }

    /** The cancel function of a job's subscription: unregisters and closes, once. */
    method Cancel(ch: Chan, job: JobId)
      requires Valid() && ch < next && (ch in closed || (job in subs && ch in subs[job]))
      modifies this`subs, this`closed, this`history
      ensures Valid() && ch in closed
      ensures history == if ch in old(closed) then old(history) else old(history) + [Left(ch)]
    {
      if ch in closed {
        return;
      }
      hide WatchOf, Due;
      LeftMore(history, ch);
      if job in subs {
        subs := subs[job := subs[job] - {ch}];
        if subs[job] == {} {
          subs := subs - {job};
        }
      }
      closed := closed + {ch};
      history := history + [Left(ch)];
    }

    method CancelAll(ch: Chan)
      requires Valid() && ch < next && (ch in closed || ch in allSubs)
      modifies this`allSubs, this`closed, this`history
      ensures Valid() && ch in closed
      ensures history == if ch in old(closed) then old(history) else old(history) + [Left(ch)]
    {
      if ch in closed {
        return;
      }
      hide WatchOf, Due;
      LeftMore(history, ch);
      allSubs := allSubs - {ch};
      closed := closed + {ch};
      history := history + [Left(ch)];
    }
  }
}

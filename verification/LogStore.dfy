/** The log store (internal/logging/store.go): a ring of the newest records, paged
    lists over it, and live subscribers, against the sequence of all records. */
module LogStore {
  import opened Wrappers

  const CHANNEL_CAP: nat := 256

  /** text is the lowercased search text, attributes those with a string value. */
  datatype Entry = Entry(sequence: nat, time: int, level: string, attributes: map<string, string>, text: string)

  /** A filter with its query lowercased; empty parts select everything. */
  datatype Query = Query(after: nat, levels: seq<string>, component: string, requestID: string, jobID: string,
                         since: Option<int>, until: Option<int>, needle: string)
  {
    predicate Wants(key: string, value: string, e: Entry) {
      value != "" ==> key in e.attributes && e.attributes[key] == value
    }

    /** What a record must say, whatever its sequence. */
    predicate Selects(e: Entry) {
      && (since.Some? ==> e.time >= since.value) && (until.Some? ==> e.time <= until.value)
      && (levels != [] ==> e.level in levels)
      && Wants("component", component, e) && Wants("request_id", requestID, e) && Wants("job_id", jobID, e)
      && (needle != "" ==> Contains(e.text, needle))
    }

    predicate Matches(e: Entry) {
      e.sequence > after && Selects(e)
    }
  }

  const ANY := Query(0, [], "", "", "", None, None, "")

  /** A filter's parts work each on its own: leaving one out lets in exactly what that
      part alone kept out, and with none left every record is selected. */
  lemma PartsSelect(q: Query, e: Entry)
    ensures q.Selects(e) <==> q.(since := None).Selects(e) && (q.since.Some? ==> q.since.value <= e.time)
    ensures q.Selects(e) <==> q.(until := None).Selects(e) && (q.until.Some? ==> e.time <= q.until.value)
    ensures q.Selects(e) <==> q.(levels := []).Selects(e) && (q.levels != [] ==> e.level in q.levels)
    ensures q.Selects(e) <==> q.(component := "").Selects(e) && (q.component != "" ==> Attribute(e, "component") == Some(q.component))
    ensures q.Selects(e) <==> q.(requestID := "").Selects(e) && (q.requestID != "" ==> Attribute(e, "request_id") == Some(q.requestID))
    ensures q.Selects(e) <==> q.(jobID := "").Selects(e) && (q.jobID != "" ==> Attribute(e, "job_id") == Some(q.jobID))
    ensures q.Selects(e) <==> q.(needle := "").Selects(e) && (q.needle != "" ==> exists a, b :: e.text == a + q.needle + b)
    ensures q.(after := 0).Selects(e) <==> q.Selects(e)
    ensures ANY.Selects(e)
  {
    hide Contains;
    ContainsMeans(e.text, q.needle);
  }

  lemma ContainsMeans(text: string, part: string)
    ensures Contains(text, part) <==> exists a, b :: text == a + part + b
  {
    if i :| 0 <= i <= |text| && StartsAt(text, part, i) {
      assert text == text[..i] + part + text[i + |part|..];
    }
    if a, b :| text == a + part + b {
      assert text[|a|..|a| + |part|] == part;
      assert StartsAt(text, part, |a|);
    }
  }

  function Attribute(e: Entry, key: string): Option<string> {
    if key in e.attributes then Some(e.attributes[key]) else None
  }

  predicate Contains(text: string, part: string) {
    exists i :: 0 <= i <= |text| && StartsAt(text, part, i)
  }

  predicate StartsAt(text: string, part: string, i: nat) {
    i + |part| <= |text| && text[i..i + |part|] == part
  }

  /** The records q selects, in order. */
  function Selected(records: seq<Entry>, q: Query): (r: seq<Entry>)
    ensures |r| <= |records|
  {
    if records == [] then []
    else
      var rest := Selected(records[..|records| - 1], q);
      if q.Selects(records[|records| - 1]) then rest + [records[|records| - 1]] else rest
  }

  lemma {:induction false} SelectedConcat(a: seq<Entry>, b: seq<Entry>, q: Query)
    ensures Selected(a + b, q) == Selected(a, q) + Selected(b, q)
  {
    if b == [] {
      assert a + b == a;
    } else {
      assert (a + b)[..|a + b| - 1] == a + b[..|b| - 1];
      SelectedConcat(a, b[..|b| - 1], q);
    }
  }

  /** The first, or the last, n of s; all of it when n is not positive. */
  function First<T>(s: seq<T>, n: int): (r: seq<T>) {
    if n <= 0 || |s| <= n then s else s[..n]
  }

  function Last<T>(s: seq<T>, n: int): (r: seq<T>) {
    if n <= 0 || |s| <= n then s else s[|s| - n..]
  }

  datatype Page = Page(entries: seq<Entry>, nextCursor: nat, oldest: nat, truncated: bool)

  /** The i-th oldest record of a ring whose oldest is at head. */
  function RingAt(ring: seq<Entry>, head: nat, i: nat): Entry
    requires head < |ring| && i < |ring|
  {
    ring[if head + i < |ring| then head + i else head + i - |ring|]
  }

  /** The ring, read from its oldest record on, is tail. */
  ghost predicate Holds(ring: seq<Entry>, head: nat, tail: seq<Entry>) {
    && |tail| == |ring| && (ring == [] || head < |ring|)
    && forall i :: 0 <= i < |ring| ==> RingAt(ring, head, i) == tail[i]
  }

  lemma {:induction false} Grown(ring: seq<Entry>, tail: seq<Entry>, item: Entry)
    requires Holds(ring, 0, tail)
    ensures Holds(ring + [item], 0, tail + [item])
  {
    forall i | 0 <= i < |ring| + 1
      ensures RingAt(ring + [item], 0, i) == (tail + [item])[i]
    {
      assert i < |ring| ==> RingAt(ring, 0, i) == tail[i];
    }
  }

  lemma {:induction false} Overwritten(ring: seq<Entry>, head: nat, tail: seq<Entry>, item: Entry)
    requires ring != [] && Holds(ring, head, tail)
    ensures Holds(ring[head := item], if head + 1 < |ring| then head + 1 else 0, tail[1..] + [item])
  {
    var now, at := ring[head := item], if head + 1 < |ring| then head + 1 else 0;
    forall i | 0 <= i < |ring|
      ensures RingAt(now, at, i) == (tail[1..] + [item])[i]
    {
      if i < |ring| - 1 {
        assert RingAt(ring, head, i + 1) == tail[i + 1];
      }
    }
  }

  lemma Wrapped(head: nat, i: nat, n: nat)
    requires head < n && i <= n
    ensures (head + i) % n == if head + i < n then head + i else head + i - n
  {
    if head + i >= n {
      assert (head + i - n) % n == head + i - n;
      assert (head + i) % n == (head + i - n) % n by {
        assert head + i == n + (head + i - n);
      }
    }
  }

  class Store {
    const capacity: int
    var next: nat
    var ring: seq<Entry>
    var head: nat
    ghost var all: seq<Entry>   // every record ever appended

    /** The retained records. */
    ghost function Tail(): (tail: seq<Entry>)
      requires |ring| <= |all|
      reads this
      ensures |tail| == |ring|
    {
      all[|all| - |ring|..]
    }

    /** Record i of all has sequence i + 1, and the ring holds the last of them, as many
        as fit. */
    ghost predicate Valid()
      reads this
      ensures Valid() ==> |ring| <= |all|
    {
      && next == |all| && (forall i :: 0 <= i < |all| ==> all[i].sequence == i + 1)
      && |ring| == (if capacity <= 0 then 0 else if next < capacity then next else capacity)
      && (|ring| < capacity ==> head == 0)
      && Holds(ring, head, Tail())
    }

    constructor (capacity: int)
      ensures Valid() && all == []
    {
      this.capacity, next, ring, head, all := capacity, 0, [], 0, [];
    }

    /** append, up to the subscribers. */
    method Append(entry: Entry) returns (item: Entry)
      requires Valid()
      modifies this
      ensures Valid() && item == entry.(sequence := old(next) + 1) && all == old(all) + [item]
    {
      hide Holds;
      ghost var tail := Tail();
      next := next + 1;
      item := entry.(sequence := next);
      if capacity > 0 {
        if |ring| < capacity {
          Grown(ring, tail, item);
          ring := ring + [item];
        } else {
          Overwritten(ring, head, tail, item);
          HeadInside(ring, head, tail);
          Wrapped(head, 1, capacity);
          ring := ring[head := item];
          head := (head + 1) % capacity;
        }
      }
      all := all + [item];
      assert capacity > 0 ==> Tail() == if |tail| < |ring| then tail + [item] else tail[1..] + [item];
      assert capacity <= 0 ==> Tail() == tail;
    }

    /** at: the i-th oldest record held. */
    method At(i: nat) returns (item: Entry)
      requires Valid() && i < |ring|
      ensures item == Tail()[i]
    {
      Wrapped(head, i, |ring|);
      assert RingAt(ring, head, i) == Tail()[i];
      return ring[(head + i) % |ring|];
    }

    /** How many of the records held are at or before the cursor. */
    ghost function Skipped(after: nat): (n: nat)
      requires |ring| <= |all|
      reads this
      ensures n <= |ring|
    {
      if after <= |all| - |ring| then 0 else if after >= |all| then |ring| else after - (|all| - |ring|)
    }

    /** Sequences are contiguous, so a cursor says how many records to skip. */
    lemma Sequences(i: nat, q: Query)
      requires Valid() && i < |ring|
      ensures Tail()[i].sequence == |all| - |ring| + i + 1
      ensures Tail()[i].sequence > q.after <==> i >= Skipped(q.after)
      ensures q.Matches(Tail()[i]) <==> i >= Skipped(q.after) && q.Selects(Tail()[i])
    {
    }

    lemma Start(after: nat)
      requires Valid()
      ensures |ring| == 0 ==> Skipped(after) == 0
      ensures |ring| > 0 ==>
        var oldest := Tail()[0].sequence;
        Skipped(after) == if after < oldest then 0 else if after - oldest + 1 < |ring| then after - oldest + 1 else |ring|
    {
      if |ring| > 0 {
        assert Tail()[0] == all[|all| - |ring|];
      }
    }

    method OldestMatches(q: Query, limit: int) returns (out: seq<Entry>)
      requires Valid()
      ensures out == First(Between(Tail(), Skipped(q.after), |ring|, q), limit)
    {
      hide *;
      var start := 0;
      Start(q.after);
      if |ring| > 0 {
        var item := At(0);
        if q.after >= item.sequence {
          start := if q.after - item.sequence + 1 < |ring| then q.after - item.sequence + 1 else |ring|;
        }
      }
      out := OldestFrom(q, limit, start);
    }

    method OldestFrom(q: Query, limit: int, start: nat) returns (out: seq<Entry>)
      requires Valid() && start == Skipped(q.after)
      ensures out == First(Between(Tail(), start, |ring|, q), limit)
    {
      hide *;
      ghost var tail := Tail();
      out := [];
      var i := start;
      NoneBetween(tail, start, q);
      while i < |ring| && (limit <= 0 || |out| < limit)
        invariant start <= i <= |ring|
        invariant out == Between(tail, start, i, q)
        invariant limit <= 0 || |out| <= limit
      {
        var item := At(i);
        Sequences(i, q);
        Extended(tail, start, i, q);
        if q.Matches(item) {
          out := out + [item];
        }
        i := i + 1;
      }
      FirstDone(tail, start, i, q, limit);
    }

    method NewestMatches(q: Query, limit: int) returns (out: seq<Entry>)
      requires Valid()
      ensures out == Last(Between(Tail(), Skipped(q.after), |ring|, q), limit)
    {
      if limit <= 0 {
        out := OldestMatches(q, 0);
      } else {
        out := NewestFrom(q, limit, Skipped(q.after));
      }
    }

    method NewestFrom(q: Query, limit: nat, ghost start: nat) returns (out: seq<Entry>)
      requires Valid() && start == Skipped(q.after) && limit > 0
      ensures out == Last(Between(Tail(), start, |ring|, q), limit)
    {
      hide *;
      ghost var tail := Tail();
      out := [];
      var i := |ring|;
      NoneBetween(tail, i, q);
      NoneReversed(out);
      while i > 0 && |out| < limit
        invariant start <= i <= |ring| && |out| <= limit
        invariant Reversed(out) == Between(tail, i, |tail|, q)
      {
        var item := At(i - 1);
        Sequences(i - 1, q);
        if item.sequence <= q.after {
          break;
        }
        Prepended(tail, i, |tail|, q);
        if q.Matches(item) {
          ReversedAppend(out, item);
          out := out + [item];
        }
        i := i - 1;
      }
      LastDone(tail, start, i, q, limit);
      out := Reversed(out);
    }

    /** After a cursor that is not too old, the held matches are all matches. */
    lemma AllHeld(q: Query)
      requires Valid() && next - |ring| <= q.after <= next
      ensures Between(Tail(), Skipped(q.after), |ring|, q) == Between(all, q.after, |all|, q)
      ensures next == |all| && forall i :: 0 <= i < |all| ==> all[i].sequence == i + 1
    {
      TailFrom(all, |all| - |ring|, Skipped(q.after), q);
    }

    /** The first limit of the matches still held, and where to go on: behind the last of
        them when more are held, at the end otherwise. */
    ghost predicate HeldPage(q: Query, limit: nat, entries: seq<Entry>, cursor: nat)
      requires |ring| <= |all| && limit > 0
      reads this
    {
      var matches := Between(Tail(), Skipped(q.after), |ring|, q);
      && entries == First(matches, limit)
      && cursor == if |matches| > limit then matches[limit - 1].sequence else next
    }

    lemma PageHeld(q: Query, limit: nat)
      requires |ring| <= |all| && limit > 0
      ensures var found := First(Between(Tail(), Skipped(q.after), |ring|, q), limit + 1);
        if |found| > limit then HeldPage(q, limit, found[..limit], found[limit - 1].sequence) else HeldPage(q, limit, found, next)
    {
      hide Between, Tail, Skipped;
    }

    /** List with a cursor: up to limit of the matches after it. */
    method PageAfter(q: Query, limit: nat) returns (entries: seq<Entry>, cursor: nat)
      requires Valid() && limit > 0
      ensures next - |ring| <= q.after <= next ==>
        && q.after <= cursor <= next && |entries| <= limit
        && entries == Between(all, q.after, cursor, q)
        && (cursor < next ==> |entries| == limit)
      ensures HeldPage(q, limit, entries, cursor)
    {
      hide *;
      cursor := next;
      entries := OldestMatches(q, limit + 1);
      PageHeld(q, limit);
      if next - |ring| <= q.after <= next {
        AllHeld(q);
        Paged(all, q.after, q, limit);
      }
      if |entries| > limit {
        entries := entries[..limit];
        cursor := entries[|entries| - 1].sequence;
      }
    }

    /** List. A cursor pages forward; without one the newest matches are shown. */
    method List(q: Query, limit: int) returns (page: Page)
      requires Valid()
      ensures page.truncated <==> 0 < q.after < next - |ring|
      ensures page.oldest == if |ring| == 0 then 0 else next - |ring| + 1
      ensures q.after > 0 && limit > 0 && q.after <= next && !page.truncated ==>
        && q.after <= page.nextCursor <= next && |page.entries| <= limit
        && page.entries == Between(all, q.after, page.nextCursor, q)
        && (page.nextCursor < next ==> |page.entries| == limit)
      // whatever the cursor; after one too old, the page starts at the oldest record held
      ensures q.after > 0 && limit > 0 ==> HeldPage(q, limit, page.entries, page.nextCursor)
      ensures page.truncated ==> Skipped(q.after) == 0
      ensures q.after == 0 || limit <= 0 ==>
        page.nextCursor == next && page.entries == Last(Between(Tail(), Skipped(q.after), |ring|, q), limit)
    {
      hide *;
      page := Page([], next, 0, false);
      NextIsLength();
      TooOld(q.after);
      if |ring| > 0 {
        var item := At(0);
        Sequences(0, q);
        page := page.(oldest := item.sequence, truncated := q.after > 0 && q.after < item.sequence - 1);
      } else if q.after > 0 && q.after < next {
        page := page.(truncated := true);
      }
      if q.after > 0 && limit > 0 {
        var entries, cursor := PageAfter(q, limit);
        return page.(entries := entries, nextCursor := cursor);
      }
      var entries := NewestMatches(q, limit);
      return page.(entries := entries);
    }

    lemma TooOld(after: nat)
      requires Valid()
      ensures after < next - |ring| ==> Skipped(after) == 0
    {
    }

    lemma NextIsLength()
      requires Valid()
      ensures next == |all|
    {
    }
  }

  lemma {:induction false} TailFrom(all: seq<Entry>, base: nat, k: nat, q: Query)
    requires base + k <= |all|
    ensures Between(all[base..], k, |all| - base, q) == Between(all, base + k, |all|, q)
  {
    assert all[base..][k..|all| - base] == all[base + k..|all|];
  }

  /** The k-th match tells where in the records the first k + 1 end. */
  lemma {:induction false} UpToMatch(all: seq<Entry>, lo: nat, hi: nat, q: Query, k: nat)
    requires lo <= hi <= |all| && forall i :: 0 <= i < |all| ==> all[i].sequence == i + 1
    requires k < |Between(all, lo, hi, q)|
    ensures var m := Between(all, lo, hi, q)[k].sequence;
      lo < m <= hi && Between(all, lo, m, q) == Between(all, lo, hi, q)[..k + 1]
    decreases hi
  {
    NoneBetween(all, lo, q);
    Extended(all, lo, hi - 1, q);
    hide Between;
    if k < |Between(all, lo, hi - 1, q)| {
      UpToMatch(all, lo, hi - 1, q, k);
    }
  }

  /** The first limit + 1 matches after a cursor say where the page ends. */
  lemma {:induction false} Paged(all: seq<Entry>, after: nat, q: Query, limit: nat)
    requires after <= |all| && limit > 0 && forall i :: 0 <= i < |all| ==> all[i].sequence == i + 1
    ensures var found := First(Between(all, after, |all|, q), limit + 1);
      if |found| > limit then
        && |found| == limit + 1
        && after < found[limit - 1].sequence <= |all|
        && found[..limit] == Between(all, after, found[limit - 1].sequence, q)
      else found == Between(all, after, |all|, q)
  {
    hide Between;
    var matches := Between(all, after, |all|, q);
    if |matches| > limit {
      UpToMatch(all, after, |all|, q, limit - 1);
    }
  }

  lemma {:induction false} StillBetween(was: seq<Entry>, now: seq<Entry>, lo: nat, hi: nat, q: Query)
    requires was <= now && lo <= hi <= |was|
    ensures Between(now, lo, hi, q) == Between(was, lo, hi, q)
  {
    assert now[lo..hi] == was[lo..hi];
  }

  /** The records of the pages, one page after the other. */
  function Entries(pages: seq<Page>): seq<Entry> {
    if pages == [] then [] else Entries(pages[..|pages| - 1]) + pages[|pages| - 1].entries
  }

  /** Following NextCursor while others append: until a page says Truncated, every match
      between the two cursors came exactly once and in order, and what came is what the
      pages read have. */
  method Follow(store: Store, q: Query, limit: nat) returns (got: seq<Entry>, cursor: nat, ghost pages: seq<Page>)
    requires store.Valid() && 0 < q.after <= store.next && limit > 0
    modifies store
    ensures store.Valid() && old(store.all) <= store.all
    ensures q.after <= cursor <= store.next && got == Between(store.all, q.after, cursor, q)
    ensures got == Entries(pages) && cursor == if pages == [] then q.after else pages[|pages| - 1].nextCursor
  {
    hide Between;
    got, cursor, pages := [], q.after, [];
    NoneBetween(store.all, q.after, q);
    var rounds: nat := *;
    while rounds > 0
      invariant store.Valid() && old(store.all) <= store.all
      invariant q.after <= cursor <= store.next && got == Between(store.all, q.after, cursor, q)
      invariant got == Entries(pages) && cursor == if pages == [] then q.after else pages[|pages| - 1].nextCursor
    {
      var appended: bool, entry: Entry := *, *;
      if appended {
        ghost var was := store.all;
        var item := store.Append(entry);
        StillBetween(was, store.all, q.after, cursor, q);
      } else {
        var page := store.List(q.(after := cursor), limit);
        if page.truncated {
          return;
        }
        SameSelection(store.all, cursor, page.nextCursor, q, cursor);
        assert (pages + [page])[..|pages|] == pages;
        pages := pages + [page];
        Split(store.all, q.after, cursor, page.nextCursor, q);
        got, cursor := got + page.entries, page.nextCursor;
      }
      rounds := rounds - 1;
    }
  }

  lemma {:induction false} SameSelection(all: seq<Entry>, lo: nat, hi: nat, q: Query, after: nat)
    requires lo <= hi <= |all|
    ensures Between(all, lo, hi, q.(after := after)) == Between(all, lo, hi, q)
    decreases hi
  {
    NoneBetween(all, lo, q);
    NoneBetween(all, lo, q.(after := after));
    if lo < hi {
      Extended(all, lo, hi - 1, q);
      Extended(all, lo, hi - 1, q.(after := after));
      SameSelection(all, lo, hi - 1, q, after);
    }
  }

  /** The selected ones of records lo up to hi. */
  function Between(records: seq<Entry>, lo: nat, hi: nat, q: Query): seq<Entry>
    requires lo <= hi <= |records|
  {
    Selected(records[lo..hi], q)
  }

  lemma NoneBetween(records: seq<Entry>, at: nat, q: Query)
    requires at <= |records|
    ensures Between(records, at, at, q) == []
  {
  }

  lemma {:induction false} Split(records: seq<Entry>, lo: nat, mid: nat, hi: nat, q: Query)
    requires lo <= mid <= hi <= |records|
    ensures Between(records, lo, hi, q) == Between(records, lo, mid, q) + Between(records, mid, hi, q)
  {
    assert records[lo..mid] + records[mid..hi] == records[lo..hi];
    SelectedConcat(records[lo..mid], records[mid..hi], q);
  }

  lemma {:induction false} OneBetween(records: seq<Entry>, at: nat, q: Query)
    requires at < |records|
    ensures Between(records, at, at + 1, q) == if q.Selects(records[at]) then [records[at]] else []
  {
    assert records[at..at + 1] == [] + [records[at]];
    OneSelected([], records[at], q);
  }

  lemma {:induction false} Extended(records: seq<Entry>, lo: nat, hi: nat, q: Query)
    requires lo <= hi < |records|
    ensures Between(records, lo, hi + 1, q) == Between(records, lo, hi, q) + if q.Selects(records[hi]) then [records[hi]] else []
  {
    Split(records, lo, hi, hi + 1, q);
    OneBetween(records, hi, q);
  }

  lemma {:induction false} Prepended(records: seq<Entry>, lo: nat, hi: nat, q: Query)
    requires 0 < lo <= hi <= |records|
    ensures Between(records, lo - 1, hi, q) == (if q.Selects(records[lo - 1]) then [records[lo - 1]] else []) + Between(records, lo, hi, q)
  {
    Split(records, lo - 1, lo, hi, q);
    OneBetween(records, lo - 1, q);
  }

  lemma {:induction false} FirstDone(records: seq<Entry>, lo: nat, i: nat, q: Query, limit: int)
    requires lo <= i <= |records|
    requires var out := Between(records, lo, i, q);
      (limit <= 0 || |out| <= limit) && (i == |records| || (limit > 0 && |out| == limit))
    ensures Between(records, lo, i, q) == First(Between(records, lo, |records|, q), limit)
  {
    Split(records, lo, i, |records|, q);
    NoneBetween(records, |records|, q);
  }

  lemma {:induction false} LastDone(records: seq<Entry>, lo: nat, i: nat, q: Query, limit: int)
    requires lo <= i <= |records| && limit > 0
    requires var out := Between(records, i, |records|, q); |out| <= limit && (i == lo || |out| == limit)
    ensures Between(records, i, |records|, q) == Last(Between(records, lo, |records|, q), limit)
  {
    Split(records, lo, i, |records|, q);
    NoneBetween(records, lo, q);
  }

  lemma HeadInside(ring: seq<Entry>, head: nat, tail: seq<Entry>)
    requires Holds(ring, head, tail) && ring != []
    ensures head < |ring|
  {
  }

  lemma OneSelected(records: seq<Entry>, item: Entry, q: Query)
    ensures Selected(records + [item], q) == Selected(records, q) + if q.Selects(item) then [item] else []
  {
    assert (records + [item])[..|records|] == records;
  }

  function Reversed<T>(s: seq<T>): (r: seq<T>)
    ensures |r| == |s|
  {
    if s == [] then [] else [s[|s| - 1]] + Reversed(s[..|s| - 1])
  }

  lemma NoneReversed<T>(s: seq<T>)
    requires s == []
    ensures Reversed(s) == []
  {
  }

  lemma ReversedAppend<T>(s: seq<T>, x: T)
    ensures Reversed(s + [x]) == [x] + Reversed(s)
  {
    assert (s + [x])[..|s|] == s;
  }

  // ---- Live subscribers

  type Channel = nat

  /** put is everything ever sent on the channel, taken how much of it was received. */
  datatype Stream = Stream(query: Query, backlog: seq<Entry>, put: seq<Entry>, taken: nat, closed: bool)

  /** How it was when a subscriber came: how many of all records were no longer held, how
      many there were, and the limit it asked for. */
  datatype Opening = Opening(gone: nat, since: nat, limit: int)

  /** The subscribers of a store: its subs map and their channels. */
  class Fanout {
    const store: Store
    var subs: set<Channel>
    var streams: map<Channel, Stream>
    ghost var origin: map<Channel, Opening>
    ghost var until: map<Channel, nat>  // records there were when it was closed, or are

    ghost predicate Delivering()
      reads this, store
    {
      && store.Valid() && origin.Keys == streams.Keys && until.Keys == streams.Keys
      && subs <= streams.Keys
      && forall c :: c in streams ==> StreamOk(store.all, streams[c], c in subs, origin[c].since, until[c])
    }

    ghost predicate Valid()
      reads this, store
    {
      && Delivering()
      && forall c :: c in streams ==> BacklogOk(store.all, streams[c], origin[c])
    }

    constructor (capacity: int)
      ensures Valid() && fresh(store) && subs == {} && store.all == []
    {
      hide Between, Query.Selects, Query.Matches, StreamOk, Holds, Store.Valid;
      store := new Store(capacity);
      subs, streams, origin, until := {}, map[], map[], map[];
    }

    /** Subscribe: the backlog and the registration in one step. */
    method Subscribe(q: Query, limit: int) returns (c: Channel, backlog: seq<Entry>)
      requires Valid()
      modifies this
      ensures Valid() && c !in old(streams) && streams == old(streams)[c := Stream(q, backlog, [], 0, false)]
      ensures subs == old(subs) + {c} && origin[c] == Opening(|store.all| - |store.ring|, |store.all|, limit)
      ensures backlog == Last(Between(store.Tail(), store.Skipped(q.after), |store.ring|, q), if q.after > 0 then 0 else limit)
    {
      hide StreamOk, BacklogOk, Store.Valid, Between, Last, Store.Tail, Store.Skipped;
      c := NewChannel(streams.Keys);
      backlog := store.NewestMatches(q, if q.after > 0 then 0 else limit);
      OpensOk(store.all, q, backlog);
      BacklogOpens(q, limit, backlog);
      ghost var were := streams;
      subs, streams := subs + {c}, streams[c := Stream(q, backlog, [], 0, false)];
      origin, until := origin[c := Opening(|store.all| - |store.ring|, |store.all|, limit)], until[c := |store.all|];
      forall d | d in streams
        ensures StreamOk(store.all, streams[d], d in subs, origin[d].since, until[d])
        ensures BacklogOk(store.all, streams[d], origin[d])
      {
        assert d != c ==> d in were;
      }
    }

    lemma BacklogOpens(q: Query, limit: int, backlog: seq<Entry>)
      requires store.Valid()
      requires backlog == Last(Between(store.Tail(), store.Skipped(q.after), |store.ring|, q), if q.after > 0 then 0 else limit)
      ensures BacklogOk(store.all, Stream(q, backlog, [], 0, false), Opening(|store.all| - |store.ring|, |store.all|, limit))
    {
      hide Between, Last, Holds;
      TailFrom(store.all, |store.all| - |store.ring|, store.Skipped(q.after), q);
    }

    /** Of every stream, registered or closed, at any time. */
    lemma WholeStream(c: Channel)
      requires Valid() && c in streams
      ensures var s, at := streams[c], origin[c];
        && until[c] <= |store.all| && at.gone <= at.since <= |store.all| && (c in subs ==> until[c] == |store.all|)
        && Suffix(s.backlog + s.put, MatchesTo(store.all, s.query, until[c]))
        && (at.gone <= s.query.after && s.query.after > 0 ==> s.backlog + s.put == MatchesTo(store.all, s.query, until[c]))
    {
      hide Between, Last, Store.Valid, Suffix, MatchesTo;
      NoHole(store.all, streams[c], c in subs, until[c], origin[c]);
    }

    /** The newest record offered to one subscriber. */
    method Offer(c: Channel, item: Entry)
      requires store.Valid() && c in subs && c in streams && c in origin && c in until
      requires store.all != [] && item == store.all[|store.all| - 1]
      requires StreamPending(store.all, streams[c], origin[c].since, until[c])
      modifies this`subs, this`streams, this`until
      ensures subs == old(subs) || subs == old(subs) - {c}
      ensures c in streams && c in until
      ensures streams == old(streams)[c := streams[c]] && until == old(until)[c := until[c]]
      ensures StreamOk(store.all, streams[c], c in subs, origin[c].since, until[c])
      ensures streams[c].query == old(streams)[c].query && streams[c].backlog == old(streams)[c].backlog
      ensures old(streams)[c].put <= streams[c].put
    {
      hide Between, Query.Selects, Query.Matches, StreamOk, PutUpTo, Holds;
      var s := streams[c];
      ItemIs(store);
      Delivered(store.all, s, origin[c].since, until[c]);
      if !s.query.Matches(item) {
        until := until[c := |store.all|];
      } else if |s.put| - s.taken < CHANNEL_CAP {
        streams := streams[c := s.(put := s.put + [item])];
        until := until[c := |store.all|];
      } else {
        assert !s.closed;
        subs, streams := subs - {c}, streams[c := s.(closed := true)];
      }
    }

    /** The newest record offered to every subscriber. */
    method OfferAll(item: Entry)
      requires store.Valid() && store.all != [] && item == store.all[|store.all| - 1]
      requires subs <= streams.Keys && origin.Keys == streams.Keys && until.Keys == streams.Keys
      requires forall c :: c in streams ==>
        if c in subs then StreamPending(store.all, streams[c], origin[c].since, until[c])
        else StreamOk(store.all, streams[c], false, origin[c].since, until[c])
      modifies this`subs, this`streams, this`until
      ensures Delivering() && streams.Keys == old(streams.Keys) && subs <= old(subs)
      ensures forall c :: c in streams ==> Grew(old(streams)[c], streams[c])
    {
      hide Store.Valid, StreamPending, StreamOk, Grew;
      ghost var before := streams;
      forall c | c in streams ensures Grew(before[c], streams[c]) { GrewRefl(streams[c]); }
      var rest := subs;
      while rest != {}
        invariant rest <= subs <= old(subs) && subs <= streams.Keys
        invariant streams.Keys == before.Keys && until.Keys == origin.Keys == before.Keys
        invariant forall c :: c in streams ==>
          if c in rest then StreamPending(store.all, streams[c], origin[c].since, until[c])
          else StreamOk(store.all, streams[c], c in subs, origin[c].since, until[c])
        invariant forall c :: c in streams ==> Grew(before[c], streams[c])
        decreases rest
      {
        var c :| c in rest;
        rest := rest - {c};
        ghost var was := streams[c];
        Offer(c, item);
        GrewMore(before[c], was, streams[c]);
      }
    }

    /** append: every subscriber gets the record if it matches and its channel has room;
        one without room is closed, so that its stream has no hole. */
    method Append(entry: Entry)
      requires Valid()
      modifies this, store
      ensures Valid() && |store.all| == |old(store.all)| + 1 && old(store.all) <= store.all
      ensures streams.Keys == old(streams.Keys) && subs <= old(subs)
      ensures origin == old(origin)
      ensures forall c :: c in streams ==> Grew(old(streams)[c], streams[c])
    {
      hide StreamOk, StreamPending, BacklogOk, Store.Valid, Grew;
      ghost var was, before := store.all, streams;
      var item := store.Append(entry);
      forall c | c in streams
        ensures if c in subs then StreamPending(store.all, streams[c], origin[c].since, until[c])
                else StreamOk(store.all, streams[c], false, origin[c].since, until[c])
      {
        Kept(was, store.all, streams[c], c in subs, origin[c].since, until[c]);
      }
      OfferAll(item);
      forall c | c in streams
        ensures BacklogOk(store.all, streams[c], origin[c])
      {
        BacklogKept(was, store.all, before[c], streams[c], origin[c]);
      }
    }

    /** The cancel function; calling it again does nothing. */
    method Cancel(c: Channel)
      requires Valid() && c in streams
      modifies this`subs, this`streams
      ensures Valid() && subs == old(subs) - {c}
      ensures streams == old(streams)[c := old(streams)[c].(closed := true)]
    {
      hide StreamOk, Store.Valid, Between, Last;
      ClosingKeeps(store.all, streams[c], c in subs, origin[c].since, until[c]);
      if c in subs {
        subs, streams := subs - {c}, streams[c := streams[c].(closed := true)];
      }
    }

    /** The client receives. */
    method Receive(c: Channel) returns (item: Option<Entry>)
      requires Valid() && c in streams
      modifies this`streams
      ensures Valid()
      ensures item.None? ==> streams == old(streams)
      ensures item.Some? ==> old(streams)[c].taken < |old(streams)[c].put| && item.value == old(streams)[c].put[old(streams)[c].taken]
    {
      hide Between, Last, Store.Valid;
      var s := streams[c];
      if s.taken == |s.put| {
        return None;
      }
      TakingKeeps(store.all, s, c in subs, until[c], origin[c]);
      hide StreamOk, BacklogOk;
      streams := streams[c := s.(taken := s.taken + 1)];
      return Some(s.put[s.taken]);
    }
  }

  /** Sending only appends to what was put. */
  predicate Grew(s: Stream, t: Stream) {
    t.query == s.query && t.backlog == s.backlog && s.put <= t.put
  }

  lemma GrewRefl(s: Stream)
    ensures Grew(s, s)
  {
  }

  lemma GrewMore(s: Stream, t: Stream, u: Stream)
    requires Grew(s, t) && u.query == t.query && u.backlog == t.backlog && t.put <= u.put
    ensures Grew(s, u)
  {
  }

  method NewChannel(used: set<Channel>) returns (c: Channel)
    ensures c !in used && forall d :: d in used ==> d < c
  {
    c := 0;
    var rest := used;
    while rest != {}
      invariant forall d :: d in used ==> d in rest || d < c
      decreases rest
    {
      var d :| d in rest;
      rest := rest - {d};
      if d >= c {
        c := d + 1;
      }
    }
  }

  /** The records from which a stream delivers: those after it subscribed that its own
      cursor does not exclude. */
  function FromWhere(s: Stream, since: nat): nat {
    if s.query.after > since then s.query.after else since
  }

  ghost predicate PutUpTo(all: seq<Entry>, s: Stream, since: nat, until: nat) {
    && since <= until <= |all| && s.taken <= |s.put| <= s.taken + CHANNEL_CAP
    && s.put == if FromWhere(s, since) <= until then Between(all, FromWhere(s, since), until, s.query) else []
  }

  /** What was put is exactly the matches from the subscription on: to the end while
      open, and to some point once closed. */
  ghost predicate StreamOk(all: seq<Entry>, s: Stream, open_: bool, since: nat, until: nat) {
    && PutUpTo(all, s, since, until) && s.closed == !open_ && (open_ ==> until == |all|)
  }

  /** The same, but the newest record is still to be delivered. */
  ghost predicate StreamPending(all: seq<Entry>, s: Stream, since: nat, until: nat) {
    PutUpTo(all, s, since, until) && !s.closed && until + 1 == |all|
  }

  /** The backlog is the newest of the matches that were held when it subscribed: all of
      them with a cursor, and the newest limit of them without one. */
  ghost predicate BacklogOk(all: seq<Entry>, s: Stream, at: Opening) {
    && at.gone <= at.since <= |all|
    && s.backlog == Last(Between(all, HeldAfter(s.query.after, at.gone, at.since), at.since, s.query),
                         if s.query.after > 0 then 0 else at.limit)
  }

  function HeldAfter(after: nat, gone: nat, since: nat): (n: nat)
    requires gone <= since
    ensures gone <= n <= since
  {
    if after <= gone then gone else if after <= since then after else since
  }

  lemma {:induction false} BacklogKept(was: seq<Entry>, now: seq<Entry>, s: Stream, t: Stream, at: Opening)
    requires BacklogOk(was, s, at) && was <= now && Grew(s, t)
    ensures BacklogOk(now, t, at)
  {
    hide Between, Last;
    StillBetween(was, now, HeldAfter(s.query.after, at.gone, at.since), at.since, s.query);
  }

  lemma {:induction false} OpensOk(all: seq<Entry>, q: Query, backlog: seq<Entry>)
    ensures StreamOk(all, Stream(q, backlog, [], 0, false), true, |all|, |all|)
  {
    NoneBetween(all, |all|, q);
  }

  lemma {:induction false} ClosingKeeps(all: seq<Entry>, s: Stream, open_: bool, since: nat, until: nat)
    requires StreamOk(all, s, open_, since, until)
    ensures StreamOk(all, s.(closed := true), false, since, until) && (!open_ ==> s == s.(closed := true))
    ensures open_ ==> !s.closed
  {
  }

  lemma {:induction false} TakingKeeps(all: seq<Entry>, s: Stream, open_: bool, until: nat, at: Opening)
    requires StreamOk(all, s, open_, at.since, until) && BacklogOk(all, s, at) && s.taken < |s.put|
    ensures var t := s.(taken := s.taken + 1); StreamOk(all, t, open_, at.since, until) && BacklogOk(all, t, at)
  {
    hide Between, Last;
  }

  lemma {:induction false} Kept(was: seq<Entry>, now: seq<Entry>, s: Stream, open_: bool, since: nat, until: nat)
    requires StreamOk(was, s, open_, since, until) && was <= now && |now| == |was| + 1
    ensures if open_ then StreamPending(now, s, since, until) else StreamOk(now, s, open_, since, until)
  {
    hide Between;
    if FromWhere(s, since) <= until {
      StillBetween(was, now, FromWhere(s, since), until, s.query);
    }
  }

  lemma {:induction false} Delivered(all: seq<Entry>, s: Stream, since: nat, until: nat)
    requires StreamPending(all, s, since, until) && all[until].sequence == until + 1
    ensures !s.query.Matches(all[until]) ==> StreamOk(all, s, true, since, |all|)
    ensures s.query.Matches(all[until]) && |s.put| - s.taken < CHANNEL_CAP ==>
      StreamOk(all, s.(put := s.put + [all[until]]), true, since, |all|)
    ensures StreamOk(all, s.(closed := true), false, since, until)
  {
    hide Between, Query.Selects;
    var lo := FromWhere(s, since);
    if lo <= until {
      Extended(all, lo, until, s.query);
    } else if lo == until + 1 {
      NoneBetween(all, lo, s.query);
    }
  }

  lemma ItemIs(store: Store)
    requires store.Valid()
    ensures forall i :: 0 <= i < |store.all| ==> store.all[i].sequence == i + 1
  {
  }

  ghost predicate Suffix(s: seq<Entry>, t: seq<Entry>) {
    |s| <= |t| && s == t[|t| - |s|..]
  }

  /** The matches after the cursor among the first upto records. */
  function MatchesTo(all: seq<Entry>, q: Query, upto: nat): seq<Entry>
    requires upto <= |all|
  {
    Between(all, if q.after <= upto then q.after else upto, upto, q)
  }

  /** A subscriber's whole stream, the backlog and everything put, ends with the newest
      match there was and has no hole. It is every match after the cursor exactly when
      none of those was dropped before it subscribed and its limit cut none. */
  lemma {:induction false} NoHole(all: seq<Entry>, s: Stream, open_: bool, until: nat, at: Opening)
    requires StreamOk(all, s, open_, at.since, until) && BacklogOk(all, s, at)
    ensures Suffix(s.backlog + s.put, MatchesTo(all, s.query, until)) && (open_ ==> until == |all|)
    ensures s.backlog + s.put == MatchesTo(all, s.query, until) <==>
      && (s.query.after < at.gone ==> Between(all, s.query.after, at.gone, s.query) == [])
      && (s.query.after == 0 && at.limit > 0 ==> |MatchesTo(all, s.query, at.since)| <= at.limit)
  {
    hide Between;
    var q, since := s.query, at.since;
    if q.after <= since {
      var from := HeldAfter(q.after, at.gone, since);
      Split(all, q.after, since, until, q);
      Split(all, q.after, from, since, q);
      NoneBetween(all, q.after, q);
      Ends(Between(all, q.after, from, q), Between(all, from, since, q), if q.after > 0 then 0 else at.limit, s.put);
    } else {
      NoneBetween(all, since, q);
      NoneBetween(all, until, q);
    }
  }

  lemma Ends(dropped: seq<Entry>, held: seq<Entry>, n: int, put: seq<Entry>)
    ensures Suffix(Last(held, n) + put, (dropped + held) + put)
    ensures Last(held, n) + put == (dropped + held) + put <==> dropped == [] && (n > 0 ==> |held| <= n)
  {
    assert |dropped + held + put| == |dropped| + |held| + |put|;
  }
}

/** The priority semaphore (internal/limits/semaphore.go): an indexed binary heap of
    waiters, ordered by priority, subpriority and arrival. */
module Semaphore {
  import opened Wrappers

  datatype Rank = Rank(priority: int, subpriority: int, arrival: nat) {
    predicate Less(other: Rank) {
      if priority != other.priority then priority < other.priority
      else if subpriority != other.subpriority then subpriority < other.subpriority
      else arrival < other.arrival
    }

    /** Field by field: no larger priority; of the same priority no larger subpriority;
        of the same both no later arrival. */
    predicate NoLater(other: Rank) {
      && priority <= other.priority
      && (priority == other.priority ==> subpriority <= other.subpriority)
      && (priority == other.priority && subpriority == other.subpriority ==> arrival <= other.arrival)
    }
  }

  lemma LessMeans(a: Rank, b: Rank)
    ensures !b.Less(a) <==> a.NoLater(b)
  {
  }

  /** index is the position in the heap, -1 once out of it; ready is its channel. */
  class Waiter {
    const rank: Rank
    var index: int
    var ready: bool

    constructor (rank: Rank)
      ensures this.rank == rank && !ready
    {
      this.rank, index, ready := rank, -1, false;
    }
  }

  function Parent(k: nat): nat {
    if k == 0 then 0 else (k - 1) / 2
  }

  predicate OrderedAt(h: seq<Waiter>, k: nat)
    requires k < |h|
  {
    !h[k].rank.Less(h[Parent(k)].rank)
  }

  predicate Ordered(h: seq<Waiter>, n: nat)
    requires n <= |h|
  {
    forall k :: 0 <= k < n ==> OrderedAt(h, k)
  }

  /** The root is the least. */
  lemma {:induction false} RootIsLeast(h: seq<Waiter>, n: nat, k: nat)
    requires k < n <= |h| && Ordered(h, n)
    ensures h[0].rank.NoLater(h[k].rank)
  {
    if k > 0 {
      RootIsLeast(h, n, Parent(k));
      assert OrderedAt(h, k);
      LessMeans(h[Parent(k)].rank, h[k].rank);
    }
  }

  /** container/heap over waiterHeap. */
  class WaiterHeap {
    var h: seq<Waiter>

    /** The index field locates every waiter; so none occurs twice. */
    ghost predicate Indexed()
      reads this, h
    {
      forall k :: 0 <= k < |h| ==> h[k].index == k
    }

    ghost function Elems(): set<Waiter>
      reads this
    {
      set w | w in h
    }

    ghost predicate Valid()
      reads this, h
    {
      Indexed() && Ordered(h, |h|)
    }

    constructor ()
      ensures Valid() && h == []
    {
      h := [];
    }

    method Swap(i: nat, j: nat)
      requires i < |h| && j < |h| && Indexed()
      modifies this, Elems()
      ensures h == old(h)[i := old(h)[j]][j := old(h)[i]]
      ensures Indexed() && Elems() == old(Elems())
      ensures forall w :: w in Elems() ==> w.ready == old(w.ready)
    {
      ghost var was := h;
      h := h[i := h[j]][j := h[i]];
      assert h[i] == was[j] && h[j] == was[i];
      h[i].index := i;
      h[j].index := j;
      assert forall w :: w in was ==> w in h by {
        forall w | w in was
          ensures w in h
        {
          var k :| 0 <= k < |was| && was[k] == w;
          assert h[if k == i then j else if k == j then i else k] == w;
        }
      }
    }

    /** container/heap up, within the first n: only position j0 may be out of order
        with its parent. */
    method Up(j0: nat, n: nat)
      requires j0 < n <= |h| && Indexed() && UpFrom(h, j0, n)
      modifies this, Elems()
      ensures |h| == old(|h|) && Indexed() && Ordered(h, n) && Elems() == old(Elems()) && h[n..] == old(h[n..])
      ensures forall w :: w in Elems() ==> w.ready == old(w.ready)
    {
      var j: nat := j0;
      while true
        invariant j < n && |h| == old(|h|) && Indexed() && Elems() == old(Elems()) && h[n..] == old(h[n..])
        invariant UpFrom(h, j, n)
        invariant forall w :: w in Elems() ==> w.ready == old(w.ready)
        decreases j
      {
        var i := Parent(j);
        if i == j || !h[j].rank.Less(h[i].rank) {
          break;
        }
        SwappedUp(h, j, n);
        Swap(i, j);
        j := i;
      }
    }

    /** container/heap down over the first n: only position i0 may be out of order
        with its children, and they are in order with its parent. */
    method Down(i0: nat, n: nat) returns (moved: bool)
      requires i0 < n <= |h| && Indexed()
      requires DownFrom(h, i0, n)
      modifies this, Elems()
      ensures Indexed() && Elems() == old(Elems()) && |h| == old(|h|) && h[n..] == old(h[n..])
      ensures moved ==> Ordered(h, n)
      ensures !moved ==> h == old(h) && forall k :: 0 <= k < n && k != i0 ==> OrderedAt(h, k)
      ensures forall w :: w in Elems() ==> w.ready == old(w.ready)
    {
      hide OrderedAt, DownFrom, Parent;
      var i: nat := i0;
      while true
        invariant i0 <= i < n && |h| == old(|h|) && Indexed() && Elems() == old(Elems()) && h[n..] == old(h[n..])
        invariant DownFrom(h, i, n)
        invariant if i == i0 then h == old(h) else OrderedAt(h, i)
        invariant forall w :: w in Elems() ==> w.ready == old(w.ready)
        decreases n - i
      {
        var j := 2 * i + 1;
        if j >= n {
          NoChildren(h, i, n);
          break;
        }
        if j + 1 < n && h[j + 1].rank.Less(h[j].rank) {
          j := j + 1;
        }
        LesserChild(h, i, j, n);
        if !h[j].rank.Less(h[i].rank) {
          InPlace(h, i, j, n);
          break;
        }
        SwappedDown(h, i, j, n);
        Swap(i, j);
        i := j;
      }
      if i > i0 {
        AllOrdered(h, i, n);
      }
      return i > i0;
    }

    /** heap.Push with waiterHeap.Push. */
    method Push(w: Waiter)
      requires Valid() && w !in Elems()
      modifies this, Elems(), w
      ensures Valid() && Elems() == old(Elems()) + {w}
      ensures forall v :: v in Elems() ==> v.ready == old(v.ready)
    {
      w.index := |h|;
      ghost var was := h;
      h := h + [w];
      assert Elems() == old(Elems()) + {w};
      Extended(was, w);
      Up(|h| - 1, |h|);
    }

    /** waiterHeap.Pop: the last waiter leaves the heap. */
    method TakeLast() returns (w: Waiter)
      requires h != [] && Indexed() && Ordered(h, |h| - 1)
      modifies this, Elems()
      ensures Valid() && w == old(h[|h| - 1]) && w.index == -1
      ensures Elems() == old(Elems()) - {w} && w in old(Elems())
      ensures forall v :: v in old(Elems()) ==> v.ready == old(v.ready)
    {
      ghost var was := h;
      w := h[|h| - 1];
      h := h[..|h| - 1];
      w.index := -1;
      Dropped(was);
      assert forall v :: v in was ==> v == w || v in h by {
        forall v | v in was && v != w
          ensures v in h
        {
          var k :| 0 <= k < |was| && was[k] == v;
          assert h[k] == v;
        }
      }
    }

    /** heap.Pop: the least waiter. */
    method PopLeast() returns (w: Waiter)
      requires Valid() && h != []
      modifies this, Elems()
      ensures Valid() && w in old(Elems()) && w.index == -1 && Elems() == old(Elems()) - {w}
      ensures forall v :: v in old(Elems()) ==> w.rank.NoLater(v.rank) && v.ready == old(v.ready)
    {
      hide OrderedAt, DownFrom, Parent;
      var n := |h| - 1;
      AllAtLeastRoot(h);
      ghost var least := h[0];
      if n > 0 {
        Replaced(h, 0);
      }
      Swap(0, n);
      if n > 0 {
        var moved := Down(0, n);
        if !moved {
          RootOrdered(h, n);
        }
      }
      assert h[n..][0] == least;
      w := TakeLast();
    }

    /** heap.Remove. */
    method Remove(i: nat) returns (w: Waiter)
      requires Valid() && i < |h|
      modifies this, Elems()
      ensures Valid() && w == old(h[i]) && w.index == -1 && Elems() == old(Elems()) - {w}
      ensures forall v :: v in old(Elems()) ==> v.ready == old(v.ready)
    {
      hide OrderedAt, DownFrom, Parent;
      var n := |h| - 1;
      ghost var target := h[i];
      if n != i {
        Replaced(h, i);
        Swap(i, n);
        ghost var swapped := h;
        var moved := Down(i, n);
        if !moved {
          NotMoved(swapped, i, n);
          Up(i, n);
        }
        assert h[n..][0] == target;
      } else {
        Shorter(h, n);
      }
      w := TakeLast();
    }
  }

  lemma {:induction false} AllAtLeastRoot(h: seq<Waiter>)
    requires h != [] && Ordered(h, |h|)
    ensures forall v :: v in h ==> h[0].rank.NoLater(v.rank)
  {
    forall v | v in h
      ensures h[0].rank.NoLater(v.rank)
    {
      var k :| 0 <= k < |h| && h[k] == v;
      RootIsLeast(h, |h|, k);
    }
  }

  lemma RootOrdered(h: seq<Waiter>, n: nat)
    requires 0 < n <= |h| && forall k :: 0 <= k < n && k != 0 ==> OrderedAt(h, k)
    ensures Ordered(h, n)
  {
  }

  lemma Shorter(h: seq<Waiter>, n: nat)
    requires n <= |h| && Ordered(h, |h|)
    ensures Ordered(h, n)
  {
  }

  lemma {:induction false} NotMoved(h: seq<Waiter>, i: nat, n: nat)
    requires i < n <= |h| && DownFrom(h, i, n) && forall k :: 0 <= k < n && k != i ==> OrderedAt(h, k)
    ensures UpFrom(h, i, n)
  {
    forall k | 0 < k < n && Parent(k) == i
      ensures !h[k].rank.Less(h[Parent(i)].rank)
    {
      assert OrderedAt(h, k);
    }
  }

  lemma {:induction false} Extended(was: seq<Waiter>, w: Waiter)
    requires Ordered(was, |was|)
    ensures UpFrom(was + [w], |was|, |was| + 1)
  {
    var h := was + [w];
    forall k | 0 <= k < |was|
      ensures OrderedAt(h, k)
    {
      assert OrderedAt(was, k);
    }
  }

  lemma {:induction false} Dropped(was: seq<Waiter>)
    requires was != [] && Ordered(was, |was| - 1)
    ensures Ordered(was[..|was| - 1], |was| - 1)
  {
    var h := was[..|was| - 1];
    forall k | 0 <= k < |h|
      ensures OrderedAt(h, k)
    {
      assert OrderedAt(was, k);
    }
  }

  /** All in order but position i against its children, which are not below its
      parent. */
  predicate DownFrom(h: seq<Waiter>, i: nat, n: nat)
    requires i < n <= |h|
  {
    && (forall k :: 0 <= k < n && k != i && Parent(k) != i ==> OrderedAt(h, k))
    && (i > 0 ==> forall k :: 0 < k < n && Parent(k) == i ==> !h[k].rank.Less(h[Parent(i)].rank))
  }

  lemma {:induction false} NoChildren(h: seq<Waiter>, i: nat, n: nat)
    requires i < n <= |h| && 2 * i + 1 >= n && DownFrom(h, i, n)
    ensures forall k :: 0 <= k < n && k != i ==> OrderedAt(h, k)
  {
  }

  /** j is the child of i that down compares with. */
  predicate Chosen(h: seq<Waiter>, i: nat, j: nat, n: nat)
    requires i < j < n <= |h|
  {
    Parent(j) == i && forall k :: 0 < k < n && Parent(k) == i ==> !h[k].rank.Less(h[j].rank)
  }

  lemma {:induction false} LesserChild(h: seq<Waiter>, i: nat, j: nat, n: nat)
    requires i < n <= |h| && j < n
    requires j == 2 * i + 1 || j == 2 * i + 2
    requires j == 2 * i + 1 && j + 1 < n ==> !h[j + 1].rank.Less(h[j].rank)
    requires j == 2 * i + 2 ==> h[j].rank.Less(h[j - 1].rank)
    ensures Chosen(h, i, j, n)
  {
    forall k | 0 < k < n && Parent(k) == i
      ensures !h[k].rank.Less(h[j].rank)
    {
      assert k == 2 * i + 1 || k == 2 * i + 2;
    }
  }

  lemma {:induction false} InPlace(h: seq<Waiter>, i: nat, j: nat, n: nat)
    requires i < j < n <= |h| && Chosen(h, i, j, n) && DownFrom(h, i, n) && !h[j].rank.Less(h[i].rank)
    ensures forall k :: 0 <= k < n && k != i ==> OrderedAt(h, k)
  {
  }

  lemma {:induction false} AllOrdered(h: seq<Waiter>, i: nat, n: nat)
    requires i < n <= |h| && OrderedAt(h, i) && forall k :: 0 <= k < n && k != i ==> OrderedAt(h, k)
    ensures Ordered(h, n)
  {
  }

  /** Moving a waiter below the lesser of its children. */
  lemma {:induction false} SwappedDown(was: seq<Waiter>, i: nat, j: nat, n: nat)
    requires i < j < n <= |was| && DownFrom(was, i, n) && Chosen(was, i, j, n) && was[j].rank.Less(was[i].rank)
    ensures var h := was[i := was[j]][j := was[i]]; DownFrom(h, j, n) && OrderedAt(h, j)
  {
    var h := was[i := was[j]][j := was[i]];
    forall k | 0 <= k < n && k != j && Parent(k) != j
      ensures OrderedAt(h, k)
    {
      if k != i && Parent(k) != i {
        assert OrderedAt(was, k);
      }
    }
    forall k | 0 < k < n && Parent(k) == j
      ensures !h[k].rank.Less(h[Parent(j)].rank)
    {
      assert OrderedAt(was, k);
    }
  }

  /** All in order but position j against its parent, which is not above j's children. */
  predicate UpFrom(h: seq<Waiter>, j: nat, n: nat)
    requires j < n <= |h|
  {
    && (forall k :: 0 <= k < n && k != j ==> OrderedAt(h, k))
    && (forall k :: 0 < k < n && Parent(k) == j ==> !h[k].rank.Less(h[Parent(j)].rank))
  }

  /** Moving a waiter above its larger parent leaves only its new place in doubt. */
  lemma {:induction false} SwappedUp(was: seq<Waiter>, j: nat, n: nat)
    requires 0 < j < n <= |was| && UpFrom(was, j, n) && was[j].rank.Less(was[Parent(j)].rank)
    ensures UpFrom(was[Parent(j) := was[j]][j := was[Parent(j)]], Parent(j), n)
  {
    var i := Parent(j);
    var h := was[i := was[j]][j := was[i]];
    forall k | 0 <= k < n && k != i
      ensures OrderedAt(h, k)
    {
      assert k != j ==> OrderedAt(was, k);
    }
    forall k | 0 < k < n && Parent(k) == i
      ensures !h[k].rank.Less(h[Parent(i)].rank)
    {
      assert OrderedAt(was, i);
      assert k != j ==> OrderedAt(was, k);
    }
  }

  /** Putting the last waiter in position i leaves the others in order. */
  lemma {:induction false} Replaced(was: seq<Waiter>, i: nat)
    requires i < |was| - 1 && Ordered(was, |was|)
    ensures DownFrom(was[i := was[|was| - 1]][|was| - 1 := was[i]], i, |was| - 1)
  {
    var n := |was| - 1;
    var h := was[i := was[n]][n := was[i]];
    forall k | 0 <= k < n
      ensures k != i && Parent(k) != i ==> OrderedAt(h, k)
      ensures k > 0 && i > 0 && Parent(k) == i ==> !h[k].rank.Less(h[Parent(i)].rank)
    {
      assert OrderedAt(was, k) && OrderedAt(was, i);
    }
  }

  // ---- The semaphore

  /** What a semaphore holds, the heap being only the set of its ranks. */
  datatype Pool = Pool(limit: nat, inUse: nat, arrival: nat, waiting: set<Rank>) {
    /** A permit is granted at once. */
    predicate Free() {
      inUse < limit && waiting == {}
    }

    /** releaseLocked: the permit goes to the least waiter, if there is one. */
    predicate Releases(next: Pool, granted: Option<Rank>)
      requires inUse > 0
    {
      match granted
      case None => waiting == {} && next == this.(inUse := inUse - 1)
      case Some(r) => Least(r, waiting) && next == this.(waiting := waiting - {r})
    }
  }

  predicate Least(r: Rank, ranks: set<Rank>) {
    r in ranks && forall q :: q in ranks ==> r.NoLater(q)
  }

  class Semaphore {
    const limit: nat
    const waiters: WaiterHeap
    var inUse: nat
    var arrival: nat

    ghost function Repr(): set<object>
      reads this, waiters
    {
      {this, waiters} + waiters.Elems()
    }

    ghost predicate Valid()
      reads this, waiters, waiters.Elems()
    {
      && waiters.Valid()
      && 0 < limit && inUse <= limit && (waiters.h != [] ==> inUse == limit)
      && (forall w :: w in waiters.Elems() ==> w.rank.arrival < arrival && !w.ready)
      && (forall v, w :: v in waiters.Elems() && w in waiters.Elems() && v.rank == w.rank ==> v == w)
    }

    ghost function Abs(): Pool
      reads this, waiters
    {
      Pool(limit, inUse, arrival, set w | w in waiters.Elems() :: w.rank)
    }

    /** NewSemaphore: a limit of zero or less is one. */
    constructor (limit: int)
      ensures Valid() && fresh(Repr()) && Abs() == Pool(if limit <= 0 then 1 else limit, 0, 0, {})
    {
      this.limit := if limit <= 0 then 1 else limit;
      waiters := new WaiterHeap();
      inUse, arrival := 0, 0;
    }

    /** Acquire up to its wait: admitted at once, or queued by a new waiter. */
    method Enter(priority: int, subpriority: int) returns (queued: Option<Waiter>)
      requires Valid()
      modifies Repr()
      ensures Valid() && fresh(Repr() - old(Repr()))
      ensures queued.None? <==> old(Abs().Free())
      ensures queued.None? ==> Abs() == old(Abs()).(inUse := old(inUse) + 1)
      ensures queued.Some? ==>
        var r := Rank(priority, subpriority, old(arrival));
        && fresh(queued.value) && queued.value in waiters.Elems() && queued.value.rank == r
        && Abs() == old(Abs()).(arrival := old(arrival) + 1, waiting := old(Abs().waiting) + {r})
    {
      if inUse < limit && |waiters.h| == 0 {
        inUse := inUse + 1;
        return None;
      }
      var w := new Waiter(Rank(priority, subpriority, arrival));
      arrival := arrival + 1;
      ghost var was := waiters.Elems();
      assert waiters.h != [] ==> waiters.h[0] in was;
      waiters.Push(w);
      assert Abs().waiting == old(Abs().waiting) + {w.rank};
      return Some(w);
    }

    /** releaseLocked. */
    method ReleaseLocked() returns (granted: Option<Waiter>)
      requires Valid() && inUse > 0
      modifies Repr()
      ensures Valid() && Repr() <= old(Repr())
      ensures old(Abs()).Releases(Abs(), if granted.Some? then Some(granted.value.rank) else None)
      ensures granted.Some? ==> granted.value in old(waiters.Elems()) && granted.value.ready && granted.value.index == -1
      // of all waiters one of the lowest priority, among these one of the lowest
      // subpriority, and of those the first to arrive
      ensures granted.Some? ==>
        var r := granted.value.rank;
        forall q :: q in old(Abs()).waiting && q != r ==>
          || r.priority < q.priority
          || (r.priority == q.priority && r.subpriority < q.subpriority)
          || (r.priority == q.priority && r.subpriority == q.subpriority && r.arrival < q.arrival)
    {
      inUse := inUse - 1;
      if |waiters.h| == 0 {
        return None;
      }
      assert waiters.h[0] in waiters.Elems();
      var w := waiters.PopLeast();
      inUse := inUse + 1;
      w.ready := true;
      assert Abs().waiting == old(Abs().waiting) - {w.rank};
      return Some(w);
    }

    /** The locked part of a cancelled wait: a waiter still in the heap leaves it; one
        granted meanwhile gives its permit back. */
    method Cancel(w: Waiter) returns (granted: Option<Waiter>)
      requires Valid() && (w in waiters.Elems() <==> w.index >= 0) && (w.index < 0 ==> inUse > 0)
      modifies Repr()
      ensures Valid() && Repr() <= old(Repr())
      ensures old(w.index) >= 0 ==>
        && granted.None? && w.index == -1
        && Abs() == old(Abs()).(waiting := old(Abs().waiting) - {w.rank})
      ensures old(w.index) < 0 ==> old(Abs()).Releases(Abs(), if granted.Some? then Some(granted.value.rank) else None)
    {
      if w.index >= 0 {
        var k :| 0 <= k < |waiters.h| && waiters.h[k] == w;
        var removed := waiters.Remove(w.index);
        assert Abs().waiting == old(Abs().waiting) - {w.rank};
        return None;
      }
      granted := ReleaseLocked();
    }
  }
}

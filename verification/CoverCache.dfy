/** The cover cache of a download job (internal/media/cover.go): covers fetched once,
    shared by their waiters, and kept up to a number of bytes, newest last. */
module CoverCache {
  import opened Wrappers

  datatype Key = Key(url: string, format: string, size: string)

  /** One fetch and its outcome; its waiters hold the object. */
  class Cover {
    const key: Key
    var complete: bool
    var failed: bool
    var data: seq<Byte>

    constructor (key: Key)
      ensures this.key == key && !complete
    {
      this.key, complete, failed, data := key, false, false, [];
    }
  }

  function Total(sizes: seq<nat>): nat {
    if sizes == [] then 0 else sizes[0] + Total(sizes[1..])
  }

  /** How many bytes each cover of a list has. */
  ghost function Sizes(lru: seq<Cover>): (sizes: seq<nat>)
    reads lru
    ensures |sizes| == |lru| && forall i :: 0 <= i < |lru| ==> sizes[i] == |lru[i].data|
  {
    if lru == [] then [] else [|lru[0].data|] + Sizes(lru[1..])
  }

  lemma {:induction false} TotalConcat(a: seq<nat>, b: seq<nat>)
    ensures Total(a + b) == Total(a) + Total(b)
  {
    if a == [] {
      assert a + b == b;
    } else {
      assert (a + b)[1..] == a[1..] + b;
      TotalConcat(a[1..], b);
    }
  }

  /** Moving one element to the back keeps the total. */
  lemma {:induction false} TotalMoved(sizes: seq<nat>, i: nat)
    requires i < |sizes|
    ensures Total(sizes[..i] + sizes[i + 1..] + [sizes[i]]) == Total(sizes)
  {
    var a, x, b := sizes[..i], [sizes[i]], sizes[i + 1..];
    assert sizes == a + (x + b);
    TotalConcat(a, x + b);
    TotalConcat(x, b);
    TotalConcat(a + b, x);
    TotalConcat(a, b);
  }

  /** The suffix from n on is the longest that fits, the empty one if none does. */
  ghost predicate Fits(sizes: seq<nat>, n: nat, maxBytes: int) {
    && n <= |sizes|
    && (Total(sizes[n..]) <= maxBytes || n == |sizes|)
    && forall m :: 0 <= m < n ==> Total(sizes[m..]) > maxBytes
  }

  function Moved<T>(s: seq<T>, i: nat): (r: seq<T>)
    requires i < |s|
    ensures |r| == |s|
  {
    s[..i] + s[i + 1..] + [s[i]]
  }

  lemma {:induction false} MovedSame<T>(s: seq<T>, i: nat)
    requires i < |s|
    ensures |Moved(s, i)| == |s| && Moved(s, i)[|s| - 1] == s[i] && multiset(Moved(s, i)) == multiset(s)
    ensures forall x :: x in Moved(s, i) <==> x in s
    ensures (forall a, b :: 0 <= a < b < |s| ==> s[a] != s[b]) ==>
      forall a, b :: 0 <= a < b < |s| ==> Moved(s, i)[a] != Moved(s, i)[b]
  {
    assert s == s[..i] + [s[i]] + s[i + 1..];
    forall x | x in s
      ensures x in Moved(s, i)
    {
      assert x in s[..i] || x == s[i] || x in s[i + 1..];
    }
  }

  /** The cover is taken out of its place and put at the back; the others keep their order. */
  ghost predicate ToBack(was: seq<Cover>, now: seq<Cover>, cover: Cover) {
    exists i :: 0 <= i < |was| && was[i] == cover && now == was[..i] + was[i + 1..] + [cover]
  }

  lemma MovedTo(lru: seq<Cover>, i: nat)
    requires i < |lru|
    ensures ToBack(lru, Moved(lru, i), lru[i])
  {
  }

  lemma {:induction false} MovedSizes(lru: seq<Cover>, i: nat)
    requires i < |lru|
    ensures Total(Sizes(Moved(lru, i))) == Total(Sizes(lru))
  {
    assert Sizes(Moved(lru, i)) == Moved(Sizes(lru), i);
    TotalMoved(Sizes(lru), i);
  }

  /** The map holds exactly the covers of the list and those in flight, each under its
      key; the list holds each once. So at most one fetch per key is in flight. */
  ghost predicate Shape(results: map<Key, Cover>, lru: seq<Cover>, fetching: set<Cover>) {
    && (forall k :: k in results ==> results[k].key == k && (results[k] in lru || results[k] in fetching))
    && (forall c :: c in lru ==> c !in fetching && c.key in results && results[c.key] == c)
    && (forall c :: c in fetching ==> c.key in results && results[c.key] == c)
    && (forall i, k :: 0 <= i < k < |lru| ==> lru[i] != lru[k])
  }

  lemma MovedShape(results: map<Key, Cover>, lru: seq<Cover>, fetching: set<Cover>, i: nat)
    requires Shape(results, lru, fetching) && i < |lru|
    ensures Shape(results, Moved(lru, i), fetching)
  {
    MovedSame(lru, i);
  }

  lemma Known(results: map<Key, Cover>, lru: seq<Cover>, fetching: set<Cover>, key: Key)
    requires Shape(results, lru, fetching) && key in results
    ensures results[key].key == key && (results[key] in lru || results[key] in fetching)
  {
  }

  lemma {:induction false} Joins(results: map<Key, Cover>, lru: seq<Cover>, fetching: set<Cover>, cover: Cover)
    requires Shape(results, lru, fetching) && cover.key !in results
    ensures cover !in lru && cover !in fetching
    ensures Shape(results[cover.key := cover], lru, fetching + {cover})
  {
  }

  class CoverCache {
    const maxBytes: int
    var results: map<Key, Cover>
    var lru: seq<Cover>
    var totalBytes: int
    var fetching: set<Cover>   // model-only: callers between their two locked parts

    /** Whenever the lock is free: the map and the list agree, what is in the list is
        fetched and what is in flight is not, and the bytes are counted and fit. */
    ghost predicate Valid()
      reads this, lru, fetching
    {
      && Shape(results, lru, fetching)
      && (forall c :: c in lru ==> c.complete && !c.failed)
      && (forall c :: c in fetching ==> !c.complete)
      && totalBytes == Total(Sizes(lru)) && (maxBytes >= 0 ==> totalBytes <= maxBytes)
    }

    constructor (maxBytes: int)
      ensures Valid() && results == map[] && fetching == {} && this.maxBytes == maxBytes
    {
      this.maxBytes, results, lru, totalBytes, fetching := maxBytes, map[], [], 0, {};
    }

    /** The first locked part of fetchOne: join the cover there is, moving a retained
        one to the back, or start the only fetch of its key. */
    method Enter(key: Key) returns (cover: Cover, mine: bool)
      requires Valid()
      modifies this`results, this`lru, this`fetching
      ensures Valid() && cover.key == key && key in results && results[key] == cover
      ensures mine <==> key !in old(results)
      ensures mine ==> fresh(cover) && fetching == old(fetching) + {cover} && lru == old(lru)
      ensures !mine ==> results == old(results) && cover == old(results)[key] && fetching == old(fetching)
      ensures if cover in old(lru) then ToBack(old(lru), lru, cover) else lru == old(lru)
    {
      hide Sizes, Total, Shape, ToBack;
      if key in results {
        cover := results[key];
        Known(results, lru, fetching, key);
        if cover.complete {
          MoveToBack(cover);
        }
        return cover, false;
      }
      cover := new Cover(key);
      Joins(results, lru, fetching, cover);
      results, fetching := results[key := cover], fetching + {cover};
      return cover, true;
    }

    method Find(cover: Cover) returns (i: nat)
      requires cover in lru
      ensures i < |lru| && lru[i] == cover
    {
      i := 0;
      while lru[i] != cover
        invariant 0 <= i < |lru| && cover in lru[i..]
        decreases |lru| - i
      {
        assert lru[i..] == [lru[i]] + lru[i + 1..];
        i := i + 1;
      }
    }

    /** MoveToBack of the list. */
    method MoveToBack(cover: Cover)
      requires Valid() && cover in lru
      modifies this`lru
      ensures Valid() && ToBack(old(lru), lru, cover)
      ensures multiset(lru) == multiset(old(lru)) && forall c :: c in lru <==> c in old(lru)
    {
      hide Sizes, Total, Moved, ToBack, Shape;
      var i := Find(cover);
      MovedShape(results, lru, fetching, i);
      MovedTo(lru, i);
      MovedSame(lru, i);
      MovedSizes(lru, i);
      lru := Moved(lru, i);
    }

    /** evict: oldest first, until the bytes fit; n is how many went. */
    method Evict() returns (ghost n: nat)
      requires totalBytes == Total(Sizes(lru)) && Listed(results, lru)
      modifies this`results, this`lru, this`totalBytes
      ensures Fits(old(Sizes(lru)), n, maxBytes) && n <= |old(lru)| && lru == old(lru)[n..]
      ensures results == Without(old(results), old(lru)[..n])
      ensures totalBytes == Total(old(Sizes(lru))[n..]) && (maxBytes >= 0 ==> totalBytes <= maxBytes)
    {
      hide Sizes, Listed, Without;
      n := 0;
      ghost var all, was, sizes := lru, results, Sizes(lru);
      NoneGone(was, all[..0]);
      assert sizes[0..] == sizes && all[0..] == all;
      while totalBytes > maxBytes
        invariant n <= |all| && lru == all[n..] && totalBytes == Total(sizes[n..])
        invariant forall m :: 0 <= m < n ==> Total(sizes[m..]) > maxBytes
        invariant results == Without(was, all[..n])
        decreases |lru|
      {
        if |lru| == 0 {
          break;
        }
        var oldest := lru[0];
        DropOne(was, all, n);
        assert sizes[n..][1..] == sizes[n + 1..];
        lru := lru[1..];
        totalBytes := totalBytes - |oldest.data|;
        if oldest.key in results && results[oldest.key] == oldest {
          results := results - {oldest.key};
        }
        n := n + 1;
      }
    }

    /** A fetch that failed. */
    method Drop(cover: Cover)
      requires Valid() && cover in fetching
      modifies this`results, this`fetching, cover
      ensures Valid() && fetching == old(fetching) - {cover} && results == old(results) - {cover.key}
      ensures cover.complete && cover.failed
    {
      hide Sizes, Total, Without, Shape, Listed, Fits;
      InFlight(results, lru, fetching, cover);
      cover.complete, cover.failed := true, true;
      fetching := fetching - {cover};
      if cover.key in results && results[cover.key] == cover {
        results := results - {cover.key};
      }
    }

    /** The second locked part of fetchOne: the outcome of a fetch. A failed cover
        leaves the map; a fetched one is the newest, and the oldest make room. */
    method Finish(cover: Cover, outcome: Option<seq<Byte>>) returns (ghost n: nat)
      requires Valid() && cover in fetching
      modifies this`results, this`lru, this`totalBytes, this`fetching, cover
      ensures Valid() && fetching == old(fetching) - {cover}
      ensures cover.complete && cover.failed == outcome.None? && (outcome.Some? ==> cover.data == outcome.value)
      ensures outcome.None? ==> results == old(results) - {cover.key} && lru == old(lru)
      ensures outcome.Some? ==>
        var all := old(lru) + [cover];
        && Fits(old(Sizes(lru)) + [|cover.data|], n, maxBytes) && n <= |all| && lru == all[n..]
        && results == Without(old(results), all[..n])
    {
      hide Sizes, Total, Without, Shape, Listed, Fits;
      ghost var flying := fetching;
      InFlight(results, lru, flying, cover);
      if outcome.None? {
        Drop(cover);
        return 0;
      }
      cover.complete, cover.failed, cover.data := true, false, outcome.value;
      fetching := fetching - {cover};
      n := Retain(cover, flying);
    }

    /** A fetched cover goes to the back of the list, and the oldest make room. */
    method Retain(cover: Cover, ghost flying: set<Cover>) returns (ghost n: nat)
      requires Shape(results, lru, flying) && cover in flying && totalBytes == Total(Sizes(lru))
      modifies this`results, this`lru, this`totalBytes
      ensures Shape(results, lru, flying - {cover}) && totalBytes == Total(Sizes(lru)) && (maxBytes >= 0 ==> totalBytes <= maxBytes)
      ensures Fits(old(Sizes(lru)) + [|cover.data|], n, maxBytes) && n <= |old(lru)| + 1
      ensures lru == (old(lru) + [cover])[n..] && results == Without(old(results), (old(lru) + [cover])[..n])
    {
      hide Sizes, Total, Without, Shape, Listed, Fits;
      ghost var was, before := results, lru;
      SizesAppend(lru, cover);
      TotalConcat(Sizes(lru), [|cover.data|]);
      OneTotal(|cover.data|);
      InFlight(was, before, flying, cover);
      lru := lru + [cover];
      totalBytes := totalBytes + |cover.data|;
      n := Evict();
      AfterEviction(was, before + [cover], n, flying - {cover});
      SizesSuffix(before + [cover], n);
    }

    /** Other callers' locked parts, in any number; they leave my fetches alone. */
    method Interfere(mine: set<Cover>)
      requires Valid() && mine <= fetching
      modifies this, fetching - mine
      ensures Valid() && mine <= fetching && forall c :: c in fetching ==> c in old(fetching) || fresh(c)
      ensures forall c :: c in old(fetching) && c.complete ==> c !in fetching
    {
      hide Shape, Total, Sizes, Without, Fits;
      var n: nat := *;
      while n > 0
        invariant Valid() && mine <= fetching
        invariant forall c :: c in fetching ==> c in old(fetching) || fresh(c)
      {
        var entering: bool, key: Key, outcome: Option<seq<Byte>> := *, *, *;
        if entering {
          var cover, own := Enter(key);
        } else {
          var others := fetching - mine;
          if others != {} {
            var c :| c in others;
            ghost var evicted := Finish(c, outcome);
          }
        }
        n := n - 1;
      }
    }

    /** fetchOne: joining waits for the fetch there is, starting fetches and shares the
        outcome. None when the caller's context ends first. */
    method FetchOne(key: Key) returns (answer: Option<Option<seq<Byte>>>, cover: Cover)
      requires Valid()
      modifies this, fetching
      ensures Valid() && cover.key == key && (key in old(results) ==> cover == old(results)[key])
      ensures answer.Some? <==> cover.complete
      ensures answer.Some? ==> answer.value == (if cover.failed then None else Some(cover.data))
      ensures key !in old(results) ==> answer.Some?
    {
      hide Shape, Total, Sizes, Without, Fits;
      var mine;
      cover, mine := Enter(key);
      if mine {
        Interfere({cover});
        var outcome: Option<seq<Byte>> := *;
        ghost var evicted := Finish(cover, outcome);
        return Some(outcome), cover;
      }
      Interfere({});
      if !cover.complete {
        return None, cover;
      }
      return Some(if cover.failed then None else Some(cover.data)), cover;
    }
  }

  /** A cover in flight may leave, or join the list. */
  lemma {:induction false} InFlight(results: map<Key, Cover>, lru: seq<Cover>, fetching: set<Cover>, cover: Cover)
    requires Shape(results, lru, fetching) && cover in fetching
    ensures cover !in lru && cover.key in results && results[cover.key] == cover
    ensures Shape(results - {cover.key}, lru, fetching - {cover})
    ensures Shape(results, lru + [cover], fetching - {cover}) && Listed(results, lru + [cover])
  {
  }

  lemma OneTotal(n: nat)
    ensures Total([n]) == n
  {
    assert [n][1..] == [];
  }

  lemma {:induction false} SizesAppend(lru: seq<Cover>, cover: Cover)
    ensures Sizes(lru + [cover]) == Sizes(lru) + [|cover.data|]
  {
  }

  lemma {:induction false} SizesSuffix(lru: seq<Cover>, n: nat)
    requires n <= |lru|
    ensures Sizes(lru[n..]) == Sizes(lru)[n..]
  {
  }

  /** What is left after eviction is again exactly the list and the fetches in flight. */
  lemma {:induction false} AfterEviction(results: map<Key, Cover>, all: seq<Cover>, n: nat, fetching: set<Cover>)
    requires Shape(results, all, fetching) && n <= |all|
    ensures Shape(Without(results, all[..n]), all[n..], fetching)
  {
    var now := Without(results, all[..n]);
    forall k | k in now
      ensures now[k] in all[n..] || now[k] in fetching
    {
      assert now[k] in all ==> now[k] in all[..n] || now[k] in all[n..];
    }
    forall c | c in all[n..]
      ensures c in all && c !in all[..n]
    {
      var i :| 0 <= i < |all| - n && all[n..][i] == c;
      assert c == all[n + i];
    }
  }

  /** Each cover of the list is in the map under its key, and once in the list. */
  ghost predicate Listed(results: map<Key, Cover>, lru: seq<Cover>) {
    && (forall c :: c in lru ==> c.key in results && results[c.key] == c)
    && (forall i, k :: 0 <= i < k < |lru| ==> lru[i] != lru[k])
    && (forall k :: k in results ==> results[k].key == k)
  }

  ghost function Without(results: map<Key, Cover>, gone: seq<Cover>): map<Key, Cover> {
    map k | k in results && results[k] !in gone :: results[k]
  }

  lemma NoneGone(results: map<Key, Cover>, gone: seq<Cover>)
    requires gone == []
    ensures Without(results, gone) == results
  {
  }

  lemma {:induction false} DropOne(results: map<Key, Cover>, lru: seq<Cover>, n: nat)
    requires Listed(results, lru) && n < |lru|
    ensures lru[n].key in Without(results, lru[..n]) && Without(results, lru[..n])[lru[n].key] == lru[n]
    ensures Without(results, lru[..n]) - {lru[n].key} == Without(results, lru[..n + 1])
  {
    assert lru[n] !in lru[..n];
    assert lru[..n + 1] == lru[..n] + [lru[n]];
  }
}

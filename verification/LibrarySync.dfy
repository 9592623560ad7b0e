/** The library watcher (internal/librarysync): a positional watermark over a list
    that changes between passes, and the albums a pass submits. The list does not
    change within one pass, and an added song's id is new. */
module LibrarySync {
  import opened Wrappers

  type SongId = nat
  type AlbumId = string

  datatype Song = Song(id: SongId, album: AlbumId)

  const ANCHOR_SIZE: nat := 50
  const MARGIN: nat := 25
  const SCAN_CAP: nat := 2000
  const PAGE_LIMIT: nat := 100
  const MAX_CLIENT_ERROR_PASSES: nat := 3

  function Ids(songs: seq<Song>): (ids: seq<SongId>)
    ensures |ids| == |songs| && forall i :: 0 <= i < |songs| ==> ids[i] == songs[i].id
  {
    seq(|songs|, i requires 0 <= i < |songs| => songs[i].id)
  }

  predicate Distinct(songs: seq<Song>) {
    forall i, k :: 0 <= i < k < |songs| ==> songs[i].id != songs[k].id
  }

  function Head(songs: seq<Song>, n: nat): (r: seq<Song>)
    ensures |r| <= n && r <= songs
  {
    if |songs| <= n then songs else songs[..n]
  }

  /** kept is what is left of base after removals, at the given places of it. */
  predicate KeptFrom(base: seq<Song>, kept: seq<Song>, places: seq<nat>) {
    && |places| == |kept|
    && (forall i :: 0 <= i < |kept| ==> places[i] < |base| && kept[i] == base[places[i]])
    && (forall i, k :: 0 <= i < k < |kept| ==> places[i] < places[k])
  }

  /** now is base with songs removed anywhere and the first fresh songs, new to it,
      added at the front. */
  ghost predicate Since(base: seq<Song>, now: seq<Song>, newer: nat) {
    && newer <= |now|
    && (forall i :: 0 <= i < newer ==> now[i].id !in Ids(base))
    && exists places :: KeptFrom(base, now[newer..], places)
  }

  /** Songs of songs that the anchor does not know, in order. */
  function Unknown(songs: seq<Song>, anchor: seq<SongId>): seq<Song> {
    if songs == [] then []
    else
      var rest := Unknown(songs[..|songs| - 1], anchor);
      if songs[|songs| - 1].id in anchor then rest else rest + [songs[|songs| - 1]]
  }

  lemma {:induction false} AllUnknown(songs: seq<Song>, anchor: seq<SongId>)
    requires forall i :: 0 <= i < |songs| ==> songs[i].id !in anchor
    ensures Unknown(songs, anchor) == songs
  {
    if songs != [] {
      AllUnknown(songs[..|songs| - 1], anchor);
    }
  }

  lemma {:induction false} RestKnown(songs: seq<Song>, anchor: seq<SongId>, n: nat)
    requires n <= |songs| && forall i :: n <= i < |songs| ==> songs[i].id in anchor
    ensures Unknown(songs, anchor) == Unknown(songs[..n], anchor)
  {
    if n < |songs| {
      assert songs[..|songs| - 1][..n] == songs[..n];
      RestKnown(songs[..|songs| - 1], anchor, n);
    } else {
      assert songs[..n] == songs;
    }
  }

  /** Ahead of the oldest anchored song, the songs the anchor does not know are exactly
      those added since it was saved and still present. */
  lemma {:induction false} AddedIsFresh(base: seq<Song>, now: seq<Song>, newer: nat, anchor: seq<SongId>, cut: nat)
    requires Distinct(base) && Since(base, now, newer)
    requires anchor != [] && anchor <= Ids(base)
    requires cut < |now| && now[cut].id == anchor[|anchor| - 1]
    ensures newer <= cut && Unknown(now[..cut], anchor) == now[..newer]
  {
    var oldest := |anchor| - 1;
    assert anchor[oldest] == Ids(base)[oldest] == base[oldest].id;
    var kept := now[newer..];
    var places :| KeptFrom(base, kept, places);
    assert now[cut].id in Ids(base);
    assert cut >= newer;
    assert kept[cut - newer] == now[cut];
    forall i | newer <= i < cut
      ensures now[i].id in anchor
    {
      assert kept[i - newer] == now[i];
      var p := places[i - newer];
      assert p < places[cut - newer] == oldest;
      assert anchor[p] == Ids(base)[p] == now[i].id;
    }
    forall i | 0 <= i < newer
      ensures now[i].id !in anchor
    {
    }
    RestKnown(now[..cut], anchor, newer);
    assert now[..cut][..newer] == now[..newer];
    AllUnknown(now[..newer], anchor);
  }

  /** A further change keeps the relation: more fresh songs, more removals. */
  lemma {:induction false} StillSince(base: seq<Song>, was: seq<Song>, newer: nat, added: seq<Song>, left: seq<Song>, places: seq<nat>)
    requires Since(base, was, newer) && KeptFrom(was, left, places)
    requires forall i :: 0 <= i < |added| ==> added[i].id !in Ids(base)
    ensures exists n :: Since(base, added + left, n)
  {
    var first :| KeptFrom(base, was[newer..], first);
    var m := FreshLeft(left, places, newer, |left|);
    var now, n := added + left, |added| + m;
    var kept := now[n..];
    var composed := seq(|kept|, i requires 0 <= i < |kept| => first[places[m + i] - newer]);
    forall i | 0 <= i < |kept|
      ensures kept[i] == left[m + i] && kept[i] == base[composed[i]]
    {
      assert was[newer..][places[m + i] - newer] == was[places[m + i]];
    }
    assert KeptFrom(base, kept, composed);
    forall i | 0 <= i < n
      ensures now[i].id !in Ids(base)
    {
      if i >= |added| {
        assert now[i] == left[i - |added|] == was[places[i - |added|]];
      }
    }
    assert Since(base, now, n);
  }

  /** How many of the songs left are fresh ones: they come first. */
  lemma {:induction false} FreshLeft(left: seq<Song>, places: seq<nat>, newer: nat, upto: nat) returns (m: nat)
    requires |places| == |left| && upto <= |left|
    requires forall i, k :: 0 <= i < k < |left| ==> places[i] < places[k]
    requires forall i :: upto <= i < |left| ==> places[i] >= newer
    ensures m <= |left|
    ensures forall i :: 0 <= i < |left| ==> (i < m <==> places[i] < newer)
    decreases upto
  {
    if upto == 0 || places[upto - 1] < newer {
      m := upto;
    } else {
      m := FreshLeft(left, places, newer, upto - 1);
    }
  }

  // ---- Submitting albums

  datatype SubmitStatus = Accepted | DuplicateActive | DuplicateInRequest | Invalid(code: string) | QueueFull | ServerError

  const PERMANENT: set<string> := {"invalid_url", "unsupported_input", "unsupported_storefront"}

  /** submissionConsumed. */
  predicate Consumed(status: SubmitStatus) {
    match status
    case Accepted => true
    case DuplicateActive => true
    case DuplicateInRequest => true
    case Invalid(code) => code in PERMANENT
    case _ => false
  }

  /** Why an album needs no further pass: its lookup failed three passes in a row with
      a client error, it has no catalog entry, or its submission was consumed. */
  datatype Verdict = GivenUp | NoCatalogEntry | Submitted(status: SubmitStatus)

  /** The answers that settle an album for good: it is or will be downloaded, or never
      can be. */
  const FOR_GOOD: set<SubmitStatus> :=
    {Accepted, DuplicateActive, DuplicateInRequest, Invalid("invalid_url"), Invalid("unsupported_input"), Invalid("unsupported_storefront")}

  lemma ConsumedMeans(status: SubmitStatus)
    ensures Consumed(status) <==> status in FOR_GOOD
  {
  }

  predicate Settled(verdicts: map<AlbumId, Verdict>) {
    forall a :: a in verdicts && verdicts[a].Submitted? ==> verdicts[a].status in FOR_GOOD
  }

  function CountAccepted(results: seq<SubmitStatus>): nat {
    if results == [] then 0
    else CountAccepted(results[..|results| - 1]) + (if results[|results| - 1].Accepted? then 1 else 0)
  }

  datatype Lookup = Found | NoEntry | ClientError | TransientError

  function Newest(history: seq<Lookup>): Option<Lookup> {
    if history == [] then None else Some(history[|history| - 1])
  }

  lemma NewestOf(history: seq<Lookup>, lookup: Lookup)
    ensures Newest(history + [lookup]) == Some(lookup)
  {
  }

  /** How many of the last lookups in a row failed with a client error. */
  function Streak(history: seq<Lookup>): nat {
    if history == [] || !history[|history| - 1].ClientError? then 0 else Streak(history[..|history| - 1]) + 1
  }

  predicate ThreeInARow(history: seq<Lookup>) {
    var n := |history|;
    n >= 3 && history[n - 1].ClientError? && history[n - 2].ClientError? && history[n - 3].ClientError?
  }

  lemma {:induction false} LongStreak(history: seq<Lookup>)
    ensures Streak(history) >= MAX_CLIENT_ERROR_PASSES <==> ThreeInARow(history)
  {
    var n := |history|;
    if n >= 2 {
      var shorter := history[..n - 1];
      assert Streak(shorter) == if history[n - 2].ClientError? then Streak(shorter[..n - 2]) + 1 else 0;
      if n >= 3 {
        assert shorter[..n - 2][n - 3] == history[n - 3];
      }
    }
  }

  class Watcher {
    var library: seq<Song>        // model-only, with every id it ever showed
    var ever: set<SongId>
    var generation: nat
    var anchor: seq<SongId>
    var anchorSize: nat
    var clientErrorPasses: map<AlbumId, nat>
    ghost var base: seq<Song>     // the library when the anchor was saved
    var failures: nat             // model-only: reads and writes that failed
    ghost var lastPage: (seq<Song>, bool)   // the page read last, and whether more was promised
    ghost var batch: seq<SubmitStatus>      // the answers to the batch submitted last
    ghost var lookups: map<AlbumId, seq<Lookup>>   // the lookups of each album since an anchor was saved

    ghost function History(a: AlbumId): seq<Lookup>
      reads this
    {
      if a in lookups then lookups[a] else []
    }

    /** The count of an album is that of its last lookups in a row that failed with a
        client error. */
    ghost predicate Counting()
      reads this
    {
      forall a :: Streak(History(a)) == if a in clientErrorPasses then clientErrorPasses[a] else 0
    }

    /** The anchor is the head of the library it was saved from, and the library now
        differs from that one only by fresh songs in front and removals. */
    ghost predicate Valid()
      reads this
    {
      && Counting() && Distinct(library) && (forall i :: 0 <= i < |library| ==> library[i].id in ever)
      && (anchor != [] ==>
            && Distinct(base) && (forall i :: 0 <= i < |base| ==> base[i].id in ever)
            && anchor <= Ids(base) && |anchor| <= ANCHOR_SIZE
            && exists n :: Since(base, library, n))
    }

    constructor (library: seq<Song>)
      requires Distinct(library)
      ensures Valid() && this.library == library && anchor == []
    {
      this.library, generation, anchor, anchorSize, clientErrorPasses, failures := library, 0, [], 0, map[], 0;
      lastPage, batch := ([], false), [];
      lookups := map[];
      base, ever := [], set i | 0 <= i < |library| :: library[i].id;
    }

    /** Between passes: songs go, and songs with new ids come in at the front. */
    method Change(added: seq<Song>, places: seq<nat>, left: seq<Song>)
      requires Valid() && KeptFrom(library, left, places)
      requires Distinct(added) && forall i :: 0 <= i < |added| ==> added[i].id !in ever
      modifies this`library, this`ever
      ensures Valid() && library == added + left && forall id :: id in old(ever) ==> id in ever
    {
      if anchor != [] {
        ghost var n :| Since(base, library, n);
        forall i | 0 <= i < |added|
          ensures added[i].id !in Ids(base)
        {
          assert forall k :: 0 <= k < |base| ==> Ids(base)[k] == base[k].id;
        }
        StillSince(base, library, n, added, left, places);
      }
      library := added + left;
      ever := ever + set i | 0 <= i < |added| :: added[i].id;
    }

    /** ResetAnchor; the store may fail. */
    method ResetAnchor() returns (cleared: Option<nat>)
      requires Valid()
      modifies this`generation, this`anchor, this`anchorSize
      ensures Valid()
      ensures cleared.Some? ==> cleared.value == |old(anchor)| && anchor == [] && generation == old(generation) + 1
      ensures cleared.None? ==> anchor == old(anchor) && generation == old(generation)
    {
      var failed: bool := *;
      if failed {
        return None;
      }
      cleared := Some(|anchor|);
      anchor, generation, anchorSize := [], generation + 1, 0;
    }

    /** Others may reset while a pass is in flight. */
    method Interfere()
      requires Valid()
      modifies this`generation, this`anchor, this`anchorSize
      ensures Valid() && generation >= old(generation)
      ensures if generation == old(generation) then anchor == old(anchor) else anchor == []
    {
      var n: nat := *;
      while n > 0
        invariant Valid() && generation >= old(generation)
        invariant if generation == old(generation) then anchor == old(anchor) else anchor == []
      {
        var cleared := ResetAnchor();
        n := n - 1;
      }
    }

    /** LibrarySongsNewestFirst: some songs from offset on, at most a page. */
    method SongsNewestFirst(offset: nat, limit: int) returns (page: Option<seq<Song>>, hasMore: bool)
      modifies this`failures, this`lastPage
      ensures failures == old(failures) + if page.None? then 1 else 0
      ensures page.Some? ==> lastPage == (page.value, hasMore)
      ensures page.Some? ==>
        && |page.value| <= (if limit <= 0 || limit > PAGE_LIMIT then PAGE_LIMIT else limit)
        && (page.value != [] ==> offset + |page.value| <= |library| && page.value == library[offset..offset + |page.value|])
    {
      var n: nat :| n >= 0;
      hasMore := *;
      var failed := Fails();
      if failed {
        return None, hasMore;
      }
      var most := if limit <= 0 || limit > PAGE_LIMIT then PAGE_LIMIT else limit;
      var songs := if n > most || offset + n > |library| then [] else library[offset..offset + n];
      lastPage := (songs, hasMore);
      return Some(songs), hasMore;
    }

    /** Whether what is tried next fails. */
    method Fails() returns (failed: bool)
      modifies this`failures
      ensures failures == old(failures) + if failed then 1 else 0
    {
      failed := *;
      failures := failures + if failed then 1 else 0;
    }

    /** SubmitBatch, whatever it answers. */
    method SubmitBatch() returns (results: seq<SubmitStatus>)
      requires Valid()
      modifies this`batch
      ensures Valid() && batch == results && forall a :: History(a) == old(History(a))
    {
      results := *;
      batch := results;
    }

    /** scanUntil: a prefix of the library, up to the page in which until shows. */
    method ScanUntil(until: SongId, want: nat) returns (out: Option<seq<Song>>, found: bool)
      modifies this`failures, this`lastPage
      ensures out.None? <==> failures > old(failures)
      ensures out.Some? ==> failures == old(failures)
      // without it, only when the pages ended or the cap was reached
      ensures out.Some? && !found ==> lastPage.0 == [] || !lastPage.1 || |out.value| >= SCAN_CAP
      ensures out.Some? ==> out.value <= library && |out.value| < SCAN_CAP + PAGE_LIMIT
      ensures out.Some? ==> (found <==> until in Ids(out.value))
    {
      var scanned: seq<Song> := [];
      while true
        invariant scanned <= library && |scanned| < SCAN_CAP && until !in Ids(scanned)
        invariant failures == old(failures)
        decreases SCAN_CAP - |scanned|
      {
        var limit := want - |scanned|;
        if limit <= 0 {
          limit := 100;
        }
        var page, hasMore := SongsNewestFirst(|scanned|, limit);
        if page.None? {
          return None, false;
        }
        ghost var before := scanned;
        scanned := scanned + page.value;
        var i := 0;
        while i < |page.value|
          invariant 0 <= i <= |page.value|
          invariant forall k :: 0 <= k < i ==> page.value[k].id != until
        {
          if page.value[i].id == until {
            assert Ids(scanned)[|before| + i] == until;
            return Some(scanned), true;
          }
          i := i + 1;
        }
        NotInPage(before, page.value, until);
        if |page.value| == 0 || !hasMore || |scanned| >= SCAN_CAP {
          return Some(scanned), false;
        }
      }
    }

    /** saveAnchor: unless a reset came since the pass loaded its anchor. */
    method SaveAnchor(loaded: nat, songs: seq<Song>) returns (ok: bool)
      requires Valid() && songs <= library && |songs| <= ANCHOR_SIZE && loaded <= generation
      requires loaded < generation ==> anchor == []
      modifies this`generation, this`anchor, this`anchorSize, this`clientErrorPasses, this`lookups, this`base, this`failures
      ensures Valid() && generation >= old(generation)
      ensures failures == old(failures) + if ok then 0 else 1
      ensures generation > loaded ==> anchor == []
      ensures generation == loaded && ok ==> anchor == Ids(songs) && clientErrorPasses == map[] && lookups == map[]
      ensures !ok || generation > loaded ==> clientErrorPasses == old(clientErrorPasses) && lookups == old(lookups)
      ensures generation == loaded && !ok ==> anchor == old(anchor)
      ensures base == if ok && generation == loaded then library else old(base)
    {
      hide Since;
      Interfere();
      if generation != loaded {
        return true;
      }
      var failed := Fails();
      if failed {
        return false;
      }
      anchor, base, anchorSize, clientErrorPasses, lookups := Ids(songs), library, |songs|, map[], map[];
      Unchanged(library);
      assert anchor <= Ids(base);
      return true;
    }

    /** giveUpOnAlbum: exactly when the last three lookups of the album all failed with
        a client error. */
    method GiveUpOnAlbum(album: AlbumId, lookup: Lookup) returns (giveUp: bool)
      requires Counting() && (lookup.ClientError? || lookup.TransientError?)
      modifies this`clientErrorPasses, this`lookups
      ensures Counting() && forall a :: History(a) == if a == album then old(History(a)) + [lookup] else old(History(a))
      ensures giveUp <==> ThreeInARow(History(album))
    {
      hide Streak, ThreeInARow;
      LookedUp(album, lookup);
      lookups := lookups[album := History(album) + [lookup]];
      LongStreak(History(album));
      if !lookup.ClientError? {
        clientErrorPasses := clientErrorPasses - {album};
        return false;
      }
      var n := if album in clientErrorPasses then clientErrorPasses[album] else 0;
      clientErrorPasses := clientErrorPasses[album := n + 1];
      return clientErrorPasses[album] >= MAX_CLIENT_ERROR_PASSES;
    }

    lemma LookedUp(album: AlbumId, lookup: Lookup)
      ensures Streak(History(album) + [lookup]) == if lookup.ClientError? then Streak(History(album)) + 1 else 0
    {
      assert (History(album) + [lookup])[..|History(album)|] == History(album);
    }

    /** forgetClientErrors: the lookup did not fail. */
    method ForgetClientErrors(album: AlbumId, ghost lookup: Lookup)
      requires Counting() && !lookup.ClientError? && !lookup.TransientError?
      modifies this`clientErrorPasses, this`lookups
      ensures Counting() && forall a :: History(a) == if a == album then old(History(a)) + [lookup] else old(History(a))
      ensures !ThreeInARow(History(album))
    {
      hide Streak, ThreeInARow;
      LookedUp(album, lookup);
      lookups := lookups[album := History(album) + [lookup]];
      LongStreak(History(album));
      clientErrorPasses := clientErrorPasses - {album};
    }

    /** One lookup, and whether the album is given up. */
    method LookUp(album: AlbumId) returns (lookup: Lookup, giveUp: bool)
      requires Counting()
      modifies this`clientErrorPasses, this`lookups
      ensures Counting() && forall a :: History(a) == if a == album then old(History(a)) + [lookup] else old(History(a))
      ensures giveUp <==> ThreeInARow(History(album))
      ensures Newest(History(album)) == Some(lookup)
      ensures giveUp ==> lookup.ClientError? || lookup.TransientError?
    {
      hide Streak, ThreeInARow, Newest;
      giveUp, lookup := false, *;
      NewestOf(History(album), lookup);
      if lookup.ClientError? || lookup.TransientError? {
        giveUp := GiveUpOnAlbum(album, lookup);
      } else {
        ForgetClientErrors(album, lookup);
      }
    }

    /** Looking up the albums in order; urls are those to submit. */
    method LookUpAlbums(order: seq<AlbumId>) returns (urls: seq<AlbumId>, pending: seq<AlbumId>, ghost verdicts: map<AlbumId, Verdict>)
      requires Counting() && forall i, k :: 0 <= i < k < |order| ==> order[i] != order[k]
      modifies this`clientErrorPasses, this`lookups
      ensures forall a :: a in order <==> a in urls || a in pending || a in verdicts
      ensures forall i, k :: 0 <= i < k < |urls| ==> urls[i] != urls[k]
      ensures forall a :: a in urls ==> a !in pending && a !in verdicts
      ensures forall a :: a in pending ==> a !in verdicts
      ensures forall a :: a in verdicts ==> !verdicts[a].Submitted?
      // one lookup of each album, and given up exactly after three failed in a row
      ensures Counting()
      ensures forall a :: a in order ==> |History(a)| == |old(History(a))| + 1 && old(History(a)) <= History(a)
      ensures forall a :: a !in order ==> History(a) == old(History(a))
      ensures forall a :: a in order ==> (a in verdicts && verdicts[a].GivenUp? <==> ThreeInARow(History(a)))
      // what becomes of it is what that lookup said
      ensures forall a :: a in order ==>
        && (a in urls <==> Newest(History(a)) == Some(Found))
        && (a in verdicts && verdicts[a].NoCatalogEntry? <==> Newest(History(a)) == Some(NoEntry))
    {
      hide Streak, ThreeInARow, Counting, History, Newest;
      urls, pending, verdicts := [], [], map[];
      var i := 0;
      while i < |order|
        invariant 0 <= i <= |order|
        invariant forall a :: a in order[..i] <==> a in urls || a in pending || a in verdicts
        invariant forall k, l :: 0 <= k < l < |urls| ==> urls[k] != urls[l]
        invariant forall a :: a in urls ==> a !in pending && a !in verdicts
        invariant forall a :: a in pending ==> a !in verdicts
        invariant forall a :: a in verdicts ==> !verdicts[a].Submitted?
        invariant Counting()
        invariant forall a :: a in order[..i] ==> |History(a)| == |old(History(a))| + 1 && old(History(a)) <= History(a)
        invariant forall a :: a !in order[..i] ==> History(a) == old(History(a))
        invariant forall a :: a in order[..i] ==> (a in verdicts && verdicts[a].GivenUp? <==> ThreeInARow(History(a)))
        invariant forall a :: a in order[..i] ==>
          && (a in urls <==> Newest(History(a)) == Some(Found))
          && (a in verdicts && verdicts[a].NoCatalogEntry? <==> Newest(History(a)) == Some(NoEntry))
      {
        var album := order[i];
        assert album !in order[..i];
        assert order[..i + 1] == order[..i] + [album];
        var lookup, giveUp := LookUp(album);
        if lookup.ClientError? || lookup.TransientError? {
          if giveUp {
            verdicts := verdicts[album := GivenUp];
          } else {
            pending := pending + [album];
          }
        } else if lookup.NoEntry? {
          verdicts := verdicts[album := NoCatalogEntry];
        } else {
          urls := urls + [album];
        }
        i := i + 1;
      }
      assert order[..i] == order;
    }

    /** submitAlbums: every album of an added song is either settled or pending. */
    method SubmitAlbums(added: seq<Song>)
      returns (accepted: nat, pending: seq<AlbumId>, ghost verdicts: map<AlbumId, Verdict>, ghost urls: seq<AlbumId>,
               ghost order: seq<AlbumId>)
      requires Valid()
      modifies this`generation, this`anchor, this`anchorSize, this`clientErrorPasses, this`lookups, this`batch
      ensures Valid() && generation >= old(generation)
      ensures if generation == old(generation) then anchor == old(anchor) else anchor == []
      ensures forall i :: 0 <= i < |added| && added[i].album != "" ==> added[i].album in order
      ensures forall a :: a in order ==> (a in verdicts <==> a !in pending)
      ensures Settled(verdicts)
      // one lookup of each album, and given up exactly after three failed in a row
      ensures forall a :: a in order ==>
        && |History(a)| == |old(History(a))| + 1 && old(History(a)) <= History(a)
        && (a in verdicts && verdicts[a].GivenUp? <==> ThreeInARow(History(a)))
        && (a in urls <==> Newest(History(a)) == Some(Found))
        && (a in verdicts && verdicts[a].NoCatalogEntry? <==> Newest(History(a)) == Some(NoEntry))
      // and of those submitted exactly the ones so answered are settled
      ensures forall k :: 0 <= k < |urls| ==>
        (urls[k] in verdicts <==> k < |batch| && batch[k] in FOR_GOOD)
      ensures urls != [] ==> accepted == CountAccepted(batch)
    {
      hide Streak, ThreeInARow, Newest, History;
      var albums := AlbumsOf(added);
      order := albums;
      var found;
      found, pending, verdicts := LookUpAlbums(albums);
      urls := found;
      InterfereKeeps();
      if |found| == 0 {
        return 0, pending, verdicts, urls, order;
      }
      var results := SubmitBatch();
      pending, verdicts := SettleAnswers(found, results, pending, verdicts);
      return CountAccepted(results), pending, verdicts, urls, order;
    }

    /** Resets do not touch the counts. */
    method InterfereKeeps()
      requires Valid()
      modifies this`generation, this`anchor, this`anchorSize
      ensures Valid() && generation >= old(generation)
      ensures if generation == old(generation) then anchor == old(anchor) else anchor == []
      ensures forall a :: History(a) == old(History(a))
    {
      Interfere();
    }

    /** The loop over the answers. */
    method SettleAnswers(found: seq<AlbumId>, results: seq<SubmitStatus>, waiting: seq<AlbumId>, ghost settled: map<AlbumId, Verdict>)
      returns (pending: seq<AlbumId>, ghost verdicts: map<AlbumId, Verdict>)
      requires forall i, k :: 0 <= i < k < |found| ==> found[i] != found[k]
      requires forall a :: a in found ==> a !in settled && a !in waiting
      ensures forall k :: 0 <= k < |found| ==>
        if k < |results| && results[k] in FOR_GOOD then found[k] in verdicts && verdicts[found[k]] == Submitted(results[k])
        else found[k] !in verdicts
      ensures forall a :: a !in found ==> (a in verdicts <==> a in settled) && (a in settled ==> verdicts[a] == settled[a])
      ensures forall a :: a in pending <==> a in waiting || (a in found && a !in verdicts)
    {
      pending, verdicts := waiting, settled;
      var i := 0;
      while i < |found|
        invariant 0 <= i <= |found|
        invariant forall k :: 0 <= k < i ==>
          if k < |results| && results[k] in FOR_GOOD then found[k] in verdicts && verdicts[found[k]] == Submitted(results[k])
          else found[k] !in verdicts
        invariant forall k :: i <= k < |found| ==> found[k] !in verdicts
        invariant forall a :: a !in found ==> (a in verdicts <==> a in settled) && (a in settled ==> verdicts[a] == settled[a])
        invariant forall a :: a in pending <==> a in waiting || (a in found[..i] && a !in verdicts)
      {
        var album := found[i];
        assert found[..i + 1] == found[..i] + [album];
        if i < |results| {
          ConsumedMeans(results[i]);
        }
        if i < |results| && Consumed(results[i]) {
          verdicts := verdicts[album := Submitted(results[i])];
        } else {
          pending := pending + [album];
        }
        i := i + 1;
      }
      assert found[..i] == found;
    }

    /** The part of a pass that follows once it knows what was added: newest becomes the
        anchor when no album is left pending. */
    method SubmitAdded(loaded: nat, newest: seq<Song>, added: seq<Song>)
      returns (outcome: Outcome, pending: seq<AlbumId>, ghost verdicts: map<AlbumId, Verdict>)
      requires Valid() && newest <= library && |newest| <= ANCHOR_SIZE && loaded <= generation
      requires loaded < generation ==> anchor == []
      modifies this`generation, this`anchor, this`anchorSize, this`clientErrorPasses, this`lookups, this`base,
        this`failures, this`batch
      ensures Valid() && generation >= old(generation) && (generation > loaded ==> anchor == [])
      ensures failures == old(failures) + if outcome.Failed? then 1 else 0
      ensures outcome.Failed? || outcome.Synced? || outcome.Retrying?
      ensures Settled(verdicts)
      ensures forall i :: 0 <= i < |added| && added[i].album != "" ==> (added[i].album in verdicts <==> added[i].album !in pending)
      ensures outcome.Synced? ==> pending == [] && (generation == loaded ==> anchor == Ids(newest))
      ensures outcome.Retrying? ==> pending != [] && (generation == loaded ==> anchor == old(anchor))
      ensures outcome.Failed? && generation == loaded ==> anchor == old(anchor)
      ensures base == if outcome.Synced? && generation == loaded then library else old(base)
    {
      hide Since, Distinct, Ids;
      var submitted := 0;
      pending, verdicts := [], map[];
      ghost var urls, order;
      if |added| > 0 {
        submitted, pending, verdicts, urls, order := SubmitAlbums(added);
      }
      if |pending| > 0 {
        Interfere();
        return Retrying(submitted), pending, verdicts;
      }
      var saved := SaveAnchor(loaded, newest);
      return if saved then Synced(submitted) else Failed, pending, verdicts;
    }

    /** Without an anchor: where the library stands becomes the anchor. */
    method AnchorHere(loaded: nat) returns (outcome: Outcome, scanned: seq<Song>)
      requires Valid() && loaded == generation && anchor == []
      modifies this`generation, this`anchor, this`anchorSize, this`clientErrorPasses, this`lookups, this`base,
        this`failures, this`lastPage
      ensures Valid() && generation >= loaded && (generation > loaded ==> anchor == [])
      ensures outcome.Anchored? || (outcome.Failed? && anchor == [])
      ensures failures == old(failures) + if outcome.Failed? then 1 else 0
      ensures scanned <= library
      ensures outcome.Anchored? && generation == loaded ==> anchor == Ids(Head(scanned, ANCHOR_SIZE)) && anchor <= Ids(library)
      ensures base == if outcome.Anchored? && generation == loaded then library else old(base)
    {
      hide Since, Distinct, Ids;
      var songs, more := SongsNewestFirst(0, ANCHOR_SIZE);
      Interfere();
      if songs.None? {
        return Failed, [];
      }
      var saved := SaveAnchor(loaded, songs.value);
      HeadIds(songs.value, library);
      return if saved then Anchored else Failed, songs.value;
    }

    /** What the outcome of a pass means, given what it saw. */
    ghost predicate Explained(outcome: Outcome, view: View)
      reads this
    {
      // a reset during the pass wins, whatever the pass found
      && generation >= view.generation && (generation > view.generation ==> anchor == [])
      // no anchor: everything present counts as had, and nothing is submitted
      && (outcome.Anchored? ==> view.anchor == [])
      // the oldest remembered song is out of reach: nothing is submitted
      && (outcome.Reanchored? ==> view.anchor != [] && view.anchor[|view.anchor| - 1] !in Ids(view.scanned))
      // otherwise what counts as added is exactly what came since the anchor was saved
      && (outcome.Synced? || outcome.Retrying? ==>
            && view.anchor != [] && view.anchor[|view.anchor| - 1] in Ids(view.scanned)
            && exists n: nat :: Since(view.base, library, n) && view.added == library[..n])
      // every album of it is settled or pending, and the anchor moves only if none is pending
      && (outcome.Synced? || outcome.Retrying? ==>
            && Settled(view.verdicts)
            && forall i :: 0 <= i < |view.added| && view.added[i].album != "" ==>
                 (view.added[i].album in view.verdicts <==> view.added[i].album !in view.pending))
      && (outcome.Synced? ==> view.pending == [])
      && (outcome.Retrying? && generation == view.generation ==> view.pending != [] && anchor == view.anchor)
      && (outcome.Failed? && generation == view.generation ==> anchor == view.anchor)
      // and then it is the newest songs of what was scanned
      && view.scanned <= library && view.added <= view.scanned
      && (Saves(outcome) && generation == view.generation ==>
            anchor == Ids(Head(view.scanned, ANCHOR_SIZE)) && anchor <= Ids(library))
    }

    /** pass. view records what it saw, for the contract. */
    method Pass() returns (outcome: Outcome, ghost view: View)
      requires Valid()
      modifies this`generation, this`anchor, this`anchorSize, this`clientErrorPasses, this`lookups, this`base,
        this`failures, this`lastPage, this`batch
      ensures Valid() && Explained(outcome, view)
      // nothing but a read or a write that failed makes it fail
      ensures failures >= old(failures) && (outcome.Failed? <==> failures > old(failures))
      ensures view.anchor == [] || view.anchor == old(anchor)
      ensures view.base == old(base) && base == if generation == view.generation && Saves(outcome) then library else old(base)
    {
      hide Since, Distinct, Ids, Unknown, Settled, Head;
      NothingSubmitted();
      Interfere();
      var loaded, remembered := generation, anchor;
      view := View(loaded, remembered, base, [], [], [], map[]);
      var failed := Fails();
      if failed {
        return Failed, view;
      }
      if |remembered| == 0 {
        var here;
        outcome, here := AnchorHere(loaded);
        view := view.(scanned := here);
      } else {
        outcome, view := Compare(loaded, remembered);
      }
    }

    /** With an anchor: what came since, back to its oldest song. */
    method Compare(loaded: nat, remembered: seq<SongId>) returns (outcome: Outcome, ghost view: View)
      requires Valid() && loaded == generation && remembered == anchor != []
      modifies this`generation, this`anchor, this`anchorSize, this`clientErrorPasses, this`lookups, this`base,
        this`failures, this`lastPage, this`batch
      ensures Valid() && Explained(outcome, view)
      ensures !outcome.Anchored? && view.generation == loaded && view.anchor == remembered && view.base == old(base)
      ensures failures >= old(failures) && (outcome.Failed? <==> failures > old(failures))
      ensures base == if generation == loaded && Saves(outcome) then library else old(base)
    {
      hide Since, Distinct, Ids, Unknown, Settled, Head;
      NothingSubmitted();
      view := View(loaded, remembered, base, [], [], [], map[]);
      var oldest := remembered[|remembered| - 1];
      var scanned, found := ScanUntil(oldest, |remembered| + MARGIN);
      Interfere();
      if scanned.None? {
        return Failed, view;
      }
      view := view.(scanned := scanned.value);
      if found {
        outcome, view := Follow(loaded, remembered, scanned.value);
      } else {
        HeadIds(Head(scanned.value, ANCHOR_SIZE), library);
        var saved := SaveAnchor(loaded, Head(scanned.value, ANCHOR_SIZE));
        return if saved then Reanchored else Failed, view;
      }
    }

    /** With the oldest remembered song among what was scanned. */
    method Follow(loaded: nat, remembered: seq<SongId>, scanned: seq<Song>) returns (outcome: Outcome, ghost view: View)
      requires Valid() && loaded <= generation && remembered != [] && scanned <= library
      requires if loaded == generation then anchor == remembered else anchor == []
      requires remembered <= Ids(base) && Distinct(base) && remembered[|remembered| - 1] in Ids(scanned)
      requires exists n :: Since(base, library, n)
      modifies this`generation, this`anchor, this`anchorSize, this`clientErrorPasses, this`lookups, this`base,
        this`failures, this`batch
      ensures Valid() && Explained(outcome, view)
      ensures !Saves(outcome) || outcome.Synced?
      ensures view.generation == loaded && view.anchor == remembered && view.base == old(base)
      ensures failures == old(failures) + if outcome.Failed? then 1 else 0
      ensures base == if generation == loaded && Saves(outcome) then library else old(base)
    {
      hide Since, Distinct, Ids, Unknown, Settled, Head, Valid, Explained;
      HeadIds(Head(scanned, ANCHOR_SIZE), library);
      var added := AddedSongs(scanned, remembered, remembered[|remembered| - 1]);
      ghost var n := Fresh(base, library, remembered, scanned, added);
      view := View(loaded, remembered, base, scanned, added, [], map[]);
      var pending;
      ghost var verdicts;
      outcome, pending, verdicts := SubmitAdded(loaded, Head(scanned, ANCHOR_SIZE), added);
      view := view.(pending := pending, verdicts := verdicts);
      FollowExplained(outcome, view, n);
    }

    lemma FollowExplained(outcome: Outcome, view: View, n: nat)
      requires outcome.Failed? || outcome.Synced? || outcome.Retrying?
      requires generation >= view.generation && (generation > view.generation ==> anchor == [])
      requires view.anchor != [] && view.anchor[|view.anchor| - 1] in Ids(view.scanned)
      requires Since(view.base, library, n) && view.added == library[..n] && n <= |view.scanned| && view.scanned <= library
      requires Settled(view.verdicts)
      requires forall i :: 0 <= i < |view.added| && view.added[i].album != "" ==>
        (view.added[i].album in view.verdicts <==> view.added[i].album !in view.pending)
      requires outcome.Synced? ==> view.pending == []
      requires outcome.Synced? && generation == view.generation ==>
        anchor == Ids(Head(view.scanned, ANCHOR_SIZE)) && anchor <= Ids(library)
      requires outcome.Retrying? && generation == view.generation ==> view.pending != [] && anchor == view.anchor
      requires outcome.Failed? && generation == view.generation ==> anchor == view.anchor
      ensures Explained(outcome, view)
    {
      hide Since, Ids, Settled, Head;
      assert view.added <= view.scanned;
    }

    /** run: passes now and then, while the library changes and others reset. Whenever
        there is an anchor, every song is accounted for but those in front that were
        added since it was saved, which are what the next pass to find it adds. */
    method Run(ghost before: map<SongId, Fate>) returns (ghost fates: map<SongId, Fate>)
      requires Valid() && Fair(before) && (anchor != [] ==> Accounted(base, before))
      modifies this
      ensures Valid() && Fair(fates) && forall id :: id in before ==> id in fates && fates[id] == before[id]
      ensures anchor != [] ==> exists n: nat :: Since(base, library, n) && Accounted(library[n..], fates)
    {
      hide Since, Distinct, Ids, Fair, Accounted, KeptFrom, Recorded;
      fates := before;
      var rounds: nat := *;
      while rounds > 0
        invariant Valid() && Fair(fates) && (anchor != [] ==> Accounted(base, fates))
        invariant forall id :: id in before ==> id in fates && fates[id] == before[id]
      {
        var pass: bool, added: seq<Song>, places: seq<nat>, left: seq<Song> := *, *, *, *;
        if pass {
          fates := Once(fates);
        } else if KeptFrom(library, left, places) && Distinct(added) && forall i :: 0 <= i < |added| ==> added[i].id !in ever {
          Change(added, places, left);
        }
        Interfere();
        rounds := rounds - 1;
      }
      if anchor != [] {
        ghost var n :| Since(base, library, n);
        KeptAccounted(base, library, n, fates);
      }
    }

    /** RunOnce, with the fates it adds. */
    method Once(ghost before: map<SongId, Fate>) returns (ghost fates: map<SongId, Fate>)
      requires Valid() && Fair(before) && (anchor != [] ==> Accounted(base, before))
      modifies this`generation, this`anchor, this`anchorSize, this`clientErrorPasses, this`lookups, this`base,
        this`failures, this`lastPage, this`batch
      ensures Valid() && Fair(fates) && (anchor != [] ==> Accounted(base, fates))
      ensures forall id :: id in before ==> id in fates && fates[id] == before[id]
    {
      hide Since, Distinct, Ids, Fair, Accounted, Settled;
      var outcome;
      ghost var view;
      outcome, view := Pass();
      fates := before;
      if generation == view.generation && Saves(outcome) {
        fates := Recorded(before, outcome, view, library);
        if outcome.Synced? {
          SyncedAccounted(view.base, library, view.added, view.verdicts, before);
        } else {
          HadAccounted(library, before);
        }
      }
    }
  }

  /** What became of a song: it was there when a pass took the whole library as had, it
      has no album, or its album was settled by a pass that synced. */
  datatype Fate = Had | NoAlbum | Dealt(verdict: Verdict)

  function AllHad(songs: seq<Song>): map<SongId, Fate> {
    map id | id in Ids(songs) :: Had
  }

  /** Every album of the songs has its verdict. */
  predicate Decided(added: seq<Song>, verdicts: map<AlbumId, Verdict>) {
    forall i :: 0 <= i < |added| && added[i].album != "" ==> added[i].album in verdicts
  }

  function FatesOf(added: seq<Song>, verdicts: map<AlbumId, Verdict>): map<SongId, Fate>
    requires Decided(added, verdicts)
  {
    if added == [] then map[]
    else
      var song := added[|added| - 1];
      FatesOf(added[..|added| - 1], verdicts)[song.id := if song.album == "" then NoAlbum else Dealt(verdicts[song.album])]
  }

  /** The fates recorded so far stand, and a pass that saved an anchor adds its own. */
  function Recorded(fates: map<SongId, Fate>, outcome: Outcome, view: View, library: seq<Song>): map<SongId, Fate>
    requires outcome.Synced? ==> Decided(view.added, view.verdicts)
  {
    if outcome.Synced? then FatesOf(view.added, view.verdicts) + fates
    else if Saves(outcome) then AllHad(library) + fates
    else fates
  }

  ghost predicate Accounted(songs: seq<Song>, fates: map<SongId, Fate>) {
    forall i :: 0 <= i < |songs| ==> songs[i].id in fates
  }

  /** An album counts as submitted only when its submission was consumed. */
  ghost predicate Fair(fates: map<SongId, Fate>) {
    forall id :: id in fates && fates[id].Dealt? && fates[id].verdict.Submitted? ==> fates[id].verdict.status in FOR_GOOD
  }

  lemma {:induction false} AddedAccounted(added: seq<Song>, verdicts: map<AlbumId, Verdict>)
    requires Settled(verdicts) && Decided(added, verdicts)
    ensures Accounted(added, FatesOf(added, verdicts)) && Fair(FatesOf(added, verdicts))
  {
    if added != [] {
      var front := added[..|added| - 1];
      AddedAccounted(front, verdicts);
      assert forall i :: 0 <= i < |front| ==> added[i] == front[i];
    }
  }

  /** With what was added since the anchor, everything present is accounted for. */
  lemma {:induction false} SyncedAccounted(base: seq<Song>, library: seq<Song>, added: seq<Song>, verdicts: map<AlbumId, Verdict>, fates: map<SongId, Fate>)
    requires exists n: nat :: Since(base, library, n) && added == library[..n]
    requires Accounted(base, fates) && Fair(fates) && Settled(verdicts) && Decided(added, verdicts)
    ensures var all := FatesOf(added, verdicts) + fates; Accounted(library, all) && Fair(all)
  {
    hide Settled;
    var n: nat :| Since(base, library, n) && added == library[..n];
    AddedAccounted(library[..n], verdicts);
    KeptAccounted(base, library, n, fates);
    assert forall i :: 0 <= i < n ==> library[i] == library[..n][i];
    assert forall i :: n <= i < |library| ==> library[i] == library[n..][i - n];
  }

  lemma {:induction false} KeptAccounted(base: seq<Song>, library: seq<Song>, n: nat, fates: map<SongId, Fate>)
    requires Since(base, library, n) && Accounted(base, fates)
    ensures n <= |library| && Accounted(library[n..], fates)
  {
    var places :| KeptFrom(base, library[n..], places);
    forall i | 0 <= i < |library[n..]|
      ensures library[n..][i].id in fates
    {
      assert library[n..][i] == base[places[i]];
    }
  }

  lemma HadAccounted(library: seq<Song>, fates: map<SongId, Fate>)
    requires Fair(fates)
    ensures Accounted(library, AllHad(library) + fates) && Fair(AllHad(library) + fates)
  {
    assert forall i :: 0 <= i < |library| ==> Ids(library)[i] == library[i].id;
  }

  datatype Outcome = Failed | Anchored | Reanchored | Synced(submitted: nat) | Retrying(submitted: nat)

  /** A pass that ended with a new anchor, unless a reset came first. */
  predicate Saves(outcome: Outcome) {
    outcome.Anchored? || outcome.Reanchored? || outcome.Synced?
  }

  datatype View = View(generation: nat, anchor: seq<SongId>, base: seq<Song>, scanned: seq<Song>, added: seq<Song>,
                       pending: seq<AlbumId>, verdicts: map<AlbumId, Verdict>)

  lemma NothingSubmitted()
    ensures Settled(map[])
  {
  }

  lemma HeadIds(songs: seq<Song>, library: seq<Song>)
    ensures songs <= library ==> Ids(songs) <= Ids(library)
  {
  }

  /** The songs ahead of the oldest remembered one that the anchor does not know. */
  method AddedSongs(scanned: seq<Song>, remembered: seq<SongId>, oldest: SongId) returns (added: seq<Song>)
    requires oldest in Ids(scanned)
    ensures exists cut :: 0 <= cut < |scanned| && scanned[cut].id == oldest && added == Unknown(scanned[..cut], remembered)
  {
    var cut := 0;
    while scanned[cut].id != oldest
      invariant 0 <= cut < |scanned| && oldest in Ids(scanned)[cut..]
      decreases |scanned| - cut
    {
      assert Ids(scanned)[cut..] == [scanned[cut].id] + Ids(scanned)[cut + 1..];
      cut := cut + 1;
    }
    added := [];
    var i := 0;
    while i < cut
      invariant 0 <= i <= cut
      invariant added == Unknown(scanned[..i], remembered)
    {
      assert scanned[..i + 1][..i] == scanned[..i];
      if scanned[i].id !in remembered {
        added := added + [scanned[i]];
      }
      i := i + 1;
    }
  }

  lemma {:induction false} Fresh(base: seq<Song>, library: seq<Song>, remembered: seq<SongId>, scanned: seq<Song>, added: seq<Song>) returns (n: nat)
    requires Distinct(base) && remembered != [] && remembered <= Ids(base) && scanned <= library
    requires exists m :: Since(base, library, m)
    requires exists cut :: 0 <= cut < |scanned| && scanned[cut].id == remembered[|remembered| - 1] && added == Unknown(scanned[..cut], remembered)
    ensures Since(base, library, n) && n <= |scanned| && added == library[..n]
  {
    n :| Since(base, library, n);
    var cut :| 0 <= cut < |scanned| && scanned[cut].id == remembered[|remembered| - 1] && added == Unknown(scanned[..cut], remembered);
    AddedIsFresh(base, library, n, remembered, cut);
    assert scanned[..cut] == library[..cut];
  }

  lemma {:induction false} Unchanged(library: seq<Song>)
    ensures Since(library, library, 0)
  {
    assert library[0..] == library;
    assert KeptFrom(library, library[0..], seq(|library|, i => i));
  }

  /** The albums of the songs, each once, in the order they first show. */
  method AlbumsOf(added: seq<Song>) returns (order: seq<AlbumId>)
    ensures forall i, k :: 0 <= i < k < |order| ==> order[i] != order[k]
    ensures forall i :: 0 <= i < |added| ==> (added[i].album != "" <==> added[i].album in order)
  {
    order := [];
    var i := 0;
    while i < |added|
      invariant 0 <= i <= |added|
      invariant forall k, l :: 0 <= k < l < |order| ==> order[k] != order[l]
      invariant "" !in order && forall k :: 0 <= k < i && added[k].album != "" ==> added[k].album in order
    {
      if added[i].album != "" && added[i].album !in order {
        order := order + [added[i].album];
      }
      i := i + 1;
    }
  }

  lemma {:induction false} NotInPage(a: seq<Song>, b: seq<Song>, id: SongId)
    requires id !in Ids(a) && forall k :: 0 <= k < |b| ==> b[k].id != id
    ensures id !in Ids(a + b)
  {
    assert forall k :: 0 <= k < |a| ==> Ids(a)[k] == a[k].id && Ids(a + b)[k] == a[k].id;
  }
}

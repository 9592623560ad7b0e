/** The sample tables of an MP4 track (internal/media/alacfix.go): where each packet
    lies, as sections 8.7.3 to 8.7.5 of ISO/IEC 14496-12 define it. */
module Mp4Tables {
  import opened Wrappers
  import opened AlacBits
  import opened Mp4Atoms

  /** One entry of the sample-to-chunk table; both fields are uint32. */
  datatype Run = Run(first: nat, samples: nat)

  datatype Loc = Loc(offset: int, size: nat)

  // ---- Samples per chunk

  /** The first chunk of the run after run i; after the last, one past the last chunk
      in uint32 arithmetic. */
  function NextFirst(runs: seq<Run>, chunks: nat, i: nat): nat
    requires i < |runs|
  {
    if i + 1 < |runs| then runs[i + 1].first else (chunks + 1) % U32
  }

  /** Run i is applied to chunk c, counted from 0; a run from chunk 0 never is. */
  predicate Covers(runs: seq<Run>, chunks: nat, i: nat, c: nat)
    requires i < |runs|
  {
    1 <= runs[i].first <= c + 1 < NextFirst(runs, chunks, i)
  }

  /** What the first upto runs leave for chunk c: the last that covers it. */
  function Assigned(runs: seq<Run>, chunks: nat, c: nat, upto: nat): nat
    requires upto <= |runs|
  {
    if upto == 0 then 0
    else if Covers(runs, chunks, upto - 1, c) then runs[upto - 1].samples
    else Assigned(runs, chunks, c, upto - 1)
  }

  function PerChunk(runs: seq<Run>, chunks: nat, c: nat): nat {
    var n := Assigned(runs, chunks, c, |runs|);
    if n == 0 && runs != [] then runs[|runs| - 1].samples else n
  }

  method SamplesPerChunk(runs: seq<Run>, chunks: nat) returns (per: array<nat>)
    requires chunks < U32 && forall i :: 0 <= i < |runs| ==> runs[i].first < U32
    ensures fresh(per) && per.Length == chunks
    ensures forall c :: 0 <= c < chunks ==> per[c] == PerChunk(runs, chunks, c)
  {
    per := new nat[chunks](_ => 0);
    var i := 0;
    while i < |runs|
      invariant 0 <= i <= |runs|
      invariant forall c :: 0 <= c < chunks ==> per[c] == Assigned(runs, chunks, c, i)
    {
      var next := (chunks + 1) % U32;
      if i + 1 < |runs| {
        next := runs[i + 1].first;
      }
      var chunk := runs[i].first;
      while chunk < next && (chunk - 1) % U32 < chunks
        invariant runs[i].first <= chunk && (chunk == runs[i].first || (1 <= runs[i].first && chunk <= next))
        invariant forall c :: 0 <= c < chunks ==>
          per[c] == if 1 <= runs[i].first <= c + 1 < chunk then runs[i].samples else Assigned(runs, chunks, c, i)
        decreases chunks - chunk
      {
        assert chunk > 0;
        if chunk > 0 {
          per[chunk - 1] := runs[i].samples;
        }
        chunk := chunk + 1;
      }
      i := i + 1;
    }
    if |runs| > 0 {
      i := 0;
      while i < chunks
        invariant 0 <= i <= chunks
        invariant forall c :: 0 <= c < chunks ==>
          per[c] == if c < i then PerChunk(runs, chunks, c) else Assigned(runs, chunks, c, |runs|)
      {
        if per[i] == 0 {
          per[i] := runs[|runs| - 1].samples;
        }
        i := i + 1;
      }
    }
  }

  /** Section 8.7.4: first_chunk starts at 1 and strictly increases, and every run has
      samples. */
  predicate Standard(runs: seq<Run>, chunks: nat) {
    && runs != [] && runs[0].first == 1 && chunks + 1 < U32
    && (forall i, k :: 0 <= i < k < |runs| ==> runs[i].first < runs[k].first)
    && (forall i :: 0 <= i < |runs| ==> runs[i].samples > 0)
  }

  /** A chunk has the samples of the last run that starts at or before it. */
  lemma {:induction false} RunApplies(runs: seq<Run>, chunks: nat, i: nat, c: nat)
    requires Standard(runs, chunks) && i < |runs| && c < chunks
    requires runs[i].first <= c + 1 && (i + 1 < |runs| ==> c + 1 < runs[i + 1].first)
    ensures PerChunk(runs, chunks, c) == runs[i].samples
  {
    LaterRunsMiss(runs, chunks, i, c, |runs|);
  }

  lemma {:induction false} LaterRunsMiss(runs: seq<Run>, chunks: nat, i: nat, c: nat, upto: nat)
    requires Standard(runs, chunks) && i < upto <= |runs| && c < chunks
    requires runs[i].first <= c + 1 && (i + 1 < |runs| ==> c + 1 < runs[i + 1].first)
    ensures Assigned(runs, chunks, c, upto) == runs[i].samples
  {
    if upto - 1 > i {
      assert runs[i + 1].first <= runs[upto - 1].first;
      LaterRunsMiss(runs, chunks, i, c, upto - 1);
    } else {
      assert runs[0].first <= runs[i].first;
    }
  }

  // ---- Locations

  function Sum(s: seq<nat>): nat {
    if s == [] then 0 else Sum(s[..|s| - 1]) + s[|s| - 1]
  }

  /** n samples of one chunk, one behind the other from offset. */
  function InChunk(sizes: seq<nat>, offset: int, sample: nat, n: nat): (locs: seq<Loc>)
    requires sample + n <= |sizes|
    ensures |locs| == n
    decreases n
  {
    if n == 0 then []
    else InChunk(sizes, offset, sample, n - 1) + [Loc(offset + Sum(sizes[sample..sample + n - 1]), sizes[sample + n - 1])]
  }

  /** How many samples lie in the chunks before c. */
  function Before(per: seq<nat>, c: nat): nat
    requires c <= |per|
  {
    Sum(per[..c])
  }

  function Lesser(a: nat, b: nat): nat { if a < b then a else b }

  /** The samples of the chunks before c, as many as there are sizes for. */
  function Locate(sizes: seq<nat>, offsets: seq<int>, per: seq<nat>, c: nat): (locs: seq<Loc>)
    requires |per| == |offsets| && c <= |per|
    ensures |locs| == Lesser(Before(per, c), |sizes|)
    decreases c
  {
    if c == 0 then
      assert Before(per, 0) == 0;
      []
    else
      var locs := Locate(sizes, offsets, per, c - 1);
      assert per[..c][..c - 1] == per[..c - 1];
      locs + InChunk(sizes, offsets[c - 1], |locs|, Lesser(per[c - 1], |sizes| - |locs|))
  }

  lemma BeforeNext(per: seq<nat>, c: nat)
    requires c < |per|
    ensures Before(per, c + 1) == Before(per, c) + per[c]
  {
    assert per[..c + 1][..c] == per[..c];
  }

  lemma LocateNext(sizes: seq<nat>, offsets: seq<int>, per: seq<nat>, c: nat)
    requires |per| == |offsets| && c < |per|
    ensures var locs := Locate(sizes, offsets, per, c);
      Locate(sizes, offsets, per, c + 1) == locs + InChunk(sizes, offsets[c], |locs|, Lesser(per[c], |sizes| - |locs|))
  {
    hide InChunk, Before;
  }

  /** Sections 8.7.3 and 8.7.5: sample j, which is in chunk c, has its own size and
      lies behind the earlier samples of that chunk. */
  lemma {:induction false} SampleAt(sizes: seq<nat>, offsets: seq<int>, per: seq<nat>, upto: nat, c: nat, j: nat)
    requires |per| == |offsets| && c < upto <= |per| && j < |sizes|
    requires Before(per, c) <= j < Before(per, c) + per[c]
    ensures j < |Locate(sizes, offsets, per, upto)|
    ensures Locate(sizes, offsets, per, upto)[j] == Loc(offsets[c] + Sum(sizes[Before(per, c)..j]), sizes[j])
    decreases upto
  {
    hide Locate, InChunk, Before, Sum;
    var locs := Locate(sizes, offsets, per, upto - 1);
    BeforeNext(per, upto - 1);
    LocateNext(sizes, offsets, per, upto - 1);
    if c < upto - 1 {
      BeforeGrows(per, c + 1, upto - 1);
      BeforeNext(per, c);
      SampleAt(sizes, offsets, per, upto - 1, c, j);
    } else {
      InChunkAt(sizes, offsets[c], |locs|, Lesser(per[c], |sizes| - |locs|), j - |locs|);
    }
  }

  lemma {:induction false} BeforeGrows(per: seq<nat>, c: nat, d: nat)
    requires c <= d <= |per|
    ensures Before(per, c) <= Before(per, d)
    decreases d
  {
    if c < d {
      assert per[..d][..d - 1] == per[..d - 1];
      BeforeGrows(per, c, d - 1);
    }
  }

  lemma {:induction false} InChunkAt(sizes: seq<nat>, offset: int, sample: nat, n: nat, k: nat)
    requires sample + n <= |sizes| && k < n
    ensures InChunk(sizes, offset, sample, n)[k] == Loc(offset + Sum(sizes[sample..sample + k]), sizes[sample + k])
    decreases n
  {
    if k < n - 1 {
      InChunkAt(sizes, offset, sample, n - 1, k);
    }
  }

  lemma {:induction false} NoSamples(sizes: seq<nat>, offset: int, first: nat)
    requires first <= |sizes|
    ensures InChunk(sizes, offset, first, 0) == [] && Sum(sizes[first..first]) == 0
  {
  }

  lemma {:induction false} OneMoreSample(sizes: seq<nat>, offset: int, first: nat, i: nat)
    requires first + i < |sizes|
    ensures InChunk(sizes, offset, first, i + 1)
         == InChunk(sizes, offset, first, i) + [Loc(offset + Sum(sizes[first..first + i]), sizes[first + i])]
    ensures Sum(sizes[first..first + i + 1]) == Sum(sizes[first..first + i]) + sizes[first + i]
  {
    assert sizes[first..first + i + 1][..i] == sizes[first..first + i];
  }

  /** The last loop of readALACPacketLocations. */
  method LocatePackets(sizes: seq<nat>, offsets: seq<int>, per: array<nat>) returns (locs: seq<Loc>)
    requires per.Length == |offsets|
    ensures locs == Locate(sizes, offsets, per[..], |offsets|)
  {
    hide Sum, InChunk;
    locs := [];
    var sample := 0;
    var c := 0;
    while c < |offsets|
      invariant 0 <= c <= |offsets|
      invariant locs == Locate(sizes, offsets, per[..], c) && sample == |locs|
    {
      var current := offsets[c];
      ghost var first, done := sample, locs;
      NoSamples(sizes, offsets[c], first);
      var i := 0;
      while i < per[c] && sample < |sizes|
        invariant 0 <= i && sample == first + i && i <= per[c] && sample <= |sizes|
        invariant locs == done + InChunk(sizes, offsets[c], first, i)
        invariant current == offsets[c] + Sum(sizes[first..sample])
      {
        var size := sizes[sample];
        locs := locs + [Loc(current, size)];
        OneMoreSample(sizes, offsets[c], first, i);
        current := current + size;
        sample := sample + 1;
        i := i + 1;
      }
      c := c + 1;
      if sample >= |sizes| {
        NoMore(sizes, offsets, per[..], c, |offsets|);
        return;
      }
    }
  }

  /** Once every size is placed, the remaining chunks add nothing. */
  lemma {:induction false} NoMore(sizes: seq<nat>, offsets: seq<int>, per: seq<nat>, c: nat, d: nat)
    requires |per| == |offsets| && c <= d <= |per| && |Locate(sizes, offsets, per, c)| == |sizes|
    ensures Locate(sizes, offsets, per, d) == Locate(sizes, offsets, per, c)
    decreases d
  {
    if c < d {
      NoMore(sizes, offsets, per, c, d - 1);
    }
  }

  /** Section 8.7.4 read forward: the run of a chunk is the last that starts at or
      before it. */
  function SamplesIn(runs: seq<Run>, c: nat): nat
    requires runs != []
  {
    if |runs| == 1 || c + 1 < runs[1].first then runs[0].samples else SamplesIn(runs[1..], c)
  }

  lemma {:induction false} SamplesInRun(runs: seq<Run>, from: nat, c: nat) returns (i: nat)
    requires from < |runs| && runs[from].first <= c + 1
    ensures from <= i < |runs| && runs[i].first <= c + 1 && (i + 1 < |runs| ==> c + 1 < runs[i + 1].first)
    ensures SamplesIn(runs[from..], c) == runs[i].samples
    decreases |runs| - from
  {
    if from + 1 == |runs| || c + 1 < runs[from + 1].first {
      i := from;
    } else {
      assert runs[from..][1..] == runs[from + 1..];
      i := SamplesInRun(runs, from + 1, c);
    }
  }

  /** With runs as the standard wants them, sample j lies in the chunk in which the
      counts of section 8.7.4 put it, behind the earlier samples of that chunk, with
      its own size. */
  lemma {:induction false} StandardSample(sizes: seq<nat>, offsets: seq<int>, runs: seq<Run>, per: seq<nat>, c: nat, j: nat)
    requires Standard(runs, |offsets|) && |per| == |offsets| && c < |per| && j < |sizes|
    requires forall k :: 0 <= k < |per| ==> per[k] == SamplesIn(runs, k)
    requires Before(per, c) <= j < Before(per, c) + per[c]
    ensures var n := |offsets|;
      var locs := Locate(sizes, offsets, seq(n, k requires 0 <= k < n => PerChunk(runs, n, k)), n);
      j < |locs| && locs[j] == Loc(offsets[c] + Sum(sizes[Before(per, c)..j]), sizes[j])
  {
    hide PerChunk, Locate;
    var n := |offsets|;
    var used := seq(n, k requires 0 <= k < n => PerChunk(runs, n, k));
    forall k | 0 <= k < n
      ensures used[k] == per[k]
    {
      assert runs[0..] == runs;
      var i := SamplesInRun(runs, 0, k);
      RunApplies(runs, n, i, k);
    }
    assert used == per;
    SampleAt(sizes, offsets, per, n, c, j);
  }

  // ---- The tables in the file

  const STSZ: Bytes := [0x73, 0x74, 0x73, 0x7a]
  const STSC: Bytes := [0x73, 0x74, 0x73, 0x63]
  const STCO: Bytes := [0x73, 0x74, 0x63, 0x6f]
  const CO64: Bytes := [0x63, 0x6f, 0x36, 0x34]

  /** Section 8.7.3: one size for all samples, or a table. */
  function SizesOf(data: Bytes, stsz: Atom): Option<seq<nat>>
    requires stsz.body <= stsz.end <= |data|
  {
    hide *;
    if stsz.end - stsz.body < 12 then None
    else
      var common, count := BE32(data, stsz.body + 4), BE32(data, stsz.body + 8);
      if common != 0 then Some(seq(count, _ => common))
      else if stsz.end - stsz.body < 12 + 4 * count then None
      else Some(seq(count, i requires 0 <= i < count => BE32(data, stsz.body + 12 + 4 * i)))
  }

  /** A 64-bit offset is taken as a signed one. */
  function Signed64(v: nat): int {
    if v < 0x8000_0000_0000_0000 then v else v - 0x1_0000_0000_0000_0000
  }

  /** Section 8.7.5: 32-bit offsets, or 64-bit ones. */
  function OffsetsOf(data: Bytes, stco: Atom, wide: bool): Option<seq<int>>
    requires stco.body <= stco.end <= |data|
  {
    hide *;
    if stco.end - stco.body < 8 then None
    else
      var count := BE32(data, stco.body + 4);
      if stco.end - stco.body - 8 < count * (if wide then 8 else 4) then None
      else if wide then Some(seq(count, i requires 0 <= i < count => Signed64(BE64(data, stco.body + 8 + 8 * i))))
      else Some(seq(count, i requires 0 <= i < count => BE32(data, stco.body + 8 + 4 * i)))
  }

  /** Section 8.7.4; the sample description index of each entry is not used. */
  function RunsOf(data: Bytes, stsc: Atom): Option<seq<Run>>
    requires stsc.body <= stsc.end <= |data|
  {
    hide *;
    if stsc.end - stsc.body < 8 then None
    else
      var count := BE32(data, stsc.body + 4);
      if stsc.end - stsc.body < 8 + 12 * count then None
      else Some(seq(count, i requires 0 <= i < count =>
        Run(BE32(data, stsc.body + 8 + 12 * i), BE32(data, stsc.body + 12 + 12 * i))))
  }

  function OffsetAtom(data: Bytes, stbl: Atom): (atom: Option<Atom>)
    ensures atom.Some? ==> stbl.body <= atom.value.body <= atom.value.end <= stbl.end && stbl.end <= |data|
  {
    var stco := Child(data, stbl.body, stbl.end, STCO);
    if stco.Some? then stco else Child(data, stbl.body, stbl.end, CO64)
  }

  function PacketsOf(data: Bytes, stbl: Atom): Option<seq<Loc>> {
    var stsz, stsc, stco := Child(data, stbl.body, stbl.end, STSZ), Child(data, stbl.body, stbl.end, STSC), OffsetAtom(data, stbl);
    if stsz.None? || stsc.None? || stco.None? then None
    else
      var sizes := SizesOf(data, stsz.value);
      var offsets := OffsetsOf(data, stco.value, Child(data, stbl.body, stbl.end, STCO).None?);
      var runs := RunsOf(data, stsc.value);
      if sizes.None? || offsets.None? || runs.None? then None
      else
        var n := |offsets.value|;
        Some(Locate(sizes.value, offsets.value, seq(n, c requires 0 <= c < n => PerChunk(runs.value, n, c)), n))
  }

  method ReadSizes(data: Bytes, stsz: Atom) returns (r: Option<seq<nat>>)
    requires stsz.body <= stsz.end <= |data|
    ensures r == SizesOf(data, stsz)
  {
    hide BE32;
    if stsz.end - stsz.body < 12 {
      return None;
    }
    var common, count := BE32(data, stsz.body + 4), BE32(data, stsz.body + 8);
    var sizes := new nat[count];
    if common == 0 && stsz.end - stsz.body < 12 + count * 4 {
      return None;
    }
    var i := 0;
    while i < count
      invariant 0 <= i <= count
      invariant forall k :: 0 <= k < i ==> sizes[k] == if common == 0 then BE32(data, stsz.body + 12 + 4 * k) else common
    {
      sizes[i] := if common == 0 then BE32(data, stsz.body + 12 + i * 4) else common;
      i := i + 1;
    }
    assert sizes[..] == SizesOf(data, stsz).value;
    return Some(sizes[..]);
  }

  method ReadOffsets(data: Bytes, stco: Atom, wide: bool) returns (r: Option<seq<int>>)
    requires stco.body <= stco.end <= |data|
    ensures r == OffsetsOf(data, stco, wide)
  {
    hide BE32, BE64, Signed64;
    if stco.end - stco.body < 8 {
      return None;
    }
    var count := BE32(data, stco.body + 4);
    var offsets := new int[count];
    var pos := stco.body + 8;
    var entrySize := if wide then 8 else 4;
    if stco.end - pos < count * entrySize {
      return None;
    }
    var i := 0;
    while i < count
      invariant 0 <= i <= count && pos == stco.body + 8 + entrySize * i
      invariant forall k :: 0 <= k < i ==>
        offsets[k] == if wide then Signed64(BE64(data, stco.body + 8 + 8 * k)) else BE32(data, stco.body + 8 + 4 * k)
    {
      offsets[i] := if wide then Signed64(BE64(data, pos)) else BE32(data, pos);
      pos := pos + entrySize;
      i := i + 1;
    }
    assert offsets[..] == OffsetsOf(data, stco, wide).value;
    return Some(offsets[..]);
  }

  method ReadRuns(data: Bytes, stsc: Atom) returns (r: Option<seq<Run>>)
    requires stsc.body <= stsc.end <= |data|
    ensures r == RunsOf(data, stsc)
  {
    hide BE32;
    if stsc.end - stsc.body < 8 {
      return None;
    }
    var count := BE32(data, stsc.body + 4);
    if stsc.end - stsc.body < 8 + count * 12 {
      return None;
    }
    var runs: seq<Run> := [];
    var pos := stsc.body + 8;
    while |runs| < count
      invariant |runs| <= count && pos == stsc.body + 8 + 12 * |runs|
      invariant forall k :: 0 <= k < |runs| ==>
        runs[k] == Run(BE32(data, stsc.body + 8 + 12 * k), BE32(data, stsc.body + 12 + 12 * k))
    {
      runs := runs + [Run(BE32(data, pos), BE32(data, pos + 4))];
      pos := pos + 12;
    }
    assert runs == RunsOf(data, stsc).value;
    return Some(runs);
  }

  method FindChild(data: Bytes, start: nat, end: nat, typ: Bytes) returns (atom: Option<Atom>)
    ensures atom == Child(data, start, end, typ)
  {
    hide ChildrenFrom;
    var children := FindChildren(data, start, end, typ);
    return if |children| == 0 then None else Some(children[0]);
  }

  /** readALACPacketLocations. */
  method ReadPacketLocations(data: Bytes, stbl: Atom) returns (r: Option<seq<Loc>>)
    ensures r == PacketsOf(data, stbl)
  {
    hide Child, SizesOf, OffsetsOf, RunsOf, PerChunk, Locate;
    var stsz := FindChild(data, stbl.body, stbl.end, STSZ);
    if stsz.None? {
      return None;
    }
    var stsc := FindChild(data, stbl.body, stbl.end, STSC);
    if stsc.None? {
      return None;
    }
    var stco := FindChild(data, stbl.body, stbl.end, STCO);
    var wide := false;
    if stco.None? {
      stco := FindChild(data, stbl.body, stbl.end, CO64);
      if stco.None? {
        return None;
      }
      wide := true;
    }
    var sizes := ReadSizes(data, stsz.value);
    if sizes.None? {
      return None;
    }
    var offsets := ReadOffsets(data, stco.value, wide);
    if offsets.None? {
      return None;
    }
    var runs := ReadRuns(data, stsc.value);
    if runs.None? {
      return None;
    }
    TablesBounded(data, stco.value, wide, stsc.value);
    var per := SamplesPerChunk(runs.value, |offsets.value|);
    assert per[..] == seq(|offsets.value|, c requires 0 <= c < |offsets.value| => PerChunk(runs.value, |offsets.value|, c));
    var locs := LocatePackets(sizes.value, offsets.value, per);
    return Some(locs);
  }

  lemma TablesBounded(data: Bytes, stco: Atom, wide: bool, stsc: Atom)
    requires stco.body <= stco.end <= |data| && stsc.body <= stsc.end <= |data|
    ensures OffsetsOf(data, stco, wide).Some? ==> |OffsetsOf(data, stco, wide).value| < U32
    ensures RunsOf(data, stsc).Some? ==>
      forall i :: 0 <= i < |RunsOf(data, stsc).value| ==> RunsOf(data, stsc).value[i].first < U32
  {
    hide BE32, BE64, Signed64;
  }

  // ---- Which bytes decide

  lemma {:induction false} SizesLocal(a: Bytes, b: Bytes, stsz: Atom)
    requires stsz.body <= stsz.end <= |a| && Agree(a, b, stsz.body, stsz.end)
    ensures SizesOf(a, stsz) == SizesOf(b, stsz)
  {
    hide U8, Word;
    if SizesOf(a, stsz).Some? {
      var x, y := SizesOf(a, stsz).value, SizesOf(b, stsz).value;
      assert |x| == |y| && forall i :: 0 <= i < |x| ==> x[i] == y[i];
      assert x == y;
    }
  }

  lemma {:induction false} OffsetsLocal(a: Bytes, b: Bytes, stco: Atom, wide: bool)
    requires stco.body <= stco.end <= |a| && Agree(a, b, stco.body, stco.end)
    ensures OffsetsOf(a, stco, wide) == OffsetsOf(b, stco, wide)
  {
    hide U8, Word, Signed64;
    if OffsetsOf(a, stco, wide).Some? {
      var x, y := OffsetsOf(a, stco, wide).value, OffsetsOf(b, stco, wide).value;
      assert |x| == |y| && forall i :: 0 <= i < |x| ==> x[i] == y[i];
      assert x == y;
    }
  }

  lemma {:induction false} RunsLocal(a: Bytes, b: Bytes, stsc: Atom)
    requires stsc.body <= stsc.end <= |a| && Agree(a, b, stsc.body, stsc.end)
    ensures RunsOf(a, stsc) == RunsOf(b, stsc)
  {
    hide U8, Word;
    if RunsOf(a, stsc).Some? {
      var x, y := RunsOf(a, stsc).value, RunsOf(b, stsc).value;
      assert |x| == |y| && forall i :: 0 <= i < |x| ==> x[i] == y[i];
      assert x == y;
    }
  }

  /** The packet locations depend on the bytes of the sample table alone. */
  lemma {:induction false} PacketsLocal(a: Bytes, b: Bytes, stbl: Atom)
    requires Agree(a, b, stbl.body, stbl.end)
    ensures PacketsOf(a, stbl) == PacketsOf(b, stbl)
  {
    hide Child, SizesOf, OffsetsOf, RunsOf, PerChunk, Locate;
    ChildLocal(a, b, stbl.body, stbl.end, STSZ);
    ChildLocal(a, b, stbl.body, stbl.end, STSC);
    ChildLocal(a, b, stbl.body, stbl.end, STCO);
    ChildLocal(a, b, stbl.body, stbl.end, CO64);
    var stsz, stsc, stco := Child(a, stbl.body, stbl.end, STSZ), Child(a, stbl.body, stbl.end, STSC), OffsetAtom(a, stbl);
    if stsz.Some? && stsc.Some? && stco.Some? {
      SizesLocal(a, b, stsz.value);
      OffsetsLocal(a, b, stco.value, Child(a, stbl.body, stbl.end, STCO).None?);
      RunsLocal(a, b, stsc.value);
    }
  }
}

/** Repairing the terminators of every ALAC packet of a file
    (internal/media/alacfix.go). */
module AlacRepair {
  import opened Wrappers
  import opened AlacBits
  import opened AlacScan
  import opened Mp4Atoms
  import opened Mp4Tables

  const MOOV: Bytes := [0x6d, 0x6f, 0x6f, 0x76]
  const TRAK: Bytes := [0x74, 0x72, 0x61, 0x6b]
  const MDIA: Bytes := [0x6d, 0x64, 0x69, 0x61]
  const HDLR: Bytes := [0x68, 0x64, 0x6c, 0x72]
  const SOUN: Bytes := [0x73, 0x6f, 0x75, 0x6e]
  const MINF: Bytes := [0x6d, 0x69, 0x6e, 0x66]
  const STBL: Bytes := [0x73, 0x74, 0x62, 0x6c]
  const STSD: Bytes := [0x73, 0x74, 0x73, 0x64]
  const ALAC: Bytes := [0x61, 0x6c, 0x61, 0x63]
  const WAVE: Bytes := [0x77, 0x61, 0x76, 0x65]

  // ---- The tracks

  function CookieOf(data: Bytes, cfg: Atom): Option<Params>
    requires cfg.body <= cfg.end <= |data|
  {
    if cfg.end - cfg.body < 24 then None
    else
      var p := Params(BE32(data, cfg.body + 4), U8(data[cfg.body + 9]), U8(data[cfg.body + 10]),
                      U8(data[cfg.body + 11]), U8(data[cfg.body + 12]), U8(data[cfg.body + 13]));
      if p.maxSamples == 0 || p.sampleSize == 0 || p.channels == 0 then None else Some(p)
  }

  /** The configuration atom, directly in the sample entry or inside a wave atom. */
  function ConfigOf(data: Bytes, entry: Atom): (cfg: Option<Atom>)
    ensures cfg.Some? ==> entry.body <= cfg.value.body <= cfg.value.end <= entry.end <= |data|
  {
    var direct := Child(data, entry.body + 28, entry.end, ALAC);
    if direct.Some? then direct
    else
      var wave := Child(data, entry.body + 28, entry.end, WAVE);
      if wave.None? then None else Child(data, wave.value.body, wave.value.end, ALAC)
  }

  datatype Found = Skipped | Malformed | Track(params: Params, locs: seq<Loc>)

  function SampleTableOf(data: Bytes, trak: Atom): (stbl: Option<Atom>)
    ensures stbl.Some? ==> trak.body <= stbl.value.body <= stbl.value.end <= trak.end <= |data|
  {
    var mdia := Child(data, trak.body, trak.end, MDIA);
    if mdia.None? then None
    else
      var hdlr := Child(data, mdia.value.body, mdia.value.end, HDLR);
      if hdlr.None? || hdlr.value.end - hdlr.value.body < 12 || data[hdlr.value.body + 8..hdlr.value.body + 12] != SOUN then None
      else
        var minf := Child(data, mdia.value.body, mdia.value.end, MINF);
        if minf.None? then None else Child(data, minf.value.body, minf.value.end, STBL)
  }

  /** The first sample entry, when it is an ALAC one. */
  function EntryOf(data: Bytes, stbl: Atom): (entry: Option<Atom>)
    ensures entry.Some? ==> stbl.body <= entry.value.body <= entry.value.end <= stbl.end <= |data|
  {
    var stsd := Child(data, stbl.body, stbl.end, STSD);
    if stsd.None? || stsd.value.end - stsd.value.body < 16 || BE32(data, stsd.value.body + 4) == 0 then None
    else
      var start := stsd.value.body + 8;
      var size := BE32(data, start);
      if size < 8 || start + size > stsd.value.end || data[start + 4..start + 8] != ALAC then None
      else Some(Atom(start + 8, start + size))
  }

  function TrackOf(data: Bytes, trak: Atom): Found {
    var stbl := SampleTableOf(data, trak);
    if stbl.None? then Skipped
    else
      var entry := EntryOf(data, stbl.value);
      if entry.None? then Skipped
      else
        var cfg := ConfigOf(data, entry.value);
        var params := if cfg.None? then None else CookieOf(data, cfg.value);
        var locs := PacketsOf(data, stbl.value);
        if params.None? || locs.None? then Malformed else Track(params.value, locs.value)
  }

  /** The ALAC tracks among the first n; none when one of them is malformed. */
  function TracksOf(data: Bytes, traks: seq<Atom>, n: nat): Option<seq<Found>>
    requires n <= |traks|
  {
    if n == 0 then Some([])
    else
      var before := TracksOf(data, traks, n - 1);
      if before.None? then None
      else match TrackOf(data, traks[n - 1])
        case Skipped => before
        case Malformed => None
        case Track(params, locs) => Some(before.value + [Track(params, locs)])
  }

  function TracksUnder(data: Bytes, moov: Atom): Option<seq<Found>> {
    var traks := Children(data, moov.body, moov.end, TRAK);
    TracksOf(data, traks, |traks|)
  }

  function RepairTracks(data: Bytes): Option<seq<Found>> {
    var moov := Child(data, 0, |data|, MOOV);
    if moov.None? then None else TracksUnder(data, moov.value)
  }

  // ---- Repairing packets

  datatype Packet = Packet(offset: int, size: nat, params: Params) {
    /** It lies inside a file of n bytes; any other packet is passed over. */
    predicate Within(n: nat) {
      0 < size && 0 <= offset && offset + size <= n
    }
  }

  /** The bits of the file so far, and the number of packets patched. */
  datatype Progress = Progress(bits: seq<bool>, patched: nat)

  function Slice(bits: seq<bool>, pk: Packet): (r: seq<bool>)
    requires pk.Within(|bits| / 8)
    ensures |r| == 8 * pk.size
  {
    bits[8 * pk.offset..8 * (pk.offset + pk.size)]
  }

  function FixOne(st: Progress, pk: Packet): (r: Progress)
    ensures |r.bits| == |st.bits|
  {
    if pk.Within(|st.bits| / 8) && NeedsPatch(Slice(st.bits, pk), pk.params) then
      Progress(Terminated(st.bits, 8 * pk.offset, 8 * pk.size, BodyEnd(Slice(st.bits, pk), pk.params)), st.patched + 1)
    else st
  }

  /** The packets in order. */
  function FixAll(st: Progress, packets: seq<Packet>): (r: Progress)
    ensures |r.bits| == |st.bits|
  {
    if packets == [] then st else FixOne(FixAll(st, packets[..|packets| - 1]), packets[|packets| - 1])
  }

  predicate Apart(a: Packet, b: Packet, n: nat) {
    a.Within(n) && b.Within(n) ==> a.offset + a.size <= b.offset || b.offset + b.size <= a.offset
  }

  predicate Disjoint(packets: seq<Packet>, n: nat) {
    forall i, k :: 0 <= i < k < |packets| ==> Apart(packets[i], packets[k], n)
  }

  /** Inside a packet, patching it repairs its bits; elsewhere nothing changes. */
  lemma {:induction false} FixOneSlice(st: Progress, pk: Packet, other: Packet)
    requires pk.Within(|st.bits| / 8) && other.Within(|st.bits| / 8)
    requires other == pk || Apart(pk, other, |st.bits| / 8)
    ensures Slice(FixOne(st, pk).bits, other) == if other == pk then Repaired(Slice(st.bits, pk), pk.params) else Slice(st.bits, other)
  {
    hide BodyEnd;
  }

  /** After the first n packets each of them is repaired and no later one touched. */
  lemma {:induction false} FixAllSlice(st: Progress, packets: seq<Packet>, n: nat, k: nat)
    requires n <= |packets| && k < |packets| && Disjoint(packets, |st.bits| / 8) && packets[k].Within(|st.bits| / 8)
    ensures Slice(FixAll(st, packets[..n]).bits, packets[k])
         == if k < n then Repaired(Slice(st.bits, packets[k]), packets[k].params) else Slice(st.bits, packets[k])
  {
    hide NeedsPatch, Repaired;
    if n > 0 {
      assert packets[..n][..n - 1] == packets[..n - 1];
      FixAllSlice(st, packets, n - 1, k);
      var before := FixAll(st, packets[..n - 1]);
      if packets[n - 1].Within(|st.bits| / 8) {
        assert k != n - 1 ==> Apart(packets[n - 1], packets[k], |st.bits| / 8);
        FixOneSlice(before, packets[n - 1], packets[k]);
      }
    }
  }

  /** A second pass over disjoint packets patches none and changes nothing. */
  lemma {:induction false} SecondPass(st: Progress, packets: seq<Packet>, n: nat)
    requires n <= |packets| && Disjoint(packets, |st.bits| / 8)
    ensures FixAll(Progress(FixAll(st, packets).bits, 0), packets[..n]) == Progress(FixAll(st, packets).bits, 0)
  {
    hide NeedsPatch, Repaired;
    if n > 0 {
      assert packets[..n][..n - 1] == packets[..n - 1];
      SecondPass(st, packets, n - 1);
      var pk := packets[n - 1];
      if pk.Within(|st.bits| / 8) {
        assert packets[..|packets|] == packets;
        FixAllSlice(st, packets, |packets|, n - 1);
        RepairedOnce(Slice(st.bits, pk), pk.params);
      }
    }
  }

  /** Only bits of packets change, and of a packet only those behind its body. */
  lemma {:induction false} FixAllKeeps(st: Progress, packets: seq<Packet>, q: nat)
    requires q < |st.bits|
    requires forall i :: 0 <= i < |packets| && packets[i].Within(|st.bits| / 8) ==>
      q < 8 * packets[i].offset || 8 * (packets[i].offset + packets[i].size) <= q
    ensures FixAll(st, packets).bits[q] == st.bits[q]
  {
    hide BodyEnd;
    if packets != [] {
      FixAllKeeps(st, packets[..|packets| - 1], q);
    }
  }

  lemma {:induction false} BodiesKept(st: Progress, packets: seq<Packet>, k: nat, q: nat)
    requires k < |packets| && Disjoint(packets, |st.bits| / 8) && packets[k].Within(|st.bits| / 8)
    requires q < BodyEnd(Slice(st.bits, packets[k]), packets[k].params)
    ensures FixAll(st, packets).bits[8 * packets[k].offset + q] == st.bits[8 * packets[k].offset + q]
  {
    hide NeedsPatch, Repaired, BodyEnd;
    var pk := packets[k];
    assert packets[..|packets|] == packets;
    FixAllSlice(st, packets, |packets|, k);
    RepairedOnce(Slice(st.bits, pk), pk.params);
    BodyInside(Slice(st.bits, pk), pk.params);
    assert Slice(FixAll(st, packets).bits, pk)[q] == Slice(st.bits, pk)[q];
  }

  lemma BodyInside(bits: seq<bool>, p: Params)
    ensures BodyEnd(bits, p) <= |bits|
  {
  }

  /** The packet lies in the file and lacks its END. */
  predicate Lacks(bits: seq<bool>, pk: Packet) {
    pk.Within(|bits| / 8) && NeedsPatch(Slice(bits, pk), pk.params)
  }

  /** Bit q of the repaired file, told from the song: behind the body of a packet that
      lacks its END there are END and zeros. */
  function BitAfter(bits: seq<bool>, packets: seq<Packet>, q: nat): bool
    requires q < |bits|
  {
    if packets == [] then bits[q]
    else
      var pk := packets[|packets| - 1];
      if Lacks(bits, pk) && 8 * pk.offset <= q < 8 * (pk.offset + pk.size) then
        var end := 8 * pk.offset + BodyEnd(Slice(bits, pk), pk.params);
        if q < end then bits[q] else q < end + 3
      else BitAfter(bits, packets[..|packets| - 1], q)
  }

  function Lacking(bits: seq<bool>, packets: seq<Packet>): nat {
    if packets == [] then 0
    else Lacking(bits, packets[..|packets| - 1]) + (if Lacks(bits, packets[|packets| - 1]) then 1 else 0)
  }

  lemma DisjointPrefix(packets: seq<Packet>, n: nat)
    requires packets != [] && Disjoint(packets, n)
    ensures Disjoint(packets[..|packets| - 1], n)
  {
  }

  /** Repairing disjoint packets one after the other is repairing each as it was. */
  lemma {:induction false} FixAllBits(st: Progress, packets: seq<Packet>, q: nat)
    requires q < |st.bits| && Disjoint(packets, |st.bits| / 8)
    ensures FixAll(st, packets).bits[q] == BitAfter(st.bits, packets, q)
    ensures FixAll(st, packets).patched == st.patched + Lacking(st.bits, packets)
  {
    hide NeedsPatch, BodyEnd, Disjoint;
    if packets != [] {
      var n := |packets| - 1;
      var pk, before := packets[n], FixAll(st, packets[..n]);
      DisjointPrefix(packets, |st.bits| / 8);
      FixAllBits(st, packets[..n], q);
      if pk.Within(|st.bits| / 8) {
        FixAllSlice(st, packets, n, n);
        FixOneBit(before, pk, q);
      }
    }
  }

  lemma FixAllCount(st: Progress, packets: seq<Packet>)
    requires Disjoint(packets, |st.bits| / 8)
    ensures FixAll(st, packets).patched == st.patched + Lacking(st.bits, packets)
  {
    if |st.bits| > 0 {
      FixAllBits(st, packets, 0);
    }
  }

  lemma {:induction false} FixOneBit(st: Progress, pk: Packet, q: nat)
    requires q < |st.bits| && pk.Within(|st.bits| / 8)
    ensures FixOne(st, pk).bits[q] ==
      if Lacks(st.bits, pk) && 8 * pk.offset <= q < 8 * (pk.offset + pk.size) then
        var end := 8 * pk.offset + BodyEnd(Slice(st.bits, pk), pk.params);
        if q < end then st.bits[q] else q < end + 3
      else st.bits[q]
  {
    hide BodyEnd;
  }

  /** A repair leaves a file as it is exactly when no packet lacks its END. */
  lemma {:induction false} FixNone(st: Progress, packets: seq<Packet>)
    ensures FixAll(st, packets).patched >= st.patched
    ensures FixAll(st, packets).patched == st.patched <==> forall i :: 0 <= i < |packets| ==> !Lacks(st.bits, packets[i])
    ensures FixAll(st, packets).patched == st.patched ==> FixAll(st, packets) == st
  {
    hide NeedsPatch, BodyEnd;
    if packets != [] {
      var n := |packets| - 1;
      FixNone(st, packets[..n]);
      assert forall i :: 0 <= i < n ==> packets[..n][i] == packets[i];
    }
  }

  // ---- The file

  function PacketsIn(track: Found): (packets: seq<Packet>)
    requires track.Track?
    ensures |packets| == |track.locs|
  {
    seq(|track.locs|, i requires 0 <= i < |track.locs| => Packet(track.locs[i].offset, track.locs[i].size, track.params))
  }

  function Packets(tracks: seq<Found>): seq<Packet>
    requires forall t :: t in tracks ==> t.Track?
  {
    if tracks == [] then [] else Packets(tracks[..|tracks| - 1]) + PacketsIn(tracks[|tracks| - 1])
  }

  lemma {:induction false} OnlyTracks(data: Bytes, traks: seq<Atom>, n: nat)
    requires n <= |traks|
    ensures TracksOf(data, traks, n).Some? ==> forall t :: t in TracksOf(data, traks, n).value ==> t.Track?
  {
    hide TrackOf;
    if n > 0 {
      OnlyTracks(data, traks, n - 1);
    }
  }

  /** The packets a file's own tables name; none when the file is malformed. */
  function FilePackets(data: Bytes): Option<seq<Packet>> {
    var tracks := RepairTracks(data);
    if tracks.None? then None
    else
      AllTracks(data);
      Some(Packets(tracks.value))
  }

  /** out is song with the packets of song's tables repaired. */
  ghost predicate RepairOf(song: Bytes, out: Bytes, patched: nat) {
    FilePackets(song).Some? && FixAll(Progress(Bits(song), 0), FilePackets(song).value) == Progress(Bits(out), patched)
  }

  predicate Clear(packets: seq<Packet>, n: nat, lo: nat, hi: nat) {
    forall i :: 0 <= i < |packets| && packets[i].Within(n) ==>
      packets[i].offset + packets[i].size <= lo || hi <= packets[i].offset
  }

  predicate HeadersClear(data: Bytes, packets: seq<Packet>, pos: nat, end: nat, typ: Bytes)
    requires end <= |data|
    decreases end - pos
  {
    pos + 8 <= end ==>
      match HeaderAt(data, pos, end)
      case None => true
      case Some(h) =>
        && Clear(packets, |data|, pos, pos + h.length)
        && (data[pos + 4..pos + 8] == typ || HeadersClear(data, packets, pos + h.size, end, typ))
  }

  /** The packets lie clear of each other and of the moov atom. */
  ghost predicate Packed(song: Bytes) {
    FilePackets(song).Some? ==>
      var packets, moov := FilePackets(song).value, Child(song, 0, |song|, MOOV).value;
      Disjoint(packets, |song|) && Clear(packets, |song|, moov.body, moov.end)
  }

  /** And of the headers of the top-level atoms before it. */
  ghost predicate Separate(song: Bytes) {
    Packed(song) && (FilePackets(song).Some? ==> HeadersClear(song, FilePackets(song).value, 0, |song|, MOOV))
  }

  lemma {:induction false} BytesKept(song: Bytes, out: Bytes, patched: nat, lo: nat, hi: nat)
    requires RepairOf(song, out, patched) && Clear(FilePackets(song).value, |song|, lo, hi)
    ensures Agree(song, out, lo, hi)
  {
    hide FixAll, FilePackets;
    var packets := FilePackets(song).value;
    assert |Bits(out)| == |Bits(song)|;
    forall i | lo <= i < hi && i < |song|
      ensures song[i] == out[i]
    {
      forall k: nat | k < 8
        ensures Bit(song[i], k) == Bit(out[i], k)
      {
        FixAllKeeps(Progress(Bits(song), 0), packets, 8 * i + k);
        BitOf(song, 8 * i + k);
        BitOf(out, 8 * i + k);
        assert (8 * i + k) / 8 == i && (8 * i + k) % 8 == k;
      }
      SameBits(song[i], out[i]);
    }
  }

  lemma {:induction false} HeadersKept(song: Bytes, out: Bytes, patched: nat, pos: nat)
    requires RepairOf(song, out, patched) && HeadersClear(song, FilePackets(song).value, pos, |song|, MOOV)
    ensures SameHeadersTo(song, out, pos, |song|, MOOV)
    decreases |song| - pos
  {
    hide RepairOf, FilePackets, HeaderAt, Clear;
    if pos + 8 <= |song| {
      var h := HeaderAt(song, pos, |song|);
      if h.Some? {
        BytesKept(song, out, patched, pos, pos + h.value.length);
        if song[pos + 4..pos + 8] != MOOV {
          HeadersKept(song, out, patched, pos + h.value.size);
        }
      }
    }
  }

  lemma {:induction false} Narrow(a: Bytes, b: Bytes, lo: nat, hi: nat, atom: Atom)
    requires Agree(a, b, lo, hi) && lo <= atom.body && atom.end <= hi
    ensures Agree(a, b, atom.body, atom.end)
  {
  }

  lemma {:induction false} SampleTableLocal(a: Bytes, b: Bytes, trak: Atom)
    requires Agree(a, b, trak.body, trak.end)
    ensures SampleTableOf(a, trak) == SampleTableOf(b, trak)
  {
    hide ChildrenFrom;
    ChildLocal(a, b, trak.body, trak.end, MDIA);
    var mdia := Child(a, trak.body, trak.end, MDIA);
    if mdia.Some? {
      ChildLocal(a, b, mdia.value.body, mdia.value.end, HDLR);
      ChildLocal(a, b, mdia.value.body, mdia.value.end, MINF);
      var hdlr := Child(a, mdia.value.body, mdia.value.end, HDLR);
      if hdlr.Some? && hdlr.value.end - hdlr.value.body >= 12 {
        assert a[hdlr.value.body + 8..hdlr.value.body + 12] == b[hdlr.value.body + 8..hdlr.value.body + 12];
      }
      var minf := Child(a, mdia.value.body, mdia.value.end, MINF);
      if minf.Some? {
        ChildLocal(a, b, minf.value.body, minf.value.end, STBL);
      }
    }
  }

  lemma {:induction false} EntryLocal(a: Bytes, b: Bytes, stbl: Atom)
    requires Agree(a, b, stbl.body, stbl.end)
    ensures EntryOf(a, stbl) == EntryOf(b, stbl)
  {
    hide Children, U8, Word;
    ChildLocal(a, b, stbl.body, stbl.end, STSD);
    var stsd := Child(a, stbl.body, stbl.end, STSD);
    if stsd.Some? && stsd.value.end - stsd.value.body >= 16 {
      var start := stsd.value.body + 8;
      assert BE32(a, stsd.value.body + 4) == BE32(b, stsd.value.body + 4) && BE32(a, start) == BE32(b, start);
      assert a[start + 4..start + 8] == b[start + 4..start + 8];
    }
  }

  lemma {:induction false} ConfigLocal(a: Bytes, b: Bytes, entry: Atom)
    requires Agree(a, b, entry.body, entry.end)
    ensures ConfigOf(a, entry) == ConfigOf(b, entry)
    ensures ConfigOf(a, entry).Some? ==> CookieOf(a, ConfigOf(a, entry).value) == CookieOf(b, ConfigOf(a, entry).value)
  {
    hide Children, U8, Word;
    ChildLocal(a, b, entry.body + 28, entry.end, ALAC);
    ChildLocal(a, b, entry.body + 28, entry.end, WAVE);
    var wave := Child(a, entry.body + 28, entry.end, WAVE);
    if wave.Some? {
      ChildLocal(a, b, wave.value.body, wave.value.end, ALAC);
    }
    var cfg := ConfigOf(a, entry);
    if cfg.Some? && cfg.value.end - cfg.value.body >= 24 {
      assert BE32(a, cfg.value.body + 4) == BE32(b, cfg.value.body + 4);
    }
  }

  lemma {:induction false} TrackLocal(a: Bytes, b: Bytes, trak: Atom)
    requires Agree(a, b, trak.body, trak.end)
    ensures TrackOf(a, trak) == TrackOf(b, trak)
  {
    hide SampleTableOf, EntryOf, ConfigOf, CookieOf, PacketsOf;
    SampleTableLocal(a, b, trak);
    var stbl := SampleTableOf(a, trak);
    if stbl.Some? {
      EntryLocal(a, b, stbl.value);
      PacketsLocal(a, b, stbl.value);
      var entry := EntryOf(a, stbl.value);
      if entry.Some? {
        ConfigLocal(a, b, entry.value);
      }
    }
  }

  lemma {:induction false} TracksLocal(a: Bytes, b: Bytes, lo: nat, hi: nat, traks: seq<Atom>, n: nat)
    requires Agree(a, b, lo, hi) && n <= |traks|
    requires forall i :: 0 <= i < |traks| ==> lo <= traks[i].body <= traks[i].end <= hi
    ensures TracksOf(a, traks, n) == TracksOf(b, traks, n)
  {
    hide TrackOf, Agree;
    if n > 0 {
      TracksLocal(a, b, lo, hi, traks, n - 1);
      Narrow(a, b, lo, hi, traks[n - 1]);
      TrackLocal(a, b, traks[n - 1]);
    }
  }

  /** The tracks under an atom depend on that atom alone. */
  lemma {:induction false} UnderLocal(song: Bytes, out: Bytes, moov: Atom)
    requires moov.body <= moov.end <= |song| && Agree(song, out, moov.body, moov.end)
    ensures TracksUnder(out, moov) == TracksUnder(song, moov)
  {
    hide ChildrenFrom, TracksOf, Agree;
    ChildLocal(song, out, moov.body, moov.end, TRAK);
    var traks := Children(song, moov.body, moov.end, TRAK);
    forall i | 0 <= i < |traks|
      ensures moov.body <= traks[i].body <= traks[i].end <= moov.end
    {
      assert traks[i] in traks;
    }
    TracksLocal(song, out, moov.body, moov.end, traks, |traks|);
  }

  /** Packets clear of each other and of moov: if moov is then found where it was, a
      second repair patches no packet and returns the same bytes; if no moov is found,
      it fails. */
  lemma {:induction false} SecondRepair(song: Bytes, out: Bytes, patched: nat)
    requires RepairOf(song, out, patched) && Packed(song)
    ensures Child(out, 0, |out|, MOOV) == Child(song, 0, |song|, MOOV) ==> RepairOf(out, out, 0)
    ensures Child(out, 0, |out|, MOOV).None? ==> FilePackets(out).None?
  {
    var packets := FilePackets(song).value;
    assert |Bits(out)| == |Bits(song)|;
    var moov := Child(song, 0, |song|, MOOV).value;
    BytesKept(song, out, patched, moov.body, moov.end);
    if Child(out, 0, |out|, MOOV) == Child(song, 0, |song|, MOOV) {
      UnderLocal(song, out, moov);
      assert packets[..|packets|] == packets;
      SecondPass(Progress(Bits(song), 0), packets, |packets|);
    }
  }

  lemma SameLength(song: Bytes, out: Bytes, patched: nat)
    requires RepairOf(song, out, patched)
    ensures |out| == |song|
  {
    hide FilePackets;
    assert |Bits(out)| == |Bits(song)|;
  }

  lemma MoovStays(song: Bytes, out: Bytes)
    requires |song| == |out| && Child(song, 0, |song|, MOOV).Some? && SameHeadersTo(song, out, 0, |song|, MOOV)
    ensures Child(out, 0, |out|, MOOV) == Child(song, 0, |song|, MOOV)
  {
    hide ChildrenFrom, SameHeadersTo;
    FirstLocal(song, out, 0, |song|, MOOV);
  }

  /** Repairing a repaired file patches no packet and returns the same bytes. */
  lemma {:induction false} Idempotent(song: Bytes, out: Bytes, patched: nat)
    requires RepairOf(song, out, patched) && Separate(song)
    ensures RepairOf(out, out, 0)
  {
    hide Child, TracksOf, FixAll, Disjoint, Clear, HeadersClear, SameHeadersTo, Packets;
    SameLength(song, out, patched);
    HeadersKept(song, out, patched, 0);
    MoovStays(song, out);
    SecondRepair(song, out, patched);
  }

  /** There is one answer, so that is the answer of any second repair. */
  lemma {:induction false} OneAnswer(song: Bytes, a: Bytes, m: nat, b: Bytes, n: nat)
    requires RepairOf(song, a, m) && RepairOf(song, b, n)
    ensures a == b && m == n
  {
    hide FilePackets, FixAll;
    BitsDecide(a, b);
  }

  /** The repaired file, told from the song and its packets. */
  function After(song: Bytes, packets: seq<Packet>): (out: Bytes)
    ensures |out| == |song|
  {
    seq(|song|, i requires 0 <= i < |song| =>
      ByteOf(seq(8, k requires 0 <= k < 8 => BitAfter(Bits(song), packets, 8 * i + k))))
  }

  lemma AfterBit(song: Bytes, packets: seq<Packet>, i: nat, k: nat)
    requires i < |song| && k < 8
    ensures Bit(After(song, packets)[i], k) == BitAfter(Bits(song), packets, 8 * i + k)
  {
    hide BitAfter, Bit;
    ByteOfBits(seq(8, k requires 0 <= k < 8 => BitAfter(Bits(song), packets, 8 * i + k)), k);
  }

  lemma {:induction false} AfterBits(song: Bytes, packets: seq<Packet>)
    requires Disjoint(packets, |song|)
    ensures FixAll(Progress(Bits(song), 0), packets) == Progress(Bits(After(song, packets)), Lacking(Bits(song), packets))
  {
    hide FixAll, BitAfter, Disjoint, After, Bit, Lacking;
    var now := After(song, packets);
    var fixed := FixAll(Progress(Bits(song), 0), packets);
    forall q | 0 <= q < |fixed.bits|
      ensures fixed.bits[q] == Bits(now)[q]
    {
      FixAllBits(Progress(Bits(song), 0), packets, q);
      AfterBit(song, packets, q / 8, q % 8);
    }
    assert fixed.bits == Bits(now);
    FixAllCount(Progress(Bits(song), 0), packets);
  }

  /** Of packets clear of each other: which bytes the repair leaves, and its count. */
  lemma {:induction false} RepairIsAfter(song: Bytes, out: Bytes, patched: nat)
    requires FilePackets(song).Some? && Disjoint(FilePackets(song).value, |song|)
    ensures RepairOf(song, out, patched) <==>
      out == After(song, FilePackets(song).value) && patched == Lacking(Bits(song), FilePackets(song).value)
  {
    hide FilePackets, FixAll, Disjoint, After, Lacking;
    var packets := FilePackets(song).value;
    AfterBits(song, packets);
    if RepairOf(song, out, patched) {
      BitsDecide(out, After(song, packets));
    }
  }

  /** A file whose own packets have their END. */
  ghost predicate Ended(data: Bytes) {
    FilePackets(data).Some? && forall i :: 0 <= i < |FilePackets(data).value| ==> !Lacks(Bits(data), FilePackets(data).value[i])
  }

  /** The repaired headers still lead to moov, or to another atom that reads as moov
      and names no packet without END. */
  ghost predicate Steady(song: Bytes)
    requires FilePackets(song).Some?
  {
    var now := After(song, FilePackets(song).value);
    var there := Child(now, 0, |now|, MOOV);
    there.Some? && (there == Child(song, 0, |song|, MOOV) || Ended(now))
  }

  lemma {:induction false} EndedStays(data: Bytes)
    ensures RepairOf(data, data, 0) <==> Ended(data)
  {
    hide FilePackets, FixAll, Lacks;
    if FilePackets(data).Some? {
      FixNone(Progress(Bits(data), 0), FilePackets(data).value);
    }
  }

  /** Packets clear of each other and of moov: when a second repair is the identity. */
  lemma {:induction false} SecondRepairExact(song: Bytes, out: Bytes, patched: nat)
    requires RepairOf(song, out, patched) && Packed(song)
    ensures RepairOf(out, out, 0) <==> Steady(song)
  {
    hide FilePackets, FixAll, After, Ended, Child, Disjoint, Clear;
    RepairIsAfter(song, out, patched);
    SecondRepair(song, out, patched);
    EndedStays(out);
  }

  /** The packets named under an atom. */
  function PacketsUnder(data: Bytes, moov: Atom): Option<seq<Packet>> {
    var tracks := TracksUnder(data, moov);
    if tracks.None? then None
    else
      UnderTracks(data, moov);
      Some(Packets(tracks.value))
  }

  lemma UnderTracks(data: Bytes, moov: Atom)
    ensures TracksUnder(data, moov).Some? ==> forall t :: t in TracksUnder(data, moov).value ==> t.Track?
  {
    var traks := Children(data, moov.body, moov.end, TRAK);
    OnlyTracks(data, traks, |traks|);
  }

  /** The packet is one of packets, or apart from all of them. */
  predicate OneOrApart(packets: seq<Packet>, n: nat, pk: Packet) {
    pk in packets || forall k :: 0 <= k < |packets| ==> Apart(packets[k], pk, n)
  }

  lemma {:induction false} LacksAfter(song: Bytes, out: Bytes, patched: nat, pk: Packet)
    requires RepairOf(song, out, patched) && Disjoint(FilePackets(song).value, |song|)
    requires OneOrApart(FilePackets(song).value, |song|, pk)
    ensures Lacks(Bits(out), pk) <==> pk !in FilePackets(song).value && Lacks(Bits(song), pk)
  {
    hide FilePackets, FixAll, NeedsPatch, Repaired, Disjoint;
    var packets := FilePackets(song).value;
    SameLength(song, out, patched);
    if pk.Within(|song|) {
      if pk in packets {
        var k :| 0 <= k < |packets| && packets[k] == pk;
        assert packets[..|packets|] == packets;
        FixAllSlice(Progress(Bits(song), 0), packets, |packets|, k);
        RepairedOnce(Slice(Bits(song), pk), pk.params);
      } else {
        BytesKept(song, out, patched, pk.offset, pk.offset + pk.size);
        assert song[pk.offset..pk.offset + pk.size] == out[pk.offset..pk.offset + pk.size];
        BitsOfSlice(song, pk.offset, pk.offset + pk.size);
        BitsOfSlice(out, pk.offset, pk.offset + pk.size);
      }
    }
  }

  /** Whichever atom the repaired headers lead to: when packets are clear of it too and
      those it names are the repaired ones or apart from them, a second repair is the
      identity exactly when each other packet it names had its END in the song. */
  lemma {:induction false} FoundDecides(song: Bytes, out: Bytes, patched: nat, found: Atom)
    requires RepairOf(song, out, patched) && Disjoint(FilePackets(song).value, |song|)
    requires Child(After(song, FilePackets(song).value), 0, |song|, MOOV) == Some(found)
    requires Clear(FilePackets(song).value, |song|, found.body, found.end)
    requires PacketsUnder(song, found).Some? ==>
      forall pk :: pk in PacketsUnder(song, found).value ==> OneOrApart(FilePackets(song).value, |song|, pk)
    ensures RepairOf(out, out, 0) <==>
      && PacketsUnder(song, found).Some?
      && forall pk :: pk in PacketsUnder(song, found).value ==> pk in FilePackets(song).value || !Lacks(Bits(song), pk)
  {
    hide FixAll, After, Child, Disjoint, Clear, Lacks, Packets, OneOrApart, TracksUnder, Bits;
    RepairIsAfter(song, out, patched);
    SameLength(song, out, patched);
    BytesKept(song, out, patched, found.body, found.end);
    UnderLocal(song, out, found);
    EndedStays(out);
    if PacketsUnder(song, found).Some? {
      var named := PacketsUnder(song, found).value;
      assert FilePackets(out) == Some(named);
      forall i | 0 <= i < |named|
        ensures Lacks(Bits(out), named[i]) <==> named[i] !in FilePackets(song).value && Lacks(Bits(song), named[i])
      {
        assert named[i] in named;
        LacksAfter(song, out, patched, named[i]);
      }
    }
  }

  /** Packets clear of each other and of the whole of moov, header included, in a file
      that spells moov nowhere else: a second repair is the identity exactly when the
      repaired headers lead to moov as the song's did. */
  lemma {:induction false} WalkDecides(song: Bytes, out: Bytes, patched: nat, at: nat)
    requires RepairOf(song, out, patched) && Packed(song) && FirstAt(song, 0, |song|, MOOV) == Some(at)
    requires Clear(FilePackets(song).value, |song|, at, Child(song, 0, |song|, MOOV).value.end)
    requires forall i: nat :: Spells(After(song, FilePackets(song).value), i, MOOV) ==> i == at
    ensures RepairOf(out, out, 0) <==> FirstAt(After(song, FilePackets(song).value), 0, |song|, MOOV) == Some(at)
  {
    hide FilePackets, FixAll, After, Ended, Child, FirstAt, HeaderAt, Disjoint, Clear;
    RepairIsAfter(song, out, patched);
    SecondRepairExact(song, out, patched);
    FirstIsChild(song, 0, |song|, MOOV);
    FirstIsChild(out, 0, |out|, MOOV);
    var h := HeaderAt(song, at, |song|).value;
    BytesKept(song, out, patched, at, at + h.size);
    if FirstAt(out, 0, |out|, MOOV).Some? {
      assert Spells(out, FirstAt(out, 0, |out|, MOOV).value, MOOV);
      Narrow(song, out, at, at + h.size, Atom(at, at + h.length));
      HeaderLocal(song, out, at, |song|);
    }
  }

  // ---- The methods

  method FindSampleTable(data: Bytes, trak: Atom) returns (stbl: Option<Atom>)
    ensures stbl == SampleTableOf(data, trak)
  {
    hide Child;
    var mdia := FindChild(data, trak.body, trak.end, MDIA);
    if mdia.None? {
      return None;
    }
    var hdlr := FindChild(data, mdia.value.body, mdia.value.end, HDLR);
    if hdlr.None? || hdlr.value.end - hdlr.value.body < 12 || data[hdlr.value.body + 8..hdlr.value.body + 12] != SOUN {
      return None;
    }
    var minf := FindChild(data, mdia.value.body, mdia.value.end, MINF);
    if minf.None? {
      return None;
    }
    stbl := FindChild(data, minf.value.body, minf.value.end, STBL);
  }

  method FindEntry(data: Bytes, stbl: Atom) returns (entry: Option<Atom>)
    ensures entry == EntryOf(data, stbl)
  {
    hide Child, BE32, U8;
    var stsd := FindChild(data, stbl.body, stbl.end, STSD);
    if stsd.None? || stsd.value.end - stsd.value.body < 16 {
      return None;
    }
    if BE32(data, stsd.value.body + 4) == 0 {
      return None;
    }
    var start := stsd.value.body + 8;
    var size := BE32(data, start);
    if size < 8 || start + size > stsd.value.end || data[start + 4..start + 8] != ALAC {
      return None;
    }
    return Some(Atom(start + 8, start + size));
  }

  method FindTrack(data: Bytes, trak: Atom) returns (found: Found)
    ensures found == TrackOf(data, trak)
  {
    hide SampleTableOf, EntryOf, ConfigOf, CookieOf, PacketsOf;
    var stbl := FindSampleTable(data, trak);
    if stbl.None? {
      return Skipped;
    }
    var entry := FindEntry(data, stbl.value);
    if entry.None? {
      return Skipped;
    }
    var params := ExtractParams(data, entry.value);
    if params.None? {
      return Malformed;
    }
    var locs := ReadPacketLocations(data, stbl.value);
    return if locs.None? then Malformed else Track(params.value, locs.value);
  }

  method ExtractParams(data: Bytes, entry: Atom) returns (params: Option<Params>)
    ensures params == var cfg := ConfigOf(data, entry); if cfg.None? then None else CookieOf(data, cfg.value)
  {
    hide Children;
    var cfg := FindChild(data, entry.body + 28, entry.end, ALAC);
    if cfg.None? {
      var wave := FindChild(data, entry.body + 28, entry.end, WAVE);
      if wave.None? {
        return None;
      }
      cfg := FindChild(data, wave.value.body, wave.value.end, ALAC);
      if cfg.None? {
        return None;
      }
    }
    return CookieOf(data, cfg.value);
  }

  /** findALACRepairTracks. */
  method FindRepairTracks(data: Bytes) returns (tracks: Option<seq<Found>>)
    ensures tracks == RepairTracks(data)
  {
    hide TrackOf, Child, TracksOf;
    var moov := FindChild(data, 0, |data|, MOOV);
    if moov.None? {
      return None;
    }
    var traks := FindChildren(data, moov.value.body, moov.value.end, TRAK);
    var found: seq<Found> := [];
    var i := 0;
    NoTracksYet(data, traks);
    while i < |traks|
      invariant 0 <= i <= |traks|
      invariant TracksOf(data, traks, i) == Some(found)
    {
      var track := FindTrack(data, traks[i]);
      OneTrack(data, traks, i);
      i := i + 1;
      match track
      case Skipped =>
      case Malformed =>
        NoTracks(data, traks, i, |traks|);
        return None;
      case Track(params, locs) => found := found + [Track(params, locs)];
    }
    return Some(found);
  }

  lemma NoTracksYet(data: Bytes, traks: seq<Atom>)
    ensures TracksOf(data, traks, 0) == Some([])
  {
  }

  lemma {:induction false} OneTrack(data: Bytes, traks: seq<Atom>, i: nat)
    requires i < |traks| && TracksOf(data, traks, i).Some?
    ensures TracksOf(data, traks, i + 1) ==
      match TrackOf(data, traks[i])
      case Skipped => TracksOf(data, traks, i)
      case Malformed => None
      case Track(params, locs) => Some(TracksOf(data, traks, i).value + [Track(params, locs)])
  {
    hide TrackOf;
  }

  lemma {:induction false} NoTracks(data: Bytes, traks: seq<Atom>, i: nat, n: nat)
    requires i <= n <= |traks| && TracksOf(data, traks, i).None?
    ensures TracksOf(data, traks, n).None?
    decreases n
  {
    hide TrackOf;
    if i < n {
      NoTracks(data, traks, i, n - 1);
    }
  }

  /** The loop body of repairALACTerminators: one packet, patched in place. */
  method FixPacket(repaired: array<bv8>, pk: Packet) returns (patched: bool)
    modifies repaired
    ensures FixOne(Progress(Bits(old(repaired[..])), 0), pk) == Progress(Bits(repaired[..]), if patched then 1 else 0)
  {
    hide Bits, BodyEnd, Terminated;
    if !pk.Within(repaired.Length) {
      return false;
    }
    var packet := repaired[pk.offset..pk.offset + pk.size];
    BitsOfSlice(repaired[..], pk.offset, pk.offset + pk.size);
    assert repaired[..][pk.offset..pk.offset + pk.size] == packet;
    var body := FindBodyEnd(packet, pk.params);
    if body < 0 || body == pk.size * 8 {
      return false;
    }
    var reader := new BitReader(packet);
    var ok := reader.Skip(body);
    if !ok {
      return false;
    }
    if reader.Left() >= 3 {
      var tag := reader.Show(3);
      EndTag(Bits(packet), body);
      if tag == Some(7) {
        return false;
      }
    }
    patched := PatchTerminator(repaired, pk.offset, pk.size, body);
  }

  lemma {:induction false} EndTag(bits: seq<bool>, at: nat)
    requires at + 3 <= |bits|
    ensures ReadAt(bits, at, 3) == Got(7, at + 3) <==> bits[at..at + 3] == [true, true, true]
    ensures ReadAt(bits, at, 3).Got?
  {
    assert bits[at..at + 3] == [bits[at]] + [bits[at + 1]] + [bits[at + 2]];
    ValueAppend([], bits[at]);
    assert [] + [bits[at]] == [bits[at]];
    ValueAppend([bits[at]], bits[at + 1]);
    ValueAppend([bits[at]] + [bits[at + 1]], bits[at + 2]);
  }

  lemma {:induction false} Count(st: Progress, pk: Packet)
    ensures FixOne(st, pk).bits == FixOne(Progress(st.bits, 0), pk).bits
    ensures FixOne(st, pk).patched == st.patched + FixOne(Progress(st.bits, 0), pk).patched
  {
  }

  /** repairALACTerminators. The song itself is not changed. */
  method RepairTerminators(song: Bytes) returns (r: Option<(Bytes, nat)>)
    ensures r.Some? <==> FilePackets(song).Some?
    ensures r.Some? ==> RepairOf(song, r.value.0, r.value.1)
  {
    hide RepairTracks, Bits, FixOne, PacketsIn;
    var tracks := FindRepairTracks(song);
    if tracks.None? {
      return None;
    }
    var repaired := new bv8[|song|](i requires 0 <= i < |song| => song[i]);
    assert repaired[..] == song;
    AllTracks(song);
    var patched, t := 0, 0;
    ghost var done: seq<Packet> := [];
    while t < |tracks.value|
      invariant 0 <= t <= |tracks.value|
      invariant forall k :: k in tracks.value ==> k.Track?
      invariant done == Packets(tracks.value[..t])
      invariant FixAll(Progress(Bits(song), 0), done) == Progress(Bits(repaired[..]), patched)
    {
      var track := tracks.value[t];
      assert tracks.value[..t + 1][..t] == tracks.value[..t];
      ghost var before, here := done, PacketsIn(track);
      TrackPackets(track);
      var i := 0;
      while i < |track.locs|
        invariant 0 <= i <= |track.locs|
        invariant done == before + here[..i]
        invariant FixAll(Progress(Bits(song), 0), done) == Progress(Bits(repaired[..]), patched)
      {
        var pk := Packet(track.locs[i].offset, track.locs[i].size, track.params);
        Count(Progress(Bits(repaired[..]), patched), pk);
        var fixed := FixPacket(repaired, pk);
        if fixed {
          patched := patched + 1;
        }
        assert (done + [pk])[..|done|] == done;
        assert here[..i + 1] == here[..i] + [pk];
        done := done + [pk];
        i := i + 1;
      }
      assert here[..|here|] == here;
      t := t + 1;
    }
    assert tracks.value[..t] == tracks.value;
    return Some((repaired[..], patched));
  }

  lemma {:induction false} AllTracks(data: Bytes)
    ensures RepairTracks(data).Some? ==> forall t :: t in RepairTracks(data).value ==> t.Track?
  {
    hide TracksOf;
    var moov := Child(data, 0, |data|, MOOV);
    if moov.Some? {
      var traks := Children(data, moov.value.body, moov.value.end, TRAK);
      OnlyTracks(data, traks, |traks|);
    }
  }

  lemma TrackPackets(track: Found)
    requires track.Track?
    ensures forall i :: 0 <= i < |track.locs| ==>
      PacketsIn(track)[i] == Packet(track.locs[i].offset, track.locs[i].size, track.params)
  {
  }
}

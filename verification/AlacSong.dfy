/** ALAC files as they are written - atoms as in section 4.2 of ISO/IEC 14496-12, the
    tables of its sections 8.7.3 to 8.7.5, and the cookie of an ALAC sample entry - and
    what internal/media/alacfix.go reads of them. */
module AlacSong {
  import opened Wrappers
  import opened Layout
  import opened AlacBits
  import opened AlacScan
  import opened Mp4Atoms
  import opened Mp4Tables
  import opened AlacRepair

  // ---- Numbers

  function EightBits(n: nat): (bits: seq<bool>)
    requires n < 256
    ensures |bits| == 8
  {
    var a := n / 2;
    var b := a / 2;
    var c := b / 2;
    var d := c / 2;
    var e := d / 2;
    var f := e / 2;
    [f / 2 == 1, f % 2 == 1, e % 2 == 1, d % 2 == 1, c % 2 == 1, b % 2 == 1, a % 2 == 1, n % 2 == 1]
  }

  function Uint8(n: nat): bv8
    requires n < 256
  {
    ByteOf(EightBits(n))
  }

  lemma {:induction false} Sum8(n: nat)
    requires n < 256
    ensures var b := EightBits(n);
      n == (if b[0] then 128 else 0) + (if b[1] then 64 else 0) + (if b[2] then 32 else 0) + (if b[3] then 16 else 0)
         + (if b[4] then 8 else 0) + (if b[5] then 4 else 0) + (if b[6] then 2 else 0) + (if b[7] then 1 else 0)
  {
  }

  lemma Uint8Read(n: nat)
    requires n < 256
    ensures U8(Uint8(n)) == n
  {
    hide ByteOf, Bit, EightBits;
    var bits := EightBits(n);
    ByteOfBits(bits, 0);
    ByteOfBits(bits, 1);
    ByteOfBits(bits, 2);
    ByteOfBits(bits, 3);
    ByteOfBits(bits, 4);
    ByteOfBits(bits, 5);
    ByteOfBits(bits, 6);
    ByteOfBits(bits, 7);
    Sum8(n);
  }

  function Uint32(n: nat): (b: Bytes)
    requires n < U32
    ensures |b| == 4
  {
    var a := n / 256;
    var b := a / 256;
    [Uint8(b / 256), Uint8(b % 256), Uint8(a % 256), Uint8(n % 256)]
  }

  predicate Uint32Fits(ns: seq<nat>) { forall i :: 0 <= i < |ns| ==> ns[i] < U32 }

  function Uint32s(ns: seq<nat>): (b: Bytes)
    requires Uint32Fits(ns)
    ensures |b| == 4 * |ns|
  {
    if ns == [] then [] else Uint32(ns[0]) + Uint32s(ns[1..])
  }

  lemma {:induction false} Uint32Read(data: Bytes, pos: nat, n: nat)
    requires n < U32 && At(data, pos, Uint32(n))
    ensures BE32(data, pos) == n
  {
    hide Uint8, U8, At;
    AtByte(data, pos, Uint32(n), 0);
    AtByte(data, pos, Uint32(n), 1);
    AtByte(data, pos, Uint32(n), 2);
    AtByte(data, pos, Uint32(n), 3);
    var a := n / 256;
    var b := a / 256;
    Uint8Read(b / 256);
    Uint8Read(b % 256);
    Uint8Read(a % 256);
    Uint8Read(n % 256);
  }

  lemma {:induction false} Uint32sRead(data: Bytes, pos: nat, ns: seq<nat>, i: nat)
    requires Uint32Fits(ns) && At(data, pos, Uint32s(ns)) && i < |ns|
    ensures BE32(data, pos + 4 * i) == ns[i]
    decreases i
  {
    hide Uint32, BE32;
    AtSplit(data, pos, Uint32(ns[0]), Uint32s(ns[1..]));
    if i == 0 {
      Uint32Read(data, pos, ns[0]);
    } else {
      Uint32sRead(data, pos + 4, ns[1..], i - 1);
    }
  }

  // ---- Atoms

  datatype Box = Box(typ: Bytes, body: Bytes) {
    predicate Fits() { |typ| == 4 && 8 + |body| < U32 }

    function Text(): (b: Bytes)
      requires Fits()
      ensures |b| == 8 + |body|
    {
      Uint32(8 + |body|) + (typ + body)
    }
  }

  predicate Fit(boxes: seq<Box>) { forall i :: 0 <= i < |boxes| ==> boxes[i].Fits() }

  function Texts(boxes: seq<Box>): Bytes
    requires Fit(boxes)
  {
    if boxes == [] then [] else boxes[0].Text() + Texts(boxes[1..])
  }

  /** An atom whose size is written in 64 bits, and one that runs to the end. */
  lemma {:induction false} WideHeaderRead(data: Bytes, pos: nat, end: nat, typ: Bytes, size: nat)
    requires |typ| == 4 && 16 <= size < U32 * U32 / 2 && pos + size <= end <= |data|
    requires At(data, pos, Uint32(1) + (typ + (Uint32(size / U32) + Uint32(size % U32))))
    ensures HeaderAt(data, pos, end) == Some(Header(size, 16)) && data[pos + 4..pos + 8] == typ
  {
    hide Uint32, BE32;
    var rest := Uint32(size / U32) + Uint32(size % U32);
    AtSplit(data, pos, Uint32(1), typ + rest);
    AtSplit(data, pos + 4, typ, rest);
    AtSplit(data, pos + 8, Uint32(size / U32), Uint32(size % U32));
    Uint32Read(data, pos, 1);
    Uint32Read(data, pos + 8, size / U32);
    Uint32Read(data, pos + 12, size % U32);
  }

  lemma {:induction false} OpenHeaderRead(data: Bytes, pos: nat, end: nat, typ: Bytes)
    requires |typ| == 4 && pos + 8 <= end <= |data| && At(data, pos, Uint32(0) + typ)
    ensures HeaderAt(data, pos, end) == Some(Header(end - pos, 8)) && data[pos + 4..pos + 8] == typ
  {
    hide Uint32, BE32;
    AtSplit(data, pos, Uint32(0), typ);
    Uint32Read(data, pos, 0);
  }

  /** Where the atoms of a type are, when boxes are written from pos on. */
  function Located(boxes: seq<Box>, pos: nat, typ: Bytes): seq<Atom> {
    if boxes == [] then []
    else
      var end := pos + 8 + |boxes[0].body|;
      var rest := Located(boxes[1..], end, typ);
      if boxes[0].typ == typ then [Atom(pos + 8, end)] + rest else rest
  }

  lemma {:induction false} HeaderRead(data: Bytes, pos: nat, end: nat, box: Box)
    requires box.Fits() && At(data, pos, box.Text()) && pos + 8 + |box.body| <= end <= |data|
    ensures HeaderAt(data, pos, end) == Some(Header(8 + |box.body|, 8))
    ensures data[pos + 4..pos + 8] == box.typ && At(data, pos + 8, box.body)
  {
    hide Uint32, BE32;
    AtSplit(data, pos, Uint32(8 + |box.body|), box.typ + box.body);
    AtSplit(data, pos + 4, box.typ, box.body);
    Uint32Read(data, pos, 8 + |box.body|);
  }

  lemma {:induction false} FirstBox(data: Bytes, pos: nat, boxes: seq<Box>)
    requires boxes != [] && Fit(boxes) && At(data, pos, Texts(boxes))
    ensures Fit(boxes[1..])
    ensures var next := pos + 8 + |boxes[0].body|;
      && next + |Texts(boxes[1..])| == pos + |Texts(boxes)| <= |data|
      && At(data, next, Texts(boxes[1..])) && At(data, pos + 8, boxes[0].body)
      && HeaderAt(data, pos, pos + |Texts(boxes)|) == Some(Header(8 + |boxes[0].body|, 8))
      && data[pos + 4..pos + 8] == boxes[0].typ
  {
    hide HeaderAt, At, Uint32;
    AtSplit(data, pos, boxes[0].Text(), Texts(boxes[1..]));
    HeaderRead(data, pos, pos + |Texts(boxes)|, boxes[0]);
  }

  lemma ChildrenStep(data: Bytes, pos: nat, end: nat, typ: Bytes)
    requires pos + 8 <= end <= |data| && HeaderAt(data, pos, end).Some?
    ensures ChildrenFrom(data, pos, end, typ) ==
      var h := HeaderAt(data, pos, end).value;
      var rest := ChildrenFrom(data, pos + h.size, end, typ);
      if data[pos + 4..pos + 8] == typ then [Atom(pos + h.length, pos + h.size)] + rest else rest
  {
    hide HeaderAt;
  }

  lemma NoBoxes(boxes: seq<Box>)
    requires boxes == []
    ensures Texts(boxes) == []
  {
  }

  lemma NoChildren(data: Bytes, end: nat, typ: Bytes)
    requires end <= |data|
    ensures ChildrenFrom(data, end, end, typ) == []
  {
  }

  /** The children found are those written, at their places. */
  lemma {:induction false} ChildrenRead(data: Bytes, pos: nat, boxes: seq<Box>, typ: Bytes)
    requires Fit(boxes) && At(data, pos, Texts(boxes))
    ensures ChildrenFrom(data, pos, pos + |Texts(boxes)|, typ) == Located(boxes, pos, typ)
    decreases |boxes|
  {
    hide HeaderAt, At, Fit, ChildrenFrom, Texts;
    AtInside(data, pos, Texts(boxes));
    if boxes == [] {
      NoBoxes(boxes);
      NoChildren(data, pos, typ);
    } else {
      var next, end := pos + 8 + |boxes[0].body|, pos + |Texts(boxes)|;
      FirstBox(data, pos, boxes);
      ChildrenRead(data, next, boxes[1..], typ);
      assert ChildrenFrom(data, next, end, typ) == Located(boxes[1..], next, typ);
      ChildrenStep(data, pos, end, typ);
    }
  }

  /** A header that does not fit: a size smaller than itself, or past the end. */
  lemma {:induction false} BrokenHeaderRead(data: Bytes, pos: nat, end: nat, size: nat)
    requires pos + 8 <= end <= |data| && size < U32 && At(data, pos, Uint32(size))
    requires 1 < size < 8 || end - pos < size
    requires size > 1
    ensures HeaderAt(data, pos, end) == None
  {
    hide Uint32, BE32;
    Uint32Read(data, pos, size);
  }

  /** Behind a header that does not fit, or with no room for one, nothing is found: the
      children are those written before. */
  lemma {:induction false} ChildrenBefore(data: Bytes, pos: nat, end: nat, boxes: seq<Box>, typ: Bytes)
    requires Fit(boxes) && At(data, pos, Texts(boxes)) && pos + |Texts(boxes)| <= end <= |data|
    requires var last := pos + |Texts(boxes)|; last + 8 > end || HeaderAt(data, last, end).None?
    ensures ChildrenFrom(data, pos, end, typ) == Located(boxes, pos, typ)
    decreases |boxes|
  {
    hide HeaderAt, At, Fit, ChildrenFrom, Texts;
    if boxes == [] {
      NoBoxes(boxes);
      NoMoreChildren(data, pos, end, typ);
    } else {
      var next := pos + 8 + |boxes[0].body|;
      FirstBox(data, pos, boxes);
      FirstHeader(data, pos, end, boxes);
      ChildrenBefore(data, next, end, boxes[1..], typ);
      ChildrenStep(data, pos, end, typ);
    }
  }

  lemma NoMoreChildren(data: Bytes, pos: nat, end: nat, typ: Bytes)
    requires pos <= end <= |data| && (pos + 8 > end || HeaderAt(data, pos, end).None?)
    ensures ChildrenFrom(data, pos, end, typ) == []
  {
    hide HeaderAt;
  }

  lemma FirstHeader(data: Bytes, pos: nat, end: nat, boxes: seq<Box>)
    requires boxes != [] && Fit(boxes) && At(data, pos, Texts(boxes)) && pos + |Texts(boxes)| <= end <= |data|
    ensures HeaderAt(data, pos, end) == Some(Header(8 + |boxes[0].body|, 8))
  {
    hide HeaderAt, At, Uint32;
    AtSplit(data, pos, boxes[0].Text(), Texts(boxes[1..]));
    HeaderRead(data, pos, end, boxes[0]);
  }

  /** Box i is the first of its type. */
  predicate First(boxes: seq<Box>, i: nat) {
    i < |boxes| && forall k :: 0 <= k < i ==> boxes[k].typ != boxes[i].typ
  }

  function Place(boxes: seq<Box>, i: nat): nat
    requires i <= |boxes|
  {
    if i == 0 then 0 else 8 + |boxes[0].body| + Place(boxes[1..], i - 1)
  }

  lemma {:induction false} FirstLocated(data: Bytes, pos: nat, boxes: seq<Box>, i: nat)
    requires Fit(boxes) && At(data, pos, Texts(boxes)) && First(boxes, i)
    ensures var at := pos + Place(boxes, i) + 8;
      && Located(boxes, pos, boxes[i].typ) != [] && Located(boxes, pos, boxes[i].typ)[0] == Atom(at, at + |boxes[i].body|)
      && At(data, at, boxes[i].body)
    decreases |boxes|
  {
    hide HeaderAt, At, Fit, Texts;
    FirstBox(data, pos, boxes);
    if i > 0 {
      FirstLocated(data, pos + 8 + |boxes[0].body|, boxes[1..], i - 1);
    }
  }

  /** The child found is the first written of its type. */
  lemma {:induction false} ChildRead(data: Bytes, pos: nat, boxes: seq<Box>, i: nat)
    requires Fit(boxes) && At(data, pos, Texts(boxes)) && First(boxes, i)
    ensures var at := pos + Place(boxes, i) + 8;
      && Child(data, pos, pos + |Texts(boxes)|, boxes[i].typ) == Some(Atom(at, at + |boxes[i].body|))
      && At(data, at, boxes[i].body)
  {
    hide Located, ChildrenFrom, Place, Texts, Fit, At;
    AtInside(data, pos, Texts(boxes));
    ChildrenRead(data, pos, boxes, boxes[i].typ);
    FirstLocated(data, pos, boxes, i);
  }

  lemma {:induction false} NoneLocated(boxes: seq<Box>, pos: nat, typ: Bytes)
    requires forall k :: 0 <= k < |boxes| ==> boxes[k].typ != typ
    ensures Located(boxes, pos, typ) == []
    decreases |boxes|
  {
    if boxes != [] {
      NoneLocated(boxes[1..], pos + 8 + |boxes[0].body|, typ);
    }
  }

  lemma {:induction false} ChildMissing(data: Bytes, pos: nat, boxes: seq<Box>, typ: Bytes)
    requires Fit(boxes) && At(data, pos, Texts(boxes)) && forall k :: 0 <= k < |boxes| ==> boxes[k].typ != typ
    ensures Child(data, pos, pos + |Texts(boxes)|, typ) == None
  {
    hide Located, ChildrenFrom, At, Texts;
    ChildrenRead(data, pos, boxes, typ);
    NoneLocated(boxes, pos, typ);
  }

  // ---- The cookie

  predicate Writable(p: Params) {
    p.maxSamples < U32 && p.sampleSize < 256 && p.historyMult < 256 && p.initialHistory < 256 && p.limit < 256 && p.channels < 256
  }

  /** A version word, the frame length, a version byte, five settings, and the rest. */
  function Cookie(p: Params, version: nat, compatible: bv8, rest: Bytes): Bytes
    requires Writable(p) && version < U32
  {
    Uint32(version) + (Uint32(p.maxSamples)
      + ([compatible, Uint8(p.sampleSize), Uint8(p.historyMult), Uint8(p.initialHistory), Uint8(p.limit), Uint8(p.channels)] + rest))
  }

  predicate Usable(p: Params) { p.maxSamples != 0 && p.sampleSize != 0 && p.channels != 0 }

  /** The settings read are those written; unusable ones are refused. */
  lemma {:induction false} CookieRead(data: Bytes, cfg: Atom, p: Params, version: nat, compatible: bv8, rest: Bytes)
    requires Writable(p) && version < U32 && |rest| >= 10
    requires At(data, cfg.body, Cookie(p, version, compatible, rest)) && cfg.end == cfg.body + 14 + |rest|
    ensures CookieOf(data, cfg) == if Usable(p) then Some(p) else None
  {
    hide Uint8, U8, Uint32, BE32, At;
    var fields := [compatible, Uint8(p.sampleSize), Uint8(p.historyMult), Uint8(p.initialHistory), Uint8(p.limit), Uint8(p.channels)];
    AtSplit(data, cfg.body, Uint32(version), Uint32(p.maxSamples) + (fields + rest));
    AtSplit(data, cfg.body + 4, Uint32(p.maxSamples), fields + rest);
    AtSplit(data, cfg.body + 8, fields, rest);
    Uint32Read(data, cfg.body + 4, p.maxSamples);
    AtByte(data, cfg.body + 8, fields, 1);
    AtByte(data, cfg.body + 8, fields, 2);
    AtByte(data, cfg.body + 8, fields, 3);
    AtByte(data, cfg.body + 8, fields, 4);
    AtByte(data, cfg.body + 8, fields, 5);
    Uint8Read(p.sampleSize);
    Uint8Read(p.historyMult);
    Uint8Read(p.initialHistory);
    Uint8Read(p.limit);
    Uint8Read(p.channels);
  }

  /** boxes are the atoms of a sample entry, behind its 28 bytes of fields. */
  predicate EntryHolds(data: Bytes, entry: Atom, boxes: seq<Box>) {
    Fit(boxes) && At(data, entry.body + 28, Texts(boxes)) && entry.end == entry.body + 28 + |Texts(boxes)|
  }

  /** The cookie is that of the first alac atom of the entry. */
  lemma {:induction false} ConfigDirect(data: Bytes, entry: Atom, boxes: seq<Box>, i: nat)
    requires EntryHolds(data, entry, boxes) && First(boxes, i) && boxes[i].typ == ALAC
    ensures var cfg := ConfigOf(data, entry);
      cfg.Some? && At(data, cfg.value.body, boxes[i].body) && cfg.value.end == cfg.value.body + |boxes[i].body|
  {
    hide Child, Place, Texts, Fit, At, First;
    ChildRead(data, entry.body + 28, boxes, i);
  }

  /** Without one, it is that of the first alac atom of the entry's first wave atom. */
  lemma {:induction false} ConfigInWave(data: Bytes, entry: Atom, boxes: seq<Box>, i: nat, inner: seq<Box>, j: nat)
    requires EntryHolds(data, entry, boxes) && First(boxes, i) && boxes[i].typ == WAVE
    requires forall k :: 0 <= k < |boxes| ==> boxes[k].typ != ALAC
    requires Fit(inner) && boxes[i].body == Texts(inner) && First(inner, j) && inner[j].typ == ALAC
    ensures var cfg := ConfigOf(data, entry);
      cfg.Some? && At(data, cfg.value.body, inner[j].body) && cfg.value.end == cfg.value.body + |inner[j].body|
  {
    hide Child, Place, Texts, Fit, At;
    ChildMissing(data, entry.body + 28, boxes, ALAC);
    ChildRead(data, entry.body + 28, boxes, i);
    var at := entry.body + 28 + Place(boxes, i) + 8;
    ChildRead(data, at, inner, j);
  }

  // ---- The tables

  function WordTable(head: seq<nat>, ns: seq<nat>): (b: Bytes)
    requires Uint32Fits(head) && Uint32Fits(ns)
    ensures |b| == 4 * |head| + 4 * |ns|
  {
    Uint32s(head + ns)
  }

  lemma {:induction false} TableRead(data: Bytes, pos: nat, head: seq<nat>, ns: seq<nat>)
    requires Uint32Fits(head) && Uint32Fits(ns) && At(data, pos, WordTable(head, ns))
    ensures pos + 4 * |head| + 4 * |ns| <= |data|
    ensures forall i :: 0 <= i < |head| ==> BE32(data, pos + 4 * i) == head[i]
    ensures forall i :: 0 <= i < |ns| ==> BE32(data, pos + 4 * |head| + 4 * i) == ns[i]
  {
    hide BE32, Uint32s;
    forall i | 0 <= i < |head|
      ensures BE32(data, pos + 4 * i) == head[i]
    {
      Uint32sRead(data, pos, head + ns, i);
    }
    forall i | 0 <= i < |ns|
      ensures BE32(data, pos + 4 * |head| + 4 * i) == ns[i]
    {
      Uint32sRead(data, pos, head + ns, |head| + i);
    }
  }

  lemma {:induction false} SizesRead(data: Bytes, stsz: Atom, sizes: seq<nat>)
    requires Uint32Fits(sizes) && |sizes| < U32
    requires At(data, stsz.body, WordTable([0, 0, |sizes|], sizes)) && stsz.end == stsz.body + 12 + 4 * |sizes|
    ensures stsz.end <= |data| && SizesOf(data, stsz) == Some(sizes)
  {
    hide BE32, WordTable, At;
    var head := [0, 0, |sizes|];
    TableRead(data, stsz.body, head, sizes);
    assert BE32(data, stsz.body + 4) == head[1] && BE32(data, stsz.body + 8) == head[2];
    assert SizesOf(data, stsz).value == sizes;
  }

  lemma {:induction false} OffsetsRead(data: Bytes, stco: Atom, offsets: seq<nat>)
    requires Uint32Fits(offsets) && |offsets| < U32
    requires At(data, stco.body, WordTable([0, |offsets|], offsets)) && stco.end == stco.body + 8 + 4 * |offsets|
    ensures stco.end <= |data| && OffsetsOf(data, stco, false) == Some(offsets)
  {
    hide BE32, WordTable, At;
    var head := [0, |offsets|];
    TableRead(data, stco.body, head, offsets);
    assert BE32(data, stco.body + 4) == head[1];
    assert OffsetsOf(data, stco, false).value == offsets;
  }

  /** One size for all. */
  lemma {:induction false} CommonSizeRead(data: Bytes, stsz: Atom, size: nat, count: nat)
    requires 0 < size < U32 && count < U32
    requires At(data, stsz.body, WordTable([0, size, count], [])) && stsz.end >= stsz.body + 12 && stsz.end <= |data|
    ensures SizesOf(data, stsz).Some? && |SizesOf(data, stsz).value| == count
    ensures forall i :: 0 <= i < count ==> SizesOf(data, stsz).value[i] == size
  {
    hide BE32, WordTable, At;
    var head := [0, size, count];
    TableRead(data, stsz.body, head, []);
    assert BE32(data, stsz.body + 4) == head[1] && BE32(data, stsz.body + 8) == head[2];
  }

  /** 64-bit offsets, the upper half first; those past 63 bits are negative to the reader. */
  function Halves(offsets: seq<nat>): (ns: seq<nat>)
    requires forall i :: 0 <= i < |offsets| ==> offsets[i] < U32 * U32
    ensures |ns| == 2 * |offsets| && Uint32Fits(ns)
    ensures forall i :: 0 <= i < |offsets| ==> ns[2 * i] == offsets[i] / U32 && ns[2 * i + 1] == offsets[i] % U32
  {
    seq(2 * |offsets|, k requires 0 <= k < 2 * |offsets| => if k % 2 == 0 then offsets[k / 2] / U32 else offsets[k / 2] % U32)
  }

  lemma {:induction false} WideOffsetsRead(data: Bytes, co64: Atom, offsets: seq<nat>)
    requires |offsets| < U32 && forall i :: 0 <= i < |offsets| ==> offsets[i] < U32 * U32
    requires At(data, co64.body, WordTable([0, |offsets|], Halves(offsets))) && co64.end == co64.body + 8 + 8 * |offsets|
    ensures co64.end <= |data| && OffsetsOf(data, co64, true).Some? && |OffsetsOf(data, co64, true).value| == |offsets|
    ensures forall i :: 0 <= i < |offsets| && offsets[i] < U32 * U32 / 2 ==> OffsetsOf(data, co64, true).value[i] == offsets[i]
    ensures forall i :: 0 <= i < |offsets| && offsets[i] >= U32 * U32 / 2 ==> OffsetsOf(data, co64, true).value[i] == offsets[i] - U32 * U32 < 0
  {
    hide BE32, WordTable, At, Halves;
    var head, ns := [0, |offsets|], Halves(offsets);
    TableRead(data, co64.body, head, ns);
    assert BE32(data, co64.body + 4) == head[1];
    forall i | 0 <= i < |offsets|
      ensures BE64(data, co64.body + 8 + 8 * i) == offsets[i]
    {
      assert BE32(data, co64.body + 8 + 4 * (2 * i)) == ns[2 * i];
      assert BE32(data, co64.body + 8 + 4 * (2 * i + 1)) == ns[2 * i + 1];
    }
  }

  /** Each run as three words: its first chunk, its samples a chunk, and a description
      index nobody reads. */
  function RunWords(runs: seq<Run>, description: nat): (ns: seq<nat>)
    requires forall i :: 0 <= i < |runs| ==> runs[i].first < U32 && runs[i].samples < U32
    requires description < U32
    ensures |ns| == 3 * |runs| && Uint32Fits(ns)
    ensures forall i :: 0 <= i < |runs| ==>
      ns[3 * i] == runs[i].first && ns[3 * i + 1] == runs[i].samples && ns[3 * i + 2] == description
  {
    seq(3 * |runs|, k requires 0 <= k < 3 * |runs| =>
      if k % 3 == 0 then runs[k / 3].first else if k % 3 == 1 then runs[k / 3].samples else description)
  }

  lemma {:induction false} RunsRead(data: Bytes, stsc: Atom, runs: seq<Run>, description: nat)
    requires |runs| < U32 && description < U32 && forall i :: 0 <= i < |runs| ==> runs[i].first < U32 && runs[i].samples < U32
    requires At(data, stsc.body, WordTable([0, |runs|], RunWords(runs, description))) && stsc.end == stsc.body + 8 + 12 * |runs|
    ensures stsc.end <= |data| && RunsOf(data, stsc) == Some(runs)
  {
    hide BE32, WordTable, At, RunWords;
    var head, ns := [0, |runs|], RunWords(runs, description);
    TableRead(data, stsc.body, head, ns);
    assert BE32(data, stsc.body + 4) == head[1];
    forall i | 0 <= i < |runs|
      ensures BE32(data, stsc.body + 8 + 12 * i) == runs[i].first && BE32(data, stsc.body + 12 + 12 * i) == runs[i].samples
    {
      assert BE32(data, stsc.body + 8 + 4 * (3 * i)) == ns[3 * i];
      assert BE32(data, stsc.body + 8 + 4 * (3 * i + 1)) == ns[3 * i + 1];
    }
    assert RunsOf(data, stsc).value == runs;
  }

  /** A table with less than the entries it counts is refused. */
  lemma {:induction false} CutSizes(data: Bytes, table: Atom, n: nat)
    requires n < U32 && table.body <= table.end <= |data|
    requires table.end - table.body < 12 || At(data, table.body, WordTable([0, 0, n], []))
    requires table.end - table.body < 12 + 4 * n
    ensures SizesOf(data, table).None?
  {
    hide BE32, WordTable, At;
    if table.end - table.body >= 12 {
      TableRead(data, table.body, [0, 0, n], []);
      assert BE32(data, table.body + 4) == [0, 0, n][1] && BE32(data, table.body + 8) == [0, 0, n][2];
    }
  }

  lemma {:induction false} CutTable(data: Bytes, table: Atom, n: nat)
    requires n < U32 && table.body <= table.end <= |data|
    requires table.end - table.body < 8 || At(data, table.body, WordTable([0, n], []))
    ensures table.end - table.body < 8 + 4 * n ==> OffsetsOf(data, table, false).None?
    ensures table.end - table.body < 8 + 8 * n ==> OffsetsOf(data, table, true).None?
    ensures table.end - table.body < 8 + 12 * n ==> RunsOf(data, table).None?
  {
    hide BE32, WordTable, At;
    if table.end - table.body >= 8 {
      TableRead(data, table.body, [0, n], []);
      assert BE32(data, table.body + 4) == [0, n][1];
    }
  }

  lemma {:induction false} LocateOnes(sizes: seq<nat>, offsets: seq<int>, per: seq<nat>, c: nat)
    requires |sizes| == |offsets| == |per| && c <= |per| && forall k :: 0 <= k < |per| ==> per[k] == 1
    ensures Locate(sizes, offsets, per, c) == seq(c, i requires 0 <= i < c => Loc(offsets[i], sizes[i]))
  {
    hide Locate, Before, Sum;
    if c == 0 {
      NoneLocatedYet(sizes, offsets, per);
    } else {
      LocateOnes(sizes, offsets, per, c - 1);
      LocateNext(sizes, offsets, per, c - 1);
      NoSamples(sizes, offsets[c - 1], c - 1);
      OneMoreSample(sizes, offsets[c - 1], c - 1, 0);
    }
  }

  lemma {:induction false} OnePerChunk(n: nat, c: nat)
    requires c < n && n + 1 < U32
    ensures PerChunk([Run(1, 1)], n, c) == 1
  {
    assert Covers([Run(1, 1)], n, 0, c);
    assert Assigned([Run(1, 1)], n, c, 1) == 1;
  }

  lemma NoneLocatedYet(sizes: seq<nat>, offsets: seq<int>, per: seq<nat>)
    requires |per| == |offsets|
    ensures Locate(sizes, offsets, per, 0) == []
  {
  }

  // ---- The track

  /** Packets a song can name with 32-bit offsets and sizes. */
  predicate Nameable(locs: seq<Loc>) {
    |locs| < 0x1000_0000 && forall i :: 0 <= i < |locs| ==> 0 <= locs[i].offset < U32 && locs[i].size < U32
  }

  function SizeList(locs: seq<Loc>): (sizes: seq<nat>)
    requires Nameable(locs)
    ensures |sizes| == |locs| && Uint32Fits(sizes)
  {
    seq(|locs|, i requires 0 <= i < |locs| => locs[i].size)
  }

  function OffsetList(locs: seq<Loc>): (offsets: seq<nat>)
    requires Nameable(locs)
    ensures |offsets| == |locs| && Uint32Fits(offsets)
  {
    seq(|locs|, i requires 0 <= i < |locs| => locs[i].offset)
  }

  function Zeros(n: nat): (b: Bytes)
    ensures |b| == n
  {
    seq(n, _ => 0)
  }

  function ConfigBox(p: Params): (box: Box)
    requires Writable(p)
    ensures box.Fits() && |box.body| == 24 && box.typ == ALAC
  {
    Box(ALAC, Cookie(p, 0, 0, Zeros(10)))
  }

  function Entry(p: Params): (box: Box)
    requires Writable(p)
    ensures box.Fits() && |box.body| == 60 && box.typ == ALAC
  {
    OneText(ConfigBox(p));
    Box(ALAC, Zeros(28) + Texts([ConfigBox(p)]))
  }

  lemma OneText(box: Box)
    requires box.Fits()
    ensures Texts([box]) == box.Text()
  {
  }

  lemma TwoTexts(a: Box, rest: seq<Box>)
    requires a.Fits() && Fit(rest)
    ensures Fit([a] + rest) && Texts([a] + rest) == a.Text() + Texts(rest)
  {
    assert ([a] + rest)[1..] == rest;
  }

  function Description(p: Params): (box: Box)
    requires Writable(p)
    ensures box.Fits() && |box.body| == 76 && box.typ == STSD
  {
    hide Uint32s, ConfigBox, Texts;
    Box(STSD, WordTable([0, 1], []) + Entry(p).Text())
  }

  function Sizes(locs: seq<Loc>): (box: Box)
    requires Nameable(locs)
    ensures box.Fits() && |box.body| == 12 + 4 * |locs| && box.typ == STSZ
  {
    Box(STSZ, WordTable([0, 0, |locs|], SizeList(locs)))
  }

  function Runs(): (box: Box)
    ensures box.Fits() && |box.body| == 20 && box.typ == STSC
  {
    Box(STSC, WordTable([0, 1], RunWords([Run(1, 1)], 1)))
  }

  function Offsets(locs: seq<Loc>): (box: Box)
    requires Nameable(locs)
    ensures box.Fits() && |box.body| == 8 + 4 * |locs| && box.typ == STCO
  {
    Box(STCO, WordTable([0, |locs|], OffsetList(locs)))
  }

  lemma FourFit(a: Box, b: Box, c: Box, d: Box)
    requires a.Fits() && b.Fits() && c.Fits() && d.Fits()
    ensures Fit([a, b, c, d]) && |Texts([a, b, c, d])| == 32 + |a.body| + |b.body| + |c.body| + |d.body|
  {
    hide Texts, Uint32;
    ThreeFit(b, c, d);
    TwoTexts(a, [b, c, d]);
    assert [a] + [b, c, d] == [a, b, c, d];
  }

  function SampleTable(p: Params, locs: seq<Loc>): (boxes: seq<Box>)
    requires Writable(p) && Nameable(locs)
    ensures Fit(boxes) && |Texts(boxes)| == 148 + 8 * |locs|
  {
    hide *;
    FourFit(Description(p), Sizes(locs), Runs(), Offsets(locs));
    [Description(p), Sizes(locs), Runs(), Offsets(locs)]
  }

  lemma TableTypes(p: Params, locs: seq<Loc>)
    requires Writable(p) && Nameable(locs)
    ensures var boxes := SampleTable(p, locs);
      First(boxes, 0) && First(boxes, 1) && First(boxes, 2) && First(boxes, 3)
  {
    hide Description, Sizes, Runs, Offsets, Texts, Fit;
    assert STSD[3] == 0x64 && STSZ[3] == 0x7a && STSC[3] == 0x63 && STCO[3] == 0x6f && STSC[2] == 0x73;
  }

  lemma Ones(n: nat)
    requires n + 1 < U32
    ensures forall c :: 0 <= c < n ==> PerChunk([Run(1, 1)], n, c) == 1
  {
    hide PerChunk;
    forall c | 0 <= c < n
      ensures PerChunk([Run(1, 1)], n, c) == 1
    {
      OnePerChunk(n, c);
    }
  }

  lemma ListsBack(locs: seq<Loc>)
    requires Nameable(locs)
    ensures seq(|locs|, i requires 0 <= i < |locs| => Loc(OffsetList(locs)[i], SizeList(locs)[i])) == locs
  {
    assert forall i :: 0 <= i < |locs| ==> Loc(OffsetList(locs)[i], SizeList(locs)[i]) == locs[i];
  }

  lemma {:induction false} PacketsRead(data: Bytes, stbl: Atom, p: Params, locs: seq<Loc>)
    requires Writable(p) && Nameable(locs)
    requires At(data, stbl.body, Texts(SampleTable(p, locs))) && stbl.end == stbl.body + |Texts(SampleTable(p, locs))|
    ensures PacketsOf(data, stbl) == Some(locs)
  {
    hide At, Texts, Fit, First, Child, Place, WordTable, SizesOf, OffsetsOf, RunsOf, PerChunk, Locate, Description, SizeList, OffsetList;
    var boxes := SampleTable(p, locs);
    TableTypes(p, locs);
    ChildRead(data, stbl.body, boxes, 1);
    ChildRead(data, stbl.body, boxes, 2);
    ChildRead(data, stbl.body, boxes, 3);
    var stsz, stsc, stco := Child(data, stbl.body, stbl.end, STSZ).value, Child(data, stbl.body, stbl.end, STSC).value, Child(data, stbl.body, stbl.end, STCO).value;
    SizesRead(data, stsz, SizeList(locs));
    RunsRead(data, stsc, [Run(1, 1)], 1);
    OffsetsRead(data, stco, OffsetList(locs));
    var n := |locs|;
    Ones(n);
    LocateOnes(SizeList(locs), OffsetList(locs), seq(n, c requires 0 <= c < n => PerChunk([Run(1, 1)], n, c)), n);
    ListsBack(locs);
  }

  lemma {:induction false} EntryRead(data: Bytes, stbl: Atom, p: Params, locs: seq<Loc>)
    requires Writable(p) && Nameable(locs)
    requires At(data, stbl.body, Texts(SampleTable(p, locs))) && stbl.end == stbl.body + |Texts(SampleTable(p, locs))|
    ensures var entry := EntryOf(data, stbl); entry.Some? && EntryHolds(data, entry.value, [ConfigBox(p)])
  {
    hide At, Texts, Fit, First, Child, Place, BE32, Uint32, WordTable, SizeList, OffsetList, Cookie;
    var boxes := SampleTable(p, locs);
    TableTypes(p, locs);
    ChildRead(data, stbl.body, boxes, 0);
    var at := Child(data, stbl.body, stbl.end, STSD).value.body;
    AtSplit(data, at, WordTable([0, 1], []), Entry(p).Text());
    TableRead(data, at, [0, 1], []);
    assert BE32(data, at + 4) == [0, 1][1];
    EntryText(data, at + 8, p);
  }

  lemma {:induction false} EntryText(data: Bytes, start: nat, p: Params)
    requires Writable(p) && At(data, start, Entry(p).Text())
    ensures start + 68 <= |data| && BE32(data, start) == 68 && data[start + 4..start + 8] == ALAC
    ensures EntryHolds(data, Atom(start + 8, start + 68), [ConfigBox(p)])
  {
    hide At, BE32, Uint32, Texts, ConfigBox;
    var box := Entry(p);
    AtInside(data, start, box.Text());
    HeaderRead(data, start, |data|, box);
    AtSplit(data, start, Uint32(68), box.typ + box.body);
    Uint32Read(data, start, 68);
    AtSplit(data, start + 8, Zeros(28), Texts([ConfigBox(p)]));
    OneText(ConfigBox(p));
  }

  lemma {:induction false} ParamsRead(data: Bytes, entry: Atom, p: Params)
    requires Writable(p) && EntryHolds(data, entry, [ConfigBox(p)])
    ensures ConfigOf(data, entry).Some?
    ensures CookieOf(data, ConfigOf(data, entry).value) == if Usable(p) then Some(p) else None
  {
    hide At, ConfigOf, CookieOf, EntryHolds;
    assert First([ConfigBox(p)], 0);
    ConfigDirect(data, entry, [ConfigBox(p)], 0);
    var cfg := ConfigOf(data, entry).value;
    CookieRead(data, cfg, p, 0, 0, Zeros(10));
  }

  function Handler(): (box: Box)
    ensures box.Fits() && |box.body| == 12 && box.typ == HDLR
  {
    Box(HDLR, Zeros(8) + SOUN)
  }

  function Wrap(typ: Bytes, boxes: seq<Box>): (box: Box)
    requires Fit(boxes)
    ensures box.typ == typ && |box.body| == |Texts(boxes)|
  {
    Box(typ, Texts(boxes))
  }

  function SampleTableBox(p: Params, locs: seq<Loc>): (box: Box)
    requires Writable(p) && Nameable(locs)
    ensures box.Fits() && |box.body| == 148 + 8 * |locs| && box.typ == STBL
  {
    Wrap(STBL, SampleTable(p, locs))
  }

  function MediaInfo(p: Params, locs: seq<Loc>): (box: Box)
    requires Writable(p) && Nameable(locs)
    ensures box.Fits() && |box.body| == 156 + 8 * |locs| && box.typ == MINF
  {
    OneText(SampleTableBox(p, locs));
    Wrap(MINF, [SampleTableBox(p, locs)])
  }

  function Media(p: Params, locs: seq<Loc>): (box: Box)
    requires Writable(p) && Nameable(locs)
    ensures box.Fits() && |box.body| == 184 + 8 * |locs| && box.typ == MDIA
  {
    TwoTexts(Handler(), [MediaInfo(p, locs)]);
    OneText(MediaInfo(p, locs));
    Wrap(MDIA, [Handler()] + [MediaInfo(p, locs)])
  }

  function TrackBox(p: Params, locs: seq<Loc>): (box: Box)
    requires Writable(p) && Nameable(locs)
    ensures box.Fits() && |box.body| == 192 + 8 * |locs| && box.typ == TRAK
  {
    OneText(Media(p, locs));
    Wrap(TRAK, [Media(p, locs)])
  }

  /** The only child. */
  lemma {:induction false} OnlyRead(data: Bytes, atom: Atom, box: Box)
    requires box.Fits() && At(data, atom.body, Texts([box])) && atom.end == atom.body + |Texts([box])|
    ensures Child(data, atom.body, atom.end, box.typ) == Some(Atom(atom.body + 8, atom.end))
    ensures At(data, atom.body + 8, box.body)
    ensures Children(data, atom.body, atom.end, box.typ) == [Atom(atom.body + 8, atom.end)]
  {
    hide At, ChildrenFrom, HeaderAt, Texts, Located;
    OneText(box);
    AtInside(data, atom.body, Texts([box]));
    ChildrenRead(data, atom.body, [box], box.typ);
    FirstBox(data, atom.body, [box]);
    OneLocated(box, atom.body);
  }

  lemma OneLocated(box: Box, pos: nat)
    ensures Located([box], pos, box.typ) == [Atom(pos + 8, pos + 8 + |box.body|)]
  {
  }

  lemma SampleTableFrom(data: Bytes, trak: Atom, mdia: Atom, hdlr: Atom, minf: Atom, stbl: Atom)
    requires Child(data, trak.body, trak.end, MDIA) == Some(mdia)
    requires Child(data, mdia.body, mdia.end, HDLR) == Some(hdlr)
    requires hdlr.end == hdlr.body + 12 && hdlr.end <= |data| && data[hdlr.body + 8..hdlr.end] == SOUN
    requires Child(data, mdia.body, mdia.end, MINF) == Some(minf) && Child(data, minf.body, minf.end, STBL) == Some(stbl)
    ensures SampleTableOf(data, trak) == Some(stbl)
  {
    hide Child;
  }

  lemma {:induction false} SampleTableRead(data: Bytes, trak: Atom, p: Params, locs: seq<Loc>)
    requires Writable(p) && Nameable(locs)
    requires At(data, trak.body, TrackBox(p, locs).body) && trak.end == trak.body + |TrackBox(p, locs).body|
    ensures var stbl := SampleTableOf(data, trak);
      stbl.Some? && At(data, stbl.value.body, Texts(SampleTable(p, locs)))
      && stbl.value.end == stbl.value.body + |Texts(SampleTable(p, locs))|
  {
    hide *;
    var media, stbl := Media(p, locs), SampleTableBox(p, locs);
    TrackIs(p, locs);
    OnlyRead(data, trak, media);
    var mdia := Child(data, trak.body, trak.end, MDIA).value;
    MediaRead(data, mdia, p, locs);
    var hdlr, minf := Child(data, mdia.body, mdia.end, HDLR).value, Child(data, mdia.body, mdia.end, MINF).value;
    InfoIs(p, locs);
    OnlyRead(data, minf, stbl);
    TableIs(p, locs);
    SampleTableFrom(data, trak, mdia, hdlr, minf, Child(data, minf.body, minf.end, STBL).value);
  }

  lemma TrackIs(p: Params, locs: seq<Loc>)
    requires Writable(p) && Nameable(locs)
    ensures TrackBox(p, locs).body == Texts([Media(p, locs)])
  {
    hide Media, Texts;
  }

  lemma InfoIs(p: Params, locs: seq<Loc>)
    requires Writable(p) && Nameable(locs)
    ensures MediaInfo(p, locs).body == Texts([SampleTableBox(p, locs)])
  {
    hide SampleTableBox, Texts;
  }

  lemma TableIs(p: Params, locs: seq<Loc>)
    requires Writable(p) && Nameable(locs)
    ensures SampleTableBox(p, locs).body == Texts(SampleTable(p, locs))
  {
    hide SampleTable, Texts;
  }

  lemma {:induction false} MediaRead(data: Bytes, mdia: Atom, p: Params, locs: seq<Loc>)
    requires Writable(p) && Nameable(locs)
    requires At(data, mdia.body, Media(p, locs).body) && mdia.end == mdia.body + |Media(p, locs).body|
    ensures var hdlr := Child(data, mdia.body, mdia.end, HDLR);
      && hdlr.Some? && hdlr.value.end == hdlr.value.body + 12 && hdlr.value.end <= |data|
      && data[hdlr.value.body + 8..hdlr.value.end] == SOUN
    ensures var minf := Child(data, mdia.body, mdia.end, MINF);
      && minf.Some? && At(data, minf.value.body, MediaInfo(p, locs).body)
      && minf.value.end == minf.value.body + |MediaInfo(p, locs).body|
  {
    hide At, Texts, Child, Place, MediaInfo, Handler, Media;
    assert HDLR[0] == 0x68 && MINF[0] == 0x6d;
    MediaIs(p, locs);
    BothRead(data, mdia, Handler(), MediaInfo(p, locs));
    HandlerText(data, Child(data, mdia.body, mdia.end, HDLR).value.body);
  }

  lemma MediaIs(p: Params, locs: seq<Loc>)
    requires Writable(p) && Nameable(locs)
    ensures Fit([Handler()] + [MediaInfo(p, locs)]) && Media(p, locs).body == Texts([Handler()] + [MediaInfo(p, locs)])
  {
    hide MediaInfo, Texts, Handler;
    TwoTexts(Handler(), [MediaInfo(p, locs)]);
  }

  /** Two children of different types. */
  lemma {:induction false} BothRead(data: Bytes, atom: Atom, a: Box, b: Box)
    requires Fit([a] + [b]) && a.typ != b.typ
    requires At(data, atom.body, Texts([a] + [b])) && atom.end == atom.body + |Texts([a] + [b])|
    ensures var x := Child(data, atom.body, atom.end, a.typ);
      x.Some? && At(data, x.value.body, a.body) && x.value.end == x.value.body + |a.body|
    ensures var y := Child(data, atom.body, atom.end, b.typ);
      y.Some? && At(data, y.value.body, b.body) && y.value.end == y.value.body + |b.body|
  {
    hide At, Texts, Child, Place, Fit;
    ChildRead(data, atom.body, [a] + [b], 0);
    ChildRead(data, atom.body, [a] + [b], 1);
  }

  lemma HandlerText(data: Bytes, at: nat)
    requires At(data, at, Handler().body)
    ensures at + 12 <= |data| && data[at + 8..at + 12] == SOUN
  {
    AtSplit(data, at, Zeros(8), SOUN);
  }

  /** The track read is the track written; one with unusable settings makes the file malformed. */
  lemma {:induction false} TrackRead(data: Bytes, trak: Atom, p: Params, locs: seq<Loc>)
    requires Writable(p) && Nameable(locs)
    requires At(data, trak.body, TrackBox(p, locs).body) && trak.end == trak.body + |TrackBox(p, locs).body|
    ensures TrackOf(data, trak) == if Usable(p) then Track(p, locs) else Malformed
  {
    hide At, Texts, Fit, SampleTable, TrackBox, SampleTableOf, EntryOf, ConfigOf, CookieOf, PacketsOf, EntryHolds;
    SampleTableRead(data, trak, p, locs);
    var stbl := SampleTableOf(data, trak).value;
    EntryRead(data, stbl, p, locs);
    ParamsRead(data, EntryOf(data, stbl).value, p);
    PacketsRead(data, stbl, p, locs);
  }

  /** The atom's body is these boxes. */
  predicate Inside(data: Bytes, atom: Atom, boxes: seq<Box>) {
    Fit(boxes) && At(data, atom.body, Texts(boxes)) && atom.end == atom.body + |Texts(boxes)|
  }

  /** A track whose handler is not that of sound is passed over. */
  lemma {:induction false} OtherMedia(data: Bytes, trak: Atom, boxes: seq<Box>, i: nat, inner: seq<Box>, j: nat)
    requires Inside(data, trak, boxes) && First(boxes, i) && boxes[i].typ == MDIA
    requires Fit(inner) && boxes[i].body == Texts(inner) && First(inner, j) && inner[j].typ == HDLR
    requires |inner[j].body| < 12 || inner[j].body[8..12] != SOUN
    ensures TrackOf(data, trak) == Skipped
  {
    hide At, Texts, Fit, Child, Place, EntryOf, ConfigOf, CookieOf, PacketsOf;
    ChildRead(data, trak.body, boxes, i);
    var at := trak.body + Place(boxes, i) + 8;
    ChildRead(data, at, inner, j);
    var hdlr := Child(data, at, at + |boxes[i].body|, HDLR).value;
    if |inner[j].body| >= 12 {
      PartRead(data, hdlr.body, inner[j].body, 8, 12);
    }
  }

  lemma PartRead(data: Bytes, pos: nat, part: Bytes, from: nat, to: nat)
    requires At(data, pos, part) && from <= to <= |part|
    ensures pos + |part| <= |data| && data[pos + from..pos + to] == part[from..to]
  {
    assert part == part[..from] + (part[from..to] + part[to..]);
    AtSplit(data, pos, part[..from], part[from..to] + part[to..]);
    AtSplit(data, pos + from, part[from..to], part[to..]);
  }

  /** The sample entry that counts is the first one, if there is one and it is alac. */
  lemma {:induction false} FirstEntryRead(data: Bytes, stbl: Atom, boxes: seq<Box>, i: nat, version: nat, count: nat, entry: Box, rest: Bytes)
    requires Inside(data, stbl, boxes) && First(boxes, i) && boxes[i].typ == STSD
    requires version < U32 && count < U32 && entry.Fits()
    requires boxes[i].body == Uint32(version) + (Uint32(count) + (entry.Text() + rest))
    ensures var start := stbl.body + Place(boxes, i) + 16;
      EntryOf(data, stbl) ==
        if count > 0 && entry.typ == ALAC then Some(Atom(start + 8, start + 8 + |entry.body|)) else None
  {
    hide At, Texts, Fit, Child, Place, BE32, Uint32;
    ChildRead(data, stbl.body, boxes, i);
    var at := stbl.body + Place(boxes, i) + 8;
    AtSplit(data, at, Uint32(version), Uint32(count) + (entry.Text() + rest));
    AtSplit(data, at + 4, Uint32(count), entry.Text() + rest);
    AtSplit(data, at + 8, entry.Text(), rest);
    AtSplit(data, at + 8, Uint32(8 + |entry.body|), entry.typ + entry.body);
    AtSplit(data, at + 12, entry.typ, entry.body);
    Uint32Read(data, at + 4, count);
    Uint32Read(data, at + 8, 8 + |entry.body|);
    PartRead(data, at + 12, entry.typ, 0, 4);
    AtInside(data, at + 8, entry.Text());
    assert entry.typ[0..4] == entry.typ;
  }

  function Named(p: Params, locs: seq<Loc>): (packets: seq<Packet>)
    ensures |packets| == |locs|
  {
    seq(|locs|, i requires 0 <= i < |locs| => Packet(locs[i].offset, locs[i].size, p))
  }

  /** A file whose moov holds that track names exactly its packets. */
  lemma {:induction false} SongRead(data: Bytes, p: Params, locs: seq<Loc>)
    requires Writable(p) && Nameable(locs) && Child(data, 0, |data|, MOOV).Some?
    requires var moov := Child(data, 0, |data|, MOOV).value;
      At(data, moov.body, Texts([TrackBox(p, locs)])) && moov.end == moov.body + |Texts([TrackBox(p, locs)])|
    ensures FilePackets(data) == if Usable(p) then Some(Named(p, locs)) else None
  {
    hide At, Texts, Child, Children, TrackBox, TrackOf, Named, FilePackets;
    var moov := Child(data, 0, |data|, MOOV).value;
    OnlyRead(data, moov, TrackBox(p, locs));
    var trak := Atom(moov.body + 8, moov.end);
    OneText(TrackBox(p, locs));
    TrackRead(data, trak, p, locs);
    OneTrackFile(data, trak);
    if Usable(p) {
      OnePackets(Track(p, locs));
    }
  }

  lemma OneTrackFile(data: Bytes, trak: Atom)
    requires Child(data, 0, |data|, MOOV).Some?
    requires var moov := Child(data, 0, |data|, MOOV).value; Children(data, moov.body, moov.end, TRAK) == [trak]
    requires !TrackOf(data, trak).Skipped?
    ensures FilePackets(data) == match TrackOf(data, trak)
      case Track(_, _) => Some(Packets([TrackOf(data, trak)]))
      case _ => None
  {
    hide Child, Children, TrackOf, Packets;
    var track := TrackOf(data, trak);
    assert TracksOf(data, [trak], 0) == Some([]);
    OneTrack(data, [trak], 0);
    if track.Track? {
      assert [] + [track] == [track];
      assert TracksOf(data, [trak], 1) == Some([track]);
    }
  }

  lemma OnePackets(track: Found)
    requires track.Track?
    ensures Packets([track]) == Named(track.params, track.locs)
  {
    assert Packets([]) == [];
  }

  /** Of several tracks those that are ALAC count, in order, each once; a malformed one
      spoils the file. */
  ghost predicate TracksAmong(data: Bytes, traks: seq<Atom>, n: nat, tracks: seq<Found>, places: seq<nat>)
    requires n <= |traks|
  {
    && |places| == |tracks|
    && (forall k :: 0 <= k < |places| ==> places[k] < n && tracks[k] == TrackOf(data, traks[places[k]]) && tracks[k].Track?)
    && (forall k, l :: 0 <= k < l < |places| ==> places[k] < places[l])
    && (forall i :: 0 <= i < n && TrackOf(data, traks[i]).Track? ==> i in places)
  }

  lemma {:induction false} TracksRead(data: Bytes, traks: seq<Atom>, n: nat) returns (places: seq<nat>)
    requires n <= |traks|
    ensures TracksOf(data, traks, n).None? <==> exists i :: 0 <= i < n && TrackOf(data, traks[i]).Malformed?
    ensures TracksOf(data, traks, n).Some? ==> TracksAmong(data, traks, n, TracksOf(data, traks, n).value, places)
  {
    hide TrackOf;
    places := [];
    if n > 0 {
      places := TracksRead(data, traks, n - 1);
      if TrackOf(data, traks[n - 1]).Track? {
        places := places + [n - 1];
      }
    }
  }

  /** The packets of the tracks, one track after the other. */
  lemma {:induction false} PacketsJoin(a: seq<Found>, track: Found)
    requires track.Track? && forall t :: t in a ==> t.Track?
    ensures Packets(a + [track]) == Packets(a) + Named(track.params, track.locs)
  {
    assert (a + [track])[..|a|] == a;
  }

  // ---- A repair that loses the song

  const FREE: Bytes := [0x66, 0x72, 0x65, 0x65]

  /** The one packet is the last byte of the first free atom and the size of the second. */
  function Spot(pad: Bytes): Loc { Loc(8 + |pad|, 5) }

  function Lead(pad: Bytes): (box: Box)
    requires |pad| < 0x1000_0000
    ensures box.Fits() && |box.body| == |pad| + 1 && box.typ == FREE
  {
    Box(FREE, pad + [0xE0])
  }

  function Movie(pad: Bytes, p: Params): (box: Box)
    requires Writable(p) && |pad| < 0x1000_0000
    ensures box.Fits() && |box.body| == 208 && box.typ == MOOV
  {
    OneText(TrackBox(p, [Spot(pad)]));
    Wrap(MOOV, [TrackBox(p, [Spot(pad)])])
  }

  function LosingBoxes(pad: Bytes, p: Params): (boxes: seq<Box>)
    requires Writable(p) && |pad| < 0x1000_0000
    ensures Fit(boxes) && |Texts(boxes)| == 233 + |pad|
  {
    hide *;
    ThreeFit(Lead(pad), Box(FREE, []), Movie(pad, p));
    [Lead(pad), Box(FREE, []), Movie(pad, p)]
  }

  lemma ThreeFit(a: Box, b: Box, c: Box)
    requires a.Fits() && b.Fits() && c.Fits()
    ensures Fit([a, b, c]) && |Texts([a, b, c])| == 24 + |a.body| + |b.body| + |c.body|
  {
    hide Uint32;
    OneText(c);
    TwoTexts(b, [c]);
    TwoTexts(a, [b] + [c]);
    assert [a] + ([b] + [c]) == [a, b, c];
  }

  lemma ThirdPlace(boxes: seq<Box>)
    requires |boxes| == 3
    ensures Place(boxes, 2) == 16 + |boxes[0].body| + |boxes[1].body|
  {
    assert Place(boxes[1..], 1) == 8 + |boxes[1].body| + Place(boxes[1..][1..], 0);
  }

  function Losing(pad: Bytes, p: Params): Bytes
    requires Writable(p) && |pad| < 0x1000_0000
  {
    Texts(LosingBoxes(pad, p))
  }

  lemma {:induction false} LosingRead(pad: Bytes, p: Params)
    requires Writable(p) && Usable(p) && |pad| < 0x1000_0000
    ensures var song := Losing(pad, p);
      && FilePackets(song) == Some([Packet(8 + |pad|, 5, p)]) && Packed(song)
  {
    hide At, Texts, Child, TrackBox, FilePackets, Fit;
    var song, boxes := Losing(pad, p), LosingBoxes(pad, p);
    assert At(song, 0, song) by {
      AtWhole(song);
    }
    assert FREE[0] == 0x66 && MOOV[0] == 0x6d;
    assert First(boxes, 2);
    ChildRead(song, 0, boxes, 2);
    ThirdPlace(boxes);
    SongRead(song, p, [Spot(pad)]);
    assert Named(p, [Spot(pad)]) == [Packet(8 + |pad|, 5, p)];
  }

  lemma AtWhole(data: Bytes)
    ensures At(data, 0, data)
  {
  }

  lemma {:induction false} LosingBytes(pad: Bytes, p: Params)
    requires Writable(p) && |pad| < 0x1000_0000
    ensures var song := Losing(pad, p);
      && |song| == 233 + |pad| && song[8 + |pad|] == 0xE0
      && HeaderAt(song, 0, |song|) == Some(Header(9 + |pad|, 8))
      && song[4..8] == FREE && song[13 + |pad|..17 + |pad|] == FREE
  {
    hide At, Texts, Fit, HeaderAt, Movie;
    var song, boxes := Losing(pad, p), LosingBoxes(pad, p);
    AtWhole(song);
    FirstBox(song, 0, boxes);
    AtByte(song, 8, pad + [0xE0], |pad|);
    FirstBox(song, 9 + |pad|, boxes[1..]);
  }

  /** The packet starts with END, so its body ends behind it, and no END follows. */
  lemma {:induction false} EndFirst(bits: seq<bool>, p: Params)
    requires |bits| == 40 && bits[0] && bits[1] && bits[2] && !bits[3]
    ensures BodyEnd(bits, p) == 3 && NeedsPatch(bits, p)
  {
    assert bits[0..3] == [true, true, true];
    EndTag(bits, 0);
    assert bits[3..6][0] == bits[3];
  }

  lemma {:induction false} LosingPacket(pad: Bytes, p: Params)
    requires Writable(p) && |pad| < 0x1000_0000
    ensures var bits, pk := Bits(Losing(pad, p)), Packet(8 + |pad|, 5, p);
      Lacks(bits, pk) && BodyEnd(Slice(bits, pk), p) == 3
  {
    hide Losing, HeaderAt, NeedsPatch, BodyEnd;
    var song, pk := Losing(pad, p), Packet(8 + |pad|, 5, p);
    LosingBytes(pad, p);
    var off := 8 * (8 + |pad|);
    FirstBits(song, 8 + |pad|);
    var part := Slice(Bits(song), pk);
    assert part[0] == Bits(song)[off] && part[1] == Bits(song)[off + 1] && part[2] == Bits(song)[off + 2] && part[3] == Bits(song)[off + 3];
    EndFirst(part, p);
  }

  lemma FirstBits(data: Bytes, i: nat)
    requires i < |data| && data[i] == 0xE0
    ensures var bits := Bits(data); bits[8 * i] && bits[8 * i + 1] && bits[8 * i + 2] && !bits[8 * i + 3]
  {
    BitOf(data, 8 * i);
    BitOf(data, 8 * i + 1);
    BitOf(data, 8 * i + 2);
    BitOf(data, 8 * i + 3);
  }

  lemma ZeroByte8(b: bv8)
    requires forall k: nat :: k < 8 ==> !Bit(b, k)
    ensures U8(b) == 0
  {
    hide Bit;
  }

  /** Behind its first byte the repaired packet is zero: the second free atom has size 0. */
  lemma {:induction false} LosingAfter(pad: Bytes, p: Params)
    requires Writable(p) && |pad| < 0x1000_0000
    ensures var after := After(Losing(pad, p), [Packet(8 + |pad|, 5, p)]);
      |after| == 233 + |pad| && BE32(after, 9 + |pad|) == 0
  {
    hide Losing, HeaderAt, Lacks, BodyEnd, After, U8, Bit;
    var song, pk := Losing(pad, p), Packet(8 + |pad|, 5, p);
    var after := After(song, [pk]);
    LosingBytes(pad, p);
    LosingPacket(pad, p);
    forall j | 9 + |pad| <= j < 13 + |pad|
      ensures U8(after[j]) == 0
    {
      forall k: nat | k < 8
        ensures !Bit(after[j], k)
      {
        AfterBit(song, [pk], j, k);
      }
      ZeroByte8(after[j]);
    }
  }

  /** A family of songs, the packet clear of moov, whose repair has no moov: the free
      atom in front of it has become one that runs to the end of the file. */
  lemma {:induction false} Lost(pad: Bytes, p: Params)
    requires Writable(p) && Usable(p) && |pad| < 0x1000_0000
    ensures var song := Losing(pad, p);
      && Packed(song) && FilePackets(song) == Some([Packet(8 + |pad|, 5, p)])
      && var out := After(song, FilePackets(song).value);
      RepairOf(song, out, 1) && FilePackets(out).None? && !RepairOf(out, out, 0)
  {
    hide Losing, HeaderAt, Lacks, BodyEnd, After, FilePackets, Child, BE32, FixAll;
    var song, pk := Losing(pad, p), Packet(8 + |pad|, 5, p);
    var out := After(song, [pk]);
    LosingRead(pad, p);
    LosingBytes(pad, p);
    LosingPacket(pad, p);
    LosingAfter(pad, p);
    assert [pk][..0] == [];
    RepairIsAfter(song, out, 1);
    BytesKept(song, out, 1, 0, 8);
    BytesKept(song, out, 1, 13 + |pad|, 17 + |pad|);
    HeaderLocal(song, out, 0, |song|);
    assert out[13 + |pad|..17 + |pad|] == song[13 + |pad|..17 + |pad|];
    NoMoov(out, 9 + |pad|);
  }

  lemma {:induction false} NoMoov(out: Bytes, at: nat)
    requires 8 <= at && at + 8 <= |out| && HeaderAt(out, 0, |out|) == Some(Header(at, 8)) && out[4..8] == FREE
    requires BE32(out, at) == 0 && out[at + 4..at + 8] == FREE
    ensures Child(out, 0, |out|, MOOV).None? && FilePackets(out).None?
  {
    hide HeaderAt, BE32, Child;
    assert FREE[0] != MOOV[0];
    RunsToEnd(out, at);
    assert FirstAt(out, |out|, |out|, MOOV).None?;
    assert FirstAt(out, at, |out|, MOOV).None?;
    FirstIsChild(out, 0, |out|, MOOV);
  }

  lemma RunsToEnd(data: Bytes, at: nat)
    requires at + 8 <= |data| && BE32(data, at) == 0
    ensures HeaderAt(data, at, |data|) == Some(Header(|data| - at, 8))
  {
    hide BE32;
  }
}

/** Reading one file out of an ext4 image (internal/ext4/ext4.go): indirect blocks
    and extent trees against block-by-block resolution. The image does not change
    and every read inside it succeeds. */
module Ext4 {
  import opened Wrappers

  function LE16(b: seq<Byte>, at: nat): nat
    requires at + 2 <= |b|
  {
    b[at] as nat + 256 * (b[at + 1] as nat)
  }

  function LE32(b: seq<Byte>, at: nat): nat
    requires at + 4 <= |b|
  {
    LE16(b, at) + 65536 * LE16(b, at + 2)
  }

  /** blocks is the superblock's count. */
  datatype Image = Image(data: seq<Byte>, blockSize: nat, blocks: nat) {
    predicate Valid() {
      blockSize >= 1024 && blockSize % 4 == 0
    }

    /** block: one whole block inside both the filesystem and the image. */
    function Block(n: nat): (b: Option<seq<Byte>>)
      ensures b.Some? ==> |b.value| == blockSize
    {
      if n >= blocks || (n + 1) * blockSize > |data| then None
      else
        assert (n + 1) * blockSize == n * blockSize + blockSize;
        Some(data[n * blockSize..(n + 1) * blockSize])
    }

    function PerBlock(): nat { blockSize / 4 }

    /** The i-th pointer of a block. */
    function Pointer(b: seq<Byte>, i: nat): nat
      requires 4 * i + 4 <= |b|
    {
      LE32(b, 4 * i)
    }
  }

  // ---- Writing blocks into the file

  /** Byte j of logical block n. */
  function Pos(n: nat, j: nat, size: nat): nat {
    n * size + j
  }

  lemma {:induction false} PosDistinct(n: nat, j: nat, m: nat, k: nat, size: nat)
    requires j < size && k < size && n < m
    ensures Pos(n, j, size) < Pos(m, k, size)
  {
    assert m * size >= (n + 1) * size;
  }

  /** length blocks of the file from logical on are the image's from start on. */
  datatype Extent = Extent(logical: nat, start: nat, length: nat) {
    predicate Covers(n: nat) {
      logical <= n < logical + length
    }

    function At(n: nat): nat
      requires Covers(n)
    {
      start + (n - logical)
    }
  }

  /** Where block n comes from once the extents are placed in order. */
  function Mapped(exts: seq<Extent>, n: nat): Option<nat> {
    if exts == [] then None
    else
      var last := exts[|exts| - 1];
      if last.Covers(n) then Some(last.At(n)) else Mapped(exts[..|exts| - 1], n)
  }

  /** out is the file: byte j of block n is that of the block it is mapped to, and zero
      where it is mapped to none. */
  ghost predicate Reads(img: Image, out: seq<Byte>, exts: seq<Extent>) {
    forall n: nat, j: nat :: j < img.blockSize && Pos(n, j, img.blockSize) < |out| ==>
      match Mapped(exts, n)
      case None => out[Pos(n, j, img.blockSize)] == 0
      case Some(p) => img.Block(p).Some? && out[Pos(n, j, img.blockSize)] == img.Block(p).value[j]
  }

  /** Every block of e that falls inside a file of size bytes can be read. */
  ghost predicate Readable(img: Image, e: Extent, size: nat) {
    forall n: nat :: e.Covers(n) && Pos(n, 0, img.blockSize) < size ==> img.Block(e.At(n)).Some?
  }

  /** The bytes of out that one placed block determines. */
  ghost predicate Placed(img: Image, was: seq<Byte>, now: seq<Byte>, logical: nat, b: seq<Byte>)
    requires |b| == img.blockSize
  {
    && |now| == |was|
    && forall n: nat, j: nat :: j < img.blockSize && Pos(n, j, img.blockSize) < |was| ==>
         now[Pos(n, j, img.blockSize)] == if n == logical then b[j] else was[Pos(n, j, img.blockSize)]
  }

  /** copy(out[at:], b). */
  method CopyBlock(img: Image, out: array<Byte>, logical: nat, b: seq<Byte>)
    requires |b| == img.blockSize && Pos(logical, 0, img.blockSize) < out.Length
    modifies out
    ensures Placed(img, old(out[..]), out[..], logical, b)
  {
    var at := Pos(logical, 0, img.blockSize);
    ghost var was := out[..];
    var k := 0;
    while k < |b| && at + k < out.Length
      invariant 0 <= k <= |b| && at + k <= out.Length
      invariant forall i :: 0 <= i < out.Length ==> out[i] == if at <= i < at + k then b[i - at] else was[i]
    {
      out[at + k] := b[k];
      k := k + 1;
    }
    forall n: nat, j: nat | j < img.blockSize && Pos(n, j, img.blockSize) < |was|
      ensures out[..][Pos(n, j, img.blockSize)] == if n == logical then b[j] else was[Pos(n, j, img.blockSize)]
    {
      if n < logical {
        PosDistinct(n, j, logical, 0, img.blockSize);
      } else if n > logical {
        PosDistinct(logical, img.blockSize - 1, n, j, img.blockSize);
      }
    }
  }

  lemma {:induction false} OneMoreBlock(img: Image, was: seq<Byte>, now: seq<Byte>, exts: seq<Extent>, e: Extent, i: nat, b: seq<Byte>)
    requires i < e.length && img.Block(e.start + i) == Some(b)
    requires Reads(img, was, exts + [e.(length := i)]) && Placed(img, was, now, e.logical + i, b)
    ensures Reads(img, now, exts + [e.(length := i + 1)])
  {
    var before, after := exts + [e.(length := i)], exts + [e.(length := i + 1)];
    assert before[..|exts|] == exts && after[..|exts|] == exts;
    forall n: nat
      ensures Mapped(after, n) == if n == e.logical + i then Some(e.start + i) else Mapped(before, n)
    {
    }
  }

  lemma {:induction false} NoBlocks(img: Image, out: seq<Byte>, exts: seq<Extent>, e: Extent)
    requires e.length == 0 && Reads(img, out, exts)
    ensures Reads(img, out, exts + [e])
  {
    assert (exts + [e])[..|exts|] == exts;
  }

  /** Blocks beyond the end of the file do not show in it. */
  lemma {:induction false} TailUnseen(img: Image, out: seq<Byte>, exts: seq<Extent>, e: Extent, i: nat)
    requires i <= e.length && img.blockSize > 0 && Pos(e.logical + i, 0, img.blockSize) >= |out|
    requires Reads(img, out, exts + [e.(length := i)])
    ensures Reads(img, out, exts + [e])
  {
    var before, after := exts + [e.(length := i)], exts + [e];
    assert before[..|exts|] == exts && after[..|exts|] == exts;
    forall n: nat, j: nat | j < img.blockSize && Pos(n, j, img.blockSize) < |out|
      ensures Mapped(after, n) == Mapped(before, n)
    {
      if n >= e.logical + i {
        BeyondEnd(n, j, e.logical + i, img.blockSize);
      }
    }
  }

  lemma BeyondEnd(n: nat, j: nat, m: nat, size: nat)
    requires n >= m
    ensures Pos(n, j, size) >= Pos(m, 0, size)
  {
    assert n * size >= m * size;
  }

  /** place. */
  method Place(img: Image, out: array<Byte>, e: Extent, ghost exts: seq<Extent>) returns (ok: bool)
    requires img.Valid() && Reads(img, out[..], exts)
    modifies out
    ensures ok <==> Readable(img, e, out.Length)
    ensures ok ==> Reads(img, out[..], exts + [e])
  {
    hide Reads, Placed, Mapped, Pos;
    NoBlocks(img, out[..], exts, e.(length := 0));
    var i := 0;
    while i < e.length
      invariant 0 <= i <= e.length
      invariant Reads(img, out[..], exts + [e.(length := i)])
      invariant forall n: nat :: e.logical <= n < e.logical + i ==> img.Block(e.At(n)).Some?
    {
      if Pos(e.logical + i, 0, img.blockSize) >= out.Length {
        TailUnseen(img, out[..], exts, e, i);
        TailReadable(img, e, i, out.Length);
        return true;
      }
      var b := img.Block(e.start + i);
      if b.None? {
        assert e.Covers(e.logical + i) && img.Block(e.At(e.logical + i)).None?;
        return false;
      }
      ghost var was := out[..];
      CopyBlock(img, out, e.logical + i, b.value);
      OneMoreBlock(img, was, out[..], exts, e, i, b.value);
      i := i + 1;
    }
    assert e.(length := i) == e;
    return true;
  }

  lemma {:induction false} TailReadable(img: Image, e: Extent, i: nat, size: nat)
    requires i <= e.length && Pos(e.logical + i, 0, img.blockSize) >= size
    requires forall n: nat :: e.logical <= n < e.logical + i ==> img.Block(e.At(n)).Some?
    ensures Readable(img, e, size)
  {
    forall n: nat | e.Covers(n) && Pos(n, 0, img.blockSize) < size
      ensures img.Block(e.At(n)).Some?
    {
      if n >= e.logical + i {
        BeyondEnd(n, 0, e.logical + i, img.blockSize);
      }
    }
  }

  // ---- Indirect blocks

  /** Blocks under one pointer of the given level. */
  function Span(per: nat, level: nat): (n: nat)
    ensures per > 0 ==> n > 0
  {
    if level == 0 then 1 else per * Span(per, level - 1)
  }

  datatype Target = Hole | Unreadable | At(block: nat)

  /** Block-by-block resolution: the off-th block under pointer ptr. */
  function Resolve(img: Image, ptr: nat, level: nat, off: nat): Target
    requires img.Valid()
    decreases level
  {
    if ptr == 0 then Hole
    else if level == 0 then At(ptr)
    else
      match img.Block(ptr)
      case None => Unreadable
      case Some(b) =>
        var s := Span(img.PerBlock(), level - 1);
        if off / s >= img.PerBlock() then Hole else Resolve(img, img.Pointer(b, off / s), level - 1, off % s)
  }

  /** What walk places under ptr, in order; none when it fails on an indirect block. */
  function Walk(img: Image, ptr: nat, level: nat, logical: nat, want: nat): Option<seq<Extent>>
    requires img.Valid()
    decreases level, 0
  {
    if ptr == 0 || logical >= want then Some([])
    else if level == 0 then Some([Extent(logical, ptr, 1)])
    else
      match img.Block(ptr)
      case None => None
      case Some(b) => WalkPointers(img, b, img.PerBlock(), level, logical, want)
  }

  /** The first n pointers of an indirect block of the given level. */
  function WalkPointers(img: Image, b: seq<Byte>, n: nat, level: nat, logical: nat, want: nat): Option<seq<Extent>>
    requires img.Valid() && level > 0 && |b| == img.blockSize && n <= img.PerBlock()
    decreases level - 1, n + 1
  {
    if n == 0 then Some([])
    else
      var before := WalkPointers(img, b, n - 1, level, logical, want);
      var here := Walk(img, img.Pointer(b, n - 1), level - 1, logical + Under(img.PerBlock(), level, n - 1), want);
      if before.None? || here.None? then None else Some(before.value + here.value)
  }

  /** One-block extents in strictly ascending order, from lo up to hi. */
  predicate Between(exts: seq<Extent>, lo: nat, hi: nat) {
    && (forall i :: 0 <= i < |exts| ==> lo <= exts[i].logical < hi && exts[i].length == 1)
    && (forall i, k :: 0 <= i < k < |exts| ==> exts[i].logical < exts[k].logical)
  }

  /** exts places block n of the file exactly as t says. */
  ghost predicate Agrees(exts: seq<Extent>, n: nat, t: Target) {
    match t
    case Hole => Mapped(exts, n).None?
    case Unreadable => false
    case At(p) => Mapped(exts, n) == Some(p)
  }

  lemma {:induction false} MappedConcat(a: seq<Extent>, b: seq<Extent>, n: nat)
    ensures Mapped(a + b, n) == if Mapped(b, n).Some? then Mapped(b, n) else Mapped(a, n)
  {
    if b == [] {
      assert a + b == a;
    } else {
      assert (a + b)[..|a + b| - 1] == a + b[..|b| - 1];
      MappedConcat(a, b[..|b| - 1], n);
    }
  }

  lemma {:induction false} MappedOutside(exts: seq<Extent>, lo: nat, hi: nat, n: nat)
    requires Between(exts, lo, hi) && (n < lo || hi <= n)
    ensures Mapped(exts, n).None?
  {
    if exts != [] {
      MappedOutside(exts[..|exts| - 1], lo, hi, n);
    }
  }

  lemma {:induction false} BetweenConcat(a: seq<Extent>, b: seq<Extent>, lo: nat, mid: nat, hi: nat)
    requires lo <= mid <= hi && Between(a, lo, mid) && Between(b, mid, hi)
    ensures Between(a + b, lo, hi)
  {
  }

  /** Blocks under the first n pointers of an indirect block of the given level. */
  function Under(per: nat, level: nat, n: nat): nat
    requires level > 0
  {
    n * Span(per, level - 1)
  }

  lemma UnderStep(per: nat, level: nat, n: nat)
    requires level > 0
    ensures Under(per, level, 0) == 0
    ensures Under(per, level, n + 1) == Under(per, level, n) + Span(per, level - 1)
    ensures Under(per, level, per) == Span(per, level)
  {
  }

  lemma MulLess(a: int, b: int, s: nat)
    requires a * s < b * s
    ensures a < b
  {
    assert a >= b ==> (a - b) * s >= 0;
  }

  lemma DivMod(i: nat, s: nat, r: nat)
    requires r < s
    ensures (i * s + r) / s == i && (i * s + r) % s == r
  {
    var q, m := (i * s + r) / s, (i * s + r) % s;
    assert q * s + m == i * s + r;
    MulLess(q, i + 1, s);
    MulLess(i, q + 1, s);
  }

  /** The block off blocks into what ptr maps from logical on is placed as it resolves
      when it is below want, and not at all otherwise. */
  ghost predicate Exact(img: Image, exts: seq<Extent>, logical: nat, off: nat, want: nat, ptr: nat, level: nat)
    requires img.Valid()
  {
    if logical + off < want then Agrees(exts, logical + off, Resolve(img, ptr, level, off))
    else Mapped(exts, logical + off).None?
  }

  /** Under one pointer: exactly the blocks below want whose resolution is non-zero are
      placed, once each, in order, with the block they resolve to. */
  lemma {:induction false} WalkExact(img: Image, ptr: nat, level: nat, logical: nat, want: nat)
    requires img.Valid() && Walk(img, ptr, level, logical, want).Some?
    ensures var exts := Walk(img, ptr, level, logical, want).value;
      && Between(exts, logical, logical + Span(img.PerBlock(), level))
      && forall off: nat :: off < Span(img.PerBlock(), level) ==> Exact(img, exts, logical, off, want, ptr, level)
    decreases level, 0
  {
    if ptr != 0 && logical < want {
      if level == 0 {
        assert Mapped([Extent(logical, ptr, 1)], logical) == Some(ptr);
      } else {
        PointersExact(img, ptr, img.PerBlock(), level, logical, want);
        UnderStep(img.PerBlock(), level, 0);
      }
    }
  }

  lemma {:induction false} PointersExact(img: Image, ptr: nat, n: nat, level: nat, logical: nat, want: nat)
    requires img.Valid() && ptr != 0 && level > 0 && n <= img.PerBlock() && img.Block(ptr).Some?
    requires WalkPointers(img, img.Block(ptr).value, n, level, logical, want).Some?
    ensures var exts := WalkPointers(img, img.Block(ptr).value, n, level, logical, want).value;
      && Between(exts, logical, logical + Under(img.PerBlock(), level, n))
      && forall off: nat :: off < Under(img.PerBlock(), level, n) ==> Exact(img, exts, logical, off, want, ptr, level)
    decreases level - 1, n + 1
  {
    hide Agrees, Between, Resolve, Exact, Mapped, Span, Under, Walk;
    var per, s := img.PerBlock(), Span(img.PerBlock(), level - 1);
    NothingBetween(logical);
    UnderStep(per, level, 0);
    if n > 0 {
      var b := img.Block(ptr).value;
      var skipped := Under(per, level, n - 1);
      var child := img.Pointer(b, n - 1);
      PointersExact(img, ptr, n - 1, level, logical, want);
      WalkExact(img, child, level - 1, logical + skipped, want);
      var before := WalkPointers(img, b, n - 1, level, logical, want).value;
      var here := Walk(img, child, level - 1, logical + skipped, want).value;
      UnderStep(per, level, n - 1);
      BetweenConcat(before, here, logical, logical + skipped, logical + skipped + s);
      forall off: nat | off < skipped + s
        ensures Exact(img, before + here, logical, off, want, ptr, level)
      {
        if off < skipped {
          ExactBefore(img, before, here, logical, skipped, s, off, want, ptr, level);
        } else {
          ResolveChild(img, ptr, level, n - 1, skipped, off);
          assert Exact(img, here, logical + skipped, off - skipped, want, child, level - 1);
          ExactHere(img, before, here, logical, skipped, s, off, want, ptr, level, child);
        }
      }
    }
  }

  lemma {:induction false} ResolveChild(img: Image, ptr: nat, level: nat, i: nat, skipped: nat, off: nat)
    requires img.Valid() && ptr != 0 && level > 0 && i < img.PerBlock() && img.Block(ptr).Some?
    requires skipped == Under(img.PerBlock(), level, i) && skipped <= off < skipped + Span(img.PerBlock(), level - 1)
    ensures Resolve(img, ptr, level, off) == Resolve(img, img.Pointer(img.Block(ptr).value, i), level - 1, off - skipped)
  {
    DivMod(i, Span(img.PerBlock(), level - 1), off - skipped);
    assert i * Span(img.PerBlock(), level - 1) + (off - skipped) == off;
  }

  lemma NothingBetween(lo: nat)
    ensures Between([], lo, lo)
  {
  }

  lemma {:induction false} ExactBefore(img: Image, before: seq<Extent>, here: seq<Extent>, logical: nat, skipped: nat, s: nat,
                                       off: nat, want: nat, ptr: nat, level: nat)
    requires img.Valid() && off < skipped && Between(here, logical + skipped, logical + skipped + s)
    requires Exact(img, before, logical, off, want, ptr, level)
    ensures Exact(img, before + here, logical, off, want, ptr, level)
  {
    MappedConcat(before, here, logical + off);
    MappedOutside(here, logical + skipped, logical + skipped + s, logical + off);
  }

  lemma {:induction false} ExactHere(img: Image, before: seq<Extent>, here: seq<Extent>, logical: nat, skipped: nat, s: nat,
                                     off: nat, want: nat, ptr: nat, level: nat, child: nat)
    requires img.Valid() && skipped <= off && level > 0 && Between(before, logical, logical + skipped)
    requires Resolve(img, ptr, level, off) == Resolve(img, child, level - 1, off - skipped)
    requires Exact(img, here, logical + skipped, off - skipped, want, child, level - 1)
    ensures Exact(img, before + here, logical, off, want, ptr, level)
  {
    hide Resolve;
    MappedConcat(before, here, logical + off);
    MappedOutside(before, logical, logical + skipped, logical + off);
  }

  /** When walk fails on an indirect block, some block below want resolves through it. */
  lemma {:induction false} WalkFails(img: Image, ptr: nat, level: nat, logical: nat, want: nat) returns (off: nat)
    requires img.Valid() && Walk(img, ptr, level, logical, want).None?
    ensures off < Span(img.PerBlock(), level) && logical + off < want && Resolve(img, ptr, level, off).Unreadable?
    decreases level, 0
  {
    if img.Block(ptr).None? {
      off := 0;
    } else {
      off := PointersFail(img, ptr, img.PerBlock(), level, logical, want);
      UnderStep(img.PerBlock(), level, 0);
    }
  }

  lemma {:induction false} PointersFail(img: Image, ptr: nat, n: nat, level: nat, logical: nat, want: nat) returns (off: nat)
    requires img.Valid() && ptr != 0 && level > 0 && n <= img.PerBlock() && img.Block(ptr).Some?
    requires WalkPointers(img, img.Block(ptr).value, n, level, logical, want).None?
    ensures off < Under(img.PerBlock(), level, n) && logical + off < want && Resolve(img, ptr, level, off).Unreadable?
    decreases level - 1, n + 1
  {
    hide Resolve, Span, Under, Walk;
    var b := img.Block(ptr).value;
    UnderStep(img.PerBlock(), level, n - 1);
    if WalkPointers(img, b, n - 1, level, logical, want).None? {
      off := PointersFail(img, ptr, n - 1, level, logical, want);
    } else {
      var skipped := Under(img.PerBlock(), level, n - 1);
      var inner := WalkFails(img, img.Pointer(b, n - 1), level - 1, logical + skipped, want);
      off := skipped + inner;
      ResolveChild(img, ptr, level, n - 1, skipped, off);
    }
  }

  // ---- The fifteen pointers of an inode

  function Level(slot: nat): nat {
    if slot < 12 then 0 else slot - 11
  }

  /** The first logical block of a slot. */
  function Start(per: nat, slot: nat): nat {
    if slot == 0 then 0 else Start(per, slot - 1) + Span(per, Level(slot - 1))
  }

  /** The n-th block of the slots from slot on: twelve direct pointers, then the single,
      double and triple indirect one; beyond them a hole. */
  function ResolveFrom(img: Image, ptrs: seq<Byte>, slot: nat, n: nat): Target
    requires img.Valid() && |ptrs| == 60 && slot <= 15
    decreases 15 - slot
  {
    if slot == 15 then Hole
    else
      var span := Span(img.PerBlock(), Level(slot));
      if n < span then Resolve(img, LE32(ptrs, 4 * slot), Level(slot), n)
      else ResolveFrom(img, ptrs, slot + 1, n - span)
  }

  function ResolveBlock(img: Image, ptrs: seq<Byte>, n: nat): Target
    requires img.Valid() && |ptrs| == 60
  {
    ResolveFrom(img, ptrs, 0, n)
  }

  function WalkSlots(img: Image, ptrs: seq<Byte>, slots: nat, want: nat): Option<seq<Extent>>
    requires img.Valid() && |ptrs| == 60 && slots <= 15
  {
    if slots == 0 then Some([])
    else
      var before := WalkSlots(img, ptrs, slots - 1, want);
      var here := Walk(img, LE32(ptrs, 4 * (slots - 1)), Level(slots - 1), Start(img.PerBlock(), slots - 1), want);
      if before.None? || here.None? then None else Some(before.value + here.value)
  }

  lemma {:induction false} SlotOf(img: Image, ptrs: seq<Byte>, slot: nat, at: nat, off: nat)
    requires img.Valid() && |ptrs| == 60 && at <= slot < 15 && off < Span(img.PerBlock(), Level(slot))
    ensures Start(img.PerBlock(), at) <= Start(img.PerBlock(), slot)
    ensures ResolveFrom(img, ptrs, at, Start(img.PerBlock(), slot) - Start(img.PerBlock(), at) + off)
         == Resolve(img, LE32(ptrs, 4 * slot), Level(slot), off)
    decreases slot - at
  {
    hide Resolve, Span;
    if at < slot {
      SlotOf(img, ptrs, slot, at + 1, off);
    }
  }

  lemma {:induction false} BeyondSlots(img: Image, ptrs: seq<Byte>, at: nat, n: nat)
    requires img.Valid() && |ptrs| == 60 && at <= 15 && Start(img.PerBlock(), at) + n >= Start(img.PerBlock(), 15)
    ensures ResolveFrom(img, ptrs, at, n) == Hole
    decreases 15 - at
  {
    hide Resolve, Span;
    if at < 15 {
      StartGrows(img.PerBlock(), at + 1, 15);
      BeyondSlots(img, ptrs, at + 1, n - Span(img.PerBlock(), Level(at)));
    }
  }

  lemma {:induction false} StartGrows(per: nat, a: nat, b: nat)
    requires a <= b
    ensures Start(per, a) <= Start(per, b)
    decreases b
  {
    hide Span;
    if a < b {
      StartGrows(per, a, b - 1);
    }
  }

  ghost predicate BlockExact(img: Image, ptrs: seq<Byte>, exts: seq<Extent>, n: nat, want: nat)
    requires img.Valid() && |ptrs| == 60
  {
    if n < want then Agrees(exts, n, ResolveBlock(img, ptrs, n)) else Mapped(exts, n).None?
  }

  lemma {:induction false} SlotsExact(img: Image, ptrs: seq<Byte>, slots: nat, want: nat)
    requires img.Valid() && |ptrs| == 60 && slots <= 15 && WalkSlots(img, ptrs, slots, want).Some?
    ensures var exts := WalkSlots(img, ptrs, slots, want).value;
      && Between(exts, 0, Start(img.PerBlock(), slots))
      && forall n: nat :: n < Start(img.PerBlock(), slots) ==> BlockExact(img, ptrs, exts, n, want)
  {
    hide Resolve, ResolveFrom, Span, Walk, Mapped, Between, Agrees;
    NothingBetween(0);
    if slots > 0 {
      var per, slot := img.PerBlock(), slots - 1;
      var start, span := Start(per, slot), Span(per, Level(slot));
      var ptr := LE32(ptrs, 4 * slot);
      SlotsExact(img, ptrs, slot, want);
      WalkExact(img, ptr, Level(slot), start, want);
      var before := WalkSlots(img, ptrs, slot, want).value;
      var here := Walk(img, ptr, Level(slot), start, want).value;
      BetweenConcat(before, here, 0, start, start + span);
      forall n: nat | n < start + span
        ensures BlockExact(img, ptrs, before + here, n, want)
      {
        MappedConcat(before, here, n);
        if n < start {
          MappedOutside(here, start, start + span, n);
          assert BlockExact(img, ptrs, before, n, want);
          SameAgrees(before, before + here, n, ResolveBlock(img, ptrs, n));
        } else {
          MappedOutside(before, 0, start, n);
          SlotOf(img, ptrs, slot, 0, n - start);
          NoStart(per);
          assert Exact(img, here, start, n - start, want, ptr, Level(slot));
          SameAgrees(here, before + here, n, ResolveBlock(img, ptrs, n));
        }
      }
    }
  }

  lemma SameAgrees(a: seq<Extent>, b: seq<Extent>, n: nat, t: Target)
    requires Mapped(a, n) == Mapped(b, n)
    ensures Agrees(a, n, t) == Agrees(b, n, t)
  {
  }

  /** The whole block map: every logical block below want is placed exactly when its
      resolution is non-zero, once, with the block it resolves to; no other is. */
  lemma {:induction false} BlockMapExact(img: Image, ptrs: seq<Byte>, want: nat)
    requires img.Valid() && |ptrs| == 60 && WalkSlots(img, ptrs, 15, want).Some?
    ensures var exts := WalkSlots(img, ptrs, 15, want).value;
      && (forall i, k :: 0 <= i < k < |exts| ==> exts[i].logical < exts[k].logical)
      && (forall i :: 0 <= i < |exts| ==> exts[i].length == 1)
      && forall n: nat :: BlockExact(img, ptrs, exts, n, want)
  {
    hide Resolve, ResolveFrom, Span, WalkSlots, Start, Mapped;
    var exts := WalkSlots(img, ptrs, 15, want).value;
    var end := Start(img.PerBlock(), 15);
    SlotsExact(img, ptrs, 15, want);
    forall n: nat
      ensures BlockExact(img, ptrs, exts, n, want)
    {
      if n >= end {
        MappedOutside(exts, 0, end, n);
        NoStart(img.PerBlock());
        BeyondSlots(img, ptrs, 0, n);
      }
    }
  }

  lemma NoStart(per: nat)
    ensures Start(per, 0) == 0
  {
  }

  lemma {:induction false} SlotsFail(img: Image, ptrs: seq<Byte>, slots: nat, want: nat) returns (n: nat)
    requires img.Valid() && |ptrs| == 60 && slots <= 15 && WalkSlots(img, ptrs, slots, want).None?
    ensures n < want && ResolveBlock(img, ptrs, n).Unreadable?
  {
    hide Resolve, ResolveFrom, Span, Walk;
    if WalkSlots(img, ptrs, slots - 1, want).None? {
      n := SlotsFail(img, ptrs, slots - 1, want);
    } else {
      var start := Start(img.PerBlock(), slots - 1);
      var off := WalkFails(img, LE32(ptrs, 4 * (slots - 1)), Level(slots - 1), start, want);
      n := start + off;
      SlotOf(img, ptrs, slots - 1, 0, off);
      NoStart(img.PerBlock());
    }
  }

  ghost predicate AllReadable(img: Image, exts: seq<Extent>, size: nat) {
    forall i :: 0 <= i < |exts| ==> Readable(img, exts[i], size)
  }

  lemma {:induction false} ReadableConcat(img: Image, a: seq<Extent>, b: seq<Extent>, size: nat)
    ensures AllReadable(img, a + b, size) <==> AllReadable(img, a, size) && AllReadable(img, b, size)
  {
    hide Readable;
    if AllReadable(img, a + b, size) {
      assert forall i :: 0 <= i < |a| ==> (a + b)[i] == a[i];
      assert forall i :: 0 <= i < |b| ==> (a + b)[|a| + i] == b[i];
    }
  }

  /** walk, placing as it goes. */
  method WalkTree(img: Image, out: array<Byte>, ptr: nat, level: nat, logical: nat, want: nat, ghost exts: seq<Extent>) returns (ok: bool)
    requires img.Valid() && Reads(img, out[..], exts)
    modifies out
    ensures var w := Walk(img, ptr, level, logical, want);
      && (ok <==> w.Some? && AllReadable(img, w.value, out.Length))
      && (ok ==> Reads(img, out[..], exts + w.value))
    decreases level
  {
    hide Reads, Readable, Span, Mapped;
    if ptr == 0 || logical >= want {
      assert exts + [] == exts;
      return true;
    }
    if level == 0 {
      ghost var one := [Extent(logical, ptr, 1)];
      assert AllReadable(img, one, out.Length) <==> Readable(img, one[0], out.Length);
      ok := Place(img, out, Extent(logical, ptr, 1), exts);
      return;
    }
    var b := img.Block(ptr);
    if b.None? {
      return false;
    }
    var per := img.PerBlock();
    var span := Span(per, level - 1);
    ghost var done: seq<Extent> := [];
    assert exts + done == exts;
    var i := 0;
    while i < per
      invariant 0 <= i <= per
      invariant WalkPointers(img, b.value, i, level, logical, want) == Some(done)
      invariant AllReadable(img, done, out.Length) && Reads(img, out[..], exts + done)
    {
      ok := WalkTree(img, out, img.Pointer(b.value, i), level - 1, logical + i * span, want, exts + done);
      ghost var here := Walk(img, img.Pointer(b.value, i), level - 1, logical + i * span, want);
      if !ok {
        PrefixFails(img, b.value, i, per, level, logical, want, out.Length);
        return false;
      }
      ReadableConcat(img, done, here.value, out.Length);
      assert exts + done + here.value == exts + (done + here.value);
      done := done + here.value;
      i := i + 1;
    }
    return true;
  }

  /** A failure under one pointer is a failure of the whole block. */
  lemma {:induction false} PrefixFails(img: Image, b: seq<Byte>, i: nat, n: nat, level: nat, logical: nat, want: nat, size: nat)
    requires img.Valid() && level > 0 && |b| == img.blockSize && i < n <= img.PerBlock()
    requires var w := Walk(img, img.Pointer(b, i), level - 1, logical + i * Span(img.PerBlock(), level - 1), want);
      w.None? || !AllReadable(img, w.value, size)
    ensures var w := WalkPointers(img, b, n, level, logical, want); w.None? || !AllReadable(img, w.value, size)
    decreases n
  {
    hide AllReadable, Span, Walk;
    var w := WalkPointers(img, b, n, level, logical, want);
    if w.Some? {
      var before := WalkPointers(img, b, n - 1, level, logical, want);
      var here := Walk(img, img.Pointer(b, n - 1), level - 1, logical + Under(img.PerBlock(), level, n - 1), want);
      ReadableConcat(img, before.value, here.value, size);
      if i < n - 1 {
        PrefixFails(img, b, i, n - 1, level, logical, want, size);
      }
    }
  }

  // ---- Extent trees

  const EXTENT_MAGIC := 0xf30a
  const MAX_DEPTH: nat := 5
  const BUDGET: nat := 4096
  const UNWRITTEN := 32768

  /** The initialized leaf extents in order, and the visits left. */
  datatype Tree = Corrupt | Leaves(exts: seq<Extent>, left: nat)

  function ExtentTree(img: Image, node: seq<Byte>, depthLeft: nat, budget: nat): (t: Tree)
    ensures t.Leaves? ==> |t.exts| + t.left <= budget
    decreases depthLeft, 1, 0
  {
    if |node| < 12 || LE16(node, 0) != EXTENT_MAGIC then Corrupt
    else
      var entries, depth := LE16(node, 2), LE16(node, 6);
      if 12 + 12 * entries > |node| || depth > depthLeft then Corrupt else Entries(img, node, entries, depth, budget)
  }

  /** Entry n of a leaf: none when it is unwritten, and so reads as zeros. */
  function LeafAt(node: seq<Byte>, n: nat): seq<Extent>
    requires 12 + 12 * n + 12 <= |node|
  {
    var at := 12 + 12 * n;
    var length := LE16(node, at + 4);
    if length > UNWRITTEN then []
    else [Extent(LE32(node, at), LE16(node, at + 6) * 0x1_0000_0000 + LE32(node, at + 8), length)]
  }

  function ChildAt(node: seq<Byte>, n: nat): nat
    requires 12 + 12 * n + 12 <= |node|
  {
    LE32(node, 12 + 12 * n + 4) + LE16(node, 12 + 12 * n + 8) * 0x1_0000_0000
  }

  /** The first n entries of a node of the given depth; each costs one visit. */
  function Entries(img: Image, node: seq<Byte>, n: nat, depth: nat, budget: nat): (t: Tree)
    requires 12 + 12 * n <= |node|
    ensures t.Leaves? ==> |t.exts| + t.left <= budget
    decreases depth, 0, n
  {
    if n == 0 then Leaves([], budget)
    else
      match Entries(img, node, n - 1, depth, budget)
      case Corrupt => Corrupt
      case Leaves(before, left) =>
        if left == 0 then Corrupt
        else if depth == 0 then Leaves(before + LeafAt(node, n - 1), left - 1)
        else
          match img.Block(ChildAt(node, n - 1))
          case None => Corrupt
          case Some(child) =>
            match ExtentTree(img, child, depth - 1, left - 1)
            case Corrupt => Corrupt
            case Leaves(more, rest) => Leaves(before + more, rest)
  }

  /** walkExtents, placing as it goes. */
  method WalkExtents(img: Image, out: array<Byte>, node: seq<Byte>, depthLeft: nat, budget: nat, ghost exts: seq<Extent>)
    returns (ok: bool, left: nat)
    requires img.Valid() && Reads(img, out[..], exts)
    modifies out
    ensures var t := ExtentTree(img, node, depthLeft, budget);
      && (ok <==> t.Leaves? && AllReadable(img, t.exts, out.Length))
      && (ok ==> left == t.left && Reads(img, out[..], exts + t.exts))
    decreases depthLeft
  {
    hide Reads, Readable, Mapped, LE32;
    left := budget;
    if |node| < 12 || LE16(node, 0) != EXTENT_MAGIC {
      return false, left;
    }
    var entries, depth := LE16(node, 2), LE16(node, 6);
    if 12 + 12 * entries > |node| || depth > depthLeft {
      return false, left;
    }
    ghost var done: seq<Extent> := [];
    assert exts + done == exts;
    var i := 0;
    while i < entries
      invariant 0 <= i <= entries
      invariant Entries(img, node, i, depth, budget) == Leaves(done, left)
      invariant AllReadable(img, done, out.Length) && Reads(img, out[..], exts + done)
    {
      ok, left := WalkEntry(img, out, node, i, depth, left, exts + done);
      ghost var here := EntryTree(img, node, i, depth, Entries(img, node, i, depth, budget).left);
      EntriesStep(img, node, i, depth, budget);
      if !ok {
        EntryFails(img, node, i, entries, depth, budget, out.Length);
        return false, left;
      }
      ReadableConcat(img, done, here.exts, out.Length);
      assert exts + done + here.exts == exts + (done + here.exts);
      done := done + here.exts;
      i := i + 1;
    }
    return true, left;
  }

  /** One entry alone, with left visits to spend. */
  function EntryTree(img: Image, node: seq<Byte>, n: nat, depth: nat, left: nat): Tree
    requires 12 + 12 * n + 12 <= |node|
    decreases depth, 0
  {
    if left == 0 then Corrupt
    else if depth == 0 then Leaves(LeafAt(node, n), left - 1)
    else if img.Block(ChildAt(node, n)).None? then Corrupt
    else ExtentTree(img, img.Block(ChildAt(node, n)).value, depth - 1, left - 1)
  }

  lemma {:induction false} EntriesStep(img: Image, node: seq<Byte>, n: nat, depth: nat, budget: nat)
    requires 12 + 12 * n + 12 <= |node| && Entries(img, node, n, depth, budget).Leaves?
    ensures var t := Entries(img, node, n, depth, budget);
      var here := EntryTree(img, node, n, depth, t.left);
      Entries(img, node, n + 1, depth, budget) == if here.Corrupt? then Corrupt else Leaves(t.exts + here.exts, here.left)
  {
    hide LeafAt, ChildAt, ExtentTree;
  }

  lemma {:induction false} EntryFails(img: Image, node: seq<Byte>, i: nat, n: nat, depth: nat, budget: nat, size: nat)
    requires i < n && 12 + 12 * n <= |node| && Entries(img, node, i, depth, budget).Leaves?
    requires var here := EntryTree(img, node, i, depth, Entries(img, node, i, depth, budget).left);
      here.Corrupt? || !AllReadable(img, here.exts, size)
    ensures var t := Entries(img, node, n, depth, budget); t.Corrupt? || !AllReadable(img, t.exts, size)
    decreases n
  {
    hide AllReadable, EntryTree, LeafAt, ChildAt, ExtentTree, LE16, LE32;
    if i < n - 1 {
      EntryFails(img, node, i, n - 1, depth, budget, size);
    }
    var before := Entries(img, node, n - 1, depth, budget);
    if before.Leaves? {
      EntriesStep(img, node, n - 1, depth, budget);
      var here := EntryTree(img, node, n - 1, depth, before.left);
      if here.Leaves? {
        ReadableConcat(img, before.exts, here.exts, size);
      }
    }
  }

  /** The loop body of walkExtents. */
  method WalkEntry(img: Image, out: array<Byte>, node: seq<Byte>, n: nat, depth: nat, budget: nat, ghost exts: seq<Extent>)
    returns (ok: bool, left: nat)
    requires img.Valid() && Reads(img, out[..], exts) && 12 + 12 * n + 12 <= |node|
    modifies out
    ensures var t := EntryTree(img, node, n, depth, budget);
      && (ok <==> t.Leaves? && AllReadable(img, t.exts, out.Length))
      && (ok ==> left == t.left && Reads(img, out[..], exts + t.exts))
    decreases depth, 0
  {
    hide Reads, Readable, Mapped, LE32;
    if budget == 0 {
      return false, 0;
    }
    left := budget - 1;
    if depth == 0 {
      var at := 12 + 12 * n;
      var length := LE16(node, at + 4);
      if length > UNWRITTEN {
        assert exts + [] == exts;
        return true, left;
      }
      var start := LE16(node, at + 6) * 0x1_0000_0000 + LE32(node, at + 8);
      var e := Extent(LE32(node, at), start, length);
      assert AllReadable(img, [e], out.Length) <==> Readable(img, [e][0], out.Length);
      ok := Place(img, out, e, exts);
      return ok, left;
    }
    var child := img.Block(ChildAt(node, n));
    if child.None? {
      return false, left;
    }
    ok, left := WalkExtents(img, out, child.value, depth - 1, left, exts);
  }

  /** Leaves that do not overlap each decide their own blocks, whatever their order. */
  predicate Apart(exts: seq<Extent>) {
    forall i, k :: 0 <= i < k < |exts| ==>
      exts[i].logical + exts[i].length <= exts[k].logical || exts[k].logical + exts[k].length <= exts[i].logical
  }

  lemma {:induction false} MappedByOwner(exts: seq<Extent>, i: nat, n: nat)
    requires Apart(exts) && i < |exts| && exts[i].Covers(n)
    ensures Mapped(exts, n) == Some(exts[i].At(n))
  {
    if i < |exts| - 1 {
      MappedByOwner(exts[..|exts| - 1], i, n);
    }
  }

  lemma {:induction false} MappedByNone(exts: seq<Extent>, n: nat)
    requires forall i :: 0 <= i < |exts| ==> !exts[i].Covers(n)
    ensures Mapped(exts, n).None?
  {
    if exts != [] {
      MappedByNone(exts[..|exts| - 1], n);
    }
  }

  /** Each byte of the file is the mapped image byte, or zero in a hole. */
  lemma {:induction false} ExtentBytes(img: Image, out: seq<Byte>, exts: seq<Extent>, n: nat, j: nat)
    requires Reads(img, out, exts) && Apart(exts)
    requires j < img.blockSize && Pos(n, j, img.blockSize) < |out|
    ensures forall i :: 0 <= i < |exts| && exts[i].Covers(n) ==>
      img.Block(exts[i].At(n)).Some? && out[Pos(n, j, img.blockSize)] == img.Block(exts[i].At(n)).value[j]
    ensures (forall i :: 0 <= i < |exts| ==> !exts[i].Covers(n)) ==> out[Pos(n, j, img.blockSize)] == 0
  {
    hide Reads, Mapped, Pos;
    ReadsAt(img, out, exts, n, j);
    forall i | 0 <= i < |exts| && exts[i].Covers(n)
      ensures Mapped(exts, n) == Some(exts[i].At(n))
    {
      MappedByOwner(exts, i, n);
    }
    if forall i :: 0 <= i < |exts| ==> !exts[i].Covers(n) {
      MappedByNone(exts, n);
    }
  }

  lemma ReadsAt(img: Image, out: seq<Byte>, exts: seq<Extent>, n: nat, j: nat)
    requires Reads(img, out, exts) && j < img.blockSize && Pos(n, j, img.blockSize) < |out|
    ensures match Mapped(exts, n)
      case None => out[Pos(n, j, img.blockSize)] == 0
      case Some(p) => img.Block(p).Some? && out[Pos(n, j, img.blockSize)] == img.Block(p).value[j]
  {
  }

  // ---- Contents

  datatype Inode = Inode(inline: bool, extents: bool, size: nat, block: seq<Byte>)

  datatype Error = Unsupported | BadStructure

  /** Byte j of block n of a block-mapped file. */
  ghost predicate MapByte(img: Image, out: seq<Byte>, ptrs: seq<Byte>, n: nat, j: nat)
    requires img.Valid() && |ptrs| == 60 && j < img.blockSize && Pos(n, j, img.blockSize) < |out|
  {
    match ResolveBlock(img, ptrs, n)
    case Hole => out[Pos(n, j, img.blockSize)] == 0
    case Unreadable => false
    case At(p) => img.Block(p).Some? && out[Pos(n, j, img.blockSize)] == img.Block(p).value[j]
  }

  function Wanted(size: nat, blockSize: nat): nat
    requires blockSize > 0
  {
    (size + blockSize - 1) / blockSize
  }

  lemma Scaled(a: nat, b: nat, size: nat)
    requires a <= b
    ensures a * size <= b * size
  {
  }

  lemma WantedBlocks(size: nat, blockSize: nat, n: nat)
    requires blockSize > 0
    ensures n < Wanted(size, blockSize) <==> Pos(n, 0, blockSize) < size
  {
    var w, m := Wanted(size, blockSize), (size + blockSize - 1) % blockSize;
    assert size + blockSize - 1 == w * blockSize + m;
    if n < w {
      Scaled(n + 1, w, blockSize);
      assert (n + 1) * blockSize == n * blockSize + blockSize;
    } else {
      Scaled(w, n, blockSize);
    }
  }

  /** walkBlockMap over a fresh file. It succeeds exactly when every logical block
      below the size resolves, and then every byte is the resolved block's, or zero. */
  method ReadBlockMap(img: Image, ptrs: seq<Byte>, out: array<Byte>) returns (ok: bool)
    requires img.Valid() && |ptrs| == 60 && forall k :: 0 <= k < out.Length ==> out[k] == 0
    modifies out
    ensures var w := WalkSlots(img, ptrs, 15, Wanted(out.Length, img.blockSize));
      && (ok <==> w.Some? && AllReadable(img, w.value, out.Length))
      && (ok ==> Reads(img, out[..], w.value))
  {
    hide Readable, Mapped, Walk, Span;
    var want := Wanted(out.Length, img.blockSize);
    var per := img.PerBlock();
    ghost var done: seq<Extent> := [];
    NothingPlaced(img, out[..]);
    hide Reads;
    var slot, logical := 0, 0;
    while slot < 15
      invariant 0 <= slot <= 15 && logical == Start(per, slot)
      invariant WalkSlots(img, ptrs, slot, want) == Some(done)
      invariant AllReadable(img, done, out.Length) && Reads(img, out[..], done)
    {
      var level := Level(slot);
      ok := WalkTree(img, out, LE32(ptrs, 4 * slot), level, logical, want, done);
      ghost var here := Walk(img, LE32(ptrs, 4 * slot), level, logical, want);
      slot := slot + 1;
      if !ok {
        SlotFails(img, ptrs, slot, 15, want, out.Length);
        return false;
      }
      ReadableConcat(img, done, here.value, out.Length);
      done := done + here.value;
      logical := logical + Span(per, level);
    }
    return true;
  }

  lemma NothingPlaced(img: Image, out: seq<Byte>)
    requires forall k :: 0 <= k < |out| ==> out[k] == 0
    ensures Reads(img, out, [])
  {
    assert forall n: nat :: Mapped([], n).None?;
  }

  lemma {:induction false} SlotFails(img: Image, ptrs: seq<Byte>, i: nat, n: nat, want: nat, size: nat)
    requires img.Valid() && |ptrs| == 60 && 0 < i <= n <= 15
    requires var w := Walk(img, LE32(ptrs, 4 * (i - 1)), Level(i - 1), Start(img.PerBlock(), i - 1), want);
      w.None? || !AllReadable(img, w.value, size)
    ensures var w := WalkSlots(img, ptrs, n, want); w.None? || !AllReadable(img, w.value, size)
    decreases n
  {
    hide AllReadable, Walk, Start;
    if i < n {
      SlotFails(img, ptrs, i, n - 1, want, size);
    }
    var before := WalkSlots(img, ptrs, n - 1, want);
    var here := Walk(img, LE32(ptrs, 4 * (n - 1)), Level(n - 1), Start(img.PerBlock(), n - 1), want);
    if before.Some? && here.Some? {
      ReadableConcat(img, before.value, here.value, size);
    }
  }

  /** What a successful block-map walk leaves in the file, block by block. */
  lemma {:induction false} BlockMapBytes(img: Image, ptrs: seq<Byte>, out: seq<Byte>, n: nat, j: nat)
    requires img.Valid() && |ptrs| == 60 && WalkSlots(img, ptrs, 15, Wanted(|out|, img.blockSize)).Some?
    requires Reads(img, out, WalkSlots(img, ptrs, 15, Wanted(|out|, img.blockSize)).value)
    requires j < img.blockSize && Pos(n, j, img.blockSize) < |out|
    ensures MapByte(img, out, ptrs, n, j)
  {
    hide Reads, WalkSlots, ResolveBlock, Mapped, Pos, Wanted;
    var want := Wanted(|out|, img.blockSize);
    BlockMapExact(img, ptrs, want);
    WantedBlocks(|out|, img.blockSize, n);
    StartBefore(n, j, img.blockSize);
    assert BlockExact(img, ptrs, WalkSlots(img, ptrs, 15, want).value, n, want);
    ReadsAt(img, out, WalkSlots(img, ptrs, 15, want).value, n, j);
  }

  /** Block n lies in the file and cannot be produced. */
  ghost predicate Broken(img: Image, ptrs: seq<Byte>, size: nat, n: nat)
    requires img.Valid() && |ptrs| == 60
  {
    && Pos(n, 0, img.blockSize) < size
    && match ResolveBlock(img, ptrs, n)
       case Hole => false
       case Unreadable => true
       case At(p) => img.Block(p).None?
  }

  /** A block-map walk fails only when some block of the file is broken. */
  lemma {:induction false} BlockMapFails(img: Image, ptrs: seq<Byte>, size: nat) returns (n: nat)
    requires img.Valid() && |ptrs| == 60
    requires var w := WalkSlots(img, ptrs, 15, Wanted(size, img.blockSize)); w.None? || !AllReadable(img, w.value, size)
    ensures Broken(img, ptrs, size, n)
  {
    hide WalkSlots, ResolveBlock, Mapped, Pos, Wanted;
    var want := Wanted(size, img.blockSize);
    var w := WalkSlots(img, ptrs, 15, want);
    if w.None? {
      n := SlotsFail(img, ptrs, 15, want);
      WantedBlocks(size, img.blockSize, n);
    } else {
      var i :| 0 <= i < |w.value| && !Readable(img, w.value[i], size);
      BlockMapExact(img, ptrs, want);
      n := w.value[i].logical;
      WantedBlocks(size, img.blockSize, n);
      MappedByOwner(w.value, i, n);
      assert BlockExact(img, ptrs, w.value, n, want);
    }
  }

  lemma StartBefore(n: nat, j: nat, size: nat)
    ensures Pos(n, 0, size) <= Pos(n, j, size)
  {
  }

  /** data is the file: block by block what its extents or its block map say. */
  ghost predicate IsContents(img: Image, inode: Inode, data: seq<Byte>)
    requires img.Valid() && |inode.block| == 60
  {
    && !inode.inline && |data| == inode.size <= |img.data|
    && (inode.extents ==>
          var t := ExtentTree(img, inode.block, MAX_DEPTH, BUDGET);
          t.Leaves? && AllReadable(img, t.exts, inode.size) && Reads(img, data, t.exts))
    && (!inode.extents ==>
          forall n: nat, j: nat :: j < img.blockSize && Pos(n, j, img.blockSize) < inode.size ==> MapByte(img, data, inode.block, n, j))
  }

  /** contents. */
  method Contents(img: Image, inode: Inode) returns (r: Result<seq<Byte>, Error>)
    requires img.Valid() && |inode.block| == 60
    ensures r.Ok? ==> IsContents(img, inode, r.value)
    ensures r.Err? && !inode.inline && inode.size <= |img.data| && inode.extents ==>
      var t := ExtentTree(img, inode.block, MAX_DEPTH, BUDGET); t.Corrupt? || !AllReadable(img, t.exts, inode.size)
    ensures r.Err? && !inode.inline && inode.size <= |img.data| && !inode.extents ==>
      exists n :: Broken(img, inode.block, inode.size, n)
    ensures r == Err(Unsupported) <==> inode.inline
  {
    hide Reads, ExtentTree, WalkSlots, MapByte, AllReadable, Broken;
    if inode.inline {
      return Err(Unsupported);
    }
    if inode.size > |img.data| {
      return Err(BadStructure);
    }
    var out := new Byte[inode.size](_ => 0);
    var ok;
    if inode.extents {
      NothingPlaced(img, out[..]);
      ghost var t := ExtentTree(img, inode.block, MAX_DEPTH, BUDGET);
      assert t.Leaves? ==> [] + t.exts == t.exts;
      var left;
      ok, left := WalkExtents(img, out, inode.block, MAX_DEPTH, BUDGET, []);
    } else {
      ok := ReadBlockMap(img, inode.block, out);
      if !ok {
        var n := BlockMapFails(img, inode.block, inode.size);
      } else {
        forall n: nat, j: nat | j < img.blockSize && Pos(n, j, img.blockSize) < inode.size
          ensures MapByte(img, out[..], inode.block, n, j)
        {
          BlockMapBytes(img, inode.block, out[..], n, j);
        }
      }
    }
    return if ok then Ok(out[..]) else Err(BadStructure);
  }
}

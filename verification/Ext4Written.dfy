/** Extent trees, block maps and directories as an ext4 image stores them, and what
    internal/ext4/ext4.go reads of them. */
module Ext4Written {
  import opened Wrappers
  import Layout
  import opened Ext4
  import opened Ext4Dir

  // ---- Little-endian numbers

  function Le16(n: nat): (b: seq<Byte>)
    requires n < 0x1_0000
    ensures |b| == 2
  {
    [n % 256, n / 256]
  }

  function Le32(n: nat): (b: seq<Byte>)
    requires n < 0x1_0000_0000
    ensures |b| == 4
  {
    Le16(n % 0x1_0000) + Le16(n / 0x1_0000)
  }

  lemma {:induction false} Read16(b: seq<Byte>, at: nat, n: nat)
    requires n < 0x1_0000 && Layout.At(b, at, Le16(n))
    ensures LE16(b, at) == n
  {
    Layout.AtByte(b, at, Le16(n), 0);
    Layout.AtByte(b, at, Le16(n), 1);
  }

  lemma {:induction false} Read32(b: seq<Byte>, at: nat, n: nat)
    requires n < 0x1_0000_0000 && Layout.At(b, at, Le32(n))
    ensures LE32(b, at) == n
  {
    hide Layout.At, Le16, LE16;
    Layout.AtSplit(b, at, Le16(n % 0x1_0000), Le16(n / 0x1_0000));
    Read16(b, at, n % 0x1_0000);
    Read16(b, at + 2, n / 0x1_0000);
  }

  // ---- Extent trees

  /** A leaf entry. One that is not written says so by a length past 32768. */
  datatype Leaf = Leaf(logical: nat, start: nat, length: nat, written: bool) {
    predicate Fits() {
      logical < 0x1_0000_0000 && start < 0x1_0000_0000_0000 && if written then length <= 32768 else 0 < length < 32768
    }

    function Text(): (b: seq<Byte>)
      requires Fits()
      ensures |b| == 12
    {
      Le32(logical) + (Le16(if written then length else 32768 + length)
        + (Le16(start / 0x1_0000_0000) + Le32(start % 0x1_0000_0000)))
    }
  }

  /** What an index entry points at. */
  datatype Child = Child(logical: nat, block: nat, tree: Node) {
    predicate Fits() {
      logical < 0x1_0000_0000 && block < 0x1_0000_0000_0000
    }

    function Text(): (b: seq<Byte>)
      requires Fits()
      ensures |b| == 12
    {
      Le32(logical) + (Le32(block % 0x1_0000_0000) + (Le16(block / 0x1_0000_0000) + Le16(0)))
    }
  }

  datatype Node = Leafs(leaves: seq<Leaf>) | Index(children: seq<Child>) {
    function Entries(): nat {
      if Leafs? then |leaves| else |children|
    }
  }

  function HeaderText(entries: nat, max: nat, depth: nat, generation: nat): (b: seq<Byte>)
    requires entries < 0x1_0000 && max < 0x1_0000 && depth < 0x1_0000 && generation < 0x1_0000_0000
    ensures |b| == 12
  {
    Le16(0xf30a) + (Le16(entries) + (Le16(max) + (Le16(depth) + Le32(generation))))
  }

  /** node is the tree's root, and the blocks its index entries name hold the rest. */
  ghost predicate Stored(img: Image, node: seq<Byte>, depth: nat, tree: Node)
    decreases tree
  {
    && tree.Entries() < 0x1_0000 && depth < 0x1_0000 && 12 + 12 * tree.Entries() <= |node|
    && (exists max, generation :: max < 0x1_0000 && generation < 0x1_0000_0000
          && Layout.At(node, 0, HeaderText(tree.Entries(), max, depth, generation)))
    && match tree
       case Leafs(leaves) =>
         depth == 0 && forall i :: 0 <= i < |leaves| ==> leaves[i].Fits() && Layout.At(node, 12 + 12 * i, leaves[i].Text())
       case Index(children) =>
         && depth > 0
         && (forall i :: 0 <= i < |children| ==> children[i].Fits() && Layout.At(node, 12 + 12 * i, children[i].Text()))
         && (forall i :: 0 <= i < |children| ==>
               img.Block(children[i].block).Some? && Stored(img, img.Block(children[i].block).value, depth - 1, children[i].tree))
  }

  /** The written leaves in order. */
  function LeavesOf(tree: Node): seq<Extent>
    decreases tree, 1, 0
  {
    match tree
    case Leafs(leaves) => WrittenLeaves(leaves, |leaves|)
    case Index(children) => LeavesUnder(tree, |children|)
  }

  function WrittenLeaves(leaves: seq<Leaf>, n: nat): seq<Extent>
    requires n <= |leaves|
  {
    if n == 0 then []
    else
      var last := leaves[n - 1];
      WrittenLeaves(leaves, n - 1) + if last.written then [Extent(last.logical, last.start, last.length)] else []
  }

  function LeavesUnder(tree: Node, n: nat): seq<Extent>
    requires tree.Index? && n <= |tree.children|
    decreases tree, 0, n
  {
    if n == 0 then [] else LeavesUnder(tree, n - 1) + LeavesOf(tree.children[n - 1].tree)
  }

  /** How many entries the tree has in all. */
  function Visits(tree: Node): nat
    decreases tree, 1, 0
  {
    match tree
    case Leafs(leaves) => |leaves|
    case Index(children) => VisitsUnder(tree, |children|)
  }

  function VisitsUnder(tree: Node, n: nat): nat
    requires tree.Index? && n <= |tree.children|
    decreases tree, 0, n
  {
    if n == 0 then 0 else VisitsUnder(tree, n - 1) + 1 + Visits(tree.children[n - 1].tree)
  }

  lemma {:induction false} LeafRead(node: seq<Byte>, i: nat, leaf: Leaf)
    requires leaf.Fits() && 12 + 12 * i + 12 <= |node| && Layout.At(node, 12 + 12 * i, leaf.Text())
    ensures LeafAt(node, i) == if leaf.written then [Extent(leaf.logical, leaf.start, leaf.length)] else []
  {
    hide Layout.At, Le16, Le32, LE16, LE32;
    var at := 12 + 12 * i;
    var length := if leaf.written then leaf.length else 32768 + leaf.length;
    var place := Le16(leaf.start / 0x1_0000_0000) + Le32(leaf.start % 0x1_0000_0000);
    Layout.AtSplit(node, at, Le32(leaf.logical), Le16(length) + place);
    Layout.AtSplit(node, at + 4, Le16(length), place);
    Layout.AtSplit(node, at + 6, Le16(leaf.start / 0x1_0000_0000), Le32(leaf.start % 0x1_0000_0000));
    Read32(node, at, leaf.logical);
    Read16(node, at + 4, length);
    Read16(node, at + 6, leaf.start / 0x1_0000_0000);
    Read32(node, at + 8, leaf.start % 0x1_0000_0000);
  }

  lemma {:induction false} ChildRead(node: seq<Byte>, i: nat, child: Child)
    requires child.Fits() && 12 + 12 * i + 12 <= |node| && Layout.At(node, 12 + 12 * i, child.Text())
    ensures ChildAt(node, i) == child.block
  {
    hide Layout.At, Le16, Le32, LE16, LE32;
    var at := 12 + 12 * i;
    var high := Le16(child.block / 0x1_0000_0000) + Le16(0);
    Layout.AtSplit(node, at, Le32(child.logical), Le32(child.block % 0x1_0000_0000) + high);
    Layout.AtSplit(node, at + 4, Le32(child.block % 0x1_0000_0000), high);
    Layout.AtSplit(node, at + 8, Le16(child.block / 0x1_0000_0000), Le16(0));
    Read32(node, at + 4, child.block % 0x1_0000_0000);
    Read16(node, at + 8, child.block / 0x1_0000_0000);
  }

  lemma {:induction false} HeaderRead(node: seq<Byte>, entries: nat, max: nat, depth: nat, generation: nat)
    requires entries < 0x1_0000 && max < 0x1_0000 && depth < 0x1_0000 && generation < 0x1_0000_0000
    requires Layout.At(node, 0, HeaderText(entries, max, depth, generation))
    ensures |node| >= 12 && LE16(node, 0) == 0xf30a && LE16(node, 2) == entries && LE16(node, 6) == depth
  {
    hide Layout.At, Le16, Le32, LE16;
    Layout.AtSplit(node, 0, Le16(0xf30a), Le16(entries) + (Le16(max) + (Le16(depth) + Le32(generation))));
    Layout.AtSplit(node, 2, Le16(entries), Le16(max) + (Le16(depth) + Le32(generation)));
    Layout.AtSplit(node, 4, Le16(max), Le16(depth) + Le32(generation));
    Layout.AtSplit(node, 6, Le16(depth), Le32(generation));
    Read16(node, 0, 0xf30a);
    Read16(node, 2, entries);
    Read16(node, 6, depth);
  }

  /** A stored tree is read as it is: its written leaves in order, for one visit an entry;
      one with more entries than visits, or deeper than allowed, is refused. */
  lemma {:induction false} TreeRead(img: Image, node: seq<Byte>, depth: nat, tree: Node, depthLeft: nat, budget: nat)
    requires Stored(img, node, depth, tree)
    ensures ExtentTree(img, node, depthLeft, budget) ==
      if depth <= depthLeft && Visits(tree) <= budget then Tree.Leaves(LeavesOf(tree), budget - Visits(tree)) else Corrupt
    decreases tree, 1, 0
  {
    hide Layout.At, LE16, LE32, LeafAt, ChildAt;
    var max, generation :| max < 0x1_0000 && generation < 0x1_0000_0000
      && Layout.At(node, 0, HeaderText(tree.Entries(), max, depth, generation));
    HeaderRead(node, tree.Entries(), max, depth, generation);
    if depth <= depthLeft {
      if tree.Leafs? {
        LeafsRead(img, node, tree.leaves, |tree.leaves|, budget);
      } else {
        IndexRead(img, node, depth, tree, |tree.children|, budget);
      }
    }
  }

  lemma {:induction false} LeafsRead(img: Image, node: seq<Byte>, leaves: seq<Leaf>, n: nat, budget: nat)
    requires n <= |leaves| && 12 + 12 * |leaves| <= |node|
    requires forall i :: 0 <= i < |leaves| ==> leaves[i].Fits() && Layout.At(node, 12 + 12 * i, leaves[i].Text())
    ensures Entries(img, node, n, 0, budget) ==
      if n <= budget then Tree.Leaves(WrittenLeaves(leaves, n), budget - n) else Corrupt
    decreases n
  {
    hide Layout.At, LeafAt, ChildAt, Leaf.Text;
    if n > 0 {
      LeafsRead(img, node, leaves, n - 1, budget);
      LeafRead(node, n - 1, leaves[n - 1]);
    }
  }

  lemma {:induction false} StoredChild(img: Image, node: seq<Byte>, depth: nat, tree: Node, i: nat)
    requires tree.Index? && Stored(img, node, depth, tree) && i < |tree.children|
    ensures depth > 0 && 12 + 12 * |tree.children| <= |node| && 12 + 12 * i + 12 <= |node|
    ensures var child := tree.children[i];
      && ChildAt(node, i) == child.block && img.Block(child.block).Some?
      && Stored(img, img.Block(child.block).value, depth - 1, child.tree)
  {
    hide Layout.At, ChildAt, Child.Text, HeaderText;
    ChildRead(node, i, tree.children[i]);
  }

  lemma {:induction false} IndexRead(img: Image, node: seq<Byte>, depth: nat, tree: Node, n: nat, budget: nat)
    requires tree.Index? && Stored(img, node, depth, tree) && n <= |tree.children| && 12 + 12 * n <= |node|
    ensures Entries(img, node, n, depth, budget) ==
      if VisitsUnder(tree, n) <= budget then Tree.Leaves(LeavesUnder(tree, n), budget - VisitsUnder(tree, n)) else Corrupt
    decreases tree, 0, n
  {
    hide Stored, LeafAt, ChildAt, ExtentTree, LeavesOf, Visits;
    if n > 0 {
      StoredChild(img, node, depth, tree, n - 1);
      IndexRead(img, node, depth, tree, n - 1, budget);
      var child, before := tree.children[n - 1], VisitsUnder(tree, n - 1);
      if before < budget {
        TreeRead(img, img.Block(child.block).value, depth - 1, child.tree, depth - 1, budget - before - 1);
      }
    }
  }

  // ---- Block maps

  /** The block reached from ptr by one pointer of each indirect block on the way. */
  function Follow(img: Image, ptr: nat, path: seq<nat>): Target
    requires img.Valid() && forall i :: 0 <= i < |path| ==> path[i] < img.PerBlock()
    decreases |path|
  {
    if ptr == 0 then Hole
    else if path == [] then Target.At(ptr)
    else
      match img.Block(ptr)
      case None => Unreadable
      case Some(b) =>
        assert path[0] < img.PerBlock();
        Follow(img, LE32(b, 4 * path[0]), path[1..])
  }

  /** The twelve direct pointers, then those behind the single, the double and the triple
      indirect block, reached by the digits of the block's number there; holes beyond. */
  lemma {:induction false} BlockMapLayout(img: Image, ptrs: seq<Byte>, n: nat)
    requires img.Valid() && |ptrs| == 60
    ensures var per := img.PerBlock();
      && (n < 12 ==> ResolveBlock(img, ptrs, n) == Follow(img, LE32(ptrs, 4 * n), []))
      && (forall a :: 0 <= a < per && n == 12 + a ==>
            ResolveBlock(img, ptrs, n) == Follow(img, LE32(ptrs, 48), [a]))
      && (forall a, b :: 0 <= a < per && 0 <= b < per && n == 12 + per + (a * per + b) ==>
            ResolveBlock(img, ptrs, n) == Follow(img, LE32(ptrs, 52), [a, b]))
      && (forall a, b, c :: 0 <= a < per && 0 <= b < per && 0 <= c < per && n == 12 + per + per * per + (a * (per * per) + (b * per + c)) ==>
            ResolveBlock(img, ptrs, n) == Follow(img, LE32(ptrs, 56), [a, b, c]))
      && (n >= 12 + per + per * per + per * (per * per) ==> ResolveBlock(img, ptrs, n) == Hole)
  {
    hide Span, Resolve, LE32, Follow, ResolveFrom;
    var per := img.PerBlock();
    Spans(per);
    SlotsFrom(img, ptrs, 0, n);
    if n < 12 {
      FollowIs(img, LE32(ptrs, 4 * n), []);
    } else {
      LastSlots(img, ptrs, n - 12);
    }
    forall a | 0 <= a < per && n == 12 + a
      ensures ResolveBlock(img, ptrs, n) == Follow(img, LE32(ptrs, 48), [a])
    {
      Short(per, [a]);
      FollowIs(img, LE32(ptrs, 48), [a]);
    }
    forall a, b | 0 <= a < per && 0 <= b < per && n == 12 + per + (a * per + b)
      ensures ResolveBlock(img, ptrs, n) == Follow(img, LE32(ptrs, 52), [a, b])
    {
      Short(per, [a, b]);
      FollowIs(img, LE32(ptrs, 52), [a, b]);
    }
    forall a, b, c | 0 <= a < per && 0 <= b < per && 0 <= c < per && n == 12 + per + per * per + (a * (per * per) + (b * per + c))
      ensures ResolveBlock(img, ptrs, n) == Follow(img, LE32(ptrs, 56), [a, b, c])
    {
      Short(per, [a, b, c]);
      FollowIs(img, LE32(ptrs, 56), [a, b, c]);
    }
  }

  lemma Spans(per: nat)
    ensures Span(per, 0) == 1 && Span(per, 1) == per && Span(per, 2) == per * per && Span(per, 3) == per * (per * per)
  {
    assert Span(per, 1) == per * Span(per, 0);
    assert Span(per, 2) == per * Span(per, 1);
    assert Span(per, 3) == per * Span(per, 2);
  }

  lemma {:induction false} SlotsFrom(img: Image, ptrs: seq<Byte>, slot: nat, n: nat)
    requires img.Valid() && |ptrs| == 60 && slot <= 12
    ensures n < 12 - slot ==> ResolveFrom(img, ptrs, slot, n) == Resolve(img, LE32(ptrs, 4 * (slot + n)), 0, 0)
    ensures n >= 12 - slot ==> ResolveFrom(img, ptrs, slot, n) == ResolveFrom(img, ptrs, 12, n - (12 - slot))
    decreases 12 - slot
  {
    hide Resolve, LE32;
    Spans(img.PerBlock());
    if slot < 12 && n > 0 {
      SlotsFrom(img, ptrs, slot + 1, n - 1);
    }
  }

  lemma {:induction false} LastSlots(img: Image, ptrs: seq<Byte>, m: nat)
    requires img.Valid() && |ptrs| == 60
    ensures var per := img.PerBlock();
      ResolveFrom(img, ptrs, 12, m) ==
        if m < per then Resolve(img, LE32(ptrs, 48), 1, m)
        else if m - per < per * per then Resolve(img, LE32(ptrs, 52), 2, m - per)
        else if m - per - per * per < per * (per * per) then Resolve(img, LE32(ptrs, 56), 3, m - per - per * per)
        else Hole
  {
    hide Resolve, LE32, Span;
    var per := img.PerBlock();
    Spans(per);
    assert ResolveFrom(img, ptrs, 15, m) == Hole;
    if m >= per {
      assert ResolveFrom(img, ptrs, 12, m) == ResolveFrom(img, ptrs, 13, m - per);
      if m - per >= per * per {
        assert ResolveFrom(img, ptrs, 13, m - per) == ResolveFrom(img, ptrs, 14, m - per - per * per);
      }
    }
  }

  /** The number a path spells, the outermost digit first. */
  function Number(per: nat, path: seq<nat>): nat {
    if path == [] then 0 else path[0] * Span(per, |path| - 1) + Number(per, path[1..])
  }

  lemma {:induction false} NumberBound(per: nat, path: seq<nat>)
    requires forall i :: 0 <= i < |path| ==> path[i] < per
    ensures Number(per, path) < Span(per, |path|)
  {
    if path != [] {
      hide Span;
      NumberBound(per, path[1..]);
      SpanStep(per, |path|);
      Carry(path[0], per, Span(per, |path| - 1), Number(per, path[1..]));
    }
  }

  lemma SpanStep(per: nat, level: nat)
    requires level > 0
    ensures Span(per, level) == per * Span(per, level - 1)
  {
  }

  lemma Carry(a: nat, per: nat, s: nat, rest: nat)
    requires a < per && rest < s
    ensures a * s + rest < per * s
  {
    Grows(a + 1, per, s);
    assert (a + 1) * s == a * s + s;
  }

  lemma Grows(a: nat, b: nat, c: nat)
    requires a <= b
    ensures a * c <= b * c
  {
  }

  lemma Divided(q: nat, s: nat, r: nat)
    requires r < s
    ensures (q * s + r) / s == q && (q * s + r) % s == r
  {
    var x := q * s + r;
    assert x == s * (x / s) + x % s;
    if x / s < q {
      Grows(x / s + 1, q, s);
    } else if x / s > q {
      Grows(q + 1, x / s, s);
    }
  }

  lemma {:induction false} FollowIs(img: Image, ptr: nat, path: seq<nat>)
    requires img.Valid() && forall i :: 0 <= i < |path| ==> path[i] < img.PerBlock()
    ensures Number(img.PerBlock(), path) < Span(img.PerBlock(), |path|)
    ensures Resolve(img, ptr, |path|, Number(img.PerBlock(), path)) == Follow(img, ptr, path)
    decreases |path|
  {
    hide LE32, Span;
    var per := img.PerBlock();
    Spans(per);
    NumberBound(per, path);
    if path != [] {
      var s, rest := Span(per, |path| - 1), Number(per, path[1..]);
      NumberBound(per, path[1..]);
      Divided(path[0], s, rest);
      if ptr != 0 && img.Block(ptr).Some? {
        FollowIs(img, LE32(img.Block(ptr).value, 4 * path[0]), path[1..]);
      }
    }
  }

  lemma {:induction false} Short(per: nat, path: seq<nat>)
    ensures |path| == 1 ==> Number(per, path) == path[0]
    ensures |path| == 2 ==> Number(per, path) == path[0] * per + path[1]
    ensures |path| == 3 ==> Number(per, path) == path[0] * (per * per) + (path[1] * per + path[2])
    decreases |path|
  {
    hide Span;
    Spans(per);
    if path != [] {
      Short(per, path[1..]);
    }
  }

  // ---- Directories

  /** An entry with the length of its record and its file type. */
  datatype Record = Record(entry: Entry, length: nat, kind: Byte) {
    predicate Fits() {
      entry.ino < 0x1_0000_0000 && |entry.name| < 256 && 8 + |entry.name| <= length < 0x1_0000 && length % 4 == 0
    }

    function Text(padding: seq<Byte>): (b: seq<Byte>)
      requires Fits() && |padding| == length - 8 - |entry.name|
      ensures |b| == length
    {
      Le32(entry.ino) + (Le16(length) + ([|entry.name|, kind] + (entry.name + padding)))
    }
  }

  /** The records follow one another from off to the end of the block. */
  ghost predicate Lists(b: seq<Byte>, off: nat, records: seq<Record>)
    decreases |records|
  {
    if records == [] then off == |b|
    else
      && records[0].Fits()
      && (exists padding :: |padding| == records[0].length - 8 - |records[0].entry.name| && Layout.At(b, off, records[0].Text(padding)))
      && Lists(b, off + records[0].length, records[1..])
  }

  function EntriesOf(records: seq<Record>): (entries: seq<Entry>)
    ensures |entries| == |records|
    ensures forall i :: 0 <= i < |records| ==> entries[i] == records[i].entry
  {
    seq(|records|, i requires 0 <= i < |records| => records[i].entry)
  }

  lemma {:induction false} RecordRead(b: seq<Byte>, off: nat, record: Record, padding: seq<Byte>)
    requires record.Fits() && |padding| == record.length - 8 - |record.entry.name| && Layout.At(b, off, record.Text(padding))
    ensures EntryAt(b, off) == Some((record.entry, record.length))
  {
    hide Layout.At, Le16, Le32, LE16, LE32;
    var name := record.entry.name;
    var head: seq<Byte> := [|name|, record.kind];
    assert record.Text(padding) == Le32(record.entry.ino) + (Le16(record.length) + (head + (name + padding)));
    Layout.AtInside(b, off, record.Text(padding));
    Layout.AtSplit(b, off, Le32(record.entry.ino), Le16(record.length) + (head + (name + padding)));
    Layout.AtSplit(b, off + 4, Le16(record.length), head + (name + padding));
    Layout.AtSplit(b, off + 6, head, name + padding);
    Layout.AtSplit(b, off + 8, name, padding);
    Read32(b, off, record.entry.ino);
    Read16(b, off + 4, record.length);
    Layout.AtByte(b, off + 6, head, 0);
    assert b[off + 8..off + 8 + |name|] == name by {
      AtPart(b, off + 8, name);
    }
  }

  lemma AtPart(b: seq<Byte>, at: nat, part: seq<Byte>)
    requires Layout.At(b, at, part)
    ensures at + |part| <= |b| && b[at..at + |part|] == part
  {
  }

  /** A block of records is well formed, and holds their entries. */
  lemma {:induction false} BlockRead(b: seq<Byte>, off: nat, records: seq<Record>)
    requires Lists(b, off, records)
    ensures Holds(b, off, EntriesOf(records))
    decreases |records|
  {
    hide EntryAt, Layout.At, Record.Text;
    if records != [] {
      var padding :| |padding| == records[0].length - 8 - |records[0].entry.name| && Layout.At(b, off, records[0].Text(padding));
      RecordRead(b, off, records[0], padding);
      BlockRead(b, off + records[0].length, records[1..]);
      assert EntriesOf(records)[1..] == EntriesOf(records[1..]);
    }
  }
}

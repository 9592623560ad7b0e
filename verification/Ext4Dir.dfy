/** Directory lookup in an ext4 image (internal/ext4/ext4.go). */
module Ext4Dir {
  import opened Wrappers
  import opened Ext4

  const MAX_DIR_BYTES: nat := 0x100_0000

  /** One directory entry; ino 0 marks an unused one. */
  datatype Entry = Entry(ino: nat, name: seq<Byte>)

  datatype Found = BadEntry | TooLarge | Unread(error: Error) | Ino(ino: nat)

  /** The entry at off and the length of its record, when the record is sound. */
  function EntryAt(b: seq<Byte>, off: nat): (e: Option<(Entry, nat)>)
    ensures e.Some? ==> 8 <= e.value.1 && off + e.value.1 <= |b|
  {
    if off + 8 > |b| then None
    else
      var recLen, nameLen := LE16(b, off + 4), b[off + 6] as nat;
      if recLen < 8 || recLen % 4 != 0 || recLen > |b| - off || nameLen > recLen - 8 then None
      else Some((Entry(LE32(b, off), b[off + 8..off + 8 + nameLen]), recLen))
  }

  /** The block holds exactly these entries from off to its end. */
  predicate Holds(b: seq<Byte>, off: nat, entries: seq<Entry>)
    decreases |entries|
  {
    if entries == [] then off == |b|
    else
      var e := EntryAt(b, off);
      e.Some? && e.value.0 == entries[0] && Holds(b, off + e.value.1, entries[1..])
  }

  function FirstNamed(entries: seq<Entry>, name: seq<Byte>): nat {
    if entries == [] then 0
    else if entries[0].ino != 0 && entries[0].name == name then entries[0].ino
    else FirstNamed(entries[1..], name)
  }

  function ScanBlock(b: seq<Byte>, off: nat, name: seq<Byte>): (r: Found)
    ensures r.BadEntry? || r.Ino?
    decreases |b| - off
  {
    if off >= |b| then Ino(0)
    else
      match EntryAt(b, off)
      case None => BadEntry
      case Some((e, recLen)) =>
        if e.ino != 0 && e.name == name then Ino(e.ino) else ScanBlock(b, off + recLen, name)
  }

  /** The whole blocks of the directory from blk on; a partial last one is not read. */
  function ScanBlocks(data: seq<Byte>, size: nat, blk: nat, name: seq<Byte>): (r: Found)
    requires size > 0
    ensures r.BadEntry? || r.Ino?
    decreases |data| - blk
  {
    if blk + size > |data| then Ino(0)
    else
      var found := ScanBlock(data[blk..blk + size], 0, name);
      if found == Ino(0) then ScanBlocks(data, size, blk + size, name) else found
  }

  /** The blocks from blk on hold these entries, block by block. */
  predicate AllHold(data: seq<Byte>, size: nat, blk: nat, blocks: seq<seq<Entry>>)
    requires size > 0
    decreases |blocks|
  {
    if blocks == [] then blk + size > |data|
    else blk + size <= |data| && Holds(data[blk..blk + size], 0, blocks[0]) && AllHold(data, size, blk + size, blocks[1..])
  }

  function Flatten(blocks: seq<seq<Entry>>): seq<Entry> {
    if blocks == [] then [] else blocks[0] + Flatten(blocks[1..])
  }

  lemma {:induction false} BlockExact(b: seq<Byte>, off: nat, entries: seq<Entry>, name: seq<Byte>)
    requires Holds(b, off, entries)
    ensures ScanBlock(b, off, name) == Ino(FirstNamed(entries, name))
    decreases |entries|
  {
    hide EntryAt;
    if entries != [] {
      var recLen := EntryAt(b, off).value.1;
      BlockExact(b, off + recLen, entries[1..], name);
    }
  }

  lemma {:induction false} FirstConcat(a: seq<Entry>, b: seq<Entry>, name: seq<Byte>)
    ensures FirstNamed(a + b, name) == if FirstNamed(a, name) != 0 then FirstNamed(a, name) else FirstNamed(b, name)
    decreases |a|
  {
    if a == [] {
      assert a + b == b;
    } else {
      assert (a + b)[1..] == a[1..] + b;
      FirstConcat(a[1..], b, name);
    }
  }

  /** In a well-formed directory the scan finds the first live entry of that name, and
      0 exactly when there is none. */
  lemma {:induction false} BlocksExact(data: seq<Byte>, size: nat, blk: nat, blocks: seq<seq<Entry>>, name: seq<Byte>)
    requires size > 0 && AllHold(data, size, blk, blocks)
    ensures ScanBlocks(data, size, blk, name) == Ino(FirstNamed(Flatten(blocks), name))
    decreases |blocks|
  {
    hide Holds, ScanBlock, FirstNamed;
    if blocks == [] {
      NoneNamed(name);
    } else {
      BlockExact(data[blk..blk + size], 0, blocks[0], name);
      BlocksExact(data, size, blk + size, blocks[1..], name);
      FirstConcat(blocks[0], Flatten(blocks[1..]), name);
    }
  }

  lemma NoneNamed(name: seq<Byte>)
    ensures FirstNamed([], name) == 0
  {
  }

  /** A name that some live entry has is found. */
  lemma {:induction false} NamedFound(entries: seq<Entry>, i: nat, name: seq<Byte>)
    requires i < |entries| && entries[i].ino != 0 && entries[i].name == name
    ensures FirstNamed(entries, name) != 0
    ensures exists k :: 0 <= k <= i && entries[k] == Entry(FirstNamed(entries, name), name)
    decreases |entries|
  {
    if entries[0].ino != 0 && entries[0].name == name {
      assert entries[0] == Entry(FirstNamed(entries, name), name);
    } else {
      NamedFound(entries[1..], i - 1, name);
      var k :| 0 <= k <= i - 1 && entries[1..][k] == Entry(FirstNamed(entries[1..], name), name);
      assert entries[k + 1] == Entry(FirstNamed(entries, name), name);
    }
  }

  /** lookup. */
  method Lookup(img: Image, dir: Inode, name: seq<Byte>) returns (found: Found, ghost data: seq<Byte>)
    requires img.Valid() && |dir.block| == 60
    ensures dir.size > MAX_DIR_BYTES <==> found.TooLarge?
    ensures !found.TooLarge? && !found.Unread? ==>
      IsContents(img, dir, data) && found == ScanBlocks(data, img.blockSize, 0, name)
  {
    hide IsContents;
    data := [];
    if dir.size > MAX_DIR_BYTES {
      return TooLarge, data;
    }
    var read := Contents(img, dir);
    if read.Err? {
      return Unread(read.error), data;
    }
    found := Search(read.value, img.blockSize, name);
    data := read.value;
  }

  lemma ScanEnds(b: seq<Byte>, name: seq<Byte>)
    ensures ScanBlock(b, |b|, name) == Ino(0)
  {
  }

  /** The scan at an entry, from the entry's fields. */
  lemma ScanStep(b: seq<Byte>, off: nat, name: seq<Byte>)
    requires off < |b|
    ensures |b| - off < 8 ==> ScanBlock(b, off, name) == BadEntry
    ensures |b| - off >= 8 ==>
      var recLen, nameLen := LE16(b, off + 4), b[off + 6] as nat;
      ScanBlock(b, off, name) ==
        if recLen < 8 || recLen % 4 != 0 || recLen > |b| - off || nameLen > recLen - 8 then BadEntry
        else if LE32(b, off) != 0 && b[off + 8..off + 8 + nameLen] == name then Ino(LE32(b, off))
        else ScanBlock(b, off + recLen, name)
  {
    hide LE16, LE32;
  }

  /** Its two loops. */
  method Search(data: seq<Byte>, size: nat, name: seq<Byte>) returns (found: Found)
    requires size > 0
    ensures found == ScanBlocks(data, size, 0, name)
  {
    hide LE16, LE32, EntryAt, ScanBlock;
    var blk := 0;
    while blk + size <= |data|
      invariant ScanBlocks(data, size, 0, name) == ScanBlocks(data, size, blk, name)
      decreases |data| - blk
    {
      var b := data[blk..blk + size];
      var off := 0;
      while off < size
        invariant 0 <= off <= size && ScanBlock(b, 0, name) == ScanBlock(b, off, name)
        decreases size - off
      {
        ScanStep(b, off, name);
        if size - off < 8 {
          return BadEntry;
        }
        var recLen, nameLen := LE16(b, off + 4), b[off + 6] as nat;
        if recLen < 8 || recLen % 4 != 0 || recLen > size - off || nameLen > recLen - 8 {
          return BadEntry;
        }
        var ino := LE32(b, off);
        if ino != 0 && b[off + 8..off + 8 + nameLen] == name {
          return Ino(ino);
        }
        off := off + recLen;
      }
      ScanEnds(b, name);
      blk := blk + size;
    }
    return Ino(0);
  }
}

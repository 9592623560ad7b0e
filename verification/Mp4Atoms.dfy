/** Walking MP4 atoms (internal/media/alacfix.go): which atoms are found, and on
    which bytes that depends. Offsets are mathematical integers. */
module Mp4Atoms {
  import opened Wrappers
  import opened AlacBits

  type Bytes = seq<bv8>

  datatype Atom = Atom(body: nat, end: nat)

  /** A byte as a number. */
  function U8(b: bv8): (v: nat)
    ensures v < 256
  {
    (if Bit(b, 0) then 128 else 0) + (if Bit(b, 1) then 64 else 0) + (if Bit(b, 2) then 32 else 0)
    + (if Bit(b, 3) then 16 else 0) + (if Bit(b, 4) then 8 else 0) + (if Bit(b, 5) then 4 else 0)
    + (if Bit(b, 6) then 2 else 0) + (if Bit(b, 7) then 1 else 0)
  }

  function Word(a: nat, b: nat, c: nat, d: nat): (v: nat)
    requires a < 256 && b < 256 && c < 256 && d < 256
    ensures v < U32
  {
    ((a * 256 + b) * 256 + c) * 256 + d
  }

  function BE32(data: Bytes, pos: nat): (v: nat)
    requires pos + 4 <= |data|
    ensures v < U32
  {
    Word(U8(data[pos]), U8(data[pos + 1]), U8(data[pos + 2]), U8(data[pos + 3]))
  }

  function BE64(data: Bytes, pos: nat): nat
    requires pos + 8 <= |data|
  {
    BE32(data, pos) * U32 + BE32(data, pos + 4)
  }

  datatype Header = Header(size: nat, length: nat)

  /** The header of the atom at pos: its size (0 runs to end, 1 is followed by a
      64-bit one) and the header's own length; none when it does not fit. */
  function HeaderAt(data: Bytes, pos: nat, end: nat): (h: Option<Header>)
    requires pos + 8 <= end <= |data|
    ensures h.Some? ==> 8 <= h.value.length <= h.value.size && pos + h.value.size <= end
  {
    var size32 := BE32(data, pos);
    if size32 == 1 && (pos + 16 > end || BE64(data, pos + 8) > 0x7fff_ffff_ffff_ffff) then None
    else
      var length := if size32 == 1 then 16 else 8;
      var size := if size32 == 1 then BE64(data, pos + 8) else if size32 == 0 then end - pos else size32;
      if size < length || pos + size > end then None else Some(Header(size, length))
  }

  function ChildrenFrom(data: Bytes, pos: nat, end: nat, typ: Bytes): (atoms: seq<Atom>)
    requires end <= |data|
    ensures forall a :: a in atoms ==> pos + 8 <= a.body <= a.end <= end
    decreases end - pos
  {
    if pos + 8 > end then []
    else match HeaderAt(data, pos, end)
      case None => []
      case Some(h) =>
        var rest := ChildrenFrom(data, pos + h.size, end, typ);
        if data[pos + 4..pos + 8] == typ then [Atom(pos + h.length, pos + h.size)] + rest else rest
  }

  function Children(data: Bytes, start: nat, end: nat, typ: Bytes): (atoms: seq<Atom>)
    ensures forall a :: a in atoms ==> start <= a.body <= a.end <= end <= |data|
  {
    if end > |data| || start > end then [] else ChildrenFrom(data, start, end, typ)
  }

  function Child(data: Bytes, start: nat, end: nat, typ: Bytes): (atom: Option<Atom>)
    ensures atom.Some? ==> start <= atom.value.body <= atom.value.end <= end <= |data|
  {
    var atoms := Children(data, start, end, typ);
    if atoms == [] then None else Some(atoms[0])
  }

  predicate Spells(data: Bytes, at: nat, typ: Bytes) {
    at + 8 <= |data| && data[at + 4..at + 8] == typ
  }

  /** Where the header of the first child of the type is. */
  function FirstAt(data: Bytes, pos: nat, end: nat, typ: Bytes): (at: Option<nat>)
    requires end <= |data|
    ensures at.Some? ==>
      pos <= at.value && at.value + 8 <= end && HeaderAt(data, at.value, end).Some? && Spells(data, at.value, typ)
    decreases end - pos
  {
    hide *;
    if pos + 8 > end then None
    else match HeaderAt(data, pos, end)
      case None => None
      case Some(h) => if Spells(data, pos, typ) then Some(pos) else FirstAt(data, pos + h.size, end, typ)
  }

  function AtomAt(data: Bytes, at: nat, end: nat): Atom
    requires at + 8 <= end <= |data| && HeaderAt(data, at, end).Some?
  {
    var h := HeaderAt(data, at, end).value;
    Atom(at + h.length, at + h.size)
  }

  lemma {:induction false} FirstIsChild(data: Bytes, pos: nat, end: nat, typ: Bytes)
    requires pos <= end <= |data|
    ensures var at := FirstAt(data, pos, end, typ);
      Child(data, pos, end, typ) == if at.None? then None else Some(AtomAt(data, at.value, end))
    decreases end - pos
  {
    hide HeaderAt;
    if pos + 8 <= end && HeaderAt(data, pos, end).Some? {
      if data[pos + 4..pos + 8] != typ {
        hide AtomAt;
        FirstIsChild(data, pos + HeaderAt(data, pos, end).value.size, end, typ);
      } else {
        assert ChildrenFrom(data, pos, end, typ)[0] == AtomAt(data, pos, end);
      }
    }
  }

  method ReadHeader(data: Bytes, pos: nat, end: nat) returns (h: Option<Header>)
    requires pos + 8 <= end <= |data|
    ensures h == HeaderAt(data, pos, end)
  {
    hide U8, Word, BE32, BE64;
    var size, length := BE32(data, pos), 8;
    if size == 1 {
      if pos + 16 > end {
        return None;
      }
      size, length := BE64(data, pos + 8), 16;
      if size > 0x7fff_ffff_ffff_ffff {
        return None;
      }
    } else if size == 0 {
      size := end - pos;
    }
    return if size < length || pos + size > end then None else Some(Header(size, length));
  }

  /** findMP4Children. */
  method FindChildren(data: Bytes, start: nat, end: nat, typ: Bytes) returns (out: seq<Atom>)
    ensures out == Children(data, start, end, typ)
  {
    hide HeaderAt, ChildrenFrom;
    out := [];
    if end > |data| || start > end {
      return;
    }
    var pos := start;
    NoMoreOut(ChildrenFrom(data, start, end, typ));
    while pos + 8 <= end
      invariant start <= pos <= end
      invariant out + ChildrenFrom(data, pos, end, typ) == ChildrenFrom(data, start, end, typ)
      decreases end - pos
    {
      var h := ReadHeader(data, pos, end);
      FirstChild(data, pos, end, typ, out);
      if h.None? {
        return;
      }
      if data[pos + 4..pos + 8] == typ {
        out := out + [Atom(pos + h.value.length, pos + h.value.size)];
      }
      pos := pos + h.value.size;
    }
    FirstChild(data, pos, end, typ, out);
  }

  lemma NoMoreOut(atoms: seq<Atom>)
    ensures [] + atoms == atoms
  {
  }

  lemma {:induction false} FirstChild(data: Bytes, pos: nat, end: nat, typ: Bytes, out: seq<Atom>)
    requires pos <= end <= |data|
    ensures out + ChildrenFrom(data, pos, end, typ) ==
      if pos + 8 > end || HeaderAt(data, pos, end).None? then out
      else
        var h := HeaderAt(data, pos, end).value;
        (if data[pos + 4..pos + 8] == typ then out + [Atom(pos + h.length, pos + h.size)] else out)
          + ChildrenFrom(data, pos + h.size, end, typ)
  {
    hide HeaderAt;
    assert out + [] == out;
    if pos + 8 <= end && HeaderAt(data, pos, end).Some? {
      var h := HeaderAt(data, pos, end).value;
      var rest := ChildrenFrom(data, pos + h.size, end, typ);
      assert out + ([Atom(pos + h.length, pos + h.size)] + rest) == out + [Atom(pos + h.length, pos + h.size)] + rest;
    }
  }

  // ---- Which bytes decide

  predicate Agree(a: Bytes, b: Bytes, lo: nat, hi: nat) {
    |a| == |b| && forall i :: lo <= i < hi && i < |a| ==> a[i] == b[i]
  }

  lemma {:induction false} HeaderLocal(a: Bytes, b: Bytes, pos: nat, end: nat)
    requires pos + 8 <= end <= |a| && HeaderAt(a, pos, end).Some?
    requires Agree(a, b, pos, pos + HeaderAt(a, pos, end).value.length)
    ensures HeaderAt(b, pos, end) == HeaderAt(a, pos, end)
    ensures a[pos + 4..pos + 8] == b[pos + 4..pos + 8]
  {
    hide U8, Word;
    assert BE32(a, pos) == BE32(b, pos);
    if BE32(a, pos) == 1 {
      assert BE32(a, pos + 8) == BE32(b, pos + 8) && BE32(a, pos + 12) == BE32(b, pos + 12);
    }
  }

  lemma {:induction false} ChildrenFromLocal(a: Bytes, b: Bytes, pos: nat, end: nat, typ: Bytes)
    requires end <= |a| && Agree(a, b, pos, end)
    ensures ChildrenFrom(a, pos, end, typ) == ChildrenFrom(b, pos, end, typ)
    decreases end - pos
  {
    hide U8, Word, HeaderAt;
    if pos + 8 <= end {
      SameHeader(a, b, pos, end);
      var h := HeaderAt(a, pos, end);
      if h.Some? {
        ChildrenFromLocal(a, b, pos + h.value.size, end, typ);
      }
    }
  }

  lemma {:induction false} SameHeader(a: Bytes, b: Bytes, pos: nat, end: nat)
    requires pos + 8 <= end <= |a| && Agree(a, b, pos, end)
    ensures HeaderAt(b, pos, end) == HeaderAt(a, pos, end)
    ensures a[pos + 4..pos + 8] == b[pos + 4..pos + 8]
  {
    hide U8, Word;
    assert BE32(a, pos) == BE32(b, pos);
    if BE32(a, pos) == 1 && pos + 16 <= end {
      assert BE32(a, pos + 8) == BE32(b, pos + 8) && BE32(a, pos + 12) == BE32(b, pos + 12);
    }
  }

  /** The children of a range depend on the bytes of the range alone. */
  lemma {:induction false} ChildLocal(a: Bytes, b: Bytes, start: nat, end: nat, typ: Bytes)
    requires Agree(a, b, start, end)
    ensures Children(a, start, end, typ) == Children(b, start, end, typ)
    ensures Child(a, start, end, typ) == Child(b, start, end, typ)
  {
    if start <= end <= |a| {
      ChildrenFromLocal(a, b, start, end, typ);
    }
  }

  /** b has the headers of a for every atom up to the first of the wanted type. */
  predicate SameHeadersTo(a: Bytes, b: Bytes, pos: nat, end: nat, typ: Bytes)
    requires end <= |a|
    decreases end - pos
  {
    pos + 8 <= end ==>
      match HeaderAt(a, pos, end)
      case None => true
      case Some(h) =>
        && Agree(a, b, pos, pos + h.length)
        && (a[pos + 4..pos + 8] == typ || SameHeadersTo(a, b, pos + h.size, end, typ))
  }

  /** Finding the first atom of a type depends on those headers alone. */
  lemma {:induction false} FirstLocal(a: Bytes, b: Bytes, pos: nat, end: nat, typ: Bytes)
    requires end <= |a| && |a| == |b| && ChildrenFrom(a, pos, end, typ) != [] && SameHeadersTo(a, b, pos, end, typ)
    ensures ChildrenFrom(b, pos, end, typ) != [] && ChildrenFrom(b, pos, end, typ)[0] == ChildrenFrom(a, pos, end, typ)[0]
    decreases end - pos
  {
    hide U8, Word, HeaderAt;
    var h := HeaderAt(a, pos, end).value;
    HeaderLocal(a, b, pos, end);
    if a[pos + 4..pos + 8] != typ {
      FirstLocal(a, b, pos + h.size, end, typ);
    }
  }
}

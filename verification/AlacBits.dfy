/** The bit reader of internal/media/alacfix.go, and the in-place terminator patch,
    both stated over the sequence of bits a byte buffer stands for. */
module AlacBits {
  import opened Wrappers

  const U32 := 0x1_0000_0000

  /** The mask of bit k, counted from the most significant. */
  function Mask(k: nat): bv8
    requires k < 8
  {
    match k
    case 0 => 0x80
    case 1 => 0x40
    case 2 => 0x20
    case 3 => 0x10
    case 4 => 0x08
    case 5 => 0x04
    case 6 => 0x02
    case _ => 0x01
  }

  /** 0xff << (8 - k): the first k bits. */
  function Keep(k: nat): bv8
    requires 0 < k < 8
  {
    match k
    case 1 => 0x80
    case 2 => 0xC0
    case 3 => 0xE0
    case 4 => 0xF0
    case 5 => 0xF8
    case 6 => 0xFC
    case _ => 0xFE
  }

  predicate Bit(b: bv8, k: nat)
    requires k < 8
  {
    b & Mask(k) != 0
  }

  function ByteOf(bits: seq<bool>): bv8
    requires |bits| == 8
  {
    (if bits[0] then 0x80 else 0) | (if bits[1] then 0x40 else 0) | (if bits[2] then 0x20 else 0)
    | (if bits[3] then 0x10 else 0) | (if bits[4] then 0x08 else 0) | (if bits[5] then 0x04 else 0)
    | (if bits[6] then 0x02 else 0) | (if bits[7] then 0x01 else 0)
  }

  lemma ByteOfBits(bits: seq<bool>, k: nat)
    requires |bits| == 8 && k < 8
    ensures Bit(ByteOf(bits), k) == bits[k]
  {
  }

  lemma SetBit(b: bv8, k: nat, j: nat)
    requires k < 8 && j < 8
    ensures Bit(b | Mask(k), j) == (j == k || Bit(b, j))
  {
  }

  lemma KeepBits(b: bv8, k: nat, j: nat)
    requires 0 < k < 8 && j < 8
    ensures Bit(b & Keep(k), j) == (j < k && Bit(b, j))
  {
  }

  lemma SameBits(a: bv8, b: bv8)
    requires forall k: nat :: k < 8 ==> Bit(a, k) == Bit(b, k)
    ensures a == b
  {
    assert Bit(a, 0) == Bit(b, 0) && Bit(a, 1) == Bit(b, 1) && Bit(a, 2) == Bit(b, 2) && Bit(a, 3) == Bit(b, 3);
    assert Bit(a, 4) == Bit(b, 4) && Bit(a, 5) == Bit(b, 5) && Bit(a, 6) == Bit(b, 6) && Bit(a, 7) == Bit(b, 7);
  }

  /** The bits of a buffer, most significant first in each byte. */
  function Bits(bytes: seq<bv8>): (bits: seq<bool>)
    ensures |bits| == 8 * |bytes|
  {
    seq(8 * |bytes|, i requires 0 <= i < 8 * |bytes| => Bit(bytes[i / 8], i % 8))
  }

  lemma {:induction false} BitsDecide(a: seq<bv8>, b: seq<bv8>)
    requires Bits(a) == Bits(b)
    ensures a == b
  {
    assert |a| == |b| by {
      assert |Bits(a)| == |Bits(b)|;
    }
    forall i | 0 <= i < |a|
      ensures a[i] == b[i]
    {
      forall k: nat | k < 8
        ensures Bit(a[i], k) == Bit(b[i], k)
      {
        assert Bits(a)[8 * i + k] == Bit(a[(8 * i + k) / 8], (8 * i + k) % 8);
        assert Bits(b)[8 * i + k] == Bit(b[(8 * i + k) / 8], (8 * i + k) % 8);
        assert (8 * i + k) / 8 == i && (8 * i + k) % 8 == k;
      }
      SameBits(a[i], b[i]);
    }
  }

  lemma {:induction false} BitsOfSlice(bytes: seq<bv8>, from: nat, to: nat)
    requires from <= to <= |bytes|
    ensures Bits(bytes[from..to]) == Bits(bytes)[8 * from..8 * to]
  {
    var part := bytes[from..to];
    forall i | 0 <= i < 8 * (to - from)
      ensures Bits(part)[i] == Bits(bytes)[8 * from + i]
    {
      assert (8 * from + i) / 8 == from + i / 8 && (8 * from + i) % 8 == i % 8;
    }
  }

  /** The number a run of bits spells, most significant first. */
  function Value(bits: seq<bool>): (v: nat)
  {
    if bits == [] then 0
    else 2 * Value(bits[..|bits| - 1]) + (if bits[|bits| - 1] then 1 else 0)
  }

  // ---- The reader's operations as functions of a position

  /** pos is where the reader stands afterwards. */
  datatype Read = Eof | Got(value: nat, pos: nat)

  function ReadAt(bits: seq<bool>, pos: nat, n: int): (r: Read)
    ensures r.Got? && pos <= |bits| ==> pos <= r.pos <= |bits|
  {
    if n == 0 then Got(0, pos)
    else if n < 0 || pos + n > |bits| then Eof
    else Got(Value(bits[pos..pos + n]) % U32, pos + n)
  }

  function SkipAt(bits: seq<bool>, pos: nat, n: int): (r: Read)
    ensures r.Got? ==> pos <= r.pos <= |bits|
  {
    if n < 0 || pos + n > |bits| then Eof else Got(0, pos + n)
  }

  /** Ones read before the first zero, at most nine. */
  function UnaryAt(bits: seq<bool>, pos: nat, count: nat): (r: Read)
    requires count <= 9
    ensures r.Got? && pos <= |bits| ==> pos <= r.pos <= |bits| && r.value <= 9
    decreases 9 - count
  {
    if count == 9 then Got(9, pos)
    else if pos >= |bits| then Eof
    else if !bits[pos] then Got(count, pos + 1)
    else UnaryAt(bits, pos + 1, count + 1)
  }

  /** Equal length, and equal bits up to a position. */
  predicate Same(a: seq<bool>, b: seq<bool>, upto: nat) {
    |a| == |b| && upto <= |a| && forall i :: 0 <= i < upto ==> a[i] == b[i]
  }

  /** Each operation depends on the bits it consumed and on the length alone. */
  lemma {:induction false} ReadLocal(a: seq<bool>, b: seq<bool>, pos: nat, n: int)
    requires pos <= |a| && ReadAt(a, pos, n).Got? && Same(a, b, ReadAt(a, pos, n).pos)
    ensures ReadAt(b, pos, n) == ReadAt(a, pos, n)
  {
    if n > 0 {
      assert a[pos..pos + n] == b[pos..pos + n];
    }
  }

  lemma {:induction false} UnaryLocal(a: seq<bool>, b: seq<bool>, pos: nat, count: nat)
    requires pos <= |a| && count <= 9 && UnaryAt(a, pos, count).Got? && Same(a, b, UnaryAt(a, pos, count).pos)
    ensures UnaryAt(b, pos, count) == UnaryAt(a, pos, count)
    decreases 9 - count
  {
    if count < 9 && a[pos] {
      UnaryLocal(a, b, pos + 1, count + 1);
    }
  }

  lemma {:induction false} ValueAppend(bits: seq<bool>, b: bool)
    ensures Value(bits + [b]) == 2 * Value(bits) + (if b then 1 else 0)
  {
    assert (bits + [b])[..|bits|] == bits;
  }

  lemma NoValue(bits: seq<bool>)
    requires bits == []
    ensures Value(bits) == 0
  {
  }

  lemma Doubled(v: nat, b: nat)
    requires b < 2
    ensures (2 * (v % U32)) % U32 + b == (2 * v + b) % U32
  {
    var q, r := v / U32, v % U32;
    assert v == U32 * q + r;
    if 2 * r < U32 {
      assert 2 * v + b == U32 * (2 * q) + (2 * r + b);
    } else {
      assert 2 * v + b == U32 * (2 * q + 1) + (2 * r + b - U32);
    }
  }

  lemma BitOf(bytes: seq<bv8>, q: nat)
    requires q < 8 * |bytes|
    ensures Bits(bytes)[q] == Bit(bytes[q / 8], q % 8)
  {
  }

  lemma {:induction false} NextBit(bits: seq<bool>, pos: nat, i: nat)
    requires pos + i < |bits|
    ensures Value(bits[pos..pos + i + 1]) % U32
         == (2 * (Value(bits[pos..pos + i]) % U32)) % U32 + (if bits[pos + i] then 1 else 0)
  {
    assert bits[pos..pos + i + 1] == bits[pos..pos + i] + [bits[pos + i]];
    ValueAppend(bits[pos..pos + i], bits[pos + i]);
    Doubled(Value(bits[pos..pos + i]), if bits[pos + i] then 1 else 0);
  }

  class BitReader {
    const buf: seq<bv8>
    var pos: nat

    constructor (buf: seq<bv8>)
      ensures this.buf == buf && pos == 0
    {
      this.buf, pos := buf, 0;
    }

    function Left(): int
      reads this
    {
      |buf| * 8 - pos
    }

    method Read(n: int) returns (r: Option<nat>)
      modifies this
      ensures Agrees(r, ReadAt(Bits(buf), old(pos), n))
    {
      hide Bits, Bit, Value, UnaryAt, SkipAt, Same;
      if n == 0 {
        return Some(0);
      }
      if n < 0 || pos + n > |buf| * 8 {
        return None;
      }
      ghost var bits := Bits(buf);
      NoValue(bits[pos..pos]);
      var out := 0;
      var i := 0;
      while i < n
        invariant 0 <= i <= n && pos == old(pos)
        invariant out == Value(bits[pos..pos + i]) % U32
      {
        var bp := pos + i;
        BitOf(buf, bp);
        NextBit(bits, pos, i);
        out := (2 * out) % U32 + (if Bit(buf[bp / 8], bp % 8) then 1 else 0);
        i := i + 1;
      }
      pos := pos + n;
      return Some(out);
    }

    /** What a call answers and where it leaves the reader, next to its function. */
    predicate Agrees(r: Option<nat>, spec: Read)
      reads this
    {
      match spec
      case Eof => r.None?
      case Got(value, after) => r == Some(value) && pos == after
    }

    /** read, and back to where it was. */
    method Show(n: int) returns (r: Option<nat>)
      modifies this
      ensures pos == old(pos)
      ensures r == match ReadAt(Bits(buf), pos, n) case Eof => None case Got(value, _) => Some(value)
    {
      var saved := pos;
      r := Read(n);
      pos := saved;
    }

    method Skip(n: int) returns (ok: bool)
      modifies this
      ensures Agrees(if ok then Some(0) else None, SkipAt(Bits(buf), old(pos), n))
    {
      if n < 0 || pos + n > |buf| * 8 {
        return false;
      }
      pos := pos + n;
      return true;
    }

    method Unary09() returns (r: Option<nat>)
      modifies this
      ensures Agrees(r, UnaryAt(Bits(buf), old(pos), 0))
    {
      var count := 0;
      while count < 9
        invariant count <= 9
        invariant UnaryAt(Bits(buf), old(pos), 0) == UnaryAt(Bits(buf), pos, count)
      {
        var at := pos;
        var bit := Read(1);
        if bit.None? {
          return None;
        }
        OneBit(Bits(buf), at);
        if bit.value == 0 {
          return Some(count);
        }
        count := count + 1;
      }
      return Some(9);
    }
  }

  lemma OneBit(bits: seq<bool>, at: nat)
    requires at < |bits|
    ensures ReadAt(bits, at, 1) == Got(if bits[at] then 1 else 0, at + 1)
  {
    assert bits[at..at + 1] == [bits[at]];
    assert Value([bits[at]]) == 2 * Value([]) + (if bits[at] then 1 else 0);
  }

  // ---- The patch

  /** The packet of length bits at start, its body ended at body: END (three ones)
      there, zeros to its end, everything else as it was. */
  function Terminated(bits: seq<bool>, start: nat, length: nat, body: nat): (r: seq<bool>)
    requires start + length <= |bits| && body + 3 <= length
    ensures |r| == |bits|
  {
    bits[..start + body] + [true, true, true] + seq(length - body - 3, _ => false) + bits[start + length..]
  }

  /** The bits from lo up to hi forced to v. */
  function Forced(bits: seq<bool>, lo: nat, hi: nat, v: bool): (r: seq<bool>)
    requires lo <= hi <= |bits|
    ensures |r| == |bits|
  {
    bits[..lo] + seq(hi - lo, _ => v) + bits[hi..]
  }

  lemma {:induction false} ForcedOn(bits: seq<bool>, lo: nat, mid: nat, hi: nat, v: bool)
    requires lo <= mid <= hi <= |bits|
    ensures Forced(Forced(bits, lo, mid, v), mid, hi, v) == Forced(bits, lo, hi, v)
  {
  }

  lemma {:induction false} ForcedNone(bits: seq<bool>, lo: nat, v: bool)
    requires lo <= |bits|
    ensures Forced(bits, lo, lo, v) == bits
  {
  }

  lemma {:induction false} ForcedBoth(bits: seq<bool>, start: nat, length: nat, body: nat)
    requires start + length <= |bits| && body + 3 <= length
    ensures Forced(Forced(bits, start + body, start + body + 3, true), start + body + 3, start + length, false)
         == Terminated(bits, start, length, body)
  {
  }

  lemma Parted(q: nat, index: nat, k: nat)
    requires k < 8
    ensures q == 8 * index + k <==> q / 8 == index && q % 8 == k
    ensures 8 * index + k <= q < 8 * index + 8 <==> q / 8 == index && q % 8 >= k
  {
  }

  lemma ForcedAt(bits: seq<bool>, lo: nat, hi: nat, v: bool, q: nat)
    requires lo <= hi <= |bits| && q < |bits|
    ensures Forced(bits, lo, hi, v)[q] == if lo <= q < hi then v else bits[q]
  {
  }

  lemma {:induction false} OrMaskAt(bytes: seq<bv8>, index: nat, k: nat, q: nat)
    requires index < |bytes| && k < 8 && q < 8 * |bytes|
    ensures Bits(bytes[index := bytes[index] | Mask(k)])[q] == (q == 8 * index + k || Bits(bytes)[q])
  {
    hide Bits, Bit, Mask;
    BitOf(bytes[index := bytes[index] | Mask(k)], q);
    BitOf(bytes, q);
    SetBit(bytes[index], k, q % 8);
    Parted(q, index, k);
  }

  lemma {:induction false} OrMask(bytes: seq<bv8>, index: nat, k: nat)
    requires index < |bytes| && k < 8
    ensures Bits(bytes[index := bytes[index] | Mask(k)]) == Forced(Bits(bytes), 8 * index + k, 8 * index + k + 1, true)
  {
    hide Bits, Bit, Mask, Forced;
    var now := Bits(bytes[index := bytes[index] | Mask(k)]);
    var want := Forced(Bits(bytes), 8 * index + k, 8 * index + k + 1, true);
    forall q | 0 <= q < 8 * |bytes|
      ensures now[q] == want[q]
    {
      ForcedAt(Bits(bytes), 8 * index + k, 8 * index + k + 1, true, q);
      OrMaskAt(bytes, index, k, q);
    }
  }

  lemma {:induction false} AndKeep(bytes: seq<bv8>, index: nat, k: nat)
    requires index < |bytes| && 0 < k < 8
    ensures Bits(bytes[index := bytes[index] & Keep(k)]) == Forced(Bits(bytes), 8 * index + k, 8 * index + 8, false)
  {
    hide Bits, Bit, Mask, Keep, Forced;
    var now := bytes[index := bytes[index] & Keep(k)];
    forall q | 0 <= q < 8 * |bytes|
      ensures Bits(now)[q] == Forced(Bits(bytes), 8 * index + k, 8 * index + 8, false)[q]
    {
      ForcedAt(Bits(bytes), 8 * index + k, 8 * index + 8, false, q);
      BitOf(now, q);
      BitOf(bytes, q);
      KeepBits(bytes[index], k, q % 8);
      Parted(q, index, k);
    }
  }

  lemma {:induction false} ZeroByte(bytes: seq<bv8>, index: nat)
    requires index < |bytes|
    ensures Bits(bytes[index := 0]) == Forced(Bits(bytes), 8 * index, 8 * index + 8, false)
  {
  }

  /** The three tag bits. */
  method WriteTag(data: array<bv8>, offset: nat, body: nat)
    requires 8 * offset + body + 3 <= 8 * data.Length
    modifies data
    ensures Bits(data[..]) == Forced(Bits(old(data[..])), 8 * offset + body, 8 * offset + body + 3, true)
  {
    hide Bit, Bits, Mask, Keep, Forced;
    ghost var start, was := 8 * offset + body, Bits(data[..]);
    ForcedNone(was, start, true);
    var i := 0;
    while i < 3
      invariant 0 <= i <= 3
      invariant Bits(data[..]) == Forced(was, start, start + i, true)
    {
      var p := body + i;
      var index := offset + p / 8;
      OrMask(data[..], index, p % 8);
      ForcedOn(was, start, start + i, start + i + 1, true);
      ghost var before := data[..];
      data[index] := data[index] | Mask(p % 8);
      assert data[..] == before[index := before[index] | Mask(p % 8)];
      i := i + 1;
    }
  }

  /** The rest of a byte. */
  method ClearByteTail(data: array<bv8>, index: nat, k: nat)
    requires index < data.Length && 0 < k < 8
    modifies data
    ensures Bits(data[..]) == Forced(Bits(old(data[..])), 8 * index + k, 8 * index + 8, false)
  {
    hide Bit, Bits, Mask, Keep, Forced;
    AndKeep(data[..], index, k);
    ghost var before := data[..];
    data[index] := data[index] & Keep(k);
    assert data[..] == before[index := before[index] & Keep(k)];
  }

  method ClearBytes(data: array<bv8>, from: nat, to: nat)
    requires from <= to <= data.Length
    modifies data
    ensures Bits(data[..]) == Forced(Bits(old(data[..])), 8 * from, 8 * to, false)
  {
    hide Bit, Bits, Mask, Keep, Forced;
    ghost var was := Bits(data[..]);
    ForcedNone(was, 8 * from, false);
    var index := from;
    while index < to
      invariant from <= index <= to
      invariant Bits(data[..]) == Forced(was, 8 * from, 8 * index, false)
    {
      ZeroByte(data[..], index);
      ForcedOn(was, 8 * from, 8 * index, 8 * index + 8, false);
      ghost var before := data[..];
      data[index] := 0;
      assert data[..] == before[index := 0];
      index := index + 1;
    }
  }

  /** Everything from bit pad of the packet to its end. */
  method ClearFrom(data: array<bv8>, offset: nat, size: nat, pad: nat)
    requires offset + size <= data.Length && pad <= 8 * size
    modifies data
    ensures Bits(data[..]) == Forced(Bits(old(data[..])), 8 * offset + pad, 8 * (offset + size), false)
  {
    hide Bit, Bits, Forced;
    var index, k := offset + pad / 8, pad % 8;
    ghost var lo, was := 8 * index + k, Bits(data[..]);
    if k == 0 {
      ClearBytes(data, index, offset + size);
    } else {
      ForcedOn(was, lo, 8 * index + 8, 8 * (offset + size), false);
      ClearByteTail(data, index, k);
      ClearBytes(data, index + 1, offset + size);
    }
  }

  /** patchALACTerminator, in place. */
  method PatchTerminator(data: array<bv8>, offset: nat, size: nat, body: int) returns (ok: bool)
    requires offset + size <= data.Length
    modifies data
    ensures ok <==> 0 <= body && body + 3 <= 8 * size
    ensures !ok ==> data[..] == old(data[..])
    ensures ok ==> Bits(data[..]) == Terminated(Bits(old(data[..])), 8 * offset, 8 * size, body)
  {
    hide Bit, Bits, Forced, Terminated;
    if body < 0 || body + 3 > 8 * size {
      return false;
    }
    ForcedBoth(Bits(data[..]), 8 * offset, 8 * size, body);
    WriteTag(data, offset, body);
    ClearFrom(data, offset, size, body + 3);
    return true;
  }
}

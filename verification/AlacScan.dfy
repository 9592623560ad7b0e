/** The ALAC element scanner (internal/media/alacfix.go): where a packet's body ends,
    as a function of its bits, and the methods that compute it. */
module AlacScan {
  import opened Wrappers
  import opened AlacBits

  /** The decoder settings of a track: one uint32, then five uint8. */
  datatype Params = Params(maxSamples: nat, sampleSize: nat, historyMult: nat, initialHistory: nat, limit: nat, channels: nat) {
    predicate Valid() {
      0 < maxSamples < U32 && 0 < sampleSize < 256 && historyMult < 256 && initialHistory < 256 && limit < 256
      && 0 < channels < 256
    }
  }

  function Pow2(n: nat): (r: nat)
    ensures r > 0
  {
    if n == 0 then 1 else 2 * Pow2(n - 1)
  }

  function Log2(x: nat): (r: nat)
    ensures x > 0 ==> Pow2(r) <= x < 2 * Pow2(r)
  {
    if x <= 1 then 0 else 1 + Log2(x / 2)
  }

  lemma {:induction false} Log2Below(x: nat, n: nat)
    requires x < Pow2(n) && n > 0
    ensures Log2(x) < n
  {
    if x > 1 {
      Log2Below(x / 2, n - 1);
    }
  }

  function Min(a: int, b: int): int { if a < b then a else b }

  /** One Rice-coded value: a unary part, then the escape or a k-bit remainder of
      which a value of 0 or 1 leaves the last bit unread. */
  function ScalarAt(bits: seq<bool>, pos: nat, k: nat, bps: nat): (r: Read)
    ensures r.Got? && pos <= |bits| ==> pos <= r.pos <= |bits|
  {
    match UnaryAt(bits, pos, 0)
    case Eof => Eof
    case Got(x, p) =>
      if x > 8 then ReadAt(bits, p, bps)
      else if k == 1 then Got(x, p)
      else match ReadAt(bits, p, k)
        case Eof => Eof
        case Got(extra, _) =>
          var rest := SkipAt(bits, p, if extra > 1 then k else k - 1);
          if rest.Eof? then Eof
          else Got((x * Pow2(k) - x + (if extra > 1 then extra - 1 else 0)) % U32, rest.pos)
  }

  function NextHistory(history: nat, x: nat, mult: nat): (h: nat)
    ensures h < U32
  {
    if x > 0xffff then 0xffff
    else (history + x * mult - ((history * mult) % U32) / 512) % U32
  }

  function RiceK(history: nat, limit: nat): nat {
    Min(Log2(history / 512 + 3), limit)
  }

  function RunK(history: nat, limit: nat): nat
    requires history < 128
  {
    assert Log2(history) < 7 by {
      assert Pow2(7) == 128;
      Log2Below(history, 7);
    }
    Min(7 - Log2(history) + (history + 16) / 64, limit)
  }

  /** The samples from i on; history and sign are the adaptive state. */
  function RiceAt(bits: seq<bool>, pos: nat, i: nat, samples: nat, history: nat, sign: nat, bps: nat, mult: nat, limit: nat): (r: Read)
    ensures r.Got? && pos <= |bits| ==> pos <= r.pos <= |bits|
    decreases samples - i
  {
    if i >= samples then Got(0, pos)
    else match ScalarAt(bits, pos, RiceK(history, limit), bps)
      case Eof => Eof
      case Got(raw, p) =>
        var h := NextHistory(history, (raw + sign) % U32, mult);
        if h < 128 && i + 1 < samples then
          match ScalarAt(bits, p, RunK(h, limit), 16)
          case Eof => Eof
          case Got(run, q) =>
            var n := if run >= samples - i then samples - i - 1 else run;
            RiceAt(bits, q, i + n + 1, samples, 0, if n <= 0xffff then 1 else 0, bps, mult, limit)
        else RiceAt(bits, p, i + 1, samples, h, 0, bps, mult, limit)
  }

  /** A channel's prediction header: its Rice multiplier, and where it ends. */
  function LpcAt(bits: seq<bool>, pos: nat, maxSamples: nat): (r: Read)
    ensures r.Got? && pos <= |bits| ==> pos <= r.pos <= |bits|
  {
    match ReadAt(bits, pos, 4)
    case Eof => Eof
    case Got(_, p0) =>
      match ReadAt(bits, p0, 4)
      case Eof => Eof
      case Got(quant, p1) =>
        match ReadAt(bits, p1, 3)
        case Eof => Eof
        case Got(mult, p2) =>
          match ReadAt(bits, p2, 5)
          case Eof => Eof
          case Got(order, p3) =>
            if quant == 0 || order >= maxSamples || p3 + 16 * order > |bits| then Eof
            else Got(mult, p3 + 16 * order)
  }

  datatype Lpcs = NoLpcs | Lpcs(mults: seq<nat>, pos: nat)

  function LpcsAt(bits: seq<bool>, pos: nat, channels: nat, maxSamples: nat): (r: Lpcs)
    ensures r.Lpcs? ==> |r.mults| == channels
    ensures r.Lpcs? && pos <= |bits| ==> pos <= r.pos <= |bits|
    decreases channels
  {
    if channels == 0 then Lpcs([], pos)
    else match LpcAt(bits, pos, maxSamples)
      case Eof => NoLpcs
      case Got(mult, p) =>
        match LpcsAt(bits, p, channels - 1, maxSamples)
        case NoLpcs => NoLpcs
        case Lpcs(rest, q) => Lpcs([mult] + rest, q)
  }

  function RicesAt(bits: seq<bool>, pos: nat, mults: seq<nat>, samples: nat, bps: nat, p: Params): (r: Read)
    ensures r.Got? && pos <= |bits| ==> pos <= r.pos <= |bits|
    decreases |mults|
  {
    if mults == [] then Got(0, pos)
    else match RiceAt(bits, pos, 0, samples, p.initialHistory, 0, bps, mults[0] * p.historyMult / 4, p.limit)
      case Eof => Eof
      case Got(_, q) => RicesAt(bits, q, mults[1..], samples, bps, p)
  }

  datatype Head = BadHead | Head(extra: nat, bps: nat, raw: bool, samples: nat, pos: nat)

  /** What follows the tag of an element of the given channels. */
  function HeadAt(bits: seq<bool>, pos: nat, channels: nat, p: Params): (r: Head)
    ensures r.Head? && pos <= |bits| ==> pos <= r.pos <= |bits|
  {
    match SkipAt(bits, pos, 16)
    case Eof => BadHead
    case Got(_, p0) =>
      match ReadAt(bits, p0, 1)
      case Eof => BadHead
      case Got(hasSize, p1) =>
        match ReadAt(bits, p1, 2)
        case Eof => BadHead
        case Got(extraRaw, p2) =>
          var bps := p.sampleSize - 8 * extraRaw + channels - 1;
          match ReadAt(bits, p2, 1)
          case Eof => BadHead
          case Got(raw, p3) =>
            match if hasSize != 0 then ReadAt(bits, p3, 32) else Got(p.maxSamples, p3)
            case Eof => BadHead
            case Got(samples, p4) =>
              if bps < 1 || bps > 32 || samples == 0 || samples > p.maxSamples then BadHead
              else Head(8 * extraRaw, bps, raw != 0, samples, p4)
  }

  function CompressedAt(bits: seq<bool>, channels: nat, h: Head, p: Params): (r: Read)
    requires h.Head?
    ensures r.Got? && h.pos <= |bits| ==> h.pos <= r.pos <= |bits|
  {
    match ReadAt(bits, h.pos, 8)
    case Eof => Eof
    case Got(_, p0) =>
      match ReadAt(bits, p0, 8)
      case Eof => Eof
      case Got(_, p1) =>
        match LpcsAt(bits, p1, channels, p.maxSamples)
        case NoLpcs => Eof
        case Lpcs(mults, p2) =>
          match SkipAt(bits, p2, h.samples * channels * h.extra)
          case Eof => Eof
          case Got(_, p3) => RicesAt(bits, p3, mults, h.samples, h.bps, p)
  }

  datatype Scan = Fail | End(pos: nat) | Element(channels: nat, pos: nat)

  function ElementAt(bits: seq<bool>, pos: nat, p: Params): (r: Scan)
    ensures !r.Fail? && pos <= |bits| ==> pos < r.pos <= |bits|
  {
    match ReadAt(bits, pos, 3)
    case Eof => Fail
    case Got(tag, p0) =>
      if tag == 7 then End(p0)
      else if tag > 1 && tag != 3 then Fail
      else
        var channels := if tag == 1 then 2 else 1;
        var h := HeadAt(bits, p0, channels, p);
        if h.BadHead? then Fail
        else
          var body := if h.raw then SkipAt(bits, h.pos, h.samples * channels * p.sampleSize) else CompressedAt(bits, channels, h, p);
          if body.Eof? then Fail else Element(channels, body.pos)
  }

  // ---- Locality

  /** The remainder is looked at k bits ahead, but when its last bit is left unread
      the value does not depend on that bit. */
  lemma {:induction false} ScalarLocal(a: seq<bool>, b: seq<bool>, pos: nat, k: nat, bps: nat)
    requires pos <= |a| && ScalarAt(a, pos, k, bps).Got? && Same(a, b, ScalarAt(a, pos, k, bps).pos)
    ensures ScalarAt(b, pos, k, bps) == ScalarAt(a, pos, k, bps)
  {
    UnaryLocal(a, b, pos, 0);
    var u := UnaryAt(a, pos, 0);
    if u.value > 8 {
      ReadLocal(a, b, u.pos, bps);
    } else if k != 1 {
      var p, extra := u.pos, ReadAt(a, u.pos, k).value;
      if extra > 1 {
        ReadLocal(a, b, p, k);
      } else {
        LowRead(a, b, p, k);
      }
    }
  }

  /** A k-bit read below 2 stays below 2 whatever its last bit is. */
  lemma {:induction false} LowRead(a: seq<bool>, b: seq<bool>, pos: nat, k: nat)
    requires k > 0 && ReadAt(a, pos, k).Got? && ReadAt(a, pos, k).value <= 1
    requires Same(a, b, pos + k - 1)
    ensures ReadAt(b, pos, k).Got? && ReadAt(b, pos, k).value <= 1
  {
    assert a[pos..pos + k] == a[pos..pos + k - 1] + [a[pos + k - 1]];
    assert b[pos..pos + k] == b[pos..pos + k - 1] + [b[pos + k - 1]];
    assert a[pos..pos + k - 1] == b[pos..pos + k - 1];
    var high := Value(a[pos..pos + k - 1]);
    ValueAppend(a[pos..pos + k - 1], a[pos + k - 1]);
    ValueAppend(b[pos..pos + k - 1], b[pos + k - 1]);
    EvenWrap(high, if a[pos + k - 1] then 1 else 0, if b[pos + k - 1] then 1 else 0);
  }

  lemma EvenWrap(high: nat, x: nat, y: nat)
    requires x < 2 && y < 2 && (2 * high + x) % U32 <= 1
    ensures (2 * high + y) % U32 <= 1
  {
    Doubled(high, x);
    Doubled(high, y);
  }

  lemma {:induction false} RiceLocal(a: seq<bool>, b: seq<bool>, pos: nat, i: nat, samples: nat, history: nat, sign: nat, bps: nat, mult: nat, limit: nat)
    requires pos <= |a| && RiceAt(a, pos, i, samples, history, sign, bps, mult, limit).Got?
    requires Same(a, b, RiceAt(a, pos, i, samples, history, sign, bps, mult, limit).pos)
    ensures RiceAt(b, pos, i, samples, history, sign, bps, mult, limit) == RiceAt(a, pos, i, samples, history, sign, bps, mult, limit)
    decreases samples - i
  {
    hide ScalarAt, NextHistory, RiceK, RunK, Log2;
    if i < samples {
      var first := ScalarAt(a, pos, RiceK(history, limit), bps);
      ScalarLocal(a, b, pos, RiceK(history, limit), bps);
      var h := NextHistory(history, (first.value + sign) % U32, mult);
      if h < 128 && i + 1 < samples {
        var second := ScalarAt(a, first.pos, RunK(h, limit), 16);
        var n := if second.value >= samples - i then samples - i - 1 else second.value;
        ScalarLocal(a, b, first.pos, RunK(h, limit), 16);
        RiceLocal(a, b, second.pos, i + n + 1, samples, 0, if n <= 0xffff then 1 else 0, bps, mult, limit);
      } else {
        RiceLocal(a, b, first.pos, i + 1, samples, h, 0, bps, mult, limit);
      }
    }
  }

  lemma {:induction false} LpcLocal(a: seq<bool>, b: seq<bool>, pos: nat, maxSamples: nat)
    requires pos <= |a| && LpcAt(a, pos, maxSamples).Got? && Same(a, b, LpcAt(a, pos, maxSamples).pos)
    ensures LpcAt(b, pos, maxSamples) == LpcAt(a, pos, maxSamples)
  {
    ReadLocal(a, b, pos, 4);
    ReadLocal(a, b, pos + 4, 4);
    ReadLocal(a, b, pos + 8, 3);
    ReadLocal(a, b, pos + 11, 5);
  }

  lemma {:induction false} LpcsLocal(a: seq<bool>, b: seq<bool>, pos: nat, channels: nat, maxSamples: nat)
    requires pos <= |a| && LpcsAt(a, pos, channels, maxSamples).Lpcs? && Same(a, b, LpcsAt(a, pos, channels, maxSamples).pos)
    ensures LpcsAt(b, pos, channels, maxSamples) == LpcsAt(a, pos, channels, maxSamples)
    decreases channels
  {
    hide LpcAt;
    if channels > 0 {
      LpcLocal(a, b, pos, maxSamples);
      LpcsLocal(a, b, LpcAt(a, pos, maxSamples).pos, channels - 1, maxSamples);
    }
  }

  lemma {:induction false} RicesLocal(a: seq<bool>, b: seq<bool>, pos: nat, mults: seq<nat>, samples: nat, bps: nat, p: Params)
    requires pos <= |a| && RicesAt(a, pos, mults, samples, bps, p).Got? && Same(a, b, RicesAt(a, pos, mults, samples, bps, p).pos)
    ensures RicesAt(b, pos, mults, samples, bps, p) == RicesAt(a, pos, mults, samples, bps, p)
    decreases |mults|
  {
    hide RiceAt;
    if mults != [] {
      RiceLocal(a, b, pos, 0, samples, p.initialHistory, 0, bps, mults[0] * p.historyMult / 4, p.limit);
      RicesLocal(a, b, RiceAt(a, pos, 0, samples, p.initialHistory, 0, bps, mults[0] * p.historyMult / 4, p.limit).pos,
                 mults[1..], samples, bps, p);
    }
  }

  lemma {:induction false} HeadLocal(a: seq<bool>, b: seq<bool>, pos: nat, channels: nat, p: Params)
    requires pos <= |a| && HeadAt(a, pos, channels, p).Head? && Same(a, b, HeadAt(a, pos, channels, p).pos)
    ensures HeadAt(b, pos, channels, p) == HeadAt(a, pos, channels, p)
  {
    ReadLocal(a, b, pos + 16, 1);
    ReadLocal(a, b, pos + 17, 2);
    ReadLocal(a, b, pos + 19, 1);
    if ReadAt(a, pos + 16, 1).value != 0 {
      ReadLocal(a, b, pos + 20, 32);
    }
  }

  lemma {:induction false} CompressedLocal(a: seq<bool>, b: seq<bool>, channels: nat, h: Head, p: Params)
    requires h.Head? && h.pos <= |a| && CompressedAt(a, channels, h, p).Got? && Same(a, b, CompressedAt(a, channels, h, p).pos)
    ensures CompressedAt(b, channels, h, p) == CompressedAt(a, channels, h, p)
  {
    hide LpcsAt, RicesAt, Value;
    ReadLocal(a, b, h.pos, 8);
    ReadLocal(a, b, h.pos + 8, 8);
    var lpcs := LpcsAt(a, h.pos + 16, channels, p.maxSamples);
    LpcsLocal(a, b, h.pos + 16, channels, p.maxSamples);
    RicesLocal(a, b, lpcs.pos + h.samples * channels * h.extra, lpcs.mults, h.samples, h.bps, p);
  }

  /** An element's extent depends only on the bits before its end. */
  lemma {:induction false} ElementLocal(a: seq<bool>, b: seq<bool>, pos: nat, p: Params)
    requires pos <= |a| && !ElementAt(a, pos, p).Fail? && Same(a, b, ElementAt(a, pos, p).pos)
    ensures ElementAt(b, pos, p) == ElementAt(a, pos, p)
  {
    hide HeadAt, CompressedAt;
    ReadLocal(a, b, pos, 3);
    if ElementAt(a, pos, p).Element? {
      var channels := ElementAt(a, pos, p).channels;
      HeadLocal(a, b, pos + 3, channels, p);
      var h := HeadAt(a, pos + 3, channels, p);
      if !h.raw {
        CompressedLocal(a, b, channels, h, p);
      }
    }
  }

  // ---- The body end

  /** The end of the body from pos on, -1 when an element does not parse; used
      channels are done, last is the end of the last element. */
  function BodyEndAt(bits: seq<bool>, pos: nat, used: nat, last: int, p: Params): (r: int)
    requires pos <= |bits|
    ensures r == -1 || r == last || pos < r <= |bits|
    decreases |bits| - pos
  {
    if |bits| - pos < 3 then last
    else match ElementAt(bits, pos, p)
      case Fail => -1
      case End(q) => q
      case Element(channels, q) =>
        if used + channels >= p.channels then q else BodyEndAt(bits, q, used + channels, q, p)
  }

  function BodyEnd(bits: seq<bool>, p: Params): (r: int)
    ensures r == -1 || 0 < r <= |bits|
  {
    BodyEndAt(bits, 0, 0, -1, p)
  }

  lemma {:induction false} BodyEndLocal(a: seq<bool>, b: seq<bool>, pos: nat, used: nat, last: int, p: Params)
    requires pos <= |a| && -1 <= last <= pos && BodyEndAt(a, pos, used, last, p) >= 0
    requires Same(a, b, BodyEndAt(a, pos, used, last, p))
    ensures BodyEndAt(b, pos, used, last, p) == BodyEndAt(a, pos, used, last, p)
    decreases |a| - pos
  {
    hide ElementAt;
    if |a| - pos >= 3 {
      ElementLocal(a, b, pos, p);
      var e := ElementAt(a, pos, p);
      if e.Element? && used + e.channels < p.channels {
        BodyEndLocal(a, b, e.pos, used + e.channels, e.pos, p);
      }
    }
  }

  // ---- One packet's repair

  /** The body ends with room for a tag, and the tag there is not END. */
  predicate NeedsPatch(bits: seq<bool>, p: Params) {
    var end := BodyEnd(bits, p);
    0 <= end && end + 3 <= |bits| && bits[end..end + 3] != [true, true, true]
  }

  function Repaired(bits: seq<bool>, p: Params): (r: seq<bool>)
    ensures |r| == |bits|
  {
    if NeedsPatch(bits, p) then Terminated(bits, 0, |bits|, BodyEnd(bits, p)) else bits
  }

  /** A repair changes no bit before the body end, and leaves the body end where it
      was with END behind it: repairing again finds nothing to do. */
  lemma {:induction false} RepairedOnce(bits: seq<bool>, p: Params)
    ensures BodyEnd(Repaired(bits, p), p) == BodyEnd(bits, p)
    ensures !NeedsPatch(Repaired(bits, p), p)
    ensures forall i :: 0 <= i < |bits| && i < BodyEnd(bits, p) ==> Repaired(bits, p)[i] == bits[i]
  {
    hide BodyEndAt;
    if NeedsPatch(bits, p) {
      var end := BodyEnd(bits, p);
      var now := Repaired(bits, p);
      BodyEndLocal(bits, now, 0, 0, -1, p);
      assert now[end..end + 3] == [true, true, true];
    }
  }

  // ---- The methods

  method IntLog2(x: nat) returns (result: nat)
    ensures result == Log2(x)
  {
    var rest := x;
    result := 0;
    while rest > 1
      invariant result + Log2(rest) == Log2(x)
    {
      rest, result := rest / 2, result + 1;
    }
  }

  method DecodeScalar(reader: BitReader, k: nat, bps: nat) returns (r: Option<nat>)
    modifies reader
    ensures reader.Agrees(r, ScalarAt(Bits(reader.buf), old(reader.pos), k, bps))
  {
    hide Bits, UnaryAt;
    var unary := reader.Unary09();
    if unary.None? {
      return None;
    }
    var x := unary.value;
    if x > 8 {
      r := reader.Read(bps);
      return;
    }
    if k != 1 {
      var extra := reader.Show(k);
      if extra.None? {
        return None;
      }
      x := x * Pow2(k) - x;
      var ok;
      if extra.value > 1 {
        x := x + extra.value - 1;
        ok := reader.Skip(k);
      } else {
        ok := reader.Skip(k - 1);
      }
      if !ok {
        return None;
      }
      x := x % U32;
    }
    return Some(x);
  }

  /** skipALACRice. The runaway guard is kept; the contract, which has no such
      failure, shows that it never fires. */
  method SkipRice(reader: BitReader, samples: nat, bps: nat, mult: nat, p: Params) returns (ok: bool)
    modifies reader
    ensures reader.Agrees(if ok then Some(0) else None,
                          RiceAt(Bits(reader.buf), old(reader.pos), 0, samples, p.initialHistory, 0, bps, mult, p.limit))
  {
    hide Bits, ScalarAt, Log2, NextHistory;
    var history, sign, i, iterations := p.initialHistory, 0, 0, 0;
    while i < samples
      invariant iterations <= i <= samples
      invariant RiceAt(Bits(reader.buf), old(reader.pos), 0, samples, p.initialHistory, 0, bps, mult, p.limit)
             == RiceAt(Bits(reader.buf), reader.pos, i, samples, history, sign, bps, mult, p.limit)
    {
      iterations := iterations + 1;
      if iterations > samples * 4 + 100 {
        return false;
      }
      var k := IntLog2(history / 512 + 3);
      k := Min(k, p.limit);
      var scalar := DecodeScalar(reader, k, bps);
      if scalar.None? {
        return false;
      }
      var x := (scalar.value + sign) % U32;
      sign := 0;
      history := NextHistory(history, x, mult);
      if history < 128 && i + 1 < samples {
        var log := IntLog2(history);
        ghost var spec := RunK(history, p.limit);
        var k2 := Min(7 - log as int + (history + 16) / 64, p.limit);
        var run := DecodeScalar(reader, k2, 16);
        if run.None? {
          return false;
        }
        var n := run.value;
        if n > 0 {
          if n >= samples - i {
            n := samples - i - 1;
          }
          i := i + n;
        }
        if n <= 0xffff {
          sign := 1;
        }
        history := 0;
      }
      i := i + 1;
    }
    return true;
  }

  /** One channel's prediction header. */
  method ReadLpc(reader: BitReader, maxSamples: nat) returns (r: Option<nat>)
    requires reader.pos <= 8 * |reader.buf|
    modifies reader
    ensures reader.Agrees(r, LpcAt(Bits(reader.buf), old(reader.pos), maxSamples))
  {
    hide Bits, Value;
    var skipped := reader.Read(4);
    if skipped.None? {
      return None;
    }
    var quant := reader.Read(4);
    if quant.None? {
      return None;
    }
    var mult := reader.Read(3);
    if mult.None? {
      return None;
    }
    var order := reader.Read(5);
    if order.None? {
      return None;
    }
    if quant.value == 0 || order.value >= maxSamples {
      return None;
    }
    ghost var start := reader.pos;
    var i := 0;
    while i < order.value
      invariant 0 <= i <= order.value
      invariant reader.pos == start + 16 * i && reader.pos <= 8 * |reader.buf|
    {
      var coefficient := reader.Read(16);
      if coefficient.None? {
        return None;
      }
      i := i + 1;
    }
    return mult;
  }

  /** The prediction headers of an element's channels. */
  method ReadLpcs(reader: BitReader, channels: nat, maxSamples: nat) returns (r: Lpcs)
    requires reader.pos <= 8 * |reader.buf|
    modifies reader
    ensures r == LpcsAt(Bits(reader.buf), old(reader.pos), channels, maxSamples)
    ensures r.Lpcs? ==> reader.pos == r.pos
    decreases channels
  {
    hide Bits, LpcAt;
    if channels == 0 {
      return Lpcs([], reader.pos);
    }
    var mult := ReadLpc(reader, maxSamples);
    if mult.None? {
      return NoLpcs;
    }
    var rest := ReadLpcs(reader, channels - 1, maxSamples);
    return if rest.NoLpcs? then NoLpcs else Lpcs([mult.value] + rest.mults, rest.pos);
  }

  method SkipRices(reader: BitReader, mults: seq<nat>, samples: nat, bps: nat, p: Params) returns (ok: bool)
    modifies reader
    ensures reader.Agrees(if ok then Some(0) else None, RicesAt(Bits(reader.buf), old(reader.pos), mults, samples, bps, p))
  {
    hide Bits, RiceAt;
    var channel := 0;
    while channel < |mults|
      invariant 0 <= channel <= |mults|
      invariant RicesAt(Bits(reader.buf), old(reader.pos), mults, samples, bps, p)
             == RicesAt(Bits(reader.buf), reader.pos, mults[channel..], samples, bps, p)
    {
      var rice := SkipRice(reader, samples, bps, mults[channel] * p.historyMult / 4, p);
      if !rice {
        return false;
      }
      assert mults[channel..][1..] == mults[channel + 1..];
      channel := channel + 1;
    }
    return true;
  }

  /** scanALACElement. */
  method ScanElement(reader: BitReader, p: Params) returns (r: Scan)
    requires reader.pos <= 8 * |reader.buf|
    modifies reader
    ensures r == ElementAt(Bits(reader.buf), old(reader.pos), p)
    ensures !r.Fail? ==> reader.pos == r.pos
  {
    hide Bits, LpcsAt, RicesAt;
    var tag := reader.Read(3);
    if tag.None? {
      return Fail;
    }
    if tag.value == 7 {
      return End(reader.pos);
    }
    if tag.value > 1 && tag.value != 3 {
      return Fail;
    }
    var channels := if tag.value == 1 then 2 else 1;
    var ok := reader.Skip(16);
    if !ok {
      return Fail;
    }
    var hasSize := reader.Read(1);
    if hasSize.None? {
      return Fail;
    }
    var extraRaw := reader.Read(2);
    if extraRaw.None? {
      return Fail;
    }
    var extra := 8 * extraRaw.value;
    var bps := p.sampleSize - extra + channels - 1;
    if bps < 1 || bps > 32 {
      return Fail;
    }
    var raw := reader.Read(1);
    if raw.None? {
      return Fail;
    }
    var samples := p.maxSamples;
    if hasSize.value != 0 {
      var size := reader.Read(32);
      if size.None? {
        return Fail;
      }
      samples := size.value;
    }
    if samples == 0 || samples > p.maxSamples {
      return Fail;
    }
    ghost var h := Head(extra, bps, raw.value != 0, samples, reader.pos);
    assert h == HeadAt(Bits(reader.buf), old(reader.pos) + 3, channels, p);
    if raw.value != 0 {
      ok := reader.Skip(samples * channels * p.sampleSize);
      return if ok then Element(channels, reader.pos) else Fail;
    }
    ok := SkipCompressed(reader, channels, extra, bps, samples, p, h);
    return if ok then Element(channels, reader.pos) else Fail;
  }

  /** The compressed body of an element. */
  method SkipCompressed(reader: BitReader, channels: nat, extra: nat, bps: nat, samples: nat, p: Params, ghost h: Head) returns (ok: bool)
    requires reader.pos <= 8 * |reader.buf| && h == Head(extra, bps, false, samples, reader.pos)
    modifies reader
    ensures reader.Agrees(if ok then Some(0) else None, CompressedAt(Bits(reader.buf), channels, h, p))
  {
    hide Bits, LpcsAt, RicesAt;
    var shift := reader.Read(8);
    if shift.None? {
      return false;
    }
    var left := reader.Read(8);
    if left.None? {
      return false;
    }
    var lpcs := ReadLpcs(reader, channels, p.maxSamples);
    if lpcs.NoLpcs? {
      return false;
    }
    if extra != 0 {
      ok := reader.Skip(samples * channels * extra);
      if !ok {
        return false;
      }
    }
    ok := SkipRices(reader, lpcs.mults, samples, bps, p);
  }

  /** findALACBodyEndBit. */
  method FindBodyEnd(packet: seq<bv8>, p: Params) returns (end: int)
    ensures end == BodyEnd(Bits(packet), p)
  {
    hide Bits, ElementAt;
    var reader := new BitReader(packet);
    var used, last := 0, -1;
    while reader.Left() >= 3
      invariant reader.buf == packet && fresh(reader) && reader.pos <= 8 * |packet|
      invariant BodyEnd(Bits(packet), p) == BodyEndAt(Bits(packet), reader.pos, used, last, p)
      decreases reader.Left()
    {
      var scan := ScanElement(reader, p);
      match scan
      case Fail => return -1;
      case End(pos) => return pos;
      case Element(channels, pos) =>
        last, used := pos, used + channels;
        if used >= p.channels {
          return last;
        }
    }
    return last;
  }
}

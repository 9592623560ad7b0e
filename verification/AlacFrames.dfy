/** ALAC frames as an encoder writes them, and what the scanner reads of them. The writer
    is stated by itself: it shares no definition with the scanner's reading of elements. */
module AlacFrames {
  import opened Wrappers
  import opened Layout
  import opened AlacBits
  import opened AlacScan

  // ---- Numbers

  /** The low n bits of v, most significant first. */
  function Digits(v: nat, n: nat): (b: seq<bool>)
    ensures |b| == n
  {
    if n == 0 then [] else Digits(v / 2, n - 1) + [v % 2 == 1]
  }

  lemma {:induction false} DigitsSpell(v: nat, n: nat)
    requires v < Pow2(n)
    ensures Value(Digits(v, n)) == v
  {
    if n > 0 {
      DigitsSpell(v / 2, n - 1);
      ValueAppend(Digits(v / 2, n - 1), v % 2 == 1);
    }
  }

  lemma {:induction false} NumberRead(bits: seq<bool>, pos: nat, v: nat, n: nat)
    requires v < Pow2(n) && v < U32 && At(bits, pos, Digits(v, n))
    ensures ReadAt(bits, pos, n) == Got(v, pos + n)
  {
    DigitsSpell(v, n);
  }

  lemma BitRead(bits: seq<bool>, pos: nat, b: bool)
    requires At(bits, pos, [b])
    ensures ReadAt(bits, pos, 1) == Got(if b then 1 else 0, pos + 1)
  {
    AtByte(bits, pos, [b], 0);
    OneBit(bits, pos);
  }

  lemma Pow2Values()
    ensures Pow2(0) == 1 && Pow2(1) == 2 && Pow2(2) == 4 && Pow2(3) == 8 && Pow2(4) == 16 && Pow2(5) == 32
    ensures Pow2(6) == 64 && Pow2(7) == 128 && Pow2(8) == 256 && Pow2(16) == 0x1_0000 && Pow2(24) == 0x100_0000 && Pow2(32) == U32
  {
    assert Pow2(8) == 256;
    assert Pow2(16) == 0x1_0000;
    assert Pow2(24) == 0x100_0000;
  }

  lemma {:induction false} Pow2Grows(a: nat, b: nat)
    requires a <= b
    ensures Pow2(a) <= Pow2(b)
  {
    if a < b {
      Pow2Grows(a, b - 1);
    }
  }

  // ---- Rice codes

  function Ones(q: nat): (b: seq<bool>)
    ensures |b| == q
  {
    seq(q, _ => true)
  }

  /** r in k bits as r + 1, or in k - 1 bits when it is 0. */
  function Remainder(r: nat, k: nat): (b: seq<bool>)
    requires k >= 1
    ensures |b| == if r == 0 then k - 1 else k
  {
    if r == 0 then Digits(0, k - 1) else Digits(r + 1, k)
  }

  /** q * (2^k - 1) + r: q ones, a zero, and the remainder. */
  function ShortText(q: nat, r: nat, k: nat): (b: seq<bool>)
    requires k >= 1
    ensures |b| == q + 1 + if r == 0 then k - 1 else k
  {
    Ones(q) + ([false] + Remainder(r, k))
  }

  /** Nine ones, and v in width bits. */
  function EscapeText(v: nat, width: nat): (b: seq<bool>)
    ensures |b| == 9 + width
  {
    Ones(9) + Digits(v, width)
  }

  lemma {:induction false} UnaryRead(bits: seq<bool>, pos: nat, count: nat, q: nat)
    requires count + q <= 8 && pos + q < |bits| && !bits[pos + q]
    requires forall i :: pos <= i < pos + q ==> bits[i]
    ensures UnaryAt(bits, pos, count) == Got(count + q, pos + q + 1)
    decreases q
  {
    if q > 0 {
      UnaryRead(bits, pos + 1, count + 1, q - 1);
    }
  }

  lemma {:induction false} NineRead(bits: seq<bool>, pos: nat, count: nat)
    requires count <= 9 && pos + 9 - count <= |bits|
    requires forall i :: pos <= i < pos + 9 - count ==> bits[i]
    ensures UnaryAt(bits, pos, count) == Got(9, pos + 9 - count)
    decreases 9 - count
  {
    if count < 9 {
      NineRead(bits, pos + 1, count + 1);
    }
  }

  /** A short code is read back as its number, up to its end. The reader looks one bit
      past a remainder of 0, and fails when there is none. */
  lemma {:induction false} ShortRead(bits: seq<bool>, pos: nat, q: nat, r: nat, k: nat, width: nat)
    requires 1 <= k <= 32 && q <= 8 && r + 1 < Pow2(k) && q * (Pow2(k) - 1) + r < U32
    requires At(bits, pos, ShortText(q, r, k))
    ensures var end := pos + |ShortText(q, r, k)|;
      ScalarAt(bits, pos, k, width) ==
        if r == 0 && k > 1 && end == |bits| then Eof else Got(q * (Pow2(k) - 1) + r, end)
  {
    hide Pow2, At, ScalarAt, ShortText;
    Distributes(q, Pow2(k));
    if k > 1 {
      LongRead(bits, pos, q, r, k, width, q * (Pow2(k) - 1));
    } else {
      OneWide();
      UnitRead(bits, pos, q, width);
    }
  }

  lemma {:induction false} LongRead(bits: seq<bool>, pos: nat, q: nat, r: nat, k: nat, width: nat, x: nat)
    requires 1 < k <= 32 && q <= 8 && r + 1 < Pow2(k) && x == q * Pow2(k) - q && x + r < U32
    requires At(bits, pos, ShortText(q, r, k))
    ensures var end := pos + |ShortText(q, r, k)|;
      ScalarAt(bits, pos, k, width) == if r == 0 && end == |bits| then Eof else Got(x + r, end)
  {
    hide Pow2, At, UnaryAt, ReadAt, Ones, Remainder, ScalarAt;
    AtSplit(bits, pos, Ones(q), [false] + Remainder(r, k));
    AtSplit(bits, pos + q, [false], Remainder(r, k));
    PrefixRead(bits, pos, q);
    RemainderRead(bits, pos + q + 1, r, k);
    LongerForm(bits, pos, q, pos + q + 1, k, width, x);
  }

  lemma {:induction false} UnitRead(bits: seq<bool>, pos: nat, q: nat, width: nat)
    requires q <= 8 && At(bits, pos, ShortText(q, 0, 1))
    ensures ScalarAt(bits, pos, 1, width) == Got(q, pos + |ShortText(q, 0, 1)|)
  {
    hide At, UnaryAt, Ones, Remainder;
    AtSplit(bits, pos, Ones(q), [false] + Remainder(0, 1));
    AtSplit(bits, pos + q, [false], Remainder(0, 1));
    PrefixRead(bits, pos, q);
  }

  /** The scanner's value, its product given as a number. */
  lemma LongerForm(bits: seq<bool>, pos: nat, q: nat, p: nat, k: nat, width: nat, x: nat)
    requires UnaryAt(bits, pos, 0) == Got(q, p) && q <= 8 && k > 1 && q * Pow2(k) - q == x
    ensures ScalarAt(bits, pos, k, width) ==
      match ReadAt(bits, p, k)
      case Eof => Eof
      case Got(extra, _) =>
        if p + (if extra > 1 then k else k - 1) > |bits| then Eof
        else Got((x + if extra > 1 then extra - 1 else 0) % U32, p + if extra > 1 then k else k - 1)
  {
    hide UnaryAt, ReadAt, Pow2;
  }

  lemma {:induction false} PrefixRead(bits: seq<bool>, pos: nat, q: nat)
    requires q <= 8 && At(bits, pos, Ones(q)) && At(bits, pos + q, [false])
    ensures UnaryAt(bits, pos, 0) == Got(q, pos + q + 1)
  {
    hide At, Ones;
    OnesAre(bits, pos, q);
    AtByte(bits, pos + q, [false], 0);
    UnaryRead(bits, pos, 0, q);
  }

  lemma {:induction false} RemainderRead(bits: seq<bool>, pos: nat, r: nat, k: nat)
    requires 1 < k <= 32 && r + 1 < Pow2(k) && At(bits, pos, Remainder(r, k))
    ensures pos + |Remainder(r, k)| <= |bits|
    ensures r > 0 ==> ReadAt(bits, pos, k) == Got(r + 1, pos + k)
    ensures r == 0 && pos + k - 1 == |bits| ==> ReadAt(bits, pos, k).Eof?
    ensures r == 0 && pos + k <= |bits| ==> ReadAt(bits, pos, k).Got? && ReadAt(bits, pos, k).value <= 1
  {
    hide Pow2, At, Digits, ReadAt;
    AtInside(bits, pos, Remainder(r, k));
    if r > 0 {
      Pow2Values();
      Pow2Grows(k, 32);
      NumberRead(bits, pos, r + 1, k);
    } else {
      ZeroRead(bits, pos, k);
    }
  }

  lemma OneWide()
    ensures Pow2(1) == 2
  {
  }

  lemma Distributes(q: nat, n: nat)
    requires n > 0
    ensures q * n - q == q * (n - 1) && q * (n - 1) >= 0
  {
  }

  lemma OnesAre(bits: seq<bool>, pos: nat, q: nat)
    requires At(bits, pos, Ones(q))
    ensures pos + q <= |bits| && forall i :: pos <= i < pos + q ==> bits[i]
  {
    forall i | pos <= i < pos + q
      ensures bits[i]
    {
      AtByte(bits, pos, Ones(q), i - pos);
    }
  }

  /** k - 1 zeros, and whatever bit follows them. */
  lemma {:induction false} ZeroRead(bits: seq<bool>, pos: nat, k: nat)
    requires k > 1 && At(bits, pos, Digits(0, k - 1))
    ensures pos + k - 1 <= |bits|
    ensures if pos + k - 1 == |bits| then ReadAt(bits, pos, k).Eof?
      else ReadAt(bits, pos, k).Got? && ReadAt(bits, pos, k).value <= 1
  {
    hide Pow2;
    if pos + k <= |bits| {
      assert bits[pos..pos + k] == Digits(0, k - 1) + [bits[pos + k - 1]];
      DigitsSpell(0, k - 1);
      ValueAppend(Digits(0, k - 1), bits[pos + k - 1]);
    }
  }

  /** An escaped number is read back as itself. */
  lemma {:induction false} EscapeRead(bits: seq<bool>, pos: nat, v: nat, k: nat, width: nat)
    requires v < Pow2(width) && v < U32 && At(bits, pos, EscapeText(v, width))
    ensures ScalarAt(bits, pos, k, width) == Got(v, pos + 9 + width)
  {
    hide Pow2, At, UnaryAt, Digits, ReadAt;
    AtSplit(bits, pos, Ones(9), Digits(v, width));
    OnesAre(bits, pos, 9);
    NineRead(bits, pos, 0);
    NumberRead(bits, pos + 9, v, width);
  }

  /** A number and how it is written: short with parameter k, or escaped in width bits. */
  datatype Code = Code(value: nat, escaped: bool, k: nat, width: nat) {
    predicate Fits() {
      value < U32 && k >= 1 && if escaped then value < Pow2(width) else value < 9 * (Pow2(k) - 1)
    }

    function Text(): (b: seq<bool>)
      requires Fits()
      ensures |b| > 0
    {
      if escaped then EscapeText(value, width) else ShortText(value / (Pow2(k) - 1), value % (Pow2(k) - 1), k)
    }

    /** Its reading looks at the bit behind it. */
    predicate Peeks()
      requires Fits()
    {
      !escaped && k > 1 && value % (Pow2(k) - 1) == 0
    }
  }

  lemma {:induction false} CodeRead(bits: seq<bool>, pos: nat, code: Code)
    requires code.Fits() && code.k <= 32 && At(bits, pos, code.Text())
    ensures var end := pos + |code.Text()|;
      && end <= |bits|
      && ScalarAt(bits, pos, code.k, code.width) == if code.Peeks() && end == |bits| then Eof else Got(code.value, end)
  {
    hide At, ScalarAt, ShortText, EscapeText, Pow2;
    AtInside(bits, pos, code.Text());
    if code.escaped {
      EscapeRead(bits, pos, code.value, code.k, code.width);
    } else {
      var step := Pow2(code.k) - 1;
      Divides(code.value, step);
      ShortRead(bits, pos, code.value / step, code.value % step, code.k, code.width);
    }
  }

  lemma Divides(v: nat, step: nat)
    requires step > 0 && v < 9 * step
    ensures v / step <= 8 && v % step < step && (v / step) * step + v % step == v
  {
    assert v == step * (v / step) + v % step;
  }

  function Texts(codes: seq<Code>): seq<bool>
    requires forall i :: 0 <= i < |codes| ==> codes[i].Fits()
  {
    if codes == [] then [] else codes[0].Text() + Texts(codes[1..])
  }

  // ---- The adaptive coder of one channel

  /** The least k from the given one on for which the history is below 1024 * 2^k - 1536,
      at most limit. */
  function Width(history: nat, k: nat, limit: nat): (w: nat)
    requires 1 <= k <= limit
    ensures k <= w <= limit
    decreases limit - k
  {
    if k == limit || history + 1536 < 1024 * Pow2(k) then k else Width(history, k + 1, limit)
  }

  /** The parameter of a run's length. */
  function RunWidth(history: nat, limit: nat): (w: nat)
    requires history < 128 && limit >= 1
    ensures 1 <= w <= limit
  {
    var w :=
      if history < 2 then 7
      else if history < 4 then 6
      else if history < 8 then 5
      else if history < 16 then 4
      else if history < 32 then 3
      else if history < 48 then 2
      else if history < 64 then 3
      else if history < 112 then 2
      else 3;
    if w < limit then w else limit
  }

  /** The history after a sample, in 32 bits. */
  function Adapted(history: nat, x: nat, mult: nat): (h: nat)
    ensures h < U32
  {
    if x >= 0x1_0000 then 0xffff
    else
      var decay := history * mult % U32 / 512;
      (history - decay + mult * x) % U32
  }

  /** Number of bits of a sample, rate of adaptation and largest parameter. */
  datatype Coder = Coder(width: nat, mult: nat, limit: nat)

  /** What an encoder emits: a folded residual, or the length of a run of zeros. */
  datatype Item = Sample(value: nat, escaped: bool) | Run(zeros: nat, escaped: bool)

  /** left samples are to come; the next one is coded one less after a run, for it is not
      zero; a run is due when the history has got small. */
  datatype State = State(left: nat, history: nat, afterRun: bool, runDue: bool)

  predicate Allowed(c: Coder, s: State, item: Item) {
    match item
    case Sample(value, _) => !s.runDue && s.left > 0 && value < Pow2(c.width) && (s.afterRun ==> value > 0)
    case Run(zeros, _) => s.runDue && s.history < 128 && zeros <= s.left && zeros < 0x1_0000
  }

  function CodeOf(c: Coder, s: State, item: Item): Code
    requires c.limit >= 1 && Allowed(c, s, item)
  {
    match item
    case Sample(value, escaped) => Code(if s.afterRun then value - 1 else value, escaped, Width(s.history, 1, c.limit), c.width)
    case Run(zeros, escaped) => Code(zeros, escaped, RunWidth(s.history, c.limit), 16)
  }

  function Next(c: Coder, s: State, item: Item): State
    requires Allowed(c, s, item)
  {
    match item
    case Sample(value, _) =>
      var history := Adapted(s.history, value, c.mult);
      State(s.left - 1, history, false, history < 128 && s.left > 1)
    case Run(zeros, _) => State(s.left - zeros, 0, true, false)
  }

  /** The items are the whole channel from the state s on. */
  predicate Codable(c: Coder, s: State, items: seq<Item>)
    requires c.limit >= 1
    decreases |items|
  {
    if items == [] then s.left == 0
    else Allowed(c, s, items[0]) && CodeOf(c, s, items[0]).Fits() && Codable(c, Next(c, s, items[0]), items[1..])
  }

  function Codes(c: Coder, s: State, items: seq<Item>): (codes: seq<Code>)
    requires c.limit >= 1 && Codable(c, s, items)
    ensures |codes| == |items| && forall i :: 0 <= i < |codes| ==> codes[i].Fits()
    decreases |items|
  {
    if items == [] then [] else [CodeOf(c, s, items[0])] + Codes(c, Next(c, s, items[0]), items[1..])
  }

  lemma {:induction false} Log2Is(x: nat, n: nat)
    requires Pow2(n) <= x < 2 * Pow2(n)
    ensures Log2(x) == n
    decreases n
  {
    if n > 0 {
      Log2Is(x / 2, n - 1);
    }
  }

  lemma {:induction false} WidthIs(history: nat, k: nat, limit: nat)
    requires 1 <= k <= limit && Pow2(k) <= history / 512 + 3
    ensures Width(history, k, limit) == RiceK(history, limit)
    decreases limit - k
  {
    var x := history / 512 + 3;
    hide Pow2, Log2;
    Doubles(k);
    if history + 1536 < 1024 * Pow2(k) {
      Log2Is(x, k);
    } else if k == limit {
      if Log2(x) < k {
        Log2Bound(x);
        Pow2Grows(Log2(x) + 1, k);
        Doubles(Log2(x));
      }
    } else {
      WidthIs(history, k + 1, limit);
    }
  }

  lemma Doubles(k: nat)
    ensures Pow2(k + 1) == 2 * Pow2(k)
  {
  }

  lemma Log2Bound(x: nat)
    requires x > 0
    ensures Pow2(Log2(x)) <= x < 2 * Pow2(Log2(x))
  {
  }

  /** The parameter of a sample in the source's terms. */
  lemma {:induction false} SampleWidth(history: nat, limit: nat)
    requires limit >= 1 && history < U32
    ensures Width(history, 1, limit) == RiceK(history, limit) && RiceK(history, limit) <= 32
  {
    Pow2Values();
    WidthIs(history, 1, limit);
    Log2Below(history / 512 + 3, 24);
  }

  lemma {:induction false} RunWidthIs(history: nat, limit: nat)
    requires limit >= 1 && history < 128
    ensures RunWidth(history, limit) == RunK(history, limit) && RunK(history, limit) <= 32
  {
    Pow2Values();
    hide Pow2, Log2;
    if history < 2 {
      SmallLog(history);
    } else {
      Log2Is(history, if history < 4 then 1 else if history < 8 then 2 else if history < 16 then 3
                      else if history < 32 then 4 else if history < 64 then 5 else 6);
    }
  }

  lemma SmallLog(x: nat)
    requires x < 2
    ensures Log2(x) == 0
  {
  }

  lemma AdaptedIs(history: nat, x: nat, mult: nat)
    ensures Adapted(history, x, mult) == NextHistory(history, x, mult)
  {
    Commutes(mult, x);
  }

  lemma Commutes(a: nat, b: nat)
    ensures a * b == b * a
  {
  }

  /** The last code's reading looks past its end. */
  predicate LastPeeks(codes: seq<Code>)
    requires forall i :: 0 <= i < |codes| ==> codes[i].Fits()
  {
    codes != [] && codes[|codes| - 1].Peeks()
  }

  /** The reading of the codes: their end, or a failure when the last one wants a bit more. */
  function Ended(bits: seq<bool>, pos: nat, codes: seq<Code>): Read
    requires forall i :: 0 <= i < |codes| ==> codes[i].Fits()
  {
    var end := pos + |Texts(codes)|;
    if LastPeeks(codes) && end == |bits| then Eof else Got(0, end)
  }

  lemma {:induction false} FirstText(bits: seq<bool>, pos: nat, codes: seq<Code>)
    requires codes != [] && forall i :: 0 <= i < |codes| ==> codes[i].Fits()
    requires At(bits, pos, Texts(codes))
    ensures At(bits, pos, codes[0].Text()) && At(bits, pos + |codes[0].Text()|, Texts(codes[1..]))
    ensures pos + |Texts(codes)| <= |bits|
    ensures |Texts(codes)| == |codes[0].Text()| + |Texts(codes[1..])|
    ensures |codes| > 1 ==> Texts(codes[1..]) != [] && LastPeeks(codes) == LastPeeks(codes[1..])
  {
    hide At, Code.Text, Code.Fits, Code.Peeks;
    AtSplit(bits, pos, codes[0].Text(), Texts(codes[1..]));
  }

  /** Reading one code of a stream: it fails only at the last one. */
  lemma {:induction false} FirstRead(bits: seq<bool>, pos: nat, codes: seq<Code>)
    requires codes != [] && forall i :: 0 <= i < |codes| ==> codes[i].Fits() 
    requires codes[0].k <= 32 && At(bits, pos, Texts(codes))
    ensures At(bits, pos + |codes[0].Text()|, Texts(codes[1..]))
    ensures var q := pos + |codes[0].Text()|; var r := ScalarAt(bits, pos, codes[0].k, codes[0].width);
      && (r == if codes[1..] == [] && Ended(bits, pos, codes).Eof? then Eof else Got(codes[0].value, q))
      && (codes[1..] == [] && Ended(bits, pos, codes).Got? ==> Ended(bits, pos, codes) == Got(0, q))
      && (codes[1..] != [] ==> Ended(bits, pos, codes) == Ended(bits, q, codes[1..]))
  {
    hide At, Code.Text, Code.Fits, Code.Peeks, ScalarAt, Texts;
    FirstText(bits, pos, codes);
    CodeRead(bits, pos, codes[0]);
    NoTexts();
    if |codes| > 1 {
      AtInside(bits, pos + |codes[0].Text()|, Texts(codes[1..]));
    }
  }

  lemma NoTexts()
    ensures Texts([]) == []
  {
  }

  /** A channel written from a state is read from that state, up to its end. */
  lemma {:induction false} ChannelRead(bits: seq<bool>, pos: nat, c: Coder, s: State, samples: nat, items: seq<Item>)
    requires c.limit >= 1 && s.left <= samples && s.history < U32 && !s.runDue && c.width <= 32
    requires Codable(c, s, items) && At(bits, pos, Texts(Codes(c, s, items)))
    ensures RiceAt(bits, pos, samples - s.left, samples, s.history, if s.afterRun then 1 else 0, c.width, c.mult, c.limit)
         == Ended(bits, pos, Codes(c, s, items))
    decreases |items|
  {
    hide At, Code.Text, Code.Fits, ScalarAt, Texts, Pow2, Log2, Width, RunWidth, RiceK, RunK, NextHistory, Adapted, Ended, LastPeeks;
    var codes := Codes(c, s, items);
    if items == [] {
      NothingEnded(bits, pos);
    } else {
      SampleWidth(s.history, c.limit);
      Pow2Values();
      Pow2Grows(c.width, 32);
      FirstRead(bits, pos, codes);
      AdaptedIs(s.history, items[0].value, c.mult);
      var t, q := Next(c, s, items[0]), pos + |codes[0].Text()|;
      assert codes[1..] == Codes(c, t, items[1..]);
      if t.runDue {
        RunWidthIs(t.history, c.limit);
        FirstRead(bits, q, codes[1..]);
        var u := Next(c, t, items[1]);
        assert codes[1..][1..] == Codes(c, u, items[1..][1..]);
        ChannelRead(bits, q + |codes[1..][0].Text()|, c, u, samples, items[1..][1..]);
      } else {
        ChannelRead(bits, q, c, t, samples, items[1..]);
      }
    }
  }

  lemma NothingEnded(bits: seq<bool>, pos: nat)
    ensures Ended(bits, pos, []) == Got(0, pos)
  {
  }

  // ---- Elements

  /** A channel's prediction header. */
  datatype Prediction = Prediction(mode: nat, quant: nat, mult: nat, coefficients: seq<nat>) {
    predicate Fits(maxSamples: nat) {
      && mode < 16 && 0 < quant < 16 && mult < 8 && |coefficients| < 32 && |coefficients| < maxSamples
      && forall i :: 0 <= i < |coefficients| ==> coefficients[i] < 0x1_0000
    }

    function Text(): seq<bool> {
      Digits(mode, 4) + (Digits(quant, 4) + (Digits(mult, 3) + (Digits(|coefficients|, 5) + Coefficients(coefficients))))
    }
  }

  function Coefficients(cs: seq<nat>): (b: seq<bool>)
    ensures |b| == 16 * |cs|
  {
    if cs == [] then [] else Digits(cs[0], 16) + Coefficients(cs[1..])
  }

  function Predictions(ps: seq<Prediction>): seq<bool> {
    if ps == [] then [] else ps[0].Text() + Predictions(ps[1..])
  }

  function Mults(ps: seq<Prediction>): (mults: seq<nat>)
    ensures |mults| == |ps|
  {
    if ps == [] then [] else [ps[0].mult] + Mults(ps[1..])
  }

  lemma {:induction false} PredictionRead(bits: seq<bool>, pos: nat, c: Prediction, maxSamples: nat)
    requires c.Fits(maxSamples) && At(bits, pos, c.Text())
    ensures LpcAt(bits, pos, maxSamples) == Got(c.mult, pos + |c.Text()|) && pos + |c.Text()| <= |bits|
  {
    hide Pow2, At, Digits, ReadAt, Coefficients;
    Pow2Values();
    var order := Digits(|c.coefficients|, 5);
    AtSplit(bits, pos, Digits(c.mode, 4), Digits(c.quant, 4) + (Digits(c.mult, 3) + (order + Coefficients(c.coefficients))));
    AtSplit(bits, pos + 4, Digits(c.quant, 4), Digits(c.mult, 3) + (order + Coefficients(c.coefficients)));
    AtSplit(bits, pos + 8, Digits(c.mult, 3), order + Coefficients(c.coefficients));
    AtSplit(bits, pos + 11, order, Coefficients(c.coefficients));
    NumberRead(bits, pos, c.mode, 4);
    NumberRead(bits, pos + 4, c.quant, 4);
    NumberRead(bits, pos + 8, c.mult, 3);
    NumberRead(bits, pos + 11, |c.coefficients|, 5);
    AtInside(bits, pos + 16, Coefficients(c.coefficients));
  }

  lemma {:induction false} PredictionsRead(bits: seq<bool>, pos: nat, ps: seq<Prediction>, maxSamples: nat)
    requires pos <= |bits| && At(bits, pos, Predictions(ps)) && forall i :: 0 <= i < |ps| ==> ps[i].Fits(maxSamples)
    ensures LpcsAt(bits, pos, |ps|, maxSamples) == Lpcs(Mults(ps), pos + |Predictions(ps)|) && pos + |Predictions(ps)| <= |bits|
    decreases |ps|
  {
    hide At, LpcAt, Prediction.Text, Prediction.Fits;
    if ps != [] {
      AtSplit(bits, pos, ps[0].Text(), Predictions(ps[1..]));
      PredictionRead(bits, pos, ps[0], maxSamples);
      PredictionsRead(bits, pos + |ps[0].Text()|, ps[1..], maxSamples);
    }
  }

  /** The coded residuals of the channels, each with its own multiplier. */
  predicate AllCodable(p: Params, width: nat, samples: nat, mults: seq<nat>, channels: seq<seq<Item>>)
    requires p.limit >= 1
    decreases |channels|
  {
    && |mults| == |channels|
    && (channels != [] ==>
          && Codable(Coder(width, mults[0] * p.historyMult / 4, p.limit), Begin(p, samples), channels[0])
          && AllCodable(p, width, samples, mults[1..], channels[1..]))
  }

  function Begin(p: Params, samples: nat): State {
    State(samples, p.initialHistory, false, false)
  }

  function AllCodes(p: Params, width: nat, samples: nat, mults: seq<nat>, channels: seq<seq<Item>>): (codes: seq<Code>)
    requires p.limit >= 1 && AllCodable(p, width, samples, mults, channels)
    ensures forall i :: 0 <= i < |codes| ==> codes[i].Fits()
    decreases |channels|
  {
    if channels == [] then []
    else
      Codes(Coder(width, mults[0] * p.historyMult / 4, p.limit), Begin(p, samples), channels[0])
      + AllCodes(p, width, samples, mults[1..], channels[1..])
  }

  lemma {:induction false} TextsConcat(a: seq<Code>, b: seq<Code>)
    requires forall i :: 0 <= i < |a| ==> a[i].Fits()
    requires forall i :: 0 <= i < |b| ==> b[i].Fits()
    ensures Texts(a + b) == Texts(a) + Texts(b)
    decreases |a|
  {
    hide Code.Text, Code.Fits;
    if a == [] {
      assert a + b == b;
    } else {
      assert (a + b)[1..] == a[1..] + b;
      TextsConcat(a[1..], b);
    }
  }

  lemma {:induction false} SomeTexts(codes: seq<Code>)
    requires codes != [] && forall i :: 0 <= i < |codes| ==> codes[i].Fits()
    ensures |Texts(codes)| > 0
  {
  }

  /** Codes followed by others: they end where the others start, or the stream's end. */
  lemma {:induction false} EndedConcat(bits: seq<bool>, pos: nat, a: seq<Code>, b: seq<Code>)
    requires (forall i :: 0 <= i < |a| ==> a[i].Fits()) && (forall i :: 0 <= i < |b| ==> b[i].Fits())
    requires a != [] && At(bits, pos, Texts(a + b))
    ensures At(bits, pos, Texts(a)) && At(bits, pos + |Texts(a)|, Texts(b)) && pos + |Texts(a)| <= |bits|
    ensures b == [] ==> Ended(bits, pos, a + b) == Ended(bits, pos, a)
    ensures b != [] ==> Ended(bits, pos, a) == Got(0, pos + |Texts(a)|) && Ended(bits, pos, a + b) == Ended(bits, pos + |Texts(a)|, b)
  {
    hide At, Texts, Code.Fits, Code.Peeks;
    TextsConcat(a, b);
    AtSplit(bits, pos, Texts(a), Texts(b));
    if b == [] {
      assert a + b == a;
    } else {
      SomeTexts(b);
      AtInside(bits, pos + |Texts(a)|, Texts(b));
    }
  }

  lemma {:induction false} ChannelsRead(bits: seq<bool>, pos: nat, p: Params, width: nat, samples: nat, mults: seq<nat>, channels: seq<seq<Item>>)
    requires p.Valid() && p.limit >= 1 && samples > 0 && width <= 32
    requires AllCodable(p, width, samples, mults, channels)
    requires pos <= |bits| && At(bits, pos, Texts(AllCodes(p, width, samples, mults, channels)))
    ensures RicesAt(bits, pos, mults, samples, width, p) == Ended(bits, pos, AllCodes(p, width, samples, mults, channels))
    decreases |channels|
  {
    hide At, Texts, Code.Fits, Codable, Codes, RiceAt, Ended;
    if channels == [] {
      NothingEnded(bits, pos);
    } else {
      var c := Coder(width, mults[0] * p.historyMult / 4, p.limit);
      var first, rest := Codes(c, Begin(p, samples), channels[0]), AllCodes(p, width, samples, mults[1..], channels[1..]);
      SomeCodes(c, Begin(p, samples), channels[0]);
      EndedConcat(bits, pos, first, rest);
      ChannelRead(bits, pos, c, Begin(p, samples), samples, channels[0]);
      if rest == [] {
        NoRest(p, width, samples, mults[1..], channels[1..]);
        EndedValue(bits, pos, first);
      } else {
        ChannelsRead(bits, pos + |Texts(first)|, p, width, samples, mults[1..], channels[1..]);
      }
    }
  }

  lemma EndedValue(bits: seq<bool>, pos: nat, codes: seq<Code>)
    requires forall i :: 0 <= i < |codes| ==> codes[i].Fits()
    ensures Ended(bits, pos, codes).Got? ==> Ended(bits, pos, codes).value == 0
  {
  }

  lemma SomeCodes(c: Coder, s: State, items: seq<Item>)
    requires c.limit >= 1 && Codable(c, s, items) && s.left > 0
    ensures Codes(c, s, items) != []
  {
  }

  lemma {:induction false} NoRest(p: Params, width: nat, samples: nat, mults: seq<nat>, channels: seq<seq<Item>>)
    requires p.limit >= 1 && samples > 0 && AllCodable(p, width, samples, mults, channels)
    ensures AllCodes(p, width, samples, mults, channels) == [] <==> channels == []
    ensures mults == [] <==> channels == []
  {
    if channels != [] {
      SomeCodes(Coder(width, mults[0] * p.historyMult / 4, p.limit), Begin(p, samples), channels[0]);
    }
  }

  datatype Kind = Single | Pair | Lfe {
    function Tag(): nat { match this case Single => 0 case Pair => 1 case Lfe => 3 }
    function Channels(): nat { if Pair? then 2 else 1 }
  }

  /** Samples as they are, or predicted with the residuals coded; low holds the extra low
      bits of the samples. */
  datatype Body =
    | Raw(samples: seq<bool>)
    | Coded(shift: nat, weight: nat, predictions: seq<Prediction>, low: seq<bool>, channels: seq<seq<Item>>)

  /** An element of the kind, its samples counted when it is not a full one. */
  datatype Written = Written(kind: Kind, unused: seq<bool>, size: Option<nat>, extra: nat, body: Body) {
    function Samples(p: Params): nat {
      if size.Some? then size.value else p.maxSamples
    }

    function Width(p: Params): int {
      p.sampleSize - 8 * extra + kind.Channels() - 1
    }

    predicate Fits(p: Params)
      requires p.limit >= 1
    {
      && |unused| == 16 && extra < 4 && 1 <= Width(p) <= 32 && 0 < Samples(p) <= p.maxSamples
      && match body
         case Raw(samples) => |samples| == Samples(p) * kind.Channels() * p.sampleSize
         case Coded(shift, weight, predictions, low, channels) =>
           && shift < 256 && weight < 256 && |predictions| == kind.Channels()
           && (forall i :: 0 <= i < |predictions| ==> predictions[i].Fits(p.maxSamples))
           && |low| == Samples(p) * kind.Channels() * (8 * extra)
           && AllCodable(p, Width(p), Samples(p), Mults(predictions), channels)
    }

    function Size(): (b: seq<bool>) {
      if size.Some? then Digits(size.value, 32) else []
    }

    function HeadText(): seq<bool> {
      unused + ([size.Some?] + (Digits(extra, 2) + ([body.Raw?] + Size())))
    }

    /** The codes of the residuals, none in a raw element. */
    function Residuals(p: Params): (codes: seq<Code>)
      requires p.limit >= 1 && Fits(p)
      ensures forall i :: 0 <= i < |codes| ==> codes[i].Fits()
    {
      if body.Raw? then [] else AllCodes(p, Width(p), Samples(p), Mults(body.predictions), body.channels)
    }

    function BodyText(p: Params): seq<bool>
      requires p.limit >= 1 && Fits(p)
    {
      match body
      case Raw(samples) => samples
      case Coded(shift, weight, predictions, low, _) =>
        Digits(shift, 8) + (Digits(weight, 8) + (Predictions(predictions) + (low + Texts(Residuals(p)))))
    }

    function Text(p: Params): (b: seq<bool>)
      requires p.limit >= 1 && Fits(p)
      ensures |b| >= 3
    {
      Digits(kind.Tag(), 3) + (HeadText() + BodyText(p))
    }

    /** Reading it wants one bit more than it has. */
    predicate Peeks(p: Params)
      requires p.limit >= 1 && Fits(p)
    {
      LastPeeks(Residuals(p))
    }
  }

  lemma {:induction false} HeadRead(bits: seq<bool>, pos: nat, f: Written, p: Params)
    requires p.Valid() && p.limit >= 1 && f.Fits(p) && At(bits, pos, f.HeadText())
    ensures HeadAt(bits, pos, f.kind.Channels(), p)
         == Head(8 * f.extra, f.Width(p), f.body.Raw?, f.Samples(p), pos + |f.HeadText()|)
  {
    hide At, Digits, ReadAt, Pow2;
    Pow2Values();
    var raw := [f.body.Raw?] + f.Size();
    AtSplit(bits, pos, f.unused, [f.size.Some?] + (Digits(f.extra, 2) + raw));
    AtSplit(bits, pos + 16, [f.size.Some?], Digits(f.extra, 2) + raw);
    AtSplit(bits, pos + 17, Digits(f.extra, 2), raw);
    AtSplit(bits, pos + 19, [f.body.Raw?], f.Size());
    AtInside(bits, pos, f.unused);
    BitRead(bits, pos + 16, f.size.Some?);
    NumberRead(bits, pos + 17, f.extra, 2);
    BitRead(bits, pos + 19, f.body.Raw?);
    if f.size.Some? {
      NumberRead(bits, pos + 20, f.size.value, 32);
    }
  }

  lemma {:induction false} CodedRead(bits: seq<bool>, pos: nat, f: Written, p: Params)
    requires p.Valid() && p.limit >= 1 && f.Fits(p) && f.body.Coded? && At(bits, pos, f.BodyText(p))
    ensures CompressedAt(bits, f.kind.Channels(), Head(8 * f.extra, f.Width(p), false, f.Samples(p), pos), p)
         == if f.Peeks(p) && pos + |f.BodyText(p)| == |bits| then Eof else Got(0, pos + |f.BodyText(p)|)
  {
    hide At, Digits, ReadAt, Pow2, Predictions, LpcsAt, RicesAt, Texts, AllCodable, AllCodes, Mults, Prediction.Fits;
    Pow2Values();
    var b := f.body;
    var tail := b.low + Texts(f.Residuals(p));
    AtSplit(bits, pos, Digits(b.shift, 8), Digits(b.weight, 8) + (Predictions(b.predictions) + tail));
    AtSplit(bits, pos + 8, Digits(b.weight, 8), Predictions(b.predictions) + tail);
    AtSplit(bits, pos + 16, Predictions(b.predictions), tail);
    var low := pos + 16 + |Predictions(b.predictions)|;
    AtSplit(bits, low, b.low, Texts(f.Residuals(p)));
    NumberRead(bits, pos, b.shift, 8);
    NumberRead(bits, pos + 8, b.weight, 8);
    PredictionsRead(bits, pos + 16, b.predictions, p.maxSamples);
    ChannelsRead(bits, low + |b.low|, p, f.Width(p), f.Samples(p), Mults(b.predictions), b.channels);
  }

  /** An element is read up to its end; only when nothing follows it may the reading of
      its last residual fail for want of a bit. */
  lemma {:induction false} ElementRead(bits: seq<bool>, pos: nat, f: Written, p: Params)
    requires p.Valid() && p.limit >= 1 && f.Fits(p) && At(bits, pos, f.Text(p))
    ensures ElementAt(bits, pos, p)
         == if f.Peeks(p) && pos + |f.Text(p)| == |bits| then Fail else Element(f.kind.Channels(), pos + |f.Text(p)|)
  {
    hide At, Digits, ReadAt, Pow2, HeadAt, CompressedAt, Written.Fits, Written.HeadText, Written.BodyText, Written.Peeks;
    Pow2Values();
    AtSplit(bits, pos, Digits(f.kind.Tag(), 3), f.HeadText() + f.BodyText(p));
    AtSplit(bits, pos + 3, f.HeadText(), f.BodyText(p));
    NumberRead(bits, pos, f.kind.Tag(), 3);
    HeadRead(bits, pos + 3, f, p);
    var at := pos + 3 + |f.HeadText()|;
    AtInside(bits, at, f.BodyText(p));
    if f.body.Raw? {
      RawText(f, p);
    } else {
      CodedRead(bits, at, f, p);
    }
  }

  lemma RawText(f: Written, p: Params)
    requires p.limit >= 1 && f.Fits(p) && f.body.Raw?
    ensures |f.BodyText(p)| == f.Samples(p) * f.kind.Channels() * p.sampleSize && !f.Peeks(p)
  {
  }

  // ---- Packets

  /** The elements that make up a packet: none after enough channels. */
  predicate Packs(es: seq<Written>, used: nat, p: Params)
    requires p.limit >= 1
    decreases |es|
  {
    es != [] ==> used < p.channels && es[0].Fits(p) && Packs(es[1..], used + es[0].kind.Channels(), p)
  }

  function Elements(es: seq<Written>, used: nat, p: Params): seq<bool>
    requires p.limit >= 1 && Packs(es, used, p)
    decreases |es|
  {
    if es == [] then [] else es[0].Text(p) + Elements(es[1..], used + es[0].kind.Channels(), p)
  }

  function Used(es: seq<Written>): nat
    decreases |es|
  {
    if es == [] then 0 else es[0].kind.Channels() + Used(es[1..])
  }

  predicate EndPeeks(es: seq<Written>, used: nat, p: Params)
    requires p.limit >= 1 && Packs(es, used, p)
    decreases |es|
  {
    if es == [] then false
    else if es[1..] == [] then es[0].Peeks(p)
    else EndPeeks(es[1..], used + es[0].kind.Channels(), p)
  }

  /** The scan of the elements reaches their end, and stops there when they have all the
      channels; it fails when the last one wants a bit that is not there. */
  lemma {:induction false} ElementsRead(bits: seq<bool>, pos: nat, es: seq<Written>, used: nat, last: int, p: Params)
    requires p.Valid() && p.limit >= 1 && Packs(es, used, p) && pos <= |bits| && At(bits, pos, Elements(es, used, p))
    ensures var end := pos + |Elements(es, used, p)|;
      && end <= |bits|
      && (es != [] ==>
            BodyEndAt(bits, pos, used, last, p) ==
              if EndPeeks(es, used, p) && end == |bits| then -1
              else if used + Used(es) >= p.channels then end
              else BodyEndAt(bits, end, used + Used(es), end, p))
    decreases |es|
  {
    hide At, ElementAt, Written.Fits, Written.Text, Written.Peeks;
    AtInside(bits, pos, Elements(es, used, p));
    if es != [] {
      var after := used + es[0].kind.Channels();
      AtSplit(bits, pos, es[0].Text(p), Elements(es[1..], after, p));
      AtInside(bits, pos, es[0].Text(p));
      ElementRead(bits, pos, es[0], p);
      ElementsRead(bits, pos + |es[0].Text(p)|, es[1..], after, pos + |es[0].Text(p)|, p);
    }
  }

  /** The body end found is the length of what was written, or that with the END tag when
      one follows before all channels are there. There is none when the packet ends with
      a residual whose reading wants one bit more. */
  lemma {:induction false} BodyEndWritten(es: seq<Written>, tail: seq<bool>, p: Params)
    requires p.Valid() && p.limit >= 1 && es != [] && Packs(es, 0, p)
    ensures var body := Elements(es, 0, p);
      && (tail == [] && EndPeeks(es, 0, p) ==> BodyEnd(body + tail, p) == -1)
      && (!(tail == [] && EndPeeks(es, 0, p)) ==>
            && (Used(es) >= p.channels || |tail| < 3 ==> BodyEnd(body + tail, p) == |body|)
            && (Used(es) < p.channels && |tail| >= 3 && tail[..3] == [true, true, true] ==> BodyEnd(body + tail, p) == |body| + 3))
  {
    hide ElementAt, Written.Fits, Elements;
    var body := Elements(es, 0, p);
    var bits := body + tail;
    assert bits[..|body|] == body;
    ElementsRead(bits, 0, es, 0, -1, p);
    if Used(es) < p.channels && |tail| >= 3 && tail[..3] == [true, true, true] {
      assert bits[|body|..|body| + 3] == tail[..3];
      EndRead(bits, |body|, p);
    }
  }

  lemma EndRead(bits: seq<bool>, pos: nat, p: Params)
    requires At(bits, pos, [true, true, true])
    ensures ElementAt(bits, pos, p) == End(pos + 3)
  {
    hide HeadAt, CompressedAt;
    assert [true, true, true] == Digits(7, 3);
    NumberRead(bits, pos, 7, 3);
  }

  /** The repair of a packet whose elements have all the channels: END and zeros behind
      them, unless there is no room or END is there. */
  lemma {:induction false} RepairWritten(es: seq<Written>, tail: seq<bool>, p: Params)
    requires p.Valid() && p.limit >= 1 && Packs(es, 0, p) && Used(es) >= p.channels
    ensures var body := Elements(es, 0, p);
      Repaired(body + tail, p) ==
        if |tail| < 3 || tail[..3] == [true, true, true] then body + tail
        else body + [true, true, true] + seq(|tail| - 3, _ => false)
  {
    hide ElementAt, Written.Fits, Elements, BodyEnd, EndPeeks;
    BodyEndWritten(es, tail, p);
    var body := Elements(es, 0, p);
    var bits := body + tail;
    if |tail| >= 3 {
      assert bits[|body|..|body| + 3] == tail[..3];
      assert bits[..|body|] == body;
    }
  }

  // ---- An example

  const EXAMPLE := Params(18, 16, 40, 10, 14, 1)
  const ITEMS := [Sample(0, false), Run(16, false), Sample(1, false)]

  function Unused(): (b: seq<bool>)
    ensures |b| == 16
  {
    seq(16, _ => false)
  }

  function ExampleElement(): Written {
    Written(Single, Unused(), None, 0, Coded(0, 0, [Prediction(0, 1, 4, [])], [], [ITEMS]))
  }

  const CODER := Coder(16, 40, 14)
  const CODES := [Code(0, false, 1, 16), Code(16, false, 4, 16), Code(0, false, 1, 16)]

  lemma ExampleSteps()
    ensures var s0, s1, s2 := Begin(EXAMPLE, 18), State(17, 10, false, true), State(1, 0, true, false);
      && Allowed(CODER, s0, ITEMS[0]) && CodeOf(CODER, s0, ITEMS[0]) == CODES[0] && Next(CODER, s0, ITEMS[0]) == s1
      && Allowed(CODER, s1, ITEMS[1]) && CodeOf(CODER, s1, ITEMS[1]) == CODES[1] && Next(CODER, s1, ITEMS[1]) == s2
      && Allowed(CODER, s2, ITEMS[2]) && CodeOf(CODER, s2, ITEMS[2]) == CODES[2] && Next(CODER, s2, ITEMS[2]).left == 0
  {
    Pow2Values();
    assert Width(10, 1, 14) == 1 && Width(0, 1, 14) == 1 && RunWidth(10, 14) == 4;
  }

  lemma ExampleTexts()
    ensures forall i :: 0 <= i < |CODES| ==> CODES[i].Fits()
    ensures |CODES[0].Text()| == 1 && |CODES[1].Text()| == 6 && |CODES[2].Text()| == 1
  {
    Pow2Values();
  }

  /** A zero, sixteen more and a one, the run coded as 15 + 1: eight bits of residuals. */
  lemma ExampleCodes()
    ensures var s := Begin(EXAMPLE, 18); Codable(CODER, s, ITEMS) && Codes(CODER, s, ITEMS) == CODES
    ensures |Texts(CODES)| == 8
  {
    hide Allowed, Next, CodeOf, Code.Fits, Code.Text, Begin;
    ExampleSteps();
    ExampleTexts();
    var s1, s2 := State(17, 10, false, true), State(1, 0, true, false);
    var s3 := Next(CODER, s2, ITEMS[2]);
    assert ITEMS[2..][1..] == [] && Codable(CODER, s3, []);
    assert Codable(CODER, s2, ITEMS[2..]) && Codes(CODER, s2, ITEMS[2..]) == CODES[2..];
    assert ITEMS[1..][1..] == ITEMS[2..];
    assert Codable(CODER, s1, ITEMS[1..]) && Codes(CODER, s1, ITEMS[1..]) == CODES[1..];
    assert CODES[2..][1..] == [] && CODES[1..][1..] == CODES[2..];
    assert |Texts(CODES[2..])| == 1;
    assert |Texts(CODES[1..])| == 7;
  }

  lemma ExampleChannels()
    ensures AllCodable(EXAMPLE, 16, 18, [4], [ITEMS]) && |Texts(AllCodes(EXAMPLE, 16, 18, [4], [ITEMS]))| == 8
  {
    hide Codable, Codes, Texts;
    ExampleCodes();
    assert [4][1..] == [] && [ITEMS][1..] == [];
    assert AllCodable(EXAMPLE, 16, 18, [], []);
    assert AllCodes(EXAMPLE, 16, 18, [4], [ITEMS]) == CODES + [] == CODES;
  }

  lemma ExampleFits()
    ensures ExampleElement().Fits(EXAMPLE) && |Texts(ExampleElement().Residuals(EXAMPLE))| == 8
    ensures |ExampleElement().body.predictions[0].Text()| == 16
  {
    hide AllCodable, AllCodes, Texts, Digits;
    ExampleChannels();
    assert Mults([Prediction(0, 1, 4, [])]) == [4] by {
      assert [Prediction(0, 1, 4, [])][1..] == [];
    }
  }

  lemma ExampleLength()
    ensures ExampleElement().Fits(EXAMPLE) && |ExampleElement().Text(EXAMPLE)| == 63
  {
    hide Written.Fits, Written.Residuals, Texts, Prediction.Text, Digits;
    ExampleFits();
    var e := ExampleElement();
    assert |Predictions(e.body.predictions)| == 16 by {
      assert e.body.predictions[1..] == [];
    }
    assert |e.BodyText(EXAMPLE)| == 40;
    assert |e.HeadText()| == 20;
  }

  /** The element of these residuals is 63 bits long, and read as that. */
  lemma ExampleRead(last: bool)
    ensures ExampleElement().Fits(EXAMPLE) && |ExampleElement().Text(EXAMPLE)| == 63
    ensures BodyEnd(ExampleElement().Text(EXAMPLE) + [last], EXAMPLE) == 63
  {
    hide Written.Fits, Written.Text, BodyEnd, EndPeeks;
    ExampleLength();
    var e := ExampleElement();
    assert [e][1..] == [];
    assert Elements([e], 0, EXAMPLE) == e.Text(EXAMPLE) + [] == e.Text(EXAMPLE);
    BodyEndWritten([e], [last], EXAMPLE);
  }
}

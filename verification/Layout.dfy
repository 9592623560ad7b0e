/** Parts written into a sequence at given places. */
module Layout {
  /** part is written at pos. */
  predicate At<T(==)>(data: seq<T>, pos: nat, part: seq<T>) {
    pos + |part| <= |data| && data[pos..pos + |part|] == part
  }

  lemma AtSplit<T>(data: seq<T>, pos: nat, a: seq<T>, b: seq<T>)
    requires At(data, pos, a + b)
    ensures At(data, pos, a) && At(data, pos + |a|, b) && pos + |a| + |b| <= |data|
  {
    assert (a + b)[..|a|] == a && (a + b)[|a|..] == b;
    assert data[pos..pos + |a + b|][..|a|] == data[pos..pos + |a|];
    assert data[pos..pos + |a + b|][|a|..] == data[pos + |a|..pos + |a + b|];
  }

  lemma AtByte<T>(data: seq<T>, pos: nat, part: seq<T>, k: nat)
    requires At(data, pos, part) && k < |part|
    ensures pos + k < |data| && data[pos + k] == part[k]
  {
    assert data[pos..pos + |part|][k] == part[k];
  }

  lemma AtInside<T>(data: seq<T>, pos: nat, part: seq<T>)
    requires At(data, pos, part)
    ensures pos + |part| <= |data|
  {
  }
}

/** A stream of things, each written as one message: the server's side
    (internal/api/sse.go), a connection that may break at any byte, and the client's
    side (internal/client/sse.go). */
module SseWire {
  import Sse

  /** How the server writes a thing: with an id, each field one line. */
  ghost predicate Renders<T(!new)>(text: T -> Sse.Event) {
    forall t :: text(t).id != "" && Sse.Plain(text(t))
  }

  function Texts<T>(sent: seq<T>, text: T -> Sse.Event): seq<Sse.Event> {
    seq(|sent|, i requires 0 <= i < |sent| => text(sent[i]))
  }

  /** The stream has carried exactly these, with keepalives between them. */
  ghost predicate Carries<T>(stream: Sse.SseStream, sent: seq<T>, text: T -> Sse.Event)
    reads stream
  {
    stream.Valid() && Sse.AllPlain(stream.items) && Sse.Sent(stream.items) == Texts(sent, text)
  }

  lemma {:induction false} CarriesMore<T(!new)>(items: seq<Sse.Item>, sent: seq<T>, text: T -> Sse.Event, t: T)
    requires Renders(text) && Sse.AllPlain(items) && Sse.Sent(items) == Texts(sent, text)
    ensures var more := items + [Sse.Message(text(t))];
      Sse.AllPlain(more) && Sse.Sent(more) == Texts(sent + [t], text)
    ensures var more := items + [Sse.Keepalive];
      Sse.AllPlain(more) && Sse.Sent(more) == Texts(sent, text)
  {
    hide Sse.Plain, Sse.Sent;
    Sse.SentAppend(items, Sse.Message(text(t)));
    Sse.SentAppend(items, Sse.Keepalive);
    assert Texts(sent + [t], text) == Texts(sent, text) + [text(t)];
    assert Texts(sent, text) + [] == Texts(sent, text);
    assert text(t).id != "";
  }

  /** The server's side: the messages in order, keepalives anywhere between them. */
  method Write<T(!new)>(sent: seq<T>, text: T -> Sse.Event) returns (stream: Sse.SseStream)
    requires Renders(text)
    ensures fresh(stream) && Carries(stream, sent, text)
  {
    hide Sse.AllPlain, Sse.Sent, Sse.Wire, Renders, Texts;
    stream := new Sse.SseStream();
    NothingCarried(text);
    var i := 0;
    while i < |sent|
      invariant 0 <= i <= |sent| && fresh(stream)
      invariant Carries(stream, sent[..i], text)
    {
      CarriesMore(stream.items, sent[..i], text, sent[i]);
      var idle: bool := *;
      if idle {
        stream.SendKeepalive();
        CarriesMore(stream.items, sent[..i], text, sent[i]);
      }
      var ev := text(sent[i]);
      stream.Send(ev.id, ev.name, ev.data);
      assert sent[..i + 1] == sent[..i] + [sent[i]];
      i := i + 1;
    }
    assert sent[..i] == sent;
  }

  lemma {:induction false} NothingCarried<T>(text: T -> Sse.Event)
    ensures Sse.AllPlain([]) && Sse.Sent([]) == Texts([], text)
  {
  }

  /** Every line of the messages is within the client's buffer. */
  ghost predicate Fit<T>(sent: seq<T>, text: T -> Sse.Event) {
    forall i :: 0 <= i < |sent| ==> Sse.Fits(Sse.Message(text(sent[i])))
  }

  lemma {:induction false} ItemsFit(items: seq<Sse.Item>)
    requires forall ev :: ev in Sse.Sent(items) ==> Sse.Fits(Sse.Message(ev))
    ensures Sse.AllFit(items)
    decreases |items|
  {
    hide Sse.Fits;
    if items != [] {
      var first, rest := Sse.EventOf(items[0]), Sse.Sent(items[1..]);
      assert forall ev :: ev in rest ==> ev in first + rest;
      ItemsFit(items[1..]);
      if items[0].Message? {
        assert items[0].ev in first + rest;
      } else {
        KeepaliveFits();
      }
      assert forall i :: 0 < i < |items| ==> items[i] == items[1..][i - 1];
    }
  }

  lemma KeepaliveFits()
    ensures Sse.Fits(Sse.Keepalive)
  {
  }

  /** The messages written, a connection that breaks cut anywhere, the rest read by the
      client; one that does not break has brought them all. */
  method Transmit<T(!new)>(sent: seq<T>, raw: string, text: T -> Sse.Event, broken: bool)
    returns (lastID: string, delivered: seq<Sse.Event>)
    requires Renders(text)
    ensures |delivered| <= |sent| && delivered == Texts(sent[..|delivered|], text)
    ensures lastID == if delivered == [] then raw else text(sent[|delivered| - 1]).id
    ensures !broken && Fit(sent, text) ==> |delivered| == |sent|
  {
    hide Sse.AllPlain, Sse.Sent, Sse.Wire, Renders, Texts, Sse.Parser.Run, Fit;
    var stream := Write(sent, text);
    var cut: nat :| cut <= |stream.out| && (!broken ==> cut == |stream.out|);
    lastID, delivered := Sse.Stream(stream.out[..cut], raw);
    Delivered(stream.items, cut, raw, sent, text);
  }

  /** The events delivered are the first ones sent, and LastID is the id of the last of
      them. */
  lemma {:induction false} Delivered<T(!new)>(items: seq<Sse.Item>, cut: nat, raw: string, sent: seq<T>, text: T -> Sse.Event)
    requires Renders(text) && Sse.AllPlain(items) && Sse.Sent(items) == Texts(sent, text)
    requires cut <= |Sse.Wire(items)|
    ensures var p := Sse.Start(raw).Run(Sse.Wire(items)[..cut]);
      && |p.delivered| <= |sent|
      && p.delivered == Texts(sent[..|p.delivered|], text)
      && p.lastID == (if p.delivered == [] then raw else text(sent[|p.delivered| - 1]).id)
      && (cut == |Sse.Wire(items)| && Fit(sent, text) ==> |p.delivered| == |sent|)
  {
    hide Sse.Plain, Sse.Wire, Sse.Sent, Sse.Parser.Run, Sse.Fits, Sse.AllFit;
    if Fit(sent, text) {
      ItemsFit(items);
    }
    Sse.RoundTrip(items, cut, raw);
  }

  /** A decimal id that parses comes back as itself. */
  lemma {:induction false} CursorExact(n: nat)
    requires Sse.StreamCursor("", Sse.Decimal(n)).Ok?
    ensures Sse.StreamCursor("", Sse.Decimal(n)).value == n
  {
    var s := Sse.Decimal(n);
    assert Sse.IsDigit(s[0]) && Sse.IsDigit(s[|s| - 1]);
    assert Sse.TrimSpace(s) == s;
  }
}

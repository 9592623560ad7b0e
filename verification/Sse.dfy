/** Server-Sent Events on the wire: the writer (internal/api/sse.go) and the
    client's line loop (internal/client/sse.go). A char stands for one byte. */
module Sse {
  import opened Wrappers

  /** The client's scanner buffer: a line and its newline must fit. */
  const MAX_LINE: nat := 0x80_0000

  datatype Event = Event(id: string, name: string, data: string)

  const NO_EVENT := Event("", "", "")

  datatype Item = Message(ev: Event) | Keepalive

  // ---- Writer

  function Frame(item: Item): string {
    match item
    case Message(ev) => "id: " + ev.id + "\nevent: " + ev.name + "\ndata: " + ev.data + "\n\n"
    case Keepalive => ": keepalive\n\n"
  }

  function Wire(items: seq<Item>): string {
    if items == [] then "" else Frame(items[0]) + Wire(items[1..])
  }

  lemma {:induction false} WireAppend(items: seq<Item>, item: Item)
    ensures Wire(items + [item]) == Wire(items) + Frame(item)
  {
    if items == [] {
      assert [item][1..] == [];
      assert items + [item] == [item];
    } else {
      assert (items + [item])[1..] == items[1..] + [item];
      WireAppend(items[1..], item);
    }
  }

  /** sseStream over a writer that keeps all it was given. */
  class SseStream {
    var out: string
    ghost var items: seq<Item>

    ghost predicate Valid()
      reads this
    {
      out == Wire(items)
    }

    constructor ()
      ensures Valid() && items == []
    {
      out, items := "", [];
    }

    method Send(id: string, name: string, data: string)
      requires Valid()
      modifies this
      ensures Valid() && items == old(items) + [Message(Event(id, name, data))]
    {
      WireAppend(items, Message(Event(id, name, data)));
      out := out + ("id: " + id + "\nevent: " + name + "\ndata: " + data + "\n\n");
      items := items + [Message(Event(id, name, data))];
    }

    method SendKeepalive()
      requires Valid()
      modifies this
      ensures Valid() && items == old(items) + [Keepalive]
    {
      WireAppend(items, Keepalive);
      out := out + ": keepalive\n\n";
      items := items + [Keepalive];
    }
  }

  // ---- Reader

  function LineEnd(s: string): (n: nat)
    ensures n <= |s| && '\n' !in s[..n]
    ensures n < |s| ==> s[n] == '\n'
  {
    if s == "" || s[0] == '\n' then 0 else 1 + LineEnd(s[1..])
  }

  function DropCR(s: string): string {
    if s != "" && s[|s| - 1] == '\r' then s[..|s| - 1] else s
  }

  datatype Token = Line(text: string, rest: string) | End | TooLong

  /** One Scan: the next line without its newline, at the end of the body the rest of
      it, unless the line does not fit. */
  function Scan(body: string): (t: Token)
    ensures t.Line? ==> |t.rest| < |body|
  {
    var n := LineEnd(body);
    if n >= MAX_LINE then TooLong
    else if n < |body| then Line(DropCR(body[..n]), body[n + 1..])
    else if n > 0 then Line(DropCR(body), "")
    else End
  }

  /** strings.Cut at the first colon. */
  function Colon(line: string): (n: nat)
    ensures n <= |line| && (n < |line| ==> line[n] == ':')
  {
    if line == "" || line[0] == ':' then 0 else 1 + Colon(line[1..])
  }

  function FieldName(line: string): string { line[..Colon(line)] }

  function FieldValue(line: string): string {
    var n := Colon(line);
    if n == |line| then ""
    else if n + 1 < |line| && line[n + 1] == ' ' then line[n + 2..]
    else line[n + 1..]
  }

  /** What the loop has read: the event so far, and what it delivered. */
  datatype Parser = Parser(ev: Event, hasData: bool, lastID: string, delivered: seq<Event>) {

    function Blank(): Parser {
      if hasData then Parser(NO_EVENT, false, if ev.id != "" then ev.id else lastID, delivered + [ev])
      else Parser(NO_EVENT, false, lastID, delivered)
    }

    function Field(name: string, value: string): Parser {
      if name == "event" then this.(ev := ev.(name := value))
      else if name == "id" then this.(ev := ev.(id := value))
      else if name == "data" then
        this.(ev := ev.(data := if hasData then ev.data + "\n" + value else value), hasData := true)
      else this
    }

    function Take(text: string): Parser {
      var line := DropCR(text);
      if line == "" then Blank()
      else if line[0] == ':' then this
      else Field(FieldName(line), FieldValue(line))
    }

    function Run(body: string): Parser
      decreases |body|
    {
      match Scan(body)
      case Line(text, rest) => Take(text).Run(rest)
      case _ => this
    }

    function After(token: Token): Parser {
      if token.Line? then Take(token.text).Run(token.rest) else this
    }

    /** Between two events. */
    predicate Fresh() { ev == NO_EVENT && !hasData }
  }

  function Start(cursor: string): Parser { Parser(NO_EVENT, false, cursor, []) }

  lemma {:induction false} RunAfter(p: Parser, body: string)
    ensures p.Run(body) == p.After(Scan(body))
  {
  }

  lemma {:induction false} TakesField(p: Parser, name: string, value: string)
    ensures p.Field(name, value) ==
      if name == "event" then p.(ev := p.ev.(name := value))
      else if name == "id" then p.(ev := p.ev.(id := value))
      else if name == "data" then p.(ev := p.ev.(data := (if p.hasData then p.ev.data + "\n" else "") + value), hasData := true)
      else p
  {
    assert "" + value == value;
  }

  /** Stream, from the opened body on. */
  method Stream(body: string, cursor: string) returns (lastID: string, delivered: seq<Event>)
    ensures Start(cursor).Run(body).delivered == delivered
    ensures Start(cursor).Run(body).lastID == lastID
  {
    hide Parser.Run, LineEnd, Colon, DropCR, FieldName, FieldValue, Parser.Field;
    lastID, delivered := cursor, [];
    var ev, data, hasData := NO_EVENT, "", false;
    var token := Scan(body);
    RunAfter(Start(cursor), body);
    while token.Line?
      invariant ev.data == "" && (!hasData ==> data == "")
      invariant Start(cursor).Run(body) == Parser(ev.(data := data), hasData, lastID, delivered).After(token)
      decreases if token.Line? then 1 + |token.rest| else 0
    {
      var line, rest := DropCR(token.text), token.rest;
      ghost var p := Parser(ev.(data := data), hasData, lastID, delivered);
      RunAfter(p.Take(token.text), rest);
      token := Scan(rest);
      if line == "" {
        if hasData {
          ev := ev.(data := data);
          if ev.id != "" {
            lastID := ev.id;
          }
          delivered := delivered + [ev];
        }
        ev, hasData, data := NO_EVENT, false, "";
        continue;
      }
      if line[0] == ':' {
        continue;
      }
      var field, value := FieldName(line), FieldValue(line);
      TakesField(p, field, value);
      if field == "event" {
        ev := ev.(name := value);
      } else if field == "id" {
        ev := ev.(id := value);
      } else if field == "data" {
        if hasData {
          data := data + "\n";
        }
        data := data + value;
        hasData := true;
      }
    }
  }

  // ---- What arrives

  predicate SingleLine(ev: Event) {
    '\n' !in ev.id && '\n' !in ev.name && '\n' !in ev.data
  }

  predicate SingleLines(items: seq<Item>) {
    forall i :: 0 <= i < |items| && items[i].Message? ==> SingleLine(items[i].ev)
  }

  /** Every line of the frame fits the client's buffer. */
  predicate Fits(item: Item) {
    item.Message? ==>
      && 4 + |item.ev.id| < MAX_LINE && 7 + |item.ev.name| < MAX_LINE && 6 + |item.ev.data| < MAX_LINE
  }

  /** The scanner drops a carriage return before the newline, and the loop another. */
  function Bare(s: string): string { DropCR(DropCR(s)) }

  function Received(item: Item): seq<Event> {
    if item.Message? then [Event(Bare(item.ev.id), Bare(item.ev.name), Bare(item.ev.data))] else []
  }

  /** The events of the frames that lie wholly within the first cut bytes, up to the
      first frame with a line too long. */
  function Arriving(items: seq<Item>, cut: int): seq<Event> {
    if items == [] || cut < |Frame(items[0])| || !Fits(items[0]) then []
    else Received(items[0]) + Arriving(items[1..], cut - |Frame(items[0])|)
  }

  function LastIdOf(events: seq<Event>, cursor: string): string {
    if events == [] then cursor
    else LastIdOf(events[1..], if events[0].id != "" then events[0].id else cursor)
  }

  /** Lines as a frame has them. */
  function Unlines(lines: seq<string>): string {
    if lines == [] then "" else lines[0] + "\n" + Unlines(lines[1..])
  }

  /** Not blank however much of it arrives. */
  predicate Solid(line: string) {
    line != "" && line[0] != '\r' && '\n' !in line
  }

  predicate AllSolid(lines: seq<string>) {
    forall i :: 0 <= i < |lines| ==> Solid(lines[i])
  }

  predicate Short(lines: seq<string>) {
    forall i :: 0 <= i < |lines| ==> |lines[i]| < MAX_LINE
  }

  function FrameLines(item: Item): seq<string> {
    match item
    case Message(ev) => ["id: " + ev.id, "event: " + ev.name, "data: " + ev.data]
    case Keepalive => [": keepalive"]
  }

  lemma {:induction false} FrameIsLines(item: Item)
    ensures Frame(item) == Unlines(FrameLines(item)) + "\n"
    ensures item.Message? && SingleLine(item.ev) ==> AllSolid(FrameLines(item))
    ensures item.Keepalive? ==> AllSolid(FrameLines(item))
    ensures Fits(item) <==> Short(FrameLines(item))
  {
    var ls := FrameLines(item);
    if item.Message? {
      assert ls[1..] == [ls[1], ls[2]] && ls[1..][1..] == [ls[2]] && ls[1..][1..][1..] == [];
      assert Unlines([ls[2]]) == ls[2] + "\n";
      assert Unlines(ls[1..]) == ls[1] + "\n" + (ls[2] + "\n");
      assert Short(ls) ==> |ls[0]| < MAX_LINE && |ls[1]| < MAX_LINE && |ls[2]| < MAX_LINE;
    } else {
      assert ls[1..] == [];
    }
  }

  lemma {:induction false} LineEndAt(line: string, rest: string)
    requires '\n' !in line
    ensures LineEnd(line) == |line| && LineEnd(line + "\n" + rest) == |line|
    decreases |line|
  {
    if line != "" {
      assert (line + "\n" + rest)[1..] == line[1..] + "\n" + rest;
      LineEndAt(line[1..], rest);
    }
  }

  lemma {:induction false} ScanLine(line: string, rest: string)
    requires '\n' !in line
    ensures Scan(line + "\n" + rest) == if |line| < MAX_LINE then Line(DropCR(line), rest) else TooLong
  {
    LineEndAt(line, rest);
    var body := line + "\n" + rest;
    assert body[..|line|] == line && body[|line| + 1..] == rest;
  }

  lemma {:induction false} ScanTail(part: string)
    requires '\n' !in part
    ensures Scan(part) == if |part| >= MAX_LINE then TooLong else if part == "" then End else Line(DropCR(part), "")
  {
    LineEndAt(part, "");
  }

  lemma {:induction false} SolidPart(line: string, n: nat)
    requires Solid(line) && 0 < n <= |line|
    ensures '\n' !in line[..n] && Bare(line[..n]) != ""
  {
    assert line[..n][0] == line[0];
    var part := DropCR(line[..n]);
    assert part != "" && part[0] == line[0];
  }

  /** Nothing is delivered before a blank line. */
  lemma {:induction false} NotBlank(p: Parser, text: string)
    requires DropCR(text) != ""
    ensures p.Take(text).delivered == p.delivered && p.Take(text).lastID == p.lastID
  {
  }

  /** Lines cut before their last newline, or one of them too long: nothing of what
      follows is delivered. */
  lemma {:induction false} Unfinished(p: Parser, lines: seq<string>, tail: string, cut: nat)
    requires AllSolid(lines)
    requires cut <= |Unlines(lines)| + |tail|
    requires cut <= |Unlines(lines)| || !Short(lines)
    ensures var q := p.Run((Unlines(lines) + tail)[..cut]); q.delivered == p.delivered && q.lastID == p.lastID
    decreases |lines|
  {
    var body := (Unlines(lines) + tail)[..cut];
    if lines == [] {
      assert body == "";
    } else {
      var line, more := lines[0], Unlines(lines[1..]) + tail;
      assert Solid(line);
      assert Unlines(lines) + tail == line + "\n" + more;
      if cut <= |line| {
        assert body == line[..cut];
        if cut > 0 {
          SolidPart(line, cut);
        }
        ScanTail(body);
        if cut > 0 && cut < MAX_LINE {
          NotBlank(p, DropCR(body));
          ScanTail("");
          assert p.Run(body) == p.Take(DropCR(body)).Run("");
        }
      } else {
        var left := cut - |line| - 1;
        assert body == line + "\n" + more[..left];
        ScanLine(line, more[..left]);
        if |line| < MAX_LINE {
          assert line == line[..|line|];
          SolidPart(line, |line|);
          NotBlank(p, DropCR(line));
          Unfinished(p.Take(DropCR(line)), lines[1..], tail, left);
        }
      }
    }
  }

  function TakeAll(p: Parser, lines: seq<string>): Parser
    decreases |lines|
  {
    if lines == [] then p else TakeAll(p.Take(DropCR(lines[0])), lines[1..])
  }

  lemma {:induction false} RunLines(p: Parser, lines: seq<string>, rest: string)
    requires AllSolid(lines) && Short(lines)
    ensures p.Run(Unlines(lines) + rest) == TakeAll(p, lines).Run(rest)
    decreases |lines|
  {
    if lines == [] {
      assert Unlines(lines) + rest == rest;
    } else {
      var line, more := lines[0], Unlines(lines[1..]) + rest;
      assert Solid(line);
      assert Unlines(lines) + rest == line + "\n" + more;
      ScanLine(line, more);
      RunLines(p.Take(DropCR(line)), lines[1..], rest);
    }
  }

  lemma {:induction false} BareAfter(prefix: string, s: string)
    requires prefix != "" && prefix[|prefix| - 1] != '\r'
    ensures Bare(prefix + s) == prefix + Bare(s)
  {
    DropCRAfter(prefix, s);
    DropCRAfter(prefix, DropCR(s));
  }

  lemma {:induction false} DropCRAfter(prefix: string, s: string)
    requires prefix != "" && prefix[|prefix| - 1] != '\r'
    ensures DropCR(prefix + s) == prefix + DropCR(s)
  {
    if s == "" {
      assert prefix + s == prefix;
    } else {
      assert (prefix + s)[..|prefix + s| - 1] == prefix + s[..|s| - 1];
    }
  }

  lemma {:induction false} ColonAfter(name: string, s: string)
    requires ':' !in name
    ensures Colon(name + ": " + s) == |name|
    ensures FieldName(name + ": " + s) == name && FieldValue(name + ": " + s) == s
    decreases |name|
  {
    var line := name + ": " + s;
    if name != "" {
      assert line[1..] == name[1..] + ": " + s;
      ColonAfter(name[1..], s);
    }
    assert line[..|name|] == name && line[|name| + 2..] == s;
  }

  lemma {:induction false} TakeField(p: Parser, name: string, value: string)
    requires ':' !in name && name != ""
    ensures p.Take(DropCR(name + ": " + value)) == p.Field(name, Bare(value))
  {
    BareAfter(name + ": ", value);
    var line := name + ": " + Bare(value);
    assert line[0] == name[0];
    ColonAfter(name, Bare(value));
  }

  lemma {:induction false} TakeThree(p: Parser, a: string, b: string, c: string)
    ensures TakeAll(p, [a, b, c]) == p.Take(DropCR(a)).Take(DropCR(b)).Take(DropCR(c))
  {
    hide Parser.Take;
    assert [a, b, c][1..] == [b, c] && [b, c][1..] == [c] && [c][1..] == [];
    assert TakeAll(p.Take(DropCR(a)), [b, c]) == TakeAll(p.Take(DropCR(a)).Take(DropCR(b)), [c]);
  }

  lemma {:induction false} TakeFields(p: Parser, ev: Event)
    requires p.Fresh()
    ensures p.Take(DropCR("id: " + ev.id)).Take(DropCR("event: " + ev.name)).Take(DropCR("data: " + ev.data))
      == Parser(Event(Bare(ev.id), Bare(ev.name), Bare(ev.data)), true, p.lastID, p.delivered)
  {
    hide Parser.Take, DropCR, Bare, Parser.Field;
    assert "id" + ": " == "id: " && "event" + ": " == "event: " && "data" + ": " == "data: ";
    var p1 := p.Field("id", Bare(ev.id));
    var p2 := p1.Field("event", Bare(ev.name));
    TakeField(p, "id", ev.id);
    TakeField(p1, "event", ev.name);
    TakeField(p2, "data", ev.data);
    TakesField(p, "id", Bare(ev.id));
    TakesField(p1, "event", Bare(ev.name));
    TakesField(p2, "data", Bare(ev.data));
    assert "" + Bare(ev.data) == Bare(ev.data);
  }

  lemma {:induction false} CommentLine(p: Parser)
    ensures p.Take(DropCR(": keepalive")) == p
  {
    assert DropCR(": keepalive") == ": keepalive";
  }

  lemma {:induction false} TakeFrame(p: Parser, item: Item)
    requires p.Fresh()
    ensures var q := TakeAll(p, FrameLines(item)).Blank();
      && q.Fresh() && q.delivered == p.delivered + Received(item)
      && q.lastID == LastIdOf(Received(item), p.lastID)
  {
    hide DropCR, Colon, FieldName, FieldValue;
    if item.Message? {
      TakeThree(p, "id: " + item.ev.id, "event: " + item.ev.name, "data: " + item.ev.data);
      TakeFields(p, item.ev);
      var ev := Received(item)[0];
      assert Received(item) == [ev];
      assert LastIdOf([ev], p.lastID) == if ev.id != "" then ev.id else p.lastID by {
        assert [ev][1..] == [];
      }
    } else {
      assert FrameLines(item)[1..] == [];
      CommentLine(p);
      assert p.delivered + [] == p.delivered;
    }
  }

  lemma {:induction false} RunFrame(p: Parser, item: Item, rest: string)
    requires p.Fresh() && Fits(item) && (item.Message? ==> SingleLine(item.ev))
    ensures var q := TakeAll(p, FrameLines(item)).Blank(); p.Run(Frame(item) + rest) == q.Run(rest)
  {
    FrameIsLines(item);
    var lines := FrameLines(item);
    assert Frame(item) + rest == Unlines(lines) + ("\n" + rest);
    RunLines(p, lines, "\n" + rest);
    ScanLine("", rest);
    assert "" + "\n" + rest == "\n" + rest;
  }

  lemma {:induction false} WholeFrame(p: Parser, item: Item, rest: string) returns (q: Parser)
    requires p.Fresh() && Fits(item) && (item.Message? ==> SingleLine(item.ev))
    ensures q.Fresh() && p.Run(Frame(item) + rest) == q.Run(rest)
    ensures q.delivered == p.delivered + Received(item) && q.lastID == LastIdOf(Received(item), p.lastID)
  {
    RunFrame(p, item, rest);
    TakeFrame(p, item);
    q := TakeAll(p, FrameLines(item)).Blank();
  }

  lemma {:induction false} LastIdAppend(a: seq<Event>, b: seq<Event>, cursor: string)
    ensures LastIdOf(a + b, cursor) == LastIdOf(b, LastIdOf(a, cursor))
    decreases |a|
  {
    if a == [] {
      assert a + b == b;
    } else {
      assert (a + b)[1..] == a[1..] + b;
      LastIdAppend(a[1..], b, if a[0].id != "" then a[0].id else cursor);
    }
  }

  lemma {:induction false} RunNothing(p: Parser)
    ensures p.Run("") == p && p.delivered + [] == p.delivered
  {
    ScanTail("");
  }

  lemma {:induction false} CutFrame(p: Parser, item: Item, more: string, cut: nat)
    requires item.Message? ==> SingleLine(item.ev)
    requires cut <= |Frame(item)| + |more| && (cut < |Frame(item)| || !Fits(item))
    ensures var q := p.Run((Frame(item) + more)[..cut]); q.delivered == p.delivered && q.lastID == p.lastID
  {
    FrameIsLines(item);
    assert Frame(item) + more == Unlines(FrameLines(item)) + ("\n" + more);
    Unfinished(p, FrameLines(item), "\n" + more, cut);
  }

  lemma {:induction false} RunWire(p: Parser, items: seq<Item>, cut: nat)
    requires p.Fresh() && SingleLines(items) && cut <= |Wire(items)|
    ensures var q := p.Run(Wire(items)[..cut]);
      q.delivered == p.delivered + Arriving(items, cut) && q.lastID == LastIdOf(Arriving(items, cut), p.lastID)
    decreases |items|
  {
    hide Frame, Fits, Parser.Run, Parser.Fresh, Received, SingleLine;
    RunNothing(p);
    if items == [] {
      assert Wire(items)[..cut] == "";
    } else {
      var item, more := items[0], Wire(items[1..]);
      assert Wire(items) == Frame(item) + more;
      if cut < |Frame(item)| || !Fits(item) {
        CutFrame(p, item, more, cut);
      } else {
        var left := cut - |Frame(item)|;
        var first, after := Received(item), Arriving(items[1..], left);
        assert Wire(items)[..cut] == Frame(item) + more[..left];
        var q := WholeFrame(p, item, more[..left]);
        RunWire(q, items[1..], left);
        LastIdAppend(first, after, p.lastID);
        assert p.delivered + first + after == p.delivered + (first + after);
      }
    }
  }

  /** Whatever sequence of events and keepalives is written, and wherever the bytes
      are cut, the client delivers exactly the events whose frames arrived whole, and
      its LastID is the last delivered id. */
  lemma {:induction false} CutStream(items: seq<Item>, cut: nat, cursor: string)
    requires SingleLines(items) && cut <= |Wire(items)|
    ensures var p := Start(cursor).Run(Wire(items)[..cut]);
      p.delivered == Arriving(items, cut) && p.lastID == LastIdOf(Arriving(items, cut), cursor)
  {
    RunWire(Start(cursor), items, cut);
  }

  // ---- What was sent

  function EventOf(item: Item): seq<Event> {
    if item.Message? then [item.ev] else []
  }

  function Sent(items: seq<Item>): seq<Event> {
    if items == [] then [] else EventOf(items[0]) + Sent(items[1..])
  }

  lemma {:induction false} SentAppend(items: seq<Item>, item: Item)
    ensures Sent(items + [item]) == Sent(items) + EventOf(item)
    decreases |items|
  {
    hide EventOf;
    var last := EventOf(item);
    if items == [] {
      assert items + [item] == [item] && [item][1..] == [];
      assert last + [] == last == [] + last;
    } else {
      var first, more := EventOf(items[0]), Sent(items[1..]);
      assert (items + [item])[1..] == items[1..] + [item];
      SentAppend(items[1..], item);
      assert first + (more + last) == first + more + last;
    }
  }

  predicate EndsInCR(s: string) { s != "" && s[|s| - 1] == '\r' }

  /** Each field is one line as the client reads lines. */
  predicate Plain(ev: Event) {
    SingleLine(ev) && !EndsInCR(ev.id) && !EndsInCR(ev.name) && !EndsInCR(ev.data)
  }

  predicate Clean(ev: Event) {
    Plain(ev) && Fits(Message(ev))
  }

  /** The messages a stream of stored events carries. */
  predicate AllPlain(items: seq<Item>) {
    forall i :: 0 <= i < |items| && items[i].Message? ==> Plain(items[i].ev) && items[i].ev.id != ""
  }

  predicate AllFit(items: seq<Item>) {
    forall i :: 0 <= i < |items| ==> Fits(items[i])
  }

  lemma {:induction false} ReceivedPlain(ev: Event)
    requires Plain(ev)
    ensures Received(Message(ev)) == [ev]
  {
  }

  lemma {:induction false} ArrivingPrefix(items: seq<Item>, cut: nat)
    requires AllPlain(items) && cut <= |Wire(items)|
    ensures Arriving(items, cut) <= Sent(items)
    ensures cut == |Wire(items)| && AllFit(items) ==> Arriving(items, cut) == Sent(items)
    decreases |items|
  {
    hide Frame, Fits, Plain, Bare;
    if items != [] {
      var item := items[0];
      assert Wire(items) == Frame(item) + Wire(items[1..]);
      if item.Message? {
        ReceivedPlain(item.ev);
      }
      if cut >= |Frame(item)| {
        ArrivingPrefix(items[1..], cut - |Frame(item)|);
      }
    }
  }

  lemma {:induction false} LastIdLast(events: seq<Event>, cursor: string)
    requires forall i :: 0 <= i < |events| ==> events[i].id != ""
    ensures LastIdOf(events, cursor) == if events == [] then cursor else events[|events| - 1].id
    decreases |events|
  {
    if events != [] {
      LastIdLast(events[1..], events[0].id);
    }
  }

  lemma {:induction false} SentHaveIds(items: seq<Item>)
    requires AllPlain(items)
    ensures forall i :: 0 <= i < |Sent(items)| ==> Sent(items)[i].id != ""
    decreases |items|
  {
    if items != [] {
      SentHaveIds(items[1..]);
    }
  }

  lemma {:induction false} PlainSingle(items: seq<Item>)
    requires AllPlain(items)
    ensures SingleLines(items)
  {
  }

  /** The round trip under cuts: a prefix of what was sent, all of it when nothing is
      cut and every line fits, and LastID names the last delivered event. */
  lemma {:induction false} RoundTrip(items: seq<Item>, cut: nat, cursor: string)
    requires AllPlain(items) && cut <= |Wire(items)|
    ensures var p := Start(cursor).Run(Wire(items)[..cut]);
      && p.delivered <= Sent(items)
      && (cut == |Wire(items)| && AllFit(items) ==> p.delivered == Sent(items))
      && p.lastID == if p.delivered == [] then cursor else p.delivered[|p.delivered| - 1].id
  {
    hide Arriving, Sent, Wire, Parser.Run, LastIdOf, AllFit, AllPlain, SingleLines;
    PlainSingle(items);
    CutStream(items, cut, cursor);
    ArrivingPrefix(items, cut);
    SentHaveIds(items);
    LastIdLast(Arriving(items, cut), cursor);
  }

  // ---- Exactly which messages arrive as sent

  lemma {:induction false} LineHasNoNewline(body: string)
    ensures Scan(body).Line? ==> '\n' !in DropCR(Scan(body).text)
    ensures Scan(body).Line? ==> |Scan(body).text| + |Scan(body).rest| <= |body|
    ensures Scan(body).Line? && Scan(body).rest != "" ==> |Scan(body).text| + |Scan(body).rest| < |body|
  {
    var n := LineEnd(body);
    assert '\n' !in body[..n];
  }

  predicate NamesSingleLine(p: Parser) {
    && '\n' !in p.ev.id && '\n' !in p.ev.name
    && forall i :: 0 <= i < |p.delivered| ==> '\n' !in p.delivered[i].id && '\n' !in p.delivered[i].name
  }

  lemma {:induction false} TakeNames(p: Parser, text: string)
    requires NamesSingleLine(p) && '\n' !in DropCR(text)
    ensures NamesSingleLine(p.Take(text))
  {
    hide DropCR;
  }

  /** No id or name ever arrives with a newline in it. */
  lemma {:induction false} RunNames(p: Parser, body: string)
    requires NamesSingleLine(p)
    ensures NamesSingleLine(p.Run(body))
    decreases |body|
  {
    hide Scan, Parser.Take, NamesSingleLine, DropCR;
    LineHasNoNewline(body);
    var token := Scan(body);
    if token.Line? {
      TakeNames(p, token.text);
      RunNames(p.Take(token.text), token.rest);
    }
  }

  lemma {:induction false} RunExtends(p: Parser, body: string)
    ensures p.delivered <= p.Run(body).delivered
    decreases |body|
  {
    hide Scan, DropCR;
    var token := Scan(body);
    if token.Line? {
      RunExtends(p.Take(token.text), token.rest);
    }
  }

  /** The next event run delivers after p, if any, has data no longer than p's, or two
      bytes shorter than p's and body together. */
  predicate DataBounded(p: Parser, body: string, delivered: seq<Event>) {
    && p.delivered <= delivered
    && (|p.delivered| < |delivered| ==>
          var e := delivered[|p.delivered|];
          |e.data| <= |p.ev.data| || |e.data| + 2 <= |p.ev.data| + |body|)
  }

  lemma {:induction false} TakeBounded(p: Parser, text: string)
    requires p.hasData && DropCR(text) != ""
    ensures var q := p.Take(text);
      q.hasData && q.delivered == p.delivered && (q.ev.data == p.ev.data || |q.ev.data| + 3 <= |p.ev.data| + |text|)
  {
    var line := DropCR(text);
    if line[0] != ':' && FieldName(line) == "data" {
      assert Colon(line) == |FieldName(line)| == 4;
    }
  }

  lemma {:induction false} RunBounded(p: Parser, body: string)
    requires p.hasData
    ensures DataBounded(p, body, p.Run(body).delivered)
    decreases |body|
  {
    hide Scan, Parser.Take, DropCR;
    RunExtends(p, body);
    LineHasNoNewline(body);
    var token := Scan(body);
    if token.Line? {
      var q := p.Take(token.text);
      if DropCR(token.text) == "" {
        BlankDelivers(p, token.text);
        RunExtends(q, token.rest);
      } else {
        TakeBounded(p, token.text);
        RunBounded(q, token.rest);
        if token.rest == "" {
          RunNothing(q);
        }
      }
    }
  }

  lemma {:induction false} BlankDelivers(p: Parser, text: string)
    requires p.hasData && DropCR(text) == ""
    ensures p.Take(text).delivered == p.delivered + [p.ev]
  {
  }

  function Delivers(ev: Event, cursor: string): seq<Event> {
    Start(cursor).Run(Frame(Message(ev))).delivered
  }

  lemma {:induction false} BrokenName(ev: Event, cursor: string)
    requires '\n' in ev.id || '\n' in ev.name
    ensures Delivers(ev, cursor) != [ev]
  {
    hide Frame, Parser.Run;
    RunNames(Start(cursor), Frame(Message(ev)));
    var got := Delivers(ev, cursor);
    assert |got| > 0 ==> got[0] != ev;
  }

  lemma {:induction false} DropCRShorter(s: string)
    ensures |Bare(s)| <= |s| && (EndsInCR(s) ==> |Bare(s)| < |s|)
  {
  }

  lemma {:induction false} DataStarted(p: Parser, ev: Event)
    requires p.Fresh()
    ensures var q := TakeAll(p, FrameLines(Message(ev))); q.hasData && q.delivered == p.delivered && q.ev.data == Bare(ev.data)
  {
    hide Parser.Take, DropCR, Bare;
    TakeThree(p, "id: " + ev.id, "event: " + ev.name, "data: " + ev.data);
    TakeFields(p, ev);
  }

  lemma {:induction false} FrameSplit(ev: Event, head: string, tail: string)
    requires ev.data == head + "\n" + tail
    ensures Frame(Message(ev)) == Unlines(FrameLines(Message(ev.(data := head)))) + (tail + "\n\n")
  {
    hide FrameLines, Unlines;
    var item := Message(ev.(data := head));
    FrameIsLines(item);
    var lines := Unlines(FrameLines(item));
    var prefix := "id: " + ev.id + "\nevent: " + ev.name + "\ndata: ";
    assert lines == Frame(item)[..|Frame(item)| - 1];
    assert Frame(item) == prefix + head + "\n" + "\n";
    assert lines == prefix + head + "\n";
    assert Frame(Message(ev)) == prefix + ev.data + "\n\n";
  }

  lemma {:induction false} BrokenData(ev: Event, cursor: string)
    requires '\n' !in ev.id && '\n' !in ev.name && '\n' in ev.data
    ensures Delivers(ev, cursor) != [ev]
  {
    hide Frame, Parser.Run, FrameLines, Bare, Fits, TakeAll, Unlines, LineEnd;
    var n := LineEnd(ev.data);
    assert ev.data[..n] == ev.data || n < |ev.data|;
    var head, rest := ev.data[..n], ev.data[n + 1..] + "\n\n";
    assert ev.data == head + "\n" + ev.data[n + 1..];
    FrameSplit(ev, head, ev.data[n + 1..]);
    var first := Message(ev.(data := head));
    var lines, p := FrameLines(first), Start(cursor);
    FrameIsLines(first);
    var frame := Frame(Message(ev));
    if !Fits(first) {
      assert frame[..|frame|] == frame;
      Unfinished(p, lines, rest, |frame|);
    } else {
      RunLines(p, lines, rest);
      DataStarted(p, first.ev);
      DropCRShorter(head);
      RunBounded(TakeAll(p, lines), rest);
    }
  }

  lemma {:induction false} BrokenEnd(ev: Event, cursor: string)
    requires SingleLine(ev) && !Clean(ev)
    ensures Delivers(ev, cursor) != [ev]
  {
    hide Frame, Parser.Run, Bare, Fits;
    var items := [Message(ev)];
    assert items[1..] == [];
    var frame := Frame(items[0]);
    assert Wire(items) == frame + "" == frame == frame[..|frame|];
    CutStream(items, |frame|, cursor);
    DropCRShorter(ev.id);
    DropCRShorter(ev.name);
    DropCRShorter(ev.data);
  }

  /** A message arrives as it was sent if and only if each field is a single line that
      does not end in a carriage return and fits the client's buffer. */
  lemma {:induction false} ArrivesAsSent(ev: Event, cursor: string)
    ensures Delivers(ev, cursor) == [ev] <==> Clean(ev)
  {
    if '\n' in ev.id || '\n' in ev.name {
      BrokenName(ev, cursor);
    } else if '\n' in ev.data {
      BrokenData(ev, cursor);
    } else if !Clean(ev) {
      BrokenEnd(ev, cursor);
    } else {
      var items := [Message(ev)];
      assert items[1..] == [];
      var frame := Frame(items[0]);
      assert Wire(items) == frame + "" == frame == frame[..|frame|];
      CutStream(items, |frame|, cursor);
      ReceivedPlain(ev);
      assert [ev] + [] == [ev];
    }
  }

  // ---- Cursors

  /** Cursors are at most 63 bits wide. */
  const MAX_CURSOR: nat := 0x7FFF_FFFF_FFFF_FFFF

  predicate IsDigit(c: char) { '0' <= c <= '9' }

  function DigitValue(c: char): nat
    requires IsDigit(c)
  {
    c as int - '0' as int
  }

  predicate Numeral(s: string) {
    s != "" && forall i :: 0 <= i < |s| ==> IsDigit(s[i])
  }

  function Value(s: string): nat
    requires forall i :: 0 <= i < |s| ==> IsDigit(s[i])
  {
    if s == "" then 0 else 10 * Value(s[..|s| - 1]) + DigitValue(s[|s| - 1])
  }

  /** strconv.FormatInt of an event id. */
  function Decimal(n: nat): (s: string)
    ensures Numeral(s) && Value(s) == n
  {
    var digit := ['0' + (n % 10) as char];
    if n < 10 then
      assert digit[..0] == "";
      digit
    else
      var s := Decimal(n / 10) + digit;
      assert s[..|s| - 1] == Decimal(n / 10);
      s
  }

  predicate IsSpace(c: char) { c in " \t\n\r" || c == 11 as char || c == 12 as char }

  function TrimSpace(s: string): string
    decreases |s|
  {
    if s == "" then ""
    else if IsSpace(s[0]) then TrimSpace(s[1..])
    else if IsSpace(s[|s| - 1]) then TrimSpace(s[..|s| - 1])
    else s
  }

  function ParseCursor(raw: string): Result<nat, string> {
    if Numeral(raw) && Value(raw) <= MAX_CURSOR then Ok(Value(raw)) else Err("must be a non-negative integer")
  }

  function QueryCursor(query: string): Result<nat, string> {
    var raw := TrimSpace(query);
    if raw == "" then Ok(0) else ParseCursor(raw)
  }

  /** The Last-Event-ID header wins over the query parameter. */
  function StreamCursor(header: string, query: string): Result<nat, string> {
    var raw := TrimSpace(header);
    if raw != "" then ParseCursor(raw) else QueryCursor(query)
  }

  /** The id a client sends back names the event it was given with, in the query or
      the header, exactly up to the largest cursor the server takes. */
  lemma {:induction false} CursorRoundTrip(n: nat, query: string)
    ensures StreamCursor("", Decimal(n)) == StreamCursor(Decimal(n), query)
    ensures StreamCursor("", Decimal(n)) == Ok(n) <==> n <= MAX_CURSOR
    ensures StreamCursor("", "") == Ok(0)
  {
    var s := Decimal(n);
    assert IsDigit(s[0]) && IsDigit(s[|s| - 1]);
    assert TrimSpace(s) == s;
  }
}

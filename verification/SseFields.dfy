/** Messages of the event stream format in general, and what the client
    (internal/client/sse.go) reads of them; the server writes only one shape of them. */
module SseFields {
  import opened Wrappers
  import opened Sse

  /** One line of a message: a field, with or without a space behind its colon, or a
      comment. */
  datatype Part =
    | Data(value: string, spaced: bool)
    | Id(value: string, spaced: bool)
    | Name(value: string, spaced: bool)
    | Other(name: string, value: string, spaced: bool)
    | Comment(value: string)
  {
    function Field(): string {
      match this
      case Data(_, _) => "data"
      case Id(_, _) => "id"
      case Name(_, _) => "event"
      case Other(name, _, _) => name
      case Comment(_) => ""
    }

    function Line(): string {
      Field() + ":" + if Comment? || !spaced then value else " " + value
    }

    /** The value is a line that does not end in a carriage return, and starts with a
        space only behind another; the name is none the client knows. */
    predicate Fits() {
      && '\n' !in value && (value == "" || value[|value| - 1] != '\r') && |Line()| < MAX_LINE
      && (!Comment? && !spaced && value != "" ==> value[0] != ' ')
      && (Other? ==>
            && name != "" && name[0] != '\r' && ':' !in name && '\n' !in name
            && name != "data" && name != "id" && name != "event")
    }
  }

  function Lines(parts: seq<Part>): (lines: seq<string>)
    ensures |lines| == |parts|
  {
    if parts == [] then [] else [parts[0].Line()] + Lines(parts[1..])
  }

  /** The values of the data lines. */
  function DataOf(parts: seq<Part>): seq<string> {
    if parts == [] then [] else (if parts[0].Data? then [parts[0].value] else []) + DataOf(parts[1..])
  }

  /** The value of the last id line, or of the last event line. */
  function IdOf(parts: seq<Part>, before: string): string {
    if parts == [] then before else IdOf(parts[1..], if parts[0].Id? then parts[0].value else before)
  }

  function NameOf(parts: seq<Part>, before: string): string {
    if parts == [] then before else NameOf(parts[1..], if parts[0].Name? then parts[0].value else before)
  }

  lemma {:induction false} ColonIs(name: string, s: string)
    requires ':' !in name
    ensures Colon(name + ":" + s) == |name|
    decreases |name|
  {
    if name != "" {
      assert (name + ":" + s)[1..] == name[1..] + ":" + s;
      ColonIs(name[1..], s);
    }
  }

  lemma {:induction false} LineKept(part: Part)
    requires part.Fits()
    ensures DropCR(part.Line()) == part.Line() && Solid(part.Line())
  {
    var line := part.Line();
    assert line[|line| - 1] == if part.value != "" then part.value[|part.value| - 1] else if part.Comment? || !part.spaced then ':' else ' ';
  }

  lemma {:induction false} FieldIs(name: string, s: string, value: string, spaced: bool)
    requires ':' !in name && s == (if spaced then " " + value else value)
    requires !spaced && value != "" ==> value[0] != ' '
    ensures FieldName(name + ":" + s) == name && FieldValue(name + ":" + s) == value
  {
    hide Colon;
    var line := name + ":" + s;
    ColonIs(name, s);
    assert line[..|name|] == name && line[|name| + 1..] == s;
    if s != "" {
      assert line[|name| + 1] == s[0];
    }
    if spaced {
      assert line[|name| + 2..] == s[1..] == value;
    }
  }

  lemma {:induction false} FieldRead(part: Part)
    requires part.Fits() && !part.Comment?
    ensures FieldName(part.Line()) == part.Field() && FieldValue(part.Line()) == part.value && part.Line()[0] != ':'
  {
    hide FieldName, FieldValue;
    FieldIs(part.Field(), if part.spaced then " " + part.value else part.value, part.value, part.spaced);
  }

  /** One line read. */
  lemma {:induction false} PartRead(p: Parser, part: Part)
    requires part.Fits()
    ensures p.Take(DropCR(part.Line())) ==
      match part
      case Data(value, _) =>
        p.(ev := p.ev.(data := (if p.hasData then p.ev.data + "\n" else "") + value), hasData := true)
      case Id(value, _) => p.(ev := p.ev.(id := value))
      case Name(value, _) => p.(ev := p.ev.(name := value))
      case _ => p
  {
    hide DropCR, FieldName, FieldValue, Part.Line;
    LineKept(part);
    if part.Comment? {
      CommentStarts(part);
    } else {
      FieldRead(part);
      TakesField(p, part.Field(), part.value);
    }
  }

  lemma CommentStarts(part: Part)
    requires part.Comment?
    ensures part.Line() != "" && part.Line()[0] == ':'
  {
  }

  lemma {:induction false} LinesKept(parts: seq<Part>)
    requires forall i :: 0 <= i < |parts| ==> parts[i].Fits()
    ensures AllSolid(Lines(parts)) && Short(Lines(parts))
    decreases |parts|
  {
    hide Solid, Part.Line;
    if parts != [] {
      LineKept(parts[0]);
      LinesKept(parts[1..]);
    }
  }

  /** The data read so far, each line with its newline. */
  function DataText(p: Parser): string { if p.hasData then p.ev.data + "\n" else "" }

  /** What the lines tell, from parser p to parser q. */
  predicate Tell(p: Parser, q: Parser, parts: seq<Part>) {
    && q.lastID == p.lastID && q.delivered == p.delivered
    && q.ev.id == IdOf(parts, p.ev.id) && q.ev.name == NameOf(parts, p.ev.name)
    && (q.hasData <==> p.hasData || DataOf(parts) != [])
    && DataText(q) == DataText(p) + Unlines(DataOf(parts))
  }

  lemma {:induction false} DataTells(p: Parser, next: Parser, q: Parser, parts: seq<Part>)
    requires parts != [] && parts[0].Data? && next.hasData && Tell(next, q, parts[1..])
    requires next == p.(ev := p.ev.(data := (if p.hasData then p.ev.data + "\n" else "") + parts[0].value), hasData := true)
    ensures Tell(p, q, parts)
  {
    hide Unlines;
    var value, more := parts[0].value, DataOf(parts[1..]);
    UnlinesFirst(DataText(p), value, more);
  }

  lemma UnlinesFirst(before: string, value: string, more: seq<string>)
    ensures before + Unlines([value] + more) == before + value + "\n" + Unlines(more)
  {
    assert ([value] + more)[1..] == more;
  }

  lemma {:induction false} OtherTells(p: Parser, next: Parser, q: Parser, parts: seq<Part>)
    requires parts != [] && !parts[0].Data? && Tell(next, q, parts[1..])
    requires next == match parts[0]
      case Id(value, _) => p.(ev := p.ev.(id := value))
      case Name(value, _) => p.(ev := p.ev.(name := value))
      case _ => p
    ensures Tell(p, q, parts)
  {
    hide Unlines;
    assert [] + DataOf(parts[1..]) == DataOf(parts[1..]);
  }

  lemma {:induction false} PartsRead(p: Parser, parts: seq<Part>)
    requires forall i :: 0 <= i < |parts| ==> parts[i].Fits()
    ensures Tell(p, TakeAll(p, Lines(parts)), parts)
    decreases |parts|
  {
    hide Part.Fits, Part.Line, Parser.Take, DropCR, Tell;
    if parts == [] {
      NothingTells(p);
    } else {
      var next := p.Take(DropCR(parts[0].Line()));
      PartRead(p, parts[0]);
      PartsRead(next, parts[1..]);
      assert Lines(parts)[1..] == Lines(parts[1..]);
      if parts[0].Data? {
        DataTells(p, next, TakeAll(p, Lines(parts)), parts);
      } else {
        OtherTells(p, next, TakeAll(p, Lines(parts)), parts);
      }
    }
  }

  lemma NothingTells(p: Parser)
    ensures Tell(p, p, [])
  {
    assert DataText(p) + "" == DataText(p);
  }

  /** A message is delivered at its blank line: with the last id and the last event name
      of its lines and its data lines joined by newlines, and not at all without one. Its
      id, unless empty, is what the client resumes after. */
  lemma {:induction false} MessageRead(p: Parser, parts: seq<Part>, rest: string) returns (q: Parser, data: string)
    requires p.Fresh() && forall i :: 0 <= i < |parts| ==> parts[i].Fits()
    ensures p.Run(Unlines(Lines(parts)) + ("\n" + rest)) == q.Run(rest) && q.Fresh()
    ensures DataOf(parts) == [] ==> q.delivered == p.delivered && q.lastID == p.lastID
    ensures DataOf(parts) != [] ==>
      && data + "\n" == Unlines(DataOf(parts))
      && q.delivered == p.delivered + [Event(IdOf(parts, ""), NameOf(parts, ""), data)]
      && q.lastID == if IdOf(parts, "") != "" then IdOf(parts, "") else p.lastID
  {
    hide Part.Fits, Part.Line, Parser.Take, DropCR, Unlines, Tell;
    LinesKept(parts);
    RunLines(p, Lines(parts), "\n" + rest);
    var full := TakeAll(p, Lines(parts));
    PartsRead(p, parts);
    ScanLine("", rest);
    assert "" + "\n" + rest == "\n" + rest;
    BlankTaken(full);
    TellsDone(p, full, parts);
    q, data := full.Blank(), full.ev.data;
  }

  lemma TellsDone(p: Parser, q: Parser, parts: seq<Part>)
    requires p.Fresh() && Tell(p, q, parts)
    ensures q.lastID == p.lastID && q.delivered == p.delivered && q.ev.id == IdOf(parts, "") && q.ev.name == NameOf(parts, "")
    ensures if DataOf(parts) == [] then !q.hasData else q.hasData && q.ev.data + "\n" == Unlines(DataOf(parts))
  {
    hide Unlines;
    assert "" + Unlines(DataOf(parts)) == Unlines(DataOf(parts));
  }

  lemma BlankTaken(p: Parser)
    ensures p.Take(DropCR("")) == p.Blank()
  {
  }
}

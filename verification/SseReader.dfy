// The two readers of the backend's event stream (frontend/src/api/graph-runner.ts and
// operator-copilot.ts) and the writer at the other end (backend/app/adapters/http/streaming.py).
// The stream is a subset of section 9.2 of the WHATWG HTML Living Standard, "Server-sent events":
// one event per `data:` line, and an unterminated last line is dropped.
//
// Characters arrive already decoded.  `parse` stands for JSON.parse (`None`: it throws) and
// `dumps` for json.dumps.
module SseReader {
  import opened Options

  // ---- the string operations of the readers ----

  // What String.prototype.trim removes: white space and line terminators.
  predicate IsSpace(c: char) {
    || '\t' <= c <= '\r' || c == ' ' || c == '\U{a0}' || c == '\U{1680}' || '\U{2000}' <= c <= '\U{200a}'
    || c == '\U{2028}' || c == '\U{2029}' || c == '\U{202f}' || c == '\U{205f}' || c == '\U{3000}'
    || c == '\U{feff}'
  }

  function TrimStart(s: string): string {
    if s != "" && IsSpace(s[0]) then TrimStart(s[1..]) else s
  }

  function TrimEnd(s: string): string {
    if s != "" && IsSpace(s[|s| - 1]) then TrimEnd(s[..|s| - 1]) else s
  }

  function Trim(s: string): string {
    TrimEnd(TrimStart(s))
  }

  // One more character in front of a split text.
  function Push(c: char, lines: seq<string>): (r: seq<string>)
    requires |lines| >= 1
    ensures |r| >= 1
  {
    if c == '\n' then [""] + lines else [[c] + lines[0]] + lines[1..]
  }

  // s.split('\n')
  function Split(s: string): (lines: seq<string>)
    ensures |lines| >= 1
  {
    if s == "" then [""] else Push(s[0], Split(s[1..]))
  }

  // The complete lines of a text and what follows the last of them.
  function Lines(s: string): seq<string> {
    var lines := Split(s);
    lines[..|lines| - 1]
  }

  function Rest(s: string): string {
    var lines := Split(s);
    lines[|lines| - 1]
  }

  const DATA := "data:"
  const DONE := "[DONE]"

  // The text a line carries for the parser, if it carries any.
  function Payload(line: string): Option<string> {
    var trimmed := Trim(line);
    if !(DATA <= trimmed) then None
    else
      var raw := Trim(trimmed[|DATA|..]);
      if raw == "" || raw == DONE then None else Some(raw)
  }

  function LineEvents<E>(line: string, parse: string -> Option<E>): seq<E> {
    match Payload(line)
    case None => []
    case Some(raw) => match parse(raw) case None => [] case Some(e) => [e]
  }

  function EventsOf<E>(lines: seq<string>, parse: string -> Option<E>): seq<E> {
    if lines == [] then []
    else EventsOf(lines[..|lines| - 1], parse) + LineEvents(lines[|lines| - 1], parse)
  }

  predicate HasPayload(lines: seq<string>) {
    exists i :: 0 <= i < |lines| && Payload(lines[i]).Some?
  }

  function Concat(chunks: seq<string>): string {
    if chunks == [] then "" else Concat(chunks[..|chunks| - 1]) + chunks[|chunks| - 1]
  }

  // ---- splitting and chunks ----

  lemma PushLongLines(c: char, lines: seq<string>, more: seq<string>)
    requires |lines| > 1 || c == '\n'
    requires |lines| >= 1 && |more| >= 1
    ensures |Push(c, lines)| > 1
    ensures Push(c, lines[..|lines| - 1] + more) == Push(c, lines)[..|Push(c, lines)| - 1] + more
    ensures Push(c, lines)[|Push(c, lines)| - 1] == lines[|lines| - 1]
  {
    var front := lines[..|lines| - 1];
    if c == '\n' {
      assert [""] + (front + more) == ([""] + front) + more;
      assert ([""] + lines)[..|lines|] == [""] + front;
    } else {
      assert (front + more)[1..] == front[1..] + more && (front + more)[0] == lines[0];
    }
  }

  lemma SplitPush(c: char, s: string)
    ensures Split([c] + s) == Push(c, Split(s))
  {
    assert ([c] + s)[1..] == s;
  }

  lemma PushKeepsConcat(c: char, a: string, b: string)
    requires Split(a + b) == Lines(a) + Split(Rest(a) + b)
    ensures Split([c] + (a + b)) == Lines([c] + a) + Split(Rest([c] + a) + b)
  {
    var tail := Split(a);
    SplitPush(c, a + b);
    SplitPush(c, a);
    if c == '\n' || |tail| > 1 {
      hide Split, Push;
      PushLongLines(c, tail, Split(Rest(a) + b));
    } else {
      SplitPush(c, Rest(a) + b);
      hide Split;
      assert Lines(a) == [] && Lines([c] + a) == [];
      assert Lines(a) + Split(Rest(a) + b) == Split(Rest(a) + b);
      assert Rest([c] + a) + b == [c] + (Rest(a) + b);
    }
  }

  lemma {:induction false} SplitConcat(a: string, b: string)
    ensures Split(a + b) == Lines(a) + Split(Rest(a) + b)
  {
    if a == "" {
      assert a + b == b && Rest(a) + b == b;
    } else {
      hide *;
      SplitConcat(a[1..], b);
      PushKeepsConcat(a[0], a[1..], b);
      HeadFirst(a, b);
    }
  }

  lemma HeadFirst(a: string, b: string)
    requires a != ""
    ensures [a[0]] + (a[1..] + b) == a + b && [a[0]] + a[1..] == a
  {
  }

  // Feeding one more chunk completes the lines of the buffer with the chunk, and no others.
  lemma ChunkCompletes(a: string, b: string)
    ensures Lines(a + b) == Lines(a) + Lines(Rest(a) + b)
    ensures Rest(a + b) == Rest(Rest(a) + b)
  {
    SplitConcat(a, b);
  }

  lemma {:induction false} EventsConcat<E>(a: seq<string>, b: seq<string>, parse: string -> Option<E>)
    ensures EventsOf(a + b, parse) == EventsOf(a, parse) + EventsOf(b, parse)
  {
    hide LineEvents;
    if b == [] {
      assert a + b == a;
    } else {
      EventsConcat(a, b[..|b| - 1], parse);
      assert (a + b)[..|a + b| - 1] == a + b[..|b| - 1];
    }
  }

  lemma NoLines<E>(parse: string -> Option<E>)
    ensures EventsOf([], parse) == []
  {
  }

  lemma OneMoreLine<E>(lines: seq<string>, k: nat, parse: string -> Option<E>)
    requires k < |lines|
    ensures EventsOf(lines[..k + 1], parse) == EventsOf(lines[..k], parse) + LineEvents(lines[k], parse)
  {
    assert lines[..k + 1][..k] == lines[..k];
  }

  lemma PayloadConcat(a: seq<string>, b: seq<string>)
    ensures HasPayload(a + b) <==> HasPayload(a) || HasPayload(b)
  {
    hide Payload;
    if HasPayload(b) {
      var i :| 0 <= i < |b| && Payload(b[i]).Some?;
      assert (a + b)[|a| + i] == b[i];
    }
    if HasPayload(a) {
      var i :| 0 <= i < |a| && Payload(a[i]).Some?;
      assert (a + b)[i] == a[i];
    }
  }

  lemma LastPayload(lines: seq<string>)
    requires lines != []
    ensures HasPayload(lines) <==> HasPayload(lines[..|lines| - 1]) || Payload(lines[|lines| - 1]).Some?
  {
    hide Payload;
    var front, last := lines[..|lines| - 1], lines[|lines| - 1];
    assert lines == front + [last] && [last][0] == last;
    PayloadConcat(front, [last]);
  }

  // ---- text made of lines ----

  function Unlines(lines: seq<string>): string {
    if lines == [] then "" else Unlines(lines[..|lines| - 1]) + (lines[|lines| - 1] + "\n")
  }

  predicate OneLine(s: string) {
    '\n' !in s
  }

  lemma {:induction false} SplitOneLine(s: string)
    requires OneLine(s)
    ensures Split(s) == [s]
    ensures Split(s + "\n") == [s, ""]
  {
    if s == "" {
      assert s + "\n" == "\n" && "\n"[1..] == "";
      assert Push('\n', [""]) == ["", ""];
    } else {
      SplitOneLine(s[1..]);
      assert (s + "\n")[1..] == s[1..] + "\n";
      assert [s[0]] + s[1..] == s;
    }
  }

  // Splitting undoes joining: a text is its lines and its rest, and only those.
  lemma {:induction false} SplitUnlines(lines: seq<string>, rest: string)
    requires OneLine(rest) && forall i :: 0 <= i < |lines| ==> OneLine(lines[i])
    ensures Lines(Unlines(lines) + rest) == lines && Rest(Unlines(lines) + rest) == rest
  {
    if lines == [] {
      assert Unlines(lines) + rest == rest;
      SplitOneLine(rest);
    } else {
      var n := |lines| - 1;
      SplitUnlines(lines[..n], "");
      var front := Unlines(lines[..n]);
      assert front + "" == front;
      ChunkCompletes(front, lines[n] + "\n");
      assert Rest(front) + (lines[n] + "\n") == lines[n] + "\n";
      SplitOneLine(lines[n]);
      assert Lines(Unlines(lines)) == lines && Rest(Unlines(lines)) == "";
      ChunkCompletes(Unlines(lines), rest);
      assert "" + rest == rest;
      SplitOneLine(rest);
    }
  }

  // ---- what a line carries ----

  predicate Spaces(s: string) {
    forall c :: c in s ==> IsSpace(c)
  }

  predicate Tight(s: string) {
    s != "" ==> !IsSpace(s[0]) && !IsSpace(s[|s| - 1])
  }

  lemma {:induction false} StartIsCut(s: string) returns (a: string)
    ensures Spaces(a) && s == a + TrimStart(s) && (TrimStart(s) != "" ==> !IsSpace(TrimStart(s)[0]))
  {
    a := "";
    if s != "" && IsSpace(s[0]) {
      var b := StartIsCut(s[1..]);
      a := [s[0]] + b;
      assert s == [s[0]] + s[1..];
    }
  }

  lemma {:induction false} EndIsCut(s: string) returns (c: string)
    ensures Spaces(c) && s == TrimEnd(s) + c && (TrimEnd(s) != "" ==> !IsSpace(TrimEnd(s)[|TrimEnd(s)| - 1]))
  {
    c := "";
    if s != "" && IsSpace(s[|s| - 1]) {
      var b := EndIsCut(s[..|s| - 1]);
      c := b + [s[|s| - 1]];
      assert s == s[..|s| - 1] + [s[|s| - 1]];
    }
  }

  lemma TrimCuts(s: string) returns (a: string, c: string)
    ensures Spaces(a) && Spaces(c) && s == a + Trim(s) + c && Tight(Trim(s))
  {
    a := StartIsCut(s);
    c := EndIsCut(TrimStart(s));
    assert s == a + (Trim(s) + c);
    if Trim(s) != "" {
      assert Trim(s)[0] == TrimStart(s)[0];
    }
  }

  lemma {:induction false} StartIgnoresSpaces(a: string, s: string)
    requires Spaces(a)
    ensures TrimStart(a + s) == TrimStart(s)
  {
    if a == "" {
      assert a + s == s;
    } else {
      StartIgnoresSpaces(a[1..], s);
      assert (a + s)[1..] == a[1..] + s && a[0] in a;
    }
  }

  lemma {:induction false} EndIgnoresSpaces(s: string, c: string)
    requires Spaces(c)
    ensures TrimEnd(s + c) == TrimEnd(s)
  {
    if c == "" {
      assert s + c == s;
    } else {
      var n := |c| - 1;
      EndIgnoresSpaces(s, c[..n]);
      assert (s + c)[..|s + c| - 1] == s + c[..n] && c[n] in c;
    }
  }

  lemma TrimIgnoresSpaces(a: string, s: string, c: string)
    requires Spaces(a) && Spaces(c) && Tight(s) && s != ""
    ensures Trim(a + s + c) == s
  {
    assert a + s + c == a + (s + c);
    StartIgnoresSpaces(a, s + c);
    assert TrimStart(s + c) == s + c;
    EndIgnoresSpaces(s, c);
  }

  // A line carries a text exactly if it reads "data:" and then that text, but for white space around
  // the two; an empty text and the sentinel are none.
  lemma PayloadExactly(line: string, raw: string)
    ensures Payload(line) == Some(raw)
       <==> (raw != "" && raw != "[DONE]" && Tight(raw)
             && exists a, b, c :: Spaces(a) && Spaces(b) && Spaces(c) && line == a + "data:" + b + raw + c)
  {
    if Payload(line) == Some(raw) {
      var a, c := TrimCuts(line);
      var trimmed := Trim(line);
      var b, d := TrimCuts(trimmed[5..]);
      assert trimmed == "data:" + trimmed[5..];
      assert line == a + "data:" + b + raw + (d + c);
      assert Spaces(d + c);
    }
    if raw != "" && raw != "[DONE]" && Tight(raw) {
      forall a, b, c | Spaces(a) && Spaces(b) && Spaces(c) && line == a + "data:" + b + raw + c
        ensures Payload(line) == Some(raw)
      {
        CarriesText(a, b, raw, c);
      }
    }
  }

  lemma CarriesText(a: string, b: string, raw: string, c: string)
    requires Spaces(a) && Spaces(b) && Spaces(c) && raw != "" && raw != "[DONE]" && Tight(raw)
    ensures Payload(a + "data:" + b + raw + c) == Some(raw)
  {
    var text := "data:" + b + raw;
    assert a + "data:" + b + raw + c == a + text + c;
    TrimIgnoresSpaces(a, text, c);
    assert text[5..] == b + raw + "";
    TrimIgnoresSpaces(b, raw, "");
  }

  // ---- the readers ----

  // How the body ends: the reader reports `done`, or `reader.read()` throws.
  datatype Ending = Done | Aborted | Broken

  datatype Fate = Closed | NoEventsError | AbortedError | ReadError

  function FateOf(ending: Ending, signalAborted: bool, saw: bool): Fate {
    match ending
    case Done => if saw then Closed else NoEventsError
    case Aborted => AbortedError
    case Broken => if signalAborted then AbortedError else ReadError
  }

  // The line loop of graph-runner.ts: an event is noted once it has parsed.
  method EnqueueParsed<E>(lines: seq<string>, queue: seq<E>, saw: bool, parse: string -> Option<E>)
    returns (out: seq<E>, sawEvent: bool)
    ensures out == queue + EventsOf(lines, parse)
    ensures sawEvent == (saw || EventsOf(lines, parse) != [])
  {
    hide Trim, EventsOf;
    NoLines(parse);
    out, sawEvent := queue, saw;
    var k := 0;
    while k < |lines|
      invariant 0 <= k <= |lines|
      invariant out == queue + EventsOf(lines[..k], parse)
      invariant sawEvent == (saw || EventsOf(lines[..k], parse) != [])
    {
      OneMoreLine(lines, k, parse);
      var trimmed := Trim(lines[k]);
      k := k + 1;
      if !(DATA <= trimmed) {
        continue;
      }
      var raw := Trim(trimmed[|DATA|..]);
      if raw == "" || raw == DONE {
        continue;
      }
      var event := parse(raw);
      if event.Some? {
        sawEvent := true;
        out := out + [event.value];
      }
    }
    assert lines[..|lines|] == lines;
  }

  // The line loop of operator-copilot.ts: an event is noted before it is parsed.
  method EnqueueSeen<E>(lines: seq<string>, queue: seq<E>, saw: bool, parse: string -> Option<E>)
    returns (out: seq<E>, sawEvent: bool)
    ensures out == queue + EventsOf(lines, parse)
    ensures sawEvent == (saw || HasPayload(lines))
  {
    hide Trim, EventsOf;
    NoLines(parse);
    out, sawEvent := queue, saw;
    var k := 0;
    while k < |lines|
      invariant 0 <= k <= |lines|
      invariant out == queue + EventsOf(lines[..k], parse)
      invariant sawEvent == (saw || HasPayload(lines[..k]))
    {
      OneMoreLine(lines, k, parse);
      LastPayload(lines[..k + 1]);
      var trimmed := Trim(lines[k]);
      k := k + 1;
      if !(DATA <= trimmed) {
        continue;
      }
      var raw := Trim(trimmed[|DATA|..]);
      if raw == "" || raw == DONE {
        continue;
      }
      sawEvent := true;
      var event := parse(raw);
      if event.Some? {
        out := out + [event.value];
      }
    }
    assert lines[..|lines|] == lines;
  }

  lemma NothingRead<E>(chunks: seq<string>, parse: string -> Option<E>)
    ensures Concat(chunks[..0]) == Rest("") == "" && Lines("") == []
    ensures EventsOf([], parse) == [] && !HasPayload([])
  {
  }

  // What one more chunk adds, given the part of the text already read.
  lemma OneMoreChunk<E>(chunks: seq<string>, next: nat, parse: string -> Option<E>)
    requires next < |chunks|
    ensures var before, after := Concat(chunks[..next]), Concat(chunks[..next + 1]);
      var buffer := Rest(before) + chunks[next];
      && Rest(after) == Rest(buffer)
      && EventsOf(Lines(after), parse) == EventsOf(Lines(before), parse) + EventsOf(Lines(buffer), parse)
      && (HasPayload(Lines(after)) <==> HasPayload(Lines(before)) || HasPayload(Lines(buffer)))
  {
    var before := Concat(chunks[..next]);
    assert chunks[..next + 1][..next] == chunks[..next];
    ChunkCompletes(before, chunks[next]);
    hide Lines, Rest, EventsOf, HasPayload;
    EventsConcat(Lines(before), Lines(Rest(before) + chunks[next]), parse);
    PayloadConcat(Lines(before), Lines(Rest(before) + chunks[next]));
  }

  // sseStream of graph-runner.ts, from the first read on; it does not look at the signal when a
  // read throws.  `enqueue` is taken not to throw.
  method ReadGraphRunner<E>(chunks: seq<string>, ending: Ending, parse: string -> Option<E>)
    returns (out: seq<E>, fate: Fate)
    ensures out == EventsOf(Lines(Concat(chunks)), parse)
    ensures fate == Closed <==> ending == Done && out != []
    ensures fate == NoEventsError <==> ending == Done && out == []
    ensures fate == AbortedError <==> ending == Aborted
    ensures fate == ReadError <==> ending == Broken
    ensures fate == FateOf(ending, false, out != [])
  {
    var buffer := "";
    var sawEvent := false;
    out := [];
    var next := 0;
    NothingRead(chunks, parse);
    hide EventsOf, HasPayload, Concat, Split;
    while next < |chunks|
      invariant 0 <= next <= |chunks|
      invariant buffer == Rest(Concat(chunks[..next]))
      invariant out == EventsOf(Lines(Concat(chunks[..next])), parse)
      invariant sawEvent == (out != [])
    {
      OneMoreChunk(chunks, next, parse);
      buffer := buffer + chunks[next];
      var lines := Split(buffer);
      buffer := lines[|lines| - 1];
      lines := lines[..|lines| - 1];
      out, sawEvent := EnqueueParsed(lines, out, sawEvent, parse);
      next := next + 1;
    }
    assert chunks[..|chunks|] == chunks;
    match ending
    case Aborted => fate := AbortedError;
    case Broken => fate := ReadError;
    case Done => fate := if !sawEvent then NoEventsError else Closed;
  }

  // sseStream of operator-copilot.ts.
  method ReadOperatorCopilot<E>(chunks: seq<string>, ending: Ending, signalAborted: bool, parse: string -> Option<E>)
    returns (out: seq<E>, fate: Fate)
    ensures out == EventsOf(Lines(Concat(chunks)), parse)
    ensures fate == Closed <==> ending == Done && HasPayload(Lines(Concat(chunks)))
    ensures fate == NoEventsError <==> ending == Done && !HasPayload(Lines(Concat(chunks)))
    ensures fate == AbortedError <==> ending == Aborted || (ending == Broken && signalAborted)
    ensures fate == ReadError <==> ending == Broken && !signalAborted
    ensures fate == FateOf(ending, signalAborted, HasPayload(Lines(Concat(chunks))))
  {
    var buffer := "";
    var sawEvent := false;
    out := [];
    var next := 0;
    NothingRead(chunks, parse);
    hide EventsOf, HasPayload, Concat, Split;
    while next < |chunks|
      invariant 0 <= next <= |chunks|
      invariant buffer == Rest(Concat(chunks[..next]))
      invariant out == EventsOf(Lines(Concat(chunks[..next])), parse)
      invariant sawEvent == HasPayload(Lines(Concat(chunks[..next])))
    {
      OneMoreChunk(chunks, next, parse);
      buffer := buffer + chunks[next];
      var lines := Split(buffer);
      buffer := lines[|lines| - 1];
      lines := lines[..|lines| - 1];
      out, sawEvent := EnqueueSeen(lines, out, sawEvent, parse);
      next := next + 1;
    }
    assert chunks[..|chunks|] == chunks;
    match ending
    case Aborted => fate := AbortedError;
    case Broken => fate := if signalAborted then AbortedError else ReadError;
    case Done => fate := if !sawEvent then NoEventsError else Closed;
  }

  // ---- what the readers have in common ----

  predicate Delivers<E>(line: string, parse: string -> Option<E>) {
    Payload(line).Some? && parse(Payload(line).value).Some?
  }

  lemma {:induction false} EventsNeedPayload<E>(lines: seq<string>, parse: string -> Option<E>)
    ensures EventsOf(lines, parse) != [] <==> exists i :: 0 <= i < |lines| && Delivers(lines[i], parse)
  {
    hide LineEvents, Delivers;
    if lines == [] {
    } else {
      var n := |lines| - 1;
      EventsNeedPayload(lines[..n], parse);
      LineNeedsPayload(lines[n], parse);
      if i :| 0 <= i < n && Delivers(lines[..n][i], parse) {
        assert Delivers(lines[i], parse);
      }
      if i :| 0 <= i < n && Delivers(lines[i], parse) {
        assert Delivers(lines[..n][i], parse);
      }
    }
  }

  lemma LineNeedsPayload<E>(line: string, parse: string -> Option<E>)
    ensures LineEvents(line, parse) != [] <==> Delivers(line, parse)
  {
    hide Payload;
  }

  // Both readers enqueue the same events.  After a complete body they end alike unless the body
  // had payloads and none of them parsed: then only the operator's reader closes normally.
  lemma ReadersDifferExactly<E>(text: string, parse: string -> Option<E>)
    ensures var lines := Lines(text);
            var graph := FateOf(Done, false, EventsOf(lines, parse) != []);
            var operator := FateOf(Done, false, HasPayload(lines));
            && (graph == Closed ==> operator == Closed)
            && (graph != operator <==>
                  HasPayload(lines)
                  && forall i :: 0 <= i < |lines| ==> !Delivers(lines[i], parse))
  {
    EventsNeedPayload(Lines(text), parse);
    hide Lines, EventsOf, Payload;
  }

  // ---- the writer ----

  // What the backend puts on the wire.  `named` is the `event:` line of an error frame.
  datatype Frame<E> = Event(event: E, named: Option<string>) | Heartbeat | Sentinel

  function FrameLines<E>(f: Frame<E>, dumps: E -> string): seq<string> {
    match f
    case Event(e, None) => ["data: " + dumps(e), ""]
    case Event(e, Some(name)) => ["event: " + name, "data: " + dumps(e), ""]
    case Heartbeat => [": heartbeat", ""]
    case Sentinel => ["data: [DONE]", ""]
  }

  function WireLines<E>(frames: seq<Frame<E>>, dumps: E -> string): seq<string> {
    if frames == [] then []
    else WireLines(frames[..|frames| - 1], dumps) + FrameLines(frames[|frames| - 1], dumps)
  }

  function Wire<E>(frames: seq<Frame<E>>, dumps: E -> string): string {
    Unlines(WireLines(frames, dumps))
  }

  function Sent<E>(frames: seq<Frame<E>>): seq<E> {
    if frames == [] then []
    else
      Sent(frames[..|frames| - 1])
      + match frames[|frames| - 1] case Event(e, _) => [e] case _ => []
  }

  // The text of a JSON value: on one line, no white space at either end, and parsed back.
  ghost predicate Encodes<E>(e: E, dumps: E -> string, parse: string -> Option<E>) {
    var text := dumps(e);
    && text != "" && OneLine(text) && !IsSpace(text[0]) && !IsSpace(text[|text| - 1])
    && text != DONE && parse(text) == Some(e)
  }

  lemma TrimTight(s: string)
    requires s != "" ==> !IsSpace(s[0]) && !IsSpace(s[|s| - 1])
    ensures Trim(s) == s
  {
  }

  lemma DataLineCarries<E>(e: E, dumps: E -> string, parse: string -> Option<E>)
    requires Encodes(e, dumps, parse)
    ensures LineEvents("data: " + dumps(e), parse) == [e]
  {
    var text := dumps(e);
    var line := "data: " + text;
    TrimTight(line);
    assert line[..5] == DATA;
    assert line[5..] == " " + text;
    assert (" " + text)[1..] == text;
    assert TrimStart(" " + text) == TrimStart(text) == text;
    TrimTight(text);
    assert Trim(line[|DATA|..]) == text;
  }

  lemma OtherLinesCarryNothing<E>(name: string, parse: string -> Option<E>)
    ensures LineEvents("", parse) == []
    ensures LineEvents(": heartbeat", parse) == []
    ensures LineEvents("data: [DONE]", parse) == []
    ensures LineEvents("event: " + name, parse) == []
  {
    TrimTight(": heartbeat");
    assert ": heartbeat"[0] == ':' && DATA[0] == 'd';
    var done := "data: [DONE]";
    TrimTight(done);
    assert done[5..] == " [DONE]" && " [DONE]"[1..] == DONE;
    TrimTight(DONE);
    assert TrimStart(" [DONE]") == TrimStart(DONE) == DONE;
    EventLineStaysEventLine(name);
  }

  lemma EventLineStaysEventLine(name: string)
    ensures !(DATA <= Trim("event: " + name))
  {
    var line := "event: " + name;
    assert line[0] == 'e' && TrimStart(line) == line;
    TrimEndIsPrefix(line);
    assert DATA[0] == 'd';
  }

  lemma {:induction false} TrimEndIsPrefix(s: string)
    ensures TrimEnd(s) <= s
  {
    if s != "" && IsSpace(s[|s| - 1]) {
      TrimEndIsPrefix(s[..|s| - 1]);
    }
  }

  ghost predicate Wireable<E>(frames: seq<Frame<E>>, dumps: E -> string, parse: string -> Option<E>) {
    forall i :: 0 <= i < |frames| && frames[i].Event? ==>
      Encodes(frames[i].event, dumps, parse) && (frames[i].named.Some? ==> OneLine(frames[i].named.value))
  }

  lemma OneLineEvents<E>(a: string, parse: string -> Option<E>)
    ensures EventsOf([a], parse) == LineEvents(a, parse)
  {
    hide LineEvents;
    assert [a][..0] == [];
  }

  lemma TwoLineEvents<E>(a: string, b: string, parse: string -> Option<E>)
    ensures EventsOf([a, b], parse) == LineEvents(a, parse) + LineEvents(b, parse)
  {
    OneLineEvents(a, parse);
    OneLineEvents(b, parse);
    hide LineEvents;
    EventsConcat([a], [b], parse);
    assert [a] + [b] == [a, b];
  }

  lemma FrameCarries<E>(f: Frame<E>, dumps: E -> string, parse: string -> Option<E>)
    requires f.Event? ==> Encodes(f.event, dumps, parse)
    ensures EventsOf(FrameLines(f, dumps), parse) == match f case Event(e, _) => [e] case _ => []
  {
    OtherLinesCarryNothing(if f.Event? && f.named.Some? then f.named.value else "", parse);
    if f.Event? {
      DataLineCarries(f.event, dumps, parse);
    }
    hide LineEvents, Encodes, EventsOf;
    match f
    case Event(e, None) => TwoLineEvents("data: " + dumps(e), "", parse);
    case Event(e, Some(name)) =>
      var data := "data: " + dumps(e);
      TwoLineEvents(data, "", parse);
      OneLineEvents("event: " + name, parse);
      EventsConcat(["event: " + name], [data, ""], parse);
      assert FrameLines(f, dumps) == ["event: " + name] + [data, ""];
    case Heartbeat => TwoLineEvents(": heartbeat", "", parse);
    case Sentinel => TwoLineEvents("data: [DONE]", "", parse);
  }

  lemma FrameIsLines<E>(f: Frame<E>, dumps: E -> string)
    requires f.Event? ==> OneLine(dumps(f.event)) && (f.named.Some? ==> OneLine(f.named.value))
    ensures forall i :: 0 <= i < |FrameLines(f, dumps)| ==> OneLine(FrameLines(f, dumps)[i])
  {
  }

  lemma {:induction false} WireIsLines<E>(frames: seq<Frame<E>>, dumps: E -> string, parse: string -> Option<E>)
    requires Wireable(frames, dumps, parse)
    ensures forall i :: 0 <= i < |WireLines(frames, dumps)| ==> OneLine(WireLines(frames, dumps)[i])
  {
    if frames != [] {
      var n := |frames| - 1;
      WireIsLines(frames[..n], dumps, parse);
      FrameIsLines(frames[n], dumps);
      hide FrameLines, Encodes, OneLine;
    }
  }

  lemma {:induction false} WireCarries<E>(frames: seq<Frame<E>>, dumps: E -> string, parse: string -> Option<E>)
    requires Wireable(frames, dumps, parse)
    ensures EventsOf(WireLines(frames, dumps), parse) == Sent(frames)
  {
    if frames != [] {
      var n := |frames| - 1;
      hide EventsOf, FrameLines, Encodes, OneLine;
      WireCarries(frames[..n], dumps, parse);
      FrameCarries(frames[n], dumps, parse);
      EventsConcat(WireLines(frames[..n], dumps), FrameLines(frames[n], dumps), parse);
    }
  }

  // End to end: whatever events, heartbeats and sentinels the backend writes, and however the
  // network cuts the text up, the readers enqueue exactly the events, in order.
  lemma StreamRoundTrip<E>(
    frames: seq<Frame<E>>, chunks: seq<string>, dumps: E -> string, parse: string -> Option<E>)
    requires Wireable(frames, dumps, parse)
    requires Concat(chunks) == Wire(frames, dumps)
    ensures EventsOf(Lines(Concat(chunks)), parse) == Sent(frames)
    ensures Rest(Concat(chunks)) == ""
  {
    WireCarries(frames, dumps, parse);
    WireIsLines(frames, dumps, parse);
    SplitUnlines(WireLines(frames, dumps), "");
    assert Wire(frames, dumps) + "" == Wire(frames, dumps);
  }

  // A connection cut short delivers a beginning of what the whole would have delivered.
  lemma ShortStreamDeliversPrefix<E>(text: string, more: string, parse: string -> Option<E>)
    ensures EventsOf(Lines(text), parse) <= EventsOf(Lines(text + more), parse)
  {
    ChunkCompletes(text, more);
    EventsConcat(Lines(text), Lines(Rest(text) + more), parse);
  }
}

/**
 The frames Broadcast writes, and the event stream parser a browser applies to them
 (sections 9.2.5 and 9.2.6 of the WHATWG HTML Living Standard).
 */
module EventStream {
  import opened Text

  const LF := '\n'
  const CR := '\r'

  // ---------- What the server writes ----------

  /** One "data: " line for each line of the data. */
  function DataLines(lines: seq<string>): string {
    if lines == [] then "" else "data: " + lines[0] + "\n" + DataLines(lines[1..])
  }

  function Frame(name: string, data: string): string {
    "event: " + name + "\n" + DataLines(Split(data, LF)) + "\n"
  }

  /** The string Broadcast builds before it takes the lock. */
  method FormatFrame(name: string, data: string) returns (formatted: string)
    ensures formatted == Frame(name, data)
  {
    var msg := "event: ";
    msg := msg + name;
    msg := msg + "\n";
    var lines := Split(data, LF);
    ghost var whole := msg + DataLines(lines);
    for i := 0 to |lines|
      invariant whole == msg + DataLines(lines[i..])
    {
      DataLinesStep(msg, lines[i..]);
      msg := msg + "data: ";
      msg := msg + lines[i];
      msg := msg + "\n";
      assert lines[i..][1..] == lines[i + 1..];
    }
    formatted := msg + "\n";
  }

  lemma DataLinesStep(msg: string, lines: seq<string>)
    requires lines != []
    ensures msg + DataLines(lines) == msg + "data: " + lines[0] + "\n" + DataLines(lines[1..])
  {
    var rest := DataLines(lines[1..]);
    assert msg + ("data: " + lines[0] + "\n" + rest) == msg + "data: " + lines[0] + "\n" + rest;
  }

  /** The retry line handleSSE writes before it subscribes. */
  function Preamble(retryMs: int): string {
    "retry: " + Itoa(retryMs) + "\n\n"
  }

  // ---------- What the browser reads ----------

  datatype Event = Event(name: string, data: string)

  /** The buffers of the standard, the reconnection time and the events dispatched so far. */
  datatype Parsed = Parsed(eventType: string, data: string, lastId: string, retry: Option<nat>, events: seq<Event>)

  /**
   The parser between two characters: the unfinished line, and whether the last character was
   a CR (a following LF belongs to the same line end).
   */
  datatype Decoder = Decoder(line: string, afterCR: bool, parsed: Parsed)

  const NOTHING := Parsed("", "", "", None, [])
  const START := Decoder("", false, NOTHING)

  function Dispatch(p: Parsed): Parsed {
    if p.data == "" then p.(eventType := "")
    else
      var data := if p.data[|p.data| - 1] == LF then p.data[..|p.data| - 1] else p.data;
      var name := if p.eventType == "" then "message" else p.eventType;
      p.(eventType := "", data := "", events := p.events + [Event(name, data)])
  }

  function ProcessField(p: Parsed, field: string, value: string): Parsed {
    match field
    case "event" => p.(eventType := value)
    case "data" => p.(data := p.data + value + "\n")
    case "id" => if '\0' in value then p else p.(lastId := value)
    case "retry" => if AllDigits(value) then p.(retry := Some(DigitsValue(value))) else p
    case _ => p
  }

  function ProcessLine(p: Parsed, line: string): Parsed {
    var colon := IndexOf(line, ':');
    if line == "" then Dispatch(p)
    else if colon == 0 then p
    else if colon == -1 then ProcessField(p, line, "")
    else
      var value := line[colon + 1..];
      ProcessField(p, line[..colon], if value != "" && value[0] == ' ' then value[1..] else value)
  }

  function Feed(d: Decoder, c: char): Decoder {
    if c == LF && d.afterCR then d.(afterCR := false)
    else if c == LF || c == CR then Decoder("", c == CR, ProcessLine(d.parsed, d.line))
    else Decoder(d.line + [c], false, d.parsed)
  }

  function Run(d: Decoder, s: string): Decoder
    decreases |s|
  {
    if s == "" then d else Run(Feed(d, s[0]), s[1..])
  }

  /** Decoding a whole stream; UTF-8 decoding drops a leading byte order mark. */
  function Decode(stream: string): Parsed {
    Run(START, TrimPrefix(stream, "\U{FEFF}")).parsed
  }

  // ---------- Lines ----------

  /** At the start of a line, with these buffers. */
  function At(p: Parsed): Decoder { Decoder("", false, p) }

  predicate NoLineEnd(s: string) { LF !in s && CR !in s }

  lemma {:induction false} RunConcat(d: Decoder, a: string, b: string)
    ensures Run(d, a + b) == Run(Run(d, a), b)
    decreases |a|
  {
    if a == "" {
      assert a + b == b;
    } else {
      RunConcat(Feed(d, a[0]), a[1..], b);
      assert (a + b)[1..] == a[1..] + b;
    }
  }

  lemma {:induction false} RunText(d: Decoder, t: string)
    requires NoLineEnd(t) && !d.afterCR
    ensures Run(d, t) == d.(line := d.line + t)
    decreases |t|
  {
    if t == "" {
      assert d.line + t == d.line;
    } else {
      RunText(Feed(d, t[0]), t[1..]);
      assert d.line + [t[0]] + t[1..] == d.line + t;
    }
  }

  lemma RunChar(d: Decoder, c: char)
    ensures Run(d, [c]) == Feed(d, c)
  {
    assert Run(Feed(d, c), [c][1..]) == Feed(d, c);
  }

  lemma RunLine(p: Parsed, text: string)
    requires NoLineEnd(text)
    ensures Run(At(p), text + [LF]) == At(ProcessLine(p, text))
  {
    hide ProcessLine;
    RunConcat(At(p), text, [LF]);
    RunText(At(p), text);
    assert "" + text == text;
    RunChar(Decoder(text, false, p), LF);
  }

  /** What the data buffer gains from these data lines. */
  function LineText(lines: seq<string>): string {
    if lines == [] then "" else lines[0] + "\n" + LineText(lines[1..])
  }

  /** The lines Broadcast splits the data into make up the data and one more line end. */
  lemma {:induction false} TextOfSplit(data: string)
    ensures LineText(Split(data, LF)) == data + "\n"
  {
    var parts := Split(data, LF);
    if data != "" {
      TextOfSplit(data[1..]);
      var rest := Split(data[1..], LF);
      if data[0] == LF {
        assert parts[1..] == rest;
      } else {
        assert parts[1..] == rest[1..];
        assert parts[0] + "\n" + LineText(rest[1..]) == [data[0]] + (rest[0] + "\n" + LineText(rest[1..]));
      }
    }
  }

  lemma {:induction false} PieceChars(data: string, i: nat)
    requires i < |Split(data, LF)| && CR !in data
    ensures NoLineEnd(Split(data, LF)[i])
  {
    if data != "" {
      var rest := Split(data[1..], LF);
      if data[0] == LF {
        if i > 0 { PieceChars(data[1..], i - 1); }
      } else {
        PieceChars(data[1..], i);
      }
    }
  }

  // ---------- Field lines ----------

  lemma FieldLine(p: Parsed, field: string, value: string)
    requires field != "" && ':' !in field
    ensures ProcessLine(p, field + ": " + value) == ProcessField(p, field, value)
  {
    hide ProcessField;
    var line := field + ": " + value;
    assert line == field + [':'] + (" " + value);
    IndexOfAt(field, ':', " " + value);
    assert line[..|field|] == field && line[|field| + 1..] == " " + value && (" " + value)[1..] == value;
  }

  lemma RunField(p: Parsed, field: string, value: string)
    requires field != "" && ':' !in field && NoLineEnd(field) && NoLineEnd(value)
    ensures Run(At(p), field + ": " + value + "\n") == At(ProcessField(p, field, value))
  {
    hide ProcessField;
    assert NoLineEnd(field + ": " + value);
    RunLine(p, field + ": " + value);
    FieldLine(p, field, value);
  }

  lemma DataField(p: Parsed, value: string)
    ensures ProcessLine(p, "data: " + value) == p.(data := p.data + value + "\n")
    ensures NoLineEnd(value) ==> NoLineEnd("data: " + value)
  {
    hide ProcessLine;
    FieldLine(p, "data", value);
    assert "data" + ": " + value == "data: " + value;
  }

  lemma RunDataLine(p: Parsed, l: string)
    requires NoLineEnd(l)
    ensures Run(At(p), "data: " + l + "\n") == At(p.(data := p.data + l + "\n"))
  {
    hide Run, NoLineEnd;
    DataIsName();
    RunField(p, "data", l);
    assert "data" + ": " == "data: ";
  }

  lemma DataIsName()
    ensures ':' !in "data" && NoLineEnd("data")
  {
  }

  lemma {:induction false} RunDataLines(p: Parsed, lines: seq<string>)
    requires forall l | l in lines :: NoLineEnd(l)
    ensures Run(At(p), DataLines(lines)) == At(p.(data := p.data + LineText(lines)))
    decreases |lines|
  {
    if lines == [] {
      assert p.data + "" == p.data;
    } else {
      var head, rest := "data: " + lines[0] + "\n", DataLines(lines[1..]);
      var q := p.(data := p.data + lines[0] + "\n");
      RunConcat(At(p), head, rest);
      RunDataLine(p, lines[0]);
      RunDataLines(q, lines[1..]);
      assert q.data + LineText(lines[1..]) == p.data + (lines[0] + "\n" + LineText(lines[1..]));
    }
  }

  // ---------- One frame, one event ----------

  /** Between two events: nothing is pending. */
  predicate Idle(p: Parsed) { p.eventType == "" && p.data == "" }

  predicate ProperName(name: string) { name != "" && NoLineEnd(name) }

  lemma DispatchLine(p: Parsed, text: string)
    requires p.data == text + "\n" && p.eventType != ""
    ensures Run(At(p), "\n") == At(p.(eventType := "", data := "", events := p.events + [Event(p.eventType, text)]))
  {
    RunLine(p, "");
    assert "" + [LF] == "\n";
    assert p.data[..|p.data| - 1] == text;
  }

  /** The lines of a frame, for a parser at the start of a line. */
  lemma FrameLines(p: Parsed, name: string, data: string)
    requires ProperName(name)
    ensures Run(At(p), Frame(name, data)) == Run(Run(At(p.(eventType := name)), DataLines(Split(data, LF))), "\n")
  {
    hide DataLines;
    var head, body := "event: " + name + "\n", DataLines(Split(data, LF));
    assert Frame(name, data) == head + body + "\n";
    RunConcat(At(p), head + body, "\n");
    RunConcat(At(p), head, body);
    RunField(p, "event", name);
    assert "event" + ": " + name + "\n" == head;
  }

  /** A frame without CR dispatches exactly one event: its name and its data. */
  lemma RunFrame(p: Parsed, name: string, data: string)
    requires Idle(p) && ProperName(name) && CR !in data
    ensures Run(At(p), Frame(name, data)) == At(p.(events := p.events + [Event(name, data)]))
  {
    hide NoLineEnd, Frame, DataLines, LineText;
    FrameLines(p, name, data);
    var lines := Split(data, LF);
    forall l | l in lines ensures NoLineEnd(l) {
      var i :| 0 <= i < |lines| && lines[i] == l;
      PieceChars(data, i);
    }
    var named := p.(eventType := name);
    RunDataLines(named, lines);
    TextOfSplit(data);
    assert named.data + (data + "\n") == data + "\n";
    DispatchLine(named.(data := data + "\n"), data);
  }

  // ---------- What a decoded event can be ----------

  /** The messages the parser can give back: a nonempty name without line ends, data without CR. */
  predicate WireSafe(m: Event) { ProperName(m.name) && CR !in m.data }

  predicate CleanParsed(p: Parsed) {
    NoLineEnd(p.eventType) && CR !in p.data && forall e | e in p.events :: WireSafe(e)
  }

  lemma CleanField(p: Parsed, field: string, value: string)
    requires CleanParsed(p) && NoLineEnd(value)
    ensures CleanParsed(ProcessField(p, field, value)) && ProcessField(p, field, value).events == p.events
  {
    hide WireSafe;
  }

  lemma CleanLine(p: Parsed, line: string)
    requires CleanParsed(p) && NoLineEnd(line)
    ensures CleanParsed(ProcessLine(p, line)) && p.events <= ProcessLine(p, line).events
  {
    hide ProcessField;
    var colon := IndexOf(line, ':');
    if line == "" {
    } else if colon == -1 {
      CleanField(p, line, "");
    } else if colon > 0 {
      var value := line[colon + 1..];
      CleanField(p, line[..colon], if value != "" && value[0] == ' ' then value[1..] else value);
    }
  }

  lemma {:induction false} RunClean(d: Decoder, s: string)
    requires NoLineEnd(d.line) && CleanParsed(d.parsed)
    ensures NoLineEnd(Run(d, s).line) && CleanParsed(Run(d, s).parsed) && d.parsed.events <= Run(d, s).parsed.events
    decreases |s|
  {
    hide CleanParsed, ProcessLine;
    if s != "" {
      CleanLine(d.parsed, d.line);
      RunClean(Feed(d, s[0]), s[1..]);
    }
  }

  // ---------- Streams ----------

  function Frames(messages: seq<Event>): string {
    if messages == [] then ""
    else
      var last := messages[|messages| - 1];
      Frames(messages[..|messages| - 1]) + Frame(last.name, last.data)
  }

  lemma {:induction false} RunFrames(p: Parsed, messages: seq<Event>)
    requires Idle(p) && forall m | m in messages :: WireSafe(m)
    ensures Run(At(p), Frames(messages)) == At(p.(events := p.events + messages))
  {
    hide Frame;
    if messages == [] {
      assert p.events + messages == p.events;
    } else {
      var init, last := messages[..|messages| - 1], messages[|messages| - 1];
      assert last in messages;
      RunFrames(p, init);
      RunConcat(At(p), Frames(init), Frame(last.name, last.data));
      RunFrame(p.(events := p.events + init), last.name, last.data);
      assert p.events + init + [last] == p.events + messages;
    }
  }

  /** The preamble dispatches nothing, and sets the reconnection time exactly when the number is not negative. */
  lemma RunPreamble(retryMs: int)
    ensures Run(START, Preamble(retryMs)) == At(NOTHING.(retry := if retryMs >= 0 then Some(retryMs) else None))
  {
    var value := Itoa(retryMs);
    var line := "retry: " + value + "\n";
    PrintedNumber(retryMs);
    assert Preamble(retryMs) == line + "\n";
    RunConcat(START, line, "\n");
    RunField(NOTHING, "retry", value);
    assert "retry" + ": " + value + "\n" == line;
    RunLine(ProcessField(NOTHING, "retry", value), "");
    assert "" + [LF] == "\n";
  }

  lemma PrintedNumber(n: int)
    ensures NoLineEnd(Itoa(n)) && (AllDigits(Itoa(n)) <==> n >= 0)
    ensures n >= 0 ==> DigitsValue(Itoa(n)) == n
  {
    if n >= 0 {
      DecimalValue(n);
    } else {
      assert Itoa(n)[0] == '-' && Itoa(n)[0] in Itoa(n);
    }
  }

  /** The bytes of one client's response. */
  function Response(retryMs: int, messages: seq<Event>): string { Preamble(retryMs) + Frames(messages) }

  lemma DecodeResponse(retryMs: int, messages: seq<Event>)
    ensures Decode(Response(retryMs, messages)) == Run(Run(START, Preamble(retryMs)), Frames(messages)).parsed
  {
    assert Response(retryMs, messages)[0] == 'r';
    RunConcat(START, Preamble(retryMs), Frames(messages));
  }

  /** Every event a browser decodes from any stream has a proper name and no CR in its data. */
  lemma DecodedEventsAreSafe(stream: string)
    ensures forall e | e in Decode(stream).events :: WireSafe(e)
  {
    RunClean(START, TrimPrefix(stream, "\U{FEFF}"));
  }

  /**
   The browser decodes exactly the messages written, in order, if and only if every one has a
   nonempty name without CR or LF and data without CR; the reconnection time is then the preamble's.
   */
  lemma ResponseRoundTrip(retryMs: int, messages: seq<Event>)
    ensures Decode(Response(retryMs, messages)).events == messages <==> forall m | m in messages :: WireSafe(m)
    ensures (forall m | m in messages :: WireSafe(m)) ==>
              Decode(Response(retryMs, messages)).retry == if retryMs >= 0 then Some(retryMs) else None
  {
    hide Preamble, Run, Decode, Response;
    DecodeResponse(retryMs, messages);
    DecodedEventsAreSafe(Response(retryMs, messages));
    RunPreamble(retryMs);
    if forall m | m in messages :: WireSafe(m) {
      RunFrames(NOTHING.(retry := if retryMs >= 0 then Some(retryMs) else None), messages);
      assert [] + messages == messages;
    } else {
      var m :| m in messages && !WireSafe(m);
      assert !WireSafe(m);
    }
  }

  /** One frame alone: printer and parser are inverse on exactly the safe messages. */
  lemma FrameRoundTrip(name: string, data: string)
    ensures Run(START, Frame(name, data)).parsed.events == [Event(name, data)] <==> WireSafe(Event(name, data))
  {
    hide Frame, Run;
    RunClean(START, Frame(name, data));
    if WireSafe(Event(name, data)) {
      RunFrame(NOTHING, name, data);
      assert [] + [Event(name, data)] == [Event(name, data)];
    } else {
      assert Event(name, data) in [Event(name, data)] && !WireSafe(Event(name, data));
    }
  }

  /** A connection cut at any byte has delivered the events of a prefix, none of them partial. */
  lemma CutResponse(retryMs: int, messages: seq<Event>, n: nat)
    requires n <= |Response(retryMs, messages)|
    ensures Decode(Response(retryMs, messages)[..n]).events <= Decode(Response(retryMs, messages)).events
  {
    var stream := Response(retryMs, messages);
    assert stream[0] == 'r';
    assert stream == stream[..n] + stream[n..];
    RunConcat(START, stream[..n], stream[n..]);
    RunClean(START, stream[..n]);
    RunClean(Run(START, stream[..n]), stream[n..]);
  }
}

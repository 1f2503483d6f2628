/**
 Exactly which carriage returns in a message's data vanish without harm. A browser ends a line
 at a CR, so a CR in the middle of a line turns the rest of it into another field, and two CRs
 in a row dispatch the event early.
 */
module CarriageReturns {
  import opened Text
  import opened EventStream

  predicate OnlyCRs(s: string) {
    s == "" || (s[0] == CR && OnlyCRs(s[1..]))
  }

  /** Every CR is directly followed by LF, or by nothing but CRs. */
  predicate Settled(data: string) {
    data == "" || (Settled(data[1..])
                   && (data[0] == CR ==> (data[1..] != "" && data[1] == LF) || OnlyCRs(data[1..])))
  }

  /** The CRs of a line, if any, are all at its end. */
  predicate Trailing(l: string) {
    l == "" || (Trailing(l[1..]) && (l[0] == CR ==> OnlyCRs(l[1..])))
  }

  /** No CR but a last one: the line ends where its text does. */
  predicate EndsOnce(l: string) {
    l == "" || (EndsOnce(l[1..]) && (l[0] == CR ==> l[1..] == ""))
  }

  function StripCR(s: string): (t: string)
    ensures CR !in s ==> t == s
  {
    if |s| == 0 then s
    else if s[0] == CR then StripCR(s[1..])
    else [s[0]] + StripCR(s[1..])
  }

  // ---------- No text is gained ----------

  function EventText(events: seq<Event>): nat {
    if events == [] then 0
    else EventText(events[..|events| - 1]) + |events[|events| - 1].data| + 1
  }

  /** The data text that a parser holds, pending or dispatched, one line end for each event included. */
  function TextOf(p: Parsed): nat { |p.data| + EventText(p.events) }

  /** The pending data is empty or ends in LF. */
  predicate Lined(p: Parsed) { p.data == "" || p.data[|p.data| - 1] == LF }

  /** The events dispatched and the one that is pending. */
  function Count(p: Parsed): nat { |p.events| + if p.data == "" then 0 else 1 }

  predicate Sound(d: Decoder) { Lined(d.parsed) && (d.afterCR ==> d.line == "") }

  function Measure(d: Decoder): nat { |d.line| + TextOf(d.parsed) }

  lemma FieldGain(p: Parsed, field: string, value: string)
    requires Lined(p)
    ensures var q := ProcessField(p, field, value);
            && Lined(q) && Count(q) >= Count(p)
            && TextOf(q) <= TextOf(p) + (if field == "data" then |value| + 1 else 0)
  {
  }

  lemma DispatchGain(p: Parsed)
    requires Lined(p)
    ensures var q := Dispatch(p);
            Lined(q) && Count(q) == Count(p) && TextOf(q) == TextOf(p) && q.data == ""
  {
    if p.data != "" {
      var e := Dispatch(p).events[|p.events|];
      assert (p.events + [e])[..|p.events|] == p.events;
    }
  }

  /** A line never adds more text than it has characters; a nonempty one adds less. */
  lemma LineGain(p: Parsed, line: string)
    requires Lined(p)
    ensures var q := ProcessLine(p, line);
            && Lined(q) && Count(q) >= Count(p)
            && TextOf(q) <= TextOf(p) + |line|
            && (line != "" ==> TextOf(q) < TextOf(p) + |line|)
  {
    hide ProcessField, Dispatch, TextOf, Count, Lined;
    var colon := IndexOf(line, ':');
    if line == "" {
      DispatchGain(p);
    } else if colon == -1 {
      FieldGain(p, line, "");
    } else if colon > 0 {
      var value := line[colon + 1..];
      FieldGain(p, line[..colon], if value != "" && value[0] == ' ' then value[1..] else value);
    }
  }

  lemma FeedGain(d: Decoder, c: char)
    requires Sound(d)
    ensures var e := Feed(d, c);
            && Sound(e) && Count(e.parsed) >= Count(d.parsed)
            && Measure(e) <= Measure(d) + (if c == LF || c == CR then 0 else 1)
            && ((c == LF || c == CR) && d.line != "" ==> Measure(e) < Measure(d))
  {
    hide ProcessLine, TextOf, Count;
    LineGain(d.parsed, d.line);
  }

  lemma {:induction false} RunGain(d: Decoder, s: string)
    requires Sound(d) && LF !in s
    ensures var e := Run(d, s);
            && Sound(e) && Count(e.parsed) >= Count(d.parsed)
            && Measure(e) <= Measure(d) + |StripCR(s)|
    decreases |s|
  {
    hide Feed, Measure, Count, Sound;
    if s != "" {
      FeedGain(d, s[0]);
      RunGain(Feed(d, s[0]), s[1..]);
    }
  }

  /** Running to the end of the line. */
  lemma RunToEnd(d: Decoder, s: string)
    ensures Run(d, s + [LF]) == Feed(Run(d, s), LF)
  {
    RunConcat(d, s, [LF]);
    RunChar(Run(d, s), LF);
  }

  lemma EndGain(d: Decoder, s: string)
    requires Sound(d) && LF !in s
    ensures var e := Run(d, s + [LF]);
            && e == At(e.parsed) && Sound(e) && Count(e.parsed) >= Count(d.parsed)
            && Measure(e) <= Measure(d) + |StripCR(s)|
  {
    hide Measure, Count, ProcessLine;
    RunToEnd(d, s);
    RunGain(d, s);
    FeedGain(Run(d, s), LF);
  }

  /** Text that does not belong to a data line of its own is lost, at least in part. */
  lemma {:induction false} EndLoss(d: Decoder, s: string)
    requires Sound(d) && LF !in s && (d.line != "" || !OnlyCRs(s))
    ensures Measure(Run(d, s + [LF])) < Measure(d) + |StripCR(s)|
    decreases |s|
  {
    hide Measure, Count, ProcessLine;
    if s == "" {
      RunToEnd(d, s);
      FeedGain(d, LF);
    } else {
      var e, rest := Feed(d, s[0]), s[1..];
      FeedGain(d, s[0]);
      assert (s + [LF])[1..] == rest + [LF];
      if s[0] == CR && d.line != "" {
        EndGain(e, rest);
      } else {
        assert s == [s[0]] + rest;
        EndLoss(e, rest);
      }
    }
  }

  // ---------- One data line ----------

  lemma {:induction false} RunCRs(p: Parsed, afterCR: bool, s: string)
    requires OnlyCRs(s) && p.data == "" && p.eventType == "" && (s == "" ==> afterCR)
    ensures Run(Decoder("", afterCR, p), s + [LF]) == At(p)
    decreases |s|
  {
    if s == "" {
      RunChar(Decoder("", afterCR, p), LF);
      assert s + [LF] == [LF];
    } else {
      assert (s + [LF])[1..] == s[1..] + [LF];
      RunCRs(p, true, s[1..]);
    }
  }

  lemma RunToCR(p: Parsed, text: string, rest: string)
    requires NoLineEnd(text)
    ensures Run(At(p), text + ([CR] + rest)) == Run(Decoder("", true, ProcessLine(p, text)), rest)
  {
    hide ProcessLine, NoLineEnd;
    RunConcat(At(p), text, [CR] + rest);
    RunText(At(p), text);
    assert "" + text == text;
    assert ([CR] + rest)[1..] == rest;
  }

  /** The data line of l after its field name and up to its first CR. */
  lemma DataLineStart(p: Parsed, l: string)
    requires LF !in l && CR in l
    ensures var i := IndexOf(l, CR);
            && i >= 0
            && Run(At(p), "data: " + l + "\n")
            == Run(Decoder("", true, p.(data := p.data + l[..i] + "\n")), l[i + 1..] + [LF])
  {
    hide ProcessLine, Run, IndexOf;
    var i := IndexOf(l, CR);
    assert NoLineEnd(l[..i]);
    DataField(p, l[..i]);
    hide *;
    RunToCR(p, "data: " + l[..i], l[i + 1..] + [LF]);
    CutAt(l, i);
    Regroup("data: ", l[..i], CR, l[i + 1..], [LF]);
  }

  lemma Regroup(head: string, a: string, c: char, b: string, end: string)
    ensures head + (a + ([c] + b)) + end == head + a + ([c] + (b + end))
  {
  }

  lemma {:induction false} AllCRStripped(s: string)
    requires OnlyCRs(s)
    ensures StripCR(s) == ""
  {
    if s != "" { AllCRStripped(s[1..]); }
  }

  lemma StripCons(c: char, l: string)
    ensures StripCR([c] + l) == if c == CR then StripCR(l) else [c] + StripCR(l)
  {
    assert ([c] + l)[1..] == l;
  }

  lemma {:induction false} StripAt(a: string, b: string)
    ensures StripCR(a + b) == StripCR(a) + StripCR(b)
    decreases |a|
  {
    hide StripCR;
    if |a| == 0 {
      assert a + b == b && StripCR(a) + StripCR(b) == StripCR(b);
    } else {
      StripAt(a[1..], b);
      assert a == [a[0]] + a[1..];
      ConcatAssoc([a[0]], a[1..], b);
      StripCons(a[0], a[1..] + b);
      StripCons(a[0], a[1..]);
      ConcatAssoc([a[0]], StripCR(a[1..]), StripCR(b));
    }
  }

  lemma NothingToStrip(s: string)
    requires CR !in s
    ensures StripCR(s) == s
  {
  }

  lemma StrippedAtCR(l: string, i: nat)
    requires i < |l| && l[i] == CR && CR !in l[..i]
    ensures StripCR(l) == l[..i] + StripCR(l[i + 1..])
  {
    NothingToStrip(l[..i]);
    hide *;
    CutAt(l, i);
    StripAt(l[..i], [CR] + l[i + 1..]);
    StripCons(CR, l[i + 1..]);
  }

  /** What one data line does to a parser at the start of a line. */
  ghost predicate LineEffect(p: Parsed, l: string, q: Parsed) {
    && Lined(q) && Count(q) >= Count(p) && (p.data == "" ==> Count(q) > Count(p))
    && TextOf(q) <= TextOf(p) + |StripCR(l)| + 1
    && (TextOf(q) == TextOf(p) + |StripCR(l)| + 1 ==> Trailing(l))
    && (Trailing(l) && EndsOnce(l) ==> q.events == p.events)
    && (Trailing(l) && !EndsOnce(l) ==> q.data == "" && |q.events| > |p.events|)
  }

  lemma {:induction false} NoCRTrailing(l: string)
    requires CR !in l
    ensures Trailing(l) && EndsOnce(l)
  {
    if l != "" { NoCRTrailing(l[1..]); }
  }

  lemma WholeLine(p: Parsed, l: string)
    requires Lined(p) && LF !in l && CR !in l
    ensures LineEffect(p, l, p.(data := p.data + l + "\n"))
  {
    NoCRTrailing(l);
  }

  lemma {:induction false} TrailingAt(l: string, i: nat)
    requires i < |l| && l[i] == CR && CR !in l[..i]
    ensures Trailing(l) <==> OnlyCRs(l[i + 1..])
    ensures EndsOnce(l) <==> l[i + 1..] == ""
  {
    if i == 0 {
      if OnlyCRs(l[1..]) { OnlyCRsTrailing(l[1..]); }
    } else {
      assert l[..i][0] == l[0];
      assert l[1..][..i - 1] == l[..i][1..] && l[1..][i..] == l[i + 1..];
      TrailingAt(l[1..], i - 1);
    }
  }

  lemma {:induction false} OnlyCRsTrailing(s: string)
    requires OnlyCRs(s)
    ensures Trailing(s)
  {
    if s != "" { OnlyCRsTrailing(s[1..]); }
  }

  lemma EndAfterCR(p: Parsed)
    ensures Run(Decoder("", true, p), "" + [LF]) == At(p)
  {
    RunChar(Decoder("", true, p), LF);
    assert "" + [LF] == [LF];
  }

  /** The second of two CRs dispatches what is pending. */
  lemma EarlyDispatch(p: Parsed, s: string)
    requires OnlyCRs(s) && s != "" && Lined(p)
    ensures Run(Decoder("", true, p), s + [LF]) == At(Dispatch(p))
    ensures p.data != "" ==> Dispatch(p).data == "" && |Dispatch(p).events| > |p.events|
  {
    assert (s + [LF])[1..] == s[1..] + [LF];
    RunCRs(Dispatch(p), true, s[1..]);
  }

  /** What the rest of a line after its first CR does, when data are pending. */
  lemma RestOfLine(p: Parsed, rest: string)
    requires Lined(p) && p.data != "" && LF !in rest
    ensures var e := Run(Decoder("", true, p), rest + [LF]);
            && e == At(e.parsed) && Lined(e.parsed) && Count(e.parsed) >= Count(p)
            && TextOf(e.parsed) <= TextOf(p) + |StripCR(rest)|
            && (TextOf(e.parsed) == TextOf(p) + |StripCR(rest)| ==> OnlyCRs(rest))
            && (OnlyCRs(rest) && rest == "" ==> e.parsed == p)
            && (OnlyCRs(rest) && rest != "" ==> e.parsed.data == "" && |e.parsed.events| > |p.events|)
  {
    hide ProcessLine, Feed, OnlyCRs, Run, StripCR, TextOf, Dispatch, Count, Lined;
    var d := Decoder("", true, p);
    EndGain(d, rest);
    if !OnlyCRs(rest) {
      EndLoss(d, rest);
    } else if rest != "" {
      EarlyDispatch(p, rest);
    } else {
      EndAfterCR(p);
    }
  }

  lemma BrokenLine(p: Parsed, l: string)
    requires Lined(p) && LF !in l && CR in l
    ensures var e := Run(At(p), "data: " + l + "\n"); e == At(e.parsed) && LineEffect(p, l, e.parsed)
  {
    hide Run, IndexOf, Trailing, EndsOnce, OnlyCRs, StripCR, EventText;
    var i := IndexOf(l, CR);
    var q, rest := p.(data := p.data + l[..i] + "\n"), l[i + 1..];
    DataLineStart(p, l);
    TrailingAt(l, i);
    StrippedAtCR(l, i);
    RestOfLine(q, rest);
  }

  lemma DataLine(p: Parsed, l: string)
    requires Lined(p) && LF !in l
    ensures var e := Run(At(p), "data: " + l + "\n"); e == At(e.parsed) && LineEffect(p, l, e.parsed)
  {
    hide LineEffect, Run;
    if CR in l {
      BrokenLine(p, l);
    } else {
      RunDataLine(p, l);
      WholeLine(p, l);
    }
  }

  // ---------- All data lines ----------

  function Stripped(lines: seq<string>): (r: seq<string>)
    ensures |r| == |lines|
  {
    seq(|lines|, i requires 0 <= i < |lines| => StripCR(lines[i]))
  }

  /** Splitting into lines and dropping CRs can be done in either order. */
  lemma {:induction false} SplitStripped(data: string)
    ensures Split(StripCR(data), LF) == Stripped(Split(data, LF))
  {
    if data != "" {
      var c, rest := data[0], Split(data[1..], LF);
      SplitStripped(data[1..]);
      if c == LF {
        assert StripCR(data)[1..] == StripCR(data[1..]);
        StrippedCons("", rest);
      } else {
        StripCons(c, rest[0]);
        StrippedCons(rest[0], rest[1..]);
        StrippedCons([c] + rest[0], rest[1..]);
        assert rest == [rest[0]] + rest[1..];
        assert c != CR ==> StripCR(data)[1..] == StripCR(data[1..]);
      }
    }
  }

  lemma StrippedCons(l: string, lines: seq<string>)
    ensures Stripped([l] + lines) == [StripCR(l)] + Stripped(lines)
  {
    hide StripCR;
  }

  lemma StrippedText(data: string)
    ensures LineText(Stripped(Split(data, LF))) == StripCR(data) + "\n"
  {
    SplitStripped(data);
    TextOfSplit(StripCR(data));
  }

  lemma StrippedHead(lines: seq<string>)
    requires lines != []
    ensures LineText(Stripped(lines)) == StripCR(lines[0]) + "\n" + LineText(Stripped(lines[1..]))
  {
    assert Stripped(lines)[1..] == Stripped(lines[1..]);
  }

  /** Every line has its CRs at the end, and all but the last at most one. */
  ghost predicate SettledLines(lines: seq<string>) {
    forall i | 0 <= i < |lines| :: Trailing(lines[i]) && (i + 1 < |lines| ==> EndsOnce(lines[i]))
  }

  /** Data lines that lose no text and dispatch no event early are settled. */
  lemma {:induction false} AllDataLines(p: Parsed, lines: seq<string>)
    requires Lined(p) && forall l | l in lines :: LF !in l
    ensures var e := Run(At(p), DataLines(lines));
            && e == At(e.parsed) && Lined(e.parsed) && Count(e.parsed) >= Count(p)
            && (lines != [] && p.data == "" ==> Count(e.parsed) > Count(p))
            && TextOf(e.parsed) <= TextOf(p) + |LineText(Stripped(lines))|
            && ((TextOf(e.parsed) == TextOf(p) + |LineText(Stripped(lines))| && Count(e.parsed) <= |p.events| + 1)
                ==> SettledLines(lines))
    decreases |lines|
  {
    hide TextOf, EndsOnce, Trailing;
    if lines != [] {
      var l, rest := lines[0], lines[1..];
      var line := "data: " + l + "\n";
      DataLine(p, l);
      StrippedHead(lines);
      var q := Run(At(p), line).parsed;
      RunConcat(At(p), line, DataLines(rest));
      AllDataLines(q, rest);
      var e := Run(At(p), DataLines(lines));
      if TextOf(e.parsed) == TextOf(p) + |LineText(Stripped(lines))| && Count(e.parsed) <= |p.events| + 1 {
        assert Trailing(l) && SettledLines(rest);
        assert rest != [] ==> EndsOnce(l);
        assert lines == [l] + rest;
      }
    }
  }

  // ---------- Settled data, line by line ----------

  lemma {:induction false} FirstLine(data: string)
    ensures Split(data, LF)[0] == "" <==> data == "" || data[0] == LF
    ensures |Split(data, LF)| == 1 ==> Split(data, LF) == [data]
    ensures |Split(data, LF)| > 1 ==> LF in data
  {
    if data != "" {
      FirstLine(data[1..]);
      assert [data[0]] + data[1..] == data;
    }
  }

  lemma OnlyCRsHasNoLF(s: string)
    requires OnlyCRs(s)
    ensures LF !in s
  {
  }

  lemma ConsLines(c: char, lines: seq<string>)
    requires lines != []
    ensures SettledLines([[c] + lines[0]] + lines[1..])
       <==> SettledLines(lines)
            && (c == CR ==> OnlyCRs(lines[0]) && (|lines| > 1 ==> lines[0] == ""))
  {
    hide OnlyCRs;
    var more := [[c] + lines[0]] + lines[1..];
    assert ([c] + lines[0])[1..] == lines[0];
    assert forall i | 0 < i < |lines| :: more[i] == lines[i];
    assert Trailing(more[0]) <==> Trailing(lines[0]) && (c == CR ==> OnlyCRs(lines[0]));
    assert EndsOnce(more[0]) <==> EndsOnce(lines[0]) && (c == CR ==> lines[0] == "");
  }

  lemma EmptyFirstLine(lines: seq<string>)
    ensures SettledLines([""] + lines) <==> SettledLines(lines)
  {
    var more := [""] + lines;
    assert forall i | 0 <= i < |lines| :: more[i + 1] == lines[i];
    assert forall i | 0 < i < |more| :: more[i] == lines[i - 1];
  }

  lemma {:induction false} SettledByLine(data: string)
    ensures Settled(data) <==> SettledLines(Split(data, LF))
  {
    if data != "" {
      var rest := Split(data[1..], LF);
      SettledByLine(data[1..]);
      if data[0] == LF {
        EmptyFirstLine(rest);
      } else {
        ConsLines(data[0], rest);
        FirstLine(data[1..]);
        if OnlyCRs(data[1..]) { OnlyCRsHasNoLF(data[1..]); }
      }
    }
  }

  // ---------- Settled data arrive ----------

  /** A line with its CRs at the end: one CR is part of the line end, a second dispatches the event. */
  lemma TrailingLine(p: Parsed, l: string)
    requires Trailing(l) && LF !in l
    ensures var q := p.(data := p.data + StripCR(l) + "\n");
            Run(At(p), "data: " + l + "\n") == At(if EndsOnce(l) then q else Dispatch(q))
  {
    hide Run, Dispatch, Trailing, EndsOnce, StripCR;
    if CR in l {
      TrailingCRs(p, l, IndexOf(l, CR));
    } else {
      NoCRTrailing(l);
      RunDataLine(p, l);
    }
  }

  lemma TrailingCRs(p: Parsed, l: string, i: nat)
    requires Trailing(l) && LF !in l && CR in l && i == IndexOf(l, CR)
    ensures var q := p.(data := p.data + StripCR(l) + "\n");
            Run(At(p), "data: " + l + "\n") == At(if EndsOnce(l) then q else Dispatch(q))
  {
    hide Run, Dispatch, Trailing, EndsOnce, OnlyCRs, StripCR, IndexOf;
    var rest := l[i + 1..];
    var q := p.(data := p.data + l[..i] + "\n");
    DataLineStart(p, l);
    TrailingAt(l, i);
    AllCRStripped(rest);
    StrippedAtCR(l, i);
    assert l[..i] + "" == l[..i];
    if rest == "" {
      EndAfterCR(q);
    } else {
      EarlyDispatch(q, rest);
    }
  }

  lemma RunBlankLine(p: Parsed)
    ensures Run(At(p), "\n") == At(Dispatch(p))
  {
    RunLine(p, "");
    assert "" + [LF] == "\n";
  }

  lemma {:induction false} RunSettled(p: Parsed, lines: seq<string>)
    requires lines != [] && SettledLines(lines) && forall l | l in lines :: LF !in l
    ensures Run(At(p), DataLines(lines) + "\n")
         == At(Dispatch(p.(data := p.data + LineText(Stripped(lines)))))
    decreases |lines|
  {
    hide Run, EndsOnce, Trailing, StripCR, Dispatch, Stripped, LineText, At;
    var l, rest := lines[0], lines[1..];
    var line := "data: " + l + "\n";
    var q := p.(data := p.data + StripCR(l) + "\n");
    TrailingLine(p, l);
    RunConcat(At(p), line, DataLines(rest) + "\n");
    ConcatAssoc(line, DataLines(rest), "\n");
    StrippedHead(lines);
    ConcatAssoc(p.data, StripCR(l), "\n");
    ConcatAssoc(p.data, StripCR(l) + "\n", LineText(Stripped(rest)));
    if rest == [] {
      NoLinesLeft(q);
      assert q.data + LineText(Stripped([])) == q.data;
    } else {
      RunSettled(q, rest);
    }
  }

  /** The blank line after the last data line; it does nothing when the event has been dispatched early. */
  lemma NoLinesLeft(q: Parsed)
    ensures LineText(Stripped([])) == ""
    ensures Run(At(q), DataLines([]) + "\n") == At(Dispatch(q))
    ensures Run(At(Dispatch(q)), DataLines([]) + "\n") == At(Dispatch(q))
  {
    assert DataLines([]) + "\n" == "\n";
    RunBlankLine(q);
    RunBlankLine(Dispatch(q));
  }

  // ---------- One frame ----------

  lemma PieceHasNoLF(data: string)
    ensures forall l | l in Split(data, LF) :: LF !in l
  {
    var lines := Split(data, LF);
    forall l | l in lines ensures LF !in l {
      var i :| 0 <= i < |lines| && lines[i] == l;
      SplitPiece(data, LF, i);
    }
  }

  /** A frame of settled data, for a parser between two events. */
  lemma RunSettledFrame(p: Parsed, name: string, data: string)
    requires Idle(p) && ProperName(name) && Settled(data)
    ensures Run(At(p), Frame(name, data)) == At(p.(events := p.events + [Event(name, StripCR(data))]))
  {
    hide Run, Frame, StripCR, Settled, SettledLines, DataLines, LineText, Stripped;
    var lines, named := Split(data, LF), p.(eventType := name);
    FrameLines(p, name, data);
    RunConcat(At(named), DataLines(lines), "\n");
    SettledByLine(data);
    PieceHasNoLF(data);
    RunSettled(named, lines);
    StrippedText(data);
    var text := StripCR(data);
    assert named.data + (text + "\n") == text + "\n" && (text + "\n")[..|text|] == text;
  }

  /** Any frame with a proper name yields at least one event, and no more text than its data without the CRs. */
  lemma FrameGain(p: Parsed, name: string, data: string)
    requires Idle(p) && ProperName(name)
    ensures var e := Run(At(p), Frame(name, data));
            && e == At(e.parsed) && Idle(e.parsed)
            && TextOf(e.parsed) <= TextOf(p) + |StripCR(data)| + 1 && |e.parsed.events| >= |p.events| + 1
            && ((TextOf(e.parsed) == TextOf(p) + |StripCR(data)| + 1 && |e.parsed.events| == |p.events| + 1)
                ==> Settled(data))
  {
    hide Run, Frame, StripCR, Settled, SettledLines, DataLines, LineText, Stripped, EventText;
    var lines, named := Split(data, LF), p.(eventType := name);
    FrameLines(p, name, data);
    PieceHasNoLF(data);
    AllDataLines(named, lines);
    var e := Run(At(named), DataLines(lines)).parsed;
    RunBlankLine(e);
    DispatchGain(e);
    StrippedText(data);
    SettledByLine(data);
  }

  // ---------- Streams ----------

  /** A message that arrives as one event with its name, its data merely without the CRs. */
  predicate Arrives(m: Event) { ProperName(m.name) && Settled(m.data) }

  /** The messages without their CRs. */
  function Cleaned(messages: seq<Event>): (r: seq<Event>)
    ensures |r| == |messages|
  {
    seq(|messages|, i requires 0 <= i < |messages| => Event(messages[i].name, StripCR(messages[i].data)))
  }

  lemma CleanedSnoc(messages: seq<Event>)
    requires messages != []
    ensures var init, last := messages[..|messages| - 1], messages[|messages| - 1];
            && Cleaned(messages) == Cleaned(init) + [Event(last.name, StripCR(last.data))]
            && EventText(Cleaned(messages)) == EventText(Cleaned(init)) + |StripCR(last.data)| + 1
  {
    hide StripCR;
    var init, last := messages[..|messages| - 1], messages[|messages| - 1];
    assert Cleaned(messages) == Cleaned(init) + [Event(last.name, StripCR(last.data))];
    assert Cleaned(messages)[..|init|] == Cleaned(init);
  }

  lemma {:induction false} RunSettledFrames(p: Parsed, messages: seq<Event>)
    requires Idle(p) && forall m | m in messages :: Arrives(m)
    ensures Run(At(p), Frames(messages)) == At(p.(events := p.events + Cleaned(messages)))
  {
    hide Frame, StripCR, Settled, ProperName, Run;
    if messages == [] {
      assert p.events + Cleaned(messages) == p.events;
      NoFrames(p);
    } else {
      var init, last := messages[..|messages| - 1], messages[|messages| - 1];
      assert last in messages;
      RunSettledFrames(p, init);
      RunConcat(At(p), Frames(init), Frame(last.name, last.data));
      RunSettledFrame(p.(events := p.events + Cleaned(init)), last.name, last.data);
      CleanedSnoc(messages);
    }
  }

  lemma NoFrames(p: Parsed)
    ensures Run(At(p), Frames([])) == At(p)
  {
  }

  lemma {:induction false} FramesGain(p: Parsed, messages: seq<Event>)
    requires Idle(p) && forall m | m in messages :: ProperName(m.name)
    ensures var e := Run(At(p), Frames(messages));
            && e == At(e.parsed) && Idle(e.parsed)
            && TextOf(e.parsed) <= TextOf(p) + EventText(Cleaned(messages))
            && |e.parsed.events| >= |p.events| + |messages|
            && ((TextOf(e.parsed) == TextOf(p) + EventText(Cleaned(messages))
                 && |e.parsed.events| == |p.events| + |messages|)
                ==> forall m | m in messages :: Settled(m.data))
  {
    hide Frame, StripCR, Settled, ProperName, Run, TextOf;
    if messages == [] {
      NoFrames(p);
      NoEventText();
    } else {
      var init, last := messages[..|messages| - 1], messages[|messages| - 1];
      assert last in messages;
      FramesGain(p, init);
      RunConcat(At(p), Frames(init), Frame(last.name, last.data));
      FrameGain(Run(At(p), Frames(init)).parsed, last.name, last.data);
      CleanedSnoc(messages);
      assert messages == init + [last];
    }
  }

  lemma NoEventText()
    ensures Cleaned([]) == [] && EventText([]) == 0
  {
  }

  // ---------- Main result ----------

  /**
   A browser decodes a response to its messages without their CRs, each as one event and in
   order, if and only if all names are nonempty and without line ends, and every CR in the data
   is directly followed by LF, or by nothing but CRs. The reconnection time is then the preamble's.
   */
  lemma ResponseCleanedIff(retryMs: int, messages: seq<Event>)
    ensures Decode(Response(retryMs, messages)).events == Cleaned(messages) <==> forall m | m in messages :: Arrives(m)
    ensures (forall m | m in messages :: Arrives(m)) ==>
              Decode(Response(retryMs, messages)).retry == if retryMs >= 0 then Some(retryMs) else None
  {
    hide Preamble, Run, Decode, Response, Settled, ProperName, Cleaned, Frames, EventText;
    var p := NOTHING.(retry := if retryMs >= 0 then Some(retryMs) else None);
    DecodeResponse(retryMs, messages);
    RunPreamble(retryMs);
    NoEventText();
    if Decode(Response(retryMs, messages)).events == Cleaned(messages) {
      DecodedEventsAreSafe(Response(retryMs, messages));
      NamesOfCleaned(messages);
      FramesGain(p, messages);
    }
    if forall m | m in messages :: Arrives(m) {
      RunSettledFrames(p, messages);
      assert [] + Cleaned(messages) == Cleaned(messages);
    }
  }

  lemma NamesOfCleaned(messages: seq<Event>)
    requires forall e | e in Cleaned(messages) :: WireSafe(e)
    ensures forall m | m in messages :: ProperName(m.name)
  {
    hide StripCR, ProperName;
    forall i | 0 <= i < |messages| ensures ProperName(messages[i].name) {
      assert Cleaned(messages)[i] in Cleaned(messages);
    }
  }

  /** Data without CR is settled, and cleaning leaves it alone. */
  lemma {:induction false} NoCRSettled(data: string)
    requires CR !in data
    ensures Settled(data) && StripCR(data) == data
  {
    if data != "" { NoCRSettled(data[1..]); }
  }

  /** One frame alone. */
  lemma CarriageReturnsDroppedIff(name: string, data: string)
    requires ProperName(name)
    ensures Run(START, Frame(name, data)).parsed.events == [Event(name, StripCR(data))] <==> Settled(data)
  {
    hide Run, Frame, Settled, ProperName, StripCR, EventText;
    var e := Event(name, StripCR(data));
    FrameGain(NOTHING, name, data);
    OneEventText(e);
    NoEventText();
    if Settled(data) {
      RunSettledFrame(NOTHING, name, data);
      assert [] + [e] == [e];
    }
  }

  lemma OneEventText(e: Event)
    ensures EventText([e]) == |e.data| + 1
  {
    assert [e][..0] == [];
  }
}

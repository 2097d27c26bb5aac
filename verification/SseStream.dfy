/** Server-sent events from the two streaming routes to the browser: the frame printer, the
    incremental parser of `useSseStream`, and what the page shows. */
module SseStream {
  import opened Wrappers
  import opened Text
  import opened Lines

  // ── Server ──

  /** `msg.replace("\n", "\ndata: ")` */
  function SafeMessage(msg: string): string {
    if msg == "" then ""
    else (if msg[0] == LF then "\ndata: " else [msg[0]]) + SafeMessage(msg[1..])
  }

  /** One event: its header lines (id, retry) and its message. */
  datatype Event = Event(header: seq<string>, message: string)

  function HeaderText(header: seq<string>): string {
    if header == [] then "" else header[0] + "\n" + HeaderText(header[1..])
  }

  function Frame(e: Event): string {
    HeaderText(e.header) + "data: " + SafeMessage(e.message) + "\n\n"
  }

  function Stream(events: seq<Event>): string {
    if events == [] then "" else Frame(events[0]) + Stream(events[1..])
  }

  /** What the worker's queue yields: a log message, or nothing for 30 seconds. */
  datatype Polled = Message(text: string) | Timeout

  /** The events of a run; the approval route numbers its messages and repeats the retry line. */
  function Events(polls: seq<Polled>, numbered: bool): seq<Event> {
    if polls == [] then []
    else
      var front := polls[..|polls| - 1];
      Events(front, numbered) + match polls[|polls| - 1] {
        case Message(text) =>
          [Event(if numbered then ["id: " + Decimal(CountMessages(front) + 1), "retry: 3000"] else [], text)]
        case Timeout =>
          [Event(if numbered then ["retry: 3000"] else [], ".")]
      }
  }

  function CountMessages(polls: seq<Polled>): nat {
    if polls == [] then 0
    else CountMessages(polls[..|polls| - 1]) + if polls[|polls| - 1].Message? then 1 else 0
  }

  /** One event for each thing the queue yields: the message itself, or a dot after 30 silent seconds.
      On the numbered route a message carries its number among the messages so far, and every event
      the retry line. */
  lemma {:induction false} EventsAre(polls: seq<Polled>, numbered: bool, i: nat)
    requires i < |polls|
    ensures |Events(polls, numbered)| == |polls|
    ensures var e := Events(polls, numbered)[i];
            && e.message == (if polls[i].Message? then polls[i].text else ".")
            && e.header == (if !numbered then []
                            else if polls[i].Message? then
                              ["id: " + Decimal(CountMessages(polls[..i + 1])), "retry: 3000"]
                            else ["retry: 3000"])
  {
    hide Decimal;
    var n := |polls| - 1;
    if i < n {
      EventsAre(polls[..n], numbered, i);
      assert polls[..n][..i + 1] == polls[..i + 1];
    } else {
      if n > 0 {
        EventsAre(polls[..n], numbered, 0);
      }
      assert polls[..i + 1] == polls;
    }
  }

  lemma {:induction false} CountsMessages(polls: seq<Polled>)
    ensures CountMessages(polls) == |set j | 0 <= j < |polls| && polls[j].Message?|
  {
    if polls != [] {
      var n := |polls| - 1;
      CountsMessages(polls[..n]);
      var before := set j | 0 <= j < n && polls[..n][j].Message?;
      var now := set j | 0 <= j < |polls| && polls[j].Message?;
      assert now == before + if polls[n].Message? then {n} else {};
    }
  }

  lemma {:induction false} StreamAppend(events: seq<Event>, e: Event)
    ensures Stream(events + [e]) == Stream(events) + Frame(e)
  {
    if events == [] {
      assert [e][1..] == [];
      assert events + [e] == [e];
    } else {
      StreamAppend(events[1..], e);
      assert (events + [e])[1..] == events[1..] + [e];
    }
  }

  lemma PlainFrame(text: string)
    ensures Frame(Event([], text)) == "data: " + SafeMessage(text) + "\n\n"
  {
    hide SafeMessage;
    assert HeaderText([]) + "data: " == "data: ";
  }

  lemma RetryFrame(text: string)
    ensures Frame(Event(["retry: 3000"], text)) == "retry: 3000\ndata: " + SafeMessage(text) + "\n\n"
  {
    hide SafeMessage;
    assert ["retry: 3000"][1..] == [];
    assert HeaderText(["retry: 3000"]) == "retry: 3000" + "\n" + "";
    assert "retry: 3000" + "\n" + "" + "data: " == "retry: 3000\ndata: ";
  }

  lemma NumberedFrame(id: string, text: string)
    ensures Frame(Event([id, "retry: 3000"], text)) == id + "\nretry: 3000\ndata: " + SafeMessage(text) + "\n\n"
  {
    RetryFrame(text);
    assert [id, "retry: 3000"][1..] == ["retry: 3000"];
    var retry := HeaderText(["retry: 3000"]);
    assert HeaderText([id, "retry: 3000"]) == id + "\n" + retry;
    RetryLine();
    hide *;
    assert id + "\n" + retry + "data: " == id + ("\n" + retry + "data: ");
  }

  lemma RetryLine()
    ensures "\n" + HeaderText(["retry: 3000"]) + "data: " == "\nretry: 3000\ndata: "
  {
    assert ["retry: 3000"][1..] == [];
    assert HeaderText(["retry: 3000"]) == "retry: 3000" + "\n" + "";
  }

  lemma DotIsSafe()
    ensures SafeMessage(".") == "."
  {
    assert "."[1..] == "";
  }

  /** The generator loop of execute_approval_stream up to the end of the queue. */
  method NumberedStream(polls: seq<Polled>) returns (out: string)
    ensures out == Stream(Events(polls, true))
  {
    out := "";
    var msgId := 0;
    for i := 0 to |polls|
      invariant out == Stream(Events(polls[..i], true)) && msgId == CountMessages(polls[..i])
    {
      hide Frame, Stream;
      assert polls[..i + 1][..i] == polls[..i];
      match polls[i]
      case Message(text) =>
        msgId := msgId + 1;
        var id := "id: " + Decimal(msgId);
        NumberedFrame(id, text);
        StreamAppend(Events(polls[..i], true), Event([id, "retry: 3000"], text));
        out := out + (id + "\nretry: 3000\ndata: " + SafeMessage(text) + "\n\n");
      case Timeout =>
        RetryFrame(".");
        DotIsSafe();
        StreamAppend(Events(polls[..i], true), Event(["retry: 3000"], "."));
        out := out + ("retry: 3000\ndata: " + "." + "\n\n");
    }
    assert polls[..|polls|] == polls;
  }

  /** The generator loop of deploy_stream: no header lines. */
  method PlainStream(polls: seq<Polled>) returns (out: string)
    ensures out == Stream(Events(polls, false))
  {
    out := "";
    for i := 0 to |polls|
      invariant out == Stream(Events(polls[..i], false))
    {
      hide Frame, Stream;
      assert polls[..i + 1][..i] == polls[..i];
      match polls[i]
      case Message(text) =>
        PlainFrame(text);
        StreamAppend(Events(polls[..i], false), Event([], text));
        out := out + ("data: " + SafeMessage(text) + "\n\n");
      case Timeout =>
        PlainFrame(".");
        DotIsSafe();
        StreamAppend(Events(polls[..i], false), Event([], "."));
        out := out + ("data: " + "." + "\n\n");
    }
    assert polls[..|polls|] == polls;
  }

  // ── Browser: blocks ──

  predicate IsBlank(s: string, i: nat) {
    i + 1 < |s| && s[i] == LF && s[i + 1] == LF
  }

  /** `buffer.indexOf('\n\n')` */
  function FindBlank(s: string): (r: Option<nat>)
    ensures r.Some? ==> IsBlank(s, r.value) && forall i: nat :: i < r.value ==> !IsBlank(s, i)
    ensures r.None? ==> forall i: nat :: !IsBlank(s, i)
  {
    if |s| < 2 then None
    else if s[0] == LF && s[1] == LF then Some(0)
    else
      var r := FindBlank(s[1..]);
      assert forall i: nat :: i > 0 ==> (IsBlank(s, i) <==> IsBlank(s[1..], i - 1));
      if r.Some? then Some(r.value + 1) else None
  }

  /** The complete blocks of a text, and what is left in the buffer. */
  function Blocks(s: string): (seq<string>, string)
    decreases |s|
  {
    var at := FindBlank(s);
    if at.None? then ([], s)
    else
      var (blocks, rest) := Blocks(s[at.value + 2..]);
      ([s[..at.value]] + blocks, rest)
  }

  /** The blocks seen when the text arrives in these chunks. */
  function Feed(buffer: string, chunks: seq<string>): (seq<string>, string)
    decreases |chunks|
  {
    if chunks == [] then ([], buffer)
    else
      var (blocks, rest) := Blocks(buffer + chunks[0]);
      var (later, last) := Feed(rest, chunks[1..]);
      (blocks + later, last)
  }

  function Flatten(chunks: seq<string>): string {
    if chunks == [] then "" else chunks[0] + Flatten(chunks[1..])
  }

  lemma FindBlankIs(s: string, at: nat)
    requires IsBlank(s, at) && forall i: nat :: i < at ==> !IsBlank(s, i)
    ensures FindBlank(s) == Some(at)
  {
  }

  lemma FirstBlockCut(s: string, at: nat)
    requires FindBlank(s) == Some(at)
    ensures var (blocks, rest) := Blocks(s[at + 2..]); Blocks(s) == ([s[..at]] + blocks, rest)
  {
    hide FindBlank;
  }

  lemma SlicesOfConcat(a: string, b: string, at: nat)
    requires at + 2 <= |a|
    ensures (a + b)[..at] == a[..at] && (a + b)[at + 2..] == a[at + 2..] + b
    ensures forall i: nat :: i <= at ==> (IsBlank(a + b, i) <==> IsBlank(a, i))
  {
  }

  /** Blocks already complete do not depend on what follows. */
  lemma {:induction false} BlocksOfConcat(a: string, b: string)
    ensures var (blocks, rest) := Blocks(a);
            Blocks(a + b) == (blocks + Blocks(rest + b).0, Blocks(rest + b).1)
    decreases |a|
  {
    var at := FindBlank(a);
    if at.Some? {
      SlicesOfConcat(a, b, at.value);
      FindBlankIs(a + b, at.value);
      var tail := a[at.value + 2..];
      BlocksOfConcat(tail, b);
      FirstBlockCut(a, at.value);
      FirstBlockCut(a + b, at.value);
      hide Blocks, FindBlank;
      var (blocks, rest) := Blocks(tail);
      ConcatIsAssociative([a[..at.value]], blocks, Blocks(rest + b).0);
    } else {
      NoBlockYet(a);
      hide Blocks, FindBlank;
      ConcatWithNothing(Blocks(a + b).0);
    }
  }

  lemma NoBlockYet(s: string)
    requires FindBlank(s).None?
    ensures Blocks(s) == ([], s)
  {
  }

  lemma ConcatWithNothing(a: seq<string>)
    ensures [] + a == a
  {
  }

  lemma ConcatIsAssociative(a: seq<string>, b: seq<string>, c: seq<string>)
    ensures a + (b + c) == (a + b) + c
  {
  }

  lemma SnocOfPrefix(a: seq<string>, i: nat)
    requires i < |a|
    ensures a[..i + 1] == a[..i] + [a[i]]
  {
  }

  lemma FirstOfConcat(a: seq<string>, b: seq<string>)
    requires a != []
    ensures a + b == [a[0]] + (a[1..] + b) && a == [a[0]] + a[1..]
    ensures |a| > 1 ==> (a[1..] + b)[0] == a[1..][0]
  {
  }

  lemma {:induction false} RestHasNoBlock(s: string)
    ensures FindBlank(Blocks(s).1).None?
    decreases |s|
  {
    var at := FindBlank(s);
    hide FindBlank;
    if at.Some? {
      RestHasNoBlock(s[at.value + 2..]);
      assert Blocks(s).1 == Blocks(s[at.value + 2..]).1;
    } else {
      assert Blocks(s).1 == s;
    }
  }

  /** The chunk boundaries are invisible, whatever the text. */
  lemma {:induction false} ChunkingIsInvisible(buffer: string, chunks: seq<string>)
    requires FindBlank(buffer).None?
    ensures Feed(buffer, chunks) == Blocks(buffer + Flatten(chunks))
    decreases |chunks|
  {
    if chunks == [] {
      assert buffer + "" == buffer;
      assert Blocks(buffer) == ([], buffer);
    } else {
      var head, tail := buffer + chunks[0], Flatten(chunks[1..]);
      var rest := Blocks(head).1;
      RestHasNoBlock(head);
      hide Blocks, FindBlank;
      ChunkingIsInvisible(rest, chunks[1..]);
      BlocksOfConcat(head, tail);
      Regroup(buffer, chunks[0], tail);
      assert Feed(buffer, chunks) == (Blocks(head).0 + Feed(rest, chunks[1..]).0, Feed(rest, chunks[1..]).1);
    }
  }

  // ── Browser: the data of a block ──

  const DATA := "data: "

  function DataParts(lines: seq<string>): seq<string> {
    if lines == [] then []
    else (if StartsWith(lines[0], DATA) then [lines[0][|DATA|..]] else []) + DataParts(lines[1..])
  }

  function Data(block: string): string {
    JoinLines(DataParts(SplitLines(block)))
  }

  lemma DataPartsStep(line: string, rest: seq<string>)
    ensures DataParts([line] + rest) == DataParts([line]) + DataParts(rest)
  {
    assert ([line] + rest)[1..] == rest && [line][1..] == [];
  }

  lemma {:induction false} DataPartsAppend(a: seq<string>, b: seq<string>)
    ensures DataParts(a + b) == DataParts(a) + DataParts(b)
  {
    if a == [] {
      assert a + b == b && [] + DataParts(b) == DataParts(b);
    } else {
      var rest := a[1..];
      DataPartsAppend(rest, b);
      DataPartsStep(a[0], rest + b);
      DataPartsStep(a[0], rest);
      FirstOfConcat(a, b);
      hide DataParts;
      ConcatIsAssociative(DataParts([a[0]]), DataParts(rest), DataParts(b));
    }
  }

  /** The loop over the lines of a block. */
  method ParseBlock(block: string) returns (data: string)
    ensures data == Data(block)
  {
    var lines := SplitLines(block);
    var dataLines := [];
    for i := 0 to |lines|
      invariant dataLines == DataParts(lines[..i])
    {
      assert lines[..i + 1] == lines[..i] + [lines[i]];
      DataPartsAppend(lines[..i], [lines[i]]);
      assert [lines[i]][1..] == [];
      if StartsWith(lines[i], DATA) {
        dataLines := dataLines + [lines[i][|DATA|..]];
      }
    }
    assert lines[..|lines|] == lines;
    data := JoinLines(dataLines);
  }

  // ── Round trip ──

  function Prefixed(lines: seq<string>): (r: seq<string>)
    ensures |r| == |lines| && forall i :: 0 <= i < |r| ==> r[i] == DATA + lines[i]
  {
    if lines == [] then [] else [DATA + lines[0]] + Prefixed(lines[1..])
  }

  /** Header lines the client must skip: not blank and no data field. */
  predicate PlainHeader(header: seq<string>) {
    forall i :: 0 <= i < |header| ==> header[i] != "" && LF !in header[i] && !StartsWith(header[i], DATA)
  }

  function EventLines(e: Event): seq<string> {
    e.header + Prefixed(SplitLines(e.message))
  }

  function JoinPrefixed(lines: seq<string>): (r: string)
    requires lines != []
    ensures StartsWith(r, DATA)
  {
    JoinLines(Prefixed(lines))
  }

  lemma PrefixedFirstChar(c: char, lines: seq<string>)
    requires lines != []
    ensures JoinPrefixed([[c] + lines[0]] + lines[1..]) == DATA + ([c] + JoinPrefixed(lines)[|DATA|..])
  {
    var longer := [[c] + lines[0]] + lines[1..];
    assert longer[1..] == lines[1..];
    var tail := if |lines| > 1 then "\n" + JoinLines(Prefixed(lines[1..])) else "";
    JoinOfFirst(lines);
    JoinOfFirst(longer);
    hide *;
    Regroup(DATA, lines[0] + tail, "");
    Regroup([c], lines[0], tail);
    assert longer[0] == [c] + lines[0];
  }

  lemma JoinOfFirst(lines: seq<string>)
    requires lines != []
    ensures JoinPrefixed(lines)
      == DATA + (lines[0] + if |lines| > 1 then "\n" + JoinLines(Prefixed(lines[1..])) else "")
  {
    assert Prefixed(lines)[0] == DATA + lines[0];
    assert Prefixed(lines)[1..] == Prefixed(lines[1..]);
    var first := lines[0];
    if |lines| > 1 {
      var tail := JoinLines(Prefixed(lines[1..]));
      assert JoinPrefixed(lines) == ((DATA + first) + "\n") + tail;
      hide *;
      Regroup(DATA + first, "\n", tail);
      Regroup(DATA, first, "\n" + tail);
    } else {
      Regroup(DATA, first, "");
    }
  }

  lemma PrefixedEmptyFirst(lines: seq<string>)
    requires lines != []
    ensures JoinPrefixed([""] + lines) == DATA + ("\n" + JoinPrefixed(lines))
  {
    var longer := [""] + lines;
    assert longer[1..] == lines;
    assert Prefixed(longer)[1..] == Prefixed(lines);
    assert Prefixed(longer)[0] == DATA;
  }

  lemma SafeStep(msg: string)
    requires msg != ""
    ensures SafeMessage(msg) == (if msg[0] == LF then "\n" + DATA else [msg[0]]) + SafeMessage(msg[1..])
  {
    assert "\ndata: " == "\n" + DATA;
  }

  lemma Regroup(a: string, b: string, c: string)
    ensures a + (b + c) == (a + b) + c
    ensures (a + b)[|a|..] == b && b + "" == b
  {
  }

  lemma {:induction false} SafeIsPrefixedLines(msg: string)
    ensures JoinPrefixed(SplitLines(msg)) == DATA + SafeMessage(msg)
  {
    if msg != "" {
      SafeIsPrefixedLines(msg[1..]);
      SplitStep(msg);
      SafeStep(msg);
      var rest := SplitLines(msg[1..]);
      var safe := SafeMessage(msg[1..]);
      hide JoinPrefixed, SplitLines, SafeMessage, DATA;
      Regroup(DATA, safe, "");
      if msg[0] == LF {
        PrefixedEmptyFirst(rest);
        Regroup("\n", DATA, safe);
      } else {
        PrefixedFirstChar(msg[0], rest);
      }
    }
  }

  lemma SplitStep(msg: string)
    requires msg != ""
    ensures var rest := SplitLines(msg[1..]);
            SplitLines(msg) == if msg[0] == LF then [""] + rest else [[msg[0]] + rest[0]] + rest[1..]
  {
  }

  lemma {:induction false} HeaderIsJoin(header: seq<string>, body: seq<string>)
    requires body != []
    ensures HeaderText(header) + JoinLines(body) == JoinLines(header + body)
  {
    if header == [] {
      assert header + body == body;
    } else {
      HeaderIsJoin(header[1..], body);
      assert (header + body)[1..] == header[1..] + body;
    }
  }

  function Body(e: Event): string {
    JoinLines(EventLines(e))
  }

  lemma FrameIsBody(e: Event)
    ensures Frame(e) == Body(e) + "\n\n"
  {
    var lines := SplitLines(e.message);
    SafeIsPrefixedLines(e.message);
    HeaderIsJoin(e.header, Prefixed(lines));
    hide SafeMessage, SplitLines, Prefixed, JoinLines, HeaderText;
    Regroup(HeaderText(e.header), "data: ", SafeMessage(e.message));
  }

  ghost predicate NoBlank(s: string) {
    (forall i: nat :: !IsBlank(s, i)) && (s != "" ==> s[0] != LF && s[|s| - 1] != LF)
  }

  lemma {:induction false} JoinHasNoBlank(lines: seq<string>)
    requires forall i :: 0 <= i < |lines| ==> lines[i] != "" && LF !in lines[i]
    ensures NoBlank(JoinLines(lines)) && (lines != [] ==> JoinLines(lines) != "")
  {
    if |lines| > 1 {
      JoinHasNoBlank(lines[1..]);
      var a, b := lines[0], JoinLines(lines[1..]);
      var s := a + "\n" + b;
      assert JoinLines(lines) == s;
      forall i: nat
        ensures !IsBlank(s, i)
      {
        if i > |a| {
          assert !IsBlank(b, i - |a| - 1);
        } else {
          assert i < |a| ==> s[i] == a[i];
          assert i == |a| ==> s[i + 1] == b[0];
        }
      }
    }
  }

  lemma EventLinesAreClean(e: Event)
    requires PlainHeader(e.header)
    ensures forall i :: 0 <= i < |EventLines(e)| ==> EventLines(e)[i] != "" && LF !in EventLines(e)[i]
  {
    var parts := SplitLines(e.message);
    forall i | 0 <= i < |EventLines(e)|
      ensures EventLines(e)[i] != "" && LF !in EventLines(e)[i]
    {
      if i >= |e.header| {
        assert EventLines(e)[i] == DATA + parts[i - |e.header|];
      }
    }
  }

  lemma FirstBlock(e: Event, rest: string)
    requires PlainHeader(e.header)
    ensures Blocks(Frame(e) + rest) == ([Body(e)] + Blocks(rest).0, Blocks(rest).1)
  {
    FrameIsBody(e);
    EventLinesAreClean(e);
    JoinHasNoBlank(EventLines(e));
    hide Frame, Body, Blocks, FindBlank, JoinLines, EventLines, PlainHeader;
    BlockCut(Body(e), rest);
  }

  lemma BlockCut(body: string, rest: string)
    requires body != "" && body[|body| - 1] != LF && forall i: nat :: !IsBlank(body, i)
    ensures Blocks(body + "\n\n" + rest) == ([body] + Blocks(rest).0, Blocks(rest).1)
  {
    hide FindBlank;
    var s := body + "\n\n" + rest;
    forall i: nat | i < |body|
      ensures !IsBlank(s, i)
    {
      assert !IsBlank(body, i) && s[i] == body[i];
    }
    FindBlankIs(s, |body|);
    assert s[..|body|] == body && s[|body| + 2..] == rest;
  }

  function Bodies(events: seq<Event>): (r: seq<string>)
    ensures |r| == |events| && forall i :: 0 <= i < |r| ==> r[i] == Body(events[i])
  {
    if events == [] then [] else [Body(events[0])] + Bodies(events[1..])
  }

  lemma {:induction false} BlocksOfStream(events: seq<Event>)
    requires forall i :: 0 <= i < |events| ==> PlainHeader(events[i].header)
    ensures Blocks(Stream(events)) == (Bodies(events), "")
  {
    if events != [] {
      BlocksOfStream(events[1..]);
      FirstBlock(events[0], Stream(events[1..]));
    }
  }

  lemma {:induction false} DataOfHeader(header: seq<string>)
    requires PlainHeader(header)
    ensures DataParts(header) == []
  {
    if header != [] {
      DataOfHeader(header[1..]);
    }
  }

  lemma {:induction false} DataOfPrefixed(lines: seq<string>)
    ensures DataParts(Prefixed(lines)) == lines
  {
    if lines != [] {
      DataOfPrefixed(lines[1..]);
      assert Prefixed(lines)[1..] == Prefixed(lines[1..]);
      assert (DATA + lines[0])[|DATA|..] == lines[0];
    }
  }

  lemma DataOfBody(e: Event)
    requires PlainHeader(e.header)
    ensures Data(Body(e)) == e.message
  {
    var parts := SplitLines(e.message);
    EventLinesAreClean(e);
    SplitOfJoin(EventLines(e));
    DataPartsAppend(e.header, Prefixed(parts));
    DataOfHeader(e.header);
    DataOfPrefixed(parts);
    JoinOfSplit(e.message);
    assert [] + parts == parts;
    assert SplitLines(Body(e)) == EventLines(e);
  }

  /** Whatever the messages and wherever the network cuts the stream, the client's blocks carry
      exactly the messages sent, in order, and nothing stays in the buffer. */
  lemma RoundTrip(events: seq<Event>, chunks: seq<string>)
    requires forall i :: 0 <= i < |events| ==> PlainHeader(events[i].header)
    requires Flatten(chunks) == Stream(events)
    ensures var (blocks, rest) := Feed("", chunks);
            && rest == "" && |blocks| == |events|
            && forall i :: 0 <= i < |events| ==> Data(blocks[i]) == events[i].message
  {
    ChunkingIsInvisible("", chunks);
    assert "" + Flatten(chunks) == Stream(events);
    BlocksOfStream(events);
    forall i | 0 <= i < |events|
      ensures Data(Bodies(events)[i]) == events[i].message
    {
      DataOfBody(events[i]);
    }
  }

  lemma {:induction false} ServedHeadersArePlain(polls: seq<Polled>, numbered: bool)
    ensures forall i :: 0 <= i < |Events(polls, numbered)| ==> PlainHeader(Events(polls, numbered)[i].header)
  {
    if polls != [] {
      var n := |polls| - 1;
      ServedHeadersArePlain(polls[..n], numbered);
      NumberedHeadersArePlain(CountMessages(polls[..n]) + 1);
    }
  }

  lemma NumberedHeadersArePlain(n: nat)
    ensures PlainHeader(["retry: 3000"]) && PlainHeader(["id: " + Decimal(n), "retry: 3000"])
  {
    var id, retry := "id: " + Decimal(n), "retry: 3000";
    assert id[0] == 'i' && retry[0] == 'r' && DATA[0] == 'd';
    assert LF !in "id: " && LF !in Decimal(n);
    assert forall i :: 0 <= i < |retry| ==> retry[i] != LF;
    hide Decimal;
  }

  lemma FeedOfError(error: string)
    ensures LF in "data: ERROR:" + error <==> LF in error
  {
    var body := "data: ERROR:" + error;
    assert forall i :: 0 <= i < |error| ==> body[12 + i] == error[i];
    assert forall i :: 0 <= i < 12 ==> body[i] == "data: ERROR:"[i] != LF;
  }

  lemma PlainErrorFrame(error: string)
    ensures var blocks := Blocks("data: ERROR:" + error + "\n\n").0;
            |blocks| > 0 && (Data(blocks[0]) == "ERROR:" + error <==> LF !in error)
  {
    var body := "data: ERROR:" + error;
    FeedOfError(error);
    var block := FirstBlockOf(body);
    DataShorter(block);
    hide Blocks, Data, FindBlank;
    assert |block| <= |body| == |"ERROR:" + error| + 6;
    if LF !in error {
      FeedlessBlock(body);
      assert body[|DATA|..] == "ERROR:" + error;
    } else {
      assert |block| == |body| ==> block == body;
    }
  }

  const RETRY := "retry: 3000"

  lemma RetryHasNoFeed()
    ensures RETRY != "" && LF !in RETRY && !StartsWith(RETRY, DATA)
  {
    assert forall i :: 0 <= i < |RETRY| ==> RETRY[i] != LF;
    assert RETRY[0] == 'r' && DATA[0] == 'd';
  }

  lemma BlankAfter(c: char, rest: string)
    requires FindBlank(rest).Some? && !(c == LF && rest[0] == LF)
    ensures FindBlank([c] + rest) == Some(1 + FindBlank(rest).value)
  {
    var s := [c] + rest;
    assert s[0] == c && s[1] == rest[0] && s[1..] == rest;
  }

  lemma TailHasNoFeed(line: string)
    requires line != "" && LF !in line
    ensures LF !in line[1..] && line[0] != LF
  {
  }

  lemma {:induction false} BlankAfterLine(line: string, rest: string)
    requires LF !in line && FindBlank(rest).Some?
    ensures FindBlank(line + rest) == Some(|line| + FindBlank(rest).value)
  {
    hide FindBlank;
    if line == "" {
      assert line + rest == rest;
    } else {
      TailHasNoFeed(line);
      BlankAfterLine(line[1..], rest);
      BlankAfter(line[0], line[1..] + rest);
      FirstCharOfConcat(line, rest);
    }
  }

  lemma FirstCharOfConcat(a: string, b: string)
    requires a != ""
    ensures a + b == [a[0]] + (a[1..] + b)
  {
  }

  lemma PrefixOfConcat(a: string, b: string, k: nat)
    requires k <= |b|
    ensures (a + b)[..|a| + k] == a + b[..k]
  {
  }

  lemma FirstBlockIs(s: string, at: nat)
    requires FindBlank(s) == Some(at)
    ensures Blocks(s).0 != [] && Blocks(s).0[0] == s[..at]
  {
    FirstBlockCut(s, at);
    hide FindBlank, Blocks;
  }

  lemma TextJoinsFirstBlock(text: string, rest: string, at: nat)
    requires FindBlank(rest) == Some(at) && FindBlank(text + rest) == Some(|text| + at)
    ensures Blocks(rest).0 != [] && Blocks(text + rest).0 != [] && Blocks(text + rest).0[0] == text + Blocks(rest).0[0]
  {
    hide Blocks;
    FirstBlockIs(rest, at);
    FirstBlockIs(text + rest, |text| + at);
    hide FindBlank;
    PrefixOfConcat(text, rest, at);
  }

  /** A header line before the rest of a stream moves into its first block. */
  lemma HeaderJoinsFirstBlock(header: string, rest: string)
    requires LF !in header && rest != "" && rest[0] != LF && FindBlank(rest).Some?
    ensures var blocks, more := Blocks(rest).0, Blocks(header + ("\n" + rest)).0;
            |blocks| > 0 && |more| > 0 && more[0] == header + ("\n" + blocks[0])
  {
    hide FindBlank, Blocks;
    var at, next := FindBlank(rest).value, [LF] + rest;
    assert "\n" == [LF];
    BlankAfter(LF, rest);
    BlankAfterLine(header, next);
    TextJoinsFirstBlock([LF], rest, at);
    TextJoinsFirstBlock(header, next, 1 + at);
  }

  /** The data of a block does not depend on a header line before it. */
  lemma HeaderIsNoData(header: string, block: string)
    requires LF !in header && !StartsWith(header, DATA)
    ensures Data(header + ("\n" + block)) == Data(block)
  {
    SplitAtFirst(header, block, LF);
    Regroup(header, "\n", block);
    DataPartsStep(header, SplitLines(block));
    assert [header][1..] == [] && DataParts([header]) == [];
    assert [] + DataParts(SplitLines(block)) == DataParts(SplitLines(block));
  }

  /** The frame that closes a run that raised; the approval route puts a retry line before it. */
  function ErrorText(error: string, numbered: bool): string {
    var frame := "data: ERROR:" + error + "\n\n";
    if numbered then RETRY + ("\n" + frame) else frame
  }

  /** On both routes the error is printed without the data prefix on further lines: the page gets
      the whole error exactly when it has no line feed. */
  lemma ErrorFrame(error: string, numbered: bool)
    ensures var blocks := Blocks(ErrorText(error, numbered)).0;
            |blocks| > 0 && (Data(blocks[0]) == "ERROR:" + error <==> LF !in error)
  {
    var rest := "data: ERROR:" + error + "\n\n";
    PlainErrorFrame(error);
    ErrorHasBlank(error);
    RetryHasNoFeed();
    hide RETRY, Blocks, Data, FindBlank;
    if numbered {
      HeaderJoinsFirstBlock(RETRY, rest);
      HeaderIsNoData(RETRY, Blocks(rest).0[0]);
    }
  }

  lemma ErrorHasBlank(error: string)
    ensures var rest := "data: ERROR:" + error + "\n\n"; rest != "" && rest[0] != LF && FindBlank(rest).Some?
  {
    var rest := "data: ERROR:" + error + "\n\n";
    assert rest[0] == 'd' && IsBlank(rest, |rest| - 2);
    hide FindBlank;
  }

  lemma FirstBlockOf(body: string) returns (block: string)
    ensures Blocks(body + "\n\n").0 != [] && Blocks(body + "\n\n").0[0] == block
    ensures block <= body && (LF !in body ==> block == body)
  {
    var s := body + "\n\n";
    assert IsBlank(s, |body|);
    var at := FindBlank(s).value;
    block := s[..at];
    assert at <= |body| && block == body[..at];
    assert at < |body| ==> body[at] == LF;
  }

  lemma FeedlessBlock(block: string)
    requires LF !in block && StartsWith(block, DATA)
    ensures Data(block) == block[|DATA|..]
  {
    SplitWithout(block, LF);
    assert DataParts([block]) == [block[|DATA|..]] + DataParts([block][1..]);
  }

  lemma {:induction false} PartsShorter(lines: seq<string>)
    ensures |JoinLines(DataParts(lines))| <= |JoinLines(lines)|
    ensures DataParts(lines) != [] ==> |JoinLines(DataParts(lines))| + 6 * |DataParts(lines)| <= |JoinLines(lines)|
    ensures |DataParts(lines)| < |lines| && DataParts(lines) != [] ==>
      |JoinLines(DataParts(lines))| + 6 * |DataParts(lines)| < |JoinLines(lines)|
  {
    if lines != [] {
      PartsShorter(lines[1..]);
      assert |lines| > 1 ==> |JoinLines(lines)| == |lines[0]| + 1 + |JoinLines(lines[1..])|;
      var rest := DataParts(lines[1..]);
      if StartsWith(lines[0], DATA) {
        assert DataParts(lines) == [lines[0][6..]] + rest;
        assert DataParts(lines)[1..] == rest;
      } else {
        assert DataParts(lines) == rest;
      }
    }
  }

  /** Reading a block drops at least the data prefix of each line it keeps, and more if it has
      several lines. */
  lemma DataShorter(block: string)
    ensures Data(block) == "" || |Data(block)| + 6 <= |block|
    ensures LF in block ==> Data(block) == "" || |Data(block)| + 6 < |block|
  {
    var lines := SplitLines(block);
    PartsShorter(lines);
    JoinOfSplit(block);
    assert |lines| == 1 ==> JoinLines(lines) == lines[0] && LF !in lines[0];
  }
}

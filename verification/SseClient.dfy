/** The page side of the live log: what `useSseStream` shows for the events it receives, and the
    whole path from the worker's queue to the text on the page. */
module SseClient {
  import opened Text
  import opened Lines
  import opened SseStream

  datatype Verdict = Open | Ended(success: bool) | Errored | Pending(id: string, scheduled: bool)

  /** `output.value` and what `stream` has decided so far. */
  datatype Page = Page(output: string, verdict: Verdict)

  /** `s.split(c)[0]` */
  function Until(s: string, c: char): (r: string)
    ensures r <= s && c !in r && (|r| < |s| ==> s[|r|] == c)
  {
    if s == "" || s[0] == c then "" else [s[0]] + Until(s[1..], c)
  }

  /** `s.split(c)[1]`, empty when there is none (neither equals "1"). */
  function Second(s: string, c: char): string {
    var first := Until(s, c);
    if |first| < |s| then Until(s[|first| + 1..], c) else ""
  }

  const ERROR := "ERROR:"
  const END := "END:"
  const PENDING := "PENDING:"
  const STATUS := "STATUS:"

  /** One event of an open page. `render` stands for the translated STATUS payload, or the payload
      itself where it is not JSON. */
  function Handle(p: Page, data: string, render: string -> string): Page {
    if data == "" then p
    else if StartsWith(data, ERROR) then Page(p.output + "\n\U{274C} " + data[|ERROR|..], Errored)
    else if StartsWith(data, END) then Page(p.output, Ended(Until(data[|END|..], ':') == "true"))
    else if StartsWith(data, PENDING) then
      var rest := data[|PENDING|..];
      Page(p.output, Pending(Until(rest, ':'), Second(rest, ':') == "1"))
    else if data == "." then p
    else if StartsWith(data, STATUS) then p.(output := p.output + render(data[|STATUS|..]) + "\n")
    else p.(output := p.output + data + "\n")
  }

  /** The events of a stream up to the first that decides. */
  function Consume(p: Page, datas: seq<string>, render: string -> string): Page
    decreases |datas|
  {
    if datas == [] || p.verdict != Open then p
    else Consume(Handle(p, datas[0], render), datas[1..], render)
  }

  function Datas(blocks: seq<string>): (r: seq<string>)
    ensures |r| == |blocks| && forall i :: 0 <= i < |r| ==> r[i] == Data(blocks[i])
  {
    seq(|blocks|, i requires 0 <= i < |blocks| => Data(blocks[i]))
  }

  lemma {:induction false} ConsumeConcat(p: Page, a: seq<string>, b: seq<string>, render: string -> string)
    ensures Consume(p, a + b, render) == Consume(Consume(p, a, render), b, render)
    decreases |a|
  {
    if a == [] {
      assert a + b == b;
    } else if p.verdict == Open {
      ConsumeConcat(Handle(p, a[0], render), a[1..], b, render);
      assert (a + b)[1..] == a[1..] + b;
    }
  }

  /** The data of a connection from one chunk on. */
  lemma DatasOfFeed(buffer: string, chunks: seq<string>, i: nat)
    requires i < |chunks|
    ensures var (blocks, rest) := Blocks(buffer + chunks[i]);
            Datas(Feed(buffer, chunks[i..]).0) == Datas(blocks) + Datas(Feed(rest, chunks[i + 1..]).0)
  {
    assert chunks[i..][1..] == chunks[i + 1..];
    hide Blocks, Data;
  }

  lemma BlocksStep(buffer: string)
    ensures var at := FindBlank(buffer);
            if at.None? then Blocks(buffer) == ([], buffer) && Datas(Blocks(buffer).0) == []
            else var later := Blocks(buffer[at.value + 2..]);
                 Datas(Blocks(buffer).0) == [Data(buffer[..at.value])] + Datas(later.0) && Blocks(buffer).1 == later.1
  {
    hide Data, FindBlank, Datas;
    var at := FindBlank(buffer);
    if at.Some? {
      DatasOfFirst(buffer[..at.value], Blocks(buffer[at.value + 2..]).0);
    }
  }

  lemma DatasOfFirst(block: string, later: seq<string>)
    ensures Datas([block] + later) == [Data(block)] + Datas(later)
  {
    hide Data;
  }

  /** One turn of the block loop. */
  lemma ReceiveStep(p: Page, buffer: string, render: string -> string)
    requires p.verdict == Open && FindBlank(buffer).Some?
    ensures var at := FindBlank(buffer).value;
            var rest := buffer[at + 2..];
            && Consume(p, Datas(Blocks(buffer).0), render)
                == Consume(Handle(p, Data(buffer[..at]), render), Datas(Blocks(rest).0), render)
            && Blocks(buffer).1 == Blocks(rest).1
  {
    BlocksStep(buffer);
    var datas := Datas(Blocks(buffer).0);
    var rest := Datas(Blocks(buffer[FindBlank(buffer).value + 2..]).0);
    hide Handle, Datas, Data, Blocks, FindBlank;
    assert datas[1..] == rest;
  }

  lemma ReceiveEnd(p: Page, buffer: string, render: string -> string)
    requires p.verdict != Open || FindBlank(buffer).None?
    ensures Consume(p, Datas(Blocks(buffer).0), render) == p
    ensures FindBlank(buffer).None? ==> Blocks(buffer).1 == buffer
  {
    BlocksStep(buffer);
    hide Handle, Datas, Data, Blocks, FindBlank;
  }

  lemma FeedOfNothing(buffer: string)
    ensures Datas(Feed(buffer, []).0) == []
  {
  }

  class Reader {
    var buffer: string
    var output: string
    var verdict: Verdict
    const render: string -> string

    function Shown(): Page
      reads this
    {
      Page(output, verdict)
    }

    constructor (initial: string, render: string -> string)
      ensures buffer == "" && Shown() == Page(initial, Open) && this.render == render
    {
      buffer, output, verdict, this.render := "", initial, Open, render;
    }

    method HandleData(data: string)
      modifies this
      ensures Shown() == Handle(old(Shown()), data, render) && buffer == old(buffer)
    {
      if data == "" {
        return;
      }
      if StartsWith(data, ERROR) {
        output, verdict := output + "\n\U{274C} " + data[|ERROR|..], Errored;
      } else if StartsWith(data, END) {
        verdict := Ended(Until(data[|END|..], ':') == "true");
      } else if StartsWith(data, PENDING) {
        var rest := data[|PENDING|..];
        verdict := Pending(Until(rest, ':'), Second(rest, ':') == "1");
      } else if data == "." {
        return;
      } else if StartsWith(data, STATUS) {
        output := output + render(data[|STATUS|..]) + "\n";
      } else {
        output := output + data + "\n";
      }
    }

    /** One chunk: cut off complete blocks until none is left or one of them decides. */
    method Receive(chunk: string)
      modifies this
      requires verdict == Open
      ensures Shown() == Consume(old(Shown()), Datas(Blocks(old(buffer) + chunk).0), render)
      ensures verdict == Open ==> buffer == Blocks(old(buffer) + chunk).1
    {
      buffer := buffer + chunk;
      ghost var whole := buffer;
      var at := FindBlank(buffer);
      hide Blocks, Datas, Handle, Data, FindBlank, Consume;
      while verdict == Open && at.Some?
        invariant at == FindBlank(buffer)
        invariant Consume(Shown(), Datas(Blocks(buffer).0), render)
          == Consume(old(Shown()), Datas(Blocks(whole).0), render)
        invariant Blocks(buffer).1 == Blocks(whole).1
        decreases |buffer|
      {
        ReceiveStep(Shown(), buffer, render);
        var block := buffer[..at.value];
        buffer := buffer[at.value + 2..];
        var data := ParseBlock(block);
        HandleData(data);
        at := FindBlank(buffer);
      }
      ReceiveEnd(Shown(), buffer, render);
    }

    /** The read loop over the chunks of a connection; nothing more is read after a decision. */
    method Read(chunks: seq<string>)
      modifies this
      requires verdict == Open && buffer == ""
      ensures Shown() == Consume(old(Shown()), Datas(Feed("", chunks).0), render)
    {
      var i := 0;
      ghost var all := Datas(Feed("", chunks).0);
      hide Blocks, Feed, Datas, Handle;
      assert chunks[0..] == chunks;
      while verdict == Open && i < |chunks|
        invariant 0 <= i <= |chunks|
        invariant verdict == Open ==>
          Consume(old(Shown()), all, render) == Consume(Shown(), Datas(Feed(buffer, chunks[i..]).0), render)
        invariant verdict != Open ==> Consume(old(Shown()), all, render) == Shown()
      {
        ghost var (blocks, rest) := Blocks(buffer + chunks[i]);
        DatasOfFeed(buffer, chunks, i);
        ConsumeConcat(Shown(), Datas(blocks), Datas(Feed(rest, chunks[i + 1..]).0), render);
        Receive(chunks[i]);
        i := i + 1;
      }
      if verdict == Open {
        FeedOfNothing(buffer);
        assert chunks[i..] == [];
      }
    }
  }

  // ── From the queue to the page ──

  /** The log messages of a run, without the keep-alives between them. */
  function Texts(polls: seq<Polled>): seq<string> {
    if polls == [] then []
    else
      var last := polls[|polls| - 1];
      Texts(polls[..|polls| - 1]) + if last.Message? then [last.text] else []
  }

  function Messages(events: seq<Event>): (r: seq<string>)
    ensures |r| == |events| && forall i :: 0 <= i < |r| ==> r[i] == events[i].message
  {
    seq(|events|, i requires 0 <= i < |events| => events[i].message)
  }

  /** The closing frame of a run that did not raise. */
  function EndEvent(success: bool, numbered: bool): Event {
    Event(if numbered then ["retry: 3000"] else [], END + if success then "true" else "false")
  }

  lemma HandleKeepAlive(p: Page, render: string -> string)
    ensures Handle(p, ".", render) == p
    ensures Consume(p, ["."], render) == p
  {
    assert "."[0] == '.';
    assert ["."][1..] == [];
    assert Consume(p, [], render) == p;
  }

  /** Keep-alives leave no trace on the page, wherever they fall. */
  lemma {:induction false} KeepAlivesAreInvisible(p: Page, polls: seq<Polled>, numbered: bool, render: string -> string)
    ensures Consume(p, Messages(Events(polls, numbered)), render) == Consume(p, Texts(polls), render)
  {
    if polls == [] {
      assert Messages(Events(polls, numbered)) == Texts(polls);
    } else {
      var n := |polls| - 1;
      var front, last := Events(polls[..n], numbered), polls[n];
      KeepAlivesAreInvisible(p, polls[..n], numbered, render);
      var m := if last.Message? then last.text else ".";
      assert Messages(Events(polls, numbered)) == Messages(front) + [m];
      ConsumeConcat(p, Messages(front), [m], render);
      HandleKeepAlive(Consume(p, Messages(front), render), render);
      if last.Message? {
        ConsumeConcat(p, Texts(polls[..n]), [m], render);
      } else {
        assert Texts(polls) == Texts(polls[..n]);
      }
    }
  }

  /** A message the client takes for a command and that ends the stream. */
  predicate Deciding(m: string) {
    StartsWith(m, ERROR) || StartsWith(m, END) || StartsWith(m, PENDING)
  }

  /** What one log message adds to the page. */
  function Added(m: string, render: string -> string): string {
    if m == "" || m == "." then "" else if StartsWith(m, STATUS) then render(m[|STATUS|..]) + "\n" else m + "\n"
  }

  function Appended(messages: seq<string>, render: string -> string): string {
    if messages == [] then "" else Added(messages[0], render) + Appended(messages[1..], render)
  }

  lemma {:induction false} ConsumeAppends(p: Page, messages: seq<string>, render: string -> string)
    requires p.verdict == Open && forall i :: 0 <= i < |messages| ==> !Deciding(messages[i])
    ensures Consume(p, messages, render) == Page(p.output + Appended(messages, render), Open)
    decreases |messages|
  {
    if messages == [] {
      assert p.output + "" == p.output;
    } else {
      var next := Handle(p, messages[0], render);
      HandleAppends(p, messages[0], render);
      hide Handle, Added, Deciding;
      ConsumeAppends(next, messages[1..], render);
      Regroup(p.output, Added(messages[0], render), Appended(messages[1..], render));
    }
  }

  lemma HandleAppends(p: Page, m: string, render: string -> string)
    requires p.verdict == Open && !Deciding(m)
    ensures Handle(p, m, render) == Page(p.output + Added(m, render), Open)
  {
    if m == "" || m == "." {
      assert p.output + "" == p.output;
    } else if StartsWith(m, STATUS) {
      Regroup(p.output, render(m[|STATUS|..]), "\n");
    } else {
      Regroup(p.output, m, "\n");
    }
  }

  lemma EndDecides(p: Page, success: bool, render: string -> string)
    ensures Handle(p, END + (if success then "true" else "false"), render) == Page(p.output, Ended(success))
  {
    var word := if success then "true" else "false";
    var m := END + word;
    assert m[0] == 'E' && m[1] == 'N' && ERROR[1] == 'R' && PENDING[0] == 'P';
    assert m[|END|..] == word;
    assert ':' !in word;
    assert "false"[0] == 'f' && "true"[0] == 't';
    var u := Until(word, ':');
    assert u == word;
  }

  lemma {:induction false} UntilFirst(s: string, c: char, rest: string)
    requires c !in s
    ensures Until(s + [c] + rest, c) == s && Until(s, c) == s
  {
    if s != "" {
      UntilFirst(s[1..], c, rest);
      assert (s + [c] + rest)[1..] == s[1..] + [c] + rest;
      assert s == [s[0]] + s[1..];
    }
  }

  /** A PENDING frame ends the stream with the ticket id that follows, and as scheduled exactly if
      the flag after the colon is 1; more fields change nothing, and without a flag it is not. */
  lemma PendingDecides(p: Page, id: string, flag: string, more: string, render: string -> string)
    requires ':' !in id && ':' !in flag
    ensures Handle(p, "PENDING:" + (id + ":" + flag), render) == Page(p.output, Pending(id, flag == "1"))
    ensures Handle(p, "PENDING:" + (id + ":" + (flag + ":" + more)), render) == Page(p.output, Pending(id, flag == "1"))
    ensures Handle(p, "PENDING:" + id, render) == Page(p.output, Pending(id, false))
  {
    hide Until;
    UntilFirst(id, ':', flag);
    UntilFirst(id, ':', flag + ":" + more);
    UntilFirst(flag, ':', more);
    PendingPayload(p, id, render);
    PendingPayload(p, id + ":" + flag, render);
    PendingPayload(p, id + ":" + (flag + ":" + more), render);
    SecondField(id, flag);
    SecondField(id, flag + ":" + more);
    NoSecondField(id);
    assert id + [':'] + flag == id + ":" + flag;
    assert id + [':'] + (flag + ":" + more) == id + ":" + (flag + ":" + more);
    assert flag + [':'] + more == flag + ":" + more;
    hide Handle, Second;
  }

  /** An ERROR frame ends the stream with its text shown after a mark; an END frame leaves the text
      as it is and means success exactly if its first field is the word true. */
  lemma ErrorAndEndDecide(p: Page, text: string, word: string, more: string, render: string -> string)
    requires ':' !in word
    ensures Handle(p, "ERROR:" + text, render) == Page(p.output + "\n\U{274C} " + text, Errored)
    ensures Handle(p, "END:" + word, render) == Page(p.output, Ended(word == "true"))
    ensures Handle(p, "END:" + (word + ":" + more), render) == Page(p.output, Ended(word == "true"))
  {
    var error := ERROR + text;
    assert error[|ERROR|..] == text;
    UntilFirst(word, ':', more);
    assert word + [':'] + more == word + ":" + more;
    EndPayload(p, word, render);
    EndPayload(p, word + ":" + more, render);
    hide Until;
  }

  /** A STATUS frame shows its rendered payload on a line of its own, and any other message that is no
      command and no keep-alive shows as it is, on a line of its own. */
  lemma StatusAndTextShow(p: Page, payload: string, m: string, render: string -> string)
    requires m != "" && m != "." && !("ERROR:" <= m) && !("END:" <= m) && !("PENDING:" <= m) && !("STATUS:" <= m)
    ensures Handle(p, "STATUS:" + payload, render) == p.(output := p.output + render(payload) + "\n")
    ensures Handle(p, m, render) == p.(output := p.output + m + "\n")
  {
    var data := STATUS + payload;
    assert data[0] == 'S' && ERROR[0] == END[0] == 'E' && PENDING[0] == 'P';
    assert data[|STATUS|..] == payload;
  }

  lemma EndPayload(p: Page, rest: string, render: string -> string)
    ensures Handle(p, "END:" + rest, render) == Page(p.output, Ended(Until(rest, ':') == "true"))
  {
    hide Until, Second;
    var data := END + rest;
    assert data[1] == 'N' && ERROR[1] == 'R';
    assert data[|END|..] == rest;
  }

  lemma PendingPayload(p: Page, rest: string, render: string -> string)
    ensures Handle(p, "PENDING:" + rest, render) == Page(p.output, Pending(Until(rest, ':'), Second(rest, ':') == "1"))
  {
    hide Until, Second;
    var data := PENDING + rest;
    assert data[0] == 'P' && ERROR[0] == END[0] == 'E';
    assert data[|PENDING|..] == rest;
  }

  lemma SecondField(first: string, rest: string)
    requires ':' !in first
    ensures Second(first + ":" + rest, ':') == Until(rest, ':')
  {
    UntilFirst(first, ':', rest);
    var s := first + ":" + rest;
    assert s == first + [':'] + rest;
    assert s[|first| + 1..] == rest;
    hide Until;
  }

  lemma NoSecondField(s: string)
    requires ':' !in s
    ensures Second(s, ':') == ""
  {
    UntilFirst(s, ':', "");
    hide Until;
  }

  lemma ArrivingData(polls: seq<Polled>, end: Event, numbered: bool, chunks: seq<string>)
    requires end.header in {[], ["retry: 3000"]}
    requires Flatten(chunks) == Stream(Events(polls, numbered) + [end])
    ensures Datas(Feed("", chunks).0) == Messages(Events(polls, numbered)) + [end.message]
  {
    hide PlainHeader, Events, Stream, Flatten, Feed, Data;
    var events := Events(polls, numbered) + [end];
    ServedHeadersArePlain(polls, numbered);
    EndHeaderIsPlain(end);
    RoundTrip(events, chunks);
    assert Datas(Feed("", chunks).0) == Messages(events);
    assert Messages(events) == Messages(Events(polls, numbered)) + [end.message];
  }

  lemma EndHeaderIsPlain(end: Event)
    requires end.header in {[], ["retry: 3000"]}
    ensures PlainHeader(end.header)
  {
    hide PlainHeader;
    NumberedHeadersArePlain(0);
    NoHeaderIsPlain();
  }

  lemma NoHeaderIsPlain()
    ensures PlainHeader([])
  {
  }

  /** What the page shows for a run whose worker queued these messages, whatever they contain,
      however the stream is cut and wherever keep-alives fall. */
  lemma LiveLog(initial: string, polls: seq<Polled>, success: bool, numbered: bool, chunks: seq<string>,
          render: string -> string)
    requires Flatten(chunks) == Stream(Events(polls, numbered) + [EndEvent(success, numbered)])
    ensures Consume(Page(initial, Open), Datas(Feed("", chunks).0), render)
         == Consume(Page(initial, Open), Texts(polls) + [END + if success then "true" else "false"], render)
    ensures (forall i :: 0 <= i < |Texts(polls)| ==> !Deciding(Texts(polls)[i])) ==>
        Consume(Page(initial, Open), Datas(Feed("", chunks).0), render)
          == Page(initial + Appended(Texts(polls), render), Ended(success))
  {
    var start, end := Page(initial, Open), EndEvent(success, numbered);
    hide Handle, Appended, Deciding, Events, Texts, Stream, Flatten, Feed;
    ArrivingData(polls, end, numbered, chunks);
    KeepAlivesAreInvisible(start, polls, numbered, render);
    ConsumeConcat(start, Messages(Events(polls, numbered)), [end.message], render);
    ConsumeConcat(start, Texts(polls), [end.message], render);
    var mid := Consume(start, Texts(polls), render);
    EndDecides(mid, success, render);
    assert [end.message][1..] == [];
    if forall i :: 0 <= i < |Texts(polls)| ==> !Deciding(Texts(polls)[i]) {
      ConsumeAppends(start, Texts(polls), render);
    }
  }

  // ── Which logs survive ──

  /** A message shown as it is: not empty, not the keep-alive dot, and not taken for a command. */
  predicate Verbatim(m: string) {
    m != "" && m != "." && !Deciding(m)
  }

  /** Every message on its own line. */
  function LogText(messages: seq<string>): string {
    if messages == [] then "" else messages[0] + "\n" + LogText(messages[1..])
  }

  lemma {:induction false} LogTextIsJoin(messages: seq<string>)
    requires messages != []
    ensures LogText(messages) == JoinLines(messages) + "\n"
  {
    if |messages| == 1 {
      assert LogText(messages[1..]) == "";
    } else {
      LogTextIsJoin(messages[1..]);
    }
  }

  lemma {:induction false} NothingIsAdded(p: Page, messages: seq<string>, success: bool, render: string -> string)
    requires forall i :: 0 <= i < |messages| ==> !StartsWith(messages[i], STATUS)
    requires p.verdict == Open
    ensures var q := Consume(p, messages + [END + if success then "true" else "false"], render);
            q.verdict.Ended? ==> |q.output| <= |p.output| + |LogText(messages)|
    decreases |messages|
  {
    var end := END + if success then "true" else "false";
    if messages == [] {
      EndDecides(p, success, render);
      assert messages + [end] == [end] && [end][1..] == [];
    } else {
      var next := Handle(p, messages[0], render);
      assert (messages + [end])[1..] == messages[1..] + [end];
      if next.verdict == Open {
        NothingIsAdded(next, messages[1..], success, render);
      }
    }
  }

  lemma HandleVerbatim(p: Page, m: string, render: string -> string)
    requires p.verdict == Open && !StartsWith(m, STATUS)
    ensures Verbatim(m) ==> Handle(p, m, render) == Page(p.output + m + "\n", Open)
    ensures var next := Handle(p, m, render);
            !Verbatim(m) ==> next == p || (next.verdict != Open && (next.verdict.Ended? ==> next.output == p.output))
  {
  }

  lemma TextStep(output: string, messages: seq<string>)
    requires messages != []
    ensures (output + messages[0] + "\n") + LogText(messages[1..]) == output + LogText(messages)
    ensures |LogText(messages)| > |LogText(messages[1..])|
  {
  }

  /** Exactly which logs reach the page whole: those with no dot, no empty message and none that
      starts with ERROR:, END: or PENDING:. (STATUS: messages are rendered, so they are set aside.) */
  lemma {:induction false} LogSurvivesIff(p: Page, messages: seq<string>, success: bool, render: string -> string)
    requires forall i :: 0 <= i < |messages| ==> !StartsWith(messages[i], STATUS)
    requires p.verdict == Open
    ensures var shown := Consume(p, messages + [END + if success then "true" else "false"], render);
            shown == Page(p.output + LogText(messages), Ended(success))
            <==> forall i :: 0 <= i < |messages| ==> Verbatim(messages[i])
    decreases |messages|
  {
    var end := END + if success then "true" else "false";
    if messages == [] {
      EndDecides(p, success, render);
      assert messages + [end] == [end] && [end][1..] == [];
      assert p.output + "" == p.output;
    } else {
      var m, rest := messages[0], messages[1..];
      var next := Handle(p, m, render);
      assert (messages + [end])[1..] == rest + [end];
      HandleVerbatim(p, m, render);
      TextStep(p.output, messages);
      hide Handle, LogText, Verbatim;
      assert Consume(p, messages + [end], render) == Consume(next, rest + [end], render);
      if Verbatim(m) {
        LogSurvivesIff(next, rest, success, render);
        assert (forall i :: 0 <= i < |rest| ==> Verbatim(rest[i])) <==> forall i :: 0 <= i < |messages| ==>
          Verbatim(messages[i]) by {
          assert forall i :: 0 < i < |messages| ==> messages[i] == rest[i - 1];
          assert forall i :: 0 <= i < |rest| ==> rest[i] == messages[i + 1];
        }
      } else if next.verdict == Open {
        NothingIsAdded(next, rest, success, render);
        assert |p.output + LogText(messages)| > |p.output| + |LogText(rest)|;
      } else {
        assert Consume(next, rest + [end], render) == next;
        assert |p.output + LogText(messages)| > |p.output|;
      }
    }
  }
}

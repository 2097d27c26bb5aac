/** Remote command output: cleaning of terminal lines, batching of the live log, and what of it is
    returned, sent to the callback and finally seen on the page. */
module SshLog {
  import opened Wrappers
  import opened Text
  import opened Lines
  import SseStream
  import SseClient

  // ── Cleaning one line ──

  const ESC := 27 as char

  predicate IsLetter(c: char) {
    'a' <= c <= 'z' || 'A' <= c <= 'Z'
  }

  predicate IsParameter(c: char) {
    IsDigit(c) || c == ';' || c == '?'
  }

  function SkipParameters(s: string): (r: string)
    ensures |r| <= |s|
  {
    if s != "" && IsParameter(s[0]) then SkipParameters(s[1..]) else s
  }

  /** `ANSI_RE.sub("", line)` with the pattern ESC [ parameters letter. */
  function StripAnsi(s: string): string
    decreases |s|
  {
    if s == "" then ""
    else
      var t := if |s| >= 2 && s[0] == ESC && s[1] == '[' then SkipParameters(s[2..]) else "";
      if t != "" && IsLetter(t[0]) then StripAnsi(t[1..]) else [s[0]] + StripAnsi(s[1..])
  }

  lemma PlainCharacterStays(c: char, rest: string)
    requires c != ESC
    ensures StripAnsi([c] + rest) == [c] + StripAnsi(rest)
  {
    assert ([c] + rest)[1..] == rest;
  }

  lemma {:induction false} PlainTextStays(plain: string, rest: string)
    requires ESC !in plain
    ensures StripAnsi(plain + rest) == plain + StripAnsi(rest)
  {
    hide StripAnsi;
    if plain == "" {
      assert "" + rest == rest;
      assert "" + StripAnsi(rest) == StripAnsi(rest);
    } else {
      PlainTextStays(plain[1..], rest);
      PlainCharacterStays(plain[0], plain[1..] + rest);
      assert plain + rest == [plain[0]] + (plain[1..] + rest);
      assert plain == [plain[0]] + plain[1..];
    }
  }

  lemma {:induction false} SkipsParameters(parameters: string, rest: string)
    requires forall i :: 0 <= i < |parameters| ==> IsParameter(parameters[i])
    requires rest == "" || !IsParameter(rest[0])
    ensures SkipParameters(parameters + rest) == rest
  {
    if parameters == "" {
      assert "" + rest == rest;
    } else {
      SkipsParameters(parameters[1..], rest);
      assert (parameters + rest)[1..] == parameters[1..] + rest;
    }
  }

  lemma StripAtEscape(s: string)
    requires |s| >= 2 && s[0] == ESC && s[1] == '['
    requires var t := SkipParameters(s[2..]); t != "" && IsLetter(t[0])
    ensures StripAnsi(s) == StripAnsi(SkipParameters(s[2..])[1..])
  {
    hide SkipParameters;
  }

  lemma SequenceVanishes(parameters: string, letter: char, rest: string)
    requires IsLetter(letter)
    requires forall i :: 0 <= i < |parameters| ==> IsParameter(parameters[i])
    ensures StripAnsi([ESC, '['] + (parameters + ([letter] + rest))) == StripAnsi(rest)
  {
    hide StripAnsi, SkipParameters;
    var after := [letter] + rest;
    SkipsParameters(parameters, after);
    DropTwo(ESC, '[', parameters + after);
    DropOne(letter, rest);
    StripAtEscape([ESC, '['] + (parameters + after));
  }

  lemma DropTwo(a: char, b: char, s: string)
    ensures var t := [a, b] + s; t[2..] == s && t[0] == a && t[1] == b
  {
  }

  lemma DropOne(a: char, s: string)
    ensures ([a] + s)[1..] == s
  {
  }

  /** Every escape sequence after plain text vanishes and nothing else does. */
  lemma EscapeVanishes(plain: string, parameters: string, letter: char, rest: string)
    requires ESC !in plain && IsLetter(letter)
    requires forall i :: 0 <= i < |parameters| ==> IsParameter(parameters[i])
    ensures StripAnsi(plain + ([ESC, '['] + (parameters + ([letter] + rest)))) == plain + StripAnsi(rest)
  {
    PlainTextStays(plain, [ESC, '['] + (parameters + ([letter] + rest)));
    SequenceVanishes(parameters, letter, rest);
    hide StripAnsi;
  }

  lemma {:induction false} SkipStops(s: string) returns (k: nat)
    ensures k <= |s| && SkipParameters(s) == s[k..]
    ensures forall i :: 0 <= i < k ==> IsParameter(s[i])
  {
    k := 0;
    if s != "" && IsParameter(s[0]) {
      var n := SkipStops(s[1..]);
      k := n + 1;
      assert s[1..][n..] == s[k..];
      assert forall i :: 0 < i < k ==> s[i] == s[1..][i - 1];
    }
  }

  /** An escape character that opens no sequence stays. */
  lemma LoneEscapeStays(plain: string, rest: string)
    requires ESC !in plain
    requires forall k :: 1 <= k < |rest| && rest[0] == '[' && (forall i :: 1 <= i < k ==> IsParameter(rest[i])) ==>
      !IsLetter(rest[k])
    ensures StripAnsi(plain + ([ESC] + rest)) == plain + ([ESC] + StripAnsi(rest))
  {
    PlainTextStays(plain, [ESC] + rest);
    var s := [ESC] + rest;
    assert s[1..] == rest;
    if |s| >= 2 && s[1] == '[' {
      var k := SkipStops(s[2..]);
      assert forall i :: 1 <= i < k + 1 ==> rest[i] == s[2..][i - 1];
      if k < |s[2..]| {
        assert s[2..][k..][0] == rest[k + 1];
      }
    }
  }

  /** `_PROGRESS_BAR.search(s)` with the pattern `\[[=> ]+\]`. */
  predicate IsBar(s: string) {
    exists i, j :: 0 <= i < j - 1 < |s| - 1 && s[i] == '[' && s[j] == ']' && forall k :: i < k < j ==>
      s[k] in {'=', '>', ' '}
  }

  /** Each run of neighbouring progress bars is represented by its last one. */
  function Collapse(segments: seq<string>): (r: seq<string>)
    ensures segments != [] ==> r != [] && r[|r| - 1] == segments[|segments| - 1]
  {
    if |segments| <= 1 then segments
    else (if IsBar(segments[0]) && IsBar(segments[1]) then [] else [segments[0]]) + Collapse(segments[1..])
  }

  function Segments(parts: seq<string>): (r: seq<string>)
    ensures forall i :: 0 <= i < |r| ==> r[i] != ""
  {
    if parts == [] then []
    else (if Strip(parts[0]) != "" then [Strip(parts[0])] else []) + Segments(parts[1..])
  }

  const CR := '\r'

  function Cleaned(line: string): string {
    var plain := StripAnsi(line);
    if CR !in plain then plain else JoinLines(Collapse(Segments(Split(plain, CR))))
  }

  /** What the first segment adds before a non-empty rest. */
  function Head(first: string, next: string): seq<string> {
    if IsBar(first) && IsBar(next) then [] else [first]
  }

  lemma CollapseStep(first: string, tail: seq<string>)
    requires tail != []
    ensures Collapse([first] + tail) == Head(first, tail[0]) + Collapse(tail)
  {
    assert ([first] + tail)[1..] == tail;
    hide IsBar;
  }

  /** One more segment: it overwrites a bar by a bar, and is appended otherwise. */
  function Overwritten(kept: seq<string>, seg: string): seq<string>
    requires kept != []
  {
    if IsBar(seg) && IsBar(kept[|kept| - 1]) then kept[..|kept| - 1] + [seg] else kept + [seg]
  }

  lemma Prepend(front: seq<string>, rest: seq<string>, seg: string)
    requires rest != []
    ensures Overwritten(front + rest, seg) == front + Overwritten(rest, seg)
  {
    hide IsBar;
    var all := front + rest;
    assert all[|all| - 1] == rest[|rest| - 1];
    if IsBar(seg) && IsBar(rest[|rest| - 1]) {
      assert all[..|all| - 1] == front + rest[..|rest| - 1];
    }
  }

  lemma {:induction false} CollapseAppend(segments: seq<string>, seg: string)
    requires segments != []
    ensures var kept := Collapse(segments);
            Collapse(segments + [seg]) == Overwritten(kept, seg)
  {
    var first, tail := segments[0], segments[1..];
    SseStream.FirstOfConcat(segments, [seg]);
    if |segments| == 1 {
      CollapsePair(first, seg);
    } else {
      CollapseAppend(tail, seg);
      CollapseLonger(first, tail, seg);
    }
    hide IsBar, Collapse;
  }

  lemma CollapseLonger(first: string, tail: seq<string>, seg: string)
    requires tail != []
    requires var kept := Collapse(tail);
             Collapse(tail + [seg]) == Overwritten(kept, seg)
    ensures var kept := Collapse([first] + tail);
            Collapse([first] + (tail + [seg])) == Overwritten(kept, seg)
  {
    hide IsBar, Collapse, Head, Overwritten;
    CollapseStep(first, tail);
    CollapseStep(first, tail + [seg]);
    FirstOfLonger(tail, seg);
    Prepend(Head(first, tail[0]), Collapse(tail), seg);
  }

  lemma FirstOfLonger(tail: seq<string>, seg: string)
    requires tail != []
    ensures (tail + [seg])[0] == tail[0]
  {
  }

  lemma CollapsePair(first: string, seg: string)
    ensures Collapse([first]) == [first] && [first][..0] + [seg] == [seg]
    ensures [first] + ([] + [seg]) == [first] + [seg]
    ensures Collapse([first] + [seg]) == if IsBar(seg) && IsBar(first) then [seg] else [first] + [seg]
  {
    CollapseStep(first, [seg]);
    assert Collapse([seg]) == [seg];
  }

  /** The loop of `_clean` over the segments of a line. */
  method CollapseBars(segments: seq<string>) returns (kept: seq<string>)
    ensures kept == Collapse(segments)
  {
    hide IsBar, Collapse, Overwritten;
    kept := [];
    CollapseEnds(segments);
    for i := 0 to |segments|
      invariant kept == Collapse(segments[..i])
    {
      var seg := segments[i];
      CollapseNext(segments, i);
      if kept == [] {
        kept := [seg];
      } else {
        OverwrittenIs(kept, seg);
        if IsBar(seg) && IsBar(kept[|kept| - 1]) {
          kept := kept[..|kept| - 1] + [seg];
        } else {
          kept := kept + [seg];
        }
      }
    }
  }

  lemma CollapseEnds(segments: seq<string>)
    ensures Collapse(segments[..0]) == [] && segments[..|segments|] == segments
  {
  }

  lemma OverwrittenIs(kept: seq<string>, seg: string)
    requires kept != []
    ensures Overwritten(kept, seg)
            == if IsBar(seg) && IsBar(kept[|kept| - 1]) then kept[..|kept| - 1] + [seg] else kept + [seg]
  {
    hide IsBar;
  }

  /** What one turn of the loop has to achieve. */
  lemma CollapseNext(segments: seq<string>, i: nat)
    requires i < |segments|
    ensures var kept := Collapse(segments[..i]);
            && (kept == [] <==> i == 0)
            && Collapse(segments[..i + 1]) == if kept == [] then [segments[i]] else Overwritten(kept, segments[i])
  {
    SseStream.SnocOfPrefix(segments, i);
    if i == 0 {
      assert segments[..0] == [] && segments[..1] == [segments[0]];
    } else {
      CollapseAppend(segments[..i], segments[i]);
      hide Collapse, Overwritten;
    }
  }

  method Clean(line: string) returns (r: string)
    ensures r == Cleaned(line)
  {
    var plain := StripAnsi(line);
    if CR !in plain {
      return plain;
    }
    var segments := Segments(Split(plain, CR));
    if segments == [] {
      return "";
    }
    if |segments| == 1 {
      return segments[0];
    }
    var kept := CollapseBars(segments);
    r := JoinLines(kept);
  }

  // ── What cleaning keeps, told from the parts of the line ──

  /** j is the next part after i that is not blank. */
  predicate Follows(parts: seq<string>, i: nat, j: nat) {
    i < j < |parts| && Strip(parts[j]) != "" && forall k :: i < k < j ==> Strip(parts[k]) == ""
  }

  /** A part stays unless it is blank, or is a bar and the next part that is not blank is one too. */
  predicate Stays(parts: seq<string>, i: nat)
    requires i < |parts|
  {
    && Strip(parts[i]) != ""
    && !(IsBar(Strip(parts[i])) && exists j :: i < j < |parts| && Follows(parts, i, j) && IsBar(Strip(parts[j])))
  }

  /** The places, from k on, of the parts that stay, in order. */
  function Staying(parts: seq<string>, k: nat): (r: seq<nat>)
    requires k <= |parts|
    ensures forall a :: 0 <= a < |r| ==> k <= r[a] < |parts|
    decreases |parts| - k
  {
    if k == |parts| then [] else (if Stays(parts, k) then [k] else []) + Staying(parts, k + 1)
  }

  lemma {:induction false} StayingAre(parts: seq<string>, k: nat)
    requires k <= |parts|
    ensures forall a :: 0 <= a < |Staying(parts, k)| ==> Stays(parts, Staying(parts, k)[a])
    ensures forall i :: k <= i < |parts| && Stays(parts, i) ==> i in Staying(parts, k)
    ensures forall a, b :: 0 <= a < b < |Staying(parts, k)| ==> Staying(parts, k)[a] < Staying(parts, k)[b]
    decreases |parts| - k
  {
    hide Stays;
    if k < |parts| {
      StayingAre(parts, k + 1);
    }
  }

  function Trimmed(parts: seq<string>, places: seq<nat>): (r: seq<string>)
    requires forall a :: 0 <= a < |places| ==> places[a] < |parts|
    ensures |r| == |places| && forall a :: 0 <= a < |r| ==> r[a] == Strip(parts[places[a]])
  {
    seq(|places|, a requires 0 <= a < |places| => Strip(parts[places[a]]))
  }

  lemma {:induction false} FirstSegment(parts: seq<string>, k: nat) returns (j: nat)
    requires k < |parts|
    ensures Segments(parts[k + 1..]) == [] ==> forall i :: k < i < |parts| ==> Strip(parts[i]) == ""
    ensures Segments(parts[k + 1..]) != [] ==>
      Follows(parts, k, j) && Segments(parts[k + 1..])[0] == Strip(parts[j])
    decreases |parts| - k
  {
    hide Strip;
    j := k + 1;
    if k + 1 < |parts| {
      var rest := parts[k + 1..];
      assert rest[0] == parts[k + 1] && rest[1..] == parts[k + 2..];
      if Strip(parts[k + 1]) == "" {
        j := FirstSegment(parts, k + 1);
      }
    }
  }

  lemma {:induction false} CollapsedAre(parts: seq<string>, k: nat)
    requires k <= |parts|
    ensures Collapse(Segments(parts[k..])) == Trimmed(parts, Staying(parts, k))
    decreases |parts| - k
  {
    hide Strip, IsBar, Stays, Follows, Segments, Collapse;
    if k == |parts| {
      NothingCollapsed(parts);
    } else {
      CollapsedAre(parts, k + 1);
      var j := FirstSegment(parts, k);
      SegmentsFrom(parts, k);
      StaysIf(parts, k, j);
      FirstStays(Strip(parts[k]), Stays(parts, k), Segments(parts[k + 1..]));
      StayingFrom(parts, k);
    }
  }

  lemma NothingCollapsed(parts: seq<string>)
    ensures Collapse(Segments(parts[|parts|..])) == [] == Trimmed(parts, Staying(parts, |parts|))
  {
  }

  lemma FirstStays(x: string, stays: bool, rest: seq<string>)
    requires stays <==> x != "" && !(rest != [] && IsBar(x) && IsBar(rest[0]))
    ensures Collapse((if x != "" then [x] else []) + rest) == (if stays then [x] else []) + Collapse(rest)
  {
    hide IsBar;
    if x == "" {
      assert [] + rest == rest && [] + Collapse(rest) == Collapse(rest);
    } else if rest == [] {
      assert [x] + rest == [x] && [x] + Collapse(rest) == [x];
    } else {
      CollapseStep(x, rest);
    }
  }

  lemma SegmentsFrom(parts: seq<string>, k: nat)
    requires k < |parts|
    ensures Segments(parts[k..])
            == (if Strip(parts[k]) != "" then [Strip(parts[k])] else []) + Segments(parts[k + 1..])
  {
    hide Strip;
    assert parts[k..][0] == parts[k] && parts[k..][1..] == parts[k + 1..];
  }

  lemma StayingFrom(parts: seq<string>, k: nat)
    requires k < |parts|
    ensures Trimmed(parts, Staying(parts, k))
            == (if Stays(parts, k) then [Strip(parts[k])] else []) + Trimmed(parts, Staying(parts, k + 1))
  {
    hide Strip, Stays;
  }

  lemma StaysIf(parts: seq<string>, k: nat, j: nat)
    requires k < |parts|
    requires var rest := Segments(parts[k + 1..]);
             if rest == [] then forall i :: k < i < |parts| ==> Strip(parts[i]) == ""
             else Follows(parts, k, j) && rest[0] == Strip(parts[j])
    ensures var rest := Segments(parts[k + 1..]);
            Stays(parts, k)
            <==> Strip(parts[k]) != "" && !(rest != [] && IsBar(Strip(parts[k])) && IsBar(rest[0]))
  {
    hide Strip, IsBar, Segments;
    var rest := Segments(parts[k + 1..]);
    forall i: nat | Follows(parts, k, i)
      ensures rest != [] && i == j
    {
    }
  }

  /** For every line: without a carriage return only its escapes go. Otherwise it becomes its parts
      between carriage returns, trimmed and in their order, one to a line, without the blank ones
      and with each run of neighbouring bars replaced by its last. */
  lemma CleanedIs(line: string, parts: seq<string>)
    requires |parts| > 0 && forall i :: 0 <= i < |parts| ==> CR !in parts[i]
    requires StripAnsi(line) == Join(parts, CR)
    ensures |parts| == 1 ==> Cleaned(line) == parts[0]
    ensures |parts| > 1 ==> Cleaned(line) == JoinLines(Trimmed(parts, Staying(parts, 0)))
    ensures var places := Staying(parts, 0);
            && (forall i: nat :: i in places <==> i < |parts| && Stays(parts, i))
            && (forall a, b :: 0 <= a < b < |places| ==> places[a] < places[b])
  {
    StayingAre(parts, 0);
    SplitOfJoinAt(parts, CR);
    if |parts| > 1 {
      SplitHasSeparator(StripAnsi(line), CR);
      CollapsedAre(parts, 0);
      assert parts[0..] == parts;
    }
    hide StripAnsi, Split, Join, Collapse, Segments, Staying, Stays, Trimmed;
  }

  lemma SplitHasSeparator(s: string, sep: char)
    ensures sep !in s ==> |Split(s, sep)| == 1
  {
    if sep !in s {
      SplitWithout(s, sep);
    }
  }

  function WithoutBars(segments: seq<string>): seq<string> {
    if segments == [] then []
    else (if IsBar(segments[0]) then [] else [segments[0]]) + WithoutBars(segments[1..])
  }

  /** Only bars are dropped, no two bars stay neighbours, and the last segment stays. */
  lemma {:induction false} CollapseKeepsText(segments: seq<string>)
    ensures WithoutBars(Collapse(segments)) == WithoutBars(segments)
    ensures forall i :: 0 <= i < |Collapse(segments)| - 1 ==>
      !(IsBar(Collapse(segments)[i]) && IsBar(Collapse(segments)[i + 1]))
    ensures segments != [] && !IsBar(segments[0]) ==> Collapse(segments)[0] == segments[0]
    ensures segments != [] && IsBar(segments[0]) ==> IsBar(Collapse(segments)[0])
  {
    hide IsBar;
    if |segments| > 1 {
      CollapseKeepsText(segments[1..]);
      var rest := Collapse(segments[1..]);
      if !(IsBar(segments[0]) && IsBar(segments[1])) {
        assert Collapse(segments) == [segments[0]] + rest;
        assert Collapse(segments)[1..] == rest;
      } else {
        assert Collapse(segments) == rest;
      }
    }
  }

  /** Collapsing an already collapsed line changes nothing. */
  lemma {:induction false} CollapseIsFixed(segments: seq<string>)
    requires forall i :: 0 <= i < |segments| - 1 ==> !(IsBar(segments[i]) && IsBar(segments[i + 1]))
    ensures Collapse(segments) == segments
  {
    hide IsBar;
    if |segments| > 1 {
      CollapseIsFixed(segments[1..]);
    }
  }

  // ── Batching ──

  const BATCH := 50

  /** The non-empty cleaned lines of one read. */
  function Taken(parts: seq<string>): (r: seq<string>)
    ensures forall i :: 0 <= i < |r| ==> r[i] != ""
  {
    if parts == [] then []
    else
      var line := Cleaned(parts[|parts| - 1]);
      Taken(parts[..|parts| - 1]) + if line != "" then [line] else []
  }

  function Read(data: string): seq<string> {
    Taken(SplitLines(data))
  }

  /** The first n batches of fifty lines. */
  function Batches(lines: seq<string>, n: nat): (r: seq<string>)
    requires n * BATCH <= |lines|
    ensures |r| == n
  {
    if n == 0 then [] else Batches(lines, n - 1) + [JoinLines(lines[(n - 1) * BATCH..n * BATCH])]
  }

  function FullBatches(lines: seq<string>): seq<string> {
    Batches(lines, |lines| / BATCH)
  }

  function Partial(lines: seq<string>): (r: seq<string>)
    ensures |r| < BATCH
  {
    lines[|lines| / BATCH * BATCH..]
  }

  function LastBatch(lines: seq<string>): seq<string> {
    if lines == [] then [] else [JoinLines(lines)]
  }

  lemma {:induction false} BatchesOfPrefix(lines: seq<string>, more: seq<string>, n: nat)
    requires n * BATCH <= |lines|
    ensures Batches(lines + more, n) == Batches(lines, n)
  {
    if n > 0 {
      BatchesOfPrefix(lines, more, n - 1);
      assert (lines + more)[(n - 1) * BATCH..n * BATCH] == lines[(n - 1) * BATCH..n * BATCH];
    }
  }

  lemma BatchStep(lines: seq<string>, line: string)
    ensures var all, kept := lines + [line], Partial(lines) + [line];
            if |kept| == BATCH then FullBatches(all) == FullBatches(lines) + [JoinLines(kept)] && Partial(all) == []
            else FullBatches(all) == FullBatches(lines) && Partial(all) == kept
  {
    var n := |lines| / BATCH;
    BatchesOfPrefix(lines, [line], n);
    if |Partial(lines)| + 1 == BATCH {
      assert |lines + [line]| == (n + 1) * BATCH;
      assert (lines + [line])[n * BATCH..(n + 1) * BATCH] == Partial(lines) + [line];
    } else {
      assert |lines + [line]| / BATCH == n;
    }
  }

  /** Full batches and the rest hold every line once, in order. */
  lemma {:induction false} BatchesJoin(lines: seq<string>, n: nat)
    requires 0 < n && n * BATCH <= |lines|
    ensures JoinLines(Batches(lines, n)) == JoinLines(lines[..n * BATCH])
  {
    var last := lines[(n - 1) * BATCH..n * BATCH];
    if n == 1 {
      assert lines[..BATCH] == last;
    } else {
      BatchesJoin(lines, n - 1);
      JoinOfConcat(Batches(lines, n - 1), [JoinLines(last)]);
      JoinOfConcat(lines[..(n - 1) * BATCH], last);
      assert lines[..n * BATCH] == lines[..(n - 1) * BATCH] + last;
    }
  }

  lemma BatchesLoseNothing(lines: seq<string>, late: seq<string>)
    ensures JoinLines(FullBatches(lines) + LastBatch(Partial(lines) + late)) == JoinLines(lines + late)
  {
    var n, rest := |lines| / BATCH, Partial(lines) + late;
    var head := lines[..n * BATCH];
    assert lines + late == head + rest;
    if n == 0 {
      assert rest == lines + late;
      assert [] + LastBatch(rest) == LastBatch(rest);
    } else {
      BatchesJoin(lines, n);
      if rest == [] {
        assert FullBatches(lines) + [] == FullBatches(lines) && head + rest == head;
      } else {
        JoinOfConcat(FullBatches(lines), [JoinLines(rest)]);
        JoinOfConcat(head, rest);
      }
    }
  }

  // ── The read loop ──

  /** One turn of the main loop: the cancel check, then what stdout and stderr had ready. */
  datatype Poll = Poll(cancelled: bool, out: Option<string>, err: Option<string>)

  /** What one drain attempt finds after the exit status. */
  datatype Attempt = Attempt(outs: seq<string>, errs: seq<string>)

  datatype Outcome = Returned(output: string, exitCode: int) | Cancelled

  function ReadReady(data: Option<string>): seq<string> {
    if data.Some? then Read(data.value) else []
  }

  /** Turns of the main loop before a cancel is seen. */
  function TurnsUntilCancel(polls: seq<Poll>): (n: nat)
    ensures n <= |polls| && (n < |polls| ==> polls[n].cancelled)
    ensures forall k :: 0 <= k < n ==> !polls[k].cancelled
  {
    if polls == [] || polls[0].cancelled then 0 else 1 + TurnsUntilCancel(polls[1..])
  }

  function PollLines(polls: seq<Poll>): (r: seq<string>)
    ensures forall i :: 0 <= i < |r| ==> r[i] != ""
  {
    if polls == [] then []
    else
      var last := polls[|polls| - 1];
      PollLines(polls[..|polls| - 1]) + ReadReady(last.out) + ReadReady(last.err)
  }

  /** Lines read by the main loop. */
  function MainLines(polls: seq<Poll>): seq<string> {
    PollLines(polls[..TurnsUntilCancel(polls)])
  }

  function ReadAll(chunks: seq<string>): (r: seq<string>)
    ensures forall i :: 0 <= i < |r| ==> r[i] != ""
  {
    if chunks == [] then [] else ReadAll(chunks[..|chunks| - 1]) + Read(chunks[|chunks| - 1])
  }

  predicate FindsNothing(a: Attempt) {
    a.outs == [] && a.errs == []
  }

  /** Drain attempts that read something: at most `tries`, stopping at the first empty one. */
  function AttemptsUsed(attempts: seq<Attempt>, tries: nat): (n: nat)
    ensures n <= tries && n <= |attempts|
    ensures forall k :: 0 <= k < n ==> !FindsNothing(attempts[k])
    ensures n < tries && n < |attempts| ==> FindsNothing(attempts[n])
    decreases tries
  {
    if tries == 0 || attempts == [] || FindsNothing(attempts[0]) then 0 else 1 + AttemptsUsed(attempts[1..], tries - 1)
  }

  function AttemptLines(attempts: seq<Attempt>): (r: seq<string>)
    ensures forall i :: 0 <= i < |r| ==> r[i] != ""
  {
    if attempts == [] then []
    else
      var last := attempts[|attempts| - 1];
      AttemptLines(attempts[..|attempts| - 1]) + ReadAll(last.outs) + ReadAll(last.errs)
  }

  const DRAIN_TRIES := 5

  /** Lines read after the exit status. */
  function LateLines(attempts: seq<Attempt>): seq<string> {
    AttemptLines(attempts[..AttemptsUsed(attempts, DRAIN_TRIES)])
  }

  lemma Grow(start: seq<string>, a: seq<string>, b: seq<string>)
    ensures (start + a) + b == start + (a + b)
  {
  }

  class LogPump {
    var allOutput: seq<string>
    var buffer: seq<string>
    var sent: seq<string>

    constructor ()
      ensures allOutput == buffer == sent == []
    {
      allOutput, buffer, sent := [], [], [];
    }

    /** Every full batch has been sent and the rest waits. */
    ghost predicate InStep()
      reads this
    {
      sent == FullBatches(allOutput) && buffer == Partial(allOutput)
    }

    method Flush()
      modifies this
      ensures buffer == [] && allOutput == old(allOutput) && sent == old(sent) + LastBatch(old(buffer))
    {
      if buffer != [] {
        sent := sent + [JoinLines(buffer)];
        buffer := [];
      }
    }

    method Take(data: string)
      requires InStep()
      modifies this
      ensures InStep() && allOutput == old(allOutput) + Read(data)
    {
      ghost var start := allOutput;
      var parts := SplitLines(data);
      hide Cleaned, FullBatches, Partial;
      for i := 0 to |parts|
        invariant InStep()
        invariant allOutput == start + Taken(parts[..i])
      {
        var line := Clean(parts[i]);
        assert parts[..i + 1][..i] == parts[..i];
        Grow(start, Taken(parts[..i]), [line]);
        if line != "" {
          BatchStep(allOutput, line);
          allOutput := allOutput + [line];
          buffer := buffer + [line];
          if |buffer| >= BATCH {
            Flush();
          }
        }
      }
      assert parts[..|parts|] == parts;
    }

    method TakeReady(data: Option<string>)
      requires InStep()
      modifies this
      ensures InStep() && allOutput == old(allOutput) + ReadReady(data)
    {
      if data.Some? {
        Take(data.value);
      }
    }

    /** The same loop while draining: nothing is flushed. */
    method TakeLate(data: string)
      modifies this
      ensures sent == old(sent) && allOutput == old(allOutput) + Read(data) && buffer == old(buffer) + Read(data)
    {
      ghost var output, waiting := allOutput, buffer;
      var parts := SplitLines(data);
      hide Cleaned;
      for i := 0 to |parts|
        invariant sent == old(sent)
        invariant allOutput == output + Taken(parts[..i]) && buffer == waiting + Taken(parts[..i])
      {
        var line := Clean(parts[i]);
        assert parts[..i + 1][..i] == parts[..i];
        Grow(output, Taken(parts[..i]), [line]);
        Grow(waiting, Taken(parts[..i]), [line]);
        if line != "" {
          allOutput := allOutput + [line];
          buffer := buffer + [line];
        }
      }
      assert parts[..|parts|] == parts;
    }

    method TakeAllLate(chunks: seq<string>)
      modifies this
      ensures sent == old(sent) && allOutput == old(allOutput) + ReadAll(chunks)
        && buffer == old(buffer) + ReadAll(chunks)
    {
      ghost var output, waiting := allOutput, buffer;
      hide Read;
      for i := 0 to |chunks|
        invariant sent == old(sent)
        invariant allOutput == output + ReadAll(chunks[..i]) && buffer == waiting + ReadAll(chunks[..i])
      {
        assert chunks[..i + 1][..i] == chunks[..i];
        Grow(output, ReadAll(chunks[..i]), Read(chunks[i]));
        Grow(waiting, ReadAll(chunks[..i]), Read(chunks[i]));
        TakeLate(chunks[i]);
      }
      assert chunks[..|chunks|] == chunks;
    }

    method Drain(attempts: seq<Attempt>)
      modifies this
      ensures sent == old(sent) && allOutput == old(allOutput) + LateLines(attempts)
        && buffer == old(buffer) + LateLines(attempts)
      ensures LateLines(attempts) == AttemptLines(attempts[..AttemptsUsed(attempts, 5)])
    {
      ghost var output, waiting := allOutput, buffer;
      var i := 0;
      hide ReadAll;
      while i < DRAIN_TRIES && i < |attempts| && !FindsNothing(attempts[i])
        invariant 0 <= i <= |attempts| && i <= DRAIN_TRIES && sent == old(sent)
        invariant forall k :: 0 <= k < i ==> !FindsNothing(attempts[k])
        invariant allOutput == output + AttemptLines(attempts[..i]) && buffer == waiting + AttemptLines(attempts[..i])
      {
        ghost var before, outs, errs := AttemptLines(attempts[..i]), ReadAll(attempts[i].outs),
          ReadAll(attempts[i].errs);
        assert attempts[..i + 1][..i] == attempts[..i];
        Grow(output, before, outs);
        Grow(output, before + outs, errs);
        Grow(waiting, before, outs);
        Grow(waiting, before + outs, errs);
        TakeAllLate(attempts[i].outs);
        TakeAllLate(attempts[i].errs);
        i := i + 1;
      }
      assert i == AttemptsUsed(attempts, DRAIN_TRIES);
    }

    /** The main loop; true when it stopped at a cancel. */
    method Pump(polls: seq<Poll>) returns (cancelled: bool)
      requires InStep() && allOutput == []
      modifies this
      ensures InStep() && allOutput == MainLines(polls)
      ensures cancelled <==> exists i :: 0 <= i < |polls| && polls[i].cancelled
    {
      var i := 0;
      hide ReadReady, FullBatches, Partial;
      while i < |polls| && !polls[i].cancelled
        invariant 0 <= i <= |polls| && InStep()
        invariant forall k :: 0 <= k < i ==> !polls[k].cancelled
        invariant allOutput == PollLines(polls[..i])
      {
        assert polls[..i + 1][..i] == polls[..i];
        TakeReady(polls[i].out);
        TakeReady(polls[i].err);
        i := i + 1;
      }
      assert i == TurnsUntilCancel(polls);
      cancelled := i < |polls|;
    }
  }

  const CANCEL_NOTE := "\n[deploy cancelled by user]"

  /** `ssh_exec_stream`: an uncancelled run returns every line once, in order, and what it sent to
      the callback is that same text in batches; a cancelled run has sent the full batches and the
      note, and drops the partial one. */
  method SshExecStream(polls: seq<Poll>, exitStatus: Option<int>, attempts: seq<Attempt>) returns (outcome: Outcome,
          batches: seq<string>)
    ensures outcome.Cancelled? <==> exists i :: 0 <= i < |polls| && polls[i].cancelled
    ensures outcome.Cancelled? ==> batches == FullBatches(MainLines(polls)) + ["\n[deploy cancelled by user]"]
    ensures outcome.Returned? ==> outcome.exitCode == if exitStatus.Some? then exitStatus.value else 1
    ensures outcome.Returned? ==> outcome.output == JoinLines(MainLines(polls) + LateLines(attempts))
    ensures outcome.Returned? ==> JoinLines(batches) == outcome.output && (outcome.output == "" <==> batches == [])
    ensures outcome.Returned? ==> forall k :: 0 <= k < |MainLines(polls)| / 50 ==>
      k < |batches| && batches[k] == JoinLines(MainLines(polls)[50 * k..50 * (k + 1)])
    ensures outcome.Returned? ==>
      |batches| == |MainLines(polls)| / 50 + if |MainLines(polls)| % 50 == 0 && LateLines(attempts) == [] then 0 else 1
  {
    var pump := new LogPump();
    var cancelled := pump.Pump(polls);
    hide PollLines, TurnsUntilCancel;
    if cancelled {
      batches := pump.sent + [CANCEL_NOTE];
      return Cancelled, batches;
    }
    ghost var lines, late := pump.allOutput, LateLines(attempts);
    pump.Drain(attempts);
    pump.Flush();
    batches := pump.sent;
    hide LateLines, LastBatch, Partial;
    BatchesLoseNothing(lines, late);
    FullBatchesAre(lines);
    LastBatchIs(lines, late);
    EmptyOnlyIfNothing(lines, late);
    outcome := Returned(JoinLines(pump.allOutput), if exitStatus.Some? then exitStatus.value else 1);
  }

  lemma {:induction false} BatchAt(lines: seq<string>, n: nat, k: nat)
    requires k < n && n * BATCH <= |lines|
    ensures Batches(lines, n)[k] == JoinLines(lines[k * BATCH..(k + 1) * BATCH])
  {
    hide JoinLines;
    if k < n - 1 {
      BatchAt(lines, n - 1, k);
    }
  }

  lemma FullBatchesAre(lines: seq<string>)
    ensures |FullBatches(lines)| == |lines| / 50
    ensures forall k :: 0 <= k < |lines| / 50 ==> FullBatches(lines)[k] == JoinLines(lines[50 * k..50 * (k + 1)])
  {
    hide JoinLines;
    forall k | 0 <= k < |lines| / 50
      ensures FullBatches(lines)[k] == JoinLines(lines[50 * k..50 * (k + 1)])
    {
      BatchAt(lines, |lines| / BATCH, k);
    }
  }

  lemma LastBatchIs(lines: seq<string>, late: seq<string>)
    ensures |LastBatch(Partial(lines) + late)| == if |lines| % 50 == 0 && late == [] then 0 else 1
  {
    assert |Partial(lines)| == |lines| % 50;
    hide JoinLines, Partial;
  }

  /** The output of a turn is what stdout had, then what stderr had, and turns follow each other; the
      same holds for the attempts to drain, each of which reads all of stdout first. */
  lemma {:induction false} OutputIsInOrder(polls: seq<Poll>, poll: Poll, attempts: seq<Attempt>, attempt: Attempt)
    ensures PollLines(polls + [poll])
      == PollLines(polls) + ((if poll.out.Some? then Read(poll.out.value) else [])
                             + if poll.err.Some? then Read(poll.err.value) else [])
    ensures AttemptLines(attempts + [attempt])
      == AttemptLines(attempts) + (ReadAll(attempt.outs) + ReadAll(attempt.errs))
  {
    hide Read, ReadAll;
    assert (polls + [poll])[..|polls|] == polls && (attempts + [attempt])[..|attempts|] == attempts;
  }

  lemma {:induction false} ReadAllInOrder(a: seq<string>, b: seq<string>)
    ensures ReadAll(a + b) == ReadAll(a) + ReadAll(b)
    decreases |b|
  {
    hide Read;
    if b == [] {
      assert a + b == a;
    } else {
      var n := |b| - 1;
      ReadAllInOrder(a, b[..n]);
      assert (a + b)[..|a + b| - 1] == a + b[..n];
      Grow(ReadAll(a), ReadAll(b[..n]), Read(b[n]));
    }
  }

  lemma ReadAllOfOne(chunk: string)
    ensures ReadAll([chunk]) == Read(chunk)
  {
    hide Read;
    assert [chunk][..0] == [];
  }

  lemma EmptyOnlyIfNothing(lines: seq<string>, late: seq<string>)
    requires forall i :: 0 <= i < |lines| ==> lines[i] != ""
    requires forall i :: 0 <= i < |late| ==> late[i] != ""
    ensures JoinLines(lines + late) == "" <==> FullBatches(lines) + LastBatch(Partial(lines) + late) == []
  {
    var all := lines + late;
    assert all != [] ==> all[0] != "";
    assert |lines| > 0 && Partial(lines) == [] ==> |lines| / BATCH > 0;
  }

  // ── To the page ──

  lemma AppendedStep(m: string, rest: seq<string>, render: string -> string)
    ensures SseClient.Appended([m] + rest, render) == SseClient.Appended([m], render) + SseClient.Appended(rest, render)
  {
    assert ([m] + rest)[1..] == rest && [m][1..] == [];
  }

  lemma {:induction false} AppendedConcat(a: seq<string>, b: seq<string>, render: string -> string)
    ensures SseClient.Appended(a + b, render) == SseClient.Appended(a, render) + SseClient.Appended(b, render)
  {
    if a == [] {
      assert a + b == b;
    } else {
      var m, rest := a[0], a[1..];
      AppendedConcat(rest, b, render);
      AppendedStep(m, rest + b, render);
      AppendedStep(m, rest, render);
      hide SseClient.Appended;
      SseStream.FirstOfConcat(a, b);
      SseStream.Regroup(SseClient.Appended([m], render), SseClient.Appended(rest, render),
        SseClient.Appended(b, render));
    }
  }

  lemma {:induction false} VerbatimIsAppended(batches: seq<string>, render: string -> string)
    requires forall i :: 0 <= i < |batches| ==>
      SseClient.Verbatim(batches[i]) && !StartsWith(batches[i], SseClient.STATUS)
    ensures SseClient.Appended(batches, render) == SseClient.LogText(batches)
  {
    if batches != [] {
      VerbatimIsAppended(batches[1..], render);
    }
  }

  /** End to end: among any other log messages, a command's whole output appears on the page as one
      uninterrupted block with a line end, when no batch reads as a command or a keep-alive. */
  lemma OutputReachesPage(initial: string, before: seq<string>, batches: seq<string>, after: seq<string>,
          polls: seq<SseStream.Polled>,
                          success: bool, numbered: bool, chunks: seq<string>, render: string -> string)
    requires batches != [] && SseClient.Texts(polls) == before + batches + after
    requires forall i :: 0 <= i < |batches| ==>
      SseClient.Verbatim(batches[i]) && !StartsWith(batches[i], SseClient.STATUS)
    requires forall i :: 0 <= i < |before| ==> !SseClient.Deciding(before[i])
    requires forall i :: 0 <= i < |after| ==> !SseClient.Deciding(after[i])
    requires SseStream.Flatten(chunks)
      == SseStream.Stream(SseStream.Events(polls, numbered) + [SseClient.EndEvent(success, numbered)])
    ensures SseClient.Consume(SseClient.Page(initial, SseClient.Open), SseClient.Datas(SseStream.Feed("", chunks).0),
      render)
         == SseClient.Page(initial + SseClient.Appended(before, render) + JoinLines(batches) + "\n"
           + SseClient.Appended(after, render), SseClient.Ended(success))
  {
    PartsAreNotDeciding(before, batches, after);
    SseClient.LiveLog(initial, polls, success, numbered, chunks, render);
    AppendedAround(before, batches, after, render);
    hide *;
    Regroup4(initial, SseClient.Appended(before, render), JoinLines(batches), SseClient.Appended(after, render));
  }

  lemma Regroup4(a: string, b: string, c: string, d: string)
    ensures a + (b + (c + "\n") + d) == a + b + c + "\n" + d
  {
  }

  lemma AppendedAround(before: seq<string>, batches: seq<string>, after: seq<string>, render: string -> string)
    requires batches != []
    requires forall i :: 0 <= i < |batches| ==>
      SseClient.Verbatim(batches[i]) && !StartsWith(batches[i], SseClient.STATUS)
    ensures SseClient.Appended(before + batches + after, render)
         == SseClient.Appended(before, render) + (JoinLines(batches) + "\n") + SseClient.Appended(after, render)
  {
    AppendedConcat(before + batches, after, render);
    AppendedConcat(before, batches, render);
    VerbatimIsAppended(batches, render);
    SseClient.LogTextIsJoin(batches);
    hide *;
  }

  lemma PartsAreNotDeciding(before: seq<string>, batches: seq<string>, after: seq<string>)
    requires forall i :: 0 <= i < |batches| ==> SseClient.Verbatim(batches[i])
    requires forall i :: 0 <= i < |before| ==> !SseClient.Deciding(before[i])
    requires forall i :: 0 <= i < |after| ==> !SseClient.Deciding(after[i])
    ensures var all := before + batches + after; forall i :: 0 <= i < |all| ==> !SseClient.Deciding(all[i])
  {
    forall i | 0 <= i < |batches|
      ensures !SseClient.Deciding(batches[i])
    {
      assert SseClient.Verbatim(batches[i]);
    }
    hide SseClient.Deciding, SseClient.Verbatim;
  }

  // ── Where a read may end ──

  predicate IsPlain(s: string) {
    ESC !in s && CR !in s
  }

  lemma PlainIsClean(line: string)
    requires IsPlain(line)
    ensures Cleaned(line) == line
  {
    PlainTextStays(line, "");
    assert line + "" == line;
  }

  lemma {:induction false} TakenConcat(a: seq<string>, b: seq<string>)
    ensures Taken(a + b) == Taken(a) + Taken(b)
    decreases |b|
  {
    hide Cleaned;
    if b == [] {
      assert a + b == a;
    } else {
      var n := |b| - 1;
      TakenConcat(a, b[..n]);
      assert (a + b)[..|a + b| - 1] == a + b[..n];
      var line := Cleaned(b[n]);
      Grow(Taken(a), Taken(b[..n]), if line != "" then [line] else []);
    }
  }

  lemma TakenOne(line: string)
    requires IsPlain(line)
    ensures Taken([line]) == Line(line)
  {
    PlainIsClean(line);
    hide Cleaned;
    assert [line][..0] == [];
    assert Taken([line]) == [] + Line(line);
  }

  /** Where two texts meet, the last line of the first continues in the first line of the second. */
  lemma {:induction false} SplitOfConcat(a: string, b: string)
    ensures var p, q := SplitLines(a), SplitLines(b);
            SplitLines(a + b) == p[..|p| - 1] + ([p[|p| - 1] + q[0]] + q[1..])
  {
    if a == "" {
      SplitOfNothing(b);
    } else {
      hide SplitLines;
      SplitOfConcat(a[1..], b);
      RestOfConcat(a, b);
      SseStream.SplitStep(a);
      SseStream.SplitStep(a + b);
      if a[0] == LF {
        EmptyLineFirst(SplitLines(a[1..]), SplitLines(b));
      } else {
        FirstLineGrows(a[0], SplitLines(a[1..]), SplitLines(b), SplitLines(a));
      }
    }
  }

  lemma SplitOfNothing(b: string)
    ensures var p, q := SplitLines(""), SplitLines(b);
            SplitLines("" + b) == p[..|p| - 1] + ([p[|p| - 1] + q[0]] + q[1..])
  {
    var q := SplitLines(b);
    assert "" + b == b && SplitLines("") == [""];
    hide SplitLines;
    assert "" + q[0] == q[0];
    assert q == [] + ([q[0]] + q[1..]);
  }

  lemma RestOfConcat(a: string, b: string)
    requires a != ""
    ensures (a + b)[1..] == a[1..] + b && (a + b)[0] == a[0] && a + b != ""
  {
  }

  lemma EmptyLineFirst(r: seq<string>, q: seq<string>)
    requires r != [] && q != []
    ensures var p := [""] + r;
            [""] + (r[..|r| - 1] + ([r[|r| - 1] + q[0]] + q[1..])) == p[..|p| - 1] + ([p[|p| - 1] + q[0]] + q[1..])
  {
    var p, back := [""] + r, [r[|r| - 1] + q[0]] + q[1..];
    assert p[|p| - 1] == r[|r| - 1];
    assert p[..|p| - 1] == [""] + r[..|r| - 1];
    SseStream.ConcatIsAssociative([""], r[..|r| - 1], back);
  }

  lemma FirstLineGrows(c: char, r: seq<string>, q: seq<string>, p: seq<string>)
    requires r != [] && q != [] && p == [[c] + r[0]] + r[1..]
    ensures var rest := r[..|r| - 1] + ([r[|r| - 1] + q[0]] + q[1..]);
            [[c] + rest[0]] + rest[1..] == p[..|p| - 1] + ([p[|p| - 1] + q[0]] + q[1..])
  {
    var rest := r[..|r| - 1] + ([r[|r| - 1] + q[0]] + q[1..]);
    if |r| == 1 {
      assert rest == [r[0] + q[0]] + q[1..];
      assert [c] + (r[0] + q[0]) == ([c] + r[0]) + q[0];
      assert p == [[c] + r[0]];
    } else {
      assert rest[0] == r[0] && p[|p| - 1] == r[|r| - 1];
    }
  }

  lemma {:induction false} LastLine(a: string)
    ensures var p := SplitLines(a); p[|p| - 1] == "" <==> a == "" || a[|a| - 1] == LF
  {
    if a != "" {
      LastLine(a[1..]);
      SseStream.SplitStep(a);
      hide SplitLines;
    }
  }

  lemma FirstLine(b: string)
    ensures SplitLines(b)[0] == "" <==> b == "" || b[0] == LF
  {
    if b != "" {
      SseStream.SplitStep(b);
    }
  }

  lemma {:induction false} PlainLines(s: string)
    requires IsPlain(s)
    ensures forall i :: 0 <= i < |SplitLines(s)| ==> IsPlain(SplitLines(s)[i])
  {
    if s != "" {
      PlainLines(s[1..]);
      SseStream.SplitStep(s);
      hide SplitLines;
    }
  }

  /** Exactly where the end of a read leaves no trace in the log, for text without escapes and
      carriage returns: at a line feed, or where nothing was read on one side. Anywhere else the
      line that was cut is logged as two. */
  lemma ReadBoundaryIsInvisibleIff(a: string, b: string)
    requires IsPlain(a) && IsPlain(b)
    ensures Read(a + b) == Read(a) + Read(b) <==> a == "" || b == "" || a[|a| - 1] == LF || b[0] == LF
  {
    var p, q := SplitLines(a), SplitLines(b);
    var x, y, front, back := p[|p| - 1], q[0], p[..|p| - 1], q[1..];
    PlainLines(a);
    PlainLines(b);
    LastLine(a);
    FirstLine(b);
    SplitOfConcat(a, b);
    assert p == front + [x] && q == [y] + back;
    hide Taken, SplitLines;
    TakenConcat(front, [x]);
    TakenConcat([y], back);
    TakenConcat(front, [x + y] + back);
    TakenConcat([x + y], back);
    TakenOne(x);
    TakenOne(y);
    TakenOne(x + y);
    CutLine(Taken(front), x, y, Taken(back));
  }

  function Line(s: string): seq<string> {
    if s != "" then [s] else []
  }

  /** For every text at all: a read that ends at a line feed, or that has read nothing, leaves no trace. */
  lemma ReadAtFeedIsInvisible(a: string, b: string)
    requires a == "" || a[|a| - 1] == LF
    ensures Read(a + b) == Read(a) + Read(b)
  {
    hide Taken, SplitLines;
    var p, q := SplitLines(a), SplitLines(b);
    var front := p[..|p| - 1];
    SplitAtFeed(a, b);
    TakenConcat(front, q);
    TakenConcat(front, [""]);
    TakenOne("");
    assert Taken(front) + [] == Taken(front);
  }

  lemma SplitAtFeed(a: string, b: string)
    requires a == "" || a[|a| - 1] == LF
    ensures var p := SplitLines(a);
            p == p[..|p| - 1] + [""] && SplitLines(a + b) == p[..|p| - 1] + SplitLines(b)
  {
    hide SplitLines;
    var p, q := SplitLines(a), SplitLines(b);
    LastLine(a);
    SplitOfConcat(a, b);
    assert "" + q[0] == q[0];
    assert q == [q[0]] + q[1..];
  }

  lemma CutLine(front: seq<string>, x: string, y: string, back: seq<string>)
    ensures front + (Line(x + y) + back) == (front + Line(x)) + (Line(y) + back) <==> x == "" || y == ""
  {
    if x == "" {
      assert x + y == y;
    } else if y == "" {
      assert x + y == x;
    }
  }
}

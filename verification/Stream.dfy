/** Streamed chat answers: how the chunks of one answer become latency metrics. */
module Stream {
  import opened Basics
  import opened Text

  datatype Choice = Choice(content: string, text: string)

  datatype Usage = Usage(prompt: Option<int>, completion: Option<int>, total: Option<int>)

  /** What one line of the stream holds. */
  datatype Event =
    | Ignored
    | Done
    | BadJson
    | StreamError(message: string)
    | Chunk(usage: Option<Usage>, choices: seq<Choice>)

  datatype RunResult = RunResult(
    inputTokens: Option<int>, outputTokens: Option<int>, totalTokens: Option<int>,
    ttft: Option<int>, itl: Option<int>, tpot: Option<int>)

  predicate HasPrefix(s: string, prefix: string) {
    |s| >= |prefix| && s[..|prefix|] == prefix
  }

  /** A server-sent line; `decode` is the JSON decoder. */
  function LineEvent(raw: string, decode: string -> Event): Event {
    var line := TrimSpace(raw);
    if line == "" || HasPrefix(line, ":") || !HasPrefix(line, "data:") then Ignored
    else
      var data := TrimSpace(line[5..]);
      if data == "[DONE]" then Done else decode(data)
  }

  /** A chunk written as a `data:` line, with or without a space, reads as its payload. */
  lemma {:induction false} DataLineReads(payload: string, space: string, decode: string -> Event)
    requires payload != "" && TrimSpace(payload) == payload && (space == "" || space == " ")
    ensures LineEvent("data:" + space + payload, decode) == if payload == "[DONE]" then Done else decode(payload)
  {
    TrimmedEnds(payload);
    var line := "data:" + space + payload;
    assert line[0] == 'd' && line[|line| - 1] == payload[|payload| - 1];
    assert TrimSpace(line) == line;
    assert line[..5] == "data:" && line[5..] == space + payload;
    if space == " " {
      assert (space + payload)[1..] == payload;
    } else {
      assert space + payload == payload;
    }
  }

  /** Any other line is ignored. */
  lemma {:induction false} OnlyDataLinesRead(raw: string, decode: string -> Event)
    requires LineEvent(raw, decode) != Ignored
    ensures |TrimSpace(raw)| >= 5 && TrimSpace(raw)[..5] == "data:"
    ensures LineEvent(raw, decode) == Done || LineEvent(raw, decode) == decode(TrimSpace(TrimSpace(raw)[5..]))
  {
  }

  lemma {:induction false} TrimmedEnds(s: string)
    requires s != "" && TrimSpace(s) == s
    ensures !IsSpace(s[0]) && !IsSpace(s[|s| - 1])
  {
    TrimLeftShortens(s);
    TrimRightShortens(TrimLeft(s));
  }

  lemma {:induction false} TrimLeftShortens(s: string)
    ensures |TrimLeft(s)| <= |s|
    ensures s != "" && IsSpace(s[0]) ==> |TrimLeft(s)| < |s|
    ensures |TrimLeft(s)| == |s| ==> TrimLeft(s) == s
  {
    if s != "" {
      TrimLeftShortens(s[1..]);
    }
  }

  lemma {:induction false} TrimRightShortens(t: string)
    ensures |TrimRight(t)| <= |t|
    ensures t != "" && IsSpace(t[|t| - 1]) ==> |TrimRight(t)| < |t|
  {
    if t != "" {
      TrimRightShortens(t[..|t| - 1]);
    }
  }

  function Events(lines: seq<string>, read: string -> Event): seq<Event> {
    seq(|lines|, i requires 0 <= i < |lines| => read(lines[i]))
  }

  // ----- what a stream amounts to -----

  predicate CarriesText(c: Choice) { c.content != "" || c.text != "" }

  function TextChoices(choices: seq<Choice>): nat {
    if choices == [] then 0 else (if CarriesText(choices[0]) then 1 else 0) + TextChoices(choices[1..])
  }

  /** The event that ends the stream, if one does. */
  function Ending(events: seq<Event>): Option<Event> {
    if events == [] then None
    else if events[0].Ignored? || events[0].Chunk? then Ending(events[1..])
    else Some(events[0])
  }

  /** The choices with text before the ending. */
  function Tokens(events: seq<Event>): nat {
    if events == [] then 0
    else if events[0].Ignored? then Tokens(events[1..])
    else if events[0].Chunk? then TextChoices(events[0].choices) + Tokens(events[1..])
    else 0
  }

  /** The last usage reported before the ending. */
  function Reported(events: seq<Event>, sofar: Option<Usage>): Option<Usage> {
    if events == [] then sofar
    else if events[0].Ignored? then Reported(events[1..], sofar)
    else if events[0].Chunk? then Reported(events[1..], if events[0].usage.Some? then events[0].usage else sofar)
    else sofar
  }

  lemma {:induction false} FilterHead(first: Event, rest: seq<Event>, p: Event -> bool)
    ensures Filter([first] + rest, p) == (if p(first) then [first] else []) + Filter(rest, p)
  {
    FilterAppend([first], rest, p);
    assert [first][..0] == [];
    assert Filter([first], p) == if p(first) then [first] else [];
  }

  lemma {:induction false} SameHead(first: Event, xs: seq<Event>, ys: seq<Event>, sofar: Option<Usage>)
    requires Tokens(xs) == Tokens(ys) && Ending(xs) == Ending(ys)
    requires Reported(xs, sofar) == Reported(ys, sofar)
    requires first.Chunk? && first.usage.Some? ==> Reported(xs, first.usage) == Reported(ys, first.usage)
    ensures Tokens([first] + xs) == Tokens([first] + ys) && Ending([first] + xs) == Ending([first] + ys)
    ensures Reported([first] + xs, sofar) == Reported([first] + ys, sofar)
  {
    assert ([first] + xs)[1..] == xs && ([first] + ys)[1..] == ys;
  }

  /** Blank lines, comments and other fields between the chunks change nothing. */
  lemma {:induction false} IgnoredLinesChangeNothing(events: seq<Event>, sofar: Option<Usage>)
    ensures var data := Filter(events, (e: Event) => !e.Ignored?);
            && Tokens(data) == Tokens(events) && Ending(data) == Ending(events)
            && Reported(data, sofar) == Reported(events, sofar)
  {
    if events != [] {
      var first, rest := events[0], events[1..];
      var p := (e: Event) => !e.Ignored?;
      FilterHead(first, rest, p);
      assert events == [first] + rest;
      IgnoredLinesChangeNothing(rest, sofar);
      if first.Chunk? {
        IgnoredLinesChangeNothing(rest, first.usage);
      }
      SameHead(first, Filter(rest, p), rest, sofar);
      assert first.Ignored? ==> [] + Filter(rest, p) == Filter(rest, p);
    }
  }

  /** All choices of some chunks, in order. */
  function Choices(chunks: seq<Event>): seq<Choice>
    requires forall e :: e in chunks ==> e.Chunk?
  {
    if chunks == [] then [] else chunks[0].choices + Choices(chunks[1..])
  }

  lemma {:induction false} TextChoicesMean(choices: seq<Choice>, more: seq<Choice>)
    ensures |Filter(choices + more, (c: Choice) => c.content != "" || c.text != "")|
            == TextChoices(choices) + |Filter(more, (c: Choice) => c.content != "" || c.text != "")|
  {
    if choices == [] {
      assert choices + more == more;
    } else {
      var first, rest := choices[0], choices[1..];
      TextChoicesMean(rest, more);
      FilterAppend([first], rest + more, (c: Choice) => c.content != "" || c.text != "");
      assert [first][..0] == [] && choices + more == [first] + (rest + more);
      assert Filter([first], (c: Choice) => c.content != "" || c.text != "") == if CarriesText(first) then [first] else [];
    }
  }

  /** The usage of the last chunk that reports one. */
  ghost predicate LastUsage(chunks: seq<Event>, usage: Option<Usage>) {
    && (usage.None? ==> forall i :: 0 <= i < |chunks| ==> chunks[i].Chunk? ==> chunks[i].usage.None?)
    && (usage.Some? ==> exists i :: 0 <= i < |chunks| && chunks[i].Chunk? && chunks[i].usage == usage
                                    && forall j :: i < j < |chunks| && chunks[j].Chunk? ==> chunks[j].usage.None?)
  }

  /** The chunks before the ending. */
  function Chunks(events: seq<Event>): (chunks: seq<Event>)
    ensures forall e :: e in chunks ==> e.Chunk?
  {
    if events == [] then []
    else if events[0].Ignored? then Chunks(events[1..])
    else if events[0].Chunk? then [events[0]] + Chunks(events[1..])
    else []
  }

  lemma {:induction false} StopMeans(events: seq<Event>) returns (stop: nat)
    ensures stop <= |events| && forall i :: 0 <= i < stop ==> events[i].Ignored? || events[i].Chunk?
    ensures if stop == |events| then Ending(events) == None
            else !events[stop].Ignored? && !events[stop].Chunk? && Ending(events) == Some(events[stop])
    ensures Chunks(events) == Filter(events[..stop], (e: Event) => e.Chunk?)
  {
    if events == [] || !(events[0].Ignored? || events[0].Chunk?) {
      return 0;
    }
    var first, rest := events[0], events[1..];
    stop := StopMeans(rest);
    ChunkHead(first, rest[..stop]);
    assert events[..stop + 1] == [first] + rest[..stop];
    assert forall i :: 0 < i < stop + 1 ==> events[i] == rest[i - 1];
    assert [] + Chunks(rest) == Chunks(rest);
    stop := stop + 1;
  }

  lemma {:induction false} TokensMean(events: seq<Event>)
    ensures Tokens(events) == |Filter(Choices(Chunks(events)), (c: Choice) => c.content != "" || c.text != "")|
  {
    if events != [] && (events[0].Ignored? || events[0].Chunk?) {
      TokensMean(events[1..]);
      if events[0].Chunk? {
        var c := Chunks(events[1..]);
        assert ([events[0]] + c)[1..] == c;
        TextChoicesMean(events[0].choices, Choices(c));
      }
    }
  }

  lemma {:induction false} UsageMeans(events: seq<Event>)
    ensures LastUsage(Chunks(events), Reported(events, None))
  {
    if events != [] && (events[0].Ignored? || events[0].Chunk?) {
      UsageMeans(events[1..]);
      if events[0].Chunk? {
        assert events == [events[0]] + events[1..];
        UsageHead(events[0], events[1..], Chunks(events[1..]));
      }
    }
  }

  /**
   * What a stream amounts to: the first line that is neither a chunk nor ignored ends it, the tokens are the
   * choices with text in the chunks before it, and the usage is the last one those chunks report.
   */
  lemma {:induction false} StreamMeans(events: seq<Event>) returns (stop: nat, chunks: seq<Event>)
    ensures stop <= |events| && forall i :: 0 <= i < stop ==> events[i].Ignored? || events[i].Chunk?
    ensures if stop == |events| then Ending(events) == None
            else !events[stop].Ignored? && !events[stop].Chunk? && Ending(events) == Some(events[stop])
    ensures chunks == Filter(events[..stop], (e: Event) => e.Chunk?) && forall e :: e in chunks ==> e.Chunk?
    ensures Tokens(events) == |Filter(Choices(chunks), (c: Choice) => c.content != "" || c.text != "")|
    ensures LastUsage(chunks, Reported(events, None))
  {
    stop := StopMeans(events);
    chunks := Chunks(events);
    TokensMean(events);
    UsageMeans(events);
  }

  lemma {:induction false} ChunkHead(first: Event, rest: seq<Event>)
    ensures Filter([first] + rest, (e: Event) => e.Chunk?) == (if first.Chunk? then [first] else []) + Filter(rest, (e: Event) => e.Chunk?)
  {
    FilterHead(first, rest, (e: Event) => e.Chunk?);
  }

  /** A usage reported before only matters while none follows. */
  lemma {:induction false} ReportedAfter(events: seq<Event>, sofar: Option<Usage>)
    ensures Reported(events, sofar) == if Reported(events, None).Some? then Reported(events, None) else sofar
  {
    if events != [] && (events[0].Ignored? || events[0].Chunk?) {
      ReportedAfter(events[1..], if events[0].Chunk? && events[0].usage.Some? then events[0].usage else sofar);
      ReportedAfter(events[1..], if events[0].Chunk? && events[0].usage.Some? then events[0].usage else None);
    }
  }

  lemma {:induction false} UsageHead(first: Event, rest: seq<Event>, chunks: seq<Event>)
    requires first.Chunk? && LastUsage(chunks, Reported(rest, None))
    ensures LastUsage([first] + chunks, Reported([first] + rest, None))
  {
    assert ([first] + rest)[1..] == rest;
    ReportedAfter(rest, first.usage);
    var all, usage := [first] + chunks, Reported(rest, None);
    if usage.Some? {
      var i :| 0 <= i < |chunks| && chunks[i].Chunk? && chunks[i].usage == usage
        && forall j :: i < j < |chunks| && chunks[j].Chunk? ==> chunks[j].usage.None?;
      assert all[i + 1] == chunks[i];
    } else if first.usage.Some? {
      assert all[0] == first;
    }
  }

  ghost predicate Ascending(start: Time, times: seq<Time>) {
    && (times != [] ==> start <= times[0])
    && (forall i, j :: 0 <= i < j < |times| ==> times[i] <= times[j])
  }

  /** time.Now() never goes back. */
  method Now(clock: Time) returns (t: Time)
    ensures t >= clock
  {
    t :| t >= clock;
  }

  function LastOr(times: seq<Time>, start: Time): Time {
    if times == [] then start else times[|times| - 1]
  }

  /** The token counters of the scan loop, against the clock readings so far. */
  ghost predicate Measured(start: Time, times: seq<Time>, first: Option<Time>, previous: Time, gapSum: int, gapCount: int)
  {
    && Ascending(start, times)
    && (times == [] ==> first == None && gapSum == 0 && gapCount == 0)
    && (times != [] ==> first == Some(times[0]) && previous == LastOr(times, start)
                        && gapSum == LastOr(times, start) - times[0] && gapCount == |times| - 1)
  }

  /** The metrics of a completed answer. */
  ghost predicate Metrics(result: RunResult, start: Time, times: seq<Time>, end: Time) {
    && result.ttft == (if times == [] then None else Some(times[0] - start))
    && (result.itl.Some? <==> |times| > 1)
    && (result.itl.Some? ==>
          var gaps, span := |times| - 1, LastOr(times, start) - times[0];
          result.itl.value * gaps <= span < (result.itl.value + 1) * gaps)
    && (result.tpot.Some? <==> times != [] && result.outputTokens.Some? && result.outputTokens.value > 0 && end > times[0])
    && (result.tpot.Some? ==>
          var tokens, rest := result.outputTokens.value, end - times[0];
          result.tpot.value * tokens <= rest < (result.tpot.value + 1) * tokens)
  }

  /** The token counts: as reported, else counted; the total as reported, else added up. */
  predicate Counted(result: RunResult, usage: Option<Usage>, tokens: nat) {
    var input := if usage.Some? then usage.value.prompt else None;
    var output := if usage.Some? && usage.value.completion.Some? then usage.value.completion
                  else if tokens > 0 then Some(tokens) else None;
    var total := if usage.Some? && usage.value.total.Some? then usage.value.total
                 else if input.Some? && output.Some? then Some(input.value + output.value) else None;
    result.inputTokens == input && result.outputTokens == output && result.totalTokens == total
  }

  /** What a failed parse still returns: the first token time and the usage reported so far. */
  predicate Abandoned(result: RunResult, start: Time, times: seq<Time>) {
    && result.ttft == (if times == [] then None else Some(times[0] - start))
    && result.itl.None? && result.tpot.None?
  }

  ghost predicate IsFailure(ending: Option<Event>) {
    ending.Some? && !ending.value.Done?
  }

  const EMPTY := RunResult(None, None, None, None, None, None)

  function WithUsage(r: RunResult, u: Usage): RunResult {
    r.(inputTokens := u.prompt, outputTokens := u.completion, totalTokens := u.total)
  }

  lemma {:induction false} MoreTime(start: Time, times: seq<Time>, first: Option<Time>, previous: Time,
                                    gapSum: int, gapCount: int, now: Time)
    requires Measured(start, times, first, previous, gapSum, gapCount) && now >= LastOr(times, start)
    ensures times == [] ==> Measured(start, [now], Some(now), now, gapSum, gapCount)
    ensures times != [] ==> Measured(start, times + [now], first, now, gapSum + (now - previous), gapCount + 1)
  {
  }

  /** The choices of one chunk, each timed when it carries text. */
  method TimeChoices(choices: seq<Choice>, start: Time, ghost times: seq<Time>, clock: Time,
                     first: Option<Time>, previous: Time, gapSum: int, gapCount: int, chunkTokens: nat)
      returns (ghost times': seq<Time>, clock': Time, first': Option<Time>, previous': Time,
               gapSum': int, gapCount': int, chunkTokens': nat)
    requires Measured(start, times, first, previous, gapSum, gapCount) && clock == LastOr(times, start)
    requires chunkTokens == |times|
    ensures Measured(start, times', first', previous', gapSum', gapCount') && clock' == LastOr(times', start)
    ensures chunkTokens' == chunkTokens + TextChoices(choices) == |times'|
    ensures times <= times'
  {
    times', clock', first', previous', gapSum', gapCount', chunkTokens' :=
      times, clock, first, previous, gapSum, gapCount, chunkTokens;
    for i := 0 to |choices|
      invariant Measured(start, times', first', previous', gapSum', gapCount') && clock' == LastOr(times', start)
      invariant chunkTokens' == |times'| && |times'| + TextChoices(choices[i..]) == |times| + TextChoices(choices)
      invariant times <= times'
    {
      var content := choices[i].content;
      if content == "" {
        content := choices[i].text;
      }
      assert choices[i..][1..] == choices[i + 1..];
      if content != "" {
        var now := Now(clock');
        MoreTime(start, times', first', previous', gapSum', gapCount', now);
        chunkTokens' := chunkTokens' + 1;
        if first'.None? {
          first' := Some(now);
        } else {
          gapSum' := gapSum' + (now - previous');
          gapCount' := gapCount' + 1;
        }
        previous', clock' := now, now;
        times' := times' + [now];
      }
    }
  }

  /** The loop before line i: so many tokens timed and this usage reported, the rest still to come. */
  ghost predicate Scanning(events: seq<Event>, i: nat, tokens: nat, usage: Option<Usage>) {
    && i <= |events|
    && Tokens(events) == tokens + Tokens(events[i..])
    && Ending(events) == Ending(events[i..])
    && Reported(events, None) == Reported(events[i..], usage)
  }

  lemma {:induction false} ScanNext(events: seq<Event>, i: nat, tokens: nat, usage: Option<Usage>)
    requires Scanning(events, i, tokens, usage) && i < |events|
    ensures events[i].Ignored? ==> Scanning(events, i + 1, tokens, usage)
    ensures events[i].Chunk? ==>
              Scanning(events, i + 1, tokens + TextChoices(events[i].choices),
                       if events[i].usage.Some? then events[i].usage else usage)
    ensures !events[i].Ignored? && !events[i].Chunk? ==>
              Tokens(events) == tokens && Ending(events) == Some(events[i]) && Reported(events, None) == usage
  {
    assert events[i..][0] == events[i] && events[i..][1..] == events[i + 1..];
  }

  /** The result while scanning: the usage and the first token time so far. */
  ghost function Partial(usage: Option<Usage>, start: Time, times: seq<Time>): RunResult {
    (if usage.Some? then WithUsage(EMPTY, usage.value) else EMPTY)
    .(ttft := if times == [] then None else Some(times[0] - start))
  }

  /** The scan loop of parseChatStream, over how a line reads. */
  method Scan(lines: seq<string>, read: string -> Event, start: Time)
      returns (result: RunResult, error: Option<string>, first: Option<Time>, gapSum: int, gapCount: int, chunkTokens: nat,
               end: Time, ghost times: seq<Time>, ghost previous: Time, ghost usage: Option<Usage>)
    ensures Measured(start, times, first, previous, gapSum, gapCount) && end == LastOr(times, start)
    ensures chunkTokens == |times| == Tokens(Events(lines, read)) && result == Partial(usage, start, times)
    ensures usage == Reported(Events(lines, read), None)
    ensures error.Some? <==> IsFailure(Ending(Events(lines, read)))
  {
    ghost var events := Events(lines, read);
    result, times, end, usage, error := EMPTY, [], start, None, None;
    var previousTokenAt := start;
    first, gapSum, gapCount, chunkTokens, previous := None, 0, 0, 0, start;
    var i := 0;
    while i < |lines|
      invariant Scanning(events, i, |times|, usage) && error.None?
      invariant Measured(start, times, first, previousTokenAt, gapSum, gapCount) && end == LastOr(times, start)
      invariant chunkTokens == |times| && result == Partial(usage, start, times)
    {
      var event := read(lines[i]);
      ScanNext(events, i, |times|, usage);
      match event {
        case Ignored =>
        case Done =>
          break;
        case BadJson =>
          error := Some("parse stream chunk");
          break;
        case StreamError(message) =>
          error := Some("stream error: " + message);
          break;
        case Chunk(reported, choices) =>
          if reported.Some? {
            result := WithUsage(result, reported.value);
            usage := reported;
          }
          times, end, first, previousTokenAt, gapSum, gapCount, chunkTokens :=
            TimeChoices(choices, start, times, end, first, previousTokenAt, gapSum, gapCount, chunkTokens);
          if first.Some? {
            result := result.(ttft := Some(first.value - start));
          }
      }
      i := i + 1;
    }
    previous := previousTokenAt;
  }

  /**
   * parseChatStream: `readError` is the scanner's error, `times` the clock reading of each token,
   * `end` the last clock reading.
   */
  method ParseChatStream(lines: seq<string>, read: string -> Event, readError: Option<string>, start: Time)
      returns (result: RunResult, error: Option<string>, ghost times: seq<Time>, end: Time)
    ensures |times| == Tokens(Events(lines, read)) && Ascending(start, times) && LastOr(times, start) <= end
    ensures error.Some? <==> IsFailure(Ending(Events(lines, read))) || readError.Some?
    ensures error.None? ==> Metrics(result, start, times, end)
                            && Counted(result, Reported(Events(lines, read), None), |times|)
    ensures error.Some? ==> Abandoned(result, start, times)
  {
    var first, gapSum, gapCount, chunkTokens;
    ghost var previous, usage;
    result, error, first, gapSum, gapCount, chunkTokens, end, times, previous, usage := Scan(lines, read, start);
    if error.None? {
      error := readError;
    }
    if error.Some? {
      return;
    }
    end := Now(end);
    result := Derived(result, start, times, first, previous, gapSum, gapCount, chunkTokens, usage, end);
  }

  /** What parseChatStream derives once the stream is complete. */
  method Derived(partial: RunResult, start: Time, ghost times: seq<Time>, first: Option<Time>, ghost previous: Time,
                 gapSum: int, gapCount: int, chunkTokens: nat, ghost usage: Option<Usage>, end: Time)
      returns (result: RunResult)
    requires Measured(start, times, first, previous, gapSum, gapCount) && chunkTokens == |times|
    requires partial == Partial(usage, start, times)
    requires LastOr(times, start) <= end
    ensures Metrics(result, start, times, end) && Counted(result, usage, |times|)
  {
    result := partial;
    if result.outputTokens.None? && chunkTokens > 0 {
      result := result.(outputTokens := Some(chunkTokens));
    }
    if result.totalTokens.None? && result.inputTokens.Some? && result.outputTokens.Some? {
      result := result.(totalTokens := Some(result.inputTokens.value + result.outputTokens.value));
    }
    if gapCount > 0 {
      FloorMeans(gapSum, gapCount);
      result := result.(itl := Some(gapSum / gapCount));
    }
    if result.ttft.Some? && result.outputTokens.Some? && result.outputTokens.value > 0 {
      var elapsed := end - start - result.ttft.value;
      if elapsed > 0 {
        FloorMeans(elapsed, result.outputTokens.value);
        result := result.(tpot := Some(elapsed / result.outputTokens.value));
      }
    }
  }

  /** The first token and the gaps between tokens fit into the latency, and so does the time for the output. */
  ghost predicate FitsLatency(result: RunResult, tokens: nat, latency: int) {
    && (result.ttft.Some? <==> tokens > 0)
    && (result.ttft.Some? ==> 0 <= result.ttft.value <= latency)
    && (result.itl.Some? ==> tokens > 1 && result.ttft.Some?
                             && result.ttft.value + result.itl.value * (tokens - 1) <= latency)
    && (result.tpot.Some? ==> result.ttft.Some? && result.outputTokens.Some?
                              && result.ttft.value + result.tpot.value * result.outputTokens.value <= latency)
  }

  lemma {:induction false} MetricsFit(result: RunResult, start: Time, times: seq<Time>, end: Time, latency: int)
    requires Ascending(start, times) && LastOr(times, start) <= end <= start + latency
    requires Metrics(result, start, times, end)
    ensures FitsLatency(result, |times|, latency)
  {
  }

  lemma {:induction false} RateTimesDuration(x: real, d: real)
    requires d > 0.0
    ensures x / d * d == x
  {
  }

  /** fillThroughput: output tokens per second. */
  method FillThroughput(outputTokens: Option<int>, latency: int) returns (rate: Option<real>)
    ensures rate.Some? <==> outputTokens.Some? && latency > 0
    ensures rate.Some? ==> rate.value * (latency as real / 1000000000.0) == outputTokens.value as real
  {
    if outputTokens.None? || latency <= 0 {
      return None;
    }
    var seconds := latency as real / 1000000000.0;
    RateTimesDuration(outputTokens.value as real, seconds);
    return Some(outputTokens.value as real / seconds);
  }

  /** StreamChat: the answer with its latency. */
  method StreamChat(lines: seq<string>, read: string -> Event, readError: Option<string>, start: Time)
      returns (result: RunResult, ok: bool, latency: int, rate: Option<real>)
    ensures ok <==> !IsFailure(Ending(Events(lines, read))) && readError.None?
    ensures ok ==> FitsLatency(result, Tokens(Events(lines, read)), latency)
                   && Counted(result, Reported(Events(lines, read), None), Tokens(Events(lines, read)))
    ensures rate.Some? <==> ok && result.outputTokens.Some? && latency > 0
    ensures rate.Some? ==> rate.value * (latency as real / 1000000000.0) == result.outputTokens.value as real
  {
    var error, end;
    ghost var times;
    result, error, times, end := ParseChatStream(lines, read, readError, start);
    var now := Now(end);
    latency, ok, rate := now - start, error.None?, None;
    if ok {
      MetricsFit(result, start, times, end, latency);
      rate := FillThroughput(result.outputTokens, latency);
    }
  }
}

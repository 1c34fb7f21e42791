/**
 The streaming chat decoder: a response body arrives in chunks split anywhere between characters, and its
 `data:` lines are handled as soon as each is complete.

 JSON parsing is a parameter, any function from a payload to what it means.
 */
module Stream {
  import opened Common
  import opened ToolCalls

  /** What one payload means: not JSON, an error object, or a chunk with at most one delta. */
  datatype Parsed = Invalid | ErrorObject(message: string) | Chunk(delta: Option<Delta>)

  datatype Delta = Delta(content: Option<string>, calls: seq<Fragment>)

  /** One network read: text, or the stream breaking. */
  datatype Read = Bytes(text: string) | Broken

  datatype Turn = Turn(text: string, toolCalls: seq<ToolCall>)

  /** The turn under construction, with what the callback was given and every fragment seen. */
  datatype Progress = Progress(text: string, said: seq<string>, fragments: seq<Fragment>)

  datatype Decoded = Decoded(result: Result<Turn, string>, said: seq<string>)

  /** How a body ends after its text: closed, or broken. */
  datatype Ending = Closed | Broke

  datatype Line = Ignored | DoneMark | Payload(text: string)

  const START := Progress("", [], [])

  const STREAM_BROKE := "the chat stream broke"

  predicate IsSpace(c: char) {
    || '\t' <= c <= '\r' || c == ' ' || c == '\U{85}' || c == '\U{A0}' || c == '\U{1680}' || '\U{2000}' <= c <= '\U{200A}'
    || c == '\U{2028}' || c == '\U{2029}' || c == '\U{202F}' || c == '\U{205F}' || c == '\U{3000}'
  }

  function TrimStart(s: string): string {
    if s != "" && IsSpace(s[0]) then TrimStart(s[1..]) else s
  }

  function TrimEnd(s: string): string {
    if s != "" && IsSpace(s[|s| - 1]) then TrimEnd(s[..|s| - 1]) else s
  }

  function TrimReturns(s: string): string {
    if s != "" && s[|s| - 1] == '\r' then TrimReturns(s[..|s| - 1]) else s
  }

  /** What one complete line, without its newline, carries. */
  function Classify(raw: string): Line {
    var line := TrimReturns(raw);
    if !("data:" <= line) then Ignored
    else
      var payload := TrimEnd(TrimStart(line[5..]));
      if payload == "" then Ignored
      else if payload == "[DONE]" then DoneMark
      else Payload(payload)
  }

  /** The position of the first newline, or the length when there is none. */
  function FirstNewline(s: string): (n: nat)
    ensures n <= |s|
    ensures n < |s| ==> s[n] == '\n'
    ensures forall i :: 0 <= i < n ==> s[i] != '\n'
  {
    if s == "" || s[0] == '\n' then 0 else 1 + FirstNewline(s[1..])
  }

  function Fold(p: Progress, delta: Option<Delta>): Progress {
    match delta
    case None => p
    case Some(d) =>
      var q := if d.content.Some? && d.content.value != "" then p.(text := p.text + d.content.value, said := p.said + [d.content.value]) else p;
      q.(fragments := q.fragments + d.calls)
  }

  function Finished(p: Progress): Decoded {
    Decoded(Ok(Turn(p.text, Finish(Slots(p.fragments)))), p.said)
  }

  function AtEnd(p: Progress, ending: Ending): Decoded {
    if ending.Closed? then Finished(p) else Decoded(Err(STREAM_BROKE), p.said)
  }

  // ---- the batch reading: all complete lines at once

  /** The lines ended by a newline; what follows the last newline is dropped. */
  function CompleteLines(text: string): seq<string>
    decreases |text|
  {
    var n := FirstNewline(text);
    if n == |text| then [] else [text[..n]] + CompleteLines(text[n + 1..])
  }

  /** Handling complete lines in order, up to `[DONE]` or an error. */
  function Batch(p: Progress, lines: seq<string>, ending: Ending, parse: string -> Parsed): Decoded
    decreases |lines|
  {
    if lines == [] then AtEnd(p, ending)
    else
      match Classify(lines[0])
      case Ignored => Batch(p, lines[1..], ending, parse)
      case DoneMark => Finished(p)
      case Payload(text) =>
        match parse(text)
        case Invalid => Batch(p, lines[1..], ending, parse)
        case ErrorObject(message) => Decoded(Err("chat endpoint error: " + message), p.said)
        case Chunk(delta) => Batch(Fold(p, delta), lines[1..], ending, parse)
  }

  /** The text that arrives before the stream ends or breaks. */
  function BodyText(chunks: seq<Read>): string {
    if chunks == [] || chunks[0].Broken? then "" else chunks[0].text + BodyText(chunks[1..])
  }

  function BodyEnding(chunks: seq<Read>): Ending {
    if chunks == [] then Closed else if chunks[0].Broken? then Broke else BodyEnding(chunks[1..])
  }

  /** A newline already in the buffer ends the same line whatever arrives later. */
  lemma NewlineInPrefix(a: string, b: string)
    ensures FirstNewline(a) < |a| ==> FirstNewline(a + b) == FirstNewline(a)
    ensures FirstNewline(a) < |a| ==> (a + b)[..FirstNewline(a)] == a[..FirstNewline(a)]
    ensures FirstNewline(a) < |a| ==> (a + b)[FirstNewline(a) + 1..] == a[FirstNewline(a) + 1..] + b
  {
    var n, m := FirstNewline(a), FirstNewline(a + b);
    assert forall i :: 0 <= i < |a| ==> (a + b)[i] == a[i];
  }

  lemma LinesOfPrefix(a: string, b: string)
    requires FirstNewline(a) < |a|
    ensures CompleteLines(a + b) == [a[..FirstNewline(a)]] + CompleteLines(a[FirstNewline(a) + 1..] + b)
  {
    NewlineInPrefix(a, b);
  }

  /** What the loop still owes: the buffer and the reads still to come, handled as one batch. */
  function Rest(p: Progress, buf: string, chunks: seq<Read>, parse: string -> Parsed): Decoded {
    Batch(p, CompleteLines(buf + BodyText(chunks)), BodyEnding(chunks), parse)
  }

  /** What the first complete line of the buffer does to what is owed. */
  lemma RestStep(p: Progress, buf: string, later: seq<Read>, parse: string -> Parsed)
    requires FirstNewline(buf) < |buf|
    ensures var rest := buf[FirstNewline(buf) + 1..];
            Rest(p, buf, later, parse) ==
            match Classify(buf[..FirstNewline(buf)])
            case Ignored => Rest(p, rest, later, parse)
            case DoneMark => Finished(p)
            case Payload(text) =>
              match parse(text)
              case Invalid => Rest(p, rest, later, parse)
              case ErrorObject(message) => Decoded(Err("chat endpoint error: " + message), p.said)
              case Chunk(delta) => Rest(Fold(p, delta), rest, later, parse)
  {
    LinesOfPrefix(buf, BodyText(later));
  }

  /** The turn as the loop builds it: text, callbacks, and one slot per tool call index. */
  datatype Building = Building(text: string, said: seq<string>, partial: seq<Slot>)

  ghost predicate Builds(b: Building, p: Progress) {
    b.text == p.text && b.said == p.said && b.partial == Slots(p.fragments)
  }

  /** Folds one chunk in: the callback first, then the text, then every tool call fragment. */
  method ApplyChunk(b: Building, delta: Option<Delta>, ghost p: Progress) returns (next: Building)
    requires Builds(b, p)
    ensures Builds(next, Fold(p, delta))
  {
    next := b;
    if delta.None? {
      return;
    }
    var d := delta.value;
    if d.content.Some? && d.content.value != "" {
      next := next.(said := next.said + [d.content.value]);
      next := next.(text := next.text + d.content.value);
    }
    var partial := ApplyFragments(next.partial, d.calls, p.fragments);
    next := next.(partial := partial);
  }

  /**
   Streams one turn. The outcome and everything the callback is given depend on the reads only through the
   text they add up to and the way they end.
   */
  method StreamTurn(chunks: seq<Read>, parse: string -> Parsed) returns (d: Decoded)
    ensures d == Batch(START, CompleteLines(BodyText(chunks)), BodyEnding(chunks), parse)
  {
    ghost var p := START;
    var b := Building("", [], []);
    var buf := "";
    var i := 0;
    assert "" + BodyText(chunks) == BodyText(chunks);
    assert chunks[0..] == chunks;
    while i < |chunks|
      invariant i <= |chunks| && Builds(b, p)
      invariant FirstNewline(buf) == |buf|
      invariant Rest(p, buf, chunks[i..], parse) == Batch(START, CompleteLines(BodyText(chunks)), BodyEnding(chunks), parse)
    {
      assert chunks[i..][1..] == chunks[i + 1..];
      match chunks[i] {
        case Broken =>
          assert buf + "" == buf && CompleteLines(buf) == [];
          return Decoded(Err(STREAM_BROKE), b.said);
        case Bytes(text) =>
          assert (buf + text) + BodyText(chunks[i + 1..]) == buf + BodyText(chunks[i..]);
          buf := buf + text;
      }
      i := i + 1;
      var stopped;
      b, buf, stopped, d, p := DrainLines(b, buf, parse, p, chunks[i..]);
      if stopped {
        return;
      }
    }
    assert chunks[i..] == [];
    assert buf + "" == buf && CompleteLines(buf) == [];
    d := Decoded(Ok(Turn(b.text, Finish(b.partial))), b.said);
  }

  /** The inner loop: every complete line of the buffer, leaving the unfinished one; `stopped` when a line ends the turn. */
  method DrainLines(start: Building, buffer: string, parse: string -> Parsed, ghost before: Progress, ghost later: seq<Read>)
      returns (b: Building, buf: string, stopped: bool, d: Decoded, ghost p: Progress)
    requires Builds(start, before)
    ensures Builds(b, p)
    ensures stopped ==> d == Rest(before, buffer, later, parse)
    ensures !stopped ==> FirstNewline(buf) == |buf| && Rest(p, buf, later, parse) == Rest(before, buffer, later, parse)
  {
    b, buf, stopped, d, p := start, buffer, false, Decoded(Ok(Turn("", [])), []), before;
    while FirstNewline(buf) < |buf|
      invariant Builds(b, p)
      invariant Rest(p, buf, later, parse) == Rest(before, buffer, later, parse)
      decreases |buf|
    {
      var nl := FirstNewline(buf);
      RestStep(p, buf, later, parse);
      var line := buf[..nl];
      buf := buf[nl + 1..];
      match Classify(line) {
        case Ignored => continue;
        case DoneMark =>
          stopped, d := true, Decoded(Ok(Turn(b.text, Finish(b.partial))), b.said);
          return;
        case Payload(payload) =>
          match parse(payload) {
            case Invalid => continue;
            case ErrorObject(message) =>
              stopped, d := true, Decoded(Err("chat endpoint error: " + message), b.said);
              return;
            case Chunk(delta) =>
              b := ApplyChunk(b, delta, p);
              p := Fold(p, delta);
          }
      }
    }
  }

  /** Any two splits of one text, read to the same ending, decode alike. */
  method DecodeTwoSplits(a: seq<Read>, b: seq<Read>, parse: string -> Parsed) returns (x: Decoded, y: Decoded)
    requires BodyText(a) == BodyText(b) && BodyEnding(a) == BodyEnding(b)
    ensures x == y
  {
    x := StreamTurn(a, parse);
    y := StreamTurn(b, parse);
  }

  // ---- what a line carries

  predicate AllSpace(s: string) {
    forall i :: 0 <= i < |s| ==> IsSpace(s[i])
  }

  /** A `data:` line around `payload`, which neither begins nor ends with white space. */
  ghost predicate Carries(line: string, payload: string) {
    && payload != "" && !IsSpace(payload[0]) && !IsSpace(payload[|payload| - 1])
    && exists lead, tail :: AllSpace(lead) && AllSpace(tail) && line == "data:" + lead + payload + tail
  }

  lemma {:induction false} TrimStartSkips(lead: string, s: string)
    requires AllSpace(lead) && (s != "" ==> !IsSpace(s[0]))
    ensures TrimStart(lead + s) == s
    decreases |lead|
  {
    if lead == "" {
      assert lead + s == s;
    } else {
      assert (lead + s)[1..] == lead[1..] + s;
      TrimStartSkips(lead[1..], s);
    }
  }

  lemma {:induction false} TrimEndSkips(s: string, tail: string)
    requires AllSpace(tail) && (s != "" ==> !IsSpace(s[|s| - 1]))
    ensures TrimEnd(s + tail) == s
    decreases |tail|
  {
    if tail == "" {
      assert s + tail == s;
    } else {
      assert (s + tail)[..|s + tail| - 1] == s + tail[..|tail| - 1];
      TrimEndSkips(s, tail[..|tail| - 1]);
    }
  }

  lemma {:induction false} TrimReturnsKeeps(s: string, tail: string)
    requires s != "" && s[|s| - 1] != '\r'
    ensures exists k :: 0 <= k <= |tail| && TrimReturns(s + tail) == s + tail[..k]
    decreases |tail|
  {
    if tail == "" || tail[|tail| - 1] != '\r' {
      assert s + tail == s + tail[..|tail|];
    } else {
      var front := tail[..|tail| - 1];
      assert (s + tail)[..|s + tail| - 1] == s + front;
      TrimReturnsKeeps(s, front);
      var k :| 0 <= k <= |front| && TrimReturns(s + front) == s + front[..k];
      assert front[..k] == tail[..k];
    }
  }

  lemma {:induction false} TrimStartCuts(s: string) returns (k: nat)
    ensures k <= |s| && (forall i :: 0 <= i < k ==> IsSpace(s[i])) && TrimStart(s) == s[k..]
    ensures k < |s| ==> !IsSpace(s[k])
    decreases |s|
  {
    if s != "" && IsSpace(s[0]) {
      k := TrimStartCuts(s[1..]);
      assert s[1..][k..] == s[k + 1..];
      assert forall i :: 0 < i < k + 1 ==> s[i] == s[1..][i - 1];
      k := k + 1;
    } else {
      k := 0;
    }
  }

  lemma {:induction false} TrimEndCuts(s: string) returns (k: nat)
    ensures k <= |s| && (forall i :: k <= i < |s| ==> IsSpace(s[i])) && TrimEnd(s) == s[..k]
    ensures k > 0 ==> !IsSpace(s[k - 1])
    decreases |s|
  {
    k := |s|;
    if s != "" && IsSpace(s[|s| - 1]) {
      var front := s[..|s| - 1];
      k := TrimEndCuts(front);
      assert front[..k] == s[..k];
    }
  }

  lemma {:induction false} TrimReturnsCuts(s: string) returns (k: nat)
    ensures k <= |s| && (forall i :: k <= i < |s| ==> IsSpace(s[i])) && TrimReturns(s) == s[..k]
    decreases |s|
  {
    k := |s|;
    if s != "" && s[|s| - 1] == '\r' {
      var front := s[..|s| - 1];
      k := TrimReturnsCuts(front);
      assert front[..k] == s[..k];
    }
  }

  lemma ClassifyOf(line: string, text: string)
    requires TrimReturns(line) == "data:" + text
    ensures var payload := TrimEnd(TrimStart(text));
            Classify(line) == if payload == "" then Ignored else if payload == "[DONE]" then DoneMark else Payload(payload)
  {
    assert ("data:" + text)[5..] == text;
  }

  lemma CarriedIsClassified(line: string, payload: string)
    requires Carries(line, payload)
    ensures Classify(line) == if payload == "[DONE]" then DoneMark else Payload(payload)
  {
    var lead, tail :| AllSpace(lead) && AllSpace(tail) && line == "data:" + lead + payload + tail;
    var head := "data:" + lead + payload;
    TrimReturnsKeeps(head, tail);
    var k :| 0 <= k <= |tail| && TrimReturns(line) == head + tail[..k];
    Regroup("data:" + lead, payload, tail[..k]);
    Regroup("data:", lead, payload + tail[..k]);
    ClassifyOf(line, lead + (payload + tail[..k]));
    TrimmedPayload(lead, payload, tail[..k]);
  }

  lemma TrimmedPayload(lead: string, payload: string, tail: string)
    requires payload != "" && !IsSpace(payload[0]) && !IsSpace(payload[|payload| - 1]) && AllSpace(lead) && AllSpace(tail)
    ensures TrimEnd(TrimStart(lead + (payload + tail))) == payload
  {
    TrimStartSkips(lead, payload + tail);
    TrimEndSkips(payload, tail);
  }

  lemma TrimCuts(s: string) returns (i: nat, j: nat)
    ensures i <= j <= |s| && AllSpace(s[..i]) && AllSpace(s[j..]) && TrimEnd(TrimStart(s)) == s[i..j]
    ensures i < j ==> !IsSpace(s[i]) && !IsSpace(s[j - 1])
  {
    i := TrimStartCuts(s);
    var k := TrimEndCuts(s[i..]);
    j := i + k;
    assert s[i..][..k] == s[i..j];
    assert forall m :: j <= m < |s| ==> s[m] == s[i..][m - i];
    assert k > 0 ==> s[j - 1] == s[i..][k - 1];
  }

  lemma ClassifiedIsCarried(line: string)
    ensures Classify(line).DoneMark? ==> Carries(line, "[DONE]")
    ensures Classify(line).Payload? ==> Carries(line, Classify(line).text)
  {
    var k := TrimReturnsCuts(line);
    if "data:" <= line[..k] {
      var text := line[..k][5..];
      assert line[..k] == "data:" + text && line == line[..k] + line[k..];
      ClassifyOf(line, text);
      var i, j := TrimCuts(text);
      if i < j {
        PiecesCarry(line, text, line[k..], i, j);
      }
    }
  }

  lemma PiecesCarry(line: string, rest: string, end: string, i: nat, j: nat)
    requires line == "data:" + rest + end && AllSpace(end)
    requires i < j <= |rest| && AllSpace(rest[..i]) && AllSpace(rest[j..]) && !IsSpace(rest[i]) && !IsSpace(rest[j - 1])
    ensures Carries(line, rest[i..j])
  {
    var lead, payload, tail := rest[..i], rest[i..j], rest[j..] + end;
    assert rest == lead + payload + rest[j..];
    assert AllSpace(tail);
    assert line == "data:" + lead + payload + tail;
  }

  /** The payload of a line, if any, is the one text between `data:` and the white space around it; one text is the end mark. */
  lemma ClassifyInPlainTerms(line: string, payload: string)
    ensures Classify(line).DoneMark? <==> Carries(line, "[DONE]")
    ensures Classify(line) == Payload(payload) <==> payload != "[DONE]" && Carries(line, payload)
  {
    ClassifiedIsCarried(line);
    if Carries(line, "[DONE]") {
      CarriedIsClassified(line, "[DONE]");
    }
    if Carries(line, payload) {
      CarriedIsClassified(line, payload);
    }
  }

  function Joined(lines: seq<string>): string {
    if lines == [] then "" else lines[0] + "\n" + Joined(lines[1..])
  }

  /** The complete lines, each with its newline, and a rest without one make up the text again. */
  lemma {:induction false} CompleteLinesInPlainTerms(text: string) returns (rest: string)
    ensures Joined(CompleteLines(text)) + rest == text && '\n' !in rest
    decreases |text|
  {
    var n := FirstNewline(text);
    if n == |text| {
      rest := text;
    } else {
      rest := CompleteLinesInPlainTerms(text[n + 1..]);
      FirstLineJoins(text[..n], CompleteLines(text[n + 1..]), rest);
      TextAroundNewline(text, n);
    }
  }

  lemma TextAroundNewline(text: string, n: nat)
    requires n < |text| && text[n] == '\n'
    ensures text == text[..n] + "\n" + text[n + 1..]
  {}

  lemma {:induction false} NoLineHoldsANewline(text: string, i: nat)
    requires i < |CompleteLines(text)|
    ensures '\n' !in CompleteLines(text)[i]
    decreases i
  {
    if i > 0 {
      NoLineHoldsANewline(text[FirstNewline(text) + 1..], i - 1);
    }
  }

  lemma FirstLineJoins(line: string, lines: seq<string>, rest: string)
    ensures Joined([line] + lines) + rest == line + "\n" + (Joined(lines) + rest)
  {
    assert ([line] + lines)[1..] == lines;
  }

  // ---- what a turn says

  /** What one line adds to the turn: the content and the fragments of its chunk, or nothing. */
  ghost predicate Adds(line: string, parse: string -> Parsed, content: string, calls: seq<Fragment>) {
    || (exists payload :: CarriesDelta(line, parse, payload) && IsDelta(parse(payload).delta.value, content, calls))
    || ((forall payload :: !CarriesDelta(line, parse, payload)) && content == "" && calls == [])
  }

  predicate IsDelta(d: Delta, content: string, calls: seq<Fragment>) {
    calls == d.calls && content == if d.content.Some? then d.content.value else ""
  }

  ghost predicate CarriesDelta(line: string, parse: string -> Parsed, payload: string) {
    payload != "[DONE]" && Carries(line, payload) && parse(payload).Chunk? && parse(payload).delta.Some?
  }

  ghost predicate CarriesError(line: string, parse: string -> Parsed, message: string) {
    exists payload :: payload != "[DONE]" && Carries(line, payload) && parse(payload) == ErrorObject(message)
  }

  predicate NotEmpty(s: string) {
    s != ""
  }

  /** Up to `n` nothing ends the turn; `contents` and `calls` are what each of those lines adds. */
  ghost predicate Runs(lines: seq<string>, parse: string -> Parsed, n: nat, contents: seq<string>, calls: seq<seq<Fragment>>) {
    && n <= |lines| && |contents| == n && |calls| == n
    && forall i :: 0 <= i < n ==>
         !Carries(lines[i], "[DONE]") && (forall message :: !CarriesError(lines[i], parse, message))
         && Adds(lines[i], parse, contents[i], calls[i])
  }

  /** The progress after those lines. */
  function After(p: Progress, contents: seq<string>, calls: seq<seq<Fragment>>): Progress {
    Progress(p.text + Concat(contents), p.said + Filter(contents, NotEmpty), p.fragments + Concat(calls))
  }

  /** One line later. */
  function Plus(p: Progress, content: string, calls: seq<Fragment>): Progress {
    Progress(p.text + content, p.said + (if content != "" then [content] else []), p.fragments + calls)
  }

  lemma AfterOne(p: Progress, contents: seq<string>, calls: seq<seq<Fragment>>)
    requires |contents| > 0 && |calls| > 0
    ensures After(Plus(p, contents[0], calls[0]), contents[1..], calls[1..]) == After(p, contents, calls)
  {
    ConcatFirst(contents);
    ConcatFirst(calls);
    FilterFirst(contents);
    Regroup(p.text, contents[0], Concat(contents[1..]));
    Regroup(p.fragments, calls[0], Concat(calls[1..]));
    Regroup(p.said, if contents[0] != "" then [contents[0]] else [], Filter(contents[1..], NotEmpty));
  }

  lemma ConcatFirst<T>(parts: seq<seq<T>>)
    requires parts != []
    ensures Concat(parts) == parts[0] + Concat(parts[1..])
  {
    assert parts == [parts[0]] + parts[1..];
    ConcatCons(parts[0], parts[1..]);
  }

  lemma FilterFirst(parts: seq<string>)
    requires parts != []
    ensures Filter(parts, NotEmpty) == (if parts[0] != "" then [parts[0]] else []) + Filter(parts[1..], NotEmpty)
  {
    assert parts == [parts[0]] + parts[1..];
    FilterConcat([parts[0]], parts[1..], NotEmpty);
    FilterAppends([], parts[0], NotEmpty);
    assert [] + [parts[0]] == [parts[0]];
  }

  /** What a line that does not end the turn is classified as. */
  lemma AddsByClass(line: string, parse: string -> Parsed, content: string, calls: seq<Fragment>)
    requires !Carries(line, "[DONE]") && (forall message :: !CarriesError(line, parse, message)) && Adds(line, parse, content, calls)
    ensures !Classify(line).DoneMark?
    ensures Classify(line).Ignored? ==> content == "" && calls == []
    ensures Classify(line).Payload? ==>
      var v := parse(Classify(line).text);
      && !v.ErrorObject?
      && if v.Chunk? && v.delta.Some? then IsDelta(v.delta.value, content, calls) else content == "" && calls == []
  {
    ClassifiedIsCarried(line);
    forall payload | CarriesDelta(line, parse, payload) ensures Classify(line) == Payload(payload) {
      CarriedIsClassified(line, payload);
    }
    if Classify(line).Payload? {
      var text := Classify(line).text;
      ClassifyInPlainTerms(line, text);
      assert parse(text).ErrorObject? ==> CarriesError(line, parse, parse(text).message);
      assert parse(text).Chunk? && parse(text).delta.Some? ==> CarriesDelta(line, parse, text);
    }
  }

  lemma FoldIsPlus(p: Progress, delta: Option<Delta>, content: string, calls: seq<Fragment>)
    requires if delta.Some? then IsDelta(delta.value, content, calls) else content == "" && calls == []
    ensures Fold(p, delta) == Plus(p, content, calls)
  {
    NothingAdded(p);
  }

  lemma NothingAdded(p: Progress)
    ensures Plus(p, "", []) == p
  {}

  /** One line that does not end the turn. */
  lemma OneLine(p: Progress, lines: seq<string>, e: Ending, parse: string -> Parsed, content: string, calls: seq<Fragment>)
    requires lines != [] && !Carries(lines[0], "[DONE]") && (forall message :: !CarriesError(lines[0], parse, message))
    requires Adds(lines[0], parse, content, calls)
    ensures Batch(p, lines, e, parse) == Batch(Plus(p, content, calls), lines[1..], e, parse)
  {
    var line := lines[0];
    AddsByClass(line, parse, content, calls);
    NothingAdded(p);
    if Classify(line).Payload? && parse(Classify(line).text).Chunk? {
      FoldIsPlus(p, parse(Classify(line).text).delta, content, calls);
    }
  }

  lemma OneLineLess(lines: seq<string>, parse: string -> Parsed, n: nat, contents: seq<string>, calls: seq<seq<Fragment>>)
    requires n > 0 && Runs(lines, parse, n, contents, calls)
    ensures Runs(lines[1..], parse, n - 1, contents[1..], calls[1..])
  {
    forall i | 0 <= i < n - 1
      ensures !Carries(lines[1..][i], "[DONE]") && (forall message :: !CarriesError(lines[1..][i], parse, message))
      ensures Adds(lines[1..][i], parse, contents[1..][i], calls[1..][i])
    {
      assert lines[1..][i] == lines[i + 1] && contents[1..][i] == contents[i + 1] && calls[1..][i] == calls[i + 1];
    }
  }

  lemma {:induction false} BatchSkips(p: Progress, lines: seq<string>, e: Ending, parse: string -> Parsed, n: nat,
                                     contents: seq<string>, calls: seq<seq<Fragment>>)
    requires Runs(lines, parse, n, contents, calls)
    ensures Batch(p, lines, e, parse) == Batch(After(p, contents, calls), lines[n..], e, parse)
    decreases n
  {
    if n == 0 {
      assert contents == [] && calls == [] && lines[0..] == lines;
      assert After(p, [], []) == p;
    } else {
      OneLineLess(lines, parse, n, contents, calls);
      OneLine(p, lines, e, parse, contents[0], calls[0]);
      AfterOne(p, contents, calls);
      BatchSkips(Plus(p, contents[0], calls[0]), lines[1..], e, parse, n - 1, contents[1..], calls[1..]);
      assert lines[1..][n - 1..] == lines[n..];
    }
  }

  /**
   Line by line: the callback gets the non-empty contents of the chunks in order, up to the first line that ends the
   turn. The turn ends well at `[DONE]` or where the body closes, with the contents as its text and the calls all
   their fragments spell; an error object, or the stream breaking first, fails it.
   */
  lemma TurnIsWhatTheChunksSay(lines: seq<string>, e: Ending, parse: string -> Parsed, n: nat, contents: seq<string>, calls: seq<seq<Fragment>>)
    requires Runs(lines, parse, n, contents, calls)
    requires n < |lines| ==> Carries(lines[n], "[DONE]") || exists message :: CarriesError(lines[n], parse, message)
    ensures var d := Batch(START, lines, e, parse);
            && d.said == Filter(contents, NotEmpty)
            && (d.result.Ok? <==> if n < |lines| then Carries(lines[n], "[DONE]") else e.Closed?)
            && (d.result.Ok? ==> d.result.value == Turn(Concat(contents), Finish(Slots(Concat(calls)))))
            && (n == |lines| && e.Broke? ==> d.result.error == STREAM_BROKE)
            && forall message :: n < |lines| && CarriesError(lines[n], parse, message) ==>
                 d.result == Err("chat endpoint error: " + message)
  {
    BatchSkips(START, lines, e, parse, n, contents, calls);
    var p := After(START, contents, calls);
    assert p == Progress(Concat(contents), Filter(contents, NotEmpty), Concat(calls));
    if n < |lines| {
      var left := lines[n..];
      assert left[0] == lines[n];
      ClassifyInPlainTerms(lines[n], "");
      forall message | CarriesError(lines[n], parse, message)
        ensures Batch(p, left, e, parse) == Decoded(Err("chat endpoint error: " + message), p.said)
      {
        var payload :| payload != "[DONE]" && Carries(lines[n], payload) && parse(payload) == ErrorObject(message);
        ClassifyInPlainTerms(lines[n], payload);
      }
    }
  }

  /** On success the callback was given exactly the text of the turn, in non-empty pieces. */
  lemma {:induction false} SaidIsTheText(p: Progress, lines: seq<string>, ending: Ending, parse: string -> Parsed)
    requires Concat(p.said) == p.text && "" !in p.said
    ensures var d := Batch(p, lines, ending, parse); (d.result.Ok? ==> Concat(d.said) == d.result.value.text) && "" !in d.said
    decreases |lines|
  {
    if lines != [] {
      match Classify(lines[0])
      case Ignored => SaidIsTheText(p, lines[1..], ending, parse);
      case DoneMark =>
      case Payload(text) =>
        match parse(text)
        case Invalid => SaidIsTheText(p, lines[1..], ending, parse);
        case ErrorObject(_) =>
        case Chunk(delta) =>
          FoldSays(p, delta);
          SaidIsTheText(Fold(p, delta), lines[1..], ending, parse);
    }
  }

  lemma FoldSays(p: Progress, delta: Option<Delta>)
    requires Concat(p.said) == p.text && "" !in p.said
    ensures Concat(Fold(p, delta).said) == Fold(p, delta).text && "" !in Fold(p, delta).said
  {}

  /** Nothing after a `[DONE]` line is looked at, not even how the stream ends. */
  lemma {:induction false} NothingAfterDone(p: Progress, lines: seq<string>, done: string, more: seq<string>, e: Ending, f: Ending, parse: string -> Parsed)
    requires Classify(done).DoneMark?
    ensures Batch(p, lines + [done] + more, e, parse) == Batch(p, lines + [done], f, parse)
    decreases |lines|
  {
    var all := lines + [done] + more;
    if lines == [] {
      assert all[0] == done;
    } else {
      assert all[1..] == lines[1..] + [done] + more && (lines + [done])[1..] == lines[1..] + [done];
      match Classify(lines[0])
      case Ignored => NothingAfterDone(p, lines[1..], done, more, e, f, parse);
      case DoneMark =>
      case Payload(text) =>
        match parse(text)
        case Invalid => NothingAfterDone(p, lines[1..], done, more, e, f, parse);
        case ErrorObject(_) =>
        case Chunk(delta) => NothingAfterDone(Fold(p, delta), lines[1..], done, more, e, f, parse);
    }
  }
}

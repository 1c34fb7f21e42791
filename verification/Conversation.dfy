/**
 The interactive agent's memory: the history it sends to the model, and the session file it appends every
 user and assistant turn to. Compaction is off and session writes succeed.
 */
module Conversation {
  import opened Common
  import opened ToolCalls

  datatype Message =
    | System(text: string)
    | User(text: string)
    | Assistant(text: string)
    | ToolRequest(calls: seq<ToolCall>)
    | ToolResult(callId: string, content: string)

  /** The white space JSON allows around a value; any other white space makes a line unreadable. */
  type JsonSpace = s: string | forall c :: c in s ==> c == ' ' || c == '\t' || c == '\r'

  /** One line of a session file: a JSON value read as a turn, JSON white space, or anything else. */
  datatype Line = Stored(role: string, content: string) | Blank(text: JsonSpace) | Garbled

  /** The lines ended by a newline, and an unfinished last line if the file does not end with one. */
  datatype Log = Log(lines: seq<Line>, tail: Option<Line>)

  type Files = map<string, Log>

  const NO_LOG := Log([], None)

  /** A file that ends with a newline, or with nothing but JSON white space after the last one. */
  predicate Terminated(log: Log) {
    log.tail.None? || log.tail.value.Blank?
  }

  function AllLines(log: Log): seq<Line> {
    log.lines + if log.tail.Some? then [log.tail.value] else []
  }

  /** What a line becomes when it is written right behind an unfinished one. */
  function Behind(tail: Option<Line>, l: Line): Line {
    if tail.None? || tail.value.Blank? then l else Garbled
  }

  function Appended(log: Log, l: Line): Log {
    Log(log.lines + [Behind(log.tail, l)], None)
  }

  /** Dropping the last line and rewriting the rest, each with its newline. */
  function LastRemoved(log: Log): Log {
    var all := AllLines(log);
    if all == [] then log
    else
      var rest := all[..|all| - 1];
      Log(if rest == [Blank("")] then [] else rest, None)
  }

  function MessageOf(l: Line): seq<Message> {
    match l
    case Stored(role, content) => if role == "assistant" then [Assistant(content)] else [User(content)]
    case _ => []
  }

  function MessagesOf(lines: seq<Line>): seq<Message> {
    if lines == [] then [] else MessagesOf(lines[..|lines| - 1]) + MessageOf(lines[|lines| - 1])
  }

  /** The messages a session file replays to; a missing file replays to nothing. */
  function Replay(files: Files, id: string): seq<Message> {
    if id in files then MessagesOf(AllLines(files[id])) else []
  }

  /** The user and assistant messages of a history. */
  function Spoken(history: seq<Message>): seq<Message> {
    if history == [] then []
    else
      var m := history[|history| - 1];
      Spoken(history[..|history| - 1]) + if m.User? || m.Assistant? then [m] else []
  }

  /** A tool call and the text its run produced. */
  type Ran = (ToolCall, string)

  /** How a prompt ends once the model stops asking for tools. */
  datatype Ending = Fails | Says(text: string)

  function Output(text: string): string {
    if text == "" then "(no output)" else text
  }

  function CallsOf(round: seq<Ran>): seq<ToolCall> {
    if round == [] then [] else [round[0].0] + CallsOf(round[1..])
  }

  function ResultsOf(round: seq<Ran>): seq<Message> {
    if round == [] then [] else ResultsOf(round[..|round| - 1]) + [ToolResult(round[|round| - 1].0.id, Output(round[|round| - 1].1))]
  }

  function RoundMessages(rounds: seq<seq<Ran>>): seq<Message> {
    if rounds == [] then []
    else
      var last := rounds[|rounds| - 1];
      RoundMessages(rounds[..|rounds| - 1]) + [ToolRequest(CallsOf(last))] + ResultsOf(last)
  }

  /** Everything the agent keeps. */
  datatype Memory = Memory(history: seq<Message>, id: string, files: Files)

  function LogOf(m: Memory): Log {
    if m.id in m.files then m.files[m.id] else NO_LOG
  }

  /** A prompt whose first call already fails leaves no trace in the history; any other stays. */
  function AfterPrompt(m: Memory, text: string, rounds: seq<seq<Ran>>, ending: Ending): Memory {
    var asked := Appended(LogOf(m), Stored("user", text));
    if ending.Fails? && rounds == [] then m.(files := m.files[m.id := LastRemoved(asked)])
    else
      var h := m.history + [User(text)] + RoundMessages(rounds);
      if ending.Fails? || ending.text == "" then Memory(h, m.id, m.files[m.id := asked])
      else Memory(h + [Assistant(ending.text)], m.id, m.files[m.id := Appended(asked, Stored("assistant", ending.text))])
  }

  function AfterClear(m: Memory, prompt: string, id: string): Memory {
    Memory([System(prompt)], id, m.files)
  }

  function AfterSwitch(m: Memory, prompt: string, id: string): Memory {
    Memory([System(prompt)] + Replay(m.files, id), id, m.files)
  }

  class Agent {
    const prompt: string
    var history: seq<Message>
    var id: string
    var files: Files

    function Contents(): Memory
      reads this
    {
      Memory(history, id, files)
    }

    constructor (prompt: string, id: string, files: Files)
      ensures Contents() == Memory([System(prompt)] + Replay(files, id), id, files)
    {
      this.prompt, this.id, this.files := prompt, id, files;
      history := [System(prompt)] + Replay(files, id);
    }

    method Append(role: string, content: string)
      modifies this`files
      ensures files == old(files)[id := Appended(LogOf(old(Contents())), Stored(role, content))]
    {
      var log := if id in files then files[id] else NO_LOG;
      files := files[id := Appended(log, Stored(role, content))];
    }

    method RemoveLast()
      modifies this`files
      ensures files == if id in old(files) then old(files)[id := LastRemoved(old(files)[id])] else old(files)
    {
      if id in files {
        files := files[id := LastRemoved(files[id])];
      }
    }

    method Clear(minted: string)
      modifies this
      ensures Contents() == AfterClear(old(Contents()), prompt, minted)
      ensures history == [System(prompt)] && id == minted && files == old(files)
    {
      id := minted;
      history := [System(prompt)];
    }

    method Switch(to: string)
      modifies this
      ensures Contents() == AfterSwitch(old(Contents()), prompt, to)
      ensures history == [System(prompt)] + Replay(files, to) && id == to && files == old(files)
    {
      id := to;
      history := [System(prompt)];
      if to in files {
        history := history + MessagesOf(AllLines(files[to]));
      }
    }

    /** One prompt: the user turn, then model calls until one asks for no tool or fails. */
    method Prompt(text: string, rounds: seq<seq<Ran>>, ending: Ending)
      requires forall round :: round in rounds ==> round != []
      modifies this
      ensures Contents() == AfterPrompt(old(Contents()), text, rounds, ending)
    {
      ghost var was := Contents();
      ghost var log := Appended(LogOf(was), Stored("user", text));
      history := history + [User(text)];
      Append("user", text);
      ghost var asked := history;
      RunRounds(rounds);
      match ending {
        case Fails =>
          LastAfterRounds(asked, rounds);
          assert history[|history| - 1].User? <==> rounds == [];
          if history[|history| - 1].User? {
            history := history[..|history| - 1];
            RemoveLast();
          }
        case Says(reply) =>
          if reply != "" {
            history := history + [Assistant(reply)];
            Append("assistant", reply);
          }
      }
    }

    /** One round of tool calls for every answer that asks for some. */
    method RunRounds(rounds: seq<seq<Ran>>)
      modifies this`history
      ensures history == old(history) + RoundMessages(rounds)
    {
      ghost var asked := history;
      var i := 0;
      while i < |rounds|
        invariant i <= |rounds|
        invariant history == asked + RoundMessages(rounds[..i])
      {
        assert rounds[..i + 1][..i] == rounds[..i];
        RunTools(rounds[i]);
        i := i + 1;
      }
      assert rounds[..i] == rounds;
    }

    /** The calls the model asked for, then one result for each. */
    method RunTools(round: seq<Ran>)
      modifies this`history
      ensures history == old(history) + [ToolRequest(CallsOf(round))] + ResultsOf(round)
    {
      history := history + [ToolRequest(CallsOf(round))];
      ghost var start := history;
      for k := 0 to |round|
        invariant history == start + ResultsOf(round[..k])
      {
        assert round[..k + 1][..k] == round[..k];
        var (call, text) := round[k];
        history := history + [ToolResult(call.id, if text == "" then "(no output)" else text)];
      }
      assert round[..|round|] == round;
    }
  }

  lemma LastAfterRounds(h: seq<Message>, rounds: seq<seq<Ran>>)
    requires h != [] && forall round :: round in rounds ==> round != []
    ensures var all := h + RoundMessages(rounds);
            rounds != [] ==> all[|all| - 1].ToolResult?
  {
    if rounds != [] {
      assert rounds[|rounds| - 1] in rounds;
    }
  }

  // ---- the session file and the history agree

  /** At a prompt, replaying the session file gives the user and assistant messages of the history. */
  predicate Agrees(m: Memory) {
    Replay(m.files, m.id) == Spoken(m.history)
  }

  predicate Ready(m: Memory) {
    Agrees(m) && Terminated(LogOf(m))
  }

  lemma SpokenSplits(a: seq<Message>, b: seq<Message>)
    ensures Spoken(a + b) == Spoken(a) + Spoken(b)
    decreases |b|
  {
    if b == [] {
      assert a + b == a;
    } else {
      assert (a + b)[..|a + b| - 1] == a + b[..|b| - 1];
      SpokenSplits(a, b[..|b| - 1]);
    }
  }

  lemma {:induction false} ToolsAreUnspoken(rounds: seq<seq<Ran>>)
    ensures Spoken(RoundMessages(rounds)) == []
    decreases |rounds|
  {
    if rounds != [] {
      var front, last := rounds[..|rounds| - 1], rounds[|rounds| - 1];
      ToolsAreUnspoken(front);
      ResultsAreUnspoken(last);
      SpokenSplits(RoundMessages(front) + [ToolRequest(CallsOf(last))], ResultsOf(last));
      SpokenSplits(RoundMessages(front), [ToolRequest(CallsOf(last))]);
    }
  }

  lemma {:induction false} ResultsAreUnspoken(round: seq<Ran>)
    ensures Spoken(ResultsOf(round)) == []
    decreases |round|
  {
    if round != [] {
      ResultsAreUnspoken(round[..|round| - 1]);
      SpokenSplits(ResultsOf(round[..|round| - 1]), [ToolResult(round[|round| - 1].0.id, Output(round[|round| - 1].1))]);
    }
  }

  lemma {:induction false} ReplayIsSpoken(lines: seq<Line>)
    ensures Spoken(MessagesOf(lines)) == MessagesOf(lines)
    decreases |lines|
  {
    if lines != [] {
      ReplayIsSpoken(lines[..|lines| - 1]);
      SpokenSplits(MessagesOf(lines[..|lines| - 1]), MessageOf(lines[|lines| - 1]));
    }
  }

  lemma MessagesAppend(lines: seq<Line>, l: Line)
    ensures MessagesOf(lines + [l]) == MessagesOf(lines) + MessageOf(l)
  {}

  /** Appending to a terminated file replays one more message. */
  lemma AppendReplays(log: Log, l: Line)
    requires Terminated(log)
    ensures MessagesOf(AllLines(Appended(log, l))) == MessagesOf(AllLines(log)) + MessageOf(l)
    ensures Terminated(Appended(log, l))
  {
    MessagesAppend(log.lines, l);
    LinesReplay(log);
    assert AllLines(Appended(log, l)) == log.lines + [l];
  }

  lemma LinesReplay(log: Log)
    requires Terminated(log)
    ensures MessagesOf(AllLines(log)) == MessagesOf(log.lines)
  {
    if log.tail.Some? {
      MessagesAppend(log.lines, log.tail.value);
    } else {
      assert AllLines(log) == log.lines;
    }
  }

  /** Removing the line just appended to a terminated file gives back what it replayed to. */
  lemma RemoveUndoesAppend(log: Log, l: Line)
    requires Terminated(log)
    ensures MessagesOf(AllLines(LastRemoved(Appended(log, l)))) == MessagesOf(AllLines(log))
    ensures Terminated(LastRemoved(Appended(log, l)))
  {
    var all := AllLines(Appended(log, l));
    assert all == log.lines + [Behind(log.tail, l)];
    assert all[..|all| - 1] == log.lines;
    var left := LastRemoved(Appended(log, l));
    LinesReplay(log);
    LinesReplay(left);
    if log.lines == [Blank("")] {
      MessagesAppend([], Blank(""));
      assert [] + [Blank("")] == log.lines;
    }
  }

  lemma PromptKeepsAgreement(m: Memory, text: string, rounds: seq<seq<Ran>>, ending: Ending)
    requires Ready(m)
    ensures Ready(AfterPrompt(m, text, rounds, ending))
  {
    var log, asked := LogOf(m), Appended(LogOf(m), Stored("user", text));
    assert MessagesOf(AllLines(log)) == Replay(m.files, m.id);
    AppendReplays(log, Stored("user", text));
    RemoveUndoesAppend(log, Stored("user", text));
    AppendReplays(asked, Stored("assistant", if ending.Says? then ending.text else ""));
    SpokenAfter(m.history, text, rounds, ending);
  }

  lemma SpokenAfter(h: seq<Message>, text: string, rounds: seq<seq<Ran>>, ending: Ending)
    ensures var said := h + [User(text)] + RoundMessages(rounds);
            Spoken(said) == Spoken(h) + [User(text)]
            && (ending.Says? ==> Spoken(said + [Assistant(ending.text)]) == Spoken(h) + [User(text)] + [Assistant(ending.text)])
  {
    var asked := h + [User(text)];
    SpokenSplits(h, [User(text)]);
    ToolsAreUnspoken(rounds);
    SpokenSplits(asked, RoundMessages(rounds));
    if ending.Says? {
      SpokenSplits(asked + RoundMessages(rounds), [Assistant(ending.text)]);
    }
  }

  /** The speaking messages of a history, in order. */
  lemma {:induction false} SpokenIsFilter(history: seq<Message>)
    ensures Spoken(history) == Filter(history, (m: Message) => m.User? || m.Assistant?)
    decreases |history|
  {
    if history != [] {
      SpokenIsFilter(history[..|history| - 1]);
    }
  }

  /** A stored line replays as its speaker's message, any role but the assistant's as the user's; other lines as nothing. */
  lemma ReplayLineByLine(lines: seq<Line>, role: string, content: string, other: Line)
    requires !other.Stored?
    ensures MessagesOf([]) == [] && MessagesOf(lines + [other]) == MessagesOf(lines)
    ensures MessagesOf(lines + [Stored(role, content)])
         == MessagesOf(lines) + if role == "assistant" then [Assistant(content)] else [User(content)]
  {
    MessagesAppend(lines, other);
    MessagesAppend(lines, Stored(role, content));
  }

  /** What a round of tool calls leaves: the calls, then each call's text under its id, "(no output)" for an empty one. */
  ghost predicate IsBlock(block: seq<Message>, round: seq<Ran>) {
    && |block| == |round| + 1 && block[0].ToolRequest? && |block[0].calls| == |round|
    && forall k :: 0 <= k < |round| ==>
         && block[0].calls[k] == round[k].0
         && block[k + 1] == ToolResult(round[k].0.id, if round[k].1 == "" then "(no output)" else round[k].1)
  }

  lemma BlockOfRound(block: seq<Message>, round: seq<Ran>)
    requires IsBlock(block, round)
    ensures block == [ToolRequest(CallsOf(round))] + ResultsOf(round)
  {
    CallsAt(round);
    ResultsMatchCalls(round);
    assert block[0].calls == CallsOf(round);
    assert block[1..] == ResultsOf(round);
    assert block == [block[0]] + block[1..];
  }

  lemma {:induction false} RoundsAreBlocks(rounds: seq<seq<Ran>>, blocks: seq<seq<Message>>)
    requires |blocks| == |rounds| && forall i :: 0 <= i < |rounds| ==> IsBlock(blocks[i], rounds[i])
    ensures RoundMessages(rounds) == Concat(blocks)
    decreases |rounds|
  {
    if rounds != [] {
      var n := |rounds| - 1;
      RoundsAreBlocks(rounds[..n], blocks[..n]);
      BlockOfRound(blocks[n], rounds[n]);
      assert RoundMessages(rounds[..n]) + ([ToolRequest(CallsOf(rounds[n]))] + ResultsOf(rounds[n])) == RoundMessages(rounds);
    }
  }

  /**
   Message by message: a prompt whose first call fails leaves history and replay as they were; any other leaves the
   user turn, the rounds of tools and, when there is one, the reply in the history, and the two turns in the replay.
   */
  lemma PromptInPlainTerms(m: Memory, text: string, rounds: seq<seq<Ran>>, blocks: seq<seq<Message>>, ending: Ending)
    requires m.id in m.files ==> Terminated(m.files[m.id])
    requires |blocks| == |rounds| && forall i :: 0 <= i < |rounds| ==> IsBlock(blocks[i], rounds[i])
    ensures var after := AfterPrompt(m, text, rounds, ending);
            var reply := if ending.Says? && ending.text != "" then [Assistant(ending.text)] else [];
            && after.id == m.id
            && (forall id :: id != m.id ==> (id in after.files <==> id in m.files) && (id in m.files ==> after.files[id] == m.files[id]))
            && (ending.Fails? && rounds == [] ==>
                  after.history == m.history && Replay(after.files, m.id) == Replay(m.files, m.id))
            && (!(ending.Fails? && rounds == []) ==>
                  && after.history == m.history + [User(text)] + Concat(blocks) + reply
                  && Replay(after.files, m.id) == Replay(m.files, m.id) + [User(text)] + reply)
  {
    ReplayAfterPrompt(m, text, rounds, ending);
    RoundsAreBlocks(rounds, blocks);
    HistoryAfterPrompt(m, text, rounds, ending);
    NothingBehind(Replay(m.files, m.id));
    Regroup(Replay(m.files, m.id), [User(text)], if ending.Says? && ending.text != "" then [Assistant(ending.text)] else []);
  }

  lemma NothingBehind<T>(a: seq<T>)
    ensures a + [] == a
  {}

  lemma HistoryAfterPrompt(m: Memory, text: string, rounds: seq<seq<Ran>>, ending: Ending)
    ensures var after := AfterPrompt(m, text, rounds, ending);
            after.history ==
            if ending.Fails? && rounds == [] then m.history
            else
              m.history + [User(text)] + RoundMessages(rounds)
              + if ending.Says? && ending.text != "" then [Assistant(ending.text)] else []
  {
    NothingBehind(m.history + [User(text)] + RoundMessages(rounds));
  }

  lemma ReplayAfterPrompt(m: Memory, text: string, rounds: seq<seq<Ran>>, ending: Ending)
    requires m.id in m.files ==> Terminated(m.files[m.id])
    ensures var after := AfterPrompt(m, text, rounds, ending);
            Replay(after.files, m.id) == Replay(m.files, m.id) +
              if ending.Fails? && rounds == [] then []
              else [User(text)] + if ending.Says? && ending.text != "" then [Assistant(ending.text)] else []
  {
    var log, asked := LogOf(m), Appended(LogOf(m), Stored("user", text));
    var before := Replay(m.files, m.id);
    assert MessagesOf(AllLines(log)) == before;
    AppendReplays(log, Stored("user", text));
    NothingBehind(before);
    NothingBehind([User(text)]);
    if ending.Fails? && rounds == [] {
      RemoveUndoesAppend(log, Stored("user", text));
    } else if ending.Says? {
      AppendReplays(asked, Stored("assistant", ending.text));
      Regroup(before, [User(text)], [Assistant(ending.text)]);
    }
  }

  lemma SwitchAgrees(m: Memory, prompt: string, id: string)
    ensures Agrees(AfterSwitch(m, prompt, id))
  {
    var lines := if id in m.files then AllLines(m.files[id]) else [];
    ReplayIsSpoken(lines);
    SpokenSplits([System(prompt)], MessagesOf(lines));
    assert MessagesOf(lines) == Replay(m.files, id);
  }

  /** `/clear` never replays, so it agrees exactly when the minted session has nothing to replay. */
  lemma ClearAgreesIffNothingToReplay(m: Memory, prompt: string, minted: string)
    ensures Agrees(AfterClear(m, prompt, minted)) <==> Replay(m.files, minted) == []
  {
    assert Spoken([System(prompt)]) == [];
  }

  datatype Event =
    | Clear(minted: string)
    | Switch(id: string)
    | Ask(text: string, rounds: seq<seq<Ran>>, ending: Ending)

  function Apply(m: Memory, prompt: string, e: Event): Memory {
    match e
    case Clear(minted) => AfterClear(m, prompt, minted)
    case Switch(id) => AfterSwitch(m, prompt, id)
    case Ask(text, rounds, ending) => AfterPrompt(m, text, rounds, ending)
  }

  /** Minted ids name no file, and a resumed file ends with a newline. */
  predicate Allowed(m: Memory, e: Event) {
    && (e.Clear? ==> e.minted !in m.files)
    && (e.Switch? && e.id in m.files ==> Terminated(m.files[e.id]))
    && (e.Ask? ==> forall round :: round in e.rounds ==> round != [])
  }

  predicate Runs(m: Memory, prompt: string, events: seq<Event>)
    decreases |events|
  {
    events == [] || (Allowed(m, events[0]) && Runs(Apply(m, prompt, events[0]), prompt, events[1..]))
  }

  function Final(m: Memory, prompt: string, events: seq<Event>): Memory
    decreases |events|
  {
    if events == [] then m else Final(Apply(m, prompt, events[0]), prompt, events[1..])
  }

  /** The memory of an agent just started on session `id`. */
  function Started(prompt: string, id: string, files: Files): Memory {
    Memory([System(prompt)] + Replay(files, id), id, files)
  }

  // ---- tool calls and their results

  /** `next` starts with one result per call, in order, by id. */
  predicate Answered(calls: seq<ToolCall>, next: seq<Message>) {
    |calls| <= |next| && forall k :: 0 <= k < |calls| ==> next[k].ToolResult? && next[k].callId == calls[k].id
  }

  /** Every tool request is followed at once by one result per call, in order, by id, and no result stands elsewhere. */
  predicate Paired(h: seq<Message>)
    decreases |h|
  {
    if h == [] then true
    else if h[0].ToolRequest? then
      Answered(h[0].calls, h[1..]) && Paired(h[1..][|h[0].calls|..])
    else !h[0].ToolResult? && Paired(h[1..])
  }

  /** Right behind each request stands the result of each of its calls, in order. */
  lemma {:induction false} EveryCallIsAnswered(h: seq<Message>, i: nat, k: nat)
    requires Paired(h) && i < |h| && h[i].ToolRequest? && k < |h[i].calls|
    ensures i + 1 + k < |h| && h[i + 1 + k].ToolResult? && h[i + 1 + k].callId == h[i].calls[k].id
    decreases |h|
  {
    if i == 0 {
      assert h[1..][k] == h[1 + k];
    } else {
      var n := BehindTheFirst(h);
      EveryCallIsAnswered(h[n..], i - n, k);
    }
  }

  /** A result stands nowhere else. */
  lemma {:induction false} EveryResultAnswersACall(h: seq<Message>, j: nat) returns (i: nat)
    requires Paired(h) && j < |h| && h[j].ToolResult?
    ensures i < j && h[i].ToolRequest? && j - i - 1 < |h[i].calls|
    decreases |h|
  {
    var n := BehindTheFirst(h);
    if j < n {
      i := 0;
    } else {
      i := EveryResultAnswersACall(h[n..], j - n);
      i := i + n;
    }
  }

  /** Where what follows the first message and its results begins. */
  lemma BehindTheFirst(h: seq<Message>) returns (n: nat)
    requires Paired(h) && h != []
    ensures n == (if h[0].ToolRequest? then 1 + |h[0].calls| else 1) && n <= |h| && Paired(h[n..])
    ensures !h[0].ToolResult? && forall m :: 0 < m < n ==> h[m].ToolResult?
  {
    n := if h[0].ToolRequest? then 1 + |h[0].calls| else 1;
    assert h[0].ToolRequest? ==> h[1..][|h[0].calls|..] == h[n..];
    assert h[0].ToolRequest? ==> forall m :: 0 < m < n ==> h[m] == h[1..][m - 1];
  }

  lemma {:induction false} PairedConcat(a: seq<Message>, b: seq<Message>)
    requires Paired(a) && Paired(b)
    ensures Paired(a + b)
    decreases |a|
  {
    if a == [] {
      assert a + b == b;
    } else if a[0].ToolRequest? {
      var n := |a[0].calls|;
      assert (a + b)[1..] == a[1..] + b;
      assert (a + b)[1..][n..] == a[1..][n..] + b;
      PairedConcat(a[1..][n..], b);
    } else {
      assert (a + b)[1..] == a[1..] + b;
      PairedConcat(a[1..], b);
    }
  }

  lemma {:induction false} ResultsMatchCalls(round: seq<Ran>)
    ensures |ResultsOf(round)| == |round|
    ensures forall k :: 0 <= k < |round| ==> ResultsOf(round)[k] == ToolResult(round[k].0.id, Output(round[k].1))
    decreases |round|
  {
    if round != [] {
      var n := |round| - 1;
      ResultsMatchCalls(round[..n]);
      assert ResultsOf(round) == ResultsOf(round[..n]) + [ToolResult(round[n].0.id, Output(round[n].1))];
    }
  }

  lemma {:induction false} CallsAt(round: seq<Ran>)
    ensures |CallsOf(round)| == |round| && forall k :: 0 <= k < |round| ==> CallsOf(round)[k] == round[k].0
    decreases |round|
  {
    if round != [] {
      CallsAt(round[1..]);
    }
  }

  lemma OneRoundIsPaired(round: seq<Ran>)
    ensures Paired([ToolRequest(CallsOf(round))] + ResultsOf(round))
  {
    var block := [ToolRequest(CallsOf(round))] + ResultsOf(round);
    ResultsMatchCalls(round);
    CallsAt(round);
    assert block[1..] == ResultsOf(round);
    assert ResultsOf(round)[|round|..] == [];
  }

  lemma {:induction false} RoundsArePaired(rounds: seq<seq<Ran>>)
    ensures Paired(RoundMessages(rounds))
    decreases |rounds|
  {
    if rounds != [] {
      var front, last := rounds[..|rounds| - 1], rounds[|rounds| - 1];
      var before, request, results := RoundMessages(front), ToolRequest(CallsOf(last)), ResultsOf(last);
      RoundsArePaired(front);
      OneRoundIsPaired(last);
      PairedConcat(before, [request] + results);
      assert before + [request] + results == before + ([request] + results);
      assert RoundMessages(rounds) == before + [request] + results;
    }
  }

  lemma {:induction false} SpokenIsPaired(h: seq<Message>)
    requires forall i :: 0 <= i < |h| ==> h[i].User? || h[i].Assistant? || h[i].System?
    ensures Paired(h)
    decreases |h|
  {
    if h != [] {
      SpokenIsPaired(h[1..]);
    }
  }

  lemma {:induction false} ReplayKinds(lines: seq<Line>)
    ensures forall i :: 0 <= i < |MessagesOf(lines)| ==> MessagesOf(lines)[i].User? || MessagesOf(lines)[i].Assistant?
    decreases |lines|
  {
    if lines != [] {
      ReplayKinds(lines[..|lines| - 1]);
    }
  }

  lemma ReplayIsPaired(files: Files, id: string, prompt: string)
    ensures Paired([System(prompt)] + Replay(files, id))
  {
    if id in files {
      ReplayKinds(AllLines(files[id]));
    }
    SpokenIsPaired([System(prompt)] + Replay(files, id));
  }

  lemma EventKeepsPairing(m: Memory, prompt: string, e: Event)
    requires Paired(m.history)
    ensures Paired(Apply(m, prompt, e).history)
  {
    match e
    case Clear(_) =>
    case Switch(id) => ReplayIsPaired(m.files, id, prompt);
    case Ask(text, rounds, ending) =>
      RoundsArePaired(rounds);
      PairedConcat(m.history, [User(text)]);
      PairedConcat(m.history + [User(text)], RoundMessages(rounds));
      if ending.Says? {
        PairedConcat(m.history + [User(text)] + RoundMessages(rounds), [Assistant(ending.text)]);
      }
  }

  /**
   At every prompt of a run, across failed calls, `/clear` and conversation switches, replaying the session
   file gives exactly the user and assistant messages of the history, and tool results stand right behind
   the request they answer.
   */
  lemma {:induction false} FileAndHistoryAgree(m: Memory, prompt: string, events: seq<Event>)
    requires Ready(m) && Paired(m.history) && Runs(m, prompt, events)
    ensures Ready(Final(m, prompt, events)) && Paired(Final(m, prompt, events).history)
    decreases |events|
  {
    if events != [] {
      var e := events[0];
      EventKeepsPairing(m, prompt, e);
      match e {
        case Clear(minted) => ClearAgreesIffNothingToReplay(m, prompt, minted);
        case Switch(id) => SwitchAgrees(m, prompt, id);
        case Ask(text, rounds, ending) => PromptKeepsAgreement(m, text, rounds, ending);
      }
      FileAndHistoryAgree(Apply(m, prompt, e), prompt, events[1..]);
    }
  }

  /** The same from the start of the program, on a new session or a terminated one. */
  lemma RunFromStartAgrees(prompt: string, id: string, files: Files, events: seq<Event>)
    requires id in files ==> Terminated(files[id])
    requires Runs(Started(prompt, id, files), prompt, events)
    ensures Agrees(Final(Started(prompt, id, files), prompt, events))
    ensures Paired(Final(Started(prompt, id, files), prompt, events).history)
  {
    var m := Started(prompt, id, files);
    SwitchAgrees(m, prompt, id);
    ReplayIsPaired(files, id, prompt);
    FileAndHistoryAgree(m, prompt, events);
  }

  /**
   A prompt whose first call fails takes the last line of the file away again. On a resumed session that
   leaves file and history in step exactly when no stored turn stood unfinished at the end of the file.
   */
  lemma FailedPromptAgreesIffNoUnfinishedTurn(m: Memory, prompt: string, id: string, text: string)
    ensures Agrees(AfterPrompt(AfterSwitch(m, prompt, id), text, [], Fails))
      <==> id !in m.files || m.files[id].tail.None? || !m.files[id].tail.value.Stored?
  {
    var s := AfterSwitch(m, prompt, id);
    SwitchAgrees(m, prompt, id);
    if id !in m.files || Terminated(m.files[id]) {
      PromptKeepsAgreement(s, text, [], Fails);
    } else {
      var log := m.files[id];
      MessagesAppend(log.lines, log.tail.value);
      UnfinishedLineIsLost(log, Stored("user", text));
    }
  }

  lemma UnfinishedLineIsLost(log: Log, l: Line)
    requires !Terminated(log)
    ensures MessagesOf(AllLines(LastRemoved(Appended(log, l)))) == MessagesOf(log.lines)
  {
    var all := AllLines(Appended(log, l));
    assert all == log.lines + [Garbled] && all[..|all| - 1] == log.lines;
    assert AllLines(LastRemoved(Appended(log, l))) == if log.lines == [Blank("")] then [] else log.lines;
    if log.lines == [Blank("")] {
      MessagesAppend([], Blank(""));
      assert [] + [Blank("")] == log.lines;
    }
  }

  /**
   A resumed session stays in step with its file over an answered prompt exactly when the file ends with a
   newline: behind an unfinished line the user turn is unreadable.
   */
  lemma AnsweredPromptAgreesIffTerminated(m: Memory, prompt: string, id: string, text: string, rounds: seq<seq<Ran>>, ending: Ending)
    requires !(ending.Fails? && rounds == [])
    ensures Agrees(AfterPrompt(AfterSwitch(m, prompt, id), text, rounds, ending))
      <==> id !in m.files || Terminated(m.files[id])
  {
    var s := AfterSwitch(m, prompt, id);
    SwitchAgrees(m, prompt, id);
    if id !in m.files || Terminated(m.files[id]) {
      PromptKeepsAgreement(s, text, rounds, ending);
    } else {
      var log := m.files[id];
      var asked := Appended(log, Stored("user", text));
      MessagesAppend(log.lines, Garbled);
      MessagesAppend(log.lines, log.tail.value);
      assert AllLines(asked) == log.lines + [Garbled];
      if ending.Says? {
        AppendReplays(asked, Stored("assistant", ending.text));
      }
      SpokenAfter(s.history, text, rounds, ending);
    }
  }
}

/**
  The two line-buffered parsers of agent output. Text arrives in chunks cut anywhere; what reaches the
  sink must not depend on the cuts. A line can make the parser throw, and there it does.
*/
module NdjsonParsers {
  import opened Options
  import opened Text

  /** What a line of Claude output parses to, as far as the parser looks. `Headless` has no `event`. */
  datatype ClaudeValue = Null | Headless | ContentDelta | Assistant | Result | Another

  datatype ClaudeCall =
    | Raw(line: string) | Message(line: string)
    | OnDelta(line: string) | OnAssistant(line: string) | OnResult(line: string)

  /** What a line of Codex output parses to: no value, or an event with its phase and item, if it has any. */
  datatype CodexValue = Nothing | Event(phase: Phase, item: Option<Item>)
  datatype Phase = Started | Completed | OtherPhase
  datatype Item = AgentMessage(text: string) | OtherItem

  datatype CodexCall = RawLine(line: string) | OnItem(phase: Phase, item: Item) | OnAgentMessage(text: string)

  /** The calls one line makes, and whether it then throws. */
  datatype Handled<C> = Handled(calls: seq<C>, throws: bool)

  function HandleClaude(parse: string -> Option<ClaudeValue>, line: string): Handled<ClaudeCall> {
    var t := Trim(line);
    if t == "" then Handled([], false) else
      match parse(t)
      case None => Handled([Raw(t)], false)
      case Some(Null) => Handled([Message(t)], true)
      case Some(Headless) => Handled([Message(t)], true)
      case Some(ContentDelta) => Handled([Message(t), OnDelta(t)], false)
      case Some(Assistant) => Handled([Message(t), OnAssistant(t)], false)
      case Some(Result) => Handled([Message(t), OnResult(t)], false)
      case Some(Another) => Handled([Message(t)], false)
  }

  function HandleCodex(parse: string -> Option<CodexValue>, line: string): Handled<CodexCall> {
    var t := Trim(line);
    if t == "" then Handled([], false) else
      match parse(t)
      case None => Handled([RawLine(t)], false)
      case Some(Nothing) => Handled([], true)
      case Some(Event(phase, item)) =>
        Handled(
          (if phase.OtherPhase? || item.None? then [] else [OnItem(phase, item.value)]) +
          (if phase.Completed? && item.Some? && item.value.AgentMessage?
            then [OnAgentMessage(item.value.text)] else []),
          false)
  }

  /** All calls of all lines, in order. */
  function AllCalls<C>(handle: string -> Handled<C>, lines: seq<string>): seq<C> {
    if lines == [] then [] else handle(lines[0]).calls + AllCalls(handle, lines[1..])
  }

  /** The calls made before the loop over the lines ends, or is left by an exception. */
  function Reached<C>(handle: string -> Handled<C>, lines: seq<string>): seq<C> {
    if lines == [] then []
    else if handle(lines[0]).throws then handle(lines[0]).calls
    else handle(lines[0]).calls + Reached(handle, lines[1..])
  }

  predicate Throws<C>(handle: string -> Handled<C>, lines: seq<string>) {
    exists i: nat | i < |lines| :: handle(lines[i]).throws
  }

  lemma {:induction false} AllCallsOfConcat<C>(handle: string -> Handled<C>, a: seq<string>, b: seq<string>)
    ensures AllCalls(handle, a + b) == AllCalls(handle, a) + AllCalls(handle, b)
  {
    if a == [] {
      assert a + b == b;
    } else {
      assert (a + b)[1..] == a[1..] + b;
      AllCallsOfConcat(handle, a[1..], b);
    }
  }

  lemma {:induction false} ReachedAll<C>(handle: string -> Handled<C>, lines: seq<string>)
    requires !Throws(handle, lines)
    ensures Reached(handle, lines) == AllCalls(handle, lines)
  {
    if lines != [] {
      assert forall i: nat | i < |lines[1..]| :: lines[1..][i] == lines[i + 1];
      ReachedAll(handle, lines[1..]);
    }
  }

  /** A line that throws takes the rest of its chunk with it: nothing is lost exactly if nothing there calls. */
  lemma {:induction false} LostAfterThrow<C>(
    handle: string -> Handled<C>, before: seq<string>, line: string, after: seq<string>)
    requires !Throws(handle, before) && handle(line).throws
    ensures Reached(handle, before + [line] + after) == AllCalls(handle, before) + handle(line).calls
    ensures Reached(handle, before + [line] + after) == AllCalls(handle, before + [line] + after) <==>
      AllCalls(handle, after) == []
  {
    var all := before + [line] + after;
    AllCallsOfConcat(handle, before, [line] + after);
    assert all == before + ([line] + after);
    assert ([line] + after)[1..] == after;
    if before != [] {
      assert all[1..] == before[1..] + [line] + after;
      assert forall i: nat | i < |before[1..]| :: before[1..][i] == before[i + 1];
      LostAfterThrow(handle, before[1..], line, after);
    }
  }

  /** The input where that happens, for Claude output: the line `null`, and whatever lines come with it. */
  lemma NullLosesClaudeLines(parse: string -> Option<ClaudeValue>, before: seq<string>, after: seq<string>)
    requires parse("null") == Some(Null)
    ensures var handle := (line: string) => HandleClaude(parse, line);
      !Throws(handle, before) ==>
        && Reached(handle, before + ["null"] + after) == AllCalls(handle, before) + [Message("null")]
        && (Reached(handle, before + ["null"] + after) == AllCalls(handle, before + ["null"] + after) <==>
              AllCalls(handle, after) == [])
  {
    var handle := (line: string) => HandleClaude(parse, line);
    assert Trim("null") == "null";
    assert handle("null") == Handled([Message("null")], true);
    hide HandleClaude, Trim;
    if !Throws(handle, before) {
      LostAfterThrow(handle, before, "null", after);
    }
  }

  /** And for Codex output, where the line itself does not even reach the sink. */
  lemma NullLosesCodexLines(parse: string -> Option<CodexValue>, before: seq<string>, after: seq<string>)
    requires parse("null") == Some(Nothing)
    ensures var handle := (line: string) => HandleCodex(parse, line);
      !Throws(handle, before) ==>
        && Reached(handle, before + ["null"] + after) == AllCalls(handle, before)
        && (Reached(handle, before + ["null"] + after) == AllCalls(handle, before + ["null"] + after) <==>
              AllCalls(handle, after) == [])
  {
    var handle := (line: string) => HandleCodex(parse, line);
    assert Trim("null") == "null";
    assert handle("null") == Handled([], true);
    hide HandleCodex, Trim;
    if !Throws(handle, before) {
      LostAfterThrow(handle, before, "null", after);
      assert AllCalls(handle, before) + [] == AllCalls(handle, before);
    }
  }

  function Flat(chunks: seq<string>): string {
    if chunks == [] then "" else chunks[0] + Flat(chunks[1..])
  }

  /** All lines of a text, the last one without a newline. */
  function Lines(s: string): seq<string> { Complete(s) + [Rest(s)] }

  /** What pushing the chunks one after the other calls, from a given buffer. */
  function Pushed<C>(handle: string -> Handled<C>, buffer: string, chunks: seq<string>): seq<C>
    decreases |chunks|
  {
    if chunks == [] then [] else
      Reached(handle, Complete(buffer + chunks[0])) + Pushed(handle, Rest(buffer + chunks[0]), chunks[1..])
  }

  lemma NoneThrows<C>(handle: string -> Handled<C>, a: seq<string>, b: seq<string>)
    requires !Throws(handle, a + b)
    ensures !Throws(handle, a) && !Throws(handle, b)
  {
    forall i: nat | i < |a| ensures !handle(a[i]).throws {
      assert (a + b)[i] == a[i];
    }
    forall i: nat | i < |b| ensures !handle(b[i]).throws {
      assert (a + b)[|a| + i] == b[i];
    }
  }

  /** However a stream is cut, pushes and a flush handle each of its lines once, in order. */
  lemma {:induction false} ChunkingDoesNotMatter<C>(handle: string -> Handled<C>, buffer: string, chunks: seq<string>)
    requires '\n' !in buffer && !Throws(handle, Lines(buffer + Flat(chunks)))
    ensures Pushed(handle, buffer, chunks) + handle(Rest(buffer + Flat(chunks))).calls ==
      AllCalls(handle, Lines(buffer + Flat(chunks)))
    decreases |chunks|
  {
    hide Complete, Rest;
    var all := buffer + Flat(chunks);
    if chunks == [] {
      assert all == buffer;
      NoNewline(buffer);
      assert AllCalls(handle, [buffer]) == handle(buffer).calls;
    } else {
      var first, tail := buffer + chunks[0], Flat(chunks[1..]);
      assert all == first + tail;
      SplitConcat(first, tail);
      var rest := Lines(Rest(first) + tail);
      assert Lines(all) == Complete(first) + rest;
      NoneThrows(handle, Complete(first), rest);
      ReachedAll(handle, Complete(first));
      AllCallsOfConcat(handle, Complete(first), rest);
      ChunkingDoesNotMatter(handle, Rest(first), chunks[1..]);
    }
  }

  lemma NoChunks<C>(handle: string -> Handled<C>, buffer: string)
    ensures Flat([]) == "" && Pushed(handle, buffer, []) == []
  {
  }

  lemma NextChunk<C>(handle: string -> Handled<C>, buffer: string, chunks: seq<string>, i: nat)
    requires i < |chunks|
    ensures Flat(chunks[i..]) == chunks[i] + Flat(chunks[i + 1..])
    ensures Pushed(handle, buffer, chunks[i..]) ==
      Reached(handle, Complete(buffer + chunks[i])) + Pushed(handle, Rest(buffer + chunks[i]), chunks[i + 1..])
  {
    assert chunks[i..][1..] == chunks[i + 1..];
  }

  class StreamJsonParser {
    const parse: string -> Option<ClaudeValue>
    var buffer: string
    var calls: seq<ClaudeCall>

    constructor (parse: string -> Option<ClaudeValue>)
      ensures this.parse == parse && buffer == "" && calls == []
    {
      this.parse := parse;
      buffer, calls := "", [];
    }

    function Handler(): string -> Handled<ClaudeCall> {
      (line: string) => HandleClaude(parse, line)
    }

    method HandleLine(line: string) returns (ok: bool)
      modifies this`calls
      ensures calls == old(calls) + Handler()(line).calls && ok == !Handler()(line).throws
    {
      hide Trim;
      var trimmed := Trim(line);
      if trimmed == "" {
        return true;
      }
      var message := parse(trimmed);
      if message.None? {
        calls := calls + [Raw(trimmed)];
        return true;
      }
      calls := calls + [Message(trimmed)];
      if message.value.Null? || message.value.Headless? {
        return false;
      }
      if message.value.ContentDelta? {
        calls := calls + [OnDelta(trimmed)];
      } else if message.value.Assistant? {
        calls := calls + [OnAssistant(trimmed)];
      } else if message.value.Result? {
        calls := calls + [OnResult(trimmed)];
      }
      return true;
    }

    /** Feed a chunk. `false` is an exception out of a line; the buffer has been cut by then. */
    method Push(chunk: string) returns (ok: bool)
      modifies this
      ensures buffer == Rest(old(buffer) + chunk)
      ensures calls == old(calls) + Reached(Handler(), Complete(old(buffer) + chunk))
      ensures ok == !Throws(Handler(), Complete(old(buffer) + chunk))
    {
      hide Complete, Rest, HandleClaude;
      buffer := buffer + chunk;
      var lines := Complete(buffer);
      buffer := Rest(buffer);
      var i := 0;
      while i < |lines|
        invariant 0 <= i <= |lines| && buffer == Rest(old(buffer) + chunk)
        invariant old(calls) + Reached(Handler(), lines) == calls + Reached(Handler(), lines[i..])
        invariant forall j | 0 <= j < i :: !Handler()(lines[j]).throws
      {
        ok := HandleLine(lines[i]);
        assert lines[i..][1..] == lines[i + 1..];
        if !ok {
          return false;
        }
        i := i + 1;
      }
      return true;
    }

    /** The stream is over: the text without a newline counts as a line. */
    method Flush() returns (ok: bool)
      modifies this
      ensures calls == old(calls) + Handler()(old(buffer)).calls && ok == !Handler()(old(buffer)).throws
      ensures buffer == if ok then "" else old(buffer)
    {
      ok := true;
      if Trim(buffer) != "" {
        ok := HandleLine(buffer);
        if !ok {
          return;
        }
      }
      buffer := "";
    }

    /** Chunks as they come, without an exception. */
    method PushAll(chunks: seq<string>)
      requires '\n' !in buffer
      modifies this
      ensures buffer == Rest(old(buffer) + Flat(chunks))
      ensures calls == old(calls) + Pushed(Handler(), old(buffer), chunks)
    {
      hide Complete, Rest, Flat, Pushed, Reached, Throws, HandleClaude, Trim;
      ghost var fed := buffer;
      NoNewline(buffer);
      NoChunks(Handler(), buffer);
      assert chunks[0..] == chunks && chunks[|chunks|..] == [];
      var i := 0;
      while i < |chunks|
        invariant 0 <= i <= |chunks| && fed + Flat(chunks[i..]) == old(buffer) + Flat(chunks) && buffer == Rest(fed)
        invariant calls + Pushed(Handler(), buffer, chunks[i..]) == old(calls) + Pushed(Handler(), old(buffer), chunks)
      {
        SplitConcat(fed, chunks[i]);
        NextChunk(Handler(), buffer, chunks, i);
        fed := fed + chunks[i];
        var pushed := Push(chunks[i]);
        i := i + 1;
      }
      NoChunks(Handler(), buffer);
      assert fed + "" == fed;
    }

    /** A whole stream, cut anywhere: each of its lines once, in order. */
    method Consume(chunks: seq<string>)
      requires buffer == "" && !Throws(Handler(), Lines(Flat(chunks)))
      modifies this
      ensures buffer == "" && calls == old(calls) + AllCalls(Handler(), Lines(Flat(chunks)))
    {
      hide Pushed, Reached, AllCalls, HandleClaude, Complete, Flat;
      assert "" + Flat(chunks) == Flat(chunks);
      ChunkingDoesNotMatter(Handler(), "", chunks);
      NoneThrows(Handler(), Complete(Flat(chunks)), [Rest(Flat(chunks))]);
      assert [Rest(Flat(chunks))][0] == Rest(Flat(chunks));
      PushAll(chunks);
      var flushed := Flush();
    }
  }

  class CodexJsonlParser {
    const parse: string -> Option<CodexValue>
    var buffer: string
    var calls: seq<CodexCall>

    constructor (parse: string -> Option<CodexValue>)
      ensures this.parse == parse && buffer == "" && calls == []
    {
      this.parse := parse;
      buffer, calls := "", [];
    }

    function Handler(): string -> Handled<CodexCall> {
      (line: string) => HandleCodex(parse, line)
    }

    method HandleLine(line: string) returns (ok: bool)
      modifies this`calls
      ensures calls == old(calls) + Handler()(line).calls && ok == !Handler()(line).throws
    {
      hide Trim;
      var trimmed := Trim(line);
      if trimmed == "" {
        return true;
      }
      var event := parse(trimmed);
      if event.None? {
        calls := calls + [RawLine(trimmed)];
        return true;
      }
      if event.value.Nothing? {
        return false;
      }
      var phase, item := event.value.phase, event.value.item;
      if !phase.OtherPhase? && item.Some? {
        calls := calls + [OnItem(phase, item.value)];
      }
      if phase.Completed? && item.Some? && item.value.AgentMessage? {
        calls := calls + [OnAgentMessage(item.value.text)];
      }
      return true;
    }

    /** Feed a chunk. `false` is an exception out of a line; the buffer has been cut by then. */
    method Push(chunk: string) returns (ok: bool)
      modifies this
      ensures buffer == Rest(old(buffer) + chunk)
      ensures calls == old(calls) + Reached(Handler(), Complete(old(buffer) + chunk))
      ensures ok == !Throws(Handler(), Complete(old(buffer) + chunk))
    {
      hide Complete, Rest, HandleCodex;
      buffer := buffer + chunk;
      var lines := Complete(buffer);
      buffer := Rest(buffer);
      var i := 0;
      while i < |lines|
        invariant 0 <= i <= |lines| && buffer == Rest(old(buffer) + chunk)
        invariant old(calls) + Reached(Handler(), lines) == calls + Reached(Handler(), lines[i..])
        invariant forall j | 0 <= j < i :: !Handler()(lines[j]).throws
      {
        ok := HandleLine(lines[i]);
        assert lines[i..][1..] == lines[i + 1..];
        if !ok {
          return false;
        }
        i := i + 1;
      }
      return true;
    }

    /** The stream is over: the text without a newline counts as a line. */
    method Flush() returns (ok: bool)
      modifies this
      ensures calls == old(calls) + Handler()(old(buffer)).calls && ok == !Handler()(old(buffer)).throws
      ensures buffer == if ok then "" else old(buffer)
    {
      ok := true;
      if Trim(buffer) != "" {
        ok := HandleLine(buffer);
        if !ok {
          return;
        }
      }
      buffer := "";
    }

    /** Chunks as they come, without an exception. */
    method PushAll(chunks: seq<string>)
      requires '\n' !in buffer
      modifies this
      ensures buffer == Rest(old(buffer) + Flat(chunks))
      ensures calls == old(calls) + Pushed(Handler(), old(buffer), chunks)
    {
      hide Complete, Rest, Flat, Pushed, Reached, Throws, HandleCodex, Trim;
      ghost var fed := buffer;
      NoNewline(buffer);
      NoChunks(Handler(), buffer);
      assert chunks[0..] == chunks && chunks[|chunks|..] == [];
      var i := 0;
      while i < |chunks|
        invariant 0 <= i <= |chunks| && fed + Flat(chunks[i..]) == old(buffer) + Flat(chunks) && buffer == Rest(fed)
        invariant calls + Pushed(Handler(), buffer, chunks[i..]) == old(calls) + Pushed(Handler(), old(buffer), chunks)
      {
        SplitConcat(fed, chunks[i]);
        NextChunk(Handler(), buffer, chunks, i);
        fed := fed + chunks[i];
        var pushed := Push(chunks[i]);
        i := i + 1;
      }
      NoChunks(Handler(), buffer);
      assert fed + "" == fed;
    }

    /** A whole stream, cut anywhere: each of its lines once, in order. */
    method Consume(chunks: seq<string>)
      requires buffer == "" && !Throws(Handler(), Lines(Flat(chunks)))
      modifies this
      ensures buffer == "" && calls == old(calls) + AllCalls(Handler(), Lines(Flat(chunks)))
    {
      hide Pushed, Reached, AllCalls, HandleCodex, Complete, Flat;
      assert "" + Flat(chunks) == Flat(chunks);
      ChunkingDoesNotMatter(Handler(), "", chunks);
      NoneThrows(Handler(), Complete(Flat(chunks)), [Rest(Flat(chunks))]);
      assert [Rest(Flat(chunks))][0] == Rest(Flat(chunks));
      PushAll(chunks);
      var flushed := Flush();
    }
  }
}

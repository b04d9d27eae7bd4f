/** The Responses stream adapter on bytes (gateway/internal/server/responses_sse_adapter.go): lines, blocks and events
    of a server-sent event stream, as in section 9.2 of the WHATWG HTML Standard. */
module ResponsesSse {
  import opened ResponsesCalls

  /** JSON on the other side of the adapter: decoding a payload, the rewriting of response.completed (None for every
      other payload), and encoding a report. */
  datatype Codec = Codec(
    decode: string -> Payload,
    completed: string -> Option<string>,
    encode: CallState -> string)

  /** Encoded JSON has no line breaks; a report decodes to itself; a completed event is no tool event, and neither is
      nothing. */
  ghost predicate Sane(c: Codec) {
    c.decode("") == Other &&
    (forall s :: OneLine(c.encode(s)) && c.encode(s) != "[DONE]" && c.decode(c.encode(s)) == Report(s)) &&
    (forall p :: c.completed(p).Some? ==>
      OneLine(c.completed(p).value) && c.decode(c.completed(p).value) == Other && c.decode(p) == Other)
  }

  predicate OneLine(s: string) {
    '\n' !in s && '\r' !in s
  }

  // ---- bytes ----

  predicate IsBreak(c: char) {
    c == '\r' || c == '\n'
  }

  /** bytes.TrimRight(line, "\r\n") */
  function Trim(line: string): (t: string)
    ensures t <= line && (t != "" ==> !IsBreak(t[|t| - 1]))
    ensures forall i :: |t| <= i < |line| ==> IsBreak(line[i])
  {
    if line != "" && IsBreak(line[|line| - 1]) then Trim(line[..|line| - 1]) else line
  }

  predicate HasPrefix(s: string, p: string) {
    p <= s
  }

  predicate IsAt(s: string, p: string, i: nat) {
    i + |p| <= |s| && s[i..i + |p|] == p
  }

  predicate Contains(s: string, p: string) {
    exists i :: 0 <= i <= |s| && IsAt(s, p, i)
  }

  function Join(lines: seq<string>): string {
    if lines == [] then "" else lines[0] + Join(lines[1..])
  }

  lemma {:induction false} JoinConcat(a: seq<string>, b: seq<string>)
    ensures Join(a + b) == Join(a) + Join(b)
  {
    if a == [] {
      assert a + b == b;
    } else {
      assert (a + b)[1..] == a[1..] + b;
      JoinConcat(a[1..], b);
      assert a[0] + (Join(a[1..]) + Join(b)) == Join(a) + Join(b);
    }
  }

  /** What ReadBytes('\n') returns: a line break at most at the end. */
  predicate RawLine(line: string) {
    line != "" && forall i :: 0 <= i < |line| - 1 ==> line[i] != '\n'
  }

  predicate FullLine(line: string) {
    RawLine(line) && line[|line| - 1] == '\n'
  }

  predicate IsBlank(line: string) {
    Trim(line) == ""
  }

  // ---- the adapter, as a function ----

  const DATA: string := "data: "
  const EVENT: string := "event: "
  const REPORT: string := "response.function_call_arguments.done"
  const ITEM: string := "response.output_item.done"
  const SEPARATOR: string := "\n\n" + EVENT
  const MIDDLE: string := "\n\n" + (EVENT + ITEM) + "\n" + DATA

  predicate IsData(line: string) {
    HasPrefix(Trim(line), DATA)
  }

  /** The first data line of a block, the only one the adapter looks at. */
  function FirstData(block: seq<string>): (i: nat)
    ensures i <= |block|
    ensures i < |block| ==> IsData(block[i])
    ensures forall j :: 0 <= j < i ==> !IsData(block[j])
  {
    if block == [] || IsData(block[0]) then 0 else 1 + FirstData(block[1..])
  }

  function PayloadOf(line: string): string
    requires IsData(line)
  {
    Trim(line)[|DATA|..]
  }

  function Ending(line: string): string {
    line[|Trim(line)|..]
  }

  /** response.completed is rewritten, everything else stays. */
  function Rewrite(c: Codec, p: string): string {
    if c.completed(p).Some? then c.completed(p).value else p
  }

  /** The tool event a line carries: none if it is no data line, and none with [DONE]. */
  function LineEvent(c: Codec, line: string): Payload {
    if !IsData(line) || PayloadOf(line) == "[DONE]" then Other else c.decode(PayloadOf(line))
  }

  function Decoded(c: Codec, block: seq<string>): Payload {
    var i := FirstData(block);
    if i == |block| then Other else LineEvent(c, block[i])
  }

  lemma RewriteDecodes(c: Codec, p: string)
    requires Sane(c)
    ensures c.decode(Rewrite(c, p)) == c.decode(p)
  {
  }

  /** A line that brings no report. */
  function PlainLine(c: Codec, line: string): string {
    if !IsData(line) || PayloadOf(line) == "[DONE]" then line
    else DATA + Rewrite(c, PayloadOf(line)) + Ending(line)
  }

  /** A line that does: the report's event is put before it. */
  function InjectedLine(c: Codec, s: CallState, line: string): string
    requires IsData(line)
  {
    EVENT + REPORT + "\n" + DATA + (c.encode(s) + MIDDLE + Rewrite(c, PayloadOf(line))) + Ending(line)
  }

  function LineSent(c: Codec, calls: Calls, line: string): string {
    var ev := LineEvent(c, line);
    if Injects(calls, ev) then InjectedLine(c, Finished(calls, ev), line) else PlainLine(c, line)
  }

  /** The two blocks sent when a report is injected; what else the block held is dropped. */
  function ReportBlock(c: Codec, s: CallState): seq<string> {
    [EVENT + REPORT + "\n", DATA + c.encode(s) + "\n", "\n"]
  }

  function ItemBlock(c: Codec, line: string): seq<string>
    requires IsData(line)
  {
    [EVENT + ITEM + "\n", DATA + Rewrite(c, PayloadOf(line)) + Ending(line), "\n"]
  }

  /** The blocks sent for one block. */
  function SentBlocks(c: Codec, calls: Calls, block: seq<string>): seq<seq<string>> {
    var i, ev := FirstData(block), Decoded(c, block);
    if Injects(calls, ev) then [ReportBlock(c, Finished(calls, ev)), ItemBlock(c, block[i])]
    else if i == |block| then [block]
    else [block[i := PlainLine(c, block[i])]]
  }

  function JoinAll(blocks: seq<seq<string>>): string {
    if blocks == [] then "" else Join(blocks[0]) + JoinAll(blocks[1..])
  }

  lemma LineParts(line: string)
    requires IsData(line)
    ensures line == DATA + PayloadOf(line) + Ending(line)
  {
  }

  /** A block that is neither rewritten nor preceded by a report passes byte for byte. */
  lemma UntouchedBlock(c: Codec, calls: Calls, block: seq<string>)
    requires !Injects(calls, Decoded(c, block))
    requires FirstData(block) < |block| ==> c.completed(PayloadOf(block[FirstData(block)])).None?
    ensures SentBlocks(c, calls, block) == [block]
  {
    hide PlainLine, Injects, Decoded, IsData, PayloadOf;
    var i := FirstData(block);
    if i < |block| {
      SamePlain(c, block[i]);
      SameAt(block, i);
    }
  }

  lemma SameAt(block: seq<string>, i: nat)
    requires i < |block|
    ensures block[i := block[i]] == block
  {
  }

  lemma SamePlain(c: Codec, line: string)
    requires IsData(line) && c.completed(PayloadOf(line)).None?
    ensures PlainLine(c, line) == line
  {
  }

  lemma {:induction false} FirstIs(block: seq<string>, i: nat)
    requires i <= |block| && (forall j :: 0 <= j < i ==> !IsData(block[j])) && (i < |block| ==> IsData(block[i]))
    ensures FirstData(block) == i
  {
  }

  // ---- the text of a line that brings a report, and of one that does not ----

  predicate BreakLast(s: string) {
    forall i :: 0 <= i < |s| - 1 ==> s[i] != '\n'
  }

  lemma PlainBreakLast(c: Codec, line: string)
    requires Sane(c) && RawLine(line)
    ensures BreakLast(PlainLine(c, line))
    ensures IsData(line) ==> BreakLast(DATA + Rewrite(c, PayloadOf(line)) + Ending(line))
  {
  }

  lemma FoundBreaks(s: string, i: nat)
    requires IsAt(s, SEPARATOR, i)
    ensures i + 1 < |s| && s[i] == '\n'
  {
  }

  lemma BreakLastLacks(s: string)
    requires BreakLast(s)
    ensures !Contains(s, SEPARATOR)
  {
    forall i: nat ensures !IsAt(s, SEPARATOR, i) {
      if IsAt(s, SEPARATOR, i) {
        FoundBreaks(s, i);
      }
    }
  }

  lemma FoundBetween(head: string, mid: string, tail: string)
    ensures Contains(head + mid + tail, mid)
  {
    assert IsAt(head + mid + tail, mid, |head|);
  }

  predicate HasSuffix(s: string, p: string) {
    |p| <= |s| && s[|s| - |p|..] == p
  }

  /** The text of a line that brings a report, with the field names as parameters. */
  lemma InjectedText(report: string, item: string, data: string, enc: string, p: string, e: string)
    ensures var all := report + "\n" + data + (enc + ("\n\n" + item + "\n" + data) + p) + e;
      all == report + "\n" + (data + enc + "\n") + "\n" + (item + "\n") + (data + p + e) &&
      all + "\n" == Join([report + "\n", data + enc + "\n", "\n"]) + Join([item + "\n", data + p + e, "\n"])
  {
    ThreeLines(report + "\n", data + enc + "\n", "\n");
    ThreeLines(item + "\n", data + p + e, "\n");
  }

  lemma InjectedJoins(c: Codec, s: CallState, line: string)
    requires IsData(line)
    ensures InjectedLine(c, s, line) + "\n" == JoinAll([ReportBlock(c, s), ItemBlock(c, line)])
  {
    hide IsData, PayloadOf, Ending, Rewrite, Join, JoinAll;
    InjectedText(EVENT + REPORT, EVENT + ITEM, DATA, c.encode(s), Rewrite(c, PayloadOf(line)), Ending(line));
    TwoBlocks(ReportBlock(c, s), ItemBlock(c, line));
  }

  lemma InjectedNoSuffix(c: Codec, s: CallState, line: string)
    requires Sane(c) && RawLine(line) && IsData(line)
    ensures !HasSuffix(InjectedLine(c, s, line), "\n\n")
  {
    hide RawLine, IsData, PayloadOf, Ending, Rewrite, Sane, Join, HasSuffix;
    PlainBreakLast(c, line);
    var enc, p, e := c.encode(s), Rewrite(c, PayloadOf(line)), Ending(line);
    InjectedText(EVENT + REPORT, EVENT + ITEM, DATA, enc, p, e);
    SuffixLast(EVENT + REPORT + "\n" + (DATA + enc + "\n") + "\n" + (EVENT + ITEM + "\n"), DATA + p + e);
  }

  lemma InjectedHas(c: Codec, s: CallState, line: string)
    requires IsData(line)
    ensures Contains(InjectedLine(c, s, line), SEPARATOR)
  {
    hide IsData, PayloadOf, Ending, Rewrite, Contains;
    HasText(EVENT + REPORT, EVENT, ITEM, DATA, c.encode(s), Rewrite(c, PayloadOf(line)), Ending(line));
  }

  lemma HasText(report: string, event: string, item: string, data: string, enc: string, p: string, e: string)
    ensures Contains(report + "\n" + data + (enc + ("\n\n" + (event + item) + "\n" + data) + p) + e, "\n\n" + event)
  {
    hide Contains;
    var head, tail := report + "\n" + data + enc, item + "\n" + data + p + e;
    FoundBetween(head, "\n\n" + event, tail);
    assert report + "\n" + data + (enc + ("\n\n" + (event + item) + "\n" + data) + p) + e ==
      head + ("\n\n" + event) + tail;
  }

  lemma SuffixLast(head: string, last: string)
    requires BreakLast(last) && |last| >= 2
    ensures !HasSuffix(head + last, "\n\n")
  {
    var all := head + last;
    assert all[|all| - 2..][0] == all[|all| - 2] == last[|last| - 2];
  }

  lemma TwoBlocks(a: seq<string>, b: seq<string>)
    ensures JoinAll([a, b]) == Join(a) + Join(b)
  {
    assert [a, b][1..] == [b] && [b][1..] == [];
    assert JoinAll([b]) == Join(b);
  }

  lemma OneBlock(a: seq<string>)
    ensures JoinAll([a]) == Join(a)
  {
  }

  lemma ThreeLines(a: string, b: string, c: string)
    ensures Join([a, b, c]) == a + b + c
  {
    assert [a, b, c][1..] == [b, c] && [b, c][1..] == [c] && [c][1..] == [];
    assert Join([c]) == c && Join([b, c]) == b + c;
  }

  // ---- the adapter ----

  class Adapter {
    const codec: Codec
    var toolCalls: Calls

    constructor (codec: Codec)
      ensures this.codec == codec && toolCalls == map[]
    {
      this.codec := codec;
      toolCalls := map[];
    }

    method ObserveArgumentsDelta(p: Payload)
      requires p.Delta?
      modifies this
      ensures toolCalls == Step(old(toolCalls), p)
    {
      if p.itemId == "" { return; }
      var state := Known(toolCalls, p.itemId);
      state := state.(itemId := p.itemId, index := p.index, seqNo := p.seqNo);
      state := state.(args := state.args + p.delta);
      toolCalls := toolCalls[p.itemId := state];
    }

    method ObserveArgumentsDone(p: Payload)
      requires p.ArgsDone?
      modifies this
      ensures toolCalls == Step(old(toolCalls), p)
    {
      if p.itemId == "" { return; }
      var state := Known(toolCalls, p.itemId);
      state := state.(itemId := p.itemId, name := p.name, index := p.index, seqNo := p.seqNo,
                     args := p.args, done := true);
      toolCalls := toolCalls[p.itemId := state];
    }

    method InjectArgumentsDoneIfNeeded(p: Payload, payload: string) returns (out: string, prefixEvent: string)
      requires p.ItemDone?
      modifies this
      ensures toolCalls == Step(old(toolCalls), p)
      ensures if Injects(old(toolCalls), p) then
          out == codec.encode(Finished(old(toolCalls), p)) + MIDDLE + payload && prefixEvent == REPORT
        else out == payload && prefixEvent == ""
      ensures p.call.Some? ==>
        var item, calls := p.call.value, old(toolCalls);
        var id := if item.id != "" then item.id else item.callId;
        var s := if id in calls then calls[id] else CallState("", "", "", 0, None, false);
        if id == "" || s.done then out == payload && prefixEvent == "" && toolCalls == calls
        else
          id in toolCalls && out == codec.encode(toolCalls[id]) + MIDDLE + payload &&
          toolCalls == calls[id := CallState(id, if s.name != "" then s.name else item.name,
                                             if s.args != "" then s.args else item.args,
                                             if p.outIndex.Some? then p.outIndex.value else s.index, p.seqNo, true)]
    {
      out, prefixEvent := payload, "";
      if p.call.None? { return; }
      var item := p.call.value;
      var itemId := FirstNonEmpty(item.id, item.callId);
      if itemId == "" { return; }
      var state := Known(toolCalls, itemId);
      if state.done { return; }
      state := state.(itemId := itemId, name := FirstNonEmpty(state.name, item.name),
                     args := FirstNonEmpty(state.args, item.args));
      if p.outIndex.Some? {
        state := state.(index := p.outIndex.value);
      }
      state := state.(seqNo := p.seqNo, done := true);
      toolCalls := toolCalls[itemId := state];
      out := codec.encode(state) + MIDDLE + payload;
      prefixEvent := REPORT;
    }

    method AdaptPayload(raw: string) returns (out: string, prefixEvent: string)
      modifies this
      ensures var payload := Rewrite(codec, raw);
        var p := codec.decode(payload);
        toolCalls == Step(old(toolCalls), p) &&
        (if Injects(old(toolCalls), p) then
           out == codec.encode(Finished(old(toolCalls), p)) + MIDDLE + payload &&
           prefixEvent == REPORT
         else out == payload && prefixEvent == "")
    {
      var payload := raw;
      var adapted := codec.completed(raw);
      if adapted.Some? {
        payload := adapted.value;
      }
      var p := codec.decode(payload);
      match p {
        case Delta(_, _, _, _) =>
          ObserveArgumentsDelta(p);
          out, prefixEvent := payload, "";
        case ArgsDone(_, _, _, _, _) =>
          ObserveArgumentsDone(p);
          out, prefixEvent := payload, "";
        case ItemDone(_, _, _) =>
          out, prefixEvent := InjectArgumentsDoneIfNeeded(p, payload);
        case Other =>
          out, prefixEvent := payload, "";
      }
    }

    method AdaptLine(line: string) returns (out: string)
      requires Sane(codec)
      modifies this
      ensures out == LineSent(codec, old(toolCalls), line)
      ensures toolCalls == Step(old(toolCalls), LineEvent(codec, line))
    {
      hide Trim, Step, Finished, Injects;
      var trimmed := Trim(line);
      var newline := line[|trimmed|..];
      if !HasPrefix(trimmed, DATA) { OtherDoesNothing(toolCalls); return line; }
      var payload := trimmed[|DATA|..];
      if payload == "[DONE]" { OtherDoesNothing(toolCalls); return line; }
      RewriteDecodes(codec, payload);
      var adaptedPayload, prefixEvent := AdaptPayload(payload);
      if prefixEvent == "" {
        return DATA + adaptedPayload + newline;
      }
      out := EVENT + prefixEvent + "\n" + DATA + adaptedPayload + newline;
    }

    /** adaptBlock: only the first data line is looked at. */
    method AdaptBlock(block: seq<string>) returns (out: string)
      requires Sane(codec) && forall i :: 0 <= i < |block| ==> RawLine(block[i])
      modifies this
      ensures out == JoinAll(SentBlocks(codec, old(toolCalls), block))
      ensures toolCalls == Step(old(toolCalls), Decoded(codec, block))
    {
      hide RawLine, Sane, Trim, Injects, Finished, Step, Contains, PayloadOf;
      hide PlainLine, InjectedLine, LineEvent, HasSuffix, LineSent;
      for i := 0 to |block|
        invariant forall j :: 0 <= j < i ==> !IsData(block[j])
        invariant toolCalls == old(toolCalls)
      {
        if !HasPrefix(Trim(block[i]), DATA) {
          continue;
        }
        FirstIs(block, i);
        ghost var calls, ev := toolCalls, LineEvent(codec, block[i]);
        var adapted := AdaptLine(block[i]);
        LineKinds(codec, calls, block[i]);
        if Contains(adapted, SEPARATOR) {
          out := adapted;
          if !HasSuffix(out, "\n\n") {
            out := out + "\n";
          }
          ReportSent(codec, calls, block, i);
          return;
        }
        out := Join(block[i := adapted]);
        OneBlock(block[i := adapted]);
        return;
      }
      FirstIs(block, |block|);
      OneBlock(block);
      OtherDoesNothing(toolCalls);
      out := Join(block);
    }
  }

  lemma OtherDoesNothing(calls: Calls)
    ensures Step(calls, Other) == calls && !Injects(calls, Other)
  {
  }

  /** The separator is found in the adapted line exactly when a report was injected. */
  lemma LineKinds(c: Codec, calls: Calls, line: string)
    requires Sane(c) && RawLine(line) && IsData(line)
    ensures Contains(LineSent(c, calls, line), SEPARATOR) <==> Injects(calls, LineEvent(c, line))
    ensures !Injects(calls, LineEvent(c, line)) ==> LineSent(c, calls, line) == PlainLine(c, line)
  {
    hide InjectedLine, PlainLine, LineEvent, Contains;
    if Injects(calls, LineEvent(c, line)) {
      InjectedHas(c, Finished(calls, LineEvent(c, line)), line);
    } else {
      PlainBreakLast(c, line);
      BreakLastLacks(PlainLine(c, line));
    }
  }

  lemma ReportSent(c: Codec, calls: Calls, block: seq<string>, i: nat)
    requires Sane(c) && i < |block| && RawLine(block[i]) && i == FirstData(block)
    requires Injects(calls, Decoded(c, block))
    ensures LineSent(c, calls, block[i]) + "\n" == JoinAll(SentBlocks(c, calls, block))
    ensures !HasSuffix(LineSent(c, calls, block[i]), "\n\n")
  {
    hide InjectedLine, HasSuffix, JoinAll, RawLine, Sane;
    InjectedJoins(c, Finished(calls, Decoded(c, block)), block[i]);
    InjectedNoSuffix(c, Finished(calls, Decoded(c, block)), block[i]);
  }
}

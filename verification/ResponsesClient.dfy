/** What a client of the Responses adapter's bytes (gateway/internal/server/responses_sse_adapter.go) sees, when it ends
    lines, collects fields and dispatches events as section 9.2 of the WHATWG HTML Standard says. */
module ResponsesClient {
  import opened ResponsesCalls
  import opened ResponsesSse
  import opened ResponsesStream
  import opened ResponsesRemoval

  // ---- lines and events ----

  /** Length of the first line without its end. */
  function LineLength(s: string): (n: nat)
    ensures n <= |s| && (n < |s| ==> IsBreak(s[n]))
    ensures forall i :: 0 <= i < n ==> !IsBreak(s[i])
  {
    if s == "" || IsBreak(s[0]) then 0 else 1 + LineLength(s[1..])
  }

  /** Lines end at CR LF, LF or CR. */
  function SseLines(s: string): seq<string>
    decreases |s|
  {
    if s == "" then []
    else
      var n := LineLength(s);
      if n == |s| then [s]
      else if s[n] == '\r' && n + 1 < |s| && s[n + 1] == '\n' then [s[..n]] + SseLines(s[n + 2..])
      else [s[..n]] + SseLines(s[n + 1..])
  }

  /** Fields are collected until an empty line dispatches the event; what is left at the end is discarded. */
  function SseEvents(ls: seq<string>, e: Event): seq<Event>
    decreases |ls|
  {
    if ls == [] then []
    else if ls[0] == "" then [e] + SseEvents(ls[1..], NOTHING)
    else SseEvents(ls[1..], Add(e, ls[0]))
  }

  /** A line that ends in LF or CR LF and holds no other CR. */
  predicate Tidy(line: string) {
    FullLine(line) && OneLine(Trim(line)) && |line| <= |Trim(line)| + 2
  }

  /** That is: text without line breaks, and one of the two endings. */
  lemma TidyExactly(t: string, e: string)
    requires OneLine(t) && forall i :: 0 <= i < |e| ==> IsBreak(e[i])
    ensures Tidy(t + e) <==> e == "\n" || e == "\r\n"
  {
    TrimsTo(t, e);
    hide Trim, OneLine;
    EndsFull(t, e);
  }

  lemma EndsFull(t: string, e: string)
    requires OneLine(t) && forall i :: 0 <= i < |e| ==> IsBreak(e[i])
    ensures FullLine(t + e) && |e| <= 2 <==> e == "\n" || e == "\r\n"
  {
    var l := t + e;
    if e == "" {
      assert t != "" ==> t[|t| - 1] in t;
    } else {
      assert l[|l| - 1] == e[|e| - 1];
      assert forall i :: 0 <= i < |t| ==> l[i] == t[i] && t[i] in t;
      assert |e| == 2 ==> l[|t|] == e[0];
    }
  }

  lemma {:induction false} TrimsTo(t: string, e: string)
    requires OneLine(t) && forall i :: 0 <= i < |e| ==> IsBreak(e[i])
    ensures Trim(t + e) == t
    decreases |e|
  {
    if e == "" {
      assert t + e == t;
      assert t != "" ==> t[|t| - 1] in t;
    } else {
      assert (t + e)[..|t + e| - 1] == t + e[..|e| - 1];
      TrimsTo(t, e[..|e| - 1]);
    }
  }

  ghost predicate AllTidy(ls: seq<string>) {
    forall i :: 0 <= i < |ls| ==> Tidy(ls[i])
  }

  /** Complete events without a lone CR. */
  ghost predicate Clean(blocks: seq<seq<string>>) {
    forall i :: 0 <= i < |blocks| ==> Proper(blocks[i]) && AllTidy(blocks[i])
  }

  lemma {:induction false} LengthIs(t: string, rest: string)
    requires OneLine(t) && (rest == "" || IsBreak(rest[0]))
    ensures LineLength(t + rest) == |t|
    decreases |t|
  {
    if t == "" {
      assert t + rest == rest;
    } else {
      assert (t + rest)[1..] == t[1..] + rest;
      LengthIs(t[1..], rest);
    }
  }

  lemma TidyEnding(line: string)
    requires Tidy(line)
    ensures Ending(line) == "\n" || Ending(line) == "\r\n"
    ensures line == Trim(line) + Ending(line)
  {
    hide Trim;
    var t, e := Trim(line), Ending(line);
    assert |t| < |line| && line[|line| - 1] == '\n';
    if |e| == 1 {
      assert e == [line[|line| - 1]];
    } else {
      assert e == [line[|t|], line[|line| - 1]] && IsBreak(line[|t|]);
    }
  }

  lemma TidySplits(line: string, rest: string)
    requires Tidy(line)
    ensures SseLines(line + rest) == [Trim(line)] + SseLines(rest)
  {
    hide Trim, FullLine, SseLines;
    TidyEnding(line);
    var t := Trim(line);
    if Ending(line) == "\n" {
      assert line + rest == t + ("\n" + rest);
      LfSplits(t, rest);
    } else {
      assert line + rest == t + ("\r" + ("\n" + rest));
      CrLfSplits(t, rest);
    }
  }

  lemma LfSplits(t: string, rest: string)
    requires OneLine(t)
    ensures SseLines(t + ("\n" + rest)) == [t] + SseLines(rest)
  {
    var s := t + ("\n" + rest);
    LengthIs(t, "\n" + rest);
    assert s[..|t|] == t && s[|t| + 1..] == rest && s[|t|] == '\n';
  }

  lemma CrLfSplits(t: string, rest: string)
    requires OneLine(t)
    ensures SseLines(t + ("\r" + ("\n" + rest))) == [t] + SseLines(rest)
  {
    var s := t + ("\r" + ("\n" + rest));
    LengthIs(t, "\r" + ("\n" + rest));
    assert s[..|t|] == t && s[|t| + 2..] == rest && s[|t|] == '\r' && s[|t| + 1] == '\n';
  }

  function Trims(ls: seq<string>): seq<string> {
    if ls == [] then [] else [Trim(ls[0])] + Trims(ls[1..])
  }

  lemma {:induction false} SseLinesOfJoin(ls: seq<string>)
    requires AllTidy(ls)
    ensures SseLines(Join(ls)) == Trims(ls)
  {
    hide Tidy, Trim;
    if ls != [] {
      SseLinesOfJoin(ls[1..]);
      TidySplits(ls[0], Join(ls[1..]));
    }
  }

  /** Lines that are not empty only add fields. */
  lemma {:induction false} FieldsAdd(ls: seq<string>, rest: seq<string>, e: Event)
    requires NoneBlank(ls)
    ensures SseEvents(Trims(ls) + rest, e) == SseEvents(rest, Merge(e, EventOf(ls)))
    decreases |ls|
  {
    if ls == [] {
      assert Trims(ls) + rest == rest && Merge(e, NOTHING) == e;
    } else {
      hide Trim, Add, Merge;
      var t := Trim(ls[0]);
      assert !IsBlank(ls[0]);
      assert Trims(ls) + rest == [t] + (Trims(ls[1..]) + rest);
      assert ([t] + (Trims(ls[1..]) + rest))[1..] == Trims(ls[1..]) + rest;
      FieldsAdd(ls[1..], rest, Add(e, t));
      FirstField(ls, e);
    }
  }

  lemma FirstField(ls: seq<string>, e: Event)
    requires ls != []
    ensures Merge(Add(e, Trim(ls[0])), EventOf(ls[1..])) == Merge(e, EventOf(ls))
  {
    hide Trim, Add, Merge, EventOf;
    var t := Trim(ls[0]);
    assert ls == [ls[0]] + ls[1..];
    EventOfConcat([ls[0]], ls[1..]);
    OneField(ls[0]);
    AddMerges(e, NOTHING, t);
    MergeLaws(e, Add(NOTHING, t), EventOf(ls[1..]));
  }

  lemma OneField(line: string)
    ensures EventOf([line]) == Add(NOTHING, Trim(line))
  {
    hide Trim;
    assert [line][..0] == [];
  }

  lemma MergeLaws(a: Event, b: Event, c: Event)
    ensures Merge(Merge(a, b), c) == Merge(a, Merge(b, c)) && Merge(a, NOTHING) == a
  {
  }

  lemma BlockDispatches(block: seq<string>, rest: seq<string>)
    requires Proper(block)
    ensures SseEvents(Trims(block) + rest, NOTHING) == [EventOf(block)] + SseEvents(rest, NOTHING)
  {
    hide Trim, Add, Merge;
    var last := |block| - 1;
    TrimsConcat(block[..last], [block[last]]);
    assert block == block[..last] + [block[last]];
    assert Trims([block[last]]) == [""];
    assert Trims(block) + rest == Trims(block[..last]) + ([""] + rest);
    FieldsAdd(block[..last], [""] + rest, NOTHING);
    assert ([""] + rest)[1..] == rest;
    BlankAddsNothing(block);
  }

  lemma BlankAddsNothing(block: seq<string>)
    requires block != [] && IsBlank(block[|block| - 1])
    ensures Merge(NOTHING, EventOf(block[..|block| - 1])) == EventOf(block)
  {
  }

  lemma {:induction false} TrimsConcat(a: seq<string>, b: seq<string>)
    ensures Trims(a + b) == Trims(a) + Trims(b)
  {
    if a == [] {
      assert a + b == b;
    } else {
      assert (a + b)[1..] == a[1..] + b;
      TrimsConcat(a[1..], b);
    }
  }

  lemma {:induction false} EventsOfLines(blocks: seq<seq<string>>)
    requires Clean(blocks)
    ensures SseEvents(Trims(Flatten(blocks)), NOTHING) == EventsOf(blocks) && AllTidy(Flatten(blocks))
  {
    hide Proper, Tidy, EventOf;
    if blocks != [] {
      EventsOfLines(blocks[1..]);
      assert Proper(blocks[0]) && AllTidy(blocks[0]);
      TrimsConcat(blocks[0], Flatten(blocks[1..]));
      BlockDispatches(blocks[0], Trims(Flatten(blocks[1..])));
    }
  }

  /** Complete events without a lone CR, sent as bytes, are dispatched as these events. */
  lemma DispatchedAsSent(blocks: seq<seq<string>>)
    requires Clean(blocks)
    ensures SseEvents(SseLines(JoinAll(blocks)), NOTHING) == EventsOf(blocks)
  {
    EventsOfLines(blocks);
    JoinOfFlatten(blocks);
    SseLinesOfJoin(Flatten(blocks));
  }

  // ---- the tool events of the client ----

  /** The data buffer: the data fields, with a line feed between them. */
  function JoinData(ds: seq<string>): string {
    if ds == [] then "" else if |ds| == 1 then ds[0] else ds[0] + "\n" + JoinData(ds[1..])
  }

  /** The tool event of a dispatched event; an empty data buffer is none. */
  function SeenPayload(c: Codec, e: Event): Payload {
    var t := JoinData(e.data);
    if t == "" || t == "[DONE]" then Other else c.decode(t)
  }

  function Seen(c: Codec, es: seq<Event>): seq<Payload> {
    if es == [] then [] else [SeenPayload(c, es[0])] + Seen(c, es[1..])
  }

  lemma {:induction false} SeenConcat(c: Codec, a: seq<Event>, b: seq<Event>)
    ensures Seen(c, a + b) == Seen(c, a) + Seen(c, b)
  {
    if a == [] {
      assert a + b == b;
    } else {
      assert (a + b)[1..] == a[1..] + b;
      SeenConcat(c, a[1..], b);
    }
  }

  /** The text the adapter decodes. */
  function AdapterText(block: seq<string>): string {
    var i := FirstData(block);
    if i < |block| then PayloadOf(block[i]) else ""
  }

  /** The block has one data field, written with a space, or no data at all. */
  predicate Aligned(block: seq<string>) {
    var e := EventOf(block);
    |e.data| <= 1 && (FirstData(block) < |block| || JoinData(e.data) == "")
  }

  lemma {:induction false} JoinLonger(ds: seq<string>, d: string)
    requires d in ds && |ds| > 1
    ensures |JoinData(ds)| > |d|
  {
    if d in ds[1..] && |ds| > 2 {
      JoinLonger(ds[1..], d);
    }
  }

  /** The first "data: " line is one of the data fields. */
  lemma AdapterTextIsData(block: seq<string>)
    requires FirstData(block) < |block|
    ensures AdapterText(block) in EventOf(block).data
  {
    hide EventOf, IsData, PayloadOf, Merge;
    var i := FirstData(block);
    OneDataEvent(block[i]);
    AroundLine(block, i, block[i]);
    SameAt(block, i);
    MergedData(EventOf(block[..i]), PayloadOf(block[i]), EventOf(block[i + 1..]));
  }

  lemma OneDataEvent(line: string)
    requires IsData(line)
    ensures EventOf([line]) == Event(None, [PayloadOf(line)], [])
  {
    hide EventOf, Trim;
    OneDataLine(line, PayloadOf(line));
  }

  lemma MergedData(a: Event, p: string, b: Event)
    ensures Merge(Merge(a, Event(None, [p], [])), b).data == a.data + [p] + b.data
  {
  }

  lemma SingleAligned(block: seq<string>, kind: string, p: string)
    requires EventOf(block) == Event(Some(kind), [p], []) && FirstData(block) < |block|
    ensures Aligned(block)
  {
  }

  lemma ProperLine(block: seq<string>, i: nat)
    requires Proper(block) && i < |block|
    ensures FullLine(block[i])
  {
  }

  /** The client reads the text the adapter reads exactly in such blocks. */
  lemma AlignedExactly(block: seq<string>)
    ensures JoinData(EventOf(block).data) == AdapterText(block) <==> Aligned(block)
  {
    hide EventOf, PayloadOf, IsData;
    var ds := EventOf(block).data;
    if FirstData(block) < |block| {
      AdapterTextIsData(block);
      if |ds| > 1 { JoinLonger(ds, AdapterText(block)); }
    } else if |ds| > 1 {
      JoinNotEmpty(ds);
    }
  }

  lemma JoinNotEmpty(ds: seq<string>)
    requires |ds| > 1
    ensures JoinData(ds) != ""
  {
  }

  lemma AlignedSeen(c: Codec, block: seq<string>)
    requires Sane(c) && Aligned(block)
    ensures SeenPayload(c, EventOf(block)) == Decoded(c, block)
  {
    hide EventOf;
    AlignedExactly(block);
  }

  /** What is sent for a block, as the client sees it: a report and the finished call, or one event; and that one is
      aligned if the block was. */
  lemma SentSeen(c: Codec, calls: Calls, block: seq<string>)
    requires Sane(c) && Proper(block)
    ensures var ev := Decoded(c, block);
      var sent := SentBlocks(c, calls, block);
      if Injects(calls, ev) then Seen(c, EventsOf(sent)) == [Report(Finished(calls, ev)), ev]
      else sent == [RewrittenBlock(c, block)] && (Aligned(RewrittenBlock(c, block)) <==> Aligned(block))
  {
    hide Proper, EventOf, Injects, Finished, ReportBlock, ItemBlock, PlainLine, Sane, Decoded, Aligned, SeenPayload;
    if Injects(calls, Decoded(c, block)) {
      InjectedSeen(c, calls, block);
    } else {
      RewrittenAligned(c, block);
    }
  }

  lemma InjectedSeen(c: Codec, calls: Calls, block: seq<string>)
    requires Sane(c) && Proper(block) && Injects(calls, Decoded(c, block))
    ensures CallId(Decoded(c, block)) != ""
    ensures Seen(c, EventsOf(SentBlocks(c, calls, block))) ==
            [Report(Finished(calls, Decoded(c, block))), Decoded(c, block)]
  {
    hide Proper, EventOf, FullLine, Trim, ReportBlock, ItemBlock, Sane, Aligned, SeenPayload;
    InjectedProper(c, calls, block);
    InjectedAligned(c, calls, block);
    var a, b := ReportBlock(c, Finished(calls, Decoded(c, block))), ItemBlock(c, block[FirstData(block)]);
    AlignedSeen(c, a);
    AlignedSeen(c, b);
    TwoSeen(c, a, b);
  }

  lemma TwoSeen(c: Codec, a: seq<string>, b: seq<string>)
    ensures Seen(c, EventsOf([a, b])) == [SeenPayload(c, EventOf(a)), SeenPayload(c, EventOf(b))]
  {
    hide EventOf, SeenPayload;
    assert [a, b][1..] == [b] && [b][1..] == [];
    assert EventsOf([b]) == [EventOf(b)] && EventsOf([a, b]) == [EventOf(a), EventOf(b)];
    assert [EventOf(a), EventOf(b)][1..] == [EventOf(b)] && [EventOf(b)][1..] == [];
    assert Seen(c, [EventOf(b)]) == [SeenPayload(c, EventOf(b))];
  }

  lemma InjectedAligned(c: Codec, calls: Calls, block: seq<string>)
    requires Sane(c) && Proper(block) && Injects(calls, Decoded(c, block))
    ensures FirstData(block) < |block| && CallId(Decoded(c, block)) != ""
    ensures Aligned(ReportBlock(c, Finished(calls, Decoded(c, block))))
    ensures Aligned(ItemBlock(c, block[FirstData(block)]))
  {
    hide EventOf, Trim, IsBlank, ReportBlock, IsData, PayloadOf, Sane, Finished, Decoded, Proper, FullLine, Injects,
         Aligned, Rewrite;
    InjectedHasData(c, calls, block);
    var i := FirstData(block);
    ProperLine(block, i);
    ReportAligned(c, Finished(calls, Decoded(c, block)));
    ItemLines(c, block[i]);
    SingleAligned(ItemBlock(c, block[i]), ITEM, Rewrite(c, PayloadOf(block[i])));
  }

  lemma ReportAligned(c: Codec, s: CallState)
    requires Sane(c)
    ensures Aligned(ReportBlock(c, s))
  {
    hide EventOf, Trim, IsBlank, IsData, PayloadOf, FullLine, Proper, Sane, Aligned;
    SaneEncode(c, s);
    ReportIsOneLine();
    WrittenBlock(REPORT, c.encode(s));
    SingleAligned(ReportBlock(c, s), REPORT, c.encode(s));
  }

  /** Rewriting response.completed changes the value of one data field. */
  lemma RewrittenAligned(c: Codec, block: seq<string>)
    requires Sane(c) && Proper(block)
    ensures Aligned(RewrittenBlock(c, block)) <==> Aligned(block)
    ensures FirstData(block) == |block| ==> RewrittenBlock(c, block) == block
    ensures Decoded(c, RewrittenBlock(c, block)) == Decoded(c, block)
  {
    hide EventOf, Trim, PlainLine, IsData, PayloadOf, FullLine, Proper, Sane, Decoded;
    var i := FirstData(block);
    if i < |block| {
      PlainBlock(c, block);
      RewrittenData(c, block);
    }
  }

  lemma RewrittenData(c: Codec, block: seq<string>)
    requires Sane(c) && Proper(block) && FirstData(block) < |block|
    ensures var i := FirstData(block);
      var b := block[i := PlainLine(c, block[i])];
      FirstData(b) == i && |EventOf(b).data| == |EventOf(block).data|
  {
    hide EventOf, Trim, Proper, FullLine, IsBlank, IsData, PayloadOf, Merge, PlainLine, Sane;
    var i := FirstData(block);
    var line := block[i];
    ProperLine(block, i);
    PlainLineKept(c, line);
    var line' := PlainLine(c, line);
    var b := block[i := line'];
    forall j | 0 <= j < i ensures !IsData(b[j]) {
      assert b[j] == block[j];
    }
    FirstIs(b, i);
    OneDataEvent(line);
    OneDataEvent(line');
    AroundLine(block, i, line);
    AroundLine(block, i, line');
    SameAt(block, i);
    MergedData(EventOf(block[..i]), PayloadOf(line), EventOf(block[i + 1..]));
    MergedData(EventOf(block[..i]), PayloadOf(line'), EventOf(block[i + 1..]));
  }

  // ---- reports before finished calls ----

  predicate ReportedIn(ps: seq<Payload>, i: nat, id: string) {
    exists j :: 0 <= j < i && j < |ps| && ps[j].ArgsDone? && ps[j].itemId == id
  }

  /** Every finished call with an id comes after a report of its arguments. */
  ghost predicate Preceded(ps: seq<Payload>) {
    forall i :: 0 <= i < |ps| && CallId(ps[i]) != "" ==> ReportedIn(ps, i, CallId(ps[i]))
  }

  function Told(told: set<string>, p: Payload): set<string> {
    if p.ArgsDone? then told + {p.itemId} else told
  }

  function ToldAll(told: set<string>, ps: seq<Payload>): set<string>
    decreases |ps|
  {
    if ps == [] then told else ToldAll(Told(told, ps[0]), ps[1..])
  }

  /** The same, read from left to right after the reports told. */
  predicate PrecededFrom(told: set<string>, ps: seq<Payload>)
    decreases |ps|
  {
    ps == [] || ((CallId(ps[0]) != "" ==> CallId(ps[0]) in told) && PrecededFrom(Told(told, ps[0]), ps[1..]))
  }

  lemma {:induction false} PrecededSplits(told: set<string>, a: seq<Payload>, b: seq<Payload>)
    ensures PrecededFrom(told, a + b) <==> PrecededFrom(told, a) && PrecededFrom(ToldAll(told, a), b)
    ensures ToldAll(told, a + b) == ToldAll(ToldAll(told, a), b)
    decreases |a|
  {
    if a == [] {
      assert a + b == b;
    } else {
      assert (a + b)[1..] == a[1..] + b;
      PrecededSplits(Told(told, a[0]), a[1..], b);
    }
  }

  /** Reading from left to right decides it. */
  lemma {:induction false} PrecededReads(ps: seq<Payload>)
    ensures Preceded(ps) <==> PrecededFrom({}, ps)
    ensures forall id :: id in ToldAll({}, ps) <==> ReportedIn(ps, |ps|, id)
    decreases |ps|
  {
    if ps != [] {
      var n := |ps| - 1;
      var front, last := ps[..n], ps[n];
      assert ps == front + [last] && [last][1..] == [];
      PrecededReads(front);
      PrecededSplits({}, front, [last]);
      FrontReported(ps, n);
      LastReported(ps);
    }
  }

  lemma FrontReported(ps: seq<Payload>, n: nat)
    requires n <= |ps|
    ensures forall i, id :: 0 <= i <= n ==> (ReportedIn(ps[..n], i, id) <==> ReportedIn(ps, i, id))
  {
    forall i, id | 0 <= i <= n && ReportedIn(ps, i, id) ensures ReportedIn(ps[..n], i, id) {
      var j :| 0 <= j < i && j < |ps| && ps[j].ArgsDone? && ps[j].itemId == id;
      assert ps[..n][j] == ps[j];
    }
  }

  lemma LastReported(ps: seq<Payload>)
    requires ps != []
    ensures forall id :: ReportedIn(ps, |ps|, id) <==>
      ReportedIn(ps, |ps| - 1, id) || (ps[|ps| - 1].ArgsDone? && ps[|ps| - 1].itemId == id)
  {
  }

  /** A block that brings no report shows the client a finished call of which it was told nothing. */
  predicate Unreported(c: Codec, calls: Calls, told: set<string>, blocks: seq<seq<string>>)
    decreases |blocks|
  {
    blocks != [] &&
    var ev := Decoded(c, blocks[0]);
    var seen := SeenPayload(c, EventOf(RewrittenBlock(c, blocks[0])));
    if Injects(calls, ev) then Unreported(c, Step(calls, ev), told + {CallId(ev)}, blocks[1..])
    else (CallId(seen) != "" && CallId(seen) !in told) || Unreported(c, Step(calls, ev), Told(told, seen), blocks[1..])
  }

  lemma {:induction false} UnreportedExactly(c: Codec, calls: Calls, told: set<string>, blocks: seq<seq<string>>)
    requires Sane(c) && forall i :: 0 <= i < |blocks| ==> Proper(blocks[i])
    ensures PrecededFrom(told, Seen(c, EventsOf(Adapt(c, calls, blocks)))) <==> !Unreported(c, calls, told, blocks)
    decreases |blocks|
  {
    hide Proper, EventOf, Decoded, Step, SentBlocks, Injects, Finished, Sane, SeenPayload, RewrittenBlock, Aligned;
    if blocks != [] {
      var ev := Decoded(c, blocks[0]);
      var sent, next := SentBlocks(c, calls, blocks[0]), Step(calls, ev);
      SentSeen(c, calls, blocks[0]);
      EventsOfConcat(sent, Adapt(c, next, blocks[1..]));
      SeenConcat(c, EventsOf(sent), EventsOf(Adapt(c, next, blocks[1..])));
      PrecededSplits(told, Seen(c, EventsOf(sent)), Seen(c, EventsOf(Adapt(c, next, blocks[1..]))));
      if Injects(calls, ev) {
        InjectedHasData(c, calls, blocks[0]);
        ReportThenCall(told, Finished(calls, ev), ev);
        FinishedId(calls, ev);
        UnreportedExactly(c, next, told + {CallId(ev)}, blocks[1..]);
      } else {
        var seen := SeenPayload(c, EventOf(RewrittenBlock(c, blocks[0])));
        OneSeen(c, RewrittenBlock(c, blocks[0]));
        JustOne(told, seen);
        UnreportedExactly(c, next, Told(told, seen), blocks[1..]);
      }
    }
  }

  lemma FinishedId(calls: Calls, p: Payload)
    requires CallId(p) != ""
    ensures Finished(calls, p).itemId == CallId(p)
  {
  }

  lemma OneSeen(c: Codec, block: seq<string>)
    ensures Seen(c, EventsOf([block])) == [SeenPayload(c, EventOf(block))]
  {
    hide EventOf, SeenPayload;
    assert [block][1..] == [] && EventsOf([block]) == [EventOf(block)] && [EventOf(block)][1..] == [];
  }

  lemma JustOne(told: set<string>, p: Payload)
    ensures PrecededFrom(told, [p]) <==> (CallId(p) != "" ==> CallId(p) in told)
    ensures ToldAll(told, [p]) == Told(told, p)
  {
    assert [p][1..] == [];
  }

  lemma ReportThenCall(told: set<string>, s: CallState, p: Payload)
    requires CallId(p) != ""
    ensures PrecededFrom(told, [Report(s), p]) <==> CallId(p) in told + {s.itemId}
    ensures ToldAll(told, [Report(s), p]) == told + {s.itemId}
  {
    assert [Report(s), p][1..] == [p] && [p][1..] == [];
    JustOne(told + {s.itemId}, p);
  }

  /** In aligned blocks the client was told whatever the adapter takes for reported. */
  lemma {:induction false} AlignedReported(c: Codec, calls: Calls, told: set<string>, blocks: seq<seq<string>>)
    requires Sane(c) && forall i :: 0 <= i < |blocks| ==> Proper(blocks[i]) && Aligned(blocks[i])
    requires forall id :: id != "" && Known(calls, id).done ==> id in told
    ensures !Unreported(c, calls, told, blocks)
    decreases |blocks|
  {
    hide Proper, EventOf, Decoded, Sane, SeenPayload, RewrittenBlock, Aligned;
    if blocks != [] {
      var ev := Decoded(c, blocks[0]);
      assert Proper(blocks[0]) && Aligned(blocks[0]);
      RewrittenAligned(c, blocks[0]);
      AlignedSeen(c, RewrittenBlock(c, blocks[0]));
      var next := Step(calls, ev);
      var told' := if Injects(calls, ev) then told + {CallId(ev)} else Told(told, ev);
      forall id | id != "" && Known(next, id).done ensures id in told' {
        if Known(calls, id).done { assert id in told; }
      }
      AlignedReported(c, next, told', blocks[1..]);
    }
  }

  // ---- the bytes ----

  lemma WrittenTidy(t: string)
    requires OneLine(t) && t != ""
    ensures Tidy(t + "\n")
  {
    hide Trim, FullLine;
    WrittenLine(t);
  }

  lemma BlankTidy()
    ensures Tidy("\n")
  {
    BlankLine();
  }

  /** Rewriting keeps a data line tidy. */
  lemma DataTidy(c: Codec, line: string)
    requires Sane(c) && Tidy(line) && IsData(line)
    ensures Tidy(DATA + Rewrite(c, PayloadOf(line)) + Ending(line)) && Tidy(PlainLine(c, line))
  {
    hide Trim, FullLine;
    DataTrim(c, line);
    DataFull(c, line);
    TidyEnding(line);
    DataIsOneLine();
    assert OneLine(PayloadOf(line));
    OneLineText(DATA, Rewrite(c, PayloadOf(line)));
  }

  lemma DataIsOneLine()
    ensures OneLine(DATA) && OneLine(EVENT + REPORT) && OneLine(EVENT + ITEM)
  {
    hide OneLine;
    PrefixesAreOneLine();
    ItemIsOneLine();
    ReportIsOneLine();
    OneLineText(EVENT, REPORT);
    OneLineText(EVENT, ITEM);
  }

  lemma PrefixesAreOneLine()
    ensures OneLine(DATA) && OneLine(EVENT)
  {
  }

  lemma ItemIsOneLine()
    ensures OneLine(ITEM)
  {
  }

  lemma SentTidy(c: Codec, calls: Calls, block: seq<string>)
    requires Sane(c) && Proper(block) && AllTidy(block)
    ensures Clean(SentBlocks(c, calls, block))
  {
    hide Proper, Tidy, Injects, Finished, PlainLine, Sane, Decoded, IsData, PayloadOf, Rewrite;
    SentProper(c, calls, block);
    var i := FirstData(block);
    if Injects(calls, Decoded(c, block)) {
      InjectedHasData(c, calls, block);
      InjectedTidy(c, Finished(calls, Decoded(c, block)), block[i]);
    } else if i < |block| {
      DataTidy(c, block[i]);
    }
  }

  lemma InjectedTidy(c: Codec, s: CallState, line: string)
    requires Sane(c) && Tidy(line) && IsData(line)
    ensures AllTidy(ReportBlock(c, s)) && AllTidy(ItemBlock(c, line))
  {
    hide Tidy, IsData, PayloadOf, Rewrite, Sane;
    SaneEncode(c, s);
    DataIsOneLine();
    OneLineText(DATA, c.encode(s));
    WrittenTidy(EVENT + REPORT);
    WrittenTidy(DATA + c.encode(s));
    WrittenTidy(EVENT + ITEM);
    BlankTidy();
    DataTidy(c, line);
  }

  lemma {:induction false} AdaptClean(c: Codec, calls: Calls, blocks: seq<seq<string>>)
    requires Sane(c) && Clean(blocks)
    ensures Clean(Adapt(c, calls, blocks))
    decreases |blocks|
  {
    hide Proper, AllTidy, Decoded, Step, SentBlocks, Sane;
    if blocks != [] {
      assert Proper(blocks[0]) && AllTidy(blocks[0]);
      SentTidy(c, calls, blocks[0]);
      AdaptClean(c, Step(calls, Decoded(c, blocks[0])), blocks[1..]);
    }
  }

  /** What copyResponsesSSE sends for these bytes. */
  function Adapted(c: Codec, src: string): string {
    JoinAll(Adapt(c, map[], Blocks(Lines(src))))
  }

  /** The tool events a client finds in these bytes. */
  function ClientPayloads(c: Codec, bytes: string): seq<Payload> {
    Seen(c, SseEvents(SseLines(bytes), NOTHING))
  }

  lemma ClientOfBytes(c: Codec, blocks: seq<seq<string>>)
    requires Sane(c) && Clean(blocks)
    ensures ClientPayloads(c, JoinAll(blocks)) == Seen(c, EventsOf(blocks))
    ensures ClientPayloads(c, Adapted(c, JoinAll(blocks))) == Seen(c, EventsOf(Adapt(c, map[], blocks)))
  {
    hide Proper, AllTidy, Sane;
    SeenAsSent(blocks);
    DispatchedAsSent(blocks);
    AdaptClean(c, map[], blocks);
    DispatchedAsSent(Adapt(c, map[], blocks));
  }

  /** For all streams of complete events without a lone CR: every finished call the client finds comes after a report of
      its arguments exactly when no block that brings no report shows it a call it was told nothing of. */
  lemma ClientPrecededExactly(c: Codec, blocks: seq<seq<string>>)
    requires Sane(c) && Clean(blocks)
    ensures Preceded(ClientPayloads(c, Adapted(c, JoinAll(blocks)))) <==> !Unreported(c, map[], {}, blocks)
  {
    hide Proper, AllTidy, Sane;
    ClientOfBytes(c, blocks);
    PrecededReads(ClientPayloads(c, Adapted(c, JoinAll(blocks))));
    UnreportedExactly(c, map[], {}, blocks);
  }

  ghost predicate AllAligned(blocks: seq<seq<string>>) {
    forall i :: 0 <= i < |blocks| ==> Aligned(blocks[i])
  }

  /** And so it is whenever every block has its data on one "data: " line. */
  lemma ClientPreceded(c: Codec, blocks: seq<seq<string>>)
    requires Sane(c) && Clean(blocks) && AllAligned(blocks)
    ensures Preceded(ClientPayloads(c, Adapted(c, JoinAll(blocks))))
  {
    hide Proper, AllTidy, Sane, Aligned;
    ClientPrecededExactly(c, blocks);
    AlignedReported(c, map[], {}, blocks);
  }

  // ---- the specified stream, as the client finds it ----

  lemma {:induction false} AlignedEvents(c: Codec, blocks: seq<seq<string>>)
    requires Sane(c) && AllAligned(blocks)
    ensures Seen(c, EventsOf(blocks)) == Events(c, blocks)
  {
    hide Sane, Aligned, EventOf, SeenPayload, Decoded;
    if blocks != [] {
      AlignedSeen(c, blocks[0]);
      AlignedEvents(c, blocks[1..]);
    }
  }

  lemma SentAligned(c: Codec, calls: Calls, block: seq<string>)
    requires Sane(c) && Proper(block) && Aligned(block)
    ensures AllAligned(SentBlocks(c, calls, block))
  {
    hide Proper, EventOf, Injects, Finished, ReportBlock, ItemBlock, PlainLine, Sane, Decoded, Aligned;
    if Injects(calls, Decoded(c, block)) {
      InjectedAligned(c, calls, block);
    } else {
      RewrittenAligned(c, block);
    }
  }

  lemma {:induction false} AdaptAligned(c: Codec, calls: Calls, blocks: seq<seq<string>>)
    requires Sane(c) && AllAligned(blocks) && forall i :: 0 <= i < |blocks| ==> Proper(blocks[i])
    ensures AllAligned(Adapt(c, calls, blocks))
    decreases |blocks|
  {
    hide Proper, Aligned, Decoded, Step, SentBlocks, Sane;
    if blocks != [] {
      assert Proper(blocks[0]) && Aligned(blocks[0]);
      SentAligned(c, calls, blocks[0]);
      AdaptAligned(c, Step(calls, Decoded(c, blocks[0])), blocks[1..]);
    }
  }

  /** The client finds the specified stream of what it would have found without the adapter. */
  lemma ClientStream(c: Codec, blocks: seq<seq<string>>)
    requires Sane(c) && Clean(blocks) && AllAligned(blocks)
    ensures ClientPayloads(c, Adapted(c, JoinAll(blocks))) ==
            Payloads(Stream(map[], ClientPayloads(c, JoinAll(blocks))))
  {
    hide Proper, AllTidy, Sane, Aligned;
    ClientOfBytes(c, blocks);
    AlignedEvents(c, blocks);
    AdaptAligned(c, map[], blocks);
    AlignedEvents(c, Adapt(c, map[], blocks));
    AdaptRefines(c, map[], blocks);
  }

  function CountReports(ps: seq<Payload>, id: string): nat {
    if ps == [] then 0 else (if ps[0].ArgsDone? && ps[0].itemId == id then 1 else 0) + CountReports(ps[1..], id)
  }

  lemma {:induction false} CountPayloads(out: seq<Sent>, id: string)
    ensures CountReports(Payloads(out), id) == Count(out, id)
  {
    if out != [] {
      CountPayloads(out[1..], id);
    }
  }

  /** When upstream reports nothing for an item, the client finds exactly one report if the item finishes, else none. */
  lemma ClientReportedOnce(c: Codec, blocks: seq<seq<string>>, id: string)
    requires Sane(c) && Clean(blocks) && AllAligned(blocks)
    requires id != "" && NoReports(ClientPayloads(c, JoinAll(blocks)), id)
    ensures CountReports(ClientPayloads(c, Adapted(c, JoinAll(blocks))), id) ==
            if Mentions(ClientPayloads(c, JoinAll(blocks)), id) then 1 else 0
  {
    hide Proper, AllTidy, Sane, Aligned;
    var ps := ClientPayloads(c, JoinAll(blocks));
    ClientStream(c, blocks);
    CountPayloads(Stream(map[], ps), id);
    ReportedOnce(map[], ps, id);
  }

  lemma {:induction false} StreamSnoc(calls: Calls, ps: seq<Payload>, p: Payload)
    ensures Stream(calls, ps + [p]) == Stream(calls, ps) + SentFor(Run(calls, ps), p)
    decreases |ps|
  {
    hide Step, SentFor;
    if ps == [] {
      assert [] + [p] == [p] && [p][1..] == [];
      assert SentFor(calls, p) + [] == SentFor(calls, p);
    } else {
      assert (ps + [p])[1..] == ps[1..] + [p];
      StreamSnoc(Step(calls, ps[0]), ps[1..], p);
    }
  }

  function OwnArguments(p: Payload): string
    requires CallId(p) != ""
  {
    p.call.value.args
  }

  /** The last two events are a report of these arguments and the finished call. */
  predicate EndsReported(ps: seq<Payload>, p: Payload, args: string) {
    |ps| >= 2 && ps[|ps| - 1] == p &&
    var report := ps[|ps| - 2];
    report.ArgsDone? && report.itemId == CallId(p) && report.args == args
  }

  /** When the client would first have found that a call is finished, it finds a report of the fragments received for
      it, or of the call's own arguments if there were none, and then the call. */
  lemma ClientArguments(c: Codec, blocks: seq<seq<string>>, ps: seq<Payload>, p: Payload)
    requires Sane(c) && Clean(blocks) && AllAligned(blocks) && ClientPayloads(c, JoinAll(blocks)) == ps + [p]
    requires CallId(p) != "" && NoReports(ps, CallId(p)) && !Mentions(ps, CallId(p))
    ensures EndsReported(ClientPayloads(c, Adapted(c, JoinAll(blocks))), p,
                         FirstNonEmpty(Deltas(ps, CallId(p)), OwnArguments(p)))
  {
    hide Proper, AllTidy, Sane, Aligned;
    ClientStream(c, blocks);
    InjectedArguments(ps, p);
    StreamSnoc(map[], ps, p);
    var calls := Run(map[], ps);
    TwoSent(Sent(Report(Finished(calls, p)), true), Sent(p, false));
    PayloadsConcat(Stream(map[], ps), SentFor(calls, p));
  }

  // ---- taking the reports out again ----

  /** The events that are not marked. */
  function UnmarkedEvents(es: seq<Event>, marks: seq<bool>): seq<Event>
    requires |es| == |marks|
  {
    if es == [] then [] else (if marks[0] then [] else [es[0]]) + UnmarkedEvents(es[1..], marks[1..])
  }

  lemma {:induction false} EventsOfUnmarked(blocks: seq<seq<string>>, marks: seq<bool>)
    requires |blocks| == |marks|
    ensures |EventsOf(blocks)| == |blocks|
    ensures UnmarkedEvents(EventsOf(blocks), marks) == EventsOf(Unmarked(blocks, marks))
  {
    hide EventOf;
    if blocks != [] {
      EventsOfUnmarked(blocks[1..], marks[1..]);
      EventsOfConcat(if marks[0] then [] else [blocks[0]], Unmarked(blocks[1..], marks[1..]));
    }
  }

  /** For a client of the bytes: the events dispatched, without the injected reports, are those that came in with only
      response.completed rewritten, exactly when every report was put before a bare item. */
  lemma ClientRestores(c: Codec, blocks: seq<seq<string>>)
    requires Sane(c) && Clean(blocks)
    ensures var es := SseEvents(SseLines(Adapted(c, JoinAll(blocks))), NOTHING);
      |es| == |Marks(c, map[], blocks)| &&
      (UnmarkedEvents(es, Marks(c, map[], blocks)) == RewrittenEvents(c, blocks) <==>
         BareWhereInjected(c, map[], blocks))
  {
    hide Proper, AllTidy, Sane;
    SeenAsSent(blocks);
    AdaptClean(c, map[], blocks);
    DispatchedAsSent(Adapt(c, map[], blocks));
    RestoredExactly(c, map[], blocks);
    EventsOfUnmarked(Adapt(c, map[], blocks), Marks(c, map[], blocks));
  }

  // ---- blocks the adapter reads otherwise ----

  /** A data field without the space after its colon is none to the adapter: a finished call in it reaches the client
      with no report. */
  lemma NoSpaceUnreported(c: Codec, p: string)
    requires Sane(c) && OneLine(p) && p != "" && p[0] != ' ' && p != "[DONE]" && CallId(c.decode(p)) != ""
    ensures var block := ["data:" + p + "\n", "\n"];
      Clean([block]) && !Aligned(block) && SentBlocks(c, map[], block) == [block] &&
      ClientPayloads(c, Adapted(c, JoinAll([block]))) == [c.decode(p)] &&
      !Preceded(ClientPayloads(c, Adapted(c, JoinAll([block]))))
  {
    hide Sane, Proper, AllTidy, EventOf, Aligned, Preceded, ClientPayloads, Adapted;
    var block := ["data:" + p + "\n", "\n"];
    NoSpaceBlock(p);
    NoSpaceSeen(c, p);
    AlignedExactly(block);
    ClientOfBytes(c, [block]);
    assert [block][1..] == [];
    assert Adapt(c, map[], [block]) == [block] + [];
    OneSeen(c, block);
    PrecededReads([c.decode(p)]);
    JustOne({}, c.decode(p));
  }

  lemma NoSpaceBlock(p: string)
    requires OneLine(p) && p != "" && p[0] != ' '
    ensures var block := ["data:" + p + "\n", "\n"];
      Proper(block) && AllTidy(block) && FirstData(block) == |block| && EventOf(block) == Event(None, [p], [])
  {
    hide Proper, EventOf, FullLine, Trim, IsBlank, Tidy;
    var t := "data:" + p;
    NoSpaceField(p);
    OneLineText("data:", p);
    WrittenLine(t);
    WrittenTidy(t);
    BlankLine();
    BlankTidy();
    FirstIs([t + "\n", "\n"], 2);
    TwoFields(t + "\n", "\n", p);
    ProperTwo(t + "\n", "\n");
  }

  lemma NoSpaceField(p: string)
    requires p != "" && p[0] != ' '
    ensures var t := "data:" + p;
      HasField(t, "data") && FieldValue(t, "data") == p && !(DATA <= t) && t != ""
  {
    assert ("data:" + p)[5] == p[0] && DATA[5] == ' ';
  }

  lemma TwoFields(d: string, blank: string, p: string)
    requires Trim(blank) == "" && Trim(d) != "" && HasField(Trim(d), "data") && FieldValue(Trim(d), "data") == p
    ensures EventOf([d, blank]) == Event(None, [p], [])
  {
    hide Trim, HasField, FieldValue;
    assert [d, blank][..1] == [d] && [d][..0] == [];
    assert EventOf([d]) == Event(None, [p], []);
  }

  lemma ProperTwo(a: string, b: string)
    requires FullLine(a) && FullLine(b) && Trim(a) != "" && Trim(b) == ""
    ensures Proper([a, b])
  {
  }

  lemma NoSpaceSeen(c: Codec, p: string)
    requires OneLine(p) && p != "" && p[0] != ' ' && p != "[DONE]"
    ensures var block := ["data:" + p + "\n", "\n"];
      SentBlocks(c, map[], block) == [block] && SeenPayload(c, EventOf(block)) == c.decode(p) &&
      JoinData(EventOf(block).data) != AdapterText(block)
  {
    hide Proper, EventOf, FullLine, Trim, IsBlank, AllTidy;
    NoSpaceBlock(p);
  }

  /** A lone CR ends a line to the client only.  Here the adapter finds one data line that does not decode, and the
      client an event with the call, and no report. */
  lemma LoneCrUnreported(c: Codec, p: string, x: string)
    requires OneLine(p) && p != "" && p != "[DONE]" && CallId(c.decode(p)) != "" && OneLine(x) && x != ""
    requires c.decode(p + "\r\r" + x) == Other && c.completed(p + "\r\r" + x).None?
    ensures var block := [DATA + (p + "\r\r" + x) + "\n", "\n"];
      Proper(block) && SentBlocks(c, map[], block) == [block] &&
      Seen(c, SseEvents(SseLines(JoinAll([block])), NOTHING)) != [] &&
      Seen(c, SseEvents(SseLines(JoinAll([block])), NOTHING))[0] == c.decode(p)
  {
    hide Proper, SseLines, SseEvents, SentBlocks, Join, JoinAll, SeenPayload;
    LoneCrBlock(c, p, x);
    LoneCrLines(p, x);
    OneBlock([DATA + (p + "\r\r" + x) + "\n", "\n"]);
    PlainSeen(c, p);
  }

  lemma PlainSeen(c: Codec, p: string)
    requires p != "" && p != "[DONE]"
    ensures SeenPayload(c, Event(None, [p], [])) == c.decode(p)
  {
  }

  lemma LoneCrBlock(c: Codec, p: string, x: string)
    requires OneLine(p) && OneLine(x) && x != ""
    requires c.decode(p + "\r\r" + x) == Other && c.completed(p + "\r\r" + x).None?
    ensures var block := [DATA + (p + "\r\r" + x) + "\n", "\n"];
      Proper(block) && SentBlocks(c, map[], block) == [block]
  {
    hide Proper, EventOf, FullLine, Trim, IsBlank, PlainLine;
    var q := p + "\r\r" + x;
    var line := DATA + q + "\n";
    LoneCrLine(p, x);
    BlankLine();
    FirstIs([line, "\n"], 0);
    ProperTwo(line, "\n");
    SamePlain(c, line);
    assert q[|p|] == '\r';
    NotDone(q);
    SameAt([line, "\n"], 0);
  }

  lemma NotDone(q: string)
    requires '\r' in q
    ensures q != "[DONE]"
  {
    assert '\r' !in "[DONE]";
  }

  lemma LoneCrLine(p: string, x: string)
    requires OneLine(p) && OneLine(x) && x != ""
    ensures var q := p + "\r\r" + x;
      var line := DATA + q + "\n";
      FullLine(line) && Trim(line) == DATA + q && IsData(line) && PayloadOf(line) == q && Trim(line) != ""
  {
    var q := p + "\r\r" + x;
    PrefixesAreOneLine();
    assert q[|q| - 1] == x[|x| - 1];
    TrimExact(DATA + q, "\n");
  }

  lemma LoneCrLines(p: string, x: string)
    requires OneLine(p) && OneLine(x) && x != ""
    ensures var s := Join([DATA + (p + "\r\r" + x) + "\n", "\n"]);
      var es := SseEvents(SseLines(s), NOTHING);
      es != [] && es[0] == Event(None, [p], [])
  {
    var s := Join([DATA + (p + "\r\r" + x) + "\n", "\n"]);
    var rest := "\r" + (x + "\n" + "\n");
    JoinTwo(DATA + (p + "\r\r" + x) + "\n", "\n");
    assert s == (DATA + p) + ("\r" + rest);
    PrefixesAreOneLine();
    OneLineText(DATA, p);
    CrSplits(DATA + p, rest);
    CrSplits("", x + "\n" + "\n");
    assert "" + rest == rest && rest == "\r" + (x + "\n" + "\n");
    FirstEvent(p, SseLines(x + "\n" + "\n"));
  }

  lemma JoinTwo(a: string, b: string)
    ensures Join([a, b]) == a + b
  {
    assert [a, b][1..] == [b] && [b][1..] == [];
    assert Join([b]) == b;
  }

  /** A CR with no LF after it ends a line. */
  lemma CrSplits(t: string, rest: string)
    requires OneLine(t) && rest != "" && rest[0] != '\n'
    ensures SseLines(t + ("\r" + rest)) == [t] + SseLines(rest)
  {
    var s := t + ("\r" + rest);
    LengthIs(t, "\r" + rest);
    assert s[..|t|] == t && s[|t| + 1..] == rest && s[|t|] == '\r' && s[|t| + 1] == rest[0];
  }

  lemma FirstEvent(p: string, more: seq<string>)
    ensures var es := SseEvents([DATA + p] + ([""] + more), NOTHING);
      es != [] && es[0] == Event(None, [p], [])
  {
    DataField(p);
    assert ([DATA + p] + ([""] + more))[1..] == [""] + more;
  }
}

/** The tool-call state of the Responses stream adapter (gateway/internal/server/responses_sse_adapter.go): which
    events it observes, and when it adds the event upstream left out. */
module ResponsesCalls {

  datatype Option<T> = None | Some(value: T)

  /** functionCallState */
  datatype CallState = CallState(itemId: string, name: string, args: string, index: int, seqNo: Option<int>, done: bool)

  type Calls = map<string, CallState>

  /** The function_call item of an output_item.done event. */
  datatype Call = Call(id: string, callId: string, name: string, args: string)

  /** What a payload decodes to; anything that does not decode is Other. */
  datatype Payload =
    | Delta(itemId: string, index: int, seqNo: Option<int>, delta: string)
    | ArgsDone(itemId: string, name: string, index: int, seqNo: Option<int>, args: string)
    | ItemDone(call: Option<Call>, outIndex: Option<int>, seqNo: Option<int>)
    | Other

  const ZERO := CallState("", "", "", 0, None, false)

  function FirstNonEmpty(a: string, b: string): string {
    if a != "" then a else b
  }

  function Known(calls: Calls, id: string): CallState {
    if id in calls then calls[id] else ZERO
  }

  /** The id a finished item is known by; empty when it is no function call or has none. */
  function CallId(p: Payload): string {
    if p.ItemDone? && p.call.Some? then FirstNonEmpty(p.call.value.id, p.call.value.callId) else ""
  }

  /** The item is a function call whose arguments were never reported as done. */
  predicate Injects(calls: Calls, p: Payload) {
    CallId(p) != "" && !Known(calls, CallId(p)).done
  }

  /** The state recorded for such an item, and reported. */
  function Finished(calls: Calls, p: Payload): CallState
    requires CallId(p) != ""
  {
    var s, item := Known(calls, CallId(p)), p.call.value;
    CallState(CallId(p), FirstNonEmpty(s.name, item.name), FirstNonEmpty(s.args, item.args),
              if p.outIndex.Some? then p.outIndex.value else s.index, p.seqNo, true)
  }

  function Report(s: CallState): Payload {
    ArgsDone(s.itemId, s.name, s.index, s.seqNo, s.args)
  }

  function Step(calls: Calls, p: Payload): Calls {
    match p
    case Delta(id, index, seqNo, delta) =>
      if id == "" then calls
      else calls[id := Known(calls, id).(itemId := id, index := index,
                           seqNo := seqNo, args := Known(calls, id).args + delta)]
    case ArgsDone(id, name, index, seqNo, args) =>
      if id == "" then calls else calls[id := CallState(id, name, args, index, seqNo, true)]
    case ItemDone(call, outIndex, seqNo) =>
      if Injects(calls, p) then calls[CallId(p) := Finished(calls, p)] else calls
    case Other => calls
  }

  function Run(calls: Calls, ps: seq<Payload>): Calls
    decreases |ps|
  {
    if ps == [] then calls else Run(Step(calls, ps[0]), ps[1..])
  }

  datatype Sent = Sent(payload: Payload, injected: bool)

  /** What is sent for one event, and for a whole stream. */
  function SentFor(calls: Calls, p: Payload): seq<Sent> {
    (if Injects(calls, p) then [Sent(Report(Finished(calls, p)), true)] else []) + [Sent(p, false)]
  }

  function Stream(calls: Calls, ps: seq<Payload>): seq<Sent>
    decreases |ps|
  {
    if ps == [] then [] else SentFor(calls, ps[0]) + Stream(Step(calls, ps[0]), ps[1..])
  }

  /** The stream without what was injected. */
  function Original(out: seq<Sent>): seq<Payload> {
    if out == [] then []
    else (if out[0].injected then [] else [out[0].payload]) + Original(out[1..])
  }

  lemma {:induction false} OriginalConcat(a: seq<Sent>, b: seq<Sent>)
    ensures Original(a + b) == Original(a) + Original(b)
  {
    if a == [] {
      assert a + b == b;
    } else {
      assert (a + b)[1..] == a[1..] + b;
      OriginalConcat(a[1..], b);
    }
  }

  /** Removing the injected events gives back what came in. */
  lemma {:induction false} RemovalRestores(calls: Calls, ps: seq<Payload>)
    ensures Original(Stream(calls, ps)) == ps
    decreases |ps|
  {
    if ps != [] {
      RemovalRestores(Step(calls, ps[0]), ps[1..]);
      OriginalConcat(SentFor(calls, ps[0]), Stream(Step(calls, ps[0]), ps[1..]));
      OriginalOne(calls, ps[0]);
    }
  }

  lemma OriginalOne(calls: Calls, p: Payload)
    ensures Original(SentFor(calls, p)) == [p]
  {
    hide Finished;
    var head := SentFor(calls, p);
    assert Original([Sent(p, false)]) == [p];
    if Injects(calls, p) { assert head[1..] == [Sent(p, false)]; }
  }

  predicate IsReport(s: Sent, id: string) {
    s.payload.ArgsDone? && s.payload.itemId == id
  }

  /** Position i of the stream follows a report for id, or the report came before. */
  predicate Reported(out: seq<Sent>, i: nat, id: string) {
    exists j :: 0 <= j < i && j < |out| && IsReport(out[j], id)
  }

  /** Every finished function call is preceded by a report of its arguments. */
  lemma {:induction false} DonePreceded(calls: Calls, ps: seq<Payload>, i: nat)
    requires i < |Stream(calls, ps)|
    ensures var out := Stream(calls, ps);
      CallId(out[i].payload) != "" ==>
        Reported(out, i, CallId(out[i].payload)) || Known(calls, CallId(out[i].payload)).done
    decreases |ps|
  {
    var out, head := Stream(calls, ps), SentFor(calls, ps[0]);
    var next := Step(calls, ps[0]);
    var id := CallId(out[i].payload);
    if i < |head| {
      if i == 1 {
        assert IsReport(out[0], id);
      }
    } else if id != "" {
      var tail := Stream(next, ps[1..]);
      DonePreceded(next, ps[1..], i - |head|);
      assert out[i] == tail[i - |head|];
      if Reported(tail, i - |head|, id) {
        var j :| 0 <= j < i - |head| && j < |tail| && IsReport(tail[j], id);
        assert out[j + |head|] == tail[j];
      } else if !Known(calls, id).done {
        StepReports(calls, ps[0], id);
        assert exists j :: 0 <= j < |head| && IsReport(head[j], id);
        var j :| 0 <= j < |head| && IsReport(head[j], id);
        assert IsReport(out[j], id);
      }
    }
  }

  /** A call becomes done only by a report that is sent. */
  lemma StepReports(calls: Calls, p: Payload, id: string)
    requires id != "" && Known(Step(calls, p), id).done && !Known(calls, id).done
    ensures exists j :: 0 <= j < |SentFor(calls, p)| && IsReport(SentFor(calls, p)[j], id)
  {
    assert IsReport(SentFor(calls, p)[0], id);
  }

  function Count(out: seq<Sent>, id: string): nat {
    if out == [] then 0 else (if IsReport(out[0], id) then 1 else 0) + Count(out[1..], id)
  }

  lemma {:induction false} CountConcat(a: seq<Sent>, b: seq<Sent>, id: string)
    ensures Count(a + b, id) == Count(a, id) + Count(b, id)
  {
    if a == [] {
      assert a + b == b;
    } else {
      assert (a + b)[1..] == a[1..] + b;
      CountConcat(a[1..], b, id);
    }
  }

  predicate Mentions(ps: seq<Payload>, id: string) {
    exists i :: 0 <= i < |ps| && CallId(ps[i]) == id
  }

  predicate NoReports(ps: seq<Payload>, id: string) {
    forall i :: 0 <= i < |ps| ==> !(ps[i].ArgsDone? && ps[i].itemId == id)
  }

  /** When upstream reports nothing for an item, exactly one report is sent if the item finishes, none otherwise. */
  lemma {:induction false} ReportedOnce(calls: Calls, ps: seq<Payload>, id: string)
    requires id != "" && NoReports(ps, id)
    ensures Count(Stream(calls, ps), id) == if Mentions(ps, id) && !Known(calls, id).done then 1 else 0
    decreases |ps|
  {
    if ps != [] {
      var head, next := SentFor(calls, ps[0]), Step(calls, ps[0]);
      ReportedOnce(next, ps[1..], id);
      CountConcat(head, Stream(next, ps[1..]), id);
      OneCount(calls, ps[0], id);
      MentionsRest(ps, id);
    }
  }

  lemma OneCount(calls: Calls, p: Payload, id: string)
    requires id != "" && !(p.ArgsDone? && p.itemId == id)
    ensures Count(SentFor(calls, p), id) == if CallId(p) == id && !Known(calls, id).done then 1 else 0
    ensures Known(Step(calls, p), id).done <==> Known(calls, id).done || CallId(p) == id
  {
    var head := SentFor(calls, p);
    if Injects(calls, p) {
      assert head[1..] == [Sent(p, false)];
    }
    assert Count([Sent(p, false)], id) == 0;
  }

  lemma MentionsRest(ps: seq<Payload>, id: string)
    requires ps != []
    ensures Mentions(ps, id) <==> CallId(ps[0]) == id || Mentions(ps[1..], id)
  {
  }

  /** The argument fragments received for an item. */
  function Deltas(ps: seq<Payload>, id: string): string {
    if ps == [] then ""
    else (if ps[0].Delta? && ps[0].itemId == id then ps[0].delta else "") + Deltas(ps[1..], id)
  }

  /** Until its report or its end, the fragments of an item add up. */
  lemma {:induction false} ArgumentsAccumulate(calls: Calls, ps: seq<Payload>, id: string)
    requires id != "" && NoReports(ps, id) && !Mentions(ps, id) && !Known(calls, id).done
    ensures !Known(Run(calls, ps), id).done
    ensures Known(Run(calls, ps), id).args == Known(calls, id).args + Deltas(ps, id)
    decreases |ps|
  {
    hide Step, Mentions;
    if ps != [] {
      MentionsRest(ps, id);
      ArgumentsStep(calls, ps[0], id);
      ArgumentsAccumulate(Step(calls, ps[0]), ps[1..], id);
    }
  }

  lemma ArgumentsStep(calls: Calls, p: Payload, id: string)
    requires id != "" && !(p.ArgsDone? && p.itemId == id) && CallId(p) != id && !Known(calls, id).done
    ensures !Known(Step(calls, p), id).done
    ensures Known(Step(calls, p), id).args == Known(calls, id).args + if p.Delta? && p.itemId == id then p.delta else ""
  {
    assert Known(calls, id).args + "" == Known(calls, id).args;
  }

  /** Fragments bring no name. */
  lemma {:induction false} NameKept(calls: Calls, ps: seq<Payload>, id: string)
    requires id != "" && NoReports(ps, id) && !Mentions(ps, id)
    ensures Known(Run(calls, ps), id).name == Known(calls, id).name
    decreases |ps|
  {
    if ps != [] {
      MentionsRest(ps, id);
      NameKept(Step(calls, ps[0]), ps[1..], id);
    }
  }

  /** The arguments of an injected report are the fragments received, or the item's own if there were none. */
  lemma InjectedArguments(ps: seq<Payload>, p: Payload)
    requires CallId(p) != "" && NoReports(ps, CallId(p)) && !Mentions(ps, CallId(p))
    ensures var calls := Run(map[], ps);
      Injects(calls, p) && Finished(calls, p).itemId == CallId(p) &&
      Finished(calls, p).args == FirstNonEmpty(Deltas(ps, CallId(p)), p.call.value.args)
  {
    ArgumentsAccumulate(map[], ps, CallId(p));
  }

  // ---- the report in full ----

  lemma {:induction false} RunConcat(calls: Calls, a: seq<Payload>, b: seq<Payload>)
    ensures Run(calls, a + b) == Run(Run(calls, a), b)
    ensures Stream(calls, a + b) == Stream(calls, a) + Stream(Run(calls, a), b)
    decreases |a|
  {
    if a == [] {
      assert a + b == b;
    } else {
      assert (a + b)[1..] == a[1..] + b;
      RunConcat(Step(calls, a[0]), a[1..], b);
    }
  }

  lemma StreamNext(ps: seq<Payload>, p: Payload)
    ensures Stream(map[], ps + [p]) == Stream(map[], ps) + SentFor(Run(map[], ps), p)
  {
    RunConcat(map[], ps, [p]);
    assert Stream(Run(map[], ps), [p]) == SentFor(Run(map[], ps), p) + Stream(Step(Run(map[], ps), p), []);
  }

  /** The index an item has is that of its last fragment. */
  lemma {:induction false} IndexKept(calls: Calls, ps: seq<Payload>, id: string)
    requires id != "" && NoReports(ps, id) && !Mentions(ps, id)
    requires forall i :: 0 <= i < |ps| ==> !(ps[i].Delta? && ps[i].itemId == id)
    ensures Known(Run(calls, ps), id) == Known(calls, id)
    decreases |ps|
  {
    if ps != [] {
      MentionsRest(ps, id);
      IndexKept(Step(calls, ps[0]), ps[1..], id);
    }
  }

  lemma LastIndex(ps: seq<Payload>, id: string, k: nat)
    requires id != "" && NoReports(ps, id) && !Mentions(ps, id)
    requires k <= |ps| && forall i :: k <= i < |ps| ==> !(ps[i].Delta? && ps[i].itemId == id)
    requires k > 0 ==> ps[k - 1].Delta? && ps[k - 1].itemId == id
    ensures Known(Run(map[], ps), id).index == if k > 0 then ps[k - 1].index else 0
  {
    hide Run, Step, Mentions, NoReports;
    var a, b := ps[..k], ps[k..];
    assert ps == a + b;
    RunConcat(map[], a, b);
    QuietRest(ps, id, k);
    IndexKept(Run(map[], a), b, id);
    if k > 0 {
      assert a == ps[..k - 1] + [ps[k - 1]];
      RunOne(map[], ps[..k - 1], ps[k - 1]);
      DeltaIndex(Run(map[], ps[..k - 1]), ps[k - 1]);
    } else {
      RunNone(map[], a);
    }
  }

  lemma DeltaIndex(calls: Calls, p: Payload)
    requires p.Delta? && p.itemId != ""
    ensures Known(Step(calls, p), p.itemId).index == p.index
  {
  }

  lemma QuietRest(ps: seq<Payload>, id: string, k: nat)
    requires k <= |ps| && NoReports(ps, id) && !Mentions(ps, id)
    ensures NoReports(ps[k..], id) && !Mentions(ps[k..], id)
  {
  }

  lemma RunNone(calls: Calls, ps: seq<Payload>)
    requires ps == []
    ensures Run(calls, ps) == calls
  {
  }

  lemma RunOne(calls: Calls, ps: seq<Payload>, p: Payload)
    ensures Run(calls, ps + [p]) == Step(Run(calls, ps), p)
  {
    RunConcat(calls, ps, [p]);
    assert Run(Run(calls, ps), [p]) == Run(Step(Run(calls, ps), p), []);
  }

  /** What a finished call is known by: its item id, or its call id if that is empty. */
  predicate KnownBy(q: Payload, id: string) {
    q.ItemDone? && q.call.Some? && id == if q.call.value.id != "" then q.call.value.id else q.call.value.callId
  }

  /** When a function call finishes for the first time and upstream reported no arguments for it, its report is sent
      just before: under the item's id, or the call id if that is empty; with the fragments received, or the item's
      own arguments if those are empty; with the item's name; with the index of the event, or else of the last
      fragment, or else 0; and with the sequence number of the event. */
  lemma InjectedReport(ps: seq<Payload>, item: Call, outIndex: Option<int>, seqNo: Option<int>, id: string, k: nat)
    requires id == (if item.id != "" then item.id else item.callId) && id != ""
    requires forall i :: 0 <= i < |ps| ==> !(ps[i].ArgsDone? && ps[i].itemId == id) && !KnownBy(ps[i], id)
    requires k <= |ps| && forall i :: k <= i < |ps| ==> !(ps[i].Delta? && ps[i].itemId == id)
    requires k > 0 ==> ps[k - 1].Delta? && ps[k - 1].itemId == id
    ensures var p := ItemDone(Some(item), outIndex, seqNo);
      var args := if Deltas(ps, id) != "" then Deltas(ps, id) else item.args;
      var index := if outIndex.Some? then outIndex.value else if k > 0 then ps[k - 1].index else 0;
      Stream(map[], ps + [p]) ==
      Stream(map[], ps) + [Sent(ArgsDone(id, item.name, index, seqNo, args), true), Sent(p, false)]
  {
    var p := ItemDone(Some(item), outIndex, seqNo);
    assert forall i :: 0 <= i < |ps| ==> (CallId(ps[i]) == id <==> KnownBy(ps[i], id));
    ArgumentsAccumulate(map[], ps, id);
    assert "" + Deltas(ps, id) == Deltas(ps, id);
    NameKept(map[], ps, id);
    LastIndex(ps, id, k);
    StreamNext(ps, p);
    hide Run, Stream, Deltas, Mentions, NoReports, SentFor;
    SentWhole(Run(map[], ps), item, outIndex, seqNo, id);
  }

  lemma SentWhole(calls: Calls, item: Call, outIndex: Option<int>, seqNo: Option<int>, id: string)
    requires id == (if item.id != "" then item.id else item.callId) && id != "" && !Known(calls, id).done
    ensures var p, s := ItemDone(Some(item), outIndex, seqNo), Known(calls, id);
      SentFor(calls, p) ==
      [Sent(ArgsDone(id, if s.name != "" then s.name else item.name,
                     if outIndex.Some? then outIndex.value else s.index, seqNo,
                     if s.args != "" then s.args else item.args), true), Sent(p, false)]
  {
  }

  /** Nothing is sent before an event that is no finished function call, or one without any id, or a call whose
      arguments upstream reported, or that finished before. */
  lemma NoReportSent(ps: seq<Payload>, p: Payload, i: nat)
    requires !(p.ItemDone? && p.call.Some?) || KnownBy(p, "") ||
             (i < |ps| && ((ps[i].ArgsDone? && KnownBy(p, ps[i].itemId)) || CallId(ps[i]) == CallId(p)))
    ensures Stream(map[], ps + [p]) == Stream(map[], ps) + [Sent(p, false)]
  {
    hide Run, Stream, Step, Finished, Report;
    StreamNext(ps, p);
    if CallId(p) != "" {
      StaysDone(ps, i, CallId(p));
    }
  }

  lemma StaysDone(ps: seq<Payload>, i: nat, id: string)
    requires id != "" && i < |ps| && ((ps[i].ArgsDone? && ps[i].itemId == id) || CallId(ps[i]) == id)
    ensures Known(Run(map[], ps), id).done
  {
    var a, b := ps[..i + 1], ps[i + 1..];
    assert ps == a + b && a == ps[..i] + [ps[i]];
    RunConcat(map[], a, b);
    RunConcat(map[], ps[..i], [ps[i]]);
    DoneKept(Run(map[], a), b, id);
  }

  lemma {:induction false} DoneKept(calls: Calls, ps: seq<Payload>, id: string)
    requires Known(calls, id).done
    ensures Known(Run(calls, ps), id).done
    decreases |ps|
  {
    if ps != [] {
      DoneKept(Step(calls, ps[0]), ps[1..], id);
    }
  }
}

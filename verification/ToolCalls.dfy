/**
  The accumulation of streamed deltas in src/compute/openai-streaming.adapter.ts: two loops that
  piece tool calls, a function call and the content together from fragments.

  An absent string field and an empty one are treated alike by the code, so both are "" here.
*/
module ToolCalls {
  import opened Wrappers

  datatype Fragment = Fragment(index: Option<nat>, id: string, name: string, arguments: string)

  datatype FunctionFragment = FunctionFragment(name: string, arguments: string)

  datatype Delta = Delta(content: string, toolCalls: Option<seq<Fragment>>, functionCall: Option<FunctionFragment>)

  datatype ToolCall = ToolCall(id: string, name: string, arguments: string)

  datatype FunctionCall = FunctionCall(name: string, arguments: string)

  /** A JavaScript array that may have holes. */
  type Sparse = seq<Option<ToolCall>>

  // ---------------------------------------------------------------- accumulating

  function IndexOf(f: Fragment): nat { if f.index.Some? then f.index.value else 0 }

  function Grown(calls: Sparse, length: nat): (grown: Sparse)
    ensures |grown| == if |calls| < length then length else |calls|
    ensures forall k :: 0 <= k < |grown| ==> grown[k] == if k < |calls| then calls[k] else None
    decreases length - |calls|
  {
    if |calls| >= length then calls else Grown(calls + [None], length)
  }

  function Append(call: ToolCall, f: Fragment): ToolCall {
    ToolCall(call.id + f.id, call.name + f.name, call.arguments + f.arguments)
  }

  function Start(call: Option<ToolCall>): ToolCall {
    if call.Some? then call.value else ToolCall("", "", "")
  }

  function Accumulate(calls: Sparse, f: Fragment): Sparse {
    var k := IndexOf(f);
    var grown := Grown(calls, k + 1);
    grown[k := Some(Append(Start(grown[k]), f))]
  }

  function AccumulateAll(fragments: seq<Fragment>): Sparse {
    if fragments == [] then []
    else Accumulate(AccumulateAll(fragments[..|fragments| - 1]), fragments[|fragments| - 1])
  }

  /** Every tool call fragment of a stream, in order. */
  function FragmentsOf(deltas: seq<Delta>): seq<Fragment> {
    if deltas == [] then []
    else
      var last := deltas[|deltas| - 1];
      FragmentsOf(deltas[..|deltas| - 1]) + if last.toolCalls.Some? then last.toolCalls.value else []
  }

  function ContentOf(deltas: seq<Delta>): string {
    if deltas == [] then "" else ContentOf(deltas[..|deltas| - 1]) + deltas[|deltas| - 1].content
  }

  /** The function call fragments put together; None when no delta carries one. */
  function FunctionOf(deltas: seq<Delta>): Option<FunctionCall> {
    if deltas == [] then None
    else
      var before, last := FunctionOf(deltas[..|deltas| - 1]), deltas[|deltas| - 1];
      if last.functionCall.None? then before
      else
        var call := if before.Some? then before.value else FunctionCall("", "");
        var f := last.functionCall.value;
        Some(FunctionCall(call.name + f.name, call.arguments + f.arguments))
  }

  predicate Filled(call: Option<ToolCall>) {
    call.Some? && (call.value.id != "" || call.value.name != "" || call.value.arguments != "")
  }

  /** toolCalls.filter(...): holes and empty calls go, the rest stay in order. */
  function Cleaned(calls: Sparse): seq<ToolCall> {
    if calls == [] then []
    else Cleaned(calls[..|calls| - 1]) + if Filled(calls[|calls| - 1]) then [calls[|calls| - 1].value] else []
  }

  function Listed(calls: Sparse): Option<seq<ToolCall>> {
    if Cleaned(calls) == [] then None else Some(Cleaned(calls))
  }

  function Called(call: Option<FunctionCall>): Option<FunctionCall> {
    if call.Some? && call.value.name == "" && call.value.arguments == "" then None else call
  }

  // ---------------------------------------------------------------- the two loops

  /** A normal return, or the TypeError of reading a property of undefined. */
  datatype Response =
    | Response(content: string, toolCalls: Option<seq<ToolCall>>, functionCall: Option<FunctionCall>)
    | TypeError

  lemma AccumulateOne(fragments: seq<Fragment>, f: Fragment)
    ensures AccumulateAll(fragments + [f]) == Accumulate(AccumulateAll(fragments), f)
  {
    assert (fragments + [f])[..|fragments|] == fragments;
  }

  method AddFragment(calls: Sparse, f: Fragment) returns (toolCalls: Sparse)
    ensures toolCalls == Accumulate(calls, f)
  {
    var index := if f.index.Some? then f.index.value else 0;
    toolCalls := Grown(calls, index + 1);
    if toolCalls[index].None? {
      toolCalls := toolCalls[index := Some(ToolCall("", "", ""))];
    }
    var call := toolCalls[index].value;
    toolCalls := toolCalls[index := Some(ToolCall(call.id + f.id, call.name + f.name, call.arguments + f.arguments))];
  }

  /** The loop over one delta's fragments. */
  method AddFragments(calls: Sparse, fragments: seq<Fragment>, ghost before: seq<Fragment>) returns (toolCalls: Sparse)
    requires calls == AccumulateAll(before)
    ensures toolCalls == AccumulateAll(before + fragments)
  {
    hide AccumulateAll, Grown;
    toolCalls := calls;
    assert before + fragments[..0] == before;
    for j := 0 to |fragments|
      invariant toolCalls == AccumulateAll(before + fragments[..j])
    {
      AccumulateOne(before + fragments[..j], fragments[j]);
      assert before + fragments[..j + 1] == (before + fragments[..j]) + [fragments[j]];
      toolCalls := AddFragment(toolCalls, fragments[j]);
    }
    assert fragments[..|fragments|] == fragments;
  }

  /** Without any function call fragment, the clean-up reads a field of undefined. */
  function Collected(deltas: seq<Delta>): Response {
    if FunctionOf(deltas).None? then TypeError
    else Response(ContentOf(deltas), Listed(AccumulateAll(FragmentsOf(deltas))), Called(FunctionOf(deltas)))
  }

  method CollectStreamResponse(deltas: seq<Delta>) returns (response: Response)
    ensures response == Collected(deltas)
  {
    var fullContent, toolCalls: Sparse := "", [];
    var functionCall: Option<FunctionCall> := None;
    for k := 0 to |deltas|
      invariant fullContent == ContentOf(deltas[..k])
      invariant toolCalls == AccumulateAll(FragmentsOf(deltas[..k]))
      invariant functionCall == FunctionOf(deltas[..k])
    {
      var delta := deltas[k];
      assert deltas[..k + 1][..k] == deltas[..k];
      fullContent := fullContent + delta.content;
      if delta.toolCalls.Some? {
        toolCalls := AddFragments(toolCalls, delta.toolCalls.value, FragmentsOf(deltas[..k]));
      } else {
        assert FragmentsOf(deltas[..k]) + [] == FragmentsOf(deltas[..k]);
      }
      if delta.functionCall.Some? {
        if functionCall.None? {
          functionCall := Some(FunctionCall("", ""));
        }
        var f := delta.functionCall.value;
        functionCall := Some(FunctionCall(functionCall.value.name + f.name, functionCall.value.arguments + f.arguments));
      }
    }
    assert deltas[..|deltas|] == deltas;
    if functionCall.None? {
      return TypeError;
    }
    if functionCall.value.name == "" && functionCall.value.arguments == "" {
      functionCall := None;
    }
    response := Response(fullContent, Listed(toolCalls), functionCall);
  }

  /** What onChunk is called with. */
  datatype Call = Call(content: string, toolCalls: Option<seq<ToolCall>>, functionCall: Option<FunctionCall>)

  predicate Reported(delta: Delta) {
    delta.content != "" || delta.toolCalls.Some? || delta.functionCall.Some?
  }

  /** The callback of the last delta. */
  function CallAt(deltas: seq<Delta>): Call
    requires deltas != []
  {
    Call(deltas[|deltas| - 1].content, Listed(AccumulateAll(FragmentsOf(deltas))), Called(FunctionOf(deltas)))
  }

  function CallsOf(deltas: seq<Delta>): seq<Call> {
    if deltas == [] then []
    else CallsOf(deltas[..|deltas| - 1]) + if Reported(deltas[|deltas| - 1]) then [CallAt(deltas)] else []
  }

  method StreamWithCallback(deltas: seq<Delta>) returns (calls: seq<Call>)
    ensures calls == CallsOf(deltas)
  {
    calls := [];
    var accumulated: Sparse := [];
    var functionCall: Option<FunctionCall> := None;
    for k := 0 to |deltas|
      invariant calls == CallsOf(deltas[..k])
      invariant accumulated == AccumulateAll(FragmentsOf(deltas[..k]))
      invariant functionCall == FunctionOf(deltas[..k])
    {
      var delta := deltas[k];
      assert deltas[..k + 1][..k] == deltas[..k];
      if delta.toolCalls.Some? {
        accumulated := AddFragments(accumulated, delta.toolCalls.value, FragmentsOf(deltas[..k]));
      } else {
        assert FragmentsOf(deltas[..k]) + [] == FragmentsOf(deltas[..k]);
      }
      if delta.functionCall.Some? {
        var call := if functionCall.Some? then functionCall.value else FunctionCall("", "");
        var f := delta.functionCall.value;
        functionCall := Some(FunctionCall(call.name + f.name, call.arguments + f.arguments));
      }
      if delta.content != "" || delta.toolCalls.Some? || delta.functionCall.Some? {
        calls := calls + [Call(delta.content, Listed(accumulated), Called(functionCall))];
      }
    }
    assert deltas[..|deltas|] == deltas;
  }

  // ---------------------------------------------------------------- what is accumulated

  /** Texts one after the other, first to last. */
  function Joined(texts: seq<string>): string {
    if texts == [] then "" else texts[0] + Joined(texts[1..])
  }

  lemma {:induction false} JoinedConcat(a: seq<string>, b: seq<string>)
    ensures Joined(a + b) == Joined(a) + Joined(b)
  {
    if a == [] {
      assert a + b == b;
    } else {
      assert (a + b)[1..] == a[1..] + b;
      JoinedConcat(a[1..], b);
      assert a[0] + (Joined(a[1..]) + Joined(b)) == a[0] + Joined(a[1..]) + Joined(b);
    }
  }

  lemma JoinedMore(texts: seq<string>, text: string)
    ensures Joined(texts + [text]) == Joined(texts) + text
  {
    JoinedConcat(texts, [text]);
    assert [text][1..] == [] && text + "" == text;
  }

  /** The fragment belongs to slot k: it names k, or names no slot and k is the first. */
  predicate Belongs(f: Fragment, k: nat) { f.index == Some(k) || (f.index == None && k == 0) }

  datatype Field = Id | Name | Arguments

  function Text(f: Fragment, field: Field): string {
    match field
    case Id => f.id
    case Name => f.name
    case Arguments => f.arguments
  }

  /** One field of the fragments that belong to slot k, first to last. */
  function Texts(fragments: seq<Fragment>, k: nat, field: Field): seq<string> {
    if fragments == [] then []
    else (if Belongs(fragments[0], k) then [Text(fragments[0], field)] else []) + Texts(fragments[1..], k, field)
  }

  lemma {:induction false} TextsMore(fragments: seq<Fragment>, f: Fragment, k: nat, field: Field)
    ensures Texts(fragments + [f], k, field) == Texts(fragments, k, field) + if Belongs(f, k) then [Text(f, field)] else []
  {
    if fragments == [] {
      assert [] + [f] == [f] && [f][1..] == [];
    } else {
      assert (fragments + [f])[1..] == fragments[1..] + [f];
      TextsMore(fragments[1..], f, k, field);
    }
  }

  /** A call in which each field is all of its texts, first to last. */
  function WholeCall(fragments: seq<Fragment>, k: nat): ToolCall {
    ToolCall(Joined(Texts(fragments, k, Id)), Joined(Texts(fragments, k, Name)), Joined(Texts(fragments, k, Arguments)))
  }

  lemma WholeMore(fragments: seq<Fragment>, f: Fragment, k: nat)
    ensures var before, after := WholeCall(fragments, k), WholeCall(fragments + [f], k);
      after == if Belongs(f, k) then ToolCall(before.id + f.id, before.name + f.name, before.arguments + f.arguments) else before
  {
    hide Joined, Texts;
    TextsMore(fragments, f, k, Id);
    TextsMore(fragments, f, k, Name);
    TextsMore(fragments, f, k, Arguments);
    JoinedMore(Texts(fragments, k, Id), f.id);
    JoinedMore(Texts(fragments, k, Name), f.name);
    JoinedMore(Texts(fragments, k, Arguments), f.arguments);
    assert forall texts: seq<string> :: texts + [] == texts;
  }

  /** Some fragment belongs to slot k. */
  ghost predicate Used(fragments: seq<Fragment>, k: nat) {
    exists j :: 0 <= j < |fragments| && Belongs(fragments[j], k)
  }

  /**
    Slot k of the array is there exactly when some fragment belongs to it, and then its id, name and arguments
    are those of the fragments joined in the order in which they came.
  */
  lemma {:induction false} SlotHolds(fragments: seq<Fragment>, k: nat)
    ensures var calls := AccumulateAll(fragments);
      && (Used(fragments, k) <==> k < |calls| && calls[k].Some?)
      && (k < |calls| && calls[k].Some? ==>
            && calls[k].value.id == Joined(Texts(fragments, k, Id))
            && calls[k].value.name == Joined(Texts(fragments, k, Name))
            && calls[k].value.arguments == Joined(Texts(fragments, k, Arguments)))
      && (!Used(fragments, k) ==> WholeCall(fragments, k) == ToolCall("", "", ""))
  {
    hide Texts, Joined;
    if fragments == [] {
      NoTexts(k);
    } else {
      var front, last := fragments[..|fragments| - 1], fragments[|fragments| - 1];
      assert fragments == front + [last];
      SlotHolds(front, k);
      WholeMore(front, last, k);
      UsedMore(front, last, k);
      assert "" + last.id == last.id && "" + last.name == last.name && "" + last.arguments == last.arguments;
    }
  }

  /** The array ends with the highest slot that is there. */
  lemma {:induction false} EndsFilled(fragments: seq<Fragment>)
    ensures var calls := AccumulateAll(fragments); calls == [] || calls[|calls| - 1].Some?
  {
    if fragments != [] {
      EndsFilled(fragments[..|fragments| - 1]);
    }
  }

  lemma NoTexts(k: nat)
    ensures WholeCall([], k) == ToolCall("", "", "")
  {
  }

  lemma UsedMore(fragments: seq<Fragment>, f: Fragment, k: nat)
    ensures Used(fragments + [f], k) <==> Used(fragments, k) || Belongs(f, k)
  {
    if Used(fragments, k) {
      var j :| 0 <= j < |fragments| && Belongs(fragments[j], k);
      assert (fragments + [f])[j] == fragments[j];
    }
    assert (fragments + [f])[|fragments|] == f;
  }

  /** The calls of the slots below n that hold any text, by rising slot. */
  function CallsBelow(fragments: seq<Fragment>, n: nat): seq<ToolCall> {
    if n == 0 then []
    else
      var call := WholeCall(fragments, n - 1);
      CallsBelow(fragments, n - 1) + if call == ToolCall("", "", "") then [] else [call]
  }

  lemma {:induction false} CleanedIs(fragments: seq<Fragment>, n: nat)
    requires n <= |AccumulateAll(fragments)|
    ensures Cleaned(AccumulateAll(fragments)[..n]) == CallsBelow(fragments, n)
  {
    hide AccumulateAll, WholeCall;
    var calls := AccumulateAll(fragments);
    if n > 0 {
      CleanedIs(fragments, n - 1);
      assert calls[..n][..n - 1] == calls[..n - 1];
      SlotHolds(fragments, n - 1);
      WholeIs(fragments, n - 1);
    }
  }

  lemma WholeIs(fragments: seq<Fragment>, k: nat)
    ensures WholeCall(fragments, k).id == Joined(Texts(fragments, k, Id))
    ensures WholeCall(fragments, k).name == Joined(Texts(fragments, k, Name))
    ensures WholeCall(fragments, k).arguments == Joined(Texts(fragments, k, Arguments))
  {
  }

  lemma {:induction false} NothingAbove(fragments: seq<Fragment>, n: nat)
    requires n >= |AccumulateAll(fragments)|
    ensures CallsBelow(fragments, n) == CallsBelow(fragments, |AccumulateAll(fragments)|)
  {
    hide AccumulateAll, WholeCall;
    if n > |AccumulateAll(fragments)| {
      NothingAbove(fragments, n - 1);
      SlotHolds(fragments, n - 1);
    }
  }

  /**
    What both loops report of the tool calls of a stream: for every slot whose fragments carry any text at all
    its whole call, by rising slot, or nothing when there is none.
  */
  lemma ListedIs(deltas: seq<Delta>, n: nat)
    requires forall k: nat :: Used(FragmentsOf(deltas), k) ==> k < n
    ensures Listed(AccumulateAll(FragmentsOf(deltas)))
         == if CallsBelow(FragmentsOf(deltas), n) == [] then None else Some(CallsBelow(FragmentsOf(deltas), n))
  {
    hide WholeCall;
    var fragments := FragmentsOf(deltas);
    var calls := AccumulateAll(fragments);
    assert calls[..|calls|] == calls;
    CleanedIs(fragments, |calls|);
    if n >= |calls| {
      NothingAbove(fragments, n);
    } else {
      AllBelow(fragments, n, |calls|);
    }
  }

  lemma {:induction false} AllBelow(fragments: seq<Fragment>, n: nat, m: nat)
    requires n <= m && forall k: nat :: Used(fragments, k) ==> k < n
    ensures CallsBelow(fragments, m) == CallsBelow(fragments, n)
  {
    hide WholeCall;
    if n < m {
      AllBelow(fragments, n, m - 1);
      SlotHolds(fragments, m - 1);
    }
  }

  // ---------------------------------------------------------------- the function call

  /** One field of the deltas' function call fragments, first to last. */
  function Names(deltas: seq<Delta>): seq<string> {
    if deltas == [] then []
    else (if deltas[0].functionCall.Some? then [deltas[0].functionCall.value.name] else []) + Names(deltas[1..])
  }

  function ArgumentTexts(deltas: seq<Delta>): seq<string> {
    if deltas == [] then []
    else (if deltas[0].functionCall.Some? then [deltas[0].functionCall.value.arguments] else []) + ArgumentTexts(deltas[1..])
  }

  lemma {:induction false} NamesMore(deltas: seq<Delta>, d: Delta)
    ensures Names(deltas + [d]) == Names(deltas) + if d.functionCall.Some? then [d.functionCall.value.name] else []
  {
    if deltas == [] {
      assert [] + [d] == [d] && [d][1..] == [];
    } else {
      assert (deltas + [d])[1..] == deltas[1..] + [d];
      NamesMore(deltas[1..], d);
    }
  }

  lemma {:induction false} ArgumentsMore(deltas: seq<Delta>, d: Delta)
    ensures ArgumentTexts(deltas + [d])
         == ArgumentTexts(deltas) + if d.functionCall.Some? then [d.functionCall.value.arguments] else []
  {
    if deltas == [] {
      assert [] + [d] == [d] && [d][1..] == [];
    } else {
      assert (deltas + [d])[1..] == deltas[1..] + [d];
      ArgumentsMore(deltas[1..], d);
    }
  }

  /** The function call of a stream: the names and the arguments of its fragments, each joined first to last. */
  lemma {:induction false} FunctionIs(deltas: seq<Delta>)
    ensures FunctionOf(deltas) == None || FunctionOf(deltas) == Some(FunctionCall(Joined(Names(deltas)), Joined(ArgumentTexts(deltas))))
    ensures FunctionOf(deltas) == None <==> forall j :: 0 <= j < |deltas| ==> deltas[j].functionCall == None
    ensures FunctionOf(deltas) == None ==> Joined(Names(deltas)) == "" && Joined(ArgumentTexts(deltas)) == ""
  {
    hide Joined;
    if deltas == [] {
      JoinedNone();
    } else {
      var front, last := deltas[..|deltas| - 1], deltas[|deltas| - 1];
      assert deltas == front + [last];
      FunctionIs(front);
      NamesMore(front, last);
      ArgumentsMore(front, last);
      if last.functionCall.Some? {
        JoinedMore(Names(front), last.functionCall.value.name);
        JoinedMore(ArgumentTexts(front), last.functionCall.value.arguments);
      } else {
        assert Names(front) + [] == Names(front) && ArgumentTexts(front) + [] == ArgumentTexts(front);
        assert forall j :: 0 <= j < |front| ==> front[j] == deltas[j];
      }
    }
  }

  lemma JoinedNone()
    ensures Joined([]) == ""
  {
  }

  /** What both loops report of the function call: its joined texts if they hold anything, and nothing otherwise. */
  lemma CalledIs(deltas: seq<Delta>)
    ensures var name, arguments := Joined(Names(deltas)), Joined(ArgumentTexts(deltas));
      Called(FunctionOf(deltas)) == if name == "" && arguments == "" then None else Some(FunctionCall(name, arguments))
  {
    hide Joined;
    FunctionIs(deltas);
  }

  // ---------------------------------------------------------------- the callbacks

  ghost predicate AnyFunctionCall(deltas: seq<Delta>) {
    exists j :: 0 <= j < |deltas| && deltas[j].functionCall.Some?
  }

  lemma {:induction false} FunctionSeen(deltas: seq<Delta>)
    ensures FunctionOf(deltas).Some? <==> AnyFunctionCall(deltas)
  {
    if deltas != [] {
      FunctionSeen(deltas[..|deltas| - 1]);
      if AnyFunctionCall(deltas) && deltas[|deltas| - 1].functionCall.None? {
        var j :| 0 <= j < |deltas| && deltas[j].functionCall.Some?;
        assert deltas[..|deltas| - 1][j] == deltas[j];
      }
    }
  }

  function Contents(calls: seq<Call>): string {
    if calls == [] then "" else Contents(calls[..|calls| - 1]) + calls[|calls| - 1].content
  }

  /** The content strings passed to onChunk concatenate to the whole content. */
  lemma {:induction false} CallsCarryContent(deltas: seq<Delta>)
    ensures Contents(CallsOf(deltas)) == ContentOf(deltas)
  {
    if deltas != [] {
      var front := deltas[..|deltas| - 1];
      CallsCarryContent(front);
      if Reported(deltas[|deltas| - 1]) {
        assert CallsOf(deltas)[..|CallsOf(front)|] == CallsOf(front);
      } else {
        assert ContentOf(front) + "" == ContentOf(front);
        assert CallsOf(deltas) == CallsOf(front);
      }
    }
  }

  /** The last callback carries the tool calls and the function call of the whole stream. */
  lemma {:induction false} LastCallComplete(deltas: seq<Delta>)
    requires CallsOf(deltas) != []
    ensures var last := CallsOf(deltas)[|CallsOf(deltas)| - 1];
      last.toolCalls == Listed(AccumulateAll(FragmentsOf(deltas))) && last.functionCall == Called(FunctionOf(deltas))
  {
    var front, last := deltas[..|deltas| - 1], deltas[|deltas| - 1];
    if !Reported(last) {
      assert CallsOf(deltas) == CallsOf(front);
      LastCallComplete(front);
      assert FragmentsOf(front) + [] == FragmentsOf(front);
    }
  }

  /**
    collectStreamResponse returns normally exactly when some delta carries a function call. Then the
    two interfaces agree: the callbacks spell out its content, and the last one has its calls.
  */
  lemma LoopsAgree(deltas: seq<Delta>)
    ensures Collected(deltas).TypeError? <==> !AnyFunctionCall(deltas)
    ensures var response, calls := Collected(deltas), CallsOf(deltas);
      response.Response? ==>
        && Contents(calls) == response.content && calls != []
        && calls[|calls| - 1].toolCalls == response.toolCalls
        && calls[|calls| - 1].functionCall == response.functionCall
  {
    FunctionSeen(deltas);
    CallsCarryContent(deltas);
    if FunctionOf(deltas).Some? {
      SomeCall(deltas);
      LastCallComplete(deltas);
    }
  }

  lemma {:induction false} SomeCall(deltas: seq<Delta>)
    requires FunctionOf(deltas).Some?
    ensures CallsOf(deltas) != []
  {
    if deltas[|deltas| - 1].functionCall.None? {
      SomeCall(deltas[..|deltas| - 1]);
    }
  }

  // ---------------------------------------------------------------- what a caller receives

  /** The content of the deltas, first to last. */
  function ContentTexts(deltas: seq<Delta>): seq<string> {
    if deltas == [] then [] else [deltas[0].content] + ContentTexts(deltas[1..])
  }

  lemma {:induction false} ContentIs(deltas: seq<Delta>)
    ensures ContentOf(deltas) == Joined(ContentTexts(deltas))
  {
    hide Joined;
    if deltas == [] {
      JoinedNone();
    } else {
      var front, last := deltas[..|deltas| - 1], deltas[|deltas| - 1];
      assert deltas == front + [last];
      ContentIs(front);
      TextsLast(front, last);
      JoinedMore(ContentTexts(front), last.content);
    }
  }

  lemma {:induction false} TextsLast(deltas: seq<Delta>, d: Delta)
    ensures ContentTexts(deltas + [d]) == ContentTexts(deltas) + [d.content]
  {
    if deltas == [] {
      assert [] + [d] == [d] && [d][1..] == [];
    } else {
      assert (deltas + [d])[1..] == deltas[1..] + [d];
      TextsLast(deltas[1..], d);
    }
  }

  /** The tool call fragments of the deltas, first to last. */
  function AllFragments(deltas: seq<Delta>): seq<Fragment> {
    if deltas == [] then []
    else (match deltas[0].toolCalls case Some(fragments) => fragments case None => []) + AllFragments(deltas[1..])
  }

  lemma {:induction false} FragmentsLast(deltas: seq<Delta>, d: Delta)
    ensures AllFragments(deltas + [d]) == AllFragments(deltas) + match d.toolCalls case Some(fragments) => fragments case None => []
  {
    if deltas == [] {
      assert [] + [d] == [d] && [d][1..] == [];
    } else {
      assert (deltas + [d])[1..] == deltas[1..] + [d];
      FragmentsLast(deltas[1..], d);
    }
  }

  lemma {:induction false} FragmentsAre(deltas: seq<Delta>)
    ensures FragmentsOf(deltas) == AllFragments(deltas)
  {
    if deltas != [] {
      var front, last := deltas[..|deltas| - 1], deltas[|deltas| - 1];
      assert deltas == front + [last];
      FragmentsAre(front);
      FragmentsLast(front, last);
    }
  }

  /** The tool calls of a stream whose slots are numbered below n. */
  function ToolCallsOf(deltas: seq<Delta>, n: nat): Option<seq<ToolCall>> {
    var calls := CallsBelow(AllFragments(deltas), n);
    if calls == [] then None else Some(calls)
  }

  /** The function call of a stream. */
  function FunctionCallOf(deltas: seq<Delta>): Option<FunctionCall> {
    var call := FunctionCall(Joined(Names(deltas)), Joined(ArgumentTexts(deltas)));
    if call == FunctionCall("", "") then None else Some(call)
  }

  ghost predicate SlotsBelow(deltas: seq<Delta>, n: nat) {
    forall k: nat :: Used(AllFragments(deltas), k) ==> k < n
  }

  /**
    What collectStreamResponse returns: the contents joined, the tool calls put together slot by slot, the
    function call put together; and a TypeError when no delta carries a function call.
  */
  lemma CollectedIs(deltas: seq<Delta>, n: nat)
    requires SlotsBelow(deltas, n)
    ensures Collected(deltas) ==
      if forall j :: 0 <= j < |deltas| ==> deltas[j].functionCall == None then TypeError
      else Response(Joined(ContentTexts(deltas)), ToolCallsOf(deltas, n), FunctionCallOf(deltas))
  {
    hide Joined, CallsBelow;
    FragmentsAre(deltas);
    ContentIs(deltas);
    ListedIs(deltas, n);
    CalledIs(deltas);
    FunctionIs(deltas);
  }

  /**
    What streamWithCallback reports: one call for each delta with content, tool calls or a function call, with
    the delta's own content and all the calls put together so far.
  */
  lemma CallbackIs(deltas: seq<Delta>, d: Delta, n: nat)
    requires SlotsBelow(deltas + [d], n)
    ensures CallsOf(deltas + [d]) == CallsOf(deltas) +
      if d.content == "" && d.toolCalls == None && d.functionCall == None then []
      else [Call(d.content, ToolCallsOf(deltas + [d], n), FunctionCallOf(deltas + [d]))]
  {
    hide Joined, CallsBelow, Names, ArgumentTexts;
    var all := deltas + [d];
    assert all[..|all| - 1] == deltas;
    FragmentsAre(all);
    ListedIs(all, n);
    CalledIs(all);
  }
}

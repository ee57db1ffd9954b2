/** The tool-call loop of agent.ts, and addCapability, whose unique names the loop relies on. The model and the
    tools are nondeterministic: every reply, every tool text and every completion order is covered. */
module Conversation {
  import opened Common

  const MAX_ITERATIONS: nat := 10

  /** arguments is None when JSON.parse refuses the text. */
  datatype Target = Target(name: string, arguments: Option<string>)
  datatype ToolCall = ToolCall(id: string, target: Option<Target>)

  datatype Message =
    | System(content: string)
    | User(content: string)
    | Assistant(content: string, calls: seq<ToolCall>)
    | ToolResult(content: string, callId: string)

  /** One answer of the completion endpoint. */
  datatype Reply = Unreachable | Empty | Choice(message: Message)

  datatype Failure = NoKey | Upstream | NoResponse | NoFunction | BadArguments | MaxIterations
  datatype Outcome = Completed(message: Message) | Failed(why: Failure)

  // ---- capabilities -----------------------------------------------------------------------

  datatype Capability = Capability(name: string, description: string, runnable: bool)

  function Find(tools: seq<Capability>, name: string): Option<Capability> {
    if tools == [] then None
    else if tools[0].name == name then Some(tools[0])
    else Find(tools[1..], name)
  }

  predicate UniqueNames(tools: seq<Capability>) {
    forall i, j | 0 <= i < j < |tools| :: tools[i].name != tools[j].name
  }

  /** With unique names, a lookup is membership: no registered tool is hidden by another. */
  lemma {:induction false} FindIsMembership(tools: seq<Capability>, t: Capability)
    requires UniqueNames(tools)
    ensures t in tools <==> Find(tools, t.name) == Some(t)
  {
    if tools != [] {
      FindIsMembership(tools[1..], t);
      assert tools == [tools[0]] + tools[1..];
      if t in tools[1..] {
        var i :| 0 <= i < |tools[1..]| && tools[1..][i] == t;
        assert tools[i + 1] == t;
      }
    }
  }

  // ---- the shape of a conversation --------------------------------------------------------

  /** A system message is put in front unless some message, of any role, already has the prompt as its content. */
  function Initial(messages: seq<Message>, prompt: string): seq<Message> {
    if exists i :: 0 <= i < |messages| && messages[i].content == prompt then messages else [System(prompt)] + messages
  }

  /** The prompt is in the conversation as a system message exactly when it was there or nothing had its text: the test
      looks at the content alone. */
  lemma PromptPresentExactly(messages: seq<Message>, prompt: string)
    ensures System(prompt) in Initial(messages, prompt) <==>
            System(prompt) in messages || forall m | m in messages :: m.content != prompt
  {
    if exists i :: 0 <= i < |messages| && messages[i].content == prompt {
      var i :| 0 <= i < |messages| && messages[i].content == prompt;
      assert messages[i] in messages;
    } else {
      assert ([System(prompt)] + messages)[0] == System(prompt);
    }
  }

  /** A user who sends the prompt itself leaves the model without it. */
  lemma UserCanHideThePrompt(prompt: string)
    ensures System(prompt) !in Initial([User(prompt)], prompt)
  {
    assert [User(prompt)][0].content == prompt;
  }

  /** The given messages are all there, in order and at the end, and at most one system message with the prompt is in front,
      exactly when no message has the prompt's text. */
  lemma InitialKeepsMessages(messages: seq<Message>, prompt: string)
    ensures var initial := Initial(messages, prompt);
            && |messages| <= |initial| <= |messages| + 1 && initial[|initial| - |messages|..] == messages
            && (|initial| == |messages| + 1 <==> forall m | m in messages :: m.content != prompt)
            && (|initial| == |messages| + 1 ==> initial[0] == System(prompt))
  {
    if exists i :: 0 <= i < |messages| && messages[i].content == prompt {
      var i :| 0 <= i < |messages| && messages[i].content == prompt;
      assert messages[i] in messages;
    }
  }

  predicate AsksTools(m: Message) {
    m.Assistant? && m.calls != []
  }

  /** One assistant message and one result per call, with the same ids in the same order. */
  predicate Block(b: seq<Message>) {
    && b != [] && AsksTools(b[0]) && |b| == 1 + |b[0].calls|
    && forall i | 0 <= i < |b[0].calls| :: b[1 + i].ToolResult? && b[1 + i].callId == b[0].calls[i].id
  }

  predicate Blocks(s: seq<Message>)
    decreases |s|
  {
    s != [] ==>
      AsksTools(s[0]) && 1 + |s[0].calls| <= |s| && Block(s[..1 + |s[0].calls|]) && Blocks(s[1 + |s[0].calls|..])
  }

  /** What follows `before` in `after` is one block that starts with m. */
  predicate Extends(before: seq<Message>, m: Message, after: seq<Message>) {
    before <= after && Block(after[|before|..]) && after[|before|] == m
  }

  /** What one run sends and receives: the first request is the initial conversation, every further one
      extends its predecessor by the block of the reply in between. */
  predicate Protocol(sent: seq<seq<Message>>, received: seq<Reply>, initial: seq<Message>) {
    && |sent| - 1 <= |received| <= |sent| <= MAX_ITERATIONS
    && (sent != [] ==> sent[0] == initial)
    && forall k | 0 <= k < |sent| - 1 ::
         received[k].Choice? && AsksTools(received[k].message) && Extends(sent[k], received[k].message, sent[k + 1])
  }

  lemma OneBlock(b: seq<Message>)
    requires Block(b)
    ensures Blocks(b)
  {
    assert b[..|b|] == b;
  }

  lemma {:induction false} AppendBlock(s: seq<Message>, b: seq<Message>)
    requires Blocks(s) && Block(b)
    ensures Blocks(s + b)
    decreases |s|
  {
    hide Block;
    if s == [] {
      OneBlock(b);
      assert s + b == b;
    } else {
      var n := 1 + |s[0].calls|;
      AppendBlock(s[n..], b);
      assert (s + b)[..n] == s[..n] && (s + b)[n..] == s[n..] + b;
    }
  }

  /** Every message list that a run sends is the initial conversation followed by whole blocks. */
  lemma {:induction false} SentIsWellFormed(sent: seq<seq<Message>>, received: seq<Reply>, initial: seq<Message>, k: nat)
    requires Protocol(sent, received, initial) && k < |sent|
    ensures initial <= sent[k] && Blocks(sent[k][|initial|..])
  {
    if k == 0 {
      assert sent[0][|initial|..] == [];
    } else {
      SentIsWellFormed(sent, received, initial, k - 1);
      var before, after := sent[k - 1], sent[k];
      assert Extends(before, received[k - 1].message, sent[(k - 1) + 1]);
      AppendBlock(before[|initial|..], after[|before|..]);
      assert after[|initial|..] == before[|initial|..] + after[|before|..];
    }
  }

  lemma {:induction false} BlocksHaveNoSystem(s: seq<Message>, m: Message)
    requires Blocks(s) && m in s
    ensures m.Assistant? || m.ToolResult?
    decreases |s|
  {
    var n := 1 + |s[0].calls|;
    var b := s[..n];
    assert s == b + s[n..];
    if m in s[n..] {
      BlocksHaveNoSystem(s[n..], m);
    } else {
      var i :| 0 <= i < n && b[i] == m;
      if i > 0 { assert b[0].calls[i - 1].id == b[1 + (i - 1)].callId; }
    }
  }

  /** The system prompt is in every message list that a run sends, or in none, under the same condition on its input. */
  lemma PromptInAllSent(sent: seq<seq<Message>>, received: seq<Reply>, messages: seq<Message>, prompt: string, k: nat)
    requires Protocol(sent, received, Initial(messages, prompt)) && k < |sent|
    ensures System(prompt) in sent[k] <==> System(prompt) in messages || forall m | m in messages :: m.content != prompt
  {
    hide Protocol, Initial, Blocks;
    var initial := Initial(messages, prompt);
    SentIsWellFormed(sent, received, initial, k);
    PromptPresentExactly(messages, prompt);
    assert sent[k] == initial + sent[k][|initial|..];
    if System(prompt) in sent[k][|initial|..] { BlocksHaveNoSystem(sent[k][|initial|..], System(prompt)); }
  }

  /** Inside whole blocks every tool result answers a call: as many results as calls. */
  function CallCount(s: seq<Message>): nat {
    if s == [] then 0 else (if s[0].Assistant? then |s[0].calls| else 0) + CallCount(s[1..])
  }

  function ResultCount(s: seq<Message>): nat {
    if s == [] then 0 else (if s[0].ToolResult? then 1 else 0) + ResultCount(s[1..])
  }

  lemma {:induction false} OnlyResults(s: seq<Message>, n: nat)
    requires n <= |s| && forall i | 0 <= i < n :: s[i].ToolResult?
    ensures ResultCount(s) == n + ResultCount(s[n..]) && CallCount(s) == CallCount(s[n..])
  {
    if n == 0 {
      assert s[0..] == s;
    } else {
      OnlyResults(s[1..], n - 1);
      assert s[1..][n - 1..] == s[n..];
    }
  }

  lemma {:induction false} EveryCallAnswered(s: seq<Message>)
    requires Blocks(s)
    ensures ResultCount(s) == CallCount(s)
    decreases |s|
  {
    if s != [] {
      var n := |s[0].calls|;
      var b := s[..1 + n];
      assert Block(b) && b[0] == s[0];
      forall i | 0 <= i < n
        ensures s[1..][i].ToolResult?
      {
        assert b[0].calls[i].id == b[1 + i].callId;
        assert b[1 + i] == s[1 + i] == s[1..][i];
      }
      OnlyResults(s[1..], n);
      assert s[1..][n..] == s[1 + n..];
      EveryCallAnswered(s[1 + n..]);
    }
  }

  // ---- the agent --------------------------------------------------------------------------

  /** The failure of a call that raises before its tool is looked up; it rejects the whole batch. */
  function CallFault(c: ToolCall): Option<Failure> {
    if c.target.None? then Some(NoFunction)
    else if c.target.value.arguments.None? then Some(BadArguments)
    else None
  }

  /** The first such failure in call order. */
  function FirstFault(calls: seq<ToolCall>): (fault: Option<Failure>)
    ensures fault in {None, Some(NoFunction), Some(BadArguments)}
  {
    if calls == [] then None
    else if CallFault(calls[0]).Some? then CallFault(calls[0])
    else FirstFault(calls[1..])
  }

  /** What one tool did: its result as JSON text, or the message of the error that its call caught. */
  datatype ToolRun = Returned(json: string) | Threw(message: string)

  function ToolText(run: ToolRun, stringify: string -> string): string {
    if run.Returned? then run.json else "{\"error\":" + stringify(run.message) + "}"
  }

  function NotFound(name: string): string {
    "Tool \"" + name + "\" not found"
  }

  /** The result of one call: its id, the text of what its tool did, and an error text for a tool that is not there. */
  predicate Answers(result: Message, call: ToolCall, run: ToolRun, tools: seq<Capability>, stringify: string -> string) {
    && result == ToolResult(ToolText(run, stringify), call.id)
    && call.target.Some? && (Find(tools, call.target.value.name).None? ==> run == Threw(NotFound(call.target.value.name)))
  }

  lemma {:induction false} NoFaultTargets(calls: seq<ToolCall>, i: nat)
    requires FirstFault(calls).None? && i < |calls|
    ensures calls[i].target.Some?
  {
    if i > 0 { NoFaultTargets(calls[1..], i - 1); }
  }

  class Agent {
    const systemPrompt: string
    var tools: seq<Capability>
    var sent: seq<seq<Message>>       // message lists of the main requests of the last run
    var received: seq<Reply>          // their answers

    constructor (prompt: string)
      ensures systemPrompt == prompt && tools == [] && UniqueNames(tools)
    {
      systemPrompt := prompt;
      tools, sent, received := [], [], [];
    }

    /** `parsed` is the verdict of the capability schema. */
    method AddCapability(capability: Capability, parsed: bool) returns (ok: bool)
      requires UniqueNames(tools)
      modifies this`tools
      ensures UniqueNames(tools)
      ensures ok <==> parsed && Find(old(tools), capability.name).None?
      ensures tools == if ok then old(tools) + [capability] else old(tools)
    {
      if !parsed { return false; }
      FindByName(tools, capability.name);
      if exists i :: 0 <= i < |tools| && tools[i].name == capability.name { return false; }
      tools := tools + [capability];
      return true;
    }

    /** Promise.all over the calls: the tools finish in any order and do anything, the results keep call order. */
    method RunToolCalls(calls: seq<ToolCall>, stringify: string -> string)
      returns (fault: Option<Failure>, results: seq<Message>, runs: seq<ToolRun>)
      ensures fault == FirstFault(calls)
      ensures fault.None? ==> |results| == |runs| == |calls|
      ensures fault.None? ==> forall i | 0 <= i < |calls| :: Answers(results[i], calls[i], runs[i], tools, stringify)
    {
      for i := 0 to |calls|
        invariant FirstFault(calls) == FirstFault(calls[i..])
      {
        assert calls[i..][1..] == calls[i + 1..];
        if calls[i].target.None? { return Some(NoFunction), [], []; }
        if calls[i].target.value.arguments.None? { return Some(BadArguments), [], []; }
      }
      var slots := new Message[|calls|](_ => User(""));
      var did := new ToolRun[|calls|](_ => Returned(""));
      var running := Range(|calls|);
      while running != {}
        invariant running <= Range(|calls|)
        invariant forall i | 0 <= i < |calls| && i !in running :: Answers(slots[i], calls[i], did[i], tools, stringify)
        decreases running
      {
        var i :| i in running;
        NoFaultTargets(calls, i);
        var name := calls[i].target.value.name;
        var run: ToolRun := *;
        if Find(tools, name).None? { run := Threw("Tool \"" + name + "\" not found"); }
        var text := match run
          case Returned(json) => json
          case Threw(message) => "{\"error\":" + stringify(message) + "}";
        slots[i] := ToolResult(text, calls[i].id);
        did[i] := run;
        running := running - {i};
      }
      return None, slots[..], did[..];
    }

    method Process(messages: seq<Message>, hasKey: bool, stringify: string -> string) returns (r: Outcome)
      modifies this`sent, this`received
      ensures Protocol(sent, received, Initial(messages, systemPrompt))
      ensures r == Failed(NoKey) <==> !hasKey
      ensures hasKey <==> sent != []
      ensures r.Completed? <==> Answered(sent, received) && Last(received).Choice? && !AsksTools(Last(received).message)
      ensures r.Completed? ==> Last(received) == Choice(r.message)
      ensures r == Failed(Upstream) <==> |received| < |sent|
      ensures r == Failed(NoResponse) <==> Answered(sent, received) && Last(received).Empty?
      ensures forall why | why in {NoFunction, BadArguments} ::
                r == Failed(why) <==>
                Answered(sent, received) && Last(received).Choice? && AsksTools(Last(received).message)
                && FirstFault(Last(received).message.calls) == Some(why)
      ensures r == Failed(MaxIterations) <==> |received| == |sent| == MAX_ITERATIONS && AllContinue(received)
    {
      hide Protocol, Extends, Initial, FirstFault;
      sent, received := [], [];
      ghost var initial := Initial(messages, systemPrompt);
      var current := messages;
      if !exists i :: 0 <= i < |current| && current[i].content == systemPrompt {
        current := [System(systemPrompt)] + current;
      }
      SameInitial(messages, systemPrompt);
      NothingSent(initial);
      if !hasKey { return Failed(NoKey); }
      var iterations := 0;
      assert [] + [current] == [current];
      while iterations < MAX_ITERATIONS
        invariant iterations == |sent| == |received| <= MAX_ITERATIONS
        invariant iterations < MAX_ITERATIONS ==> Protocol(sent + [current], received, initial)
        invariant Protocol(sent, received, initial)
        invariant AllContinue(received)
      {
        sent := sent + [current];
        var reply: Reply := *;
        match reply
        case Unreachable => return Failed(Upstream);
        case Empty =>
          received := received + [reply];
          assert received[|received| - 1] == Empty;
          AnswerKeeps(sent, received, initial);
          return Failed(NoResponse);
        case Choice(last) =>
          received := received + [reply];
          AnswerKeeps(sent, received, initial);
          if !AsksTools(last) { return Completed(last); }
          var fault, results, runs := RunToolCalls(last.calls, stringify);
          if fault.Some? {
            assert received[|received| - 1] == Choice(last) && !AllContinue(received);
            return Failed(fault.value);
          }
          NextRequest(sent, received, initial, results);
          current := current + ([last] + results);
          iterations := iterations + 1;
      }
      return Failed(MaxIterations);
    }
  }

  /** Every request was answered, and there was one. */
  predicate Answered(sent: seq<seq<Message>>, received: seq<Reply>) {
    received != [] && |received| == |sent|
  }

  function Last(received: seq<Reply>): Reply
    requires received != []
  {
    received[|received| - 1]
  }

  lemma SameInitial(messages: seq<Message>, prompt: string)
    ensures Initial(messages, prompt) ==
            if exists i :: 0 <= i < |messages| && messages[i].content == prompt then messages else [System(prompt)] + messages
  {}

  /** Every reply so far asked for tools and its calls could be started. */
  predicate AllContinue(received: seq<Reply>) {
    forall k | 0 <= k < |received| ::
      received[k].Choice? && AsksTools(received[k].message) && FirstFault(received[k].message.calls).None?
  }

  lemma NothingSent(initial: seq<Message>)
    ensures Protocol([], [], initial) && Protocol([initial], [], initial)
  {}

  /** An answer to the last request keeps the protocol. */
  lemma AnswerKeeps(sent: seq<seq<Message>>, received: seq<Reply>, initial: seq<Message>)
    requires 1 <= |sent| == |received| && Protocol(sent, received[..|received| - 1], initial)
    ensures Protocol(sent, received, initial)
  {
    var before := received[..|received| - 1];
    assert forall k | 0 <= k < |sent| - 1 :: before[k] == received[k];
  }

  /** The block of the last answer makes the next request. */
  lemma NextRequest(sent: seq<seq<Message>>, received: seq<Reply>, initial: seq<Message>, results: seq<Message>)
    requires 1 <= |sent| == |received| && Protocol(sent, received, initial)
    requires received[|sent| - 1].Choice? && AsksTools(received[|sent| - 1].message)
    requires var calls := received[|sent| - 1].message.calls;
             |results| == |calls| && forall i | 0 <= i < |calls| :: results[i].ToolResult? && results[i].callId == calls[i].id
    ensures |sent| < MAX_ITERATIONS ==>
              Protocol(sent + [sent[|sent| - 1] + ([received[|sent| - 1].message] + results)], received, initial)
  {
    var n := |sent| - 1;
    var before, last := sent[n], received[n].message;
    BlockExtends(before, last, results);
    hide Extends, AsksTools;
    var longer := sent + [before + ([last] + results)];
    assert forall k | 0 <= k < |sent| :: longer[k] == sent[k];
  }

  lemma BlockExtends(before: seq<Message>, m: Message, results: seq<Message>)
    requires AsksTools(m) && |results| == |m.calls|
    requires forall i | 0 <= i < |m.calls| :: results[i].ToolResult? && results[i].callId == m.calls[i].id
    ensures Extends(before, m, before + ([m] + results))
  {
    var block := [m] + results;
    assert (before + block)[|before|..] == block && Block(block);
  }

  function Range(n: nat): (s: set<nat>)
    ensures forall i: nat :: i in s <==> i < n
  {
    if n == 0 then {} else Range(n - 1) + {n - 1}
  }

  lemma {:induction false} FindByName(tools: seq<Capability>, name: string)
    ensures Find(tools, name).None? <==> forall i | 0 <= i < |tools| :: tools[i].name != name
  {
    if tools != [] {
      FindByName(tools[1..], name);
      assert forall i | 1 <= i < |tools| :: tools[i] == tools[1..][i - 1];
      assert forall i | 0 <= i < |tools[1..]| :: tools[1..][i] == tools[i + 1];
    }
  }
}

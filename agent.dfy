/** The ReAct agent of `src/llama_agent.py`: a tool registry, an
    append-only chat history, and the `invoke_agent` loop that renders a
    ChatML prompt, reads the model's reply, and either answers, keeps
    thinking, or runs a tool and records its output.

    The model is an oracle: the agent holds the replies it will give, in
    order, and records the prompts it was sent. `ast.literal_eval` is the
    parameter `decode`, the system prompt template is the parameter
    `render`, and each tool carries its signature text and its call. */
module Agent {
  import opened Wrappers
  import opened Text
  import opened ChatML
  import opened Reply

  const TOOL_KEY: string := "Tool:"
  const INPUT_KEY: string := "Tool Input:"

  /** What a tool call does: return a string, or raise with these `args`. */
  datatype ToolResult = Returned(value: string) | Raised(args: seq<string>)

  /** What `ast.literal_eval` makes of the tool input: a dict used as
      keyword arguments, or a value of another type (by its type name). */
  datatype Literal = KwArgs(kwargs: map<string, string>) | NotMapping(typeName: string)

  /** A registered callable: its `__name__`; how the interpreter names it
      in a call error (its module and qualified name, as in
      `dav.TaskDAVClient.calendar_list_ids`); its rendered signature
      `name(params)`; and what calling it with keyword arguments does. */
  datatype Tool = Tool(name: string, callName: string, signature: string, call: map<string, string> -> ToolResult)

  /** How a call to `invoke_agent` ended. `Exhausted` means the oracle ran
      out of replies; the source would call the model again. */
  datatype Outcome = Answered(answer: string) | Failed(error: Error) | Exhausted

  // ---------------------------------------------------------------------
  // The registry
  // ---------------------------------------------------------------------

  /** A dict keyed by `__name__`: `order` lists its keys in insertion order. */
  ghost predicate Registry(tools: map<string, Tool>, order: seq<string>) {
    (forall i, j :: 0 <= i < j < |order| ==> order[i] != order[j])
    && (forall n :: n in tools <==> n in order)
    && (forall n :: n in tools ==> tools[n].name == n)
  }

  /** `self.tools[tool.__name__] = tool`: the tool and the new key order. A
      dict keeps an existing key in its place when its value is replaced. */
  function Register(tools: map<string, Tool>, order: seq<string>, tool: Tool): (map<string, Tool>, seq<string>) {
    (tools[tool.name := tool], if tool.name in tools then order else order + [tool.name])
  }

  /** Registering keeps the registry well formed; the new tool is found
      under its name, every other entry is kept, and the order only grows. */
  lemma {:induction false} RegisterValid(tools: map<string, Tool>, order: seq<string>, tool: Tool)
    requires Registry(tools, order)
    ensures var (t, o) := Register(tools, order, tool);
      Registry(t, o) && t[tool.name] == tool && t.Keys == tools.Keys + {tool.name}
      && (forall n :: n in tools && n != tool.name ==> t[n] == tools[n])
      && o[..|order|] == order
  {
    var (t, o) := Register(tools, order, tool);
    if tool.name !in tools {
      forall i, j | 0 <= i < j < |o| ensures o[i] != o[j] {
        if j == |order| {
          assert o[i] in tools;
        }
      }
    }
  }

  /** Last registration wins: registering a second tool under the same
      name replaces the first and leaves the order as the first left it. */
  lemma {:induction false} RegisterLastWins(tools: map<string, Tool>, order: seq<string>, t1: Tool, t2: Tool)
    requires Registry(tools, order) && t1.name == t2.name
    ensures var (ta, oa) := Register(tools, order, t1);
      var (tb, ob) := Register(ta, oa, t2);
      tb == tools[t2.name := t2] && ob == oa && ob == (if t1.name in tools then order else order + [t1.name])
  {
  }

  /** The lines of `get_tool_list`, one `- <signature>` per tool in key order. */
  function Listing(tools: map<string, Tool>, order: seq<string>): (r: seq<string>)
    requires forall k :: 0 <= k < |order| ==> order[k] in tools
    ensures |r| == |order|
    ensures forall k :: 0 <= k < |order| ==> r[k] == "- " + tools[order[k]].signature
  {
    if order == [] then [] else ["- " + tools[order[0]].signature] + Listing(tools, order[1..])
  }

  /** `get_tool_list()` */
  function ToolList(tools: map<string, Tool>, order: seq<string>): string
    requires forall k :: 0 <= k < |order| ==> order[k] in tools
  {
    JoinLines(Listing(tools, order))
  }

  /** Reading the tool list back line by line gives one `- <signature>`
      line per registered tool, in registration order. */
  lemma {:induction false} ToolListLines(tools: map<string, Tool>, order: seq<string>)
    requires Registry(tools, order) && |order| >= 1
    requires forall n :: n in tools ==> '\n' !in tools[n].signature
    ensures |SplitLines(ToolList(tools, order))| == |order|
    ensures forall k :: 0 <= k < |order| ==>
      SplitLines(ToolList(tools, order))[k] == "- " + tools[order[k]].signature
  {
    var lines := Listing(tools, order);
    forall k | 0 <= k < |lines| ensures '\n' !in lines[k] {
      assert '\n' !in tools[order[k]].signature;
      assert lines[k] == "- " + tools[order[k]].signature;
    }
    SplitJoinLines(lines);
  }

  // ---------------------------------------------------------------------
  // One model reply
  // ---------------------------------------------------------------------

  /** `" ".join(xs)` */
  function JoinSpace(xs: seq<string>): string {
    if xs == [] then "" else if |xs| == 1 then xs[0] else xs[0] + " " + JoinSpace(xs[1..])
  }

  /** `self.tools[name](**lit)`, with any exception `e` turned into
      `ERROR: <e.args joined by spaces>`. An unknown name raises `KeyError`
      before the arguments are looked at; a literal that is not a dict
      raises the interpreter's `TypeError`, whose one argument names the
      callable and the literal's type. */
  function Observe(tools: map<string, Tool>, name: string, lit: Literal): (r: string)
    ensures name in tools && lit.KwArgs? && tools[name].call(lit.kwargs).Returned? ==>
      r == tools[name].call(lit.kwargs).value
    ensures !(name in tools && lit.KwArgs? && tools[name].call(lit.kwargs).Returned?) ==>
      StartsWith(r, "ERROR: ")
    ensures name in tools && lit.KwArgs? && tools[name].call(lit.kwargs).Raised? ==>
      r == "ERROR: " + JoinSpace(tools[name].call(lit.kwargs).args)
    ensures name in tools && lit.NotMapping? ==>
      r == "ERROR: " + tools[name].callName + "() argument after ** must be a mapping, not " + lit.typeName
    ensures name !in tools ==> r == "ERROR: " + name
  {
    if name !in tools then "ERROR: " + name
    else
      match lit
      case NotMapping(typeName) =>
        "ERROR: " + tools[name].callName + "() argument after ** must be a mapping, not " + typeName
      case KwArgs(kwargs) =>
        match tools[name].call(kwargs)
        case Returned(v) => v
        case Raised(args) => "ERROR: " + JoinSpace(args)
  }

  /** What one reply adds to the history, and whether the loop stops. */
  datatype Step = Step(turns: seq<Turn>, stop: Option<Outcome>)

  function Respond(tools: map<string, Tool>, decode: string -> Option<Literal>, reply: string): Step {
    var text := Strip(reply);
    var said := Turn("assistant", text);
    match Read(text, TOOL_KEY, INPUT_KEY)
    case Answer(a) => Step([said], Some(Answered(a)))
    case NoDirective => Step([said], None)
    case Directive(name, input) =>
      match decode(input)
      case None => Step([said], Some(Failed(LiteralError(input))))
      case Some(lit) => Step([said, Turn("assistant", "Tool Output: " + Observe(tools, name, lit))], None)
  }

  /** A reply holding `Final Answer:` ends the loop with the text after
      its last occurrence, even when it also names a tool. */
  lemma {:induction false} RespondAnswer(tools: map<string, Tool>, decode: string -> Option<Literal>, reply: string)
    requires Contains(Strip(reply), FINAL)
    ensures Respond(tools, decode, reply)
      == Step([Turn("assistant", Strip(reply))], Some(Answered(Strip(AfterLast(Strip(reply), FINAL)))))
  {
  }

  /** A reply missing the `Tool:` or the `Tool Input:` directive calls no
      tool and adds no tool output: the agent keeps thinking. */
  lemma {:induction false} RespondThinking(tools: map<string, Tool>, decode: string -> Option<Literal>, reply: string)
    requires !Contains(Strip(reply), FINAL)
    requires Search(Strip(reply), TOOL_KEY).None? || Search(Strip(reply), INPUT_KEY).None?
    ensures Respond(tools, decode, reply) == Step([Turn("assistant", Strip(reply))], None)
  {
    ReadDirective(Strip(reply), TOOL_KEY, INPUT_KEY);
  }

  /** A tool input that does not decode ends the loop with the decoder's
      error, after the reply has been recorded. */
  lemma {:induction false} RespondUndecodable(tools: map<string, Tool>, decode: string -> Option<Literal>, reply: string)
    requires !Contains(Strip(reply), FINAL)
    requires Search(Strip(reply), TOOL_KEY).Some? && Search(Strip(reply), INPUT_KEY).Some?
    requires decode(Strip(Search(Strip(reply), INPUT_KEY).value)).None?
    ensures Respond(tools, decode, reply) == Step([Turn("assistant", Strip(reply))],
      Some(Failed(LiteralError(Strip(Search(Strip(reply), INPUT_KEY).value)))))
  {
    ReadDirective(Strip(reply), TOOL_KEY, INPUT_KEY);
  }

  /** A decoded tool call records the reply and then the tool's output, an
      `ERROR: ...` text when the tool is unknown or raises, and the loop goes on. */
  lemma {:induction false} RespondTool(tools: map<string, Tool>, decode: string -> Option<Literal>, reply: string)
    requires !Contains(Strip(reply), FINAL)
    requires Search(Strip(reply), TOOL_KEY).Some? && Search(Strip(reply), INPUT_KEY).Some?
    requires decode(Strip(Search(Strip(reply), INPUT_KEY).value)).Some?
    ensures var name := Strip(Search(Strip(reply), TOOL_KEY).value);
      var lit := decode(Strip(Search(Strip(reply), INPUT_KEY).value)).value;
      Respond(tools, decode, reply) == Step([Turn("assistant", Strip(reply)),
        Turn("assistant", "Tool Output: " + Observe(tools, name, lit))], None)
  {
    ReadDirective(Strip(reply), TOOL_KEY, INPUT_KEY);
  }

  /** Every reply adds its stripped text as an assistant turn, then at most
      a `Tool Output` turn, also spoken as the assistant, and only when the
      loop goes on. */
  lemma {:induction false} RespondShape(tools: map<string, Tool>, decode: string -> Option<Literal>, reply: string)
    ensures var st := Respond(tools, decode, reply);
      1 <= |st.turns| <= 2 && st.turns[0] == Turn("assistant", Strip(reply))
      && (|st.turns| == 2 ==> st.stop.None? && st.turns[1].role == "assistant")
  {
  }

  /** How a reply can stop the loop: with the final answer exactly when the
      stripped reply holds `Final Answer:`, or with the decoder's error on
      the `Tool Input:` group; never by running out of replies. */
  lemma {:induction false} RespondStops(tools: map<string, Tool>, decode: string -> Option<Literal>, reply: string)
    ensures var text := Strip(reply);
      var stop := Respond(tools, decode, reply).stop;
      (stop.Some? && stop.value.Answered? <==> Contains(text, FINAL))
      && (stop.Some? && stop.value.Answered? ==> stop.value.answer == Strip(AfterLast(text, FINAL)))
      && (stop.Some? && stop.value.Failed? ==>
            !Contains(text, FINAL) && Search(text, TOOL_KEY).Some? && Search(text, INPUT_KEY).Some?
            && stop.value.error == LiteralError(Strip(Search(text, INPUT_KEY).value))
            && decode(stop.value.error.input).None?)
      && stop != Some(Exhausted)
  {
    ReadDirective(Strip(reply), TOOL_KEY, INPUT_KEY);
  }

  // ---------------------------------------------------------------------
  // The loop
  // ---------------------------------------------------------------------

  /** How the loop renders a prompt from the history and the next user
      prompt, and what one reply does. */
  type PromptFn = (seq<Turn>, string) -> Result<string, Error>
  type StepFn = string -> Step

  /** `chatml_prompt` with the agent's system prompt. */
  function Prompter(system: string): PromptFn {
    (h: seq<Turn>, n: string) => PromptText(system, h, n)
  }

  /** The handling of one reply with the agent's tools and decoder. */
  function Responder(tools: map<string, Tool>, decode: string -> Option<Literal>): StepFn {
    (reply: string) => Respond(tools, decode, reply)
  }

  /** The state a run of the loop leaves: the history, the prompts sent to
      the model, the replies not yet given, and how it ended. */
  datatype Run = Run(history: seq<Turn>, sent: seq<string>, replies: seq<string>, outcome: Outcome)

  /** The `while True` loop of `invoke_agent` from the given history, with
      `next` as the next user prompt of the first iteration. */
  function Loop(prompt: PromptFn, respond: StepFn, history: seq<Turn>, replies: seq<string>, next: string): Run
    decreases |replies|
  {
    match prompt(history, next)
    case Err(e) => Run(history, [], replies, Failed(e))
    case Ok(p) =>
      if replies == [] then Run(history, [], replies, Exhausted)
      else
        var step := respond(replies[0]);
        var h := history + step.turns;
        if step.stop.Some? then Run(h, [p], replies[1..], step.stop.value)
        else
          var rest := Loop(prompt, respond, h, replies[1..], "");
          Run(rest.history, [p] + rest.sent, rest.replies, rest.outcome)
  }

  /** `invoke_agent(user_prompt)` on a registry, a history and the replies
      the model has yet to give. */
  function Invoke(tools: map<string, Tool>, order: seq<string>, history: seq<Turn>, replies: seq<string>,
                  render: string -> string, decode: string -> Option<Literal>, user: string): Run
    requires Registry(tools, order)
  {
    Loop(Prompter(render(ToolList(tools, order))), Responder(tools, decode),
         history + [Turn("user", user)], replies, user)
  }

  function Prepend(sent: seq<string>, r: Run): Run {
    Run(r.history, sent + r.sent, r.replies, r.outcome)
  }

  /** A prompt that cannot be rendered ends the loop with its error. */
  lemma {:induction false} LoopPromptError(prompt: PromptFn, respond: StepFn, history: seq<Turn>, replies: seq<string>, next: string)
    requires prompt(history, next).Err?
    ensures Loop(prompt, respond, history, replies, next)
      == Run(history, [], replies, Failed(prompt(history, next).error))
  {
  }

  lemma {:induction false} LoopExhausted(prompt: PromptFn, respond: StepFn, history: seq<Turn>, next: string)
    requires prompt(history, next).Ok?
    ensures Loop(prompt, respond, history, [], next) == Run(history, [], [], Exhausted)
  {
  }

  /** A reply that ends the loop: its turns are the last ones recorded. */
  lemma {:induction false} LoopStop(prompt: PromptFn, respond: StepFn, history: seq<Turn>, replies: seq<string>, next: string)
    requires prompt(history, next).Ok? && replies != []
    requires respond(replies[0]).stop.Some?
    ensures var step := respond(replies[0]);
      Loop(prompt, respond, history, replies, next)
      == Run(history + step.turns, [prompt(history, next).value], replies[1..], step.stop.value)
  {
  }

  /** A reply that does not end the loop: the model is asked again, with no
      user prompt this time. */
  lemma {:induction false} LoopContinue(prompt: PromptFn, respond: StepFn, history: seq<Turn>, replies: seq<string>, next: string)
    requires prompt(history, next).Ok? && replies != []
    requires respond(replies[0]).stop.None?
    ensures var step := respond(replies[0]);
      Loop(prompt, respond, history, replies, next)
      == Prepend([prompt(history, next).value], Loop(prompt, respond, history + step.turns, replies[1..], ""))
  {
  }

  lemma {:induction false} PrependTwice(a: seq<string>, b: seq<string>, r: Run)
    ensures Prepend(a, Prepend(b, r)) == Prepend(a + b, r)
  {
    AppendAssoc(a, b, r.sent);
  }

  /** The turns a run of replies adds to the history, in order. */
  function Appended(respond: StepFn, rs: seq<string>): seq<Turn> {
    if rs == [] then [] else respond(rs[0]).turns + Appended(respond, rs[1..])
  }

  lemma {:induction false} AppendedOne(respond: StepFn, r: string)
    ensures Appended(respond, [r]) == respond(r).turns
  {
    assert [r][1..] == [];
  }

  /** The history only grows, and it grows by the turns of the replies the
      loop consumed, in order; the replies left are the ones after those. */
  lemma {:induction false} LoopHistory(prompt: PromptFn, respond: StepFn, history: seq<Turn>, replies: seq<string>, next: string)
    ensures var r := Loop(prompt, respond, history, replies, next);
      |r.sent| <= |replies| && r.replies == replies[|r.sent|..]
      && r.history == history + Appended(respond, replies[..|r.sent|])
    decreases |replies|
  {
    if prompt(history, next).Ok? && replies != [] {
      var step := respond(replies[0]);
      if step.stop.Some? {
        assert replies[..1] == [replies[0]];
        AppendedOne(respond, replies[0]);
      } else {
        var h := history + step.turns;
        LoopHistory(prompt, respond, h, replies[1..], "");
        var rest := Loop(prompt, respond, h, replies[1..], "");
        var n := |rest.sent|;
        assert replies[..n + 1][1..] == replies[1..][..n];
        assert replies[..n + 1][0] == replies[0];
        AppendAssoc(history, step.turns, Appended(respond, replies[1..][..n]));
      }
    }
  }

  /** Each prompt renders the history the loop has built by the time it is
      sent: the starting history and the turns of the replies before it.
      Only the first is rendered with `next`; every later one with no next
      user prompt. */
  lemma {:induction false} LoopPrompts(prompt: PromptFn, respond: StepFn, history: seq<Turn>, replies: seq<string>, next: string)
    ensures var r := Loop(prompt, respond, history, replies, next);
      |r.sent| <= |replies|
      && forall k :: 0 <= k < |r.sent| ==>
        prompt(history + Appended(respond, replies[..k]), if k == 0 then next else "") == Ok(r.sent[k])
    decreases |replies|
  {
    var r := Loop(prompt, respond, history, replies, next);
    if prompt(history, next).Ok? && replies != [] {
      assert history + Appended(respond, replies[..0]) == history by {
        assert replies[..0] == [];
      }
      var step := respond(replies[0]);
      if step.stop.None? {
        var h := history + step.turns;
        LoopPrompts(prompt, respond, h, replies[1..], "");
        var rest := Loop(prompt, respond, h, replies[1..], "");
        forall k | 1 <= k < |r.sent|
          ensures prompt(history + Appended(respond, replies[..k]), "") == Ok(r.sent[k])
        {
          assert r.sent[k] == rest.sent[k - 1];
          assert replies[..k][1..] == replies[1..][..k - 1];
          assert replies[..k][0] == replies[0];
          AppendAssoc(history, step.turns, Appended(respond, replies[1..][..k - 1]));
        }
      }
    }
  }

  /** How a run ends: out of replies with a prompt still to send; on a
      prompt that cannot be rendered, with its error; or on the last reply
      consumed, whose turns are the last of the history. */
  lemma {:induction false} LoopEnd(prompt: PromptFn, respond: StepFn, history: seq<Turn>, replies: seq<string>, next: string)
    ensures var r := Loop(prompt, respond, history, replies, next);
      var asked := if r.sent == [] then next else "";
      (r.outcome == Exhausted && r.replies == [] && prompt(r.history, asked).Ok?)
      || (prompt(r.history, asked).Err? && r.outcome == Failed(prompt(r.history, asked).error))
          || (1 <= |r.sent| <= |replies|
              && var st := respond(replies[|r.sent| - 1]);
              st.stop == Some(r.outcome) && |st.turns| <= |r.history|
              && r.history[|r.history| - |st.turns|..] == st.turns)
    decreases |replies|
  {
    if prompt(history, next).Ok? && replies != [] {
      var step := respond(replies[0]);
      var h := history + step.turns;
      if step.stop.Some? {
        assert h[|h| - |step.turns|..] == step.turns;
      } else {
        LoopEnd(prompt, respond, h, replies[1..], "");
        LoopHistory(prompt, respond, h, replies[1..], "");
        var rest := Loop(prompt, respond, h, replies[1..], "");
        assert rest.sent != [] ==> replies[1..][|rest.sent| - 1] == replies[|rest.sent|];
      }
    }
  }

  /** An outcome that neither the prompt nor the oracle running dry can
      produce comes from the last reply consumed, whose turns close the
      history. */
  lemma {:induction false} LoopByReply(prompt: PromptFn, respond: StepFn, history: seq<Turn>, replies: seq<string>,
                                       next: string, o: Outcome)
    requires !o.Exhausted?
    requires forall h: seq<Turn>, n: string :: prompt(h, n).Err? ==> o != Failed(prompt(h, n).error)
    requires Loop(prompt, respond, history, replies, next).outcome == o
    ensures var r := Loop(prompt, respond, history, replies, next);
      1 <= |r.sent| <= |replies|
      && var st := respond(replies[|r.sent| - 1]);
      st.stop == Some(o) && |st.turns| <= |r.history| && r.history[|r.history| - |st.turns|..] == st.turns
  {
    LoopEnd(prompt, respond, history, replies, next);
  }

  /** The turns the replies add are all assistant turns, at least one per
      reply, the first of them the stripped reply. */
  lemma {:induction false} AppendedTurns(tools: map<string, Tool>, decode: string -> Option<Literal>, rs: seq<string>)
    ensures var a := Appended(Responder(tools, decode), rs);
      |a| >= |rs| && (rs != [] ==> a[0] == Turn("assistant", Strip(rs[0])))
      && forall k :: 0 <= k < |a| ==> a[k].role == "assistant"
    decreases |rs|
  {
    if rs != [] {
      RespondShape(tools, decode, rs[0]);
      AppendedTurns(tools, decode, rs[1..]);
    }
  }

  /** `invoke_agent` appends the user turn, then the turns of the replies
      it consumed: the history is never reset, truncated or rewritten, and
      everything after the user turn is spoken by the assistant. */
  lemma {:induction false} InvokeHistory(tools: map<string, Tool>, order: seq<string>, history: seq<Turn>,
                                         replies: seq<string>, render: string -> string,
                                         decode: string -> Option<Literal>, user: string)
    requires Registry(tools, order)
    ensures var r := Invoke(tools, order, history, replies, render, decode, user);
      |r.sent| <= |replies| && r.replies == replies[|r.sent|..]
      && var added := Appended(Responder(tools, decode), replies[..|r.sent|]);
      r.history == history + [Turn("user", user)] + added
      && (forall k :: 0 <= k < |added| ==> added[k].role == "assistant")
      && (|r.sent| > 0 ==> added[0] == Turn("assistant", Strip(replies[0])))
  {
    var r := Invoke(tools, order, history, replies, render, decode, user);
    LoopHistory(Prompter(render(ToolList(tools, order))), Responder(tools, decode),
                history + [Turn("user", user)], replies, user);
    AppendedTurns(tools, decode, replies[..|r.sent|]);
  }

  /** Every prompt renders, with the system prompt made from the tool list,
      the history as it stands when the prompt is sent: the history before
      the call, the user turn, and the turns of the replies already read,
      tool outputs included. The user prompt is passed as the next user
      prompt on the first call only. */
  lemma {:induction false} InvokePrompts(tools: map<string, Tool>, order: seq<string>, history: seq<Turn>,
                                         replies: seq<string>, render: string -> string,
                                         decode: string -> Option<Literal>, user: string)
    requires Registry(tools, order)
    ensures var r := Invoke(tools, order, history, replies, render, decode, user);
      var system := render(ToolList(tools, order));
      |r.sent| <= |replies|
      && forall k :: 0 <= k < |r.sent| ==>
        PromptText(system, history + [Turn("user", user)] + Appended(Responder(tools, decode), replies[..k]),
                   if k == 0 then user else "") == Ok(r.sent[k])
  {
    var system := render(ToolList(tools, order));
    var r := Invoke(tools, order, history, replies, render, decode, user);
    var h := history + [Turn("user", user)];
    LoopPrompts(Prompter(system), Responder(tools, decode), h, replies, user);
    forall k | 0 <= k < |r.sent|
      ensures PromptText(system, h + Appended(Responder(tools, decode), replies[..k]), if k == 0 then user else "")
        == Ok(r.sent[k])
    {
      assert Prompter(system)(h + Appended(Responder(tools, decode), replies[..k]), if k == 0 then user else "")
        == Ok(r.sent[k]);
    }
  }

  /** A final answer is the text after the last `Final Answer:` of the last
      reply the loop consumed, stripped; that reply is the last turn. */
  lemma {:induction false} LoopAnswered(tools: map<string, Tool>, system: string, decode: string -> Option<Literal>,
                                        history: seq<Turn>, replies: seq<string>, next: string)
    ensures var r := Loop(Prompter(system), Responder(tools, decode), history, replies, next);
      r.outcome.Answered? ==>
        1 <= |r.sent| <= |replies| && r.history != []
        && var text := Strip(replies[|r.sent| - 1]);
        Contains(text, FINAL) && r.outcome.answer == Strip(AfterLast(text, FINAL))
        && r.history[|r.history| - 1] == Turn("assistant", text)
  {
    var r := Loop(Prompter(system), Responder(tools, decode), history, replies, next);
    if r.outcome.Answered? {
      LoopByReply(Prompter(system), Responder(tools, decode), history, replies, next, r.outcome);
      var last := replies[|r.sent| - 1];
      var st := Respond(tools, decode, last);
      assert Responder(tools, decode)(last) == st;
      RespondShape(tools, decode, last);
      RespondStops(tools, decode, last);
      assert |st.turns| == 1;
    }
  }


  /** `chatml_prompt` fails only with the `ValueError` of an invalid role. */
  lemma {:induction false} HistoryErrorIsValueError(history: seq<Turn>, n: nat)
    requires n <= |history|
    ensures HistoryBlocks(history, n).Err? ==> HistoryBlocks(history, n).error.ValueError?
  {
    if n > 0 {
      HistoryErrorIsValueError(history, n - 1);
    }
  }

  /** `chatml_prompt` succeeds exactly on a history with valid roles, and
      otherwise fails with a `ValueError`. */
  lemma {:induction false} PromptOutcome(system: string, history: seq<Turn>, next: string)
    ensures PromptText(system, history, next).Ok? <==> ValidHistory(history)
    ensures PromptText(system, history, next).Err? ==> PromptText(system, history, next).error.ValueError?
  {
    HistoryBlocksOk(history);
    HistoryErrorIsValueError(history, |history|);
  }

  /** Every error of the agent's prompt renderer is a `ValueError`. */
  lemma {:induction false} PrompterErrors(system: string)
    ensures forall h: seq<Turn>, n: string :: Prompter(system)(h, n).Err? ==> Prompter(system)(h, n).error.ValueError?
  {
    forall h: seq<Turn>, n: string | Prompter(system)(h, n).Err?
      ensures Prompter(system)(h, n).error.ValueError?
    {
      PromptOutcome(system, h, n);
    }
  }

  /** The only exceptions `invoke_agent` lets out are a `ValueError` from
      a history role `chatml_prompt` rejects, and the decoder's error: the
      tools' exceptions are all caught. */
  lemma {:induction false} LoopFailed(tools: map<string, Tool>, system: string, decode: string -> Option<Literal>,
                                      history: seq<Turn>, replies: seq<string>, next: string)
    ensures var r := Loop(Prompter(system), Responder(tools, decode), history, replies, next);
      r.outcome.Failed? ==>
        (r.outcome.error.ValueError? && !ValidHistory(r.history)) || r.outcome.error.LiteralError?
  {
    var r := Loop(Prompter(system), Responder(tools, decode), history, replies, next);
    LoopEnd(Prompter(system), Responder(tools, decode), history, replies, next);
    var asked := if r.sent == [] then next else "";
    PromptOutcome(system, r.history, asked);
    if r.outcome.Failed? && |r.sent| >= 1 && Prompter(system)(r.history, asked).Ok? {
      RespondStops(tools, decode, replies[|r.sent| - 1]);
    }
  }

  /** A reply that stopped the loop with a decoder error, and whose turns
      close the history. */
  lemma {:induction false} UndecodableReply(tools: map<string, Tool>, decode: string -> Option<Literal>, reply: string,
                                            history: seq<Turn>, o: Outcome)
    requires o.Failed? && o.error.LiteralError?
    requires Respond(tools, decode, reply).stop == Some(o)
    requires var ts := Respond(tools, decode, reply).turns; |ts| <= |history| && history[|history| - |ts|..] == ts
    ensures var text := Strip(reply);
      history != [] && history[|history| - 1] == Turn("assistant", text)
      && !Contains(text, FINAL) && Search(text, TOOL_KEY).Some? && Search(text, INPUT_KEY).Some?
      && o.error.input == Strip(Search(text, INPUT_KEY).value) && decode(o.error.input).None?
  {
    var ts := Respond(tools, decode, reply).turns;
    RespondShape(tools, decode, reply);
    RespondStops(tools, decode, reply);
    assert |ts| == 1;
    assert history[|history| - 1] == history[|history| - |ts|..][0];
  }

  /** A decode failure names the stripped `Tool Input:` group of the last
      reply consumed, which is already the last turn of the history. */
  lemma {:induction false} LoopUndecodable(tools: map<string, Tool>, system: string, decode: string -> Option<Literal>,
                                           history: seq<Turn>, replies: seq<string>, next: string)
    ensures var r := Loop(Prompter(system), Responder(tools, decode), history, replies, next);
      r.outcome.Failed? && r.outcome.error.LiteralError? ==>
        1 <= |r.sent| <= |replies| && r.history != []
        && var text := Strip(replies[|r.sent| - 1]);
        r.history[|r.history| - 1] == Turn("assistant", text)
        && !Contains(text, FINAL) && Search(text, TOOL_KEY).Some? && Search(text, INPUT_KEY).Some?
        && r.outcome.error.input == Strip(Search(text, INPUT_KEY).value)
        && decode(r.outcome.error.input).None?
  {
    var r := Loop(Prompter(system), Responder(tools, decode), history, replies, next);
    if r.outcome.Failed? && r.outcome.error.LiteralError? {
      PrompterErrors(system);
      LoopByReply(Prompter(system), Responder(tools, decode), history, replies, next, r.outcome);
      var last := replies[|r.sent| - 1];
      assert Responder(tools, decode)(last) == Respond(tools, decode, last);
      UndecodableReply(tools, decode, last, r.history, r.outcome);
    }
  }

  /** `Exhausted` is only the oracle running dry: the loop ends that way
      exactly when every reply was consumed without an answer or an error,
      and the next prompt could be rendered. */
  lemma {:induction false} LoopOutOfReplies(tools: map<string, Tool>, system: string, decode: string -> Option<Literal>,
                                            history: seq<Turn>, replies: seq<string>, next: string)
    ensures var r := Loop(Prompter(system), Responder(tools, decode), history, replies, next);
      r.outcome.Exhausted? ==> r.replies == [] && |r.sent| == |replies| && ValidHistory(r.history)
  {
    var r := Loop(Prompter(system), Responder(tools, decode), history, replies, next);
    LoopEnd(Prompter(system), Responder(tools, decode), history, replies, next);
    LoopHistory(Prompter(system), Responder(tools, decode), history, replies, next);
    var asked := if r.sent == [] then next else "";
    PromptOutcome(system, r.history, asked);
  }

  /** The source's quirk: the user prompt reaches the first prompt twice,
      first as the history turn (only stripped), then as the sanitized user
      block before the assistant marker. */
  lemma {:induction false} InvokeFirstPrompt(tools: map<string, Tool>, order: seq<string>, history: seq<Turn>,
                                             replies: seq<string>, render: string -> string,
                                             decode: string -> Option<Literal>, user: string)
    requires Registry(tools, order) && ValidHistory(history) && replies != [] && user != ""
    ensures HistoryBlocks(history, |history|).Ok?
    ensures var r := Invoke(tools, order, history, replies, render, decode, user);
      |r.sent| >= 1
      && r.sent[0] == BEGIN + SystemText(render(ToolList(tools, order)))
        + NewlinePrefixed(HistoryBlocks(history, |history|).value)
        + "\n" + Block("user", user).value
        + "\n" + Block("user", Sanitize(user)).value + "\n" + "<|assistant|>"
  {
    var system := render(ToolList(tools, order));
    var h := history + [Turn("user", user)];
    FirstPromptText(system, history, user);
    LoopStarts(Prompter(system), Responder(tools, decode), h, replies, user);
    InvokePrompts(tools, order, history, replies, render, decode, user);
    assert h + Appended(Responder(tools, decode), replies[..0]) == h by {
      assert replies[..0] == [];
    }
  }

  /** The prompt of a history ending in the user turn, with the same user
      prompt as the next one. */
  lemma {:induction false} FirstPromptText(system: string, history: seq<Turn>, user: string)
    requires ValidHistory(history) && user != ""
    ensures HistoryBlocks(history, |history|).Ok?
    ensures PromptText(system, history + [Turn("user", user)], user)
      == Ok(BEGIN + SystemText(system) + NewlinePrefixed(HistoryBlocks(history, |history|).value)
        + "\n" + Block("user", user).value
        + "\n" + Block("user", Sanitize(user)).value + "\n" + "<|assistant|>")
  {
    var h := history + [Turn("user", user)];
    HistoryBlocksSnoc(history, Turn("user", user));
    var hb := HistoryBlocks(history, |history|).value;
    var raw := Block("user", user).value;
    NewlinePrefixedAppend(hb, [raw]);
    NewlinePrefixedOne(raw);
    assert NewlinePrefixed(HistoryBlocks(h, |h|).value) == NewlinePrefixed(hb) + ("\n" + raw);
    PromptLayout(system, h, user);
    var clean := "\n" + Block("user", Sanitize(user)).value + "\n" + "<|assistant|>";
    assert UserText(user) == clean;
    Regroup(BEGIN + SystemText(system), NewlinePrefixed(hb), "\n", raw, Block("user", Sanitize(user)).value, "<|assistant|>");
  }

  /** A loop whose first prompt renders and that has a reply to read sends
      that prompt. */
  lemma {:induction false} LoopStarts(prompt: PromptFn, respond: StepFn, history: seq<Turn>, replies: seq<string>, next: string)
    requires prompt(history, next).Ok? && replies != []
    ensures |Loop(prompt, respond, history, replies, next).sent| >= 1
  {
  }

  /** A history of valid roles extended by turns of valid roles. */
  lemma {:induction false} ValidHistoryAppend(history: seq<Turn>, turns: seq<Turn>)
    requires ValidHistory(history)
    requires forall k :: 0 <= k < |turns| ==> turns[k].role in ValidRoles
    ensures ValidHistory(history + turns)
  {
    var h := history + turns;
    forall k | 0 <= k < |h| ensures h[k].role in ValidRoles {
      if k >= |history| {
        assert h[k] == turns[k - |history|];
      }
    }
  }

  /** When every history of valid roles renders and every reply adds turns
      of valid roles without stopping, the loop only ends by running out of
      replies. */
  lemma {:induction false} LoopNoStop(prompt: PromptFn, respond: StepFn, history: seq<Turn>, replies: seq<string>, next: string)
    requires ValidHistory(history)
    requires forall h: seq<Turn>, n: string :: ValidHistory(h) ==> prompt(h, n).Ok?
    requires forall x: string, k :: 0 <= k < |respond(x).turns| ==> respond(x).turns[k].role in ValidRoles
    requires forall k :: 0 <= k < |replies| ==> respond(replies[k]).stop.None?
    ensures var r := Loop(prompt, respond, history, replies, next);
      r.outcome == Exhausted && |r.sent| == |replies| && r.replies == []
    decreases |replies|
  {
    if replies != [] {
      var step := respond(replies[0]);
      ValidHistoryAppend(history, step.turns);
      assert forall k :: 0 <= k < |replies[1..]| ==> replies[1..][k] == replies[k + 1];
      LoopNoStop(prompt, respond, history + step.turns, replies[1..], "");
    }
  }

  /** There is no iteration cap: replies that neither answer nor fail keep
      the loop asking until the replies run out. */
  lemma {:induction false} LoopKeepsAsking(tools: map<string, Tool>, system: string, decode: string -> Option<Literal>,
                                           history: seq<Turn>, replies: seq<string>, next: string)
    requires ValidHistory(history)
    requires forall k :: 0 <= k < |replies| ==> Respond(tools, decode, replies[k]).stop.None?
    ensures var r := Loop(Prompter(system), Responder(tools, decode), history, replies, next);
      r.outcome == Exhausted && |r.sent| == |replies| && r.replies == []
  {
    forall h: seq<Turn>, n: string | ValidHistory(h) ensures Prompter(system)(h, n).Ok? {
      PromptOutcome(system, h, n);
    }
    forall x: string, k | 0 <= k < |Responder(tools, decode)(x).turns|
      ensures Responder(tools, decode)(x).turns[k].role in ValidRoles
    {
      RespondShape(tools, decode, x);
    }
    LoopNoStop(Prompter(system), Responder(tools, decode), history, replies, next);
  }

  // ---------------------------------------------------------------------
  // The agent object
  // ---------------------------------------------------------------------

  class ReActAgent {
    var tools: map<string, Tool>
    var order: seq<string>
    var history: seq<Turn>
    /** the replies the model will give, in order */
    var replies: seq<string>
    /** the prompts the model has been sent, in order */
    var sent: seq<string>

    ghost predicate Valid()
      reads this
    {
      Registry(tools, order)
    }

    /** `ReActAgent(model)`: no tools and an empty history. */
    constructor (replies: seq<string>)
      ensures Valid()
      ensures tools == map[] && order == [] && history == [] && this.replies == replies && sent == []
    {
      tools := map[];
      order := [];
      history := [];
      this.replies := replies;
      sent := [];
    }

    /** `add_tool(tool)` */
    method AddTool(tool: Tool)
      requires Valid()
      modifies this
      ensures Valid()
      ensures (tools, order) == Register(old(tools), old(order), tool)
      ensures history == old(history) && replies == old(replies) && sent == old(sent)
    {
      RegisterValid(tools, order, tool);
      if tool.name !in tools {
        order := order + [tool.name];
      }
      tools := tools[tool.name := tool];
    }

    /** `get_tool_list()` */
    function GetToolList(): (r: string)
      reads this
      requires Valid()
      ensures order == [] ==> r == ""
      ensures |order| >= 1 && (forall n :: n in tools ==> '\n' !in tools[n].signature) ==>
        |SplitLines(r)| == |order|
        && forall k :: 0 <= k < |order| ==> SplitLines(r)[k] == "- " + tools[order[k]].signature
    {
      if |order| >= 1 && (forall n :: n in tools ==> '\n' !in tools[n].signature) then
        ToolListLines(tools, order);
        ToolList(tools, order)
      else
        ToolList(tools, order)
    }

    /** `add_history(role, text)`: appends one turn; nothing else changes. */
    method AddHistory(role: string, text: string)
      modifies this
      ensures history == old(history) + [Turn(role, text)]
      ensures tools == old(tools) && order == old(order) && replies == old(replies) && sent == old(sent)
    {
      history := history + [Turn(role, text)];
    }

    /** `invoke_agent(user_prompt)` */
    method InvokeAgent(userPrompt: string, render: string -> string, decode: string -> Option<Literal>)
      returns (o: Outcome)
      requires Valid()
      modifies this
      ensures Valid() && tools == old(tools) && order == old(order)
      ensures var r := Invoke(old(tools), old(order), old(history), old(replies), render, decode, userPrompt);
        history == r.history && replies == r.replies && sent == old(sent) + r.sent && o == r.outcome
    {
      AddHistory("user", userPrompt);
      var toolList := GetToolList();
      var system := render(toolList);
      var up := userPrompt;
      ghost var total := Loop(Prompter(system), Responder(tools, decode), history, replies, up);
      ghost var sent0 := sent;
      ghost var sentHere: seq<string> := [];
      while true
        invariant Valid() && tools == old(tools) && order == old(order)
        invariant sent == sent0 + sentHere
        invariant total == Invoke(old(tools), old(order), old(history), old(replies), render, decode, userPrompt)
        invariant total == Prepend(sentHere, Loop(Prompter(system), Responder(tools, decode), history, replies, up))
        decreases |replies|
      {
        ghost var before := sentHere;
        var done, outcome, p := Iterate(system, decode, up);
        AppendAssoc(sent0, sentHere, p);
        sentHere := sentHere + p;
        if done {
          PrependTwice(before, p, Run(history, [], replies, outcome));
          assert sentHere + [] == sentHere;
          return outcome;
        }
        up := "";
        PrependTwice(before, p, Loop(Prompter(system), Responder(tools, decode), history, replies, up));
      }
    }

    /** One iteration of the `while True` loop of `invoke_agent`: render the
        prompt, take the model's next reply and handle it. `done` says the
        loop returns `o`; `p` are the prompts sent on the way. */
    method Iterate(system: string, decode: string -> Option<Literal>, up: string)
      returns (done: bool, o: Outcome, ghost p: seq<string>)
      requires Valid()
      modifies this
      ensures Valid() && tools == old(tools) && order == old(order) && sent == old(sent) + p
      ensures done ==> Loop(Prompter(system), Responder(tools, decode), old(history), old(replies), up) == Prepend(p, Run(history, [], replies, o))
      ensures !done ==> (|replies| < |old(replies)|
        && Loop(Prompter(system), Responder(tools, decode), old(history), old(replies), up) == Prepend(p, Loop(Prompter(system), Responder(tools, decode), history, replies, "")))
    {
      var prompt := ChatPrompt(system, history, up);
      if prompt.Err? {
        LoopPromptError(Prompter(system), Responder(tools, decode), history, replies, up);
        return true, Failed(prompt.error), [];
      }
      if replies == [] {
        LoopExhausted(Prompter(system), Responder(tools, decode), history, up);
        return true, Exhausted, [];
      }
      ghost var h0, r0 := history, replies;
      var response := replies[0];
      replies := replies[1..];
      sent := sent + [prompt.value];
      var stop := HandleReply(response, decode);
      if stop.Some? {
        LoopStop(Prompter(system), Responder(tools, decode), h0, r0, up);
        return true, stop.value, [prompt.value];
      }
      LoopContinue(Prompter(system), Responder(tools, decode), h0, r0, up);
      return false, Exhausted, [prompt.value];
    }

    /** The rest of one iteration of `invoke_agent`, once the model has
        replied: record the stripped reply, then return the final answer,
        keep thinking, re-raise the decoder's error, or call the tool and
        record its output. `None` means the loop goes on. */
    method HandleReply(response: string, decode: string -> Option<Literal>) returns (stop: Option<Outcome>)
      modifies this
      ensures history == old(history) + Respond(tools, decode, response).turns
      ensures stop == Respond(tools, decode, response).stop
      ensures tools == old(tools) && order == old(order) && replies == old(replies) && sent == old(sent)
    {
      var text := Strip(response);
      AddHistory("assistant", text);
      if Contains(text, FINAL) {
        RespondAnswer(tools, decode, response);
        return Some(Answered(Strip(AfterLast(text, FINAL))));
      }
      var actionMatch := Search(text, TOOL_KEY);
      var inputMatch := Search(text, INPUT_KEY);
      if actionMatch.None? || inputMatch.None? {
        // still thinking
        RespondThinking(tools, decode, response);
        return None;
      }
      var actionName := Strip(actionMatch.value);
      var actionInput := Strip(inputMatch.value);
      var lit := decode(actionInput);
      if lit.None? {
        RespondUndecodable(tools, decode, response);
        return Some(Failed(LiteralError(actionInput)));
      }
      var observation := Observe(tools, actionName, lit.value);
      AddHistory("assistant", "Tool Output: " + observation);
      RespondTool(tools, decode, response);
      AppendPair(old(history), Turn("assistant", text), Turn("assistant", "Tool Output: " + observation));
      return None;
    }
  }
}

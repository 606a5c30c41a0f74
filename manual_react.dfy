/** The scratchpad ReAct loop of `src/manual-react.py`: a plain-text prompt
    (a fixed format header, the history lines, the question), the same
    `Final Answer:` test as the agent, and a stricter error policy: a reply
    without `Action:`/`Action Input:` and an unknown tool name are errors.

    The model is an oracle given as the replies it will give, in order.
    A tool is what `StructuredTool.invoke` does with the stripped input
    text: return a string or raise with these `args`. */
module ManualReact {
  import opened Wrappers
  import opened Text
  import opened ChatML
  import opened Reply
  import opened Agent

  const HEADER: string :=
    "You are a helpful agent. Use the following format:\n"
    + "Thought: <your thoughts>\n"
    + "Action: <tool name>\n"
    + "Action Input: <input for the tool>\n"
    + "Observation: <result from the tool>\n"
    + "... (you can repeat Thought/Action/Observation) ...\n"
    + "Final Answer: <your final answer>\n\n"

  const ACTION_KEY: string := "Action:"
  const ACTION_INPUT_KEY: string := "Action Input:"
  const PARSE_ERROR: string := "Could not parse Action and Action Input."
  const MULTIPLIER: string := "Multiplier"

  // ---------------------------------------------------------------------
  // multiply
  // ---------------------------------------------------------------------

  function Digit(d: nat): char
    requires d < 10
  {
    "0123456789"[d]
  }

  /** The decimal digits of `n`, most significant first, with no leading zero. */
  function NatString(n: nat): string
    decreases n
  {
    if n < 10 then [Digit(n)] else NatString(n / 10) + [Digit(n % 10)]
  }

  /** `str(n)` for a Python `int`. */
  function IntString(n: int): string {
    if n < 0 then "-" + NatString(-n) else NatString(n)
  }

  /** `multiply(x, y)` */
  function Multiply(x: int, y: int): string {
    IntString(x * y)
  }

  predicate IsDigit(c: char) {
    '0' <= c <= '9'
  }

  /** Reads a non-empty run of decimal digits. */
  function ParseNat(s: string): Option<nat>
    decreases |s|
  {
    if s == [] || !IsDigit(s[|s| - 1]) then None
    else if |s| == 1 then Some((s[0] - '0') as nat)
    else
      match ParseNat(s[..|s| - 1])
      case None => None
      case Some(m) => Some(10 * m + (s[|s| - 1] - '0') as nat)
  }

  /** Reads an optionally negative decimal integer. */
  function ParseInt(s: string): Option<int> {
    if s != [] && s[0] == '-' then
      match ParseNat(s[1..])
      case None => None
      case Some(m) => Some(-(m as int))
    else
      match ParseNat(s)
      case None => None
      case Some(m) => Some(m)
  }

  lemma {:induction false} NatStringDigits(n: nat)
    ensures NatString(n) != [] && forall k :: 0 <= k < |NatString(n)| ==> IsDigit(NatString(n)[k])
    ensures NatString(n)[0] == '0' <==> n == 0
    ensures |NatString(n)| > 1 ==> NatString(n)[0] != '0'
    decreases n
  {
    if n >= 10 {
      NatStringDigits(n / 10);
      assert NatString(n)[0] == NatString(n / 10)[0];
    }
  }

  /** Reading the digits of `n` back gives `n`. */
  lemma {:induction false} NatRoundTrip(n: nat)
    ensures ParseNat(NatString(n)) == Some(n)
    decreases n
  {
    if n >= 10 {
      NatRoundTrip(n / 10);
      var s := NatString(n);
      assert s[..|s| - 1] == NatString(n / 10);
    }
  }

  /** A minus sign before the digits of `m > 0` reads back as `-m`, and a
      non-zero digit follows the sign. */
  lemma {:induction false} SignedDigits(m: nat)
    requires m > 0
    ensures var s := "-" + NatString(m); ParseInt(s) == Some(-(m as int)) && |s| > 1 && s[1] != '0'
  {
    var t := NatString(m);
    NatRoundTrip(m);
    NatStringDigits(m);
    assert ("-" + t)[1..] == t;
  }

  /** The text `str` gives a negative number reads back as that number,
      and a non-zero digit follows its sign. */
  lemma {:induction false} NegativeRoundTrip(n: int)
    requires n < 0
    ensures var s := IntString(n); ParseInt(s) == Some(n) && |s| > 1 && s[0] == '-' && s[1] != '0'
  {
    var m: nat := -n;
    SignedDigits(m);
    assert IntString(n) == "-" + NatString(m);
  }

  /** The text `str` gives a number `n >= 0` reads back as `n` and has no
      sign and no leading zero. */
  lemma {:induction false} NonNegativeRoundTrip(n: int)
    requires n >= 0
    ensures var s := IntString(n); ParseInt(s) == Some(n) && s != [] && s[0] != '-' && (|s| > 1 ==> s[0] != '0')
  {
    NatRoundTrip(n);
    NatStringDigits(n);
    assert IsDigit(NatString(n)[0]);
  }

  /** `str(n)` is the decimal text of `n`: reading it back gives `n`, a `-`
      comes first exactly when `n` is negative, and the digits have no
      leading zero. */
  lemma {:induction false} IntRoundTrip(n: int)
    ensures ParseInt(IntString(n)) == Some(n)
    ensures var s := IntString(n); s != [] && (s[0] == '-' <==> n < 0)
    ensures var s := IntString(n); s[0] != '-' && |s| > 1 ==> s[0] != '0'
    ensures var s := IntString(n); s[0] == '-' ==> |s| > 1 && s[1] != '0'
  {
    if n < 0 {
      NegativeRoundTrip(n);
    } else {
      NonNegativeRoundTrip(n);
    }
  }

  /** `multiply` returns the decimal text of the product, as `str` writes
      it: reading it back gives `x * y`, a `-` comes first exactly when the
      product is negative, and the digits have no leading zero. */
  lemma {:induction false} MultiplyRoundTrip(x: int, y: int)
    ensures ParseInt(Multiply(x, y)) == Some(x * y)
    ensures var s := Multiply(x, y); s != [] && (s[0] == '-' <==> x * y < 0)
    ensures var s := Multiply(x, y); s[0] != '-' && |s| > 1 ==> s[0] != '0'
    ensures var s := Multiply(x, y); s[0] == '-' ==> |s| > 1 && s[1] != '0'
  {
    IntRoundTrip(x * y);
  }

  /** The tools dict: `multiply` wrapped as a tool under the name `Multiplier`. */
  function DefaultTools(multiplier: string -> ToolResult): map<string, string -> ToolResult> {
    map[MULTIPLIER := multiplier]
  }

  // ---------------------------------------------------------------------
  // The prompt
  // ---------------------------------------------------------------------

  /** The history part of the prompt: each entry followed by a newline. */
  function HistoryLines(history: seq<string>): string {
    if history == [] then "" else HistoryLines(history[..|history| - 1]) + history[|history| - 1] + "\n"
  }

  /** The prompt of one round. */
  function ManualPrompt(question: string, history: seq<string>): string {
    HEADER + HistoryLines(history) + "Question: " + question + "\n"
  }

  /** The prompt as the source builds it, by repeated `+=`. */
  method BuildPrompt(question: string, history: seq<string>) returns (prompt: string)
    ensures prompt == ManualPrompt(question, history)
  {
    prompt := HEADER;
    for i := 0 to |history|
      invariant prompt == HEADER + HistoryLines(history[..i])
    {
      assert history[..i + 1][..i] == history[..i];
      prompt := prompt + history[i] + "\n";
    }
    assert history[..|history|] == history;
    prompt := prompt + "Question: " + question + "\n";
  }

  lemma {:induction false} HistoryLinesSnoc(h: seq<string>, x: string)
    requires h != []
    ensures JoinLines(h + [x]) == JoinLines(h) + "\n" + x
    decreases |h|
  {
    if |h| == 1 {
      assert h + [x] == [h[0], x];
    } else {
      HistoryLinesSnoc(h[1..], x);
      assert (h + [x])[1..] == h[1..] + [x];
    }
  }

  /** The history part is the entries joined by newlines, with a newline
      after the last one. */
  lemma {:induction false} HistoryLinesJoin(history: seq<string>)
    ensures HistoryLines(history) == if history == [] then "" else JoinLines(history) + "\n"
    decreases |history|
  {
    var n := |history|;
    if n > 1 {
      var init := history[..n - 1];
      HistoryLinesJoin(init);
      HistoryLinesSnoc(init, history[n - 1]);
      assert init + [history[n - 1]] == history;
    }
  }

  /** The prompt starts with the format header and ends with the question
      line, whatever the history. */
  lemma {:induction false} ManualPromptEnds(question: string, history: seq<string>)
    ensures var p := ManualPrompt(question, history);
      StartsWith(p, HEADER) && EndsWith(p, "Question: " + question + "\n")
  {
    Framing(HEADER, HistoryLines(history), "Question: ", question, "\n");
  }

  // ---------------------------------------------------------------------
  // One model reply
  // ---------------------------------------------------------------------

  /** What one reply adds to the history, and whether the loop stops. */
  datatype Round = Round(entries: seq<string>, stop: Option<Outcome>)

  function ManualRespond(tools: map<string, string -> ToolResult>, reply: string): Round {
    var text := Strip(reply);
    match Read(text, ACTION_KEY, ACTION_INPUT_KEY)
    case Answer(a) => Round([text], Some(Answered(a)))
    case NoDirective => Round([text], Some(Failed(ValueError(PARSE_ERROR))))
    case Directive(name, input) =>
      if name !in tools then Round([text], Some(Failed(ValueError("Unknown tool: " + name))))
      else
        match tools[name](input)
        case Returned(v) => Round([text, "Observation: " + v], None)
        case Raised(args) => Round([text], Some(Failed(ToolRaised(args))))
  }

  /** A reply holding `Final Answer:` ends the loop with the text after its
      last occurrence, before any action is parsed. */
  lemma {:induction false} ManualAnswer(tools: map<string, string -> ToolResult>, reply: string)
    requires Contains(Strip(reply), FINAL)
    ensures ManualRespond(tools, reply)
      == Round([Strip(reply)], Some(Answered(Strip(AfterLast(Strip(reply), FINAL)))))
  {
  }

  /** A reply missing `Action:` or `Action Input:` is a `ValueError`. */
  lemma {:induction false} ManualUnparsed(tools: map<string, string -> ToolResult>, reply: string)
    requires !Contains(Strip(reply), FINAL)
    requires Search(Strip(reply), ACTION_KEY).None? || Search(Strip(reply), ACTION_INPUT_KEY).None?
    ensures ManualRespond(tools, reply) == Round([Strip(reply)], Some(Failed(ValueError(PARSE_ERROR))))
  {
    ReadDirective(Strip(reply), ACTION_KEY, ACTION_INPUT_KEY);
  }

  /** An action naming no tool is a `ValueError` naming it, and no tool runs. */
  lemma {:induction false} ManualUnknownTool(tools: map<string, string -> ToolResult>, reply: string)
    requires !Contains(Strip(reply), FINAL)
    requires Search(Strip(reply), ACTION_KEY).Some? && Search(Strip(reply), ACTION_INPUT_KEY).Some?
    requires Strip(Search(Strip(reply), ACTION_KEY).value) !in tools
    ensures ManualRespond(tools, reply) == Round([Strip(reply)],
      Some(Failed(ValueError("Unknown tool: " + Strip(Search(Strip(reply), ACTION_KEY).value)))))
  {
    ReadDirective(Strip(reply), ACTION_KEY, ACTION_INPUT_KEY);
  }

  /** A known tool runs on the stripped `Action Input:` group; its result
      is recorded as an observation after the reply, and its exception
      escapes. */
  lemma {:induction false} ManualToolCall(tools: map<string, string -> ToolResult>, reply: string)
    requires !Contains(Strip(reply), FINAL)
    requires Search(Strip(reply), ACTION_KEY).Some? && Search(Strip(reply), ACTION_INPUT_KEY).Some?
    requires Strip(Search(Strip(reply), ACTION_KEY).value) in tools
    ensures var text := Strip(reply);
      var result := tools[Strip(Search(text, ACTION_KEY).value)](Strip(Search(text, ACTION_INPUT_KEY).value));
      ManualRespond(tools, reply) == match result
        case Returned(v) => Round([text, "Observation: " + v], None)
        case Raised(args) => Round([text], Some(Failed(ToolRaised(args))))
  {
    ReadDirective(Strip(reply), ACTION_KEY, ACTION_INPUT_KEY);
  }

  /** Every reply is stripped and recorded first; only a successful tool
      round adds a second entry, and only it lets the loop go on. */
  lemma {:induction false} ManualRoundShape(tools: map<string, string -> ToolResult>, reply: string)
    ensures var rd := ManualRespond(tools, reply);
      rd.entries != [] && rd.entries[0] == Strip(reply)
      && |rd.entries| == (if rd.stop.Some? then 1 else 2)
      && rd.stop != Some(Exhausted)
  {
  }

  // ---------------------------------------------------------------------
  // The loop
  // ---------------------------------------------------------------------

  type RoundFn = string -> Round

  /** The handling of one reply with the given tools. */
  function ManualResponder(tools: map<string, string -> ToolResult>): RoundFn {
    (reply: string) => ManualRespond(tools, reply)
  }

  /** The state a run leaves: the history, the prompts sent, the replies
      not yet given, and how it ended. */
  datatype ManualRun = ManualRun(history: seq<string>, sent: seq<string>, replies: seq<string>, outcome: Outcome)

  /** The `while True` loop of `manual_react_agent` from the given history. */
  function ManualLoop(respond: RoundFn, question: string, history: seq<string>, replies: seq<string>): ManualRun
    decreases |replies|
  {
    if replies == [] then ManualRun(history, [], [], Exhausted)
    else
      var p := ManualPrompt(question, history);
      var rd := respond(replies[0]);
      var h := history + rd.entries;
      if rd.stop.Some? then ManualRun(h, [p], replies[1..], rd.stop.value)
      else
        var rest := ManualLoop(respond, question, h, replies[1..]);
        ManualRun(rest.history, [p] + rest.sent, rest.replies, rest.outcome)
  }

  /** `manual_react_agent(question)`, which starts from an empty history. */
  function ManualReactRun(tools: map<string, string -> ToolResult>, question: string, replies: seq<string>): ManualRun {
    ManualLoop(ManualResponder(tools), question, [], replies)
  }

  function ManualPrepend(sent: seq<string>, r: ManualRun): ManualRun {
    ManualRun(r.history, sent + r.sent, r.replies, r.outcome)
  }

  lemma {:induction false} ManualLoopStop(respond: RoundFn, question: string, history: seq<string>, replies: seq<string>)
    requires replies != [] && respond(replies[0]).stop.Some?
    ensures var rd := respond(replies[0]);
      ManualLoop(respond, question, history, replies)
      == ManualRun(history + rd.entries, [ManualPrompt(question, history)], replies[1..], rd.stop.value)
  {
  }

  lemma {:induction false} ManualLoopContinue(respond: RoundFn, question: string, history: seq<string>, replies: seq<string>)
    requires replies != [] && respond(replies[0]).stop.None?
    ensures ManualLoop(respond, question, history, replies)
      == ManualPrepend([ManualPrompt(question, history)],
                       ManualLoop(respond, question, history + respond(replies[0]).entries, replies[1..]))
  {
  }

  /** A run that does not run out of replies ends on the last reply it
      consumed: that reply's round stopped it, and the round's entries are
      the last of the history. */
  lemma {:induction false} ManualLoopEnd(respond: RoundFn, question: string, history: seq<string>, replies: seq<string>)
    ensures var r := ManualLoop(respond, question, history, replies);
      |r.sent| <= |replies|
      && (!r.outcome.Exhausted? ==>
        1 <= |r.sent| && var rd := respond(replies[|r.sent| - 1]);
        rd.stop == Some(r.outcome) && |rd.entries| <= |r.history|
        && r.history[|r.history| - |rd.entries|..] == rd.entries)
    decreases |replies|
  {
    if replies != [] {
      var rd := respond(replies[0]);
      var h := history + rd.entries;
      if rd.stop.Some? {
        assert h[|h| - |rd.entries|..] == rd.entries;
      } else {
        ManualLoopEnd(respond, question, h, replies[1..]);
        var rest := ManualLoop(respond, question, h, replies[1..]);
        if !rest.outcome.Exhausted? {
          assert replies[|rest.sent|] == replies[1..][|rest.sent| - 1];
        }
      }
    }
  }

  /** `manual_react_agent(question)`, with the model's replies as an
      oracle; also returns the history, the prompts sent, and the replies
      left. */
  method ManualReactAgent(tools: map<string, string -> ToolResult>, question: string, replies: seq<string>)
    returns (o: Outcome, history: seq<string>, sent: seq<string>, rest: seq<string>)
    ensures ManualRun(history, sent, rest, o) == ManualReactRun(tools, question, replies)
  {
    history := [];
    sent := [];
    rest := replies;
    ghost var respond := ManualResponder(tools);
    while true
      invariant ManualReactRun(tools, question, replies)
        == ManualPrepend(sent, ManualLoop(respond, question, history, rest))
      decreases |rest|
    {
      var prompt := BuildPrompt(question, history);
      if rest == [] {
        assert sent + [] == sent;
        return Exhausted, history, sent, rest;
      }
      ghost var h0, r0, before := history, rest, sent;
      var response := rest[0];
      rest := rest[1..];
      sent := sent + [prompt];
      var stop, added := ManualRound(tools, response);
      history := history + added;
      if stop.Some? {
        ManualLoopStop(respond, question, h0, r0);
        return stop.value, history, sent, rest;
      }
      ManualLoopContinue(respond, question, h0, r0);
      AppendAssoc(before, [prompt], ManualLoop(respond, question, history, rest).sent);
    }
  }

  /** The body of one round once the model has replied: strip and record
      the reply, then answer, raise, or run the tool and record its
      observation. */
  method ManualRound(tools: map<string, string -> ToolResult>, response: string)
    returns (stop: Option<Outcome>, added: seq<string>)
    ensures Round(added, stop) == ManualRespond(tools, response)
  {
    var text := Strip(response);
    added := [text];
    if Contains(text, FINAL) {
      ManualAnswer(tools, response);
      return Some(Answered(Strip(AfterLast(text, FINAL)))), added;
    }
    var actionMatch := Search(text, ACTION_KEY);
    var inputMatch := Search(text, ACTION_INPUT_KEY);
    if actionMatch.None? || inputMatch.None? {
      ManualUnparsed(tools, response);
      return Some(Failed(ValueError(PARSE_ERROR))), added;
    }
    var actionName := Strip(actionMatch.value);
    var actionInput := Strip(inputMatch.value);
    if actionName !in tools {
      ManualUnknownTool(tools, response);
      return Some(Failed(ValueError("Unknown tool: " + actionName))), added;
    }
    var observation := tools[actionName](actionInput);
    ManualToolCall(tools, response);
    if observation.Raised? {
      return Some(Failed(ToolRaised(observation.args))), added;
    }
    added := added + ["Observation: " + observation.value];
    return None, added;
  }

  // ---------------------------------------------------------------------
  // Properties of runs
  // ---------------------------------------------------------------------

  /** A round stops the loop in one of four ways, after recording only the
      stripped reply: with the answer after the last `Final Answer:`; with
      the parse error when a directive is missing; with the unknown-tool
      error naming the action; or with the arguments the tool raised. */
  lemma {:induction false} ManualStops(tools: map<string, string -> ToolResult>, reply: string)
    ensures var text := Strip(reply);
      var rd := ManualRespond(tools, reply);
      rd.stop.Some? ==> rd.entries == [text] && match rd.stop.value
        case Answered(a) => Contains(text, FINAL) && a == Strip(AfterLast(text, FINAL))
        case Exhausted => false
        case Failed(e) =>
          !Contains(text, FINAL)
          && ((e == ValueError(PARSE_ERROR)
               && (Search(text, ACTION_KEY).None? || Search(text, ACTION_INPUT_KEY).None?))
              || (Search(text, ACTION_KEY).Some? && Search(text, ACTION_INPUT_KEY).Some?
                  && var name := Strip(Search(text, ACTION_KEY).value);
                  var input := Strip(Search(text, ACTION_INPUT_KEY).value);
                  ((name !in tools && e == ValueError("Unknown tool: " + name))
                   || (name in tools && tools[name](input).Raised? && e == ToolRaised(tools[name](input).args)))))
  {
    var text := Strip(reply);
    ReadDirective(text, ACTION_KEY, ACTION_INPUT_KEY);
    if Contains(text, FINAL) {
      ReadAnswer(text, ACTION_KEY, ACTION_INPUT_KEY);
    }
  }

  /** When every stopping round records just the stripped reply, a run
      that stopped did so on the last reply it consumed, and that reply is
      the last history entry. */
  lemma {:induction false} ManualLoopLastEntry(respond: RoundFn, question: string, history: seq<string>, replies: seq<string>)
    requires forall x :: respond(x).stop.Some? ==> respond(x).entries == [Strip(x)]
    ensures var r := ManualLoop(respond, question, history, replies);
      !r.outcome.Exhausted? ==>
        1 <= |r.sent| <= |replies| && r.history != []
        && respond(replies[|r.sent| - 1]).stop == Some(r.outcome)
        && r.history[|r.history| - 1] == Strip(replies[|r.sent| - 1])
  {
    var r := ManualLoop(respond, question, history, replies);
    ManualLoopEnd(respond, question, history, replies);
    if !r.outcome.Exhausted? {
      var reply := replies[|r.sent| - 1];
      LastOfSuffix(r.history, respond(reply).entries);
    }
  }

  /** Every round of the loop that stops records the stripped reply alone. */
  lemma ManualResponderStops(tools: map<string, string -> ToolResult>)
    ensures forall x :: ManualResponder(tools)(x).stop.Some? ==> ManualResponder(tools)(x).entries == [Strip(x)]
  {
    forall x | ManualResponder(tools)(x).stop.Some? ensures ManualResponder(tools)(x).entries == [Strip(x)] {
      ManualRoundShape(tools, x);
    }
  }

  /** The round of the last reply a stopped run consumed, and that reply as
      the last history entry. */
  lemma {:induction false} ManualLastRound(tools: map<string, string -> ToolResult>, question: string, replies: seq<string>)
    ensures var r := ManualReactRun(tools, question, replies);
      !r.outcome.Exhausted? ==>
        1 <= |r.sent| <= |replies| && r.history != []
        && var reply := replies[|r.sent| - 1];
        ManualResponder(tools)(reply).stop == Some(r.outcome)
        && r.history[|r.history| - 1] == Strip(reply)
  {
    ManualResponderStops(tools);
    ManualLoopLastEntry(ManualResponder(tools), question, [], replies);
  }

  /** An answered run answers with the stripped text after the last
      `Final Answer:` of the last reply it read, which is the last history
      entry. */
  lemma {:induction false} ManualRunAnswered(tools: map<string, string -> ToolResult>, question: string, replies: seq<string>)
    ensures var r := ManualReactRun(tools, question, replies);
      r.outcome.Answered? ==>
        1 <= |r.sent| <= |replies| && r.history != []
        && var text := Strip(replies[|r.sent| - 1]);
        Contains(text, FINAL) && r.outcome.answer == Strip(AfterLast(text, FINAL))
        && r.history[|r.history| - 1] == text
  {
    var r := ManualReactRun(tools, question, replies);
    ManualLastRound(tools, question, replies);
    if r.outcome.Answered? {
      ManualStops(tools, replies[|r.sent| - 1]);
    }
  }

  /** A run that raises `ValueError` does so on the last reply it read,
      which is the last history entry: that reply lacks `Action:` or
      `Action Input:` and the message is the parse error, or it names a
      tool missing from `tools` and the message names it. */
  lemma {:induction false} ManualRunValueError(tools: map<string, string -> ToolResult>, question: string, replies: seq<string>)
    ensures var r := ManualReactRun(tools, question, replies);
      r.outcome.Failed? && r.outcome.error.ValueError? ==>
        1 <= |r.sent| <= |replies| && r.history != []
        && var text := Strip(replies[|r.sent| - 1]);
        var m := r.outcome.error.message;
        r.history[|r.history| - 1] == text && !Contains(text, FINAL)
        && ((m == PARSE_ERROR && (Search(text, ACTION_KEY).None? || Search(text, ACTION_INPUT_KEY).None?))
            || (Search(text, ACTION_KEY).Some? && Search(text, ACTION_INPUT_KEY).Some?
                && Strip(Search(text, ACTION_KEY).value) !in tools
                && m == "Unknown tool: " + Strip(Search(text, ACTION_KEY).value)))
  {
    var r := ManualReactRun(tools, question, replies);
    ManualLastRound(tools, question, replies);
    if r.outcome.Failed? && r.outcome.error.ValueError? {
      ManualStops(tools, replies[|r.sent| - 1]);
    }
  }

  /** A run that ends with the exception of a tool ends on the last reply
      it read, which is the last history entry: that reply named a known
      tool, and calling it on the stripped input raised those arguments. */
  lemma {:induction false} ManualRunToolRaised(tools: map<string, string -> ToolResult>, question: string, replies: seq<string>)
    ensures var r := ManualReactRun(tools, question, replies);
      r.outcome.Failed? && r.outcome.error.ToolRaised? ==>
        1 <= |r.sent| <= |replies| && r.history != []
        && var text := Strip(replies[|r.sent| - 1]);
        r.history[|r.history| - 1] == text && !Contains(text, FINAL)
        && Search(text, ACTION_KEY).Some? && Search(text, ACTION_INPUT_KEY).Some?
        && var name := Strip(Search(text, ACTION_KEY).value);
        name in tools
        && tools[name](Strip(Search(text, ACTION_INPUT_KEY).value)) == Raised(r.outcome.error.args)
  {
    var r := ManualReactRun(tools, question, replies);
    ManualLastRound(tools, question, replies);
    if r.outcome.Failed? && r.outcome.error.ToolRaised? {
      ManualStops(tools, replies[|r.sent| - 1]);
    }
  }

  /** With the module's tools dict, `Multiplier` is the only action that
      runs a tool: it gets the stripped input, and any other name raises
      `ValueError("Unknown tool: <name>")`. */
  lemma {:induction false} DefaultToolsDispatch(multiplier: string -> ToolResult, reply: string)
    requires !Contains(Strip(reply), FINAL)
    requires Search(Strip(reply), ACTION_KEY).Some? && Search(Strip(reply), ACTION_INPUT_KEY).Some?
    ensures var text := Strip(reply);
      var name := Strip(Search(text, ACTION_KEY).value);
      var input := Strip(Search(text, ACTION_INPUT_KEY).value);
      var rd := ManualRespond(DefaultTools(multiplier), reply);
      (name == MULTIPLIER ==> rd == match multiplier(input)
        case Returned(v) => Round([text, "Observation: " + v], None)
        case Raised(args) => Round([text], Some(Failed(ToolRaised(args)))))
      && (name != MULTIPLIER ==> rd == Round([text], Some(Failed(ValueError("Unknown tool: " + name)))))
  {
    var name := Strip(Search(Strip(reply), ACTION_KEY).value);
    if name == MULTIPLIER {
      ManualToolCall(DefaultTools(multiplier), reply);
    } else {
      ManualUnknownTool(DefaultTools(multiplier), reply);
    }
  }

  /** The history grows by two entries per completed tool round, and by
      one for the reply that ends the run. */
  lemma {:induction false} ManualLoopGrowth(respond: RoundFn, question: string, history: seq<string>, replies: seq<string>)
    requires forall x :: |respond(x).entries| == (if respond(x).stop.Some? then 1 else 2)
    requires forall x :: respond(x).stop != Some(Exhausted)
    ensures var r := ManualLoop(respond, question, history, replies);
      |r.history| == |history| + 2 * |r.sent| - (if r.outcome.Exhausted? then 0 else 1)
      && r.history[..|history|] == history
      && |r.sent| + |r.replies| == |replies|
    decreases |replies|
  {
    if replies != [] {
      var rd := respond(replies[0]);
      if rd.stop.None? {
        var h := history + rd.entries;
        ManualLoopGrowth(respond, question, h, replies[1..]);
        var rest := ManualLoop(respond, question, h, replies[1..]);
        assert rest.history[..|history|] == rest.history[..|h|][..|history|];
      }
    }
  }

  /** In `manual_react_agent`, starting from an empty history, a run that
      ends on a reply holds two entries per tool round plus that reply. */
  lemma {:induction false} ManualTwoPerRound(tools: map<string, string -> ToolResult>, question: string, replies: seq<string>)
    ensures var r := ManualReactRun(tools, question, replies);
      |r.history| == 2 * |r.sent| - (if r.outcome.Exhausted? then 0 else 1)
      && |r.sent| + |r.replies| == |replies|
  {
    var respond := ManualResponder(tools);
    forall x ensures |respond(x).entries| == (if respond(x).stop.Some? then 1 else 2)
      && respond(x).stop != Some(Exhausted)
    {
      ManualRoundShape(tools, x);
    }
    ManualLoopGrowth(respond, question, [], replies);
  }

  // ---------------------------------------------------------------------
  // The two policies side by side
  // ---------------------------------------------------------------------

  /** A reply with neither kind of directive: the agent of
      `src/llama_agent.py` records it and asks again, the scratchpad loop
      raises `ValueError`. */
  lemma {:induction false} MissingDirectivePolicies(tools: map<string, Tool>, decode: string -> Option<Literal>,
                                                    manualTools: map<string, string -> ToolResult>, reply: string)
    requires !Contains(Strip(reply), FINAL)
    requires Search(Strip(reply), TOOL_KEY).None? && Search(Strip(reply), ACTION_KEY).None?
    ensures Respond(tools, decode, reply).stop == None
    ensures ManualRespond(manualTools, reply).stop == Some(Failed(ValueError(PARSE_ERROR)))
  {
    RespondThinking(tools, decode, reply);
    ManualUnparsed(manualTools, reply);
  }

  /** An unknown tool name: the agent records `Tool Output: ERROR: <name>`
      and goes on, the scratchpad loop raises `ValueError`. */
  lemma {:induction false} UnknownToolPolicies(tools: map<string, Tool>, decode: string -> Option<Literal>,
                                               manualTools: map<string, string -> ToolResult>, reply: string)
    requires !Contains(Strip(reply), FINAL)
    requires Search(Strip(reply), TOOL_KEY).Some? && Search(Strip(reply), INPUT_KEY).Some?
    requires decode(Strip(Search(Strip(reply), INPUT_KEY).value)).Some?
    requires Strip(Search(Strip(reply), TOOL_KEY).value) !in tools
    requires Search(Strip(reply), ACTION_KEY).Some? && Search(Strip(reply), ACTION_INPUT_KEY).Some?
    requires Strip(Search(Strip(reply), ACTION_KEY).value) !in manualTools
    ensures var name := Strip(Search(Strip(reply), TOOL_KEY).value);
      Respond(tools, decode, reply)
        == Step([Turn("assistant", Strip(reply)), Turn("assistant", "Tool Output: ERROR: " + name)], None)
    ensures ManualRespond(manualTools, reply).stop
      == Some(Failed(ValueError("Unknown tool: " + Strip(Search(Strip(reply), ACTION_KEY).value))))
  {
    RespondTool(tools, decode, reply);
    ManualUnknownTool(manualTools, reply);
    var name := Strip(Search(Strip(reply), TOOL_KEY).value);
    assert "Tool Output: " + ("ERROR: " + name) == "Tool Output: ERROR: " + name;
  }
}

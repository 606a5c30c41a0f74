# A verified model of a hand-written ReAct agent

This project is a Dafny model of the agent core of a small repository. A
LLaMA 3 chat model is driven in a ReAct loop ("thought, tool call,
observation, …, final answer") against a set of calendar tools. The model
has three parts.

- **The ChatML codec** (`src/chatml.py`), module `ChatML`.
  - A role is validated and rendered as its `<|role|>` marker.
  - A message becomes a block: the marker, the stripped content and `<|end_of_text|>`, one per line.
  - A prompt is assembled from the begin marker, an optional system block, one block per history entry, and an optional sanitized user block followed by a bare `<|assistant|>` marker.
  - The sanitizer rewrites every `<|name|>` with a lower-case name into `[name]`. The model proves that no reserved ChatML token survives sanitizing.
- **The `ReActAgent` class** (`src/llama_agent.py`), module `Agent`.
  - The agent holds a tool registry and an append-only `(role, text)` history.
  - Its `invoke_agent` loop renders a prompt, records the stripped model reply, and then does one of four things:
    - answers when the reply holds `Final Answer:`;
    - keeps asking when a `Tool:`/`Tool Input:` pair is missing;
    - fails when the tool input cannot be read as a literal;
    - otherwise runs the tool and records `Tool Output: …`. An unknown tool or a raising tool becomes an `ERROR: …` observation.
- **The scratchpad loop `manual_react_agent`** (`src/manual-react.py`), module `ManualReact`.
  - Its prompt is a plain-text format header, the history lines, and `Question: …`.
  - It has the same `Final Answer:` precedence.
  - Its error policy is stricter: a missing `Action:`/`Action Input:` pair or an unknown tool raises `ValueError`.
  - The example tool is `multiply`.

Two modules hold what the three parts share:
- `Reply` holds the regular-expression search `key\s*(.+)` and the "answer, directive or nothing" reading of a reply.
- `Text` holds the Python string operations the source uses: `strip` with Python's whitespace set, `in`, `split(sep)[-1]` and `'\n'.join`. It also defines `SplitLines`, the model's own inverse of the newline join, so that the tool list can be read back line by line; the source never splits on newlines.
`Wrappers` holds `Option`, `Result` and the error values.

Stateful code keeps its shape:
- `ReActAgent` is a class. Its fields are `tools`, `order`, `history`, the oracle's pending `replies`, and the prompts `sent` so far.
- `InvokeAgent` is a `while true` loop, proved against the function `Invoke`. `Invoke` runs the same loop over values.
- `chatml_prompt` is the method `ChatPrompt`, a loop that appends blocks. It is proved equal to the function `PromptText`.
- `manual_react_agent` is the method `ManualReactAgent`, with a nested prompt-building loop `BuildPrompt`. It is proved equal to `ManualReactRun`.

The language model is an oracle: a finite sequence of replies, consumed in order. `Exhausted` is the outcome when the replies run out. The source has no such outcome; it would call the model again.

Three behaviours of the code are worth stating plainly, because the model keeps them as they are:
- `self.history` is never reset. A second `invoke_agent` call starts from the first call's history, final answer included (`InvokeHistory`).
- The loop has no iteration cap. Replies that never answer and never fail keep it asking the model, and no "no progress" error exists (`LoopKeepsAsking`).
- Only the next user prompt is sanitized. History entries, including the user's own prompt and tool outputs, are embedded stripped but unsanitized, so the first prompt carries the user text twice: raw in its history block and sanitized in the user block (`PromptContainsHistory`, `InvokeFirstPrompt`).

## Model

| member | source | states |
|---|---|---|
| ChatML.Role | src/chatml.py:10-16 | A role is accepted exactly when it is `system`, `assistant` or `user`. Anything else is a `ValueError` whose message keeps the source's stray `$`. |
| ChatML.RoleMarker | src/chatml.py:13-16 | The marker of a valid role is a reserved ChatML token of the sanitizer's pattern, and its name is the role. |
| ChatML.Block | src/chatml.py:18-23 | A block exists exactly for a valid role. For any other role it fails with the role's error. |
| ChatML.BlockRoundTrip | src/chatml.py:18-23 | Splitting a rendered block back into marker, body and end marker gives the role and the stripped content. |
| ChatML.ParseBlockSound | src/chatml.py:18-23 | Any string of block shape whose body is already stripped is exactly the block of its role and body. |
| ChatML.HistoryBlocksOk | src/chatml.py:46-47 | The history renders exactly when every entry has a valid role. |
| ChatML.HistoryBlocksValid | src/chatml.py:46-47 | A valid history gives one block per entry, in history order. |
| ChatML.HistoryBlocksFirstError | src/chatml.py:46-47 | Otherwise the prompt fails with the error of the first entry whose role is invalid. |
| ChatML.ChatPrompt | src/chatml.py:25-53 | The block-appending loop, joined and stripped, yields `PromptText`, the prompt the lemmas below describe. |
| ChatML.PromptLayout | src/chatml.py:41-51 | The prompt is laid out as follows: (1) the begin marker; (2) a system block exactly when the system text is non-empty; (3) the history blocks in order; (4) the sanitized user block and the bare assistant marker exactly when the next user prompt is non-empty. |
| ChatML.PromptJoin | src/chatml.py:53 | For a valid history the final `strip` removes nothing: the prompt is the blocks joined by newlines. |
| ChatML.PromptTrimmed | src/chatml.py:53 | The prompt starts with `<\|begin_of_text\|>` and ends with the `>` of a marker, so it has no leading or trailing whitespace. |
| ChatML.PromptContainsHistory | src/chatml.py:46-47 | Every history entry appears in the prompt as its block with stripped but unsanitized text. |
| ChatML.UserBlockClean | src/chatml.py:49-50 | The user block carries the stripped, sanitized prompt. That text contains no token. |
| ChatML.MatchAtIsToken | src/chatml.py:90 | A match of the sanitizer's pattern at a position is a token: `<\|`, a non-empty lower-case or `_` name, `\|>`. |
| ChatML.MatchAtFinds | src/chatml.py:90 | Conversely, any token starting at a position is the match found there, with its full length. |
| ChatML.TokenFreeIff | src/chatml.py:90-91 | A text contains no token exactly when the pattern matches nowhere in it. |
| ChatML.SanitizeToken | src/chatml.py:85-87 | A token `<\|name\|>` is replaced by `[name]`, and sanitizing continues after it. |
| ChatML.SanitizeUnchanged | src/chatml.py:89-91 | Text in which the pattern matches nowhere is copied unchanged. |
| ChatML.SanitizeTokenFree | src/chatml.py:75-91 | The sanitizer's output contains no token at all. |
| ChatML.SanitizeFixedPoints | src/chatml.py:75-91 | Sanitizing leaves a text unchanged exactly when it holds no token. |
| ChatML.SanitizeIdempotent | src/chatml.py:75-91 | Sanitizing twice equals sanitizing once. |
| ChatML.ReservedAreTokens | src/chatml.py:58-73 | Every entry of `CHATML_TOKENS` is a token of the pattern. |
| ChatML.SanitizeNoReserved | src/chatml.py:58-91 | No reserved ChatML token occurs in sanitized text. |
| ChatML.SanitizeKeepsUpperCase | src/chatml.py:90 | `<\|USER\|>` is not a match and passes through untouched. |
| Text.StripIdempotent | src/llama_agent.py:49 | Stripping twice equals stripping once. |
| Text.StripEdges | src/chatml.py:53 | A stripped string is empty or starts and ends with a non-whitespace character. |
| Text.AfterLast | src/llama_agent.py:53 | `split(sep)[-1]` is a suffix of the text that does not contain the separator. When the separator occurs, the suffix follows its last occurrence; otherwise it is the whole text. "Last occurrence" is exact for a separator that cannot overlap itself, such as `Final Answer:`. |
| Text.SplitJoinLines | src/llama_agent.py:33 | Joining newline-free lines with `'\n'` and splitting the result gives the lines back. |
| Text.JoinSplitLines | src/llama_agent.py:33 | Splitting a text at newlines and joining the parts gives the text back. |
| Reply.GroupStartGreedy | src/llama_agent.py:55-56 | `\s*` takes the longest whitespace run after which `(.+)` can start. It gives back characters only when nothing else fits, and finds no start only when none exists. |
| Reply.GroupShape | src/llama_agent.py:55-56 | A captured group is non-empty and holds no newline. |
| Reply.GroupAtNone | src/llama_agent.py:55-56 | After a key there is no group exactly when only newlines follow it. |
| Reply.SearchLeftmost | src/llama_agent.py:55-56 | `re.search` returns the group of the leftmost match, and finds nothing only when the pattern matches nowhere. |
| Reply.Read | src/llama_agent.py:52-53 | A reply reads as an answer exactly when it contains `Final Answer:`, before any directive is looked at. |
| Reply.ReadAnswer | src/llama_agent.py:52-53 | The answer is the stripped text after the last `Final Answer:` and does not itself contain `Final Answer:`. |
| Reply.ReadDirective | src/llama_agent.py:55-63 | Without `Final Answer:`, a reply is a directive exactly when both keys match. Its tool name and input are the stripped groups. Otherwise it is no directive. |
| Agent.RegisterValid | src/llama_agent.py:29-30 | Registering stores the tool under its name. It leaves other tools alone, keeps the key order, and appends a new name at the end. |
| Agent.RegisterLastWins | src/llama_agent.py:29-30 | Registering two tools of the same name keeps the second, in the first one's place. |
| Agent.Listing | src/llama_agent.py:33 | There is one `- <signature>` line per registered tool, in registration order. |
| Agent.ToolListLines | src/llama_agent.py:32-33 | The tool list splits back into exactly those lines when the signatures hold no newline. |
| Agent.Observe | src/llama_agent.py:71-76 | A successful call observes exactly the tool's result. Every failure observes `ERROR: …`: a raising tool gives `ERROR: ` and its arguments joined by spaces; a non-dict input gives the `TypeError` message `<module.qualname>() argument after ** must be a mapping, not <type>`; an unknown name gives `ERROR: <name>`, the `KeyError`'s argument. |
| Agent.RespondAnswer | src/llama_agent.py:49-53 | A reply with `Final Answer:` adds only the stripped reply and answers with the stripped text after the last occurrence, even when it also names a tool. |
| Agent.RespondThinking | src/llama_agent.py:55-60 | A reply missing either directive adds only the stripped reply, calls no tool and does not stop. |
| Agent.RespondUndecodable | src/llama_agent.py:65-69 | An undecodable tool input stops the loop with a literal error, after the reply was recorded. |
| Agent.RespondTool | src/llama_agent.py:71-77 | A decodable directive adds the reply and then `Tool Output: <observation>`, and the loop goes on. |
| Agent.RespondShape | src/llama_agent.py:49-50 | Every reply adds one or two assistant turns: first the stripped reply, then a tool output only when the loop goes on. |
| Agent.RespondStops | src/llama_agent.py:52-69 | A reply stops the loop only with the answer it holds or with a literal error for its undecodable tool input. |
| Agent.LoopHistory | src/llama_agent.py:46-77 | The loop consumes replies in order. The history is the start history followed by each consumed reply's turns. |
| Agent.LoopPrompts | src/llama_agent.py:47-48 | The k-th prompt sent renders the start history followed by the turns of the first k replies, tool outputs included. The first is rendered with the user prompt and every later one with `""`. |
| Agent.LoopEnd | src/llama_agent.py:46-77 | The loop ends for one of three reasons: the replies run out; the prompt cannot be rendered; or the last consumed reply's step stopped it, with that step's turns at the end of the history. |
| Agent.InvokeHistory | src/llama_agent.py:39-50 | A call appends `('user', prompt)` and then only assistant turns, the first of them the stripped first reply. History is never truncated or rewritten. |
| Agent.InvokePrompts | src/llama_agent.py:42-48 | The k-th prompt renders the system prompt from the tool list, the history with `('user', prompt)` and the turns of the first k replies. The user prompt is passed only on the first model call. |
| Agent.InvokeFirstPrompt | src/llama_agent.py:40-47 | The first prompt is exactly: the begin marker, the system block, the earlier history blocks, the user block with the raw text, the user block with the sanitized text, and `<\|assistant\|>`. |
| Agent.PromptOutcome | src/chatml.py:25-53 | A prompt renders exactly when the history is valid; otherwise the error is a `ValueError`. |
| Agent.LoopAnswered | src/llama_agent.py:46-53 | An answered call's last consumed reply contains `Final Answer:`. The answer is the text after its last occurrence, and that reply is the last history turn. |
| Agent.LoopFailed | src/llama_agent.py:46-69 | A call fails only with a role error from an invalid history or with a literal error. |
| Agent.LoopUndecodable | src/llama_agent.py:65-69 | A literal error comes from the last consumed reply. That reply had both directives and an undecodable input, and it is already the last history turn. |
| Agent.LoopOutOfReplies | src/llama_agent.py:46-47 | Running out of replies means every reply was consumed and the history stayed renderable. |
| Agent.LoopKeepsAsking | src/llama_agent.py:46-60 | If no reply answers or fails, the loop never stops and asks the model once per reply. No iteration cap is modelled. |
| Agent.ReActAgent.constructor | src/llama_agent.py:24-27 | A new agent has no tools and an empty history. |
| Agent.ReActAgent.AddTool | src/llama_agent.py:29-30 | The registry becomes `Register` of the old one, and nothing else changes. |
| Agent.ReActAgent.GetToolList | src/llama_agent.py:32-33 | The tool list is empty without tools. Otherwise it has one `- <signature>` line per tool, in registration order. |
| Agent.ReActAgent.AddHistory | src/llama_agent.py:35-37 | The turn is appended to the history, and nothing else changes. |
| Agent.ReActAgent.InvokeAgent | src/llama_agent.py:39-77 | The `while True` loop leaves the agent in exactly the state `Invoke` describes: history, remaining replies, prompts sent and outcome. |
| Agent.ReActAgent.Iterate | src/llama_agent.py:46-77 | One iteration either ends the loop with the outcome `Loop` gives, or consumes a reply and leaves the rest of the loop equal to `Loop` from the new state. |
| Agent.ReActAgent.HandleReply | src/llama_agent.py:49-77 | Handling a reply appends exactly `Respond`'s turns and returns its stop. |
| ManualReact.NatRoundTrip | src/manual-react.py:13 | Reading back the decimal text of a natural number gives the number. |
| ManualReact.IntRoundTrip | src/manual-react.py:13 | `str(n)` is the decimal text of `n`: reading it back gives `n`, it starts with `-` exactly when `n` is negative, and its digits have no leading zero. |
| ManualReact.MultiplyRoundTrip | src/manual-react.py:11-13 | `multiply(x, y)` is the decimal text of `x * y`: reading it back gives the product, it starts with `-` exactly when the product is negative, and its digits have no leading zero. |
| ManualReact.BuildPrompt | src/manual-react.py:28-42 | The `+=` loop builds exactly `ManualPrompt`. |
| ManualReact.HistoryLinesJoin | src/manual-react.py:39-40 | The history part is the entries joined by newlines, plus a final newline, or empty. |
| ManualReact.ManualPromptEnds | src/manual-react.py:28-42 | The prompt starts with the format header and ends with `Question: <question>\n`. |
| ManualReact.ManualAnswer | src/manual-react.py:48-53 | A reply with `Final Answer:` is recorded stripped and answers with the stripped text after the last occurrence. |
| ManualReact.ManualUnparsed | src/manual-react.py:55-59 | A reply missing either directive raises `ValueError("Could not parse Action and Action Input.")` after being recorded. |
| ManualReact.ManualUnknownTool | src/manual-react.py:65-66 | An unknown action raises `ValueError("Unknown tool: <name>")` and calls no tool. |
| ManualReact.ManualToolCall | src/manual-react.py:68-71 | A known tool is called with the stripped input. Its result is recorded as `Observation: <result>`; an exception it raises propagates. |
| ManualReact.ManualRoundShape | src/manual-react.py:48-71 | A round records the stripped reply first. It records two entries when it goes on and one when it stops. |
| ManualReact.ManualReactAgent | src/manual-react.py:23-71 | The `while True` loop returns exactly what `ManualReactRun` describes. |
| ManualReact.ManualRound | src/manual-react.py:48-71 | One round computes exactly `ManualRespond`'s entries and stop. |
| ManualReact.ManualStops | src/manual-react.py:52-69 | A round stops only in four ways: an answer for a reply with `Final Answer:`; the parse error for a missing directive; `Unknown tool: <name>` for a name not in `tools`; or the exception of the named tool. |
| ManualReact.ManualLoopEnd | src/manual-react.py:26-71 | A loop that did not run out of replies ended on its last consumed reply, whose round gave the outcome and whose entries end the history. |
| ManualReact.ManualLastRound | src/manual-react.py:26-71 | A run that did not run out of replies ended on the round of its last consumed reply, and that stripped reply is the last history entry. |
| ManualReact.ManualRunAnswered | src/manual-react.py:48-53 | An answered run's last reply contains `Final Answer:`, the answer is the stripped text after its last occurrence, and that reply is the last history entry. |
| ManualReact.ManualRunValueError | src/manual-react.py:55-66 | A run raising `ValueError` ends on its last reply, the last history entry: either a directive is missing and the message is the parse error, or the named tool is not in `tools` and the message is `Unknown tool: <name>`. |
| ManualReact.ManualRunToolRaised | src/manual-react.py:68-69 | A run ending with a tool's exception ends on its last reply, the last history entry, which named a known tool that raised exactly those arguments on the stripped input. |
| ManualReact.DefaultToolsDispatch | src/manual-react.py:15-17 | With the module's `tools` dict, only `Multiplier` runs a tool, on the stripped input; every other name raises `ValueError("Unknown tool: <name>")`. |
| ManualReact.ManualLoopGrowth | src/manual-react.py:49-71 | The history keeps its start and grows by two entries per completed round, one for a stopping round. |
| ManualReact.ManualTwoPerRound | src/manual-react.py:24-71 | From an empty history, the history has two entries per model call, minus one when the loop stopped. |
| ManualReact.MissingDirectivePolicies | src/manual-react.py:58-59 | For a reply with no directive, `invoke_agent` keeps asking while `manual_react_agent` raises `ValueError`. |
| ManualReact.UnknownToolPolicies | src/manual-react.py:65-66 | For any two registries lacking the named tool, `invoke_agent` records `Tool Output: ERROR: <name>` and goes on, while `manual_react_agent` raises `ValueError("Unknown tool: <name>")`. |

## Left out

- Agent.ReActAgent.InvokeAgent: the loop can end with `Exhausted` when the oracle's replies run out. This is a modelling artefact; the source has no iteration cap and would call the model again.
- The language model (`self.model.invoke`, `ChatOllama.invoke`) is a finite sequence of replies, because a model call is I/O. The prompts sent are recorded so that contracts can speak about them.
- `get_system_prompt` reads `system_prompt.txt` and formats it. It is the parameter `render`, because file contents are I/O.
- `get_tool_signature` uses `inspect`. Each tool carries its signature text instead, and the module-qualified name the interpreter uses in call errors, because Python reflection is not modelled.
- `ast.literal_eval` is the parameter `decode`. It returns a keyword-argument map or the type name of a non-dict value, because Python's literal grammar is not modelled. Argument values are strings.
- Agent.Observe: a tool whose `**kwargs` do not fit its parameters is modelled as the tool raising, whatever the interpreter's message. Only the non-dict `TypeError` message is spelled out; it names the callable by the tool's `callName`, its module and qualified name as the interpreter prints them.
- Agent.Observe: `' '.join(e.args)` failing on non-string exception arguments is not modelled; exception arguments are strings.
- `StructuredTool.invoke` is a function from the input text to a result or raised arguments, because LangChain's argument coercion is foreign code. `multiply` itself is modelled as `Multiply`.
- The `pprint`/`print` logging in `add_history` and `invoke_agent`, and the `__main__` run of `manual-react.py`, are output only.
- `ReActAgent.model` is not a field, because the reply oracle stands in for it.
- `history` is never reset between `invoke_agent` calls, as in the source. Nothing in the model resets it either.
- The other files of the repository are not part of this model: the CalDAV wrapper `dav.py`, the LangChain/LangGraph agents and their run scripts, `tools.py`, `conversation.py`, `tool-test.py` and `embed.py`.
- Python's `str.strip` and `\s` use Unicode whitespace. The model uses the fixed set of characters Python treats as whitespace, without any Unicode database.

# Daily-note memo refinement and day window

This project models the logic of a daily-note backend, in two parts.

The first part is the memo-refinement workflow of the daily-agent module. It is a small state machine with a plan step, a reflect step and a generate step, which turns a raw memo into a structured report (a title and a rewritten text). The model covers:

- the state record the graph threads through the steps;
- the graph executor's merge of each step's partial update, where `iteration_count` is summed and not overwritten;
- the three nodes and the routing rule after Reflect;
- the execution of the graph, both as a specification function (`AgentGraph.Exec`) and as a driver loop over a mutable state (`AgentGraph.RunGraph`), proved equal;
- the two text sanitisers: the `memo` field validator and the clean-up in `test_agent`;
- the `test_agent` runner;
- the outcome logic of the `create_report` route.

The second part is the arithmetic that turns a Unix timestamp into the first and last second of its calendar day in Korea Standard Time (UTC+9). The daily-notes query uses this window.

The language model is an oracle with two parts:

- `chat(n, messages)` answers the `n`-th free-form call of a run.
- `structured(messages)` answers the structured call.

Either may fail. A message is kept as the fixed prompt texts and state fields it is concatenated from, and `AgentGraph.Content` renders it. A model that sees only the rendered text is the special case `chat(n, m) == f(n, map Content over m)`, so every property proved here holds for it too.

The graph library's recursion limit is a step budget, `fuel`. A run ends in one of three ways:

- it completes;
- a model call fails and it aborts;
- the budget runs out.

Modules:

- `Text`: the Python string operations used, over `seq<char>`. These are the `in` substring test, `str.replace`, `str.strip` with Python's whitespace set written out, and deletion of a regex character class.
- `MemoRequest`: the two sanitisers.
- `AgentGraph`: the state, merge, prompts, nodes, routing, run semantics and driver loop.
- `AgentProperties`: the lemmas about runs.
- `EntryPoints`: `test_agent` and `create_report`.
- `DailyWindow`: the KST day window.

In three places the code does something other than what its own guards, error raises and comments show was meant. The model follows the code in each:

- The `>= 3` guards in `reflect_node` and `decide_next_step`, and the attempt counter `planning_node` prints out of 5, show a retry ceiling. No run ever reaches it (Findings, row 1).
- `create_report` raises 404 for a missing memo and 400 for an empty one. The client gets 500 for both (row 3).
- The validator's comment says line breaks become characters, and the code then replaces them with spaces. The deletion that runs first removes them (row 2).

## Model

Source paths are relative to the repository root.

| member | source | states |
|---|---|---|
| Text.IsSpace | app/api/daily_agent/daily.py:36 | Python's `str.isspace()` set written out (ASCII 0x09-0x0D and 0x1C-0x20, NEL, NO-BREAK SPACE, the Unicode space, line and paragraph separators): the characters `str.strip()` removes. |
| Text.Contains | app/api/daily_agent/daily.py:90 | The executable substring test is true exactly when the pattern occurs at some position of the text (Python's `in`). |
| Text.Replace | app/api/daily_agent/daily.py:36 | `str.replace`: leftmost, non-overlapping occurrences are replaced scanning left to right, and an empty pattern matches before every character and at the end. Its behaviour is stated by the lemmas below. |
| Text.ReplaceSkips | app/api/daily_agent/daily.py:36 | `str.replace` leaves a prefix untouched when the prefix does not contain the pattern's first character. |
| Text.ReplaceWithoutOccurrence | app/api/daily_agent/daily.py:36 | A text in which a non-empty pattern does not occur is returned unchanged by `str.replace`. |
| Text.ReplaceRemovesChar | app/api/daily_agent/daily.py:36 | Replacing a single character by a text without it leaves no occurrence of that character. |
| Text.ReplaceKeepsAbsent | app/api/daily_agent/daily.py:36 | `str.replace` introduces no character that neither the text nor the replacement contains. |
| Text.ReplaceAbsent | app/api/daily_agent/daily.py:36 | A text without the pattern's first character is unchanged by `str.replace`. |
| Text.TrimStart | app/api/daily_agent/daily.py:36 | The result is a suffix of the input. Everything cut off is whitespace, and the result does not start with whitespace. |
| Text.TrimEnd | app/api/daily_agent/daily.py:36 | The result is a prefix of the input. Everything cut off is whitespace, and the result does not end with whitespace. |
| Text.Strip | app/api/daily_agent/daily.py:36 | `str.strip()`: the result has no whitespace at either end and is the input with whitespace margins removed, nothing else changed. |
| Text.StripStripped | app/api/daily_agent/daily.py:111 | Stripping a text without surrounding whitespace changes nothing, so strip is idempotent. |
| Text.RemoveAll | app/api/daily_agent/daily.py:35 | Deleting a character class leaves no character of the class. A text with none is returned unchanged. |
| Text.RemoveAllCounts | app/api/daily_agent/daily.py:35 | After deletion a character of the class occurs 0 times, and every other character keeps its number of occurrences. |
| Text.RemoveAllAppend | app/api/daily_agent/daily.py:111 | Deleting a class from a concatenation is the concatenation of the deletions. |
| MemoRequest.IsValidatorControl | app/api/daily_agent/daily.py:35 | The validator's class `[\x00-\x1f\x7f-\x9f]`: the C0 controls (LF and CR among them), DEL and the C1 controls. |
| MemoRequest.IsTestControl | app/api/daily_agent/daily.py:111 | The `test_agent` class `[\x00-\x1F\x7F]`: the C0 controls and DEL. |
| MemoRequest.ReplaceLineBreaks | app/api/daily_agent/daily.py:36 | The three chained replacements (CRLF, then LF, then CR, each by a space) leave no CR and no LF in the result. |
| MemoRequest.ReplaceLineBreaksOnePass | app/api/daily_agent/daily.py:36 | On every string, the three chained replacements give exactly `BreaksToSpaces`, a left-to-right reading in which a CRLF pair, a lone CR and a lone LF each become one space and every other character is copied in place. |
| MemoRequest.BreaksToSpacesAppend | app/api/daily_agent/daily.py:36 | The one-pass result of a concatenation is the concatenation of the results, unless the cut falls between the CR and LF of a pair. |
| MemoRequest.LineBreakSplit | app/api/daily_agent/daily.py:36 | An LF, a CRLF or a CR not followed by LF becomes exactly one space between the replaced texts on either side, for any number of breaks on either side. |
| MemoRequest.LineBreaksAbsent | app/api/daily_agent/daily.py:35-36 | Once the control characters are deleted, the three line-break replacements change nothing. |
| MemoRequest.CleanMemo | app/api/daily_agent/daily.py:35-36 | The cleaned memo has no surrounding whitespace and no C0, DEL or C1 control character. It is the control-free text with its whitespace margins removed. |
| MemoRequest.HandleSwaggerNewlines | app/api/daily_agent/daily.py:30-37 | The validator returns a non-string value untouched. A string becomes a stripped, control-free string that is the control-free input minus its whitespace margins. |
| MemoRequest.HandleSwaggerNewlinesIdempotent | app/api/daily_agent/daily.py:30-37 | Applying the validator twice equals applying it once. |
| MemoRequest.NewlineJoinsWords | app/api/daily_agent/daily.py:35-36 | As written, an LF or CRLF between two words is deleted, not replaced by a space: `x\ny` cleans to `strip(xy)`. |
| MemoRequest.CleanMemoIntended | app/api/daily_agent/daily.py:35-36 | The corrected validator (line breaks replaced before the deletion) yields the line-break-replaced, control-free text with its whitespace margins removed and nothing else changed. The result is stripped and control-free. |
| MemoRequest.ReplaceLineBreaksLF | app/api/daily_agent/daily.py:36 | The replacement chain turns a lone LF between words into one space. |
| MemoRequest.ReplaceLineBreaksCRLF | app/api/daily_agent/daily.py:36 | The replacement chain turns a CRLF between words into one space, not two. |
| MemoRequest.IntendedNewlineSeparatesWords | app/api/daily_agent/daily.py:35-36 | With the corrected order, an LF or CRLF between words becomes a single space: `x\ny` cleans to `strip(x y)`. |
| MemoRequest.CleanTestInput | app/api/daily_agent/daily.py:111 | The `test_agent` clean-up yields text with no C0 control or DEL and no surrounding whitespace. It is the control-free input minus its whitespace margins. |
| MemoRequest.CleanTestInputIdempotent | app/api/daily_agent/daily.py:111 | Applying the test clean-up twice equals applying it once. |
| MemoRequest.C1ControlsKeptOnlyByTestCleanUp | app/api/daily_agent/daily.py:35 | The two sanitisers differ on C1 controls: between two visible characters, the test clean-up keeps one and the validator deletes it. |
| AgentGraph.InitialState | app/api/daily_agent/daily.py:171-176 | The state both entry points pass in holds the request, a count of 0 and no report. |
| AgentGraph.Merge | app/api/daily_agent/daily.py:46-51 | The executor's merge of a node's partial update into the state. Its field-by-field behaviour is stated by `AgentGraph.MergeSemantics`. |
| AgentGraph.MergeSemantics | app/api/daily_agent/daily.py:46-51 | A merge never changes the request and adds the update's count to the state's (the `operator.add` reducer). A key present in the update overwrites its field, and a key absent from it leaves the field as it was. |
| AgentGraph.Wording | app/api/daily_agent/daily.py:57-64 | The persona, planning and reflect prompt texts verbatim, and the separators the f-strings put between them and the state's text. |
| AgentGraph.PlanningMessages | app/api/daily_agent/daily.py:70-71 | The Plan call's messages: the persona as a system message, then the planning instruction, the memo header and the memo as one human message. |
| AgentGraph.ReflectMessages | app/api/daily_agent/daily.py:76-77 | The Reflect call's message: the instruction, the plan label and plan, the source label and the memo, as one human message. |
| AgentGraph.GenerateMessages | app/api/daily_agent/daily.py:83-86 | The Generate prompt is one human message whose text is exactly the memo, with no persona and no instruction. |
| AgentGraph.PlanningNode | app/api/daily_agent/daily.py:68-72 | Planning fails exactly when its chat call fails. It uses one chat call, and the merged state differs from the old one only in the plan, which is the model's reply. |
| AgentGraph.ReflectNode | app/api/daily_agent/daily.py:74-78 | At count 3 or more, Reflect sets the feedback to the sentinel without a model call. Below that, it fails exactly when its chat call fails, and otherwise changes only the feedback, to the model's reply; in the counted variant it also adds 1 to the count. |
| AgentGraph.GenerateNode | app/api/daily_agent/daily.py:80-87 | Generate fails exactly when the structured call fails. It makes no chat call, sets the report to the structured answer to the memo and adds exactly 1 to the count; nothing else changes. |
| AgentGraph.DecideNextStep | app/api/daily_agent/daily.py:89-91 | The route is Generate exactly when the feedback contains the sentinel as a substring or the count is at least 3, and Retry otherwise. |
| AgentGraph.Successor | app/api/daily_agent/daily.py:97-101 | The graph's edges evaluated on the state a node left: Planning to Reflect, Reflect by the routing rule, Generate to END. Stated by `AgentGraph.SuccessorFollowsWiring`. |
| AgentGraph.SuccessorFollowsWiring | app/api/daily_agent/daily.py:97-101 | Planning is followed by Reflect. Reflect is followed by Generate exactly when the feedback contains the sentinel or the count is at least 3, and by Planning otherwise. Generate is followed by END. |
| AgentGraph.RunNode | app/api/daily_agent/daily.py:94-96 | The node function registered under each node name. |
| AgentGraph.Exec | app/api/daily_agent/daily.py:93-101 | The run of the compiled graph from a node: each node's update is merged and the edge followed until END. A failed model call aborts the run, and a spent budget ends it at the step limit. The run lemmas below are about this function. |
| AgentGraph.Continue | app/api/daily_agent/daily.py:98-101 | The rest of a run once a node has answered: merge, record the visit, follow the edge. |
| AgentGraph.Invoke | app/api/daily_agent/daily.py:171-176 | `app_graph.invoke` on the initial state built from the request. |
| AgentGraph.RunGraph | app/api/daily_agent/daily.py:93-102 | The driver loop over a mutable state computes exactly the run the graph's semantics specify, including abort and budget exhaustion. |
| AgentProperties.CyclesThenGenerateExplicit | app/api/daily_agent/daily.py:97-101 | A node sequence of the run grammar has odd length of at least 3 from Planning, alternates Planning and Reflect, and ends with a single Generate. |
| AgentProperties.GenerateStep | app/api/daily_agent/daily.py:80-87 | A completed run from Generate is that single visit, and the final state holds the structured report with the count one higher. |
| AgentProperties.RunFollowsGraph | app/api/daily_agent/daily.py:93-101 | A run starts at its entry node, and each visited node is the graph edge's target from the node before it. |
| AgentProperties.RequestNeverChanges | app/api/daily_agent/daily.py:68-87 | Every state of a run holds the request the run started with. |
| AgentProperties.CompletedEndsWithGenerate | app/api/daily_agent/daily.py:96-101 | A completed run's last visit is Generate, and its state is the final state. |
| AgentProperties.ReportOnlyFromGenerate | app/api/daily_agent/daily.py:80-87 | From a state without a report, a state of the run has a report exactly when it is the state after Generate. |
| AgentProperties.GenerateIsLast | app/api/daily_agent/daily.py:101 | Generate occurs only as the last visit of a run. |
| AgentProperties.OnlyGenerateCounts | app/api/daily_agent/daily.py:51 | As written, every state of a run has the starting count, plus one for the state after Generate. |
| AgentProperties.ReportComesFromRequest | app/api/daily_agent/daily.py:83-87 | A completed run's report is the structured answer to the memo alone, and the final request is the initial one. |
| AgentProperties.ReportDependsOnlyOnRequest | app/api/daily_agent/daily.py:83-87 | Two completed runs with the same request get the same report, whatever their chat answers, budgets, plans, feedback or variant. |
| AgentProperties.ReflectExit | app/api/daily_agent/daily.py:74-78 | As written, a Reflect that routes to Generate at count 0 asked the model, got the sentinel, and Generate follows. |
| AgentProperties.AsWrittenLoopShape | app/api/daily_agent/daily.py:93-101 | As written, from count 0 a completed run has the Plan Reflect (Plan Reflect)* Generate shape. Every node before Generate made exactly one chat call. |
| AgentProperties.AsWrittenLoopExit | app/api/daily_agent/daily.py:89-91 | As written, a completed run's final feedback contains the sentinel and is the model's answer to the last chat call. |
| AgentProperties.AsWrittenRun | app/api/daily_agent/daily.py:171-176 | As written, every completed run from the route's initial state has the loop shape and a count of 0 before Generate and 1 at the end. The report appears only at the end and is the structured answer to the memo. The last reflection contained the sentinel. |
| AgentProperties.AsWrittenWithoutSentinelExhaustsBudget | app/api/daily_agent/daily.py:75 | As written, when no chat answer contains the sentinel, Plan and Reflect alternate until the whole budget is used: the ceiling never fires. |
| AgentProperties.AsWrittenNeverReportsWithoutSentinel | app/api/daily_agent/daily.py:90 | As written, a model that never answers the sentinel gets no report for any budget, only the step-limit failure. |
| AgentProperties.CountedReflectBounded | app/api/daily_agent/daily.py:74-91 | In the corrected design, a run from Plan or Reflect ends (completes or aborts) within the step bound for its count. |
| AgentProperties.CountedReflectTerminates | app/api/daily_agent/daily.py:89-91 | In the corrected design, every run from the initial state ends within 7 node executions, whatever the model answers. |
| AgentProperties.SentinelRouting | app/api/daily_agent/daily.py:89-99 | In any run, the node after a Reflect is Generate exactly when that Reflect's feedback contains the sentinel or the count reached 3, and Planning otherwise. |
| AgentProperties.InsufficientContainsSentinel | app/api/daily_agent/daily.py:90 | The feedback "불충분함" ("insufficient") contains the sentinel, so it routes to Generate. |
| EntryPoints.TestAgentRun | app/api/daily_agent/daily.py:105-122 | Every state of the `test_agent` run holds the cleaned argument, which is stripped and control-free. A completed run holds the structured answer to that text. |
| EntryPoints.GenerateAndStore | app/api/daily_agent/daily.py:152-194 | A failing `get_item` raises its own exception, a missing item raises 404, and a missing or empty content raises 400. A row is saved exactly when the content is non-empty, the run completes and the write succeeds. The row holds the same key and the structured answer's title and text. |
| EntryPoints.CreateReport | app/api/daily_agent/daily.py:147-198 | As written, the route answers success exactly when it stored a row, echoes that row's date, title and content, and answers every error with 500. |
| EntryPoints.CreateReportSucceeds | app/api/daily_agent/daily.py:171-194 | The route succeeds exactly when the memo has content, the run completes and the write succeeds. It then returns the date and the structured answer's title and text. |
| EntryPoints.ClientErrorsBecome500 | app/api/daily_agent/daily.py:160-168 | As written, the 404 for a missing memo and the 400 for one without content are raised inside the `try` but reach the client as 500. |
| EntryPoints.CreateReportIntended | app/api/daily_agent/daily.py:152-198 | The corrected route passes 404 and 400 through. For any other lookup (a memo with content or a failed `get_item`) every error is 500, and success still echoes the stored row. |
| EntryPoints.IntendedAgreesExceptOnClientErrors | app/api/daily_agent/daily.py:196-198 | The corrected route and the route as written give the same outcome exactly when the lookup is not one of the two client errors (no item, or no content). |
| DailyWindow.KstDay | app/api/v1/daily.py:25 | The KST day number of a timestamp: the timestamp lies between that day's KST midnight and the next one. |
| DailyWindow.Midnight | app/api/v1/daily.py:28 | A day's KST midnight is aligned to a whole KST day and lies on that day. |
| DailyWindow.TruncDiv | app/api/v1/daily.py:31 | Python's `int()` of a quotient truncates toward zero: from below for non-negative values, from above for negative ones. |
| DailyWindow.DayWindow | app/api/v1/daily.py:21-31 | The window starts at the KST midnight of the date's own day and contains the date. Its end is the day's last second when that is not before the epoch, and the next midnight otherwise. |
| DailyWindow.WindowIsTheDay | app/api/v1/daily.py:25-31 | From 1970-01-01 KST on, the window ends at start + 86399. A timestamp is in it exactly when it falls on the same KST day. |
| DailyWindow.KstDayUnique | app/api/v1/daily.py:25 | A timestamp between a day's midnight and the next midnight is on that day. |
| DailyWindow.SameDaySameWindow | app/api/v1/daily.py:25-31 | Two timestamps get the same window exactly when they are on the same KST day. |
| DailyWindow.WindowIdempotent | app/api/v1/daily.py:28-31 | Recomputing the window from its own start gives the same window. |
| DailyWindow.ConsecutiveWindowsAdjacent | app/api/v1/daily.py:28-31 | From the epoch on, the next day's window starts one second after this one ends. |
| DailyWindow.PreEpochWindowsOverlap | app/api/v1/daily.py:29-31 | As written, a window before 1970-01-01 KST ends at the next day's midnight, which lies in both days' windows. |
| DailyWindow.PreEpochExample | app/api/v1/daily.py:29-31 | Timestamp -100000 gets the window [-118800, -32400], and -32400 is the next day's start. |
| DailyWindow.DayWindowIntended | app/api/v1/daily.py:28-31 | The corrected window ends at start + 86399, and every timestamp lies exactly in the window of its own KST day. |
| DailyWindow.IntendedAgreesFromEpoch | app/api/v1/daily.py:29-31 | The corrected window equals the window as written exactly when the day is not before the epoch. |
| DailyWindow.IntendedConsecutiveWindowsAdjacent | app/api/v1/daily.py:28-31 | With the corrected end, consecutive windows are adjacent for every date. |

## Left out

- The OpenAI client (`ChatOpenAI`, `with_structured_output`) is a network call. It is the `chat`/`structured` oracle, and the model, temperature and schema binding are not modelled.
- The prompt wording appears verbatim in `AgentGraph.Wording`. Nothing is proved about what it asks of the model beyond the Generate prompt's content.
- The graph library is reduced to its documented semantics: entry node, edges, conditional edge and reducer merge. Graph compilation, the `config`/`thread_id` argument and checkpointing are not modelled. The recursion limit's exact value is the `fuel` parameter, and exhaustion is the `StepLimit` outcome.
- The `category` key that `test_agent` passes in is not part of `AgentState`, so it is dropped.
- The validator is applied to a field whose value is typed abstractly. `MemoRequest` is defined but not used by any route, so neither entry point applies it.
- `test_agent` prints the report (lines 126-133) and reads `record_date`, `category` and `todo_list`, which `FinalReport` no longer has. The resulting error is caught and printed. All printing, and the `try` around the run, are left out. `EntryPoints.TestAgentRun` returns the run itself.
- The draft and confirm tables are left out; they are I/O. `get_item` is the `DraftLookup` value: no item, an item, or an exception (`LookupFailed`). `put_item` is a flag saying whether the write succeeded. Which exception a failed call raises is not modelled, since every one ends in 500.
- The day-window query and its response shaping are I/O and are left out, as is everything else of `get_daily`.
- A `content` attribute that is present but not a string is not modelled.
- Authentication (`verify_cognito_token`) is not part of this model, and neither are configuration and application wiring.
- DailyWindow.DayWindow: timestamps are whole seconds and the end value is an exact rational. Float rounding of very large timestamps and the `datetime` range errors are not modelled.
- Text.IsSpace: the whitespace set is the fixed list `str.strip()` uses, not the Unicode database.
- AgentGraph.RunGraph: the budget stands for the recursion limit, so runs cut off by it end in `StepLimit`, not in the library's exception type.

## Findings

| source | as written | input that shows it | evidently intended | confidence | as-written member | corrected member |
|---|---|---|---|---|---|---|
| app/api/daily_agent/daily.py:75,87,90 | Only Generate adds to `iteration_count`, and both entry points start it at 0. So the `>= 3` ceiling in Reflect and in the routing rule can never fire before Generate, and the loop ends only when a reflection contains "충분함". | A chat model whose every answer lacks "충분함": the run alternates Plan/Reflect until the recursion limit and produces no report. | Each Reflect that asks the model counts one iteration, so at most three Plan/Reflect cycles precede Generate. | high, not executed | AgentProperties.AsWrittenWithoutSentinelExhaustsBudget | AgentProperties.CountedReflectTerminates |
| app/api/daily_agent/daily.py:35-36 | The control-character class includes `\n` and `\r`, which are deleted before the line-break replacements run, so the replacements never match. | The memo `"a\nb"` becomes `"ab"`. | Line breaks become spaces, `"a\nb"` becomes `"a b"`, and other controls are deleted. | high, not executed | MemoRequest.NewlineJoinsWords | MemoRequest.IntendedNewlineSeparatesWords |
| app/api/daily_agent/daily.py:162-168,196-198 | The 404 and 400 `HTTPException`s are raised inside the `try`, and `except Exception` turns them into 500. | A `creation_date` with no draft item answers 500. | A missing memo answers 404, an empty one 400, and other failures 500. | high, not executed | EntryPoints.ClientErrorsBecome500 | EntryPoints.CreateReportIntended |
| app/api/v1/daily.py:29-31 | `int()` truncates toward zero, so for a day before 1970-01-01 KST the end `start + 86399.999999` truncates up to the next day's midnight. | Timestamp -100000 gets the window [-118800, -32400], and -32400 also starts the next day's window. | The end is the day's last whole second, start + 86399, for every day. | low (pre-epoch dates are unlikely inputs), not executed | DailyWindow.PreEpochExample | DailyWindow.DayWindowIntended |

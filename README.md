# BitBud, modelled in Dafny

BitBud is a desktop assistant. A message goes to a language model, which
answers with an intent as JSON. The assistant turns that intent into an
action: open an application, run a shell command, set an alarm or a timer,
list or kill processes, or remember and recall text in a vector store. This
project models the logic between the model's reply and the action, and the
tools whose behaviour is decided by the assistant's own code:

- `Text`, `Python` (text.dfy, python.dfy): the parts of Python the code
  relies on. These cover `strip`, `lower`, `find`/`rfind`, slicing, `split`,
  `join`, `int()`, `str()`, `repr()`, the `02d` format, truthiness and
  `dict.get`. JSON values are `Python.Json`, a dict is an ordered list of
  entries, and an exception that escapes a function is `Outcome.Raised`.
- `LlmReply`, `Llm` (llm_reply.dfy, llm.dfy): the JSON block cut out of a
  reply, and `get_intent`, `build_rag_prompt`, `generate_context_summary`
  and `text_to_shell_command`, each given the reply the model produced.
- `Brain` (brain.py): `process_message`, the older single-step assistant.
- `AppLauncher`: the case-insensitive application table and its messages.
- `ShellCommand`: the dangerous-word filter and the message for each way a
  shell command can end.
- `Clock`: the 12-hour time, the alarm and timer registries as a class, the
  alarm's "is it time" test and the `clock` dispatcher.
- `Router` (langGraphRouter.py): `parse_args`, `route_input`,
  `decide_next_node`, the handler nodes and the whole graph. Vector-store
  calls are kept as a log.
- `SystemControl`: the top-ten process listing, `kill_process` and the
  `system_control` dispatcher.

Everything outside the process, such as the model, HTTP, `json.loads`,
subprocess, psutil, the clock and the vector store, is a parameter of the
function that uses it.

The behaviour follows the code. clock.py keeps two append-only lists and
matches the exact hour and minute. It has no cancelling, no listing and no
absolute fire time, and `Clock` models exactly that.

## Model

| member | source | states |
|---|---|---|
| Text.StripEnds | agent/llm.py:77 | `strip()` leaves no whitespace at either end of its result |
| Text.StripIdempotent | agent/llm.py:143 | stripping a stripped text changes nothing |
| Text.LowerProperties | agent/tools/app_launcher.py:12 | `lower()` keeps the length, leaves no upper-case letter, is the identity on a text without one, and is idempotent |
| Text.Find | agent/llm.py:81 | `find` gives -1 exactly when the character is absent, otherwise the index of its first occurrence |
| Text.RFind | agent/llm.py:82 | `rfind` gives -1 exactly when the character is absent, otherwise the index of its last occurrence |
| Text.ContainsIff | agent/tools/shell_command.py:30 | `w in s` holds exactly when `w` occurs at some index of `s` |
| Text.SplitCount | agent/brain.py:22 | `split("=")` gives one more piece than there are "=" |
| Text.SplitJoin | agent/brain.py:22 | joining the pieces of `split(c)` with `c` gives back the text |
| Text.SplitWhitespaceWords | agent/tools/app_launcher.py:15 | every piece of `split()` is a non-empty run without whitespace |
| Text.SplitWhitespaceOfWords | agent/tools/app_launcher.py:15 | `split()` of words joined by single spaces gives back those words |
| Text.ParseIntToStr | agent/tools/system_control.py:84 | `int(str(n)) == n` for every integer |
| Text.PaddedIntReadsBack | agent/tools/system_control.py:70 | a number padded with spaces to a width, either side, reads back as the number |
| Python.Get | agent/langGraphRouter.py:32 | `dict.get` finds a value exactly when the key is present, and the value is the one stored under it |
| Python.Or | agent/tools/clock.py:19 | `a or b` is one of the two, and is `a` when `a` is truthy |
| Python.ToInt | agent/tools/system_control.py:84 | `int(v)` succeeds exactly for ints, bools and decimal texts; it raises ValueError for other texts and TypeError for other values |
| Text.ParseIntSeparators | agent/tools/system_control.py:84 | `int()` skips a no-break space around the digits but not a file, group, record or unit separator (U+001C..U+001F), although `strip()` removes both |
| Python.StrOfInt | agent/tools/clock.py:34 | `str(n)` reads back as `n` |
| Python.Format02dInt | agent/tools/clock.py:25 | the `02d` field of an integer reads back as it, and is two characters wide for 0..99 |
| LlmReply.JsonBlock | agent/llm.py:81-83 | no contract of its own: the `JsonBlock…` lemmas below state the slice it cuts in each case |
| LlmReply.JsonBlockSpan | agent/llm.py:81-83 | when a "{" precedes the last "}", the block runs from the first "{" to the last "}", both included |
| LlmReply.JsonBlockNoClose | agent/llm.py:82-83 | without a "}" the block is empty |
| LlmReply.JsonBlockNoOpen | agent/llm.py:81-83 | without a "{" the block is "}" when the reply ends with one, and empty otherwise |
| LlmReply.JsonBlockShape | agent/llm.py:81-83 | the block is empty, a lone "}", or a text from "{" to "}" |
| LlmReply.JsonBlockWhole | agent/brain.py:81-83 | a reply that already starts with "{" and ends with "}" is kept whole |
| LlmReply.JsonBlockIdempotent | agent/llm.py:81-83 | cutting the block out twice gives the same block |
| LlmReply.BlockParsesToObject | agent/llm.py:85 | with a parser that behaves like `json.loads`, a block that parses is a dict |
| Llm.GetIntent | agent/llm.py:7-89 | no contract of its own: `IntentFallbackFields`, `GetIntentParseFailure`, `GetIntentIsDict` and `GetIntentCallFailed` state its result for each outcome of the model call and of the parse |
| Llm.BuildRagPrompt | agent/llm.py:92-108 | no contract of its own: `BuildRagPromptShape` states the prompt's layout |
| Llm.GenerateContextSummary | agent/llm.py:111-132 | no contract of its own: `SummaryNoneIff` states when it is None and what it is otherwise |
| Llm.TextToShellCommand | agent/llm.py:136-144 | no contract of its own: `ShellCommandShape` states the command and its fallback |
| Llm.IntentFallbackFields | agent/llm.py:89 | the fallback dict has function "fallback", args `{}`, the error message and the stripped reply |
| Llm.GetIntentParseFailure | agent/llm.py:85-89 | a block that does not parse gives the fallback dict with the parser's message and the stripped reply |
| Llm.GetIntentIsDict | agent/llm.py:77-85 | a block that parses is returned as parsed, and with a JSON-like parser every reply gives a dict |
| Llm.GetIntentCallFailed | agent/llm.py:77-89 | when the model call raises, the handler reads an unbound `raw_response` and `get_intent` raises UnboundLocalError |
| Llm.BuildRagPromptShape | agent/llm.py:92-108 | the prompt is the intro, the memory documents joined by newlines, the about documents joined by newlines, the instruction, and the quoted user input at the very end; `strip()` removes only the template's outer newlines |
| Llm.SummaryNoneIff | agent/llm.py:131-132 | the summary is None exactly when the stripped reply is "none" in any casing, and otherwise it is the stripped reply |
| Llm.ShellCommandShape | agent/llm.py:143-144 | the command is the stripped reply when that is non-empty and the fixed echo otherwise, and is never empty |
| AppLauncher.OpenApp | agent/tools/app_launcher.py:3-19 | no contract of its own: `LookupIgnoresCase`, `UnknownAppNotLaunched` and `KnownAppLaunched` state its lookup and its three replies |
| AppLauncher.CommandsTable | agent/tools/app_launcher.py:4-11 | the table knows exactly six apps, and every command is non-empty |
| AppLauncher.LookupIgnoresCase | agent/tools/app_launcher.py:12 | a name is known exactly when its lower-case form is one of the six, and every casing finds the same command |
| AppLauncher.UnknownAppNotLaunched | agent/tools/app_launcher.py:13-19 | an unknown name gets "App '…' not recognized." whatever the launcher would do |
| AppLauncher.KnownAppLaunched | agent/tools/app_launcher.py:13-18 | a known name is launched with its command's words; the reply is "Opening …." or "Failed to open …: …" with the caller's spelling |
| AppLauncher.ArgvYoutube | agent/tools/app_launcher.py:15 | "firefox https://youtube.com" is split into the browser and the address |
| AppLauncher.ArgvNetflix | agent/tools/app_launcher.py:15 | "firefox https://netflix.com" is split into the browser and the address |
| Text.SplitWhitespaceSingle | agent/tools/app_launcher.py:15 | `split()` of one word without whitespace is that word alone |
| AppLauncher.ArgvChrome | agent/tools/app_launcher.py:15 | the one-word chrome command is the whole argument vector |
| Brain.ProcessMessage | agent/brain.py:5-35 | no contract of its own: `StringDecisionReturned`, `ReplyWins`, `DecodeArgsText`, `UnknownFunction` and `CallFunctionTools` state its result for each kind of decision |
| Brain.GetLlmFunctionCall | agent/brain.py:38-89 | no contract of its own: `LlmErrorShown` and `DecisionIsDict` state its error reply and that it yields a dict |
| Brain.CallFunction | agent/brain.py:28-35 | no contract of its own: `CallFunctionTools` and `UnknownFunction` state each branch of the dispatch |
| Brain.OpenApp | agent/brain.py:92-111 | no contract of its own: `OpenUnknownApp` and `OpenKnownApp` state its replies |
| Brain.StringDecisionReturned | agent/brain.py:9-10 | a string decision is returned unchanged |
| Brain.ReplyWins | agent/brain.py:13-14 | a "reply" entry is the answer, whatever else the decision holds |
| Brain.LlmErrorShown | agent/brain.py:88-89 | a failed call, or a block that does not parse, reaches the user as "LLM error: " and the message |
| Brain.DecisionIsDict | agent/brain.py:72-89 | with a JSON-like parser every decision is a dict |
| Brain.DecodeArgsText | agent/brain.py:21-26 | text args with exactly one "=" become `{lhs.strip(): rhs.strip()}`; any other count gives `{}` |
| Brain.UnknownFunction | agent/brain.py:28-35 | without "reply", a function other than the three known ones gets the apology |
| Brain.CallFunctionTools | agent/brain.py:28-33 | `recommend_music` ignores its arguments; `search_web` searches for "query" or "unknown"; `open_app` without "name" answers that it does not know "unknown"; arguments that are not a dict raise AttributeError on `.get` |
| Brain.OpenUnknownApp | agent/brain.py:103-111 | an unknown name gets "I don't know how to open '…' yet." and nothing is launched |
| Brain.OpenKnownApp | agent/brain.py:94-108 | a known name in any casing is launched with the table's command |
| ShellCommand.RunShellCommand | agent/tools/shell_command.py:4-22 | no contract of its own: `RunMessageText` and `RunMessageKind` state its messages |
| ShellCommand.RunMessageText | agent/tools/shell_command.py:4-22 | a zero exit gives "Output:\n" and the stripped output; another exit gives "Error (code ", the code, which reads back, "):\n" and the stripped output; a timeout gives "Command timed out."; another failure gives "Failed to run command: " and its message |
| ShellCommand.RunMessageKind | agent/tools/shell_command.py:4-22 | the message's first character tells how the run ended: a zero exit, another exit, the timeout, or another failure |
| ShellCommand.LinuxCommands | agent/tools/shell_command.py:25-34 | no contract of its own: `DangerousNeverRun`, `RefusalShowsCommand` and `SafeCommandRun` state its two outcomes |
| ShellCommand.AnyInIff | agent/tools/shell_command.py:30 | `any(x in cmd for x in words)` holds exactly when some word occurs in the command |
| ShellCommand.DangerousIff | agent/tools/shell_command.py:30 | a command is dangerous exactly when "rm", "reboot", "shutdown", "mkfs" or "dd" is a substring of it |
| ShellCommand.FormatIsDangerous | agent/tools/shell_command.py:30 | any command containing "format" is refused, because it contains "rm" |
| ShellCommand.RefusalShowsCommand | agent/tools/shell_command.py:31 | the refusal shows the exact command between backticks |
| ShellCommand.DangerousNeverRun | agent/tools/shell_command.py:25-31 | a dangerous command is refused and the answer does not depend on the runner |
| ShellCommand.SafeCommandRun | agent/tools/shell_command.py:33-34 | any other command's answer is exactly `run_shell_command`'s message for it |
| Clock.Hour12Properties | agent/tools/clock.py:12 | the `%I` hour is in 1..12 and is 12 exactly at midnight and noon; the suffix is AM exactly before noon; the two give back the 24-hour hour |
| Clock.Clock12Layout | agent/tools/clock.py:12 | `%I:%M:%S %p` is eleven characters: three two-digit fields, the separators and the suffix |
| Clock.ReadClock12Inverse | agent/tools/clock.py:12 | the 12-hour text of a valid time reads back as that time |
| Clock.GetCurrentTime | agent/tools/clock.py:10-12 | no contract of its own: `CurrentTimeShape` and `ReadClock12Inverse` state the sentence and that the time reads back |
| Clock.CurrentTimeShape | agent/tools/clock.py:10-12 | `get_current_time` is the fixed sentence followed by the time, which reads back |
| Clock.AlarmDueExact | agent/tools/clock.py:18 | the alarm is due exactly when the hour and the minute both match |
| Clock.AlarmCanFire | agent/tools/clock.py:15-21 | an alarm can ever be due exactly when its hour and minute are integers in a day's range |
| Clock.NoticeDefaults | agent/tools/clock.py:19-30 | the alarm prints its objective or "Wake up!", the timer its objective or "Time is up!" |
| Clock.AlarmThread | agent/tools/clock.py:15-21 | the poll loop stops at the first due sample and prints the notice once; every earlier sample was not due |
| Clock.AlarmConfirmationText | agent/tools/clock.py:25 | for 0..99 the confirmation is "Alarm set for HH:MM — objective": each field is two digits, with a leading zero exactly below ten, and reads back as its number; an empty objective leaves the dash last |
| Clock.AlarmConfirmation | agent/tools/clock.py:25 | no contract of its own: `AlarmConfirmationText` and `AlarmConfirmationRaises` state its text and its exceptions |
| Clock.AlarmConfirmationRaises | agent/tools/clock.py:25 | an hour or minute that is not an integer makes the format raise, the hour's error first |
| Clock.TimerConfirmationText | agent/tools/clock.py:34 | the timer confirmation is "Timer set for N seconds — objective" with N reading back as the seconds |
| Clock.ClockReply | agent/tools/clock.py:36-48 | no contract of its own: `UnknownClockCommand`, `ObjectiveDefault` and `ClockTool.Clock` state the reply for each command |
| Clock.UnknownClockCommand | agent/tools/clock.py:47-48 | an unknown type answers "Unknown clock command." and adds no record |
| Clock.AddsAtMostOne | agent/tools/clock.py:36-48 | a command adds at most one record: one alarm exactly for "alarm", one timer exactly for "timer" |
| Clock.ObjectiveDefault | agent/tools/clock.py:42-44 | a missing objective is "" |
| Clock.ClockTool.constructor | agent/tools/clock.py:7-8 | both registries start empty |
| Clock.ClockTool.SetAlarm | agent/tools/clock.py:24-25 | appends exactly one alarm record at the end, before formatting; timers are unchanged |
| Clock.ClockTool.SetTimer | agent/tools/clock.py:33-34 | appends exactly one timer record at the end; alarms are unchanged |
| Clock.ClockTool.Clock | agent/tools/clock.py:36-48 | the registries grow by exactly the command's records, and the reply is the command's |
| Router.PutGet | agent/langGraphRouter.py:24 | after `d[key] = value` the key holds the value and every other key what it held |
| Router.DictOfPairsKeys | agent/langGraphRouter.py:24 | a key is missing from `dict(pairs)` exactly when no pair has it |
| Router.DictOfPairsLastWins | agent/langGraphRouter.py:24 | a key holds the value of the last pair with that key |
| Router.ParseArgs | agent/langGraphRouter.py:20-25 | the arguments are always a dict |
| Router.ParseArgsCases | agent/langGraphRouter.py:20-25 | a dict is kept, a text is decoded as a query string, anything else gives `{}` |
| Router.RouteInput | agent/langGraphRouter.py:27-61 | no contract of its own: the `Route…` lemmas below state its result and its store calls for each intent |
| Router.RouteRememberBlank | agent/langGraphRouter.py:37-40 | a blank "remember" text answers "I need something to remember." and calls nothing |
| Router.RouteRememberText | agent/langGraphRouter.py:37-42 | any other text is stored once and confirmed |
| Router.RouteForgetRecall | agent/langGraphRouter.py:44-56 | "forget" and "recall" call the store once with the text and keep `{"text": text}` |
| Router.RouteRecallNothing | agent/langGraphRouter.py:49-56 | "recall" with nothing found answers "I don’t remember anything like that." |
| Router.RoutePassThrough | agent/langGraphRouter.py:58-59 | the three tool intents pass through with their parsed args, no output and no store call |
| Router.RouteFallback | agent/langGraphRouter.py:61 | any other function becomes "fallback" with `{}` and the apology |
| Router.RouteCallsStoreOnce | agent/langGraphRouter.py:27-61 | `route_input` calls the store at most once, and only for the three memory intents |
| Router.DecideNextNode | agent/langGraphRouter.py:97-111 | no contract of its own: `DecideNextNodeNames` and `DecideNodeOfName` state the node for each function |
| Router.Handle | agent/langGraphRouter.py:65-79 | no contract of its own: the `Run…` lemmas below state what each memory node adds to the route's store calls and the answer it leaves |
| Router.Run | agent/langGraphRouter.py:82-123 | no contract of its own: `RunAfterRoute` states it is the chosen node after `route_input`, and the `Run…` lemmas the outcome for each memory intent |
| Router.DecideNextNodeNames | agent/langGraphRouter.py:97-111 | each of the six functions goes to its own node, everything else to "fallback", and the name is one of the seven |
| Router.DecideNodeOfName | agent/langGraphRouter.py:97-111 | the node chosen for a node's name is that node |
| Router.RunAfterRoute | agent/langGraphRouter.py:113-114 | after `route_input`, the run is the chosen node on top of the route's store calls |
| Router.RunStoresBlankText | agent/langGraphRouter.py:37-73 | as written, a blank "remember" text is stored by the node anyway, and the answer is None |
| Router.RunStoresTextTwice | agent/langGraphRouter.py:41-73 | as written, any other text is stored twice, and the answer is None |
| Router.RunForgetsTwice | agent/langGraphRouter.py:44-75 | as written, "forget" deletes twice, and the answer is the second deletion's report |
| Router.RunRecallAnswersList | agent/langGraphRouter.py:49-77 | as written, "recall" queries twice, and the answer is the raw list of the second query |
| Router.CorrectedRemember | agent/langGraphRouter.py:37-42 | in the corrected graph a blank text is refused and never stored, and any other text is stored once and confirmed |
| Router.CorrectedRunCallsOnce | agent/langGraphRouter.py:82-123 | in the corrected graph a message calls the store at most once, and the other intents are answered as before |
| SystemControl.Insert | agent/tools/system_control.py:64 | inserting keeps the multiset of processes |
| SystemControl.InsertSorted | agent/tools/system_control.py:64 | inserting into a CPU-sorted list keeps it sorted |
| SystemControl.SortPermutes | agent/tools/system_control.py:64 | the sort is a permutation |
| SystemControl.SortByCpuSorted | agent/tools/system_control.py:64 | the sort gives non-increasing CPU, a missing value counting as 0 |
| SystemControl.SortByCpuStable | agent/tools/system_control.py:64 | the sort is stable: processes with equal CPU keep their order |
| SystemControl.ShownAreTopTen | agent/tools/system_control.py:64-67 | at most ten processes are shown, in CPU order, and none left out uses more CPU than one shown |
| SystemControl.Fixed1ReadsBack | agent/tools/system_control.py:70 | a `5.1f` percentage reads back as its tenths |
| SystemControl.ProcessLineNumbered | agent/tools/system_control.py:67-70 | lines are numbered from 1 and the name follows ". " |
| SystemControl.LinesFail | agent/tools/system_control.py:67-70 | the listing fails exactly when a shown process has no name |
| SystemControl.LinesError | agent/tools/system_control.py:70-75 | the only failure is the format error on a missing name |
| SystemControl.ProcessListing | agent/tools/system_control.py:53-75 | no contract of its own: `ShownAreTopTen`, `LinesFail`, `LinesError` and `GetRunningProcesses` state what is listed and when it fails |
| SystemControl.GetRunningProcesses | agent/tools/system_control.py:53-75 | the append loop, the sort and the line loop give exactly the listing of the top ten |
| SystemControl.KillMessage | agent/tools/system_control.py:77-105 | no contract of its own: `KillProcess` computes it, and `KillInvalidPid`, `KillSeparatorPid`, `KillReportsNumber`, `KillOfInt` and `KillTextPid` state its cases |
| SystemControl.KillProcess | agent/tools/system_control.py:77-105 | the result is the message for how `int()` and psutil went; the "No processes found" branch is unreachable |
| SystemControl.KillInvalidPid | agent/tools/system_control.py:84-95 | a PID text that is not a number gives "[ERROR] Invalid PID format: …" whatever psutil would do |
| SystemControl.KillReportsNumber | agent/tools/system_control.py:89-100 | a killed process is reported with its name and its PID number |
| SystemControl.KillTextPid | agent/tools/system_control.py:84 | a PID given as a number's text is treated exactly as the number, and `True` as PID 1 |
| SystemControl.KillSeparatorPid | agent/tools/system_control.py:84-95 | a PID text with a file separator before the digits is an invalid PID, because `int()` does not skip it |
| SystemControl.KillOfInt | agent/tools/system_control.py:84-100 | the message depends on the PID only through the integer `int()` reads from it |
| SystemControl.ActionOf | agent/tools/system_control.py:107-159 | no contract of its own: `KillNeedsPid`, `ScheduleArguments`, `UnknownSystemCommand` and `OnlyThreeImplemented` state the action for each type |
| SystemControl.Answer | agent/tools/system_control.py:111-159 | no contract of its own: `SystemControl` computes it, and `KillProcess` and `GetRunningProcesses` state the answers of the implemented actions |
| SystemControl.SystemControl | agent/tools/system_control.py:107-159 | the answer is the one for the action `args` selects |
| SystemControl.KillNeedsPid | agent/tools/system_control.py:115-118 | a missing or empty "process" gives "[ERROR] Please specify process PID" and psutil is not reached |
| SystemControl.ScheduleArguments | agent/tools/system_control.py:122-128 | "schedule" defaults to shutdown in 5 minutes; a non-numeric minutes text gives "[ERROR] Minutes must be a number" |
| SystemControl.UnknownSystemCommand | agent/tools/system_control.py:157-159 | a type outside the fifteen known ones gets the "unknown command" reply |
| SystemControl.OnlyThreeImplemented | agent/tools/system_control.py:120-156 | eleven types, and "schedule" with usable minutes, call an undefined handler and raise NameError |

## Left out

- Threads and sleeping in clock.py: the alarm poll is a loop over given clock samples, and the timer's sleep is not modelled. Only what each thread prints is modelled.
- The world-time branch of `clock` calls `get_time_in_timezone`, which the tool neither defines nor imports. It is modelled as raising NameError.
- The language model, `requests.post` and `json.loads` are parameters. `json.loads` is only assumed to reject "" and "}" and to give a dict for a text starting with "{".
- Floating point: JSON numbers are integers. CPU and memory percentages are whole tenths, so `5.1f` is exact.
- `repr` of a character above U+00AD is approximated: every such character counts as printable. Below it, the ASCII controls, DEL, U+0080..U+00A0 and U+00AD are escaped as Python escapes them.
- `str.lower` is modelled on ASCII letters only.
- `int()` accepts ASCII digits only, not other Unicode decimal digits.
- `urllib.parse.parse_qsl` is a parameter giving the pairs; its percent-decoding is not modelled.
- LangGraph wiring: `build_graph` is modelled as "route, then the chosen node", not as a graph library.
- `summarize_memories` is imported from agent/llm.py, which does not define it, so importing the router fails in Python. The model takes the summary as a parameter, as if the import worked.
- The vector store (agent/chromaMemory.py) is a log of calls. What `forget`, `recall` and the summary return is a parameter that may depend on the earlier calls.
- agent/tools/recommend.py is not part of this model; the music recommendation is a parameter.
- agent/tools/search.py (browser scraping) is a parameter.
- main.py, the Flask server, is not modelled.
- `get_system_info` is a parameter giving its report; platform and psutil calls are not modelled.
- psutil's process list and the outcome of terminating a process are parameters.
- The handlers `system_control` dispatches to but the module never defines are modelled as raising NameError.
- SystemControl.GetRunningProcesses: the in-place `list.sort` is modelled as a stable insertion sort on the sequence, not as an in-place array algorithm.
- SystemControl.KillProcess: the outer `except` is not modelled, because nothing in the model can raise there.
- The prints (`print(...)` for logging) have no effect on results and are not modelled, except for the alarm and timer notices.

## Findings

| source | as written | input that shows it | evidently intended | confidence | as-written member | corrected member |
|---|---|---|---|---|---|---|
| agent/langGraphRouter.py:37-121 | `route_input` already calls the store for "remember", "forget" and "recall" and sets the answer. The graph then routes to a node that calls the store again and replaces the answer. | the intent `{"function": "remember", "args": {"text": "  "}}` is refused by `route_input`, then stored by `remember_handler`, and the answer is None | the memory intents end after `route_input`: one store call and the route's answer | not executed | Router.RunStoresBlankText | Router.CorrectedRemember |

# GHOSTS LLM decision service — a Dafny model

The GHOSTS LLM decision service (`dummy_llm_agent/llm_service.py`) picks the next shell command
a simulated non-player character (NPC) runs on its computer. It keeps three things in process
memory: the NPC profile, a completion client (present only when an API key is configured), and
a bounded history of the commands the agent reports back. Each `/next-command` request goes
through four steps:

1. the reported `last_command` is stamped `[HH:MM]` and pushed onto the history;
2. with no client, a mock command is drawn and no prompt is built; with a client, a prompt is
   built from the profile and the latest history entries and the completion model is asked for
   a command;
3. an answer from the model is prefixed with `cd <workspace> && ` unless it already starts with
   `cd <workspace>`; the mock commands and the error fallback for a failed call already start
   there;
4. one record of the command is appended to a JSONL log and a CSV log.

This project models that bookkeeping and string logic and proves what it promises. Modules:

- `Text`: the `str` operations the service uses (`strip`, `startswith`, `join`), the list slice `s[-n:]` it applies to the history, and decimal digits, plus a one-character `split` that the service never calls; `split` serves only `Prompt.RecentFromMessage`, which reads listed entries back out of a user message.
- `Clock`: the three printed forms of a timestamp: `%H:%M`, `%Y%m%d` and `isoformat()`.
- `Config`: the fixed workspace path, model name and limits.
- `Prompt`: the NPC profile, `get_system_prompt()` and the user turn.
- `Command`: `generate_command_with_llm`, with the completion service as a function parameter and the mock draw as an index.
- `History`: the value semantics of the bounded history.
- `CommandLog`: the `command_data` record, the CSV header and row, and `log_command_to_file`'s effect on the two files.
- `Service`: the class `DecisionService`, which holds the module-level state (`client`, `NPC_PROFILE`, `action_history`, the log files) and updates it in place, as the handlers do.

Clock readings, the random draw, the completion service and the outcome of each file operation
are parameters of the operations that need them.

## Model

| member | source | states |
|---|---|---|
| Text.StripCutsSurroundingSpace | dummy_llm_agent/llm_service.py:155 | `strip()` keeps the one slice of the text whose surroundings are all whitespace and which neither starts nor ends with whitespace |
| Text.StripIdempotent | dummy_llm_agent/llm_service.py:155 | stripping an already stripped answer changes nothing |
| Text.JoinEmbedsParts | dummy_llm_agent/llm_service.py:92 | every part of `sep.join(parts)` occurs verbatim at its own offset |
| Text.SplitJoin | dummy_llm_agent/llm_service.py:142 | joining newline-free entries with `"\n"` and splitting again gives the entries back |
| Text.LastIsShortSuffix | dummy_llm_agent/llm_service.py:142 | `s[-n:]` is the suffix of exactly `min(n, len(s))` elements for n ≥ 1, and all of `s` for n = 0, as in Python |
| Clock.HourMinuteRoundTrip | dummy_llm_agent/llm_service.py:189 | `%H:%M` is five characters whose two numbers read back as the hour and the minute |
| Clock.SessionIdRoundTrip | dummy_llm_agent/llm_service.py:207 | `%Y%m%d` is eight digits that read back as year, month and day |
| Clock.IsoFormat | dummy_llm_agent/llm_service.py:200 | `isoformat()` has 19 characters, or 26 with a nonzero microsecond, with the dashes and `T` in place |
| Clock.IsoFormatAgreesWithShortForms | dummy_llm_agent/llm_service.py:200-207 | the session id is the ISO date without dashes, and `HH:MM` is the start of the ISO time |
| Prompt.SystemPromptEmbedsProfile | dummy_llm_agent/llm_service.py:87-97 | the system prompt starts with the fixed opening and holds the name, role, personality and joined interests verbatim, each right after its lead-in text |
| Prompt.PromptFieldsUseDefaults | dummy_llm_agent/llm_service.py:89-92 | a present field is used as it is; an absent one falls back to `Agent`, `user`, `curious and helpful` or `technology, learning` |
| Prompt.SystemPromptEmbedsEachInterest | dummy_llm_agent/llm_service.py:92-97 | every single interest occurs verbatim in the system prompt, at its place in the comma-joined list |
| Prompt.UserMessageShape | dummy_llm_agent/llm_service.py:141-145 | the opening question is asked exactly when the history is empty; otherwise the header, the last min(5, \|history\|) entries in order joined by newlines, and the follow-up question |
| Prompt.UserMessageRoundTrip | dummy_llm_agent/llm_service.py:141-143 | when no recent entry contains a newline, the entries can be read back from the user message, nothing lost or added |
| Command.NormalizeSpec | dummy_llm_agent/llm_service.py:155-159 | the normalised command starts with `cd <workspace>` and ends with the stripped text; it is that text exactly when the text already starts with the prefix, and otherwise `cd <workspace> && ` followed by the text |
| Command.NormalizeIdempotent | dummy_llm_agent/llm_service.py:158-159 | normalising twice is normalising once |
| Command.NormalizeKeepsSiblingDirectory | dummy_llm_agent/llm_service.py:158 | the prefix test has no ` &&`, so a command that enters `<workspace>_old` passes unchanged |
| Command.FixedCommandsStartInWorkspace | dummy_llm_agent/llm_service.py:126-166 | the three mock commands and the error fallback all start with `cd <workspace>` |
| Command.GenerateCommandStartsInWorkspace | dummy_llm_agent/llm_service.py:122-166 | whatever the profile, history, draw and completion, the command returned starts with `cd <workspace>` |
| Command.MockModeIgnoresCompletion | dummy_llm_agent/llm_service.py:124-132 | without a client the command is one of the three mock commands and depends on the draw alone, not on the completion service, profile or history |
| Command.FailedCompletionFallsBack | dummy_llm_agent/llm_service.py:134-166 | a raised call, an empty list of choices or a missing content gives the fixed `LLM error` command and nothing propagates |
| Command.AnsweredCompletionIsNormalized | dummy_llm_agent/llm_service.py:148-162 | an answer gives the stripped text, prefixed with `cd <workspace> && ` unless it already starts with `cd <workspace>` |
| Command.ErrorCommandIsNotMock | dummy_llm_agent/llm_service.py:126-166 | the error fallback differs from every mock command |
| History.EntryParts | dummy_llm_agent/llm_service.py:189 | an entry is `[`, the `HH:MM` time, `] ` and the command, so it ends with the command and both parts can be read back |
| History.PushSpec | dummy_llm_agent/llm_service.py:188-192 | a push onto a history of at most 10 keeps it at most 10 with the new entry last; below 10 nothing is lost; at 10 exactly the oldest entry is dropped and the rest keep their order |
| History.PushKeepsLatest | dummy_llm_agent/llm_service.py:189-192 | one append-then-pop keeps the latest 10 entries of the extended list |
| History.RecordSpec | dummy_llm_agent/llm_service.py:187-192 | an empty `last_command` leaves the history as it was; a non-empty one adds exactly one stamped entry, last, ending with the command, and keeps the bound |
| History.RecordedEntryIsRecent | dummy_llm_agent/llm_service.py:141-142 | a command just recorded is the newest entry the next user turn lists |
| History.PushAllKeepsLatest | dummy_llm_agent/llm_service.py:188-192 | after any run of reports the history is the latest 10 entries of everything recorded, in order |
| CommandLog.BuildRecordSpec | dummy_llm_agent/llm_service.py:199-208 | the record says `mock`, and never `gpt-4o-mini`, exactly when there is no client; its session id is its timestamp's date without dashes; it carries the command, the name and role or `Unknown`, the workspace and the delay 15 |
| CommandLog.RowFollowsHeader | dummy_llm_agent/llm_service.py:73-80 | the CSV row has one field per header column, each the dictionary's value for that column; the dictionary has exactly the header's keys; the `delay_after` column reads back as the delay |
| CommandLog.RowIsNotHeader | dummy_llm_agent/llm_service.py:77-80 | no data row, whatever the record, is the header row |
| CommandLog.LoggedSpec | dummy_llm_agent/llm_service.py:63-85 | one call appends the record to the JSONL file unless that write fails, and one CSV row, after the header exactly when the file did not exist, unless a write fails |
| CommandLog.AppendedAllSpec | dummy_llm_agent/llm_service.py:71-80 | N rows appended to a CSV file add at most one header, exactly when the file did not exist and N > 0 |
| CommandLog.LoggedAllSpec | dummy_llm_agent/llm_service.py:63-85 | N calls append the N records to the JSONL file in order and N rows to the CSV file, with one header before them exactly when the file did not exist |
| CommandLog.FreshCsvHasOneHeader | dummy_llm_agent/llm_service.py:71-80 | from no CSV file, N >= 1 calls leave exactly one header row, first, then the N data rows in order |
| Service.DecisionService.constructor | dummy_llm_agent/llm_service.py:29-60 | a client exactly when the API key is non-empty; the profile is the file's when it can be read and `{}` otherwise; the history starts empty; a CSV file that does not exist holds no rows |
| Service.DecisionService.LoadProfile | dummy_llm_agent/llm_service.py:43-54 | a parsed file replaces the profile; a missing or unreadable file leaves it untouched |
| Service.DecisionService.RecordLastCommand | dummy_llm_agent/llm_service.py:186-192 | append, then pop at the front when past 10: the new history is the bounded record of the old one |
| Service.DecisionService.LogCommand | dummy_llm_agent/llm_service.py:63-85 | the two files change as one `log_command_to_file` call changes them, and an absent CSV file still holds no rows |
| CommandLog.LoggedKeepsWellFormed | dummy_llm_agent/llm_service.py:71-80 | whatever fails, an absent CSV file holds no rows, and a file the call creates starts with the header |
| Service.DecisionService.NextCommand | dummy_llm_agent/llm_service.py:180-211 | record the report, generate from the new history, log the record built from the command; the command starts with `cd <workspace>` and the history stays within 10 |

## Left out

- The Flask routes, `jsonify` and the request/response mapping (`/health`, `/reload-npc`, `/history`, the JSON reply of `/next-command` and its 500 path) are not modelled. `NextCommand` takes `last_command` as a string, empty when the request carries none (a GET, or a POST without it).
- The OpenAI client is not modelled. `chat.completions.create` is a function from the request (model, messages, `max_tokens`) to a completion that either raised or answered with a list of possibly absent contents. `temperature=0.8` is a float and is left out.
- Real file I/O is not modelled: `open`, `os.path.exists`, `os.makedirs`, `json.load` and `json.dumps`. The profile file is a `ProfileSource` value. The JSONL file is the list of records it holds. The CSV file is a presence flag and its rows as lists of fields, without `csv` quoting or line endings.
- Log failures are coarse. `LogFault` covers a failure in the JSONL write or at the opening of the CSV file. A failure between the CSV header and the row, and a partial write, are not modelled.
- Profiles that are not JSON objects are not modelled, nor non-string field values. Such a profile is assigned before the `.get` in the log message raises, so it would stay loaded.
- `datetime.now()` is a parameter. Timestamps are limited to years 1000-9999, the range where `%Y` prints four digits on every platform. Days are checked against the month's length, leap years included.
- `random.choice` is modelled as a `MockIndex` argument. `next_command`'s unused `context` argument is left out, as are logging and the startup banner.
- Concurrency under the Flask development server is not modelled. Each request is treated as running alone, as the code has no locks.
- Prompt.SystemPromptEmbedsProfile: states where the profile's fields occur but not where the fixed instructions text occurs. The instructions are in the system prompt as its last piece (`Prompt.PromptPieces`).
- The prefix test in `Command.Normalize` follows the code. The system prompt tells the model "ALWAYS start commands with: cd <workspace> &&" (`dummy_llm_agent/llm_service.py:109`), but the test at `:158` leaves out ` &&`. `Command.NormalizeKeepsSiblingDirectory` shows what the looser test lets through.
- A failure at the CSV file (`:71-72`) leaves the JSONL line already written (`:67-68`). `CommandLog.LoggedSpec` states that case.
- CommandLog.LoggedAllSpec: covers runs where no call fails. A run with failures is described one call at a time by `CommandLog.LoggedSpec`.

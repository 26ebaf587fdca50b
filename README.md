# Conversation memory and extraction checks, modelled in Dafny

This project models the deterministic core of `ConversationM.py`. It has two parts.

- **`ChatHistoryHandler`** is a bounded chat-memory log. Messages are recorded in conversation order. Two views select part of the log: the last N turns, and the longest newest-first suffix that fits a character budget. Once `message_count` reaches a threshold, the whole log is replaced by one `system` entry holding a summary of it. Metrics report message, character, word and turn counts.
- **`DataMiner`** holds the deterministic steps around the language-model calls. It normalises the `age` field of the record the service extracted. It also runs the advisory quality check, which reports warnings but never rejects a record.

Files:

- `wrappers.dfy` (`Wrappers`): `Option` and `Result`.
- `text.dfy` (`Text`): the Python string builtins the core relies on. These are `str.split()`, `re.sub(r'[^\d]', '', s)` and `int(s)`. The module also has the decimal rendering `str(n)` of an integer. Parsing that rendering gives the integer back, so it is a right inverse of `int`. It is not a left inverse: `int("007")` is 7, but `str(7)` is `"7"`.
- `completion.dfy` (`Completion`): the requests sent to the text-completion service.
- `chat_history.dfy` (`ChatHistory`): the log and its views as functions on `seq<Entry>`. The handler's state is a `ChatState` value with two transition functions, `Recorded` and `Compressed`. The class `ChatHistoryHandler` has the source's three mutable fields. Its state-changing methods are proved against those transition functions, and `Valid()` is the invariant they keep.
- `data_miner.dfy` (`DataMiner`): the dynamically typed JSON record, the age normalisation and `check_quality`.

The completion service is a function parameter from a `CompletionRequest` to a `Result`. `Err` carries `str(error)`. For extraction, the reply is the already parsed JSON object, so `Err` also covers a reply that does not parse. Timestamps (`datetime.now().isoformat()`) are opaque string parameters.

A JSON object is an ordered sequence of key/value pairs, in the dict's insertion order. Values are `Null | Bool | Int | Float | Str | List | Dict`. This keeps apart everything the code tests: truthiness, `isinstance(..., int)` (which `bool` also passes), `isinstance(..., str)`, and what `in` means on a string, a list or a dict.

## Behaviour worth knowing (the model follows the code)

- Compression never fails. When the summary call fails, `create_summary` returns `"Couldn't create summary: " + error`. That text is then used to rebuild the log, just like a real summary (ConversationM.py:92-93, 103-112). So once the threshold is reached, the log is always replaced.
- Compression is triggered when `message_count >= threshold`, not only when the count exceeds it. A threshold of zero or less compresses every time, even an empty log. In that case the summary is `"Nothing to summarize yet."` (`NonPositiveThresholdAlwaysCompresses`).
- `fit_to_size(0)` is not always empty. The test `chars_used + size > limit` is strict, so the trailing messages with empty content are kept (`BudgetWindowZero`).
- `keep_recent_turns(0)` on a non-empty log returns the whole log, because `log[-0:]` is the full list. A negative count drops the first `-2k` entries.
- `check_quality` can raise `TypeError` when a truthy email is a number or a bool, or when a truthy phone is not a string. The model returns `Err(TypeError)` for these, instead of assuming every field is a string.

## Model

| member | source | states |
|---|---|---|
| `ChatHistory.ChatHistoryHandler.constructor` | ConversationM.py:19-23 | keeps the given model name (by default `llama-3.1-8b-instant`), starts with an empty log, a zero counter and an empty summary, and satisfies the handler invariant |
| `ChatHistory.ChatHistoryHandler.RecordMessage` | ConversationM.py:25-33 | appends exactly one entry with the given role, content and timestamp at the end; the counter goes up by one; the earlier entries and the last summary are unchanged; the invariant is kept |
| `ChatHistory.Recorded` | ConversationM.py:25-33 | record_message as a state transition: the log gains the new entry last, the counter goes up by one, the summary stays |
| `ChatHistory.ConsistentCounterBound` | ConversationM.py:22-33 | under the invariant the counter is at most the log length, and at most one less |
| `ChatHistory.RecordedKeepsConsistent` | ConversationM.py:25-33 | recording keeps the invariant: the counter equals the log length before any compression, and equals the log length minus the leading summary entry after one |
| `ChatHistory.SliceFrom` | ConversationM.py:42 | Python's `s[start:]` gives a suffix; its length is the clamped distance to the end, counting from the end for a negative `start` |
| `ChatHistory.RecentTurns` | ConversationM.py:35-42 | always a suffix of the log; for k >= 1 of length min(len, 2k); for k = 0 the whole log; for k < 0 the log without its first -2k entries |
| `ChatHistory.ChatHistoryHandler.KeepRecentTurns` | ConversationM.py:35-42 | a suffix of the handler's log; for k >= 1 of length min(len, 2k); for k = 0 the whole log |
| `ChatHistory.RecentTurnsAfterAppend` | ConversationM.py:37-42 | for every k, including 0 and negative counts, after appending messages the new window is a suffix of the old window followed by the new messages |
| `ChatHistory.ChatHistoryHandler.FitToSize` | ConversationM.py:44-59 | returns a contiguous suffix of the log in its original order; its characters fit the limit (the empty window when the limit is negative); it is the whole log, or the next older message would exceed the limit; a limit covering all characters gives the whole log |
| `ChatHistory.BudgetWindowUnique` | ConversationM.py:44-59 | the suffix, budget and maximality conditions determine the window uniquely |
| `ChatHistory.BudgetWindowWhole` | ConversationM.py:44-59 | a limit of at least the total character count keeps the whole log |
| `ChatHistory.BudgetWindowZero` | ConversationM.py:53 | with limit 0 the window is exactly the run of trailing messages with empty content |
| `ChatHistory.LongerSuffixCosts` | ConversationM.py:50-57 | a longer suffix costs at least the shorter one plus the content of the message just before it |
| `ChatHistory.TotalCharsAppend` | ConversationM.py:117 | the character total of two consecutive runs of messages is the sum of their totals |
| `ChatHistory.Line` | ConversationM.py:68 | a transcript line is the role, then `": "`, then the whole content, with nothing cut |
| `ChatHistory.Transcript` | ConversationM.py:67-70 | the `"\n".join` of the lines is empty exactly when there are no messages |
| `ChatHistory.TranscriptEnds` | ConversationM.py:67-70 | the transcript starts with the first message's line and ends with the last message's line |
| `ChatHistory.TranscriptAppend` | ConversationM.py:67-70 | the transcript of two consecutive runs of messages is their transcripts joined by a single newline, in order |
| `ChatHistory.TranscriptLength` | ConversationM.py:67-70 | no truncation: the transcript length is the sum of the `role: content` line lengths plus one newline between each pair of lines |
| `ChatHistory.SummaryRequest` | ConversationM.py:73-87 | the summary request uses the handler's model and the brief-summary instruction; its prompt is `"Summarize this chat:\n\n"` followed by the whole transcript; temperature is 0.3, at most 200 tokens, and there is no JSON mode |
| `ChatHistory.CreateSummary` | ConversationM.py:61-93 | no messages give exactly `"Nothing to summarize yet."`; otherwise the result is the service's reply to the transcript request, or `"Couldn't create summary: "` followed by the error |
| `ChatHistory.ChatHistoryHandler.Summarize` | ConversationM.py:61-93 | with the handler's model: no messages give the sentinel; a failed call gives `"Couldn't create summary: "` followed by the error |
| `ChatHistory.EmptySummaryIgnoresService` | ConversationM.py:63-64 | with no messages the result does not depend on the service, so no request is made |
| `ChatHistory.Compressed` | ConversationM.py:95-112 | below the threshold the state is unchanged; otherwise the log is exactly one `system` entry `"Context from earlier: " + S`, where S is the summary of the whole old log; the last summary becomes S and the counter becomes 0 |
| `ChatHistory.CompressedKeepsConsistent` | ConversationM.py:95-112 | compression keeps the handler invariant |
| `ChatHistory.CompressedIdempotent` | ConversationM.py:97-98 | for a threshold of at least 1, compressing again straight after a compression changes nothing |
| `ChatHistory.NonPositiveThresholdAlwaysCompresses` | ConversationM.py:97-103 | a threshold of 0 or less always leaves a one-entry log; from an empty log the summary is the nothing-to-summarize sentinel |
| `ChatHistory.ChatHistoryHandler.CheckAndCompress` | ConversationM.py:95-112 | below the threshold all three fields are unchanged; otherwise the log becomes the single summary entry, `last_summary` is the summary of the old log and the counter is 0; the invariant is kept |
| `ChatHistory.Metrics` | ConversationM.py:115-127 | total messages is the log length, total characters the sum of content lengths, total words the sum of whitespace-token counts, and turns the log length halved, rounded down |
| `ChatHistory.ChatHistoryHandler.GetChatMetrics` | ConversationM.py:115-127 | the message count, character sum and word sum of the handler's log, and the message count halved, rounded down |
| `ChatHistory.MetricsOfEmptyLog` | ConversationM.py:115-127 | all four metrics are 0 on an empty log |
| `ChatHistory.MetricsAfterRecord` | ConversationM.py:117-124 | recording a message adds one message, its content length in characters and its token count in words |
| `ChatHistory.TotalWordsAppend` | ConversationM.py:118 | the word total of two consecutive runs of messages is the sum of their totals |
| `ChatHistory.WordsAtMostCharacters` | ConversationM.py:117-118 | the word total never exceeds the character total |
| `Text.TokenLength` | ConversationM.py:118 | the leading run of non-space characters, ending at the first space |
| `Text.Split` | ConversationM.py:118 | `str.split()` gives non-empty tokens with no whitespace in them, and no more tokens than characters |
| `Text.TokenLengthAppend` | ConversationM.py:118 | a token that ends inside its text, or at a following space, is unaffected by what comes after |
| `Text.SplitOfWord` | ConversationM.py:118 | a non-empty string without whitespace is a single token |
| `Text.SplitAtSpace` | ConversationM.py:118 | a whitespace character separates: the tokens on its two sides are split independently and concatenated; with `SplitOfWord` this determines the split |
| `Text.WordCount` | ConversationM.py:118 | the number of whitespace-separated tokens is at most the length of the string |
| `Text.SplitLosesOnlySpaces` | ConversationM.py:118 | joined back together, the tokens are exactly the non-space characters of the string, in order |
| `Text.DigitsOnly` | ConversationM.py:221 | `re.sub(r'[^\d]', '', s)` keeps only digits, each taken from `s`, is no longer than `s`, and leaves an all-digit string unchanged; so a single non-digit gives the empty string |
| `Text.DigitsOnlyAppend` | ConversationM.py:221 | removing non-digits works piecewise over concatenation, so every digit keeps its relative position |
| `Text.ParseInt` | ConversationM.py:189 | `int(s)` succeeds exactly on an optional sign followed by digits, with the sign deciding the sign of the result |
| `Text.ParseIntDigit` | ConversationM.py:189 | a single digit parses to its value |
| `Text.ParseIntSnoc` | ConversationM.py:189 | appending a digit to a digit string gives ten times its value plus the digit, so `"007"` is 7 |
| `Text.ParseIntSigned` | ConversationM.py:189 | a leading `-` negates the value of the digits and a leading `+` keeps it, so `"+5"` is 5; with the two lemmas above this fixes the value of every literal |
| `Text.ParseIntOfIntToString` | ConversationM.py:189 | parsing the decimal rendering of any integer gives that integer back |
| `DataMiner.Truthy` | ConversationM.py:209-220 | the falsy values, which skip a quality rule, are exactly `None`, `False`, `0`, `0.0`, `""`, `[]` and `{}` |
| `DataMiner.Keys` | ConversationM.py:205 | the record's keys are listed in insertion order, one per entry |
| `DataMiner.LookupFindsKeys` | ConversationM.py:184 | `key in found_info` holds exactly when the key is one of the record's keys |
| `DataMiner.AssignLookup` | ConversationM.py:185-191 | after `found_info[key] = v`, the key maps to `v` and every other key maps to what it did before |
| `DataMiner.AssignKeys` | ConversationM.py:185-191 | assigning an existing key keeps the key order; a new key is added last |
| `DataMiner.NormalizedAge` | ConversationM.py:184-191 | `""` and `None` become `None`; a string that is an integer literal becomes that integer; any other string becomes `None`; a non-string is left as it is; the result is never a string |
| `DataMiner.NormalizedAgeIdempotent` | ConversationM.py:184-191 | normalising an already normalised age changes nothing |
| `DataMiner.NormalizedAgeOfNumeral` | ConversationM.py:186-189 | an age written as the decimal string of an integer becomes that integer |
| `DataMiner.AgeStringExample` | ConversationM.py:186-189 | the service's `"28"` becomes the integer 28 |
| `DataMiner.NormalizeAge` | ConversationM.py:183-191 | a record without `age` is unchanged; with `age`, the keys and their order are unchanged and `age` holds the normalised value; every other key is untouched |
| `DataMiner.ExtractionRequest` | ConversationM.py:155-177 | the extraction request uses the given model and the extract-user-details instruction; its prompt is `"Extract user information from this conversation:\n\n"` followed by the whole raw chat; temperature is 0.1, there is no token limit, and JSON-object mode is on |
| `DataMiner.MineConversation` | ConversationM.py:152-197 | a failed call or an unparsable reply gives the empty record; otherwise the parsed record comes back with its age normalised and everything else unchanged |
| `DataMiner.PresentKeys` | ConversationM.py:205 | a key is listed exactly when it has a value that is neither `None` nor `""` |
| `DataMiner.PresentKeysAppend` | ConversationM.py:205 | the extracted fields keep the record's order: filtering works piecewise over concatenation |
| `DataMiner.AllFilledAllPresent` | ConversationM.py:205 | when every value is filled, the extracted fields are all the keys, in order |
| `DataMiner.EmailCheck` | ConversationM.py:209-211 | no email or a falsy one never warns; a string email warns exactly when it is non-empty and lacks `@` or `.`; a truthy list email warns exactly when `"@"` or `"."` is not one of its items, and a truthy dict email when either is not one of its keys; a truthy number or bool raises `TypeError` |
| `DataMiner.AgeSuspicious` | ConversationM.py:214-217 | only a truthy age warns; an int warns exactly when below 0 or above 150; a bool never warns; any other type warns exactly when truthy |
| `DataMiner.PhoneCheck` | ConversationM.py:220-223 | no phone or a falsy one never warns; a string phone warns exactly when it is non-empty and its digit count is below 7 or above 15; a truthy non-string raises `TypeError` |
| `DataMiner.Warnings` | ConversationM.py:208-223 | the warnings list of a record whose checks do not raise holds only the three fixed warning texts; `WarningsShape` says which ones and in what order |
| `DataMiner.WarningsShape` | ConversationM.py:208-223 | each warning is present exactly when its rule fires, at most once, in the order email, age, phone, and so there are at most three |
| `DataMiner.ZeroAgeNeverWarns` | ConversationM.py:214 | an age of 0 is falsy and never checked |
| `DataMiner.AllThreeWarnings` | ConversationM.py:208-223 | the email `bad-email`, the age 200 and the phone `123` draw all three warnings, in order |
| `DataMiner.CheckQuality` | ConversationM.py:199-225 | raises only for a numeric email or a non-string phone; otherwise `is_valid` is true, `errors` is empty, the warnings follow the three rules and `extracted_fields` lists the filled keys |

## Left out

- The Groq/OpenAI client, credentials and network calls (ConversationM.py:9-14, 73-89, 155-180) are foreign, networked code. The service is a parameter. Its fixed system instructions are represented by the tags `SummarizeBriefly` and `ExtractUserDetails`, not by their text.
- `json.loads` (ConversationM.py:181) is library code. The extraction service returns an already parsed object, or an error that stands for every failure the outer `except` turns into `{}`. A reply that parses to something other than an object is not modelled.
- A summary reply whose content is `None` is not modelled. Python would render it as `"None"` in the log.
- Timestamps are opaque strings supplied by the caller, not wall-clock time.
- Console output (`print` in `check_and_compress`, `show_chat`, ConversationM.py:100, 113, 129-144) is not modelled.
- The demo drivers, their floating-point success percentages and `main` (ConversationM.py:227-425) are not modelled.
- `Text.Split`: uses the whitespace set of Python's `str.isspace`, listed explicitly. There is no other Unicode handling.
- `Text.DigitsOnly`: `\d` is ASCII `0`-`9` here. Python also matches other Unicode decimal digits.
- `Text.ParseInt`: accepts only an optional sign followed by ASCII digits. Python's `int()` also strips surrounding whitespace, accepts underscores between digits and accepts other Unicode digits. Those strings become `None` in the model.
- `DataMiner.Lookup` and `DataMiner.Assign` act on the first entry with a key. A Python dict has no duplicate keys, so this is the same for every dict.
- The value-semantics record: `found_info` is a fresh local dict that is mutated in place. The model reassigns a local record instead, which is equivalent because nothing else refers to the dict.
- `keep_recent_turns` returns the handler's own `chat_log` list when the log is short (ConversationM.py:39-40), so a caller that mutates the result changes the handler. The model returns a value, so this aliasing is not captured.
- Shared entries are not captured either. The slice in `keep_recent_turns` (ConversationM.py:42) and the `insert(0, msg)` in `fit_to_size` (ConversationM.py:56) both return the log's own entry dicts. So a caller that changes `result[i]["content"]` also changes the handler's log. The model's `Entry` is an immutable value. The core never changes an entry after recording it, so nothing the model states depends on this.
- `Text.ParseInt`: has no length limit. Python 3.11 and later raise `ValueError` on digit strings longer than 4300 characters, which would make the age `None`.
- The `DataMiner` class holds only its model name (ConversationM.py:149-150). The model passes that name to `MineConversation` as a parameter, with no default.

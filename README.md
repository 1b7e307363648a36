# Task prioritizer: a Dafny model

This project models the logic core of an AI task-prioritization app. It also proves properties of that model. The core has two parts.

**The pipeline** is in `task_prioritizer.py`. A user types a list of tasks. A four-node graph then processes them:
- `parse_tasks` asks a language model to turn the text into task objects;
- `prioritize_tasks` asks it to score them, coerces the fields and sorts the records by score;
- `format_output` asks it to present the result;
- `handle_errors` reports the errors collected along the way.

A router picks the next node from the state.

Each model reply goes through the same steps:
1. The JSON text is located: the first code fence, else the first array of objects, else the whole reply.
2. It is decoded.
3. If decoding fails, the text is repaired once and decoded again.

**The analytics** are in `supabase_client.py`. `get_task_stats` aggregates a user's stored tasks:
- counts and importance buckets;
- tasks grouped by due date;
- a per-creation-date tally, with the dates sorted.

`get_tasks_by_date` filters the tasks by due date.

Modules:
- `Wrappers`: `Option` and `Result`.
- `Text`: Python's string primitives used by the core. These are `strip`, `split`, `join`, `find`, slicing and `#(\w+)` hashtags.
- `JsonValue`: decoded values, `type(v)` names, `dict.get`, and what `for x in v` iterates over.
- `Extraction`: the fence and array searches as concrete scanners, the repair rewrites, and decode-then-retry.
- `Records`: the task record and the per-field coercion of tags and scores.
- `Sorting`: the in-place stable descending sort. It is an insertion sort on an `array`, proved non-increasing, a permutation, and stable. A separate lemma shows that these three properties determine the result uniquely.
- `Pipeline`: the state, the nodes, the router, the graph and the executor loop. The executor walks the graph from `parse_tasks` to END and collects one step per node.
- `Analytics`: the statistics over a task list that is passed in. The loops that mutate dictionaries are methods. Each is proved equal to a fold function, and the lemmas are stated about the folds.

The nodes are modelled as methods because the source builds its lists with loops and sorts in place:
- A node's loop is proved against a ghost predicate that describes the new state (`ParseTasksDone`, `PrioritizeTasksDone`).
- Shape lemmas then give the facts the router relies on.

## Model

| member | source | states |
|---|---|---|
| Pipeline.Router | task_prioritizer.py:278-290 | The router goes to `handle_errors` exactly when `errors` is non-empty, whatever the step. Otherwise it goes to `prioritize_tasks` exactly when the step is `"tasks_parsed"`, to `format_output` exactly when it is `"tasks_prioritized"`, and to END for any other step, `""` included. It never returns the entry node. |
| Pipeline.HandleErrors | task_prioritizer.py:293-299 | Only `output` changes, and it starts with `"The following errors occurred:\n"`. |
| Pipeline.HandleErrorsListsErrors | task_prioritizer.py:296-297 | Take the output of `handle_errors` after the banner and cut it at `\n`. This gives back exactly the error list, in the order the errors were added, provided there is at least one error and none contains a newline. A decode-failure message contains `"\nRaw content: "`, so this lemma does not cover states holding one. |
| Pipeline.FormatOutput | task_prioritizer.py:255-275 | The node fails exactly when the model call fails. Otherwise the reply becomes `output` verbatim, the step becomes `"output_formatted"`, and nothing else changes. |
| Pipeline.ParseItems | task_prioritizer.py:102-133 | Either the first element that is not a dict is reported, or every element is a dict and there is one parsed record per element, in order. |
| Pipeline.ParseExtracted | task_prioritizer.py:61-140 | A decode failure, a top level that is not a list and the first non-dict element each append one message with the exact `"Failed to parse tasks: "` text. Otherwise `tasks` holds one record per element, in order, `current_step` becomes `"tasks_parsed"`, and nothing else changes. |
| Pipeline.ParseTasks | task_prioritizer.py:37-142 | Empty input appends exactly `"No tasks provided."` and changes nothing else. Otherwise a model failure escapes the node with its own error, and on success the new state is the one `ParseExtracted` describes for the extracted reply. |
| Pipeline.ParseTasksDoneShape | task_prioritizer.py:97-140 | Either the errors are unchanged and the step is `"tasks_parsed"`, or exactly one error is appended. That error starts with `"Failed to parse tasks: "`, and `tasks` and `current_step` are left as they were. |
| Pipeline.BuildRecords | task_prioritizer.py:211-239 | Either the first element that is not a dict is reported, or the result is the sequence of prioritized records, one per element, in order. |
| Pipeline.PrioritizeExtracted | task_prioritizer.py:173-250 | Failures append one `"Failed to prioritize tasks: "` message: a decode failure, a value that cannot be iterated, or a non-dict element. Otherwise `prioritized_tasks` is the built records sorted by descending score, stably and as a permutation, the step becomes `"tasks_prioritized"`, and nothing else changes. |
| Pipeline.PrioritizeTasks | task_prioritizer.py:145-252 | Empty `tasks` appends exactly `"No tasks to prioritize."`. Otherwise a model failure escapes the node, and on success the state is the one `PrioritizeExtracted` describes. |
| Pipeline.PrioritizeTasksDoneShape | task_prioritizer.py:241-250 | Either the errors are unchanged, the step is `"tasks_prioritized"` and the scores never increase, or exactly one `"Failed to prioritize tasks: "` error is appended and the rest is kept. |
| Pipeline.RunNode | task_prioritizer.py:307-310 | A successful run of a node returns exactly the state that node's own contract describes (`NodeResult`): `ParseExtracted`'s state for the extracted reply, `PrioritizeExtracted`'s state, `format_output`'s state or `handle_errors`'s state, and the empty-input messages. A failure is the failure of a model call, and `handle_errors` never fails. It also gives the per-node facts the walk uses, such as the new step, the error count and the sorted output. |
| Pipeline.RunTaskPrioritizer | task_prioritizer.py:313-346 | See the note after this table. |
| Extraction.FindFence | task_prioritizer.py:72 | `re.search` with the fence pattern returns the leftmost match. The optional `json` is taken, `\s*` is greedy, and the lazy group ends before the first closing fence and leaves its trailing white space out. There is no match exactly when no placement of the pattern fits. |
| Extraction.Candidate | task_prioritizer.py:72-80 | With a code fence, the candidate is the fence's lazy group; the `.strip()` removes nothing from it. With no fence and an array of objects, it is the array match. With neither, it is the whole reply. |
| Extraction.FindArray | task_prioritizer.py:78 | `re.search` with `\[\s*{[\s\S]*}\s*\]` returns the leftmost match, and of the matches there the longest. There is no match exactly when no placement fits. |
| Extraction.ReplaceQuotes | task_prioritizer.py:87 | Every `'` becomes `"` and every other character is kept, so no `'` remains. |
| Extraction.KeyAt | task_prioritizer.py:88 | At each position the key pattern `([{,])\s*(\w+)\s*:` has at most one match, and this function finds it. |
| Extraction.QuoteKeysNoKey | task_prioritizer.py:88 | The key rewrite leaves text without a bare-word key unchanged. |
| Extraction.RepairRemovesSingleQuotes | task_prioritizer.py:87-88 | Repaired text holds no `'`. |
| Extraction.RepairUnchanged | task_prioritizer.py:87-88 | Text with no `'` and no bare-word key is left unchanged by the repair. |
| Extraction.QuoteKeysAtKey | task_prioritizer.py:88 | At a match of `([{,])\s*(\w+)\s*:` the rewrite emits the delimiter, the word in double quotes and `:`, drops the spaces, and resumes after the colon. |
| Extraction.RepairBareKey | task_prioritizer.py:87-88 | The repair turns `{w: 'x'}` into `{"w": "x"}` for every word `w` and every text `x` with no quote, brace or comma. |
| Extraction.Extract | task_prioritizer.py:83-95 | A decoded value comes from the strict decode of the candidate or from the decode of its repair. |
| Extraction.ExtractOutcome | task_prioritizer.py:83-95 | A successful strict decode is final. After a failed strict decode, a successful decode of the repair is the result. Extraction fails exactly when both decodes fail, and the failure carries the first decode error and the candidate. When there is nothing to repair, the retry cannot change the outcome. |
| Extraction.ParseFailureQuotesPrefix | task_prioritizer.py:94 | The failure message quotes a prefix of the candidate of at most 100 characters, followed by `...`. |
| Records.CommaFields | task_prioritizer.py:114 | Each field is non-empty, comma-free, and has no white space at either end. |
| Records.ParseTags | task_prioritizer.py:109-123 | A list is kept. A value that is neither a list nor a string gives `[]`. A string with a comma gives the same trimmed non-blank fields as in `prioritize_tasks`. A string without a comma gives at least one string tag: itself when no `#` is followed by a word character, and otherwise only non-empty words. |
| Records.ParseTagsHashtags | task_prioritizer.py:117-119 | The tags of the text `#w1 #w2 ...` are exactly the words, in order. |
| Records.PrioritizeTags | task_prioritizer.py:224-230 | A list is kept and any other non-string value gives `[]`. A string gives only non-empty, comma-free strings with no white space at either end. |
| Records.CommaTagsRoundTrip | task_prioritizer.py:113-114 | Joining at least two clean tags with commas and coercing the string gives the tags back. Both nodes agree on this. |
| Records.ParsedRecord | task_prioritizer.py:125-131 | A parsed record has importance `""` and score 0.0. |
| Records.PrioritizedRecordDefaults | task_prioritizer.py:217-238 | A missing score becomes 0. An int, a float or a bool keeps its numeric value. A string becomes its parsed number, or 5.0 when `float` raises `ValueError`. A null, list or dict makes `float` raise `TypeError` and gives 5.0. A missing importance or description becomes `""`. |
| Records.RecordFieldsStored | task_prioritizer.py:125-132 | Both record builders take `description` and `due_date`, and the prioritized one also `importance`, from the first field with that key, or `""` when there is none. The same holds at lines 232-238. |
| JsonValue.GetFirst | task_prioritizer.py:109 | `dict.get` returns the default when the key is absent. Otherwise it returns the value of the first field with that key. |
| JsonValue.Elements | task_prioritizer.py:212 | `for` iterates over a list's items, and over a dict's keys and a string's characters (each a string, as many as there are). Any other value cannot be iterated. |
| Sorting.InsertLast | task_prioritizer.py:242 | One insertion pass extends the sorted prefix by one element. It keeps the multiset of records and the order within each score group. |
| Sorting.SortByScore | task_prioritizer.py:242 | `.sort(key=score, reverse=True)` in place leaves the scores non-increasing, is a permutation of the input, and keeps the original order of records with equal scores. |
| Sorting.StableSortUnique | task_prioritizer.py:242 | Two non-increasing sequences with the same score groups are equal. So the three properties above determine Python's stable sort exactly. |
| Text.Strip | task_prioritizer.py:75 | The result is a slice of the input with only white space cut on either side, and neither end of it is white space. |
| Text.Split | task_prioritizer.py:114 | `split` gives at least one part, no part contains the separator, and joining the parts gives the string back. |
| Text.SplitJoin | task_prioritizer.py:296 | Splitting a join gives the parts back, when no part contains the separator. |
| Text.Hashtags | task_prioritizer.py:117 | Each `#(\w+)` capture is a non-empty run of word characters. There is none exactly when no `#` is followed by a word character. |
| Text.HashtagsOfText | task_prioritizer.py:117 | `re.findall(r'#(\w+)', ...)` on `#w1 #w2 ...` gives back exactly the words, in order. |
| Text.Take | task_prioritizer.py:94 | `s[:n]` is a prefix of length `min(len(s), n)`. |
| Analytics.CountCompleted | supabase_client.py:461 | The count is at most the number of tasks. It is 0 exactly when none is completed, and all of them exactly when all are completed. |
| Analytics.CountImportance | supabase_client.py:466-470 | The count is at most the number of tasks, and 0 exactly when no task has that level. |
| Analytics.ImportanceCountsBounded | supabase_client.py:466-470 | The High, Medium and Low counts sum to at most the number of tasks. |
| Analytics.CompletionRate | supabase_client.py:463 | The rate is 0 with no tasks, equals `100 * completed / total` otherwise, and lies between 0 and 100. |
| Analytics.TasksDueOn | supabase_client.py:538 | Every kept row is due on the date, and the filter is never longer than its input. |
| Analytics.TasksDueOnExactly | supabase_client.py:538 | The filter holds every task due on the date as often as it occurs, and nothing else. |
| Analytics.TasksDueOnAppend | supabase_client.py:538 | The filter of a concatenation is the concatenation of the filters, so the input order is kept. |
| Analytics.GetTasksByDate | supabase_client.py:533-541 | A failed fetch gives `[]`. Otherwise a task is in the result exactly when it was fetched and is due on the date. |
| Analytics.DueDates | supabase_client.py:473-479 | The bucket keys are exactly the non-empty due dates that occur. |
| Analytics.DateKeyPrefix | supabase_client.py:485 | The date key is a prefix of `created_at` that holds no `T` and ends at the first `T`. |
| Analytics.DateKeyIsSplitHead | supabase_client.py:485 | The date key equals `created_at.split('T')[0]`. |
| Analytics.CreationDatesMembers | supabase_client.py:483-491 | A date is tallied exactly when it is the non-empty date key of some task. |
| Analytics.SortDates | supabase_client.py:494 | `sorted` on distinct keys gives an ascending sequence with the same members. |
| Analytics.FileTask | supabase_client.py:475-479 | Filing one task updates the buckets by that task alone. |
| Analytics.FileRowKeeps | supabase_client.py:474-479 | Filing the next task keeps the buckets equal to the filter over the longer prefix. |
| Analytics.GroupByDueDate | supabase_client.py:473-479 | The loop's buckets are keyed by exactly the non-empty due dates. Each bucket is the in-order filter of the tasks due on that date. |
| Analytics.TallyOfKeys | supabase_client.py:483-491 | The tally has an entry for every non-empty creation date and for nothing else. |
| Analytics.TallyOfValue | supabase_client.py:483-491 | The entry for a date holds the number of tasks created on it and the number of those that are completed. |
| Analytics.FirstSeenKeys | supabase_client.py:487-488 | The insertion order lists each key of the tally exactly once. |
| Analytics.CountRow | supabase_client.py:485-491 | One pass of the loop body adds exactly that task to the tally and to the key order. |
| Analytics.TallyByCreation | supabase_client.py:483-491 | The loop fails exactly when some `created_at` is NULL. Otherwise it computes the tally fold and the first-seen key order. |
| Analytics.Chart | supabase_client.py:494-499 | `dates` is ascending and holds exactly the tally's keys. `total` and `completed` run parallel to it, each entry read from the tally. |
| Analytics.GetTaskStats | supabase_client.py:455-520 | See the note after this table. |
| Analytics.TalliedCountsKeyed | supabase_client.py:485-489 | Summing the per-date counts over a list that holds every date once counts each task with a non-empty date key exactly once. |
| Analytics.StatsConsistent | supabase_client.py:460-499 | See the note after this table. |
| Analytics.BucketsPartitionDueRows | supabase_client.py:473-479 | A task with a non-empty due date is in that date's bucket and in no other. |

The longer contracts:
- **Pipeline.RunTaskPrioritizer.**
  - The walk starts at `parse_tasks` and follows the graph's edges (lines 313-317): the router after parsing and prioritizing, END after the two terminal nodes. It runs one of three paths: parse then handle_errors; parse, prioritize, handle_errors; or parse, prioritize, format. Its last node leads to END.
  - Each collected state is what its node returned (`RanNodes`). The first node ran on the initial state of lines 328-335, which holds only the caller's input, and each later node ran on the state its predecessor returned.
  - A failure is a model failure.
  - The final state has the caller's input.
  - The final state reports errors exactly when the run ended in `handle_errors`. In that case there is exactly one error, and the output is the banner followed by that error.
  - A run ending in `format_output` has the model's reply as output and scores that never increase.
  - Empty input gives parse then handle_errors, with the single error `"No tasks provided."`.
- **Analytics.GetTaskStats.**
  - A failed fetch or a NULL `created_at` gives the all-zero fallback.
  - Otherwise the totals, counts, open tasks, rate and importance buckets are as computed.
  - The due-date buckets are the in-order filters, keyed by the non-empty due dates.
  - `completion_data` lists the creation dates ascending, with the per-date totals and completed counts.
- **Analytics.StatsConsistent.**
  - The counts satisfy `completed <= total`, `open >= 0` and `0 <= rate <= 100`.
  - The three importance counts sum to at most the total.
  - The dates are strictly ascending and contain no duplicates.
  - `completed[i] <= total[i]`.
  - `sum(total)` is the number of tasks with a non-empty date key.

## Left out

- The language model (`llm.invoke`, task_prioritizer.py lines 59, 171 and 271) is a network service. It is the parameter `llm`, a function from the request a node sends to the reply text or the error it raised. The prompt texts are not modelled; a request carries only the data the node interpolates.
- `json.loads` is the parameter `decode` and Python's `float(str)` is the parameter `floatOf`. Their internals are library code.
- The traceback and `debug_info` text are not modelled, because they depend on the interpreter. The tracebacks are appended to node errors (lines 137-139 and 247-249), and `debug_info` to decode failures (line 94). Messages keep their exact prefix and the `str(e)` part.
- The caller's handling of the output is not modelled. This covers LangGraph's `StateGraph`, `compile` and `stream`, the probing of stream output shapes (lines 348-377), and the streamlit session storage (lines 380-382). The walk is an explicit executor over a node enum, and each collected step is the node with the state it returned.
- The error list is shared by aliasing. The shallow `state.copy()` makes a node's appended error also appear in the list of the state it received. States here are values, so this sharing is not modelled. The executor never reads an old state again.
- The database fetch (`get_all_tasks`) is the parameter `fetched`, a result holding a task list or an error. The Supabase I/O and authentication are not modelled.
- Analytics.CompletionRate: the model uses exact real division. The source uses float division, with its rounding, and returns the integer 0 when there are no tasks.
- Analytics.GroupByDueDate: `tasks_by_date` is a map, so the order of its keys (first appearance) is not modelled. The order of the creation dates is modelled (`FirstSeen`).
- In the regular expressions, `\w` is ASCII letters, digits and `_`, while Python's `\w` accepts all Unicode word characters. `\s` and `str.strip` use Python's full white-space set.
- Three behaviours of the code that a reader might not expect are modelled as the code has them:
  - `prioritize_tasks` does not check that the decoded value is a list. A dict or a string is iterated, and every element is then a string, so a non-empty one fails as "not a dictionary".
  - In `parse_tasks` an empty tag string becomes `[""]`, because the last rule keeps the whole string.
  - A failing model call is not turned into an error entry. `llm.invoke` sits outside the `try` (lines 59 and 171), so the failure ends the run.
- Records.CoerceScore, Sorting.SortByScore and the `Float` case of `JsonValue.Json` use exact reals, not IEEE doubles. So the model does not cover:
  - the `NaN` and `Infinity` values `json.loads` accepts, nor how `sort` orders records with `NaN` keys;
  - the `OverflowError` that `float()` raises on a huge integer, which the handler at line 221 does not catch, so the run would end;
  - the rounding of `float(int)` and of decoded numbers.
- JsonValue.GetFirst: a decoded object is a list of fields, and its keys are not required to be distinct. `Get` returns the first field with the key. Python's `json.loads` keeps the last duplicate, so the two agree only on objects with distinct keys.
- `format_output`, `router` and the graph are modelled completely. The UI, storage modules, launchers, HTTP layer and graph rendering are outside the core.

# Walter Meeting AI — a Dafny model of the meeting pipeline

Walter Meeting AI turns the audio of a meeting into a report in five stages:

1. a **transcriber** turns the audio into text;
2. an **analyzer** splits the text into sentences, classifies them as questions, objectives or tasks, pairs questions with answers and scores sentiment;
3. a **summarizer** builds an extractive summary, key points, a question/answer section and an objectives section;
4. a **tracker** mints objectives and tasks with due dates, assignees and links between them;
5. a **planner** groups the tasks under objectives and lays them out as Gantt data.

A **coordinator** runs the five stages over one audio file and keeps one job record per meeting. Around the pipeline sit:

- the Task, Meeting and Timeline models;
- an in-memory message bus;
- a set of regular-expression helpers;
- the speaker grouping of the transcription view.

This project restates each of these as immutable Dafny datatypes and pure functions. Everything the code gets from outside becomes a parameter:

- the clock and the `uuidv4` generator;
- the tokenizers, the intent classifier and TF-IDF;
- the speech backends and the remote AI service.

Dates are integer day numbers. `dates.dfy` carries JavaScript's month and day overflow rules.

Each module proves the properties the code promises:

- the coordinator's status and step rules;
- the planner's partition of tasks into buckets, and its dependency chain;
- the tracker's due-date and assignee parsing, and its linking;
- the analyzer's and summarizer's selection rules;
- the transcriber's backend cascade;
- acyclicity of timeline dependencies;
- the Task JSON round trip;
- the message bus invariants;
- completeness and order of the entity scanners;
- run-length speaker grouping.

Files: `wrappers.dfy`, `text.dfy`, `config.dfy`, `dates.dfy`, `sorting.dfy` and `sequences.dfy` are shared helpers. Each remaining file models one source file.

## Model

| member | source | states |
|---|---|---|
| Coordinator.ProcessMeeting | src/core/coordinator.js:37-278 | one fresh id is drawn per call; the record returned is the record stored under that id, and nothing else in the results map changes |
| Coordinator.ResultReadsBack | src/core/coordinator.js:46-56 | after `processMeeting`, `getMeetingResult` on the new id returns the record the call returned, and every other id reads as before |
| Coordinator.MissingFileFails | src/core/coordinator.js:42-44 | a missing audio file leaves a single `failed` record with an error and no `steps` field under a fresh id, and no agent is called |
| Coordinator.StartsProcessing | src/core/coordinator.js:46-65 | with the file present, the transcriber is called first, while the map holds a fresh `processing` record with empty steps and no error |
| Coordinator.StatusSetOnce | src/core/coordinator.js:84-88 | every snapshot taken at an agent call says `processing`; the job ends `completed` without error exactly when transcription gave text and analysis succeeded, and `failed` with an error otherwise |
| Coordinator.SnapshotsHoldEarlierSteps | src/core/coordinator.js:59-228 | the agents are called in pipeline order, each while the record holds exactly the steps of the agents called before it |
| Coordinator.TranscriptionFailureStops | src/core/coordinator.js:82-108 | a transcription that returns failure or throws fails the job with the `Falló la transcripción: ` or `Excepción durante la transcripción: ` prefix; only `transcription` is recorded and only the transcriber is called |
| Coordinator.AnalysisFailureStops | src/core/coordinator.js:113-150 | a transcription without text, or an analysis that fails or throws, fails the job with exactly the steps `transcription` and `analysis`; summary, tracking and planning are never called |
| Coordinator.CompletesAfterAnalysis | src/core/coordinator.js:152-262 | once analysis succeeds the job ends `completed` with the five step keys in pipeline order, whatever summary, tracking and planning do |
| Coordinator.StageFallbacks | src/core/coordinator.js:188-248 | a thrown tracking error records an unsuccessful step with no objectives and no tasks; the planner receives the tracked objectives and tasks only when tracking succeeded; a thrown planning error records the contingency plan tagged `error-fallback` |
| Coordinator.Contingency | src/core/coordinator.js:234-243 | the contingency plan ends 30 days after it starts and has no objectives, no unassigned tasks and empty Gantt data |
| Coordinator.PlanningInput | src/core/coordinator.js:215-216 | the planner's inputs are the tracked objectives and tasks, converted one for one, when tracking succeeded, and two empty lists otherwise |
| Coordinator.GetMeetingResult | src/core/coordinator.js:285-291 | succeeds exactly for a stored id and returns its record; otherwise fails with `Resultado no encontrado para la reunión: <id>` |
| Coordinator.AllMeetingResults | src/core/coordinator.js:297-299 | the stored records, one per id, in insertion order |
| Coordinator.StoreKeepsIndexed | src/core/coordinator.js:56 | `results.set` keeps the insertion order a duplicate-free list of exactly the stored ids; only a new id adds an entry |
| Planner.DefaultDuration | src/agents/planner/index.js:14 | the configured duration when it is truthy, 14 otherwise |
| Planner.EndDate | src/agents/planner/index.js:174-192 | the latest due date when some task has one, and otherwise today plus the default duration |
| Planner.LatestDue | src/agents/planner/index.js:177-184 | absent exactly when no task is dated; otherwise the due date of some task, and no task is due later |
| Planner.Owner | src/agents/planner/index.js:209-219 | the index of the first objective whose `relatedTasks` lists the task, or none when no objective does |
| Planner.Organize | src/agents/planner/index.js:198-228 | the buckets are keyed `unassigned` plus one key per objective id |
| Planner.OrganizeBuckets | src/agents/planner/index.js:198-228 | when objective ids are distinct and none is `unassigned`, each objective's bucket holds exactly the tasks it owns, in task order, and `unassigned` holds the tasks no objective claims |
| Planner.BucketsPartition | src/agents/planner/index.js:209-225 | the unassigned bucket and the objectives' buckets together are a permutation of the tasks: each task lands in exactly one bucket |
| Planner.GanttOrder | src/agents/planner/index.js:240-244 | the sorted order is a permutation of the tasks with every dated task before every undated one, and the dated ones by ascending due date |
| Planner.Progress | src/agents/planner/index.js:274 | progress lies in [0, 1] and is complete exactly for a `DONE` task |
| Planner.Schedule | src/agents/planner/index.js:248-276 | a Gantt entry keeps the task's id and text and spans 3 days; a dated task ends on its due date, an undated task at index i starts 2i days after the plan start, and a blank assignee becomes `Sin asignar` |
| Planner.Chain | src/agents/planner/index.js:278-286 | max(n − 1, 0) dependencies, where dependency i links sorted task i to sorted task i + 1 |
| Planner.GanttDataSpec | src/agents/planner/index.js:234-292 | the Gantt data schedules some admissible order entry by entry, and every dependency points from entry i to entry i + 1, so the chain only points forward |
| Planner.GanttData | src/agents/planner/index.js:234-292 | one Gantt entry per task, and one dependency fewer than there are tasks (none for no tasks) |
| Planner.GanttCoversTasks | src/agents/planner/index.js:247-276 | the Gantt entries carry exactly the ids of the input tasks |
| Planner.GenerateGanttChart | src/agents/planner/index.js:120-147 | a missing or empty task list is rejected with its message; otherwise there is one entry per task and one dependency fewer |
| Planner.LocalPlan | src/agents/planner/index.js:61-88 | the local plan starts today, ends on `EndDate`, mirrors the objectives' ids and texts in order, and carries the Gantt data of the tasks |
| Planner.LocalPlanBuckets | src/agents/planner/index.js:81-86 | with separate objective keys, each plan objective holds its own bucket of tasks and `unassignedTasks` holds the rest |
| Planner.PlanObjectives | src/agents/planner/index.js:81-85 | one plan objective per input objective, with the same id and text, holding its bucket or `[]` |
| Planner.CreatePlan | src/agents/planner/index.js:24-113 | missing objectives or tasks give the error and store nothing; the remote plan is returned, tagged `openai`, exactly when there is a transcription, the key is configured and the remote call succeeded; otherwise the local plan is built under a fresh id and stored |
| Planner.CreatedPlanIsStored | src/agents/planner/index.js:33-91 | a plan that `createPlan` returned is read back by `getPlan` under its id |
| Planner.GetPlan | src/agents/planner/index.js:154-160 | succeeds exactly for a stored id; otherwise fails with `Plan no encontrado: <id>` |
| Tracker.FindDate | src/agents/tracker/index.js:175-185 | the position found lies in the text and the date pattern matches there |
| Tracker.FindDateLeftmost | src/agents/tracker/index.js:185 | `match` finds nothing exactly when the pattern matches nowhere, and no match lies before the one it finds |
| Tracker.DayWidth | src/agents/tracker/index.js:175 | the day group is 1 or 2 digits and is followed by a separator and a digit, with the backtracking of `\d{1,2}` worked out |
| Tracker.FullYear | src/agents/tracker/index.js:189-192 | a year below 100 means 2000 + year, a larger year stands as written, and a missing year is the current one |
| Tracker.DueDateWithoutDate | src/agents/tracker/index.js:196-197 | without a "next week"/"next month" phrase and without any date, the task is due 14 days from today |
| Tracker.DueDateFromLeftmostDate | src/agents/tracker/index.js:184-194 | without the phrases, the due date is the day written at the leftmost position where the date pattern matches |
| Tracker.WrittenDueDate | src/agents/tracker/index.js:185-194 | a text that writes `D/M/Y` after digit-free text is due on that day, with a two-digit year read as 20YY, and day and month overflowing as `new Date` does |
| Tracker.ReadWrittenDate | src/agents/tracker/index.js:185-190 | a date written as decimals after digit-free text is found at that position and read back as the day, month and year written |
| Tracker.CaptureAt | src/agents/tracker/index.js:210 | a captured name is never empty (the lazy group takes at least one character) |
| Tracker.NoPhraseUnassigned | src/agents/tracker/index.js:208-218 | a text containing none of "asignado a", "assigned to", "responsable" (in any case) has assignee `Sin asignar` |
| Tracker.AssignedNameRoundTrip | src/agents/tracker/index.js:210-214 | a name made of letters and spaces written after "asignado a " and running to the end of the text is returned trimmed |
| Tracker.CommonWords | src/agents/tracker/index.js:230-238 | every shared word is longer than three characters and occurs among the objective's words, and there are at most as many as the task has words |
| Tracker.CommonWordsCount | src/agents/tracker/index.js:230-238 | the shared words are exactly the task's words longer than three characters that occur among the objective's words, each kept as often as it occurs in the task |
| Tracker.RelateTask | src/agents/tracker/index.js:224-254 | the task id is appended to every objective sharing at least two such words, with no early exit, and every other objective is unchanged |
| Tracker.RelateAllSpec | src/agents/tracker/index.js:56-75 | after linking all tasks, each objective's `relatedTasks` is exactly the ids of the tasks related to it, in task order |
| Tracker.RelatedIdsFromTasks | src/agents/tracker/index.js:240-251 | every related id is the id of a task of the same call, and distinct task ids give a duplicate-free list |
| Tracker.MintObjectives | src/agents/tracker/index.js:38-53 | one `PENDING` objective per analysis objective, with a fresh id, its text, the call's timestamp and meeting id, and no related tasks |
| Tracker.MintTasks | src/agents/tracker/index.js:56-71 | one `TODO` task per analysis task, with a fresh id, its text, the call's timestamp and meeting id, and the due date and assignee read from its text |
| Tracker.TextReading | src/agents/tracker/index.js:65-66 | the agent reads each task's due date with `_estimateDueDate` and its assignee with `_extractAssignee` |
| Tracker.StoreAll | src/agents/tracker/index.js:50-69 | `map.set` for each entry in turn: the keys are the old keys plus the new ones, and keys not set again keep their values |
| Tracker.StoreAllFinds | src/agents/tracker/index.js:50-69 | with distinct keys, every entry stored is found under its key |
| Tracker.TrackObjectives | src/agents/tracker/index.js:38-53 | each objective of the record is minted from its analysis objective and lists the ids of the tasks related to it |
| Tracker.TrackTasks | src/agents/tracker/index.js:56-75 | each task of the record is minted from its analysis task, with ids drawn after the objectives' ids |
| Tracker.TrackMeeting | src/agents/tracker/index.js:23-101 | a missing analysis fails with its message and changes nothing; otherwise the result is the tracking record, and both maps gain its objectives and tasks |
| Tracker.TrackIds | src/agents/tracker/index.js:38-75 | with a generator that never repeats, all ids are distinct, and `relatedTasks` holds only ids of tasks from the same call, each at most once |
| Tracker.Track | src/agents/tracker/index.js:38-75 | the record carries the meeting id and timestamp, one objective per analysis objective and one task per analysis task |
| Tracker.TrackMeetingStores | src/agents/tracker/index.js:50-69 | after `trackMeeting` the agent finds every returned objective and task under its id |
| Tracker.TrackMeetingReadsTasks | src/agents/tracker/index.js:56-71 | every returned task has status `TODO` and carries the due date and assignee read from its own text |
| Tracker.UpdateTaskStatus | src/agents/tracker/index.js:109-125 | an unknown id throws `Tarea no encontrada`; a status outside TODO, IN_PROGRESS, DONE, BLOCKED throws `Estado no válido`; otherwise only `status` and `updatedAt` of that task change |
| Tracker.UpdateObjectiveStatus | src/agents/tracker/index.js:133-149 | the same rules over PENDING, IN_PROGRESS, COMPLETED, CANCELLED, with `Objetivo no encontrado` for an unknown id |
| Tracker.UpdateTaskStatusLocal | src/agents/tracker/index.js:119-124 | a successful update touches one task: the other tasks and all objectives keep their values, the ids are unchanged, and repeating the update changes nothing further |
| Tracker.UpdateObjectiveStatusLocal | src/agents/tracker/index.js:143-148 | the same locality and idempotence for objectives |
| Dates.AddMonths | src/agents/tracker/index.js:182-183 | `setMonth(getMonth() + k)`: twelve months later is the same day of the next year |
| Dates.DayOverflow | src/agents/tracker/index.js:194 | `new Date(y, m, d)` with a day past the end of the month is the first of the next month |
| Dates.MarchYear | src/agents/tracker/index.js:194 | the calendar behind `new Date`: a year counted from March has 366 days exactly in leap years |
| Analyzer.NormalizedText | src/agents/analyzer/index.js:61-81 | a falsy transcription and an unsupported type fail with their messages, as does a text shorter than 10 characters; a string is used as given, an object through `_extractTextFromTranscription` |
| Analyzer.ExtractPrecedence | src/agents/analyzer/index.js:192-237 | a non-empty `text` wins over everything; otherwise results win over segments and give empty text exactly when no result has a non-empty first alternative; the stringified value counts only when no field is present |
| Analyzer.ExtractText | src/agents/analyzer/index.js:183-242 | a non-empty `text` is the text; an object with no text, results or segments becomes its stringified form |
| Analyzer.FirstAlternatives | src/agents/analyzer/index.js:201-202 | one string per result: its first alternative's transcript, or `''` |
| Analyzer.JoinNonEmptyBlank | src/agents/analyzer/index.js:203-204 | the parts joined after dropping empty ones are empty exactly when every part is |
| Analyzer.SplitSentences | src/agents/analyzer/index.js:248-255 | every sentence is non-empty, trimmed at both ends and free of the vertical-bar marker |
| Analyzer.SentencesKeepText | src/agents/analyzer/index.js:250-254 | splitting loses nothing but whitespace (and the vertical-bar marker): the sentences glued together have the text's visible characters in order |
| Analyzer.NoBoundaryOneSentence | src/agents/analyzer/index.js:250-254 | where the pattern never matches (no `.`, `?` or `!` followed, after optional whitespace, by an ASCII capital) and there is no vertical bar, the text is one trimmed sentence, or none when blank |
| Analyzer.SentencesCutAtBoundaries | src/agents/analyzer/index.js:250-254 | in a text without a vertical bar, every sentence but the last ends with `.`, `?` or `!`, and every sentence but the first opens with an ASCII capital |
| Analyzer.ProcessFiles | src/agents/analyzer/index.js:126-144 | the loop files under each of questions, objectives and tasks exactly the sentences classified under that intent with score above 0.7, in order; no sentence is filed twice |
| Analyzer.Process | src/agents/analyzer/index.js:125-156 | the loop as written files each sentence under at most one of questions, objectives and tasks |
| Analyzer.ProcessSelfAnswers | src/agents/analyzer/index.js:146-155 | as written, every question is answered by its own sentence, and `answers` mirrors `questions` |
| Analyzer.SelfAnswerCounterexample | src/agents/analyzer/index.js:146-155 | on a question followed by a reply, the loop as written answers the question with itself and the corrected loop with the reply |
| Analyzer.ProcessIntendedPairs | src/agents/analyzer/index.js:146-150 | the corrected loop pairs each question with the sentence that follows it, and records one answer for each question that is not the last sentence |
| Analyzer.IntendedFiles | src/agents/analyzer/index.js:126-144 | the corrected loop files the same sentences under the same lists as the loop as written |
| Analyzer.TallyCounts | src/agents/analyzer/index.js:309-315 | a token counts as positive first, else as negative: the positive count is the number of positive-list tokens, and the two counts together are the lexicon tokens |
| Analyzer.Score | src/agents/analyzer/index.js:318 | (pos − neg) / (pos + neg, or 1) lies in [−1, 1], is 0 exactly when pos = neg and positive exactly when pos > neg |
| Analyzer.SentimentOf | src/agents/analyzer/index.js:282-325 | the score bounds above, the counts add up to at most the number of tokens, and `comparative` is the score divided by the token count (`0 / 0`, NaN, in the source for no tokens, `None` here) |
| Analyzer.NeutralWithoutLexicon | src/agents/analyzer/index.js:305-318 | a text with no lexicon word has score 0 and both counts 0 |
| Analyzer.KeyTopics | src/agents/analyzer/index.js:268 | the first ten ranked terms: a prefix of the ranking, of length 10 or all of it |
| Analyzer.Analyze | src/agents/analyzer/index.js:59-177 | a bad input fails with its message; otherwise success; service is `openai` exactly when the key is configured and the remote call succeeded, and then the payload is the remote one; otherwise `local`, whose key topics are the first 10 of the ranked tokens of the text and whose sentiment is that of the lower-cased text's tokens (score in [−1, 1]), with all filed sentences above the threshold; the local sections are those of the sentence loop as written, so every question is answered by itself (see Findings) |
| Summarizer.MaxSentences | src/agents/summarizer/index.js:15 | a positive `maxSentences` option is used as given, and the limit is never 0 |
| Summarizer.SummaryText | src/agents/summarizer/index.js:111-125 | a string is used as given; an object without results gives its `text`, or its stringified form when `text` is empty; a missing or non-string value gives the tokenizer's type error |
| Summarizer.ExtractionFailsOnlyOnEmptyResult | src/agents/summarizer/index.js:113-117 | extracting an object throws exactly when some result has no alternatives |
| Summarizer.ResultsBeforeText | src/agents/summarizer/index.js:113-120 | results win over `text` here, the reverse of the analyzer's order: an object with both gives the two agents different texts |
| Summarizer.FrequenciesCount | src/agents/summarizer/index.js:137-144 | the frequency table maps each token of three or more characters to its number of occurrences in the document |
| Summarizer.ScoreIsDocumentFrequency | src/agents/summarizer/index.js:147-156 | a sentence's score is the summed number of occurrences in the whole document of its tokens of three or more characters, over its token count |
| Summarizer.IndexOf | src/agents/summarizer/index.js:162 | `indexOf`: the first position of the sentence, or −1 exactly when it is absent |
| Summarizer.Best | src/agents/summarizer/index.js:159-161 | `min(k, n)` items in descending score order |
| Summarizer.BestIsTopK | src/agents/summarizer/index.js:159-161 | no item left out scores higher than any item kept |
| Summarizer.BestDrawsFromInput | src/agents/summarizer/index.js:159-161 | the items kept are a sub-multiset of the scored sentences |
| Summarizer.ExecutiveSelection | src/agents/summarizer/index.js:158-166 | the executive summary keeps at most `maxSentences` sentences, each from the text and among the best scored, listed in text order |
| Summarizer.FirstMention | src/agents/summarizer/index.js:183-189 | the first sentence containing the topic case-insensitively, or none exactly when no sentence does |
| Summarizer.FirstMentionIsFirst | src/agents/summarizer/index.js:189 | no sentence before the chosen one mentions the topic |
| Summarizer.MentionsOfSpec | src/agents/summarizer/index.js:180-191 | one key point per topic that some sentence mentions, each the first mention of one of the topics; topics never mentioned are skipped |
| Summarizer.KeyPoints | src/agents/summarizer/index.js:173-228 | at most 5 key points, each a sentence of the text |
| Summarizer.KeyPointsWithoutTopics | src/agents/summarizer/index.js:192-225 | without topics the key points are the best five sentences in score order, not put back in text order |
| Summarizer.AnswerText | src/agents/summarizer/index.js:241 | the answer when it is non-empty, `Sin respuesta registrada` otherwise |
| Summarizer.QASection | src/agents/summarizer/index.js:234-243 | `[]` without an analysis; otherwise one pair per question, with its text and answer |
| Summarizer.ObjectivesSection | src/agents/summarizer/index.js:249-255 | the objective texts verbatim and in order, or `[]` |
| Summarizer.Summarize | src/agents/summarizer/index.js:28-105 | service `openai` exactly when the key is configured and the remote call succeeded, which a number or boolean transcription also reaches; otherwise the extractive path, which fails with the type error exactly when extraction throws (a number or boolean always throws there) and else gives the executive summary and the key points built from the text's sentences (at most 5), with the QA and objectives sections |
| Transcriber.Configure | src/agents/transcriber/index.js:23-24 | Whisper is on unless explicitly `false`; Google Speech is off unless set |
| Transcriber.CheckFile | src/agents/transcriber/index.js:66-80 | the file passes exactly when it exists, `stat` succeeds and its size is not 0 |
| Transcriber.WhisperTranscript | src/agents/transcriber/index.js:196-223 | Whisper's text when it is not blank; otherwise the fixed simulated transcript, whose text is never blank |
| Transcriber.Transcribe | src/agents/transcriber/index.js:62-154 | a file that fails its checks fails with the check's message and no backend is tried; otherwise the remote service is tried first exactly when its key is configured, and its answer is returned as `openai-api` with nothing else tried; without it and without Whisper, Google Speech's transcript is returned as `google-speech` or its error is the failure; with no backend enabled the job fails with the no-service message; a success always names its service |
| Transcriber.ServiceIsLastBackend | src/agents/transcriber/index.js:101-142 | the service tag is that of the last backend tried: `openai-api`, `whisper` (also for the simulated transcript) or `google-speech` |
| Transcriber.RemoteTriedFirst | src/agents/transcriber/index.js:85-131 | at most two backends are tried; the remote service can only be the first, and only a local backend follows it |
| Transcriber.SuccessIff | src/agents/transcriber/index.js:85-142 | a usable file succeeds exactly when the remote call succeeded, or Whisper is on, or Google Speech is on and answered |
| Transcriber.WhisperNeverFails | src/agents/transcriber/index.js:123-142 | with Whisper on and no remote answer, transcription never fails |
| Timeline.Validate | src/models/timeline.js:25-47 | valid exactly when the name is not blank and any end date is strictly after the start date |
| Timeline.IndexOf | src/models/timeline.js:60 | `findIndex`: the first task with the id, or −1 exactly when none has it |
| Timeline.Merge | src/models/timeline.js:63-67 | `{...existing, ...task}`: the caller's id, text, end date, `createdAt` and other keys win where given, the existing task's keys stay otherwise, and `updatedAt` is stamped; keys with fields of their own never sit in `attrs` |
| Timeline.Fresh | src/models/timeline.js:70-74 | a new task keeps the caller's id, text, end date and other keys, while both timestamps are stamped with the current time over any the caller gave |
| Timeline.AddTaskKeepsReservedOut | src/models/timeline.js:54-79 | after `addTask` no stored task holds `id`, `text`, `end_date`, `createdAt` or `updatedAt` among its other keys |
| Timeline.AddTask | src/models/timeline.js:54-79 | a task without id or text is refused and nothing changes; an existing id is merged in place without changing the count; a new id is appended |
| Timeline.AddTaskIds | src/models/timeline.js:60-75 | after a successful add, the ids are the old ids plus the new one, and every other task is untouched |
| Timeline.AddTaskFinds | src/models/timeline.js:60-75 | the added task is found under its id with the caller's text |
| Timeline.AddTaskKeepsIdsDistinct | src/models/timeline.js:60-75 | `addTask` keeps task ids unique |
| Timeline.HasEdge | src/models/timeline.js:135-137 | whether some dependency runs from x to y |
| Timeline.HasCyclicDependency | src/models/timeline.js:133-167 | true exactly when `s` is reachable from `t` along existing dependencies, `s == t` included |
| Timeline.Search | src/models/timeline.js:144-166 | the depth-first search from `t` finds `s` exactly when `s` is reachable from `t` |
| Timeline.Insert | src/models/timeline.js:103-123 | the edge `s -> t` is recorded: an existing record of the pair is updated without growing the list, otherwise a record with id `s_t` is appended; the edges afterwards are the old ones plus `s -> t` |
| Timeline.InsertTwice | src/models/timeline.js:106-114 | re-adding the same pair updates its type and leaves the number of records unchanged |
| Timeline.InsertByIdAsWritten | src/models/timeline.js:103-123 | the code as written: the record whose id is `s_t` is overwritten, otherwise a record is appended; afterwards `s -> t` is an edge and no edge other than `s -> t` is new, though an edge whose record shared the id can be lost |
| Timeline.InsertByIdDropsEdge | src/models/timeline.js:103-114 | with ids that contain `_`, recording `a -> b_c` overwrites the record of `a_b -> c`, and that edge disappears |
| Timeline.AddDependency | src/models/timeline.js:88-127 | refused (timeline unchanged) unless both endpoints are tasks and the edge closes no cycle; otherwise the tasks are kept, the update time is set, `s -> t` becomes an edge and no other edge is added; the record is written under the `s_t` key as the code does, so another edge sharing that key can be overwritten (see Findings) |
| Timeline.InsertKeepsAcyclic | src/models/timeline.js:98-123 | adding `s -> t` when `s` is not reachable from `t` keeps an acyclic graph acyclic, both for the insertion keyed by `s_t` as written and for the pair-keyed one |
| Timeline.AddDependencyKeepsAcyclic | src/models/timeline.js:88-127 | `addDependency`, with its insertion as written, keeps an acyclic dependency graph acyclic and records the edge whenever it accepts it |
| Timeline.LatestEnd | src/models/timeline.js:225-231 | absent exactly when no task has an end date; otherwise the end date of some task, and no task ends later |
| Timeline.CalculateEndDate | src/models/timeline.js:224-238 | the latest task end date, or the start date plus 30 days |
| Timeline.CalculateDuration | src/models/timeline.js:173-198 | a missing end date is filled in with `calculateEndDate`, and the result is the distance in days between start and end |
| Timeline.DurationIdempotent | src/models/timeline.js:174 | a second call finds the end date set and returns the same duration |
| Timeline.ValidDurationPositive | src/models/timeline.js:173-198 | for a valid timeline with an end date, the duration is the positive gap between start and end |
| TaskModel.New | src/models/task.js:8-19 | the defaults: status `TODO`, assignee `Sin asignar`, a falsy due date or completion time becomes null, and timestamps default to now |
| TaskModel.JsonRoundTrip | src/models/task.js:107-129 | `fromJSON(toJSON(t))` is `t` exactly when no field of `t` would be replaced by a default (non-empty status, assignee and timestamps, and no empty nullable string) |
| TaskModel.ToJson | src/models/task.js:107-120 | every field goes under its own key, so text, status, assignee, id, due date and completion time are read back as they are |
| TaskModel.FromJson | src/models/task.js:127-129 | `fromJSON` is construction: status, assignee and both timestamps get their defaults when falsy, and a truthy text or due date is kept |
| TaskModel.NewIsSettled | src/models/task.js:8-19 | a constructed task always round-trips |
| TaskModel.Validate | src/models/task.js:25-47 | valid exactly when the text is not blank and the status is one of the four |
| TaskModel.UpdateStatus | src/models/task.js:54-70 | an invalid status returns false and changes nothing; otherwise the status and `updatedAt` are set, `completedAt` is stamped on a first move to DONE, kept on a repeat DONE, and cleared on any other status |
| TaskModel.CompletedIffDone | src/models/task.js:63-67 | after a successful update the task has a completion time exactly when it is DONE |
| TaskModel.DoneTwiceKeepsFirstCompletion | src/models/task.js:63 | marking a task DONE twice keeps the first completion time |
| TaskModel.Assign | src/models/task.js:77-85 | a blank name is refused and changes nothing; otherwise the assignee is set as given |
| TaskModel.SetDueDate | src/models/task.js:92-101 | always succeeds, sets the due date and `updatedAt`, and changes nothing else |
| TaskModel.MutatorsKeepValid | src/models/task.js:25-101 | the three mutators keep a valid task valid |
| TaskModel.MutatorsKeepSettled | src/models/task.js:54-101 | the mutators keep a task's JSON round trip, except that `setDueDate("")` stores a due date that reads back as null |
| Meetings.New | src/models/meeting.js:8-22 | a falsy title becomes `Reunión sin título`; missing participants, objectives and tasks become empty lists; the payloads are kept |
| Meetings.Validate | src/models/meeting.js:28-42 | valid exactly when the title has a non-whitespace character; the date check cannot fail |
| Meetings.NewValidIffTitle | src/models/meeting.js:8-42 | a meeting built without a title is valid; one built with a title is valid exactly when that title is not blank |
| Meetings.ToJson | src/models/meeting.js:48-63 | transcription and analysis become presence flags, and the plan becomes its id or null |
| Meetings.ToJsonForgetsOnlyPayloads | src/models/meeting.js:48-63 | two meetings have the same JSON form exactly when they agree on every field except the transcription and analysis contents and the plan beyond its id |
| MessageBus.CreateChannel | src/core/messagebus.js:21-29 | refused for an existing name; otherwise adds one empty channel, and the other channels and all subscriptions are unchanged |
| MessageBus.Subscribe | src/core/messagebus.js:38-52 | creates the channel when missing, and records the callback for the pair, replacing an earlier one |
| MessageBus.Unsubscribe | src/core/messagebus.js:60-73 | refused unless the pair is subscribed; otherwise removes that pair only |
| MessageBus.Publish | src/core/messagebus.js:82-114 | refused for an unknown channel, storing nothing; otherwise appends exactly one message with its metadata to that channel only |
| MessageBus.PublishNotifiesSubscribersOnce | src/core/messagebus.js:103-110 | on a valid bus, `publish` invokes exactly the callable subscribers of the channel other than the sender, each once, in subscriber order |
| MessageBus.Notify | src/core/messagebus.js:103-110 | every delivery goes to a subscriber of the channel other than the sender whose callback is a function, with that callback; every such subscriber gets a delivery; deliveries follow the subscriber order |
| MessageBus.GetMessages | src/core/messagebus.js:122-129 | `[]` for an unknown channel; otherwise the last min(limit, n) messages, oldest first |
| MessageBus.GetRecentMessages | src/core/messagebus.js:122-129 | with the default limit of 100 the code returns `[]` for an unknown channel, otherwise the last min(100, n) messages, oldest first |
| MessageBus.GetMessagesAsWritten | src/core/messagebus.js:128 | `slice(-limit)` as written: the messages from position n − limit, clamped |
| MessageBus.ZeroLimitReturnsEverything | src/core/messagebus.js:128 | as written, a limit of 0 returns the whole channel |
| MessageBus.GetMessagesAgreeOnPositiveLimits | src/core/messagebus.js:128 | for a positive limit the corrected reading and the code agree |
| MessageBus.RemoveChannel | src/core/messagebus.js:136-152 | refused for an unknown channel; otherwise deletes it and every subscription to it |
| MessageBus.RemovedChannelHasNoSubscribers | src/core/messagebus.js:141-148 | after `removeChannel` nobody is listed as a subscriber of that channel |
| MessageBus.GetSubscribers | src/core/messagebus.js:167-177 | on a valid bus, exactly the subscribers holding the channel, each once |
| MessageBus.GetChannels | src/core/messagebus.js:158-160 | on a valid bus, every channel name exactly once |
| MessageBus.SubscribeKeepsValid | src/core/messagebus.js:38-52 | subscribing keeps the bus valid: every subscription names an existing channel, and the channel and subscriber lists name each map key once |
| MessageBus.EmptyIsValid | src/core/messagebus.js:10-14 | a new bus is valid |
| MessageBus.CreateKeepsValid | src/core/messagebus.js:21-29 | creating a channel keeps the bus valid |
| MessageBus.UnsubscribeKeepsValid | src/core/messagebus.js:60-73 | unsubscribing keeps the bus valid |
| MessageBus.PublishKeepsValid | src/core/messagebus.js:82-114 | publishing keeps the bus valid |
| MessageBus.RemoveKeepsValid | src/core/messagebus.js:136-152 | removing a channel keeps the bus valid |
| NlpUtils.Tokenize | src/utils/nlpUtils.js:21-27 | empty or non-string input gives `[]`; otherwise the tokenizer's tokens |
| NlpUtils.SplitIntoSentences | src/utils/nlpUtils.js:34-40 | empty or non-string input gives `[]`; otherwise the sentence tokenizer's sentences |
| NlpUtils.ExtractKeywords | src/utils/nlpUtils.js:48-76 | empty or non-string input gives `[]`; otherwise at most `limit` keywords (10 by default), ranked from the significant tokens |
| NlpUtils.RankedTokensAreSignificant | src/utils/nlpUtils.js:54-60 | the ranking sees exactly the tokens longer than two characters that are not stop words, in order |
| NlpUtils.SliceTo | src/utils/nlpUtils.js:68 | `slice(0, end)`: a prefix of at most `end` items, the whole list when it is shorter, and counting from the back for a negative end |
| NlpUtils.AnalyzeSentiment | src/utils/nlpUtils.js:83-100 | empty or non-string input gives score 0 and comparative 0 without a token count; otherwise `comparative` is the score over the token count, 0 for no tokens |
| NlpUtils.TrainingDocuments | src/utils/nlpUtils.js:117-123 | the classifier is trained on exactly the examples of the categories that have them, each labelled with its category |
| NlpUtils.ClassifyText | src/utils/nlpUtils.js:108-136 | bad input or missing categories give no category and confidence 0; otherwise the top classification |
| NlpUtils.FindQuestions | src/utils/nlpUtils.js:195-220 | empty or non-string input gives `[]`; otherwise an order-preserving subsequence holding exactly the sentences with `?` or opening with an interrogative word |
| NlpUtils.QuestionMarkSuffices | src/utils/nlpUtils.js:206-207 | every sentence containing `?`, wherever it stands, is reported |
| NlpUtils.DateMatchIsLongest | src/utils/nlpUtils.js:152 | every span the date pattern fits at a position is no longer than the scanner's match there, so the scanner matches wherever the pattern can |
| NlpUtils.TimeMatchIsLongest | src/utils/nlpUtils.js:163 | every span the time pattern fits at a position is no longer than the scanner's match there, so the scanner matches wherever the pattern can |
| NlpUtils.NameMatchIsLongest | src/utils/nlpUtils.js:173 | the name scanner's match fits the pattern, is no shorter than any span the pattern fits there, and exists whenever such a span does |
| NlpUtils.AccentedNameIsCut | src/utils/nlpUtils.js:173 | as written, "José" after a space is found as "Jos", because `\b` falls before the `é`; with the intended boundary it is found whole |
| NlpUtils.IntendedNameTakesAllLetters | src/utils/nlpUtils.js:173 | with the intended boundary, a name never stops in the middle of its letters |
| NlpUtils.Scan | src/utils/nlpUtils.js:151-185 | the `exec` loop reports non-empty matches inside the text, each starting at or after the end of the previous one |
| NlpUtils.ScanFindsEveryMatch | src/utils/nlpUtils.js:151-185 | no match is missed: every position where a match starts lies inside a reported stretch |
| NlpUtils.People | src/utils/nlpUtils.js:174-185 | the names kept are exactly the matches of the name pattern as written (with its ASCII-only `\b`, so an accented name can be cut short, see Findings) that are not skipped at index 0 or after `". "`; they are in text order and do not overlap |
| NlpUtils.FindNamedEntities | src/utils/nlpUtils.js:143-188 | empty or non-string input gives `[]`; otherwise an entity is reported exactly when it is a date match, a time match, or a match of the name pattern as written that is not skipped |
| NlpUtils.EntitiesAreMatches | src/utils/nlpUtils.js:155-184 | every entity is a match of its kind's pattern as written at its position, with the matched text, and no kept name is a skipped one |
| NlpUtils.EntitiesOrdered | src/utils/nlpUtils.js:149-185 | all dates come before all times, which come before all names; within a kind, entities are in text order and do not overlap |
| NlpUtils.EntitiesFindEveryDate | src/utils/nlpUtils.js:152-160 | every date in the text lies inside a reported date entity |
| NlpUtils.EntitiesFindEveryTime | src/utils/nlpUtils.js:163-170 | every time in the text lies inside a reported time entity |
| SpeakerGroups.Turns | src/ui/components/Transcription.js:83-109 | the reference grouping: no groups exactly for no words, at most one group per word, the first group under the first word's speaker, neighbouring groups of different speakers, and the group texts joined with spaces equal the words joined with spaces |
| SpeakerGroups.TurnsSnoc | src/ui/components/Transcription.js:87-102 | adding a word at the end extends the reference grouping exactly as one loop step does |
| SpeakerGroups.GroupBySpeaker | src/ui/components/Transcription.js:83-109 | the loop computes the reference grouping: `[]` for no words, alternating speakers, at most one group per word, and the same text as the words joined by spaces |

## Left out

- The `natural` and `node-nlp` libraries are parameters of the model. This covers the tokenizers, the sentence tokenizer, TF-IDF, the AFINN sentiment analyzer, the Bayes classifier and the intent manager. The model proves what the code does around their answers, not the answers themselves.
- The remote AI service, Whisper and Google Speech are oracles. Each is the outcome it would resolve to or throw. The remote client's own fallback stubs count as successful answers.
- Every clock reading and `uuidv4` draw is a parameter. Ids are drawn from a generator indexed by a counter. The properties that need fresh ids assume the generator never repeats.
- File-system checks (`existsSync`, `statSync`) are inputs to the transcriber and the coordinator.
- Dates are day numbers. Time of day, time zones and the local-versus-UTC shift of `toISOString().split('T')[0]` are not modelled.
- The date-validity checks in `validate` and `setDueDate` use `new Date(...)`, which never throws on a string. They are modelled as always passing.
- Timeline.CalculateDuration: `Math.ceil` of a millisecond gap is a plain day difference, since dates carry no time of day.
- Floating point is exact rationals (`real`). This covers sentiment, Gantt progress ½ and sentence scores.
- Summarizer.ScoreIsDocumentFrequency: a sentence without tokens scores 0, where JavaScript computes `0 / 0 = NaN`. The sort's behaviour on NaN is not modelled.
- The object-prototype keys of the summarizer's word-frequency table (`wordFrequencies['constructor']`) are not modelled.
- Planner.GanttOrder: the sort comparator is inconsistent for two undated tasks. The model fixes one admissible order: the dated tasks by due date, then the undated ones as they came. `GanttDataSpec` states the Gantt data for that order, which is an order the code may produce.
- `toLowerCase` and `\s` are modelled only over ASCII, the Spanish accented letters and ñ, and the common whitespace characters. The remaining Unicode case mappings and spaces are left out.
- String positions count characters, not UTF-16 code units.
- Upper-case accented initials (`Ángel`) do not match `[A-Z]`. This is modelled as written.
- `NlpUtils.ExtractKeywords` takes an integer `limit`. A non-numeric or fractional limit is not modelled.
- Constructors, `toJSON` and `fromJSON` of the Timeline are not modelled. The Timeline is modelled from its fields, its operations and the end-date and duration rules. `null` and an absent key are the same `None`.
- The `_metadata` key `publish` adds is kept beside the caller's fields. A caller's own `_metadata` field would be overwritten in the source; the model does not merge the two.
- The EventEmitter `emit` calls of the coordinator and the message bus only notify listeners. They are left out.
- The coordinator keeps snapshots of the job record at each agent call. It does not model listener code mutating the record.
- The tracker's optional storage pass-through (src/agents/tracker/index.js:77-80, 260-270) is left out. So are `getAllTasks` and `getAllObjectives`, which list the maps' values.
- The planner's `getAllPlans` lists the map's values and is left out.
- Tracker.TrackTasks: due date and assignee are stated for any `Reading`, a pair of text-reading functions. `TextReading` is the agent's own reading, and `TrackMeetingReadsTasks` states the tasks `trackMeeting` returns with it.
- The HTTP layer, the UI rendering and the Whisper subprocess wrappers are outside the modelled core.
- Summarizer.Summarize: the falsy non-objects `0` and `false` fall under the missing transcription, which fails. In the source they reach a configured remote service like any other number or boolean; `null` and `undefined` fail as modelled.
- Summarizer.MaxSentences: the option is a natural number. A negative `maxSentences` is truthy, so the source keeps it, and `slice(0, -k)` then drops sentences from the back; the model does not express negative options.
- Tracker.RelateTask: the system's documentation describes the first qualifying objective as winning. The code (src/agents/tracker/index.js:224-254) has no early exit and appends the task's id to every related objective; the model follows the code.

## Findings

The operations themselves (`Analyzer.Analyze`, `Timeline.AddDependency`, `NlpUtils.FindNamedEntities`, `MessageBus.GetMessagesAsWritten`) follow the code as written. Each corrected member stands beside them with the intended property proved about it.

| source | as written | input that shows it | evidently intended | confidence | as-written member | corrected member |
|---|---|---|---|---|---|---|
| src/agents/analyzer/index.js:146-155 | the pending-question check runs in the same iteration as the push, so each question is answered by itself | sentences "¿Qué opinas?" (classified as a question) then "Me parece bien." | a question is answered by the sentence that follows it, as the comment above the check says | high, not executed | Analyzer.SelfAnswerCounterexample | Analyzer.ProcessIntendedPairs |
| src/models/timeline.js:103-114 | a dependency's identity is the string `s_t`, which is ambiguous when task ids contain `_` | record `a_b -> c`, then add `a -> b_c`: both have id `a_b_c`, and the first edge is overwritten | a dependency is identified by its (source, target) pair | medium, not executed | Timeline.InsertByIdDropsEdge | Timeline.Insert |
| src/core/messagebus.js:128 | `slice(-limit)` with `limit` 0 is `slice(0)` | `getMessages(channel, 0)` on a channel with one message returns that message | the last `min(limit, n)` messages, so none for limit 0 | medium, not executed | MessageBus.ZeroLimitReturnsEverything | MessageBus.GetMessages |
| src/utils/nlpUtils.js:173 | `\b` knows only ASCII word characters, so the accented letters `[a-zñáéíóú]` accepts end a word | "Con José" yields the PERSON "Jos" | the whole name "José" | high, not executed | NlpUtils.AccentedNameIsCut | NlpUtils.IntendedNameTakesAllLetters |

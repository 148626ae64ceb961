# cozempic: team-aware pruning, recovery injection and recap

cozempic trims the append-only JSONL session logs of a coding assistant
before the assistant compacts them and loses the state of an agent team.
This project is a Dafny model of the part of cozempic that keeps that state
alive. It has five parts:

- **The coordination classifier.** `_is_team_message` decides whether one log
  entry is team coordination. It looks for a team tool call, a tool result or
  text that matches the team keywords, or raw string content that matches.
- **The team-state extractor.** `extract_team_state` makes one pass over the
  log. It replays `TeamCreate`, `TaskCreate`, `TaskUpdate` and
  `SendMessage`/`TeamMessage` calls into insertion-ordered dictionaries of
  teammates and tasks. It counts the coordination entries, remembers the last
  one, and builds a lead summary from the last three assistant text fragments.
- **The recovery injector.** `inject_team_recovery` appends two entries, a user
  prompt and an assistant confirmation. Both are chained onto the last entry
  that has a uuid, and both re-state the team (`to_recovery_text`).
- **The protected pruning orchestrator.** `prune_with_team_protect` partitions
  the log into team and non-team entries. It hands only the non-team entries
  to the reducer (the prescription runner), merges the two lists back by a
  stable sort on line index, and injects the recovery pair. `_shell_quote`
  quotes one shell word.
- **The recap.** `generate_recap` builds a "previously on this session" view.
  It keeps the readable turns and merges runs of one speaker. It pairs each
  user turn with the reply after it, then lists the pairs with a head, a
  skipped middle and a tail.

Modules, one file each:

| module | file | covers |
|---|---|---|
| `Session` | session.dfy | log entries (JSON values that keep key presence, string-ness and truthiness), blocks, `(index, entry, size)` messages |
| `Text` | text.dfy | `str.join`, `str(n)`, right alignment, `str.upper` on ASCII, Python's `\s` |
| `Registries` | registries.dfy | Python's insertion-ordered `dict` keyed by strings |
| `TeamModel` | team_state.dfy | `TeammateInfo`, `TaskInfo`, `TeamState`, `is_empty`, `to_recovery_text` |
| `TeamClassify` | team_classify.dfy | `_is_team_message` and the team / non-team partition |
| `TeamExtract` | team_extract.dfy | `extract_team_state`: the replay of tool calls and the lead summary |
| `TeamExtractFacts` | team_extract_facts.dfy | what the extracted state says about the log |
| `TeamInject` | team_inject.dfy | `inject_team_recovery` |
| `Guard` | guard.dfy | the stable sort by line index, the strategy lookup and `prune_with_team_protect` |
| `GuardOrder` | guard_order.dfy | the merged log is a subsequence of the input when line indices are distinct |
| `ShellQuoting` | guard_shell.dfy | `_shell_quote` and its POSIX decoding |
| `RecapFormat` | recap_format.dfy | `_first_sentence`, `_clean_assistant_text`, `_fmt_pair` |
| `Recap` | recap.dfy | `generate_recap` |

Each operation that works step by step in the source is a method with loops
and invariants. Its `ensures` ties the result to a function, and the lemmas
state the source's promises about that function. These operations are
`extract_team_state`, `inject_team_recovery`, `prune_with_team_protect`, the
classifier's early-return loop and the loops of `generate_recap`. The
dictionaries the extractor mutates are values of type `Registry` that the
loops reassign.

The docstring of `prune_with_team_protect` (src/cozempic/guard.py:42-52)
promises to protect team-related messages from pruning. The code gives that
protection only when the extracted team state is non-empty
(src/cozempic/guard.py:61-64). A log whose coordination entries name no team
and create no teammate or task goes to the reducer whole. The model follows
the code: `Guard.PruneWithTeamProtect` promises protection only for a
non-empty state.

## Model

| member | source | states |
|---|---|---|
| `TeamClassify.IsTeamMessage` | src/cozempic/team.py:129-155 | True exactly when some object block is a `tool_use` named in the team tool set, or a `tool_result` whose content is a matching string, or carries a matching string `text`, or when the content is itself a matching string; non-object blocks and other content never count |
| `TeamClassify.TeamPartMembers` | src/cozempic/guard.py:70-75 | An entry is in the team list exactly when it is in the log and the classifier accepts it |
| `TeamClassify.NonTeamPartMembers` | src/cozempic/guard.py:70-75 | An entry is in the non-team list exactly when it is in the log and the classifier rejects it |
| `TeamClassify.PartitionExact` | src/cozempic/guard.py:67-75 | The two lists together are a permutation of the log: every entry lands in exactly one of them |
| `TeamClassify.PartitionKeepsOrder` | src/cozempic/guard.py:70-75 | Each list is a subsequence of the log, so both keep log order |
| `TeamModel.RecoveryParts` | src/cozempic/team.py:90-110 | The recovery text's lines: the team line ("unnamed" for an empty name); a "Teammates:" heading and one line per teammate only when there are teammates; a "Shared task list:" heading and one line per task only when there are tasks; the coordination context only when the summary is non-empty; nothing else |
| `Registries.Registry.Put` | src/cozempic/team.py:201-211 | `d[k] = v`: the map gets the new value; the key list grows by `k` only when `k` is new, so a re-seen key keeps its first position |
| `Registries.Registry.Values` | src/cozempic/team.py:241-242 | `list(d.values())`: one value per key, in first-insertion order |
| `Registries.SizeIsKeyCount` | src/cozempic/team.py:209 | `len(seen_tasks)` is the number of keys listed, which is the count a `TaskCreate` without an id uses |
| `Text.NatToStringRoundTrip` | src/cozempic/team.py:209 | `str(n)` of a count reads back as that count in decimal |
| `Text.Upper` | src/cozempic/team.py:105 | Same length; each character is upper-cased on its own |
| `Text.JoinLength` | src/cozempic/team.py:257 | A join is as long as its parts plus one separator between each neighbouring pair |
| `TeamExtract.AddTeammate` | src/cozempic/team.py:196-206 | A descriptor without an agent id changes nothing; otherwise its record (name defaulting to the id, role to the description, status `running`) replaces any earlier one under that id, and a new id goes at the end |
| `TeamExtract.CreateTeam` | src/cozempic/team.py:194-206 | The team name becomes the input's `name` when the key is present, even when empty; the task list is untouched |
| `TeamExtract.CreateTask` | src/cozempic/team.py:208-217 | The task is stored as `pending` under `taskId`, else `id`, else the decimal count of tasks so far, with subject from `subject`, else `title`; every other task is unchanged; a new id goes at the end, an old one keeps its place |
| `TeamExtract.UpdateTask` | src/cozempic/team.py:219-233 | On a known id only `status` and `owner` change, each only for a non-empty new value; an unknown id is admitted at the end with status defaulting to `unknown`, subject to "" and no description; other tasks are unchanged |
| `TeamExtract.MarkLive` | src/cozempic/team.py:235-239 | A message to a known agent sets that teammate to `running`; an empty or unknown target changes nothing; the key order never changes |
| `TeamExtract.MarkLiveIsNoOp` | src/cozempic/team.py:205-239 | Since every stored teammate is already `running`, a message never changes the registry |
| `TeamExtract.ReplayAppend` | src/cozempic/team.py:172-239 | The pass is a left fold over the tool calls: replaying a concatenation replays the first part and then the second |
| `TeamExtract.LastThree` | src/cozempic/team.py:257 | `team_msgs[-3:]`: the last three fragments, or all of them when there are fewer |
| `TeamExtract.LeadSummaryBound` | src/cozempic/team.py:245-257 | The lead summary is at most three 300-character fragments and two " [...] " separators long |
| `TeamExtract.UpsertTeammates` | src/cozempic/team.py:196-206 | The descriptor loop computes the fold of `AddTeammate` over the descriptors |
| `TeamExtract.ApplyCall` | src/cozempic/team.py:188-239 | One `tool_use` block applied to the team name and the two dictionaries is one step of the fold |
| `TeamExtract.ApplyTaskCreate` | src/cozempic/team.py:208-217 | The `TaskCreate` branch stores exactly the task `CreateTask` describes |
| `TeamExtract.ApplyTaskUpdate` | src/cozempic/team.py:219-233 | The `TaskUpdate` branch, with its two conditional field updates, computes `UpdateTask` |
| `TeamExtract.ApplyMessage` | src/cozempic/team.py:235-239 | The `SendMessage` / `TeamMessage` branch computes `MarkLive` |
| `TeamExtract.CollectLeadFragments` | src/cozempic/team.py:245-253 | The second pass collects exactly the `text` blocks of assistant coordination entries with list content, in log order, each cut to 300 characters |
| `TeamExtract.ApplyBlocks` | src/cozempic/team.py:182-237 | The block loop over one coordination entry computes the fold of its `tool_use` calls, from the state it starts in |
| `TeamExtract.ExtractTeamState` | src/cozempic/team.py:158-259 | The nested loops compute the fold of the tool calls of the coordination entries; `message_count` is the number of coordination entries |
| `TeamExtractFacts.LastCoordinationIndexIsLast` | src/cozempic/team.py:172-177 | `last_coordination_index` is the line index of the last entry the classifier accepts |
| `TeamExtractFacts.LastCoordinationIndexNone` | src/cozempic/team.py:172-177 | It stays -1 when no entry is accepted |
| `TeamExtractFacts.NoCoordinationIsNoTeam` | src/cozempic/team.py:168-177 | A log without coordination entries yields the empty state, with count 0 and index -1 |
| `TeamExtractFacts.TeamNameIsLastNamed` | src/cozempic/team.py:194-195 | The team name is the `name` of the last `TeamCreate` that has the key, and unchanged when none has it |
| `TeamExtractFacts.ExtractedRecordsWellFormed` | src/cozempic/team.py:196-242 | Every teammate has a non-empty agent id and status `running`; agent ids are distinct; task ids are distinct |
| `TeamExtractFacts.AddTeammatesEmptyIff` | src/cozempic/team.py:196-206 | The descriptor loop leaves the teammates empty exactly when they were empty and no descriptor has an agent id |
| `TeamExtractFacts.TasksEmptyIff` | src/cozempic/team.py:208-233 | The task list is empty exactly when it was empty and no `TaskCreate` or `TaskUpdate` was called |
| `TeamExtractFacts.TeammatesEmptyIff` | src/cozempic/team.py:194-206 | The teammate list is empty exactly when it was empty and no `TeamCreate` carried a descriptor with an agent id |
| `TeamExtractFacts.IsEmptyIff` | src/cozempic/team.py:53-54 | The extracted state is empty exactly when the replay leaves no team name and no call creates a task or a teammate; the message count plays no part |
| `TeamExtractFacts.LastWithFindsEvery` | src/cozempic/team.py:196-201 | Every descriptor with an agent id has a last descriptor of that id at or after it |
| `TeamExtractFacts.AddTeammatesEntries` | src/cozempic/team.py:196-206 | After the descriptor loop, an id holds the record of the last descriptor with that id; an id no descriptor names keeps its old record or stays absent |
| `TeamExtractFacts.AddKnownTeammatesKeepsKeys` | src/cozempic/team.py:196-206 | Re-seen ids are overwritten in place: when every id is already known, the key order and key set do not change |
| `TeamExtractFacts.AddTeammatesIdempotent` | src/cozempic/team.py:196-206 | Running the same descriptors twice gives the same registry as running them once |
| `TeamExtractFacts.RepeatedTeamCreateIsNoOp` | src/cozempic/team.py:194-206 | A `TeamCreate` repeated at once changes nothing more |
| `TeamInject.LastWithUuid` | src/cozempic/team.py:297-306 | The position of the last entry with a truthy uuid, or -1 when none has one |
| `TeamInject.MaxIndex` | src/cozempic/team.py:368 | An upper bound of every line index in a non-empty log |
| `TeamInject.MaxIndexAttained` | src/cozempic/team.py:368 | That bound is the line index of some entry, so it is the maximum |
| `TeamInject.RecoveredShape` | src/cozempic/team.py:290-371 | For any recovery text: a log without a uuid is left unchanged; otherwise the result is the log as a prefix, plus exactly two entries at the largest line index plus one and plus two, both above every existing index |
| `TeamInject.InjectTeamRecovery` | src/cozempic/team.py:277-373 | An empty team state leaves the log unchanged; otherwise the result is `Recovered` with the state's recovery text |
| `TeamInject.AppendRecoveryPair` | src/cozempic/team.py:290-373 | The backward scan, the max loop and the two appends compute `Recovered` for a given recovery text |
| `TeamInject.FindAnchor` | src/cozempic/team.py:297-303 | The backward scan stops at the last entry with a truthy uuid, or reports none |
| `TeamInject.MaxLineIndex` | src/cozempic/team.py:368 | The loop computes the largest line index |
| `TeamInject.RecoveredChain` | src/cozempic/team.py:297-362 | The user entry's parent is the last entry with a uuid; the assistant entry's parent is the user entry; both copy that entry's session id, working directory and branch (null when absent) and share the timestamp; both have `isSidechain` false and `userType` "external"; `message.role` is "user" and "assistant"; the user entry's content is the prompt followed by the recovery text; the assistant entry holds one text block: the confirmation, the recovery text, the checkpoint note and the closing line, separated by blank lines |
| `TeamInject.RecoveredUuidsDistinct` | src/cozempic/team.py:309-371 | Given two fresh, distinct, non-empty uuids, every uuid in the result is still used once |
| `TeamInject.RecoveredKeepsOrder` | src/cozempic/team.py:368-371 | A log sorted by line index stays sorted after injection |
| `Guard.StrategyNames` | src/cozempic/guard.py:56 | A known prescription gives its strategy list; an unknown one falls back to the `standard` list |
| `Guard.InsertSorted` | src/cozempic/guard.py:82 | Inserting one entry into a list sorted by line index keeps it sorted |
| `Guard.InsertAddsOne` | src/cozempic/guard.py:82 | An insertion adds exactly the inserted entry |
| `Guard.SortByIndex` | src/cozempic/guard.py:82 | `list.sort(key=index)`: the result is sorted by line index and is a permutation of the input |
| `Guard.SortByIndexStable` | src/cozempic/guard.py:82 | The sort is stable: on each line index the entries keep their input order |
| `Guard.MergedProtects` | src/cozempic/guard.py:80-82 | For any reducer output, the merged list is sorted and is a permutation of the reducer's entries plus the team entries; on equal indices the reducer's entries come first; every team entry of the input is in it unchanged |
| `Guard.SplitByTeam` | src/cozempic/guard.py:67-75 | The partition loop yields exactly the team list and the non-team list, each in log order |
| `Guard.PruneWithTeamProtect` | src/cozempic/guard.py:37-87 | The state is the extracted one; an empty state gives exactly the reducer's output on the whole log; otherwise the reducer sees only the non-team list, and the output is the merged list with the recovery pair, sorted by line index and holding every coordination entry of the input |
| `GuardOrder.StrictMembersAreSubsequence` | src/cozempic/guard.py:81-82 | Between two lists strictly sorted by line index, membership implies order |
| `GuardOrder.MergedIsSubsequence` | src/cozempic/guard.py:78-82 | When the input has distinct increasing line indices and the reducer returns a subsequence of what it is given, the merged log is a subsequence of the input |
| `ShellQuoting.ShellQuote` | src/cozempic/guard.py:258-259 | The quoted word starts and ends with a single quote |
| `ShellQuoting.Escape` | src/cozempic/guard.py:259 | A string without single quotes is unchanged by the replacement |
| `ShellQuoting.ShellQuoteRoundTrip` | src/cozempic/guard.py:258-259 | Decoding the quoted word under the POSIX quoting rules gives back the original string |
| `RecapFormat.Collapse` | src/cozempic/recap.py:64 | `re.sub(r"\s+", " ", …)`: no longer than the input, non-empty for non-empty input, and whitespace left only as single spaces |
| `RecapFormat.CollapseAppend` | src/cozempic/recap.py:64 | The substitution works run by run: on a concatenation that does not split a whitespace run, the result is the two halves' results concatenated |
| `RecapFormat.CollapseRun` | src/cozempic/recap.py:64 | A non-empty run of whitespace becomes exactly one space |
| `RecapFormat.CollapseKeeps` | src/cozempic/recap.py:64 | A character that is not whitespace is kept; with `CollapseAppend` and `CollapseRun` this fixes the result of every string: the non-whitespace characters in order, each run replaced by one space in its place |
| `RecapFormat.Strip` | src/cozempic/recap.py:64 | `str.strip()`: the slice between leading and trailing whitespace, empty exactly when all is whitespace, and neither starting nor ending with whitespace |
| `RecapFormat.FirstBoundaryFrom` | src/cozempic/recap.py:53 | The leftmost `[.!?]` followed by whitespace, or -1 when there is none |
| `RecapFormat.FirstSentence` | src/cozempic/recap.py:50-59 | The result is a prefix of the text, or exactly `max_len` characters ending in "..."; never longer than `max_len + 9` |
| `RecapFormat.FirstSentenceCases` | src/cozempic/recap.py:50-59 | With a boundary ending within `max_len + 10`, the prefix up to the first boundary; else, for a longer text, `max_len - 3` characters and "..."; else the text unchanged |
| `RecapFormat.CleanAssistantText` | src/cozempic/recap.py:62-65 | The summary of an assistant text is at most 109 characters |
| `RecapFormat.CleanAssistantTextNormalised` | src/cozempic/recap.py:62-65 | The summary holds whitespace only as single spaces and does not start with whitespace |
| `RecapFormat.Clip` | src/cozempic/recap.py:140-149 | A text within the limit is unchanged; a longer one becomes its first `limit - 3` characters and "...", exactly `limit` characters |
| `RecapFormat.PairText` | src/cozempic/recap.py:139-150 | A pair with both texts takes at most 70 + 9 + 50 characters; one text alone takes at most 70 |
| `RecapFormat.FmtPair` | src/cozempic/recap.py:138-150 | The text starts with `f"  {num:>3}.  "`: two spaces, the number right-aligned in three columns, a dot and two spaces |
| `Recap.TurnOf` | src/cozempic/recap.py:76-91 | Only user and assistant entries yield a turn; a kept turn has at least three characters; a user turn carries the cleaned user text |
| `Recap.KeptTurns` | src/cozempic/recap.py:76-91 | At most one turn per entry, each of at least three characters |
| `Recap.CollectTurns` | src/cozempic/recap.py:76-91 | The first loop collects exactly the kept turns |
| `Recap.MergeStep` | src/cozempic/recap.py:98-105 | One merge step adds at most one turn, ends with the new turn's speaker and keeps the first speaker |
| `Recap.MergeStepKeeps` | src/cozempic/recap.py:98-105 | One merge step keeps speakers alternating and texts of at least three characters |
| `Recap.MergeTurns` | src/cozempic/recap.py:96-105 | Merging never lengthens the list and keeps its first and last speaker |
| `Recap.MergeTurnsAlternating` | src/cozempic/recap.py:96-105 | After merging no two neighbouring turns share a speaker, and every text still has at least three characters |
| `Recap.MergeTurnsRoles` | src/cozempic/recap.py:96-105 | The speakers after merging are the speakers before it with every run collapsed to one |
| `Recap.MergeStepOpeners` | src/cozempic/recap.py:99-105 | An assistant turn is added by a merge step only when the last turn is not the assistant's; a user turn never changes the assistant texts |
| `Recap.MergeStepUserTexts` | src/cozempic/recap.py:99-105 | A user turn after a user turn is joined onto it with one space; any other user turn is added as a text of its own; an assistant turn leaves the user texts alone |
| `Recap.MergeTurnsOpeners` | src/cozempic/recap.py:96-105 | The assistant turns left after merging are exactly the first turn of each run of assistant turns, in order |
| `Recap.MergeTurnsUserTexts` | src/cozempic/recap.py:96-105 | Joined with single spaces, the user texts after merging are the user texts before it: each run of user turns becomes one turn holding its texts joined by spaces |
| `Recap.MergeRuns` | src/cozempic/recap.py:96-105 | The merge loop, with its in-place update of the last turn, computes the merge |
| `Recap.PairTurns` | src/cozempic/recap.py:107-124 | There are no more pairs than turns and at least half as many |
| `Recap.PairTurnsRoundTrip` | src/cozempic/recap.py:107-124 | Unfolding the pairs gives back the merged turns: each turn is used exactly once, in order |
| `Recap.UserLedPairs` | src/cozempic/recap.py:107-124 | Alternating turns that start with the user give pairs that all have a user text |
| `Recap.OrphanOnlyFirst` | src/cozempic/recap.py:107-124 | After merging, only the first pair can lack a user text |
| `Recap.PairTurnsAt` | src/cozempic/recap.py:111-124 | The three cases of the pairing loop: a user turn with a reply, a user turn without one, an orphan reply |
| `Recap.PairUp` | src/cozempic/recap.py:107-124 | The `while` loop with its hand-advanced index computes the pairing |
| `Recap.Listed` | src/cozempic/recap.py:153-157 | Pairs listed by `enumerate` carry their position in the full list, counted from one |
| `Recap.AccountedListed` | src/cozempic/recap.py:153-162 | A listing accounts for exactly the pairs it lists |
| `Recap.HeadCount` | src/cozempic/recap.py:127 | At most four pairs, and no more than there are, go before the skip line |
| `Recap.TailCount` | src/cozempic/recap.py:128 | The head and the tail together never exceed the number of pairs |
| `Recap.WindowCut` | src/cozempic/recap.py:155-162 | Over the limit: the first pairs numbered from 1, one skip line counting the middle, then the last `max_turns - 5` pairs numbered up to the number of pairs |
| `Recap.WindowAt` | src/cozempic/recap.py:155-162 | Each numbered line of the cut window carries its pair's position, and tail numbers lie above head numbers |
| `Recap.WindowAccounts` | src/cozempic/recap.py:152-162 | Listed pairs plus skipped pairs are exactly the pairs |
| `Recap.WindowFaithful` | src/cozempic/recap.py:152-162 | Every listed pair sits under its own position |
| `Recap.WindowIncreasing` | src/cozempic/recap.py:152-162 | Numbers strictly increase down the list, so no pair is listed twice |
| `Recap.WindowCorrect` | src/cozempic/recap.py:126-162 | All pairs numbered 1..n when they fit; otherwise the listing is faithful, increasing, accounts for every pair and has at most `max(max_turns, 5)` lines |
| `Recap.WindowAsWrittenRepeats` | src/cozempic/recap.py:127-162 | With six pairs and `max_turns = 5`, the source lists pair 1 twice (as 1 and as 7), numbers up to 12 and accounts for twelve pairs |
| `Recap.NumberingSlice` | src/cozempic/recap.py:161 | `enumerate(paired[a:b], a + 1)` is the listing of positions `a` to `b` |
| `Recap.WindowsAgree` | src/cozempic/recap.py:126-162 | For `max_turns >= 6` the window as written and the corrected window are the same |
| `Recap.RenderAll` | src/cozempic/recap.py:152-162 | One text line per window line |
| `Recap.RenderWindowCut` | src/cozempic/recap.py:155-162 | The rendered cut window is the rendered head, the skip line and the rendered tail |
| `Recap.ListedSnoc` | src/cozempic/recap.py:153-154 | Rendering one more pair appends its formatted line |
| `Recap.AppendListed` | src/cozempic/recap.py:153-154 | The `enumerate` loop appends the formatted pairs of a range in order |
| `Recap.RenderCut` | src/cozempic/recap.py:155-162 | The head loop, the skip line and the tail loop render the corrected cut window; for `max_turns >= 6` that is the source's rendering |
| `Recap.RenderWindow` | src/cozempic/recap.py:152-162 | The formatting branch renders the corrected window; for `max_turns >= 6` that is the source's rendering |
| `Recap.RecapText` | src/cozempic/recap.py:68-168 | The recap with the corrected window is empty exactly when no turn survives the filter |
| `Recap.RecapTextAsWritten` | src/cozempic/recap.py:68-168 | The recap with the source's window, `paired[-(max_turns - 5):]` included, is empty exactly when no turn survives the filter |
| `Recap.RecapTextMatchesSource` | src/cozempic/recap.py:126-168 | For `max_turns >= 6` the two recaps are the same text |
| `Recap.GenerateRecap` | src/cozempic/recap.py:68-168 | The four loops and the final join compute the recap with the corrected window, which is the source's recap text whenever `max_turns >= 6` |

## Left out

- The guard daemon (`start_guard`, `guard_prune_cycle`) and its process glue (`_find_claude_pid`, `_spawn_reload_watcher`) are not part of this model: they are polling, file and process I/O.
- The reducer (`run_prescription` with the `PRESCRIPTIONS` table) is not part of this model. It is a parameter, a function from a message list and strategy names to a result list and a report. `GuardOrder.MergedIsSubsequence` assumes only that it returns a subsequence of its input.
- The keyword regex `TEAM_KEYWORDS` is an uninterpreted predicate on strings. The team tool names are a concrete set.
- `get_msg_type`, `_extract_text` and `_clean_user_text` are parameters of the recap: they are regex pipelines and helpers outside this model.
- `uuid4`, `datetime.now` and the UTF-8 byte sizes of the serialised entries are parameters of the injector. JSON serialisation is not modelled.
- The fixed text of the two synthetic entries is a `TeamInject.Wording` record passed to the injector. `TeamInject.SourceWording` holds the source's text, and `Guard.PruneWithTeamProtect` passes it. The lemmas about the injector hold for any wording.
- `to_markdown`, `write_team_checkpoint` and `save_recap` are not modelled: they render for a file write or write files, and are not on the pruning path.
- JSON values other than strings, null and absence carry only their truthiness. Tool inputs are string maps plus a list of string-keyed teammate descriptors; a non-string `name`, `taskId`, `status` or `owner` is outside the model.
- `TeamClassify.IsTeamMessage`, `TeamExtract.ExtractTeamState` and `Guard.PruneWithTeamProtect` leave out three inputs on which the source raises, and nothing in `prune_with_team_protect` catches the error (src/cozempic/guard.py:59, 72). First, `TEAM_TOOL_NAMES` is a set (src/cozempic/team.py:115-119), so `block.get("name") in TEAM_TOOL_NAMES` (src/cozempic/team.py:140) raises `TypeError` when a `tool_use` block's `name` is a list or an object. `Session.Value` does not tell a list or an object from a number or a boolean, which the source handles, so the model reads every such name as `Other(_)`, a name outside the set, and returns a value. Second, a `message` that is present but not an object makes `inner.get` raise (src/cozempic/team.py:132-133; the extractor calls the classifier before its own read at src/cozempic/team.py:179-180). `Session.Content` cannot represent such an entry. Third, an `input` that is not an object makes `inp.get` raise in the TeamCreate, TaskCreate, TaskUpdate and SendMessage/TeamMessage branches (src/cozempic/team.py:191-193 and the branches after it). `Session.ToolInput` cannot represent it either.
- `Text.Upper`: ASCII letters only; `str.upper` on other characters is Unicode case mapping, left out.
- `RecapFormat.FirstSentence` requires `max_len >= 3`: the only call site passes 100.
- `TeamExtract.LeadFragments` and the methods that compute it require `SummaryReadable`. Line src/cozempic/team.py:252 calls `block.get` without the dict check the first pass makes, so a non-object block in an assistant coordination entry would fail there. Line src/cozempic/team.py:253 slices `block.get("text", "")[:300]`: a `text` that is null, a number, a boolean or an object fails there. An array slices without error; it fails only at the `" [...] ".join` on src/cozempic/team.py:257, and only when it is among the last three fragments, so otherwise the source returns normally. `Session.Value` does not tell an array from other non-string values, so the model excludes every non-string `text`, including the arrays the source tolerates.
- `Recap.GenerateRecap`, `Recap.RecapText`, `Recap.RenderWindow` and `Recap.RenderCut` use the corrected window of the finding below. For `max_turns <= 5` they do not give the source's text: the source lists the tail `paired[-(max_turns - 5):]` again after the skip line (`Recap.WindowAsWrittenRepeats`). For `max_turns >= 6`, which includes the default of 40 in `generate_recap` and `save_recap`, `Recap.GenerateRecap`, `Recap.RenderWindow` and `Recap.RenderCut` also ensure the source's text, and `Recap.RecapTextMatchesSource` proves the same for `Recap.RecapText`.
- `GuardOrder.MergedIsSubsequence` requires strictly increasing line indices in the input, as `load_messages` produces them. With repeated indices the sort may reorder entries that share an index.

## Findings

| source | as written | input that shows it | evidently intended | confidence | as-written member | corrected member |
|---|---|---|---|---|---|---|
| src/cozempic/recap.py:128, 158-161 | `tail_count = max_turns - 5` is zero or negative when `max_turns <= 5`. `paired[-0:]` then selects every pair, and a negative count selects from the front. The tail repeats pairs already listed and numbers them past `len(paired)` | six pairs with `max_turns=5`: pairs 1-4 are listed, a skip line says 2, then all six pairs are listed again as 7-12 | a tail of `max(max_turns - 5, 0)` pairs, each numbered by its position, with the skip line counting the rest | not executed | `Recap.WindowAsWrittenRepeats` | `Recap.WindowCorrect` |

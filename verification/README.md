# Verified core of the agent's history, wait and storage logic

A Dafny model of seven pieces of the code base, with proofs about them:

- **Conversation compaction and repair** (`Conversation`, `ToolPairing`, `RepairRuns`, `RepairOrder`, `HistoryRepair`,
  `RepairProperties`, `UserQuery`, `QueryContents`, `CompactedHistory`, `Summary`, `SummaryContents`, `Budget`): tool-call
  pairing, the three-pass history repair, the compacted history, the cleaning of the model's summary, and the fit to a
  token budget. The duplicate-removal and backfill passes are modelled from their own source, not assumed.
- **The wait protocol** (`WaitProtocol`, `WaitOutcomes`, `WaitStable`): the reader thread, the feeder, resizers and any number of waiters
  as a step system; every interleaving is a sequence of steps. The grid is modelled as the history of writes to it, and a
  waiter's condition as an arbitrary predicate on that.
- **The line-buffered reader** (`LineReader`), **the string interner** (`Interner`, under an arbitrary hash),
  **the usage ledger** (`Usage`) and **the segment store** (`Segments`).
- `Text`, `Tags`, `Sequences`, `Decimal` and `Machine` hold string searching, tags in texts put together from parts,
  regrouping of concatenations and selection by position, decimal numerals, and bytes with machine arithmetic.

`dafny verify dfyconfig.toml` checks everything. Strings are sequences of characters; where the source counts bytes,
`Budget` works with UTF-8 lengths, and `LineReader`, `Interner` and `Segments` use byte strings. Loops and in-place updates
of the source are methods and classes here, each proved equal to a specification function; the properties are then
proved of that function for all inputs. For every operation there is also a statement that does not use that function: by
position, or on inputs put together from parts.

## Where code and documentation disagree

- `repair_history` is documented as idempotent. It is not when an assistant item declares one id twice and no result
  answers it: two synthetic results are inserted, and the next run removes one. `RepairStable` gives the exact condition,
  `RepairIsNotIdempotent` the input, and `TwoRunsSuffice` what always holds.
- `truncate_text_to_bytes` is documented to stay within `max_bytes`. `TruncationFits` says exactly when it does; limits
  up to 56 bytes never have room for the marker (`SmallLimitIsExceeded`), and 64 bytes have none for the marker of a text
  of `10^8` bytes (`LongTextIsOverLimit`).
- `fit_conversation_to_budget` is documented to shrink a conversation to `max_tokens`. `FitKeepsLimit` says exactly when it
  does. It does not where truncation leaves the last turn alone (`UntruncatedIsOverBudget`) or its marker is longer than
  the share (`SmallLimitOverruns`, `SmallSharesOverrun`).
- The comment in `render_segment_md` promises a document under the cap. That fails in two ways: the line breaks that
  join turns are not charged (`CapIsExceeded`, `FullBudgetOverruns`), and a preamble over the cap, whose summary is not
  bounded, leaves a budget of zero but is written in full (`LongPreambleOverruns`). `DocumentIsCapped` says exactly when
  the cap is kept, and `DocumentLength` what holds in any case.
- A compacted history gives back the user's query only if it survives wrapping. `CompactionIsFixpoint` gives the exact
  condition, `ImageOnlyQueryIsLost` an input where it fails.
- A resize after the feeder has exited is not announced, so a parked waiter may report `ended` although its condition now
  holds: `LateResizeIsMissed`. `FailFastIsSound` says what the report always means, and exactly when the grid it speaks of
  is still the session's.
- `wait_stable` is documented to wait for an unchanged grid. A bump that is pending when the sleep fires can go unnoticed;
  `MatchMeansStable` gives the exact condition, `MatchMissesWrite` a run that misses a write.
- `intern_bytes` is documented to return the existing id of an interned string. For strings of 65536 bytes or more it makes
  a new entry every time (`OverlongIdIsNew`), which reads only what the cast of the length leaves. Shorter strings keep
  their ids all the same (`ShortIdsAreStable`), but not across rebuilding (`RebuildMovesIds`); `RebuildAgrees` says exactly
  when all lookups survive it.

## Model

| member | source | states |
|---|---|---|
| `Conversation.PairedIsPairedFrom` | crates/codegen/xai-chat-state/src/compaction_utils.rs:984-995 | the left-to-right scan decides the positional rule: every result lies in the unbroken run behind the assistant item that declares its id |
| `ToolPairing.StripDisplacedToolResults` | crates/codegen/xai-chat-state/src/compaction_utils.rs:996-1022 | the result is contiguously paired; by position, exactly the results in the run of their own call are kept and exactly the others reported, both in order; nothing is reported exactly on paired lists, which come back unchanged |
| `ToolPairing.ValidateCompactedHistory` | crates/codegen/xai-chat-state/src/compaction_utils.rs:881-902 | the list of ids is empty exactly if every result has a preceding call with its id; it names exactly the results without one, in order |
| `ToolPairing.SanitizeCompactedHistory` | crates/codegen/xai-chat-state/src/compaction_utils.rs:917-944 | the output always validates; by position, exactly the results with an earlier call are kept, exactly the others reported, both in order, so nothing gets lost; valid lists are unchanged |
| `ToolPairing.StrippedIsSanitized` | crates/codegen/xai-chat-state/src/compaction_utils.rs:988-995 | the output of the strict pass is a fixed point of both passes and validates |
| `HistoryRepair.DedupDuplicateToolResults` | crates/codegen/xai-grok-sampling-types/src/conversation.rs:2911-2966 | index-based removal with re-scanning computes the specification; by position, behind every assistant item with calls exactly the last result of each id is left, in order; the count is the number removed |
| `HistoryRepair.RepairDanglingToolCalls` | crates/codegen/xai-grok-sampling-types/src/conversation.rs:2784-2844 | recording insertions and splicing them in reverse computes the specification; by position, every run stays as it was, and behind it stands one result for each unanswered call, in call order, naming its tool |
| `RepairRuns.ThreePasses` | crates/codegen/xai-chat-state/src/compaction_utils.rs:970-985 | the three passes together are one rewriting of each run |
| `RepairOrder.RunsStayInPlace` | crates/codegen/xai-grok-sampling-types/src/conversation.rs:2789-2844 | each pass leaves every assistant item with calls where it was among the non-results and rewrites the run behind it on its own |
| `RepairOrder.RepairKeepsOrder` | crates/codegen/xai-grok-sampling-types/src/conversation.rs:2816-2843 | in a repaired history, behind every assistant item with calls: the last result of each declared id, in the old order, then one result for each unanswered call, in the order of the calls, each naming the tool of its own call |
| `RepairProperties.RepairHistory` | crates/codegen/xai-chat-state/src/compaction_utils.rs:947-985 | non-results kept in order, paired, every declared call answered in its own run, survivors first and inserted results behind them in call order; the report says "changed" exactly if the history differs, and its counts add up; answered once, and stable under a second run, exactly if repeated ids had a result |
| `RepairProperties.RepairAnswers` | crates/codegen/xai-grok-sampling-types/src/conversation.rs:2767-2783 | for all histories: each call has a result in its run; no id has two exactly if every id declared twice was already answered |
| `RepairProperties.RepairPairs` | crates/codegen/xai-chat-state/src/compaction_utils.rs:984-995 | no result is left outside the run of its own call |
| `RepairProperties.RepairFixed` | crates/codegen/xai-chat-state/src/compaction_utils.rs:964-969 | a history is left alone exactly if it is paired and every call is answered exactly once |
| `RepairProperties.RepairStable` | crates/codegen/xai-chat-state/src/compaction_utils.rs:964-969 | exact condition for the documented idempotence |
| `RepairProperties.TwoRunsSuffice` | crates/codegen/xai-chat-state/src/compaction_utils.rs:964-969 | without any condition a third run changes nothing |
| `RepairProperties.RepairIsNotIdempotent` | crates/codegen/xai-grok-sampling-types/src/conversation.rs:2816-2826 | a call id declared twice makes the second run change the history |
| `RepairProperties.LastResultWins` | crates/codegen/xai-grok-sampling-types/src/conversation.rs:2904-2908 | of several results for one call the last survives with its own output |
| `UserQuery.RemoveSystemTags` | crates/codegen/xai-chat-state/src/compaction_utils.rs:259-274 | the nested rewriting loops compute the tag-by-tag specification |
| `UserQuery.StripBlocksClears` | crates/codegen/xai-chat-state/src/compaction_utils.rs:259-274 | after one tag's loop no closed block of it is left |
| `UserQuery.StripTrimFixed` | crates/codegen/xai-chat-state/src/compaction_utils.rs:255-274 | stripping leaves a trimmed text alone exactly if no tag has a closed block in it |
| `UserQuery.UnwrapIsInverse` | crates/codegen/xai-chat-state/src/compaction_utils.rs:280-289 | extracting a wrapped query gives it back exactly if it holds neither the closing tag nor a closed system block |
| `QueryContents.BlockIsCut` | crates/codegen/xai-chat-state/src/compaction_utils.rs:263-272 | for every text: removing the first block leaves what stands before it and behind it, joined |
| `QueryContents.InjectedBlocksGo` | crates/codegen/xai-chat-state/src/compaction_utils.rs:255-274 | of a message made of any number of injected blocks, in whatever order, exactly the text around them is left, trimmed |
| `QueryContents.TaggedQueryIs` | crates/codegen/xai-chat-state/src/compaction_utils.rs:280-287 | with query tags, the text between them is extracted, whatever surrounds them, without its injected blocks |
| `QueryContents.UntaggedQueryIs` | crates/codegen/xai-chat-state/src/compaction_utils.rs:280-289 | without query tags, all the text around injected blocks is extracted |
| `QueryContents.PlainTextIsKept` | crates/codegen/xai-chat-state/src/compaction_utils.rs:255-289 | text without query tags and closed system blocks comes out trimmed, also with unclosed openers |
| `QueryContents.PartsAreJoined` | crates/codegen/xai-grok-sampling-types/src/conversation.rs:1139-1150 | the texts of several parts are joined in order by single line breaks; images add nothing |
| `QueryContents.TypedTextDecides` | crates/codegen/xai-chat-state/src/compaction_utils.rs:344-370 | a user message is a real turn exactly if it was not made up and has an image, or text around its injected blocks that is neither blank nor a continuation prompt |
| `CompactedHistory.ContextIs` | crates/codegen/xai-chat-state/src/compaction_utils.rs:401-464 | the recent messages are exactly the assistant items and results behind the last real turn, in order, the former unchanged, the latter with a placeholder and without images; the query is what that turn says |
| `CompactedHistory.CompactionIsFixpoint` | crates/codegen/xai-chat-state/src/compaction_utils.rs:391-464 | the state read from a compacted history has the same recent messages, always, and the same query exactly if it survives |
| `CompactedHistory.CompactionsLoseNoMore` | crates/codegen/xai-chat-state/src/compaction_utils.rs:570-580 | any number of compactions keep the recent messages; one or more keep the query exactly if it survives; it never comes back once lost or shortened |
| `CompactedHistory.QuerySettles` | crates/codegen/xai-chat-state/src/compaction_utils.rs:280-289 | after as many compactions as the query has characters, no further one changes it |
| `CompactedHistory.OnlyLastInputMatters` | crates/codegen/xai-chat-state/src/compaction_utils.rs:828-863 | nothing accumulates: with a query that survives, compacting any number of times equals compacting once with the last summary, prompt and reminders |
| `CompactedHistory.RecentIsFixed` | crates/codegen/xai-chat-state/src/compaction_utils.rs:444-464 | the recent-message half under any classification of real turns |
| `CompactedHistory.CompactedTexts` | crates/codegen/xai-chat-state/src/compaction_utils.rs:828-863 | after any number of compactions the model reads the texts of the last input only, each marked as made up for its reason, at most one query, and exactly the original calls and results between query and summary; the history does not grow |
| `CompactedHistory.CompactedIsPaired` | crates/codegen/xai-chat-state/src/compaction_utils.rs:828-863 | for every paired conversation the compacted history is paired, validates, and sanitizing or stripping it is a no-op |
| `CompactedHistory.SpanningPairsSurvive` | crates/codegen/xai-chat-state/src/compaction_utils.rs:429-443 | call/result pairs that span injected user items are not torn: the compacted history still validates |
| `CompactedHistory.ImageOnlyQueryIsLost` | crates/codegen/xai-chat-state/src/compaction_utils.rs:344-370 | an image-only turn is real, and its empty query is gone after one compaction |
| `Summary.RemoveLeadingAnalysis` | crates/codegen/xai-chat-state/src/compaction_utils.rs:625-649 | the in-place loop ends on every input and computes the recursive specification |
| `Summary.FormatCompactSummary` | crates/codegen/xai-chat-state/src/compaction_utils.rs:625-663 | for every input the output holds none of the six control tags, no triple line break and no outer blanks |
| `Summary.FormatIsInert` | crates/codegen/xai-chat-state/src/compaction_utils.rs:691-698 | inserting sentinels, collapsing and trimming never create a tag, so none survives |
| `Summary.FormatIsIdempotent` | crates/codegen/xai-chat-state/src/compaction_utils.rs:625-663 | formatting twice is formatting once |
| `Summary.NeutralizeKeepsVisible` | crates/codegen/xai-chat-state/src/compaction_utils.rs:687-698 | neutralizing changes nothing but zero-width spaces |
| `Summary.CollapseIsSqueeze` | crates/codegen/xai-chat-state/src/compaction_utils.rs:659-661 | the repeated whole-string replacement equals one pass that keeps two line breaks of each run |
| `SummaryContents.SummaryKeepsBody` | crates/codegen/xai-chat-state/src/compaction_utils.rs:650-686 | for every text before, inside and behind the summary block: the first and the last stay where they are, the tags become the label, and of the inside exactly scratchpad and leftover wrapper go |
| `SummaryContents.CleanSummaryIsKept` | crates/codegen/xai-chat-state/src/compaction_utils.rs:650-663 | a summary without control tags inside comes out whole behind the label, numbered or not |
| `SummaryContents.TextBehindScratchpadIsKept` | crates/codegen/xai-chat-state/src/compaction_utils.rs:674-686 | an untagged scratchpad goes up to its last closing tag, and all that stands behind it stays |
| `SummaryContents.UntaggedTextIsKept` | crates/codegen/xai-chat-state/src/compaction_utils.rs:625-663 | text without a summary block and without scratchpad in front passes through neutralized, squeezed and trimmed; clean text squeezed and trimmed |
| `SummaryContents.TagIsNeutralized` | crates/codegen/xai-chat-state/src/compaction_utils.rs:687-698 | every control tag gets a zero-width space behind its angle bracket, whatever stands left and right of it, which is treated as it would be alone |
| `SummaryContents.CleanIsUntouched` | crates/codegen/xai-chat-state/src/compaction_utils.rs:687-698 | neutralizing leaves text without control tags alone |
| `SummaryContents.NumberedSummaryIsKept` | crates/codegen/xai-chat-state/src/compaction_utils.rs:674-686 | a body that starts with a numbered section, also a decorated one, is emitted whole whatever tags it quotes |
| `SummaryContents.ScratchpadIsDropped` | crates/codegen/xai-chat-state/src/compaction_utils.rs:627-640 | a leading closed analysis block makes no difference to the output, wherever it leads: behind blanks, before the summary with any text in front, or first in the summary |
| `SummaryContents.UnclosedScratchpadIsDropped` | crates/codegen/xai-chat-state/src/compaction_utils.rs:641-648 | an unclosed one is dropped up to the summary, or to the end |
| `Summary.PeelLeavesNoCloser` | crates/codegen/xai-chat-state/src/compaction_utils.rs:664-686 | an untagged scratchpad goes up to its last closer unless a numbered section comes first |
| `Budget.FitConversationToBudget` | crates/codegen/xai-chat-state/src/compaction_utils.rs:128-161 | the loops compute the specification for every estimator; by position: within the limit nothing changes, else the System item stays and behind it everything from the first place on where a suffix without a leading result is affordable, or, if there is none, the shrunken last turn |
| `Budget.FitKeepsLimit` | crates/codegen/xai-chat-state/src/compaction_utils.rs:127-161 | for every conversation and limit, under the program's estimator: the result is within the limit exactly if the conversation was, or the head is and either a suffix is kept or the truncated last turn fits what the head leaves |
| `Budget.RecoveryKeepsLimit` | crates/codegen/xai-chat-state/src/compaction_utils.rs:163-222 | on the recovery path the exact cost of the result, for owners, results, small shares, call arguments, images and several text parts, and when it is within the limit |
| `Budget.SmallLimitOverruns` | crates/codegen/xai-chat-state/src/compaction_utils.rs:163-178 | every single user text over a limit below fourteen tokens stays over it |
| `Budget.FitIsWithinBudget` | crates/codegen/xai-chat-state/src/compaction_utils.rs:139-158 | on the ordinary path the kept part is a suffix that starts with no result, within the larger of limit and head cost, and within the limit exactly if the head is |
| `Budget.RecoveryIsWithinBudget` | crates/codegen/xai-chat-state/src/compaction_utils.rs:157-194 | a simple case that always fits, on either path: each trailing result's share is at least sixteen tokens, or the last item is one text |
| `Budget.FitIsOptimal` | crates/codegen/xai-chat-state/src/compaction_utils.rs:143-155 | every longer suffix that starts with no result is over budget |
| `Budget.FitKeepsSomething` | crates/codegen/xai-chat-state/src/compaction_utils.rs:127-161 | the leading System item stays first and a non-empty body is never dropped entirely |
| `Budget.FitIsPaired` | crates/codegen/xai-chat-state/src/compaction_utils.rs:128-194 | contiguous pairing survives on the ordinary and on the recovery path |
| `Budget.RecoverTruncatedTailUnit` | crates/codegen/xai-chat-state/src/compaction_utils.rs:163-194 | popping and reassembling the last turn computes the specification: its owner whole, then its results in order, each cut to the same share; the shares use up what the owner leaves but for less than one token each |
| `Budget.UntruncatedIsOverBudget` | crates/codegen/xai-chat-state/src/compaction_utils.rs:196-222 | on the recovery path a last item of a kind that is never truncated leaves the conversation over the limit |
| `Budget.RecoveredFits` | crates/codegen/xai-chat-state/src/compaction_utils.rs:179-193 | a recovered run of results, with or without its owner, fits the budget when each share is at least sixteen tokens and outputs are below 10^8 bytes |
| `Budget.ResultFitsShare` | crates/codegen/xai-chat-state/src/compaction_utils.rs:196-204 | a result over its share costs at most that share after truncation exactly if the marker fits |
| `Budget.SmallSharesOverrun` | crates/codegen/xai-chat-state/src/compaction_utils.rs:185-191 | every result over a share of less than fourteen tokens comes out above the share |
| `Budget.TruncateTextToBytes` | crates/codegen/xai-chat-state/src/compaction_utils.rs:225-240 | the result is the longest prefix of whole characters that leaves 64 bytes of the limit, and behind it a marker with exactly the number of bytes that are left out |
| `Budget.ItemIsCut` | crates/codegen/xai-chat-state/src/compaction_utils.rs:196-222 | truncating an item changes nothing but its texts, and cuts exactly those over the limit, each on its own |
| `Budget.TruncatedLength` | crates/codegen/xai-chat-state/src/compaction_utils.rs:225-240 | exact length: kept bytes plus 56 plus the digits of exactly the bytes that were dropped |
| `Budget.TruncatedBound` | crates/codegen/xai-chat-state/src/compaction_utils.rs:229-240 | at most the larger of the limit and 64 below 10^8 bytes |
| `Budget.TruncationFits` | crates/codegen/xai-chat-state/src/compaction_utils.rs:224-240 | for every text and limit: within the limit exactly if it was short enough, or the marker with the digits of the dropped count fits behind the kept bytes |
| `Budget.ShortTruncationFits` | crates/codegen/xai-chat-state/src/compaction_utils.rs:229-240 | below 10^8 bytes that is so for every limit from 64, and for no limit up to 56 |
| `Budget.SmallLimitIsExceeded` | crates/codegen/xai-chat-state/src/compaction_utils.rs:229-240 | every text cut to 56 bytes or less comes out longer than 56 bytes |
| `Budget.LongTextIsOverLimit` | crates/codegen/xai-chat-state/src/compaction_utils.rs:229-240 | texts of 10^8 bytes or more overrun a limit of 64 |
| `WaitProtocol.AllRuns` | crates/codegen/ptyctl/src/session.rs:158-173 | after every interleaving: no chunk lost between reader and grid, every grid change announced once, the lock has one owner, each waiter's knowledge is correct |
| `WaitProtocol.NoLostWakeup` | crates/codegen/ptyctl/src/wait.rs:97-128 | a waiter parked on the current generation, with no writer under way and the sender alive, has seen exactly the current grid |
| `WaitProtocol.WakeupIsComing` | crates/codegen/ptyctl/src/session.rs:272-283 | if the condition holds, a parked waiter can wake now or right after the pending bump |
| `WaitProtocol.FailFastIsSound` | crates/codegen/ptyctl/src/wait.rs:117-123 | in every run `ended` means the condition was false on a grid that had been fed everything received, with only resizes behind it; that grid is the session's exactly if no resize has found the sender gone since the check and none is about to |
| `WaitProtocol.MatchIsSound` | crates/codegen/ptyctl/src/wait.rs:99-116 | a match held on a grid the session went through |
| `WaitOutcomes.MatchedIffMet` | crates/codegen/ptyctl/src/wait.rs:97-116 | over every run: a waiter reports a match of a grid exactly if at some step it found its condition true on it, so what a check finds is never lost |
| `WaitOutcomes.UnmetIff` | crates/codegen/ptyctl/src/wait.rs:117-127 | it reports a timeout exactly if its deadline expired in the run, and the end of the session exactly if it saw the channel closed |
| `WaitOutcomes.StepsInOrder` | crates/codegen/ptyctl/src/wait.rs:97-128 | a waiter's steps come in the order of the loop: once woken it can only mark, take the lock and check again; nothing follows the end of the wait |
| `WaitOutcomes.SeenWasMarked` | crates/codegen/ptyctl/src/wait.rs:98-99 | the generation it compares with is the one it marked before it last took the lock |
| `WaitOutcomes.ParkedOnLastLook` | crates/codegen/ptyctl/src/wait.rs:100-117 | the grid of a parked waiter is the one of its last check, and its condition was false on it |
| `WaitOutcomes.MatchIsInReach` | crates/codegen/ptyctl/src/wait.rs:97-128 | from every reachable state in which the condition holds, no chunk is just being fed and the wait is neither over nor about to see the session end, some interleaving makes the waiter report a match of this very grid |
| `WaitProtocol.LateResizeIsMissed` | crates/codegen/ptyctl/src/session.rs:279-281 | for any output and any resize that changes the verdict on it there is a run in which `ended` is wrong |
| `WaitStable.RunWaitStable` | crates/codegen/ptyctl/src/wait.rs:132-165 | the loop computes the specified outcome of every sequence of wakeups; by position: it ends in the first round whose sleep is over or that wakes at the deadline or later, matched exactly if that sleep ended a window before the deadline, else as ended exactly if the sender was seen gone so far |
| `WaitStable.MatchMeansFullWindow` | crates/codegen/ptyctl/src/wait.rs:141-161 | a match comes after a full window since the last restart that ends by the deadline; at least the window has elapsed |
| `WaitStable.MatchMeansStable` | crates/codegen/ptyctl/src/wait.rs:131-165 | against the generation counter: the writes in that window are the unnoticed bumps plus the writes not bumped yet, less those pending when it began; begun between writes, the grid is unchanged exactly if there are none |
| `WaitStable.MatchMissesWrite` | crates/codegen/ptyctl/src/wait.rs:131-165 | for every window, chunk and condition a run that reports a match although the chunk was fed and announced in its window |
| `WaitStable.RestartMeansBump` | crates/codegen/ptyctl/src/wait.rs:142-148 | a restart with the sender alive means that the generation has moved |
| `WaitProtocol.WritesBetween` | crates/codegen/ptyctl/src/session.rs:272-283 | between two looks at the session, grid changes are bumps plus writes not bumped, for every interleaving |
| `WaitStable.ReturnsByDeadline` | crates/codegen/ptyctl/src/wait.rs:149-152 | the wait returns at its first wakeup at or after the deadline |
| `WaitStable.ClosedRestartsOnce` | crates/codegen/ptyctl/src/wait.rs:138-148 | a closed sender restarts the window at most once |
| `WaitStable.RawTail.Push` | crates/codegen/ptyctl/src/wait.rs:202-214 | the tail becomes the last 2048 bytes of the old tail and the new bytes, or all of them |
| `WaitStable.TailIsEndOfOutput` | crates/codegen/ptyctl/src/wait.rs:201-214 | however output was chunked, the tail is its end |
| `LineReader.BufferedSource.ReadLineCapped` | crates/codegen/xai-acp-lib/src/line_reader.rs:140-177 | reads exactly the first line of what is still to come, and fails exactly if it is over the cap |
| `LineReader.RunReaderTask` | crates/codegen/xai-acp-lib/src/line_reader.rs:66-85 | what is queued depends only on the bytes of the source, not on its chunks |
| `LineReader.LinesAreSource` | crates/codegen/xai-acp-lib/src/line_reader.rs:66-85 | the queued bytes are a prefix of the source, and all of it without an error |
| `LineReader.LinesAreLines` | crates/codegen/xai-acp-lib/src/line_reader.rs:34-41 | queued lines are non-empty, within the cap, broken only at their end; an error comes last |
| `LineReader.ErrorIffLongLine` | crates/codegen/xai-acp-lib/src/line_reader.rs:134-177 | an error is queued exactly if some line of the source is over the cap |
| `LineReader.LineBufferedRead.PollReadInto` | crates/codegen/xai-acp-lib/src/line_reader.rs:96-132 | the field updates implement the specified poll |
| `LineReader.ServesPrefix` | crates/codegen/xai-acp-lib/src/line_reader.rs:96-132 | for every interleaving and all read sizes, what was served is a prefix of the source |
| `LineReader.ReadMakesProgress` | crates/codegen/xai-acp-lib/src/line_reader.rs:96-132 | a read with anything queued serves exactly as much of one line as its size allows; it is pending or at the end exactly if nothing is left, and which of them tells whether the task is over |
| `LineReader.ReadsServeAll` | crates/codegen/xai-acp-lib/src/line_reader.rs:96-132 | after any run, reads of any positive sizes serve every queued byte, after at most as many of them as there are bytes and lines left |
| `LineReader.PendsBetweenLines` | crates/codegen/xai-acp-lib/src/line_reader.rs:8-12 | a read is pending, at the end or failing only when every queued byte was served, so never inside a line |
| `Interner.StringInterner.InternBytes` | crates/codegen/xai-codebase-graph/src/interner.rs:119-144 | one step of the specified entries, over-long strings included; with short strings a refinement of an append-only injective table; readable exactly if shorter than 65536 bytes; ids given out before read the same bytes after any intern; arena and offsets grow by at most the string and one entry |
| `Interner.InternAll` | crates/codegen/xai-codebase-graph/src/interner.rs:119-144 | every run within 32 bits of arena and ids, over-long strings included, ends in the specified entries and returns the specified ids, under any hash |
| `Interner.InternAndRead` | crates/codegen/xai-codebase-graph/src/interner.rs:112-184 | at the end of such a run each id reads what was stored for its string, which is the string exactly if it is short; short strings have equal ids exactly if they are equal; the id of an over-long one is above all before it |
| `Interner.IdsAt` | crates/codegen/xai-codebase-graph/src/interner.rs:119-144 | the ids returned by a run are those of the single steps |
| `Interner.ShortIdsAreStable` | crates/codegen/xai-codebase-graph/src/interner.rs:112-144 | over every sequence of interns, whatever else is interned, short strings get the same id exactly if they are equal |
| `Interner.OverlongIdIsNew` | crates/codegen/xai-codebase-graph/src/interner.rs:112-144 | every intern of a string of 65536 bytes or more gets an id above all before it, also of the same string |
| `Interner.OverlongIdIsShared` | crates/codegen/xai-codebase-graph/src/interner.rs:119-144 | such an id is handed out again only for a later short string that its entry reads and whose hash collides |
| `Interner.ShortRuns` | crates/codegen/xai-codebase-graph/src/interner.rs:119-144 | runs of short strings refine the append-only injective table, independently of the hash |
| `Interner.StringInterner.GetBytesId` | crates/codegen/xai-codebase-graph/src/interner.rs:157-168 | under any hash, bucket search finds the first entry that answers; with short strings that is a linear search of the table |
| `Interner.StringInterner.GetBytes` | crates/codegen/xai-codebase-graph/src/interner.rs:180-184 | an id reads its string, or what the cast of the length leaves of it |
| `Interner.StringInterner.FromParts` | crates/codegen/xai-codebase-graph/src/interner.rs:286-303 | rebuilding from parts of a sound interner is sound again |
| `Interner.Rebuild` | crates/codegen/xai-codebase-graph/src/interner.rs:283-303 | serializing and rebuilding keeps what every id reads, and the lookup when all strings are short |
| `Interner.RebuildAgrees` | crates/codegen/xai-codebase-graph/src/interner.rs:283-303 | rebuilding keeps the answer to every lookup exactly if every entry that is first to read some bytes lies in the bucket of these bytes |
| `Interner.RebuildMovesIds` | crates/codegen/xai-codebase-graph/src/interner.rs:283-303 | an over-long string and what the cast leaves of it, in different buckets: rebuilding changes the id of the latter |
| `Interner.StringInterner.Clear` | crates/codegen/xai-codebase-graph/src/interner.rs:254-258 | the table is empty |
| `Interner.IdsAreStable` | crates/codegen/xai-codebase-graph/src/interner.rs:112-144 | in every run of short strings each id is the position of its string in the injective table |
| `Usage.UsageLedger.RecordMainLoopCall` | crates/codegen/xai-chat-state/src/usage.rs:114-124 | the new ledger is the specified one |
| `Usage.UsageLedger.RecordSubagent` | crates/codegen/xai-chat-state/src/usage.rs:127-134 | the loop over entries computes the specified ledger |
| `Usage.FoldAmount` | crates/codegen/xai-chat-state/src/usage.rs:71-98 | every amount of a fold is the capped sum of the two, a cost is reported if either is |
| `Usage.RunBalanced` | crates/codegen/xai-chat-state/src/usage.rs:140-147 | over every run each total is the saturating sum of its entries although both saturate; main-loop calls never exceed model calls |
| `Usage.LedgerBills` | crates/codegen/xai-chat-state/src/usage.rs:40-147 | over every run each total, overall and per model, is the capped sum of the fields that calls and subagents reported for it; a cost of zero or less counts as missing; calls are counted, and the ledger is incomplete exactly if something was reported missing |
| `Usage.IncompleteStays` | crates/codegen/xai-chat-state/src/usage.rs:108-138 | an incomplete ledger stays incomplete |
| `Usage.OrderDoesNotMatter` | crates/codegen/xai-chat-state/src/usage.rs:110-147 | runs with the same calls in any order give the same ledger |
| `Usage.RefundsDependOnOrder` | crates/codegen/xai-chat-state/src/usage.rs:93-98 | two runs with the same subagent reports, one of them negative, in different order end with different costs |
| `Segments.FilenameRoundTrip` | crates/codegen/xai-chat-state/src/compaction_transcript.rs:81-97 | parsing undoes printing for every 64-bit index |
| `Segments.LabelIs` | crates/codegen/xai-chat-state/src/compaction_transcript.rs:81-83 | the label has at least three digits and no zero in front that these do not need |
| `Segments.ParsesExactly` | crates/codegen/xai-chat-state/src/compaction_transcript.rs:90-97 | exactly the names with a 64-bit number between prefix and suffix are parsed, as that number |
| `Segments.SegmentPathIsRecognized` | crates/codegen/xai-chat-state/src/compaction_transcript.rs:120-141 | behind any directory prefix a segment path is classified as that segment |
| `Segments.IndexPathIsRecognized` | crates/codegen/xai-chat-state/src/compaction_transcript.rs:131-140 | behind any directory prefix the index file is classified as the index |
| `Segments.SegmentPathsAre` | crates/codegen/xai-chat-state/src/compaction_transcript.rs:118-141 | a path is classified as a segment exactly if it leads, from wherever, into the store to a file of such a name |
| `Segments.IndexPathsAre` | crates/codegen/xai-chat-state/src/compaction_transcript.rs:131-140 | and as the index exactly if it leads to the index file there |
| `Segments.DirPathIsRecognized` | crates/codegen/xai-chat-state/src/compaction_transcript.rs:120-130 | the directory is recognized, with any trailing slashes, exactly as a whole path component |
| `Segments.RenderSegment` | crates/codegen/xai-chat-state/src/compaction_transcript.rs:478-506 | exactly the longest prefix of whole turns that fits is rendered; each turn stands behind those before it, with one line break between two; the notice at the end has the number of the rest |
| `Segments.DocumentIsCapped` | crates/codegen/xai-chat-state/src/compaction_transcript.rs:479-506 | for every preamble, turns and cut: the document is within the cap exactly if preamble, turns, one byte per join and the notice are |
| `Segments.DocumentLength` | crates/codegen/xai-chat-state/src/compaction_transcript.rs:479-506 | at most the larger of the cap and what the preamble reserves, plus one byte per join |
| `Segments.LongPreambleOverruns` | crates/codegen/xai-chat-state/src/compaction_transcript.rs:461-482 | a preamble over the cap overruns it, with or without turns |
| `Segments.FullBudgetOverruns` | crates/codegen/xai-chat-state/src/compaction_transcript.rs:479-506 | turns that fill the budget untruncated overrun the cap exactly if they are more than the notice and the slack have bytes, plus one |
| `Segments.CapIsExceeded` | crates/codegen/xai-chat-state/src/compaction_transcript.rs:316-342 | ten thousand user turns of 52 bytes in full detail, behind any preamble of at most 4159 bytes, are rendered whole and exceed the cap |

## Left out

- Turn-interrupt and prompt-index fields of user items, model metadata of assistant items, and the other fields of the
  compaction state: they are copied and never read by the modelled code.
- `prepare_conversation_*`, `strip_images`, `extract_messages_since_last_user`, `bound_captured_output`: item-by-item maps
  and filters; none of the properties above depends on them.
- `Budget.FitConversationToBudget`: does not model 64-bit overflow of the token sum, nor saturation of the byte limit at
  the machine word.
- `Budget.EstimateItem`: a reasoning item is one text; its summary, content and encrypted part are not told apart.
- `CompactedHistory.CompactionIsFixpoint`: takes the system message to be a System item, and the summary text, preamble
  and hint as one given text.
- `WaitProtocol.FailFastIsSound`: the deadline, the regex matcher and exit-code reporting are not modelled; a timeout may
  happen at any time while a waiter is parked.
- `WaitStable.RunWaitStable`: time enters only through the rounds; which of two ready branches is polled first is left
  open, so the sleep may fire whatever the channel holds.
- `LineReader.RunReaderTask`: input errors of the source itself, the queue's capacity of 64 and a dropped receiver.
- `Interner.StringInterner.InternBytes`: nothing is stated once the arena or the number of ids passes 32 bits.
- `Segments.RenderSegment`: the preamble and the text of each turn are given; their rendering, statistics, keywords and
  timestamps are not modelled.
- Terminal emulation, PTY and HTTP plumbing, key parsing, code navigation, persistence and the desktop interface.

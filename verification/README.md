# ArenaNext, modelled and proved in Dafny

The repository watches a running Hearthstone client. It tails five append-only log files, merges and parses their
lines, folds the events into the state of an Arena run, and corrects that state from what is visible on the screen.
This project models the parts where a fast, chunked, incremental or resumable path has to agree with a simple one,
and proves that it does, or says exactly when.

Verify everything with `dafny verify dfyconfig.toml`.

## Layout

| files | what they model |
|---|---|
| `Prelude`, `Ordered`, `Text`, `Decimals` | options and counters, ordered maps, ASCII text, numbers as text; a `char` stands for one byte |
| `LogRecords`, `ReverseSearch`, `LogReader` | complete records, backward search by chunks, the incremental reader |
| `LineGrammar`, `LogParser`, `ParserBrackets` | timestamps, line patterns and prefilter, the three-flag parser, its output on whole runs |
| `Stamps`, `LineTexts`, `ZoneRecords` | the texts the game writes and what they are read as; what a zone record does to the deck |
| `ArenaState`, `ReducerSpec`, `ReducerFrames`, `Reducer`, `ReducerCheckpoint` | the Arena state, every reducer operation as a function and what it leaves alone, the reducer object, checkpoints |
| `WarmRestart`, `AcceptedCheckpoints`, `RedraftStages`, `GameDeck`, `SnapshotRefresh`, `CardSources` | properties of all reducer runs, and which checkpoints are accepted |
| `PickDecks`, `WholeRedraft`, `DeckRecords`, `ManualActions`, `LogNames` | picks, drafts, Redrafts, sightings, games, offers and manual actions from start to end; the names of classes, phases and cards |
| `KWayMerge`, `ObserverSpec`, `Observer`, `Tailing`, `TailingExact`, `UnsortedAttach` | the merge of the log streams, attach and poll as functions and as an object, tailing against full replay and exactly when they agree |
| `AllRecords`, `PollFaults` | attach and poll against all records of all files, prefilter and inert components aside; when a poll refuses its files |
| `SessionProvenance`, `ObserverRestart` | the sources an observer records, the observer restored from its checkpoint |
| `TailRun`, `TailAttach`, `TailPolls`, `SuffixResets`, `PendingHeader` | the live attach that reads an Arena log from its end, the polls after it, and when it agrees with the history |
| `AttachChoices`, `HydratedDeck` | what the live attach decides to read, the deck it hydrates, and that deck against the history's |
| `Rotation`, `Sidebar`, `SidebarReads`, `SidebarBaseline` | log rotation, sidebar reads, and what the observer accepts from them |
| `Evidence`, `ReadyExactly` | multi-frame recognition evidence, and exactly when it is a recommendation |
| `LineDiff`, `EndingNotice`, `CardNames` | the configuration diff and its notice, the edit distance of card names |
| `ConfigLines`, `ConfigPatch`, `ConfigSections`, `ConfigReader`, `ConfigText`, `ConfigEndings`, `ConfigSettled` | the `log.config` patcher and reader, what is written, and when patching twice is patching once |

Objects that the program updates in place are classes here (`ArenaReducer`, `HearthstoneLogParser`,
`ComponentLogReader`, `SessionObserver`, `ConfidenceAccumulator`); their methods are proved equal to functions, and the
lemmas are about those functions and about all runs of them.

## Where the code and its documentation differ

* The prefilter is documented as dropping only records that cannot change state. It looks for upper-case words before
  the parser upper-cases LoadingScreen and Power messages, so a record in lower case is lost
  (`LogParser.PrefilterGap`, `LogParser.PrefilterDropsLowerCase`, `AllRecords.LowerCaseIsLost`). For Arena, Zone and Asset
  the claim holds, and without such records an attach reads all there is (`AllRecords.AttachReadsEverything`).
* A run suffix found by its sentinel is documented as confirmed by a draft deck id. The id may come from a later
  snapshot header, so a line that merely mentions the sentinel can be accepted (`TailRun.RunAcceptedIff`,
  `TailPolls.CoincidenceAccepted`); `SuffixResets.TailRunIsHistoryIff` says when that does no harm.
* Every poll checks that no line sorts below one already reduced. It compares with the last line only. That is enough
  if and only if the attach left no gap, a condition on its own lines (`TailingExact.TailingIsReplayIff`); reading every
  component in key order is sufficient for it (`Tailing.SortedIsGapless`), and so is a single component
  (`Tailing.SingleIsGapless`). Otherwise polls that are all accepted can end in another state than a replay of the same
  files (`UnsortedAttach.GuardMissesUnsortedAttach`).
* A hydrated snapshot is documented as the newest current deck. Under a pending Redraft boundary the full parser
  ignores a repeated header that the live attach takes for a snapshot (`TailAttach.TailSnapshotNamesRunIff`,
  `PendingHeader.LiveNamesAnotherRun`).
* Dividing by all observed frames is documented to keep a one-frame appearance from looking stable. For all thresholds
  that holds if and only if no card gathers more than one in a slot of a frame, repeated listings added up
  (`Evidence.ShareAlwaysKeptIff`); observing enforces neither a confidence of at most one nor distinct cards
  (`Evidence.OneFrameMasquerades`, `Evidence.RepeatedCardMasquerades`).
* A rotated log is documented to start at a newline boundary; a window without a newline starts wherever it starts
  (`Rotation.RetainedBoundaryIff`, `Rotation.OverlongRecordIsTorn`).
* Disabling picks lasts exactly while no Redraft boundary is pending; a pending one reopens the gate with the next choice
  (`ParserBrackets.PendingRedraftOverridesDisable`, `ParserBrackets.ChoiceAfterDisableIff`).
* Enabling the logs a second time is promised to change nothing. On a text without CRLF that ends in a carriage return
  the second patch does so only when the last line is a required setting without a comment
  (`ConfigEndings.TextPatchIdempotentIff`).
* The preview's notice says that the current file lacks its final newline; a file with mixed line endings that
  has all required settings gets it without lacking one (`EndingNotice.WrongNoticeIff`).

## Model

| member | source | states |
|---|---|---|
| Tailing.TailingRefinesReplay | crates/hs-observer/src/lib.rs:1046-1184 | Attach, then any number of successful polls of files that only grow, is one complete-history attach to the final files: same cursors, file evidence, parser flags, last order and reducer. The attach must have left no gap; the result leaves none either. |
| Tailing.AttachThenPolls | crates/hs-observer/src/lib.rs:667-767 | The same starting from the files: it is enough that the attach-time lines leave no gap, or that every component's own lines are in key order. |
| Tailing.PollMatchesReplayIff | crates/hs-observer/src/lib.rs:1115-1152 | For any growth, the lines of attach and poll together are the lines of one attach if and only if no newly read line belongs below a line already consumed. |
| Tailing.PollStaysUpToDate | crates/hs-observer/src/lib.rs:1046-1184 | While files grow, a poll succeeds if and only if its lines pass the order check; success keeps the observer equal to a fresh attach, and the order check is the only possible error. |
| TailingExact.TailingIsReplayIff | crates/hs-observer/src/lib.rs:1046-1184 | For files that end with complete records: successful polls of growing files always end where one complete-history attach to the final files ends if and only if the attach left no gap. |
| TailingExact.GapIsFilled | crates/hs-observer/src/lib.rs:1125-1139 | After an attach with a gap, one record appended to one file is polled without complaint and ends in another observer than an attach to the grown files. |
| Tailing.OrderCheckSufficesIff | crates/hs-observer/src/lib.rs:1125-1139 | The order check makes every later reading continue the attach if and only if the attach left no gap: no component that can still deliver has a key that the check lets through after the last line and that belongs below a line read since that component's own last one. |
| Tailing.SortedIsGapless | crates/hs-observer/src/lib.rs:1125-1139 | Lines read in key order leave no gap. |
| Tailing.SingleIsGapless | crates/hs-observer/src/lib.rs:1125-1139 | Nor do the lines of a single component, in whatever order they were read. |
| UnsortedAttach.GuardMissesUnsortedAttach | crates/hs-observer/src/lib.rs:1125-1139 | Two log files, byte for byte: Power was read at second five and then one, a LoadingScreen record of second two passes the check and the poll ends the game, while a full replay of the same files has the game running. |
| Tailing.AttachSortedIff | crates/hs-observer/src/lib.rs:706-733 | The attach consumes its lines in key order if and only if each component's lines are in key order. |
| AllRecords.AttachReadsEverything | crates/hs-observer/src/lib.rs:667-767 | The parser flags, reducer and consumed sources of an attach are the fold of all complete records of all five files, in an order that keeps each file's own; in key order if every file's records are. Needed: no LoadingScreen or Power record carries its words only in lower case. |
| AllRecords.PollReadsEverything | crates/hs-observer/src/lib.rs:1046-1184 | The same for a successful poll and the complete records after its cursors. |
| AllRecords.InertIsSilent | crates/hs-log-parser/src/lib.rs:69-77 | A component that is not read could not have changed a flag or given an event, whatever its line and the parser's state. |
| AllRecords.LowerCaseIsLost | crates/hs-log-parser/src/lib.rs:566-605 | Two bytes-for-bytes attaches to a Power log in lower case: the reader loses the game start that the parser would have seen. |
| PollFaults.FilesTakenIff | crates/hs-observer/src/lib.rs:1046-1114 | After an attach, a poll of any other files takes them if and only if they are the same files, none shorter than its last complete line, each with the same last 64 bytes before that; otherwise it names the first component of which this is false. |
| PollFaults.FaultIs | crates/hs-observer/src/lib.rs:1060-1114 | What became of a file decides the complaint: disappeared, appeared, replaced, truncated or changed. |
| Stamps.StampTextParses | crates/hs-log-parser/src/lib.rs:675-735 | Every stamp the game writes, with or without a level letter, one or two hour digits and any number of fraction digits, is read as its time of day, and the message starts after it. |
| Stamps.StampsOrder | crates/hs-observer/src/lib.rs:1882-1888 | Stamped lines are merged by their time of day; only lines of the same instant go by component, then by place in the file. |
| Stamps.UnstampedFirst | crates/hs-observer/src/lib.rs:1882-1888 | A line without a stamp comes before every stamped one. |
| ObserverSpec.SourcesTell | crates/hs-observer/src/lib.rs:1890-1900 | Two records have the same source exactly when they start at the same place of the same file with the same checksum. |
| ObserverSpec.LastConsumed | crates/hs-observer/src/lib.rs:1115-1152 | The order and the source remembered are those of the last line consumed. |
| Observer.SessionObserver.AttachFull | crates/hs-observer/src/lib.rs:667-767 | The complete-history attach, loops and readers included, ends in exactly the specified cursors, evidence, parser, reducer and order, or reports that there is nothing to read. |
| Observer.SessionObserver.Poll | crates/hs-observer/src/lib.rs:1046-1184 | A poll reports the first file fault in component order, or the order fault, or leaves exactly the specified state; the flag says whether a line was consumed or a cursor moved. |
| Observer.SessionObserver.SaveCursors | crates/hs-observer/src/lib.rs:1155-1181 | Every reader's cursor is remembered with the bytes before it; evidence of a zero cursor is dropped; the flag says whether any cursor moved. |
| Observer.NextPendingComponent | crates/hs-observer/src/lib.rs:1870-1880 | The chosen component's pending line precedes every other pending line. |
| Observer.SessionObserver.DrainReaders | crates/hs-observer/src/lib.rs:1115-1152 | The pending map and its readers deliver the merge: all of it is consumed, or the guard stops exactly when the merged lines are out of order. |
| KWayMerge.MergeInterleaves | crates/hs-observer/src/lib.rs:706-733 | The merge is an interleaving: each component's lines appear all, once and in order. |
| KWayMerge.MergeIsTheSort | crates/hs-observer/src/lib.rs:706-733 | A sorted interleaving is the merge: the k-way merge is the sort by time, component and offset. |
| KWayMerge.MergeSortedIff | crates/hs-observer/src/lib.rs:1882-1888 | The merged lines are in key order if and only if every component's lines are. |
| KWayMerge.InstalmentsMatchIff | crates/hs-observer/src/lib.rs:1115-1152 | Merging in two instalments equals merging everything if and only if no later line belongs below an already merged one. |
| TailRun.SuffixIsHistory | crates/hs-observer/src/lib.rs:598-616 | Replaying an Arena log from any record the parser takes for a run start gives the parser flags and the reducer of the complete history, consumed sources aside. |
| TailPolls.TailRunIsHistory | crates/hs-observer/src/lib.rs:583-616 | A live attach by run start has the parser flags and the reducer of the complete history, if the mention it found really starts a run. |
| SuffixResets.TailRunIsHistoryIff | crates/hs-observer/src/lib.rs:577-616 | The live attach by any mention of the run start: unless a Redraft boundary is pending there, it knows what the complete history knows if a run start or an accepted header of another deck follows from that line on; in a log that resets the run at all, only then. |
| TailPolls.TailThenPollsIsHistory | crates/hs-observer/src/lib.rs:1046-1184 | Such an attach followed by any number of successful polls of the growing Arena log ends with the parser flags and the reducer of one complete attach to the final log. |
| TailRun.RunAcceptedIff | crates/hs-observer/src/lib.rs:577-616 | A run suffix is accepted if and only if its first line really starts a run or a snapshot header that the parser accepts follows. |
| TailPolls.CoincidenceAccepted | crates/hs-observer/src/lib.rs:577-616 | A log on which the live attach goes by a sentinel line that starts no run and ends with another reducer than the complete history. |
| TailRun.FoldIsReplay | crates/hs-log-parser/src/lib.rs:443-453 | Reading every Arena line and reading only the prefiltered ones give the same parser flags and reducer, from any cursor. |
| TailRun.EventKeepsConfiguration | crates/hs-state/src/lib.rs:1105-1564 | No event changes the configured deck size or the Redraft policy, and only run starts, snapshot headers and resyncs change which run the state is about. |
| TailAttach.AttachTail | crates/hs-observer/src/lib.rs:469-662 | The live attach, backward searches and bounded forward reads included, ends in exactly the specified observer. |
| ObserverRestart.RestartThenPolls | crates/hs-observer/src/lib.rs:1194-1240 | Attach, poll, restart from the checkpoint and poll on, through any files. The checkpoint is accepted if and only if the session has a name or nothing has been recorded; then every poll answers as if the observer had never stopped, and ends in the same observer but for the sources consumed before the restart: the cursors alone keep those from being read again. |
| ObserverRestart.RestartRefinesReplay | crates/hs-observer/src/lib.rs:1194-1240 | So a restart in the middle of tailing still ends where one complete attach to the final files ends. |
| TailAttach.ParseSnapshotAt | crates/hs-observer/src/lib.rs:349-432 | Reading one snapshot forward: it is complete only when the first line is a header and a completion follows within the byte limit; the parsed bytes are reported either way. |
| TailAttach.ReplayLines | crates/hs-observer/src/lib.rs:543-546 | A reader drained through a parser and a reducer leaves them as folding all pending lines does, and stands at the end cursor. |
| TailAttach.TailSnapshotNamesRunIff | crates/hs-observer/src/lib.rs:505-560 | A hydrated snapshot names the run the complete history ends in if and only if no Redraft boundary was pending at its header or the run had that name already. |
| PendingHeader.LiveNamesAnotherRun | crates/hs-observer/src/lib.rs:505-560 | A log on which the live attach hydrates run 7 while the complete history is still about run 5. |
| HydratedDeck.HydratedFromBytes | crates/hs-observer/src/lib.rs:349-560 | Right after hydration a live attach holds exactly the real cards that the log lists between its newest header and the first completing mode line, each as often as listed, with the run and hero of the header and the phase of the mode; from there on it folds the rest, if that is short enough, and nothing otherwise. |
| HydratedDeck.SameCards | crates/hs-observer/src/lib.rs:505-560 | With no boundary pending at the header and no choice after it, a hydrated deck has the cards of the complete history. Its counts are the listed ones; the history's differ only where they stop at 255 or where a refresh keeps a greater proven count. |
| AttachChoices.HydratesIff | crates/hs-observer/src/lib.rs:469-560 | The live attach hydrates if and only if the newest mention of a header is a complete header record, no run start is mentioned later, and a completing mode line follows within the byte limit with no Redraft boundary before it. |
| AttachChoices.ReplaysRunIff | crates/hs-observer/src/lib.rs:577-616 | Otherwise it replays a run if and only if the newest mention of a run start is a complete record near the end that starts a run or has an accepted header after it. |
| AttachChoices.AttachedAtEnd | crates/hs-observer/src/lib.rs:469-662 | However it attaches, its Arena cursor stands after the last complete line. |
| AttachChoices.EveryFileAtEnd | crates/hs-observer/src/lib.rs:469-662 | So do the cursors of all other files, each remembered with its identity. |
| AttachChoices.WaitingFolds | crates/hs-observer/src/lib.rs:349-432 | While a snapshot that has its header is not complete, the waiting observer knows what all records from the header on say. |
| SidebarBaseline.ApplySidebarCapacity | crates/hs-observer/src/lib.rs:967-991 | A refused capacity changes nothing; an accepted one changes the configured size and the deck projections and no count. |
| SidebarBaseline.ApplyCompleteSidebar | crates/hs-observer/src/lib.rs:999-1041 | A refused baseline changes neither reducer nor parser; an accepted one replaces the deck and opens the pick gate. |
| SidebarBaseline.RebaseKeepsTheRest | crates/hs-observer/src/lib.rs:991-1041 | A baseline leaves run, hero, draft history, game tables, provenance and policy as they were. |
| SidebarBaseline.CompleteReadBecomesTheDeck | crates/hs-observer/src/lib.rs:999-1041 | The counts of a complete sidebar read, passed on as a list, are accepted exactly when the capacity fits the phase, and the deck becomes the read. |
| SidebarReads.BaselineTakenIff | crates/hs-observer/src/lib.rs:999-1041 | A baseline is taken if and only if a run is known, all observed cards are listed, each is real, there is one at least, and the capacity fits: at most 30, or 35 in the deck editor. |
| SidebarReads.CapacityTakenIff | crates/hs-observer/src/lib.rs:967-991 | A capacity is taken if and only if it fits, and called out of the editor exactly when it is only too large. |
| Rotation.RotateComponentLog | crates/hs-observer/src/lib.rs:2131-2180 | The file is rewritten in place to its rotated bytes, and the two lengths are reported. |
| Rotation.RotatedIsSuffix | crates/hs-observer/src/lib.rs:2131-2180 | The rotated file is a suffix of the old one within the keep size, and rotating again changes nothing. |
| Rotation.RetainedBoundaryIff | crates/hs-observer/src/lib.rs:2155-2159 | The retained bytes start at a record boundary if and only if the kept window has a newline or starts right after one. |
| Rotation.OverlongRecordIsTorn | crates/hs-observer/src/lib.rs:2155-2159 | A record longer than the window is torn: once its newline is written, the rotated file delivers a record the old file never had. |
| Rotation.RotationKeepsWholeRecords | crates/hs-observer/src/lib.rs:2131-2180 | Then the records of the new file are the last records of the old one, offsets shifted. |
| Rotation.RotateOverlarge | crates/hs-observer/src/lib.rs:2105-2129 | Exactly the overlarge files are rotated, and their sizes before and after reported in component order; Arena's never is. |
| Rotation.RotationIsNoticed | crates/hs-observer/src/lib.rs:1082-1091 | A poll of files that were fine before the rotation reports a truncation if and only if its cursor lies beyond the retained bytes. |
| ReverseSearch.FindLastLineContaining | crates/hs-log-parser/src/lib.rs:139-191 | For every file, needle and chunk size: the line of the last occurrence and whether it is complete, nothing if there is none, an error only for the empty needle. |
| ReverseSearch.FindLineStart | crates/hs-log-parser/src/lib.rs:235-260 | Backward chunks find the position after the last newline before an offset. |
| ReverseSearch.LineIsComplete | crates/hs-log-parser/src/lib.rs:262-283 | Forward chunks find out whether a newline follows. |
| ReverseSearch.TailCursor | crates/hs-log-parser/src/lib.rs:197-227 | The cursor after the last complete line. |
| ReverseSearch.NewestLine | crates/hs-log-parser/src/lib.rs:139-191 | The line that is found starts at a record boundary and is the one on which the last occurrence begins; nothing is found only if there is no occurrence. |
| ReverseSearch.RightOverlapIsClean | crates/hs-log-parser/src/lib.rs:160-180 | While no occurrence starts at or after the primary end, none starts in the right overlap of a block: the branch for one is never taken. |
| LogRecords.RecordsNeverSplit | crates/hs-log-parser/src/lib.rs:455-484 | For every growth of a file and every placement of reads, what was emitted is a prefix of the final file's complete records; once a read finds nothing it is all of them and the cursor is after the last newline. |
| LogRecords.RecordsTile | crates/hs-log-parser/src/lib.rs:455-484 | The complete records are the bytes of the file up to the durable end, and no newline follows. |
| LogRecords.RecordAt | crates/hs-log-parser/src/lib.rs:455-484 | Each record ends in its only newline, holds the bytes at its offset and begins where the one before it ends. |
| LogRecords.RecordsGrow | crates/hs-log-parser/src/lib.rs:455-484 | Appending bytes keeps the complete records and continues after them. |
| LogReader.ComponentLogReader.NextCompleteLine | crates/hs-log-parser/src/lib.rs:431-441 | Delivers the first pending line and leaves the rest pending; a partial record moves nothing. |
| LogReader.ComponentLogReader.NextEventCandidate | crates/hs-log-parser/src/lib.rs:443-453 | Delivers the first pending line the prefilter passes, or ends at the durable end with nothing left. |
| LogReader.ComponentLogReader.FastForwardInertComponent | crates/hs-log-parser/src/lib.rs:516-552 | Backward chunks end at the last newline, without a line count. |
| LogReader.ComponentLogReader.SkipCompleteLines | crates/hs-log-parser/src/lib.rs:502-514 | Skipping complete lines stops where counting reads stop. |
| LogReader.CursorsAgree | crates/hs-log-parser/src/lib.rs:516-552 | Counting reads end where the backward fast-forward and the tail cursor end. |
| LogReader.PendingGrows | crates/hs-log-parser/src/lib.rs:443-453 | Reading a grown file from the start is reading the old file, then the rest from the old end cursor. |
| LogReader.PendingLineAt | crates/hs-log-parser/src/lib.rs:455-500 | The delivered lines are the complete records in order, numbered on from the cursor, each with its offset and its text up to the line end. |
| LogParser.HearthstoneLogParser.ParseLine | crates/hs-log-parser/src/lib.rs:784-970 | Flags and events are those of the specification, in the branch order of the source. |
| LineTexts.ZoneTextParses | crates/hs-log-parser/src/lib.rs:946-975 | A Zone record built from an entity below 2^32, a card and two upper-case zones with DECK among them is read as exactly this entity, card, origin and destination. |
| ZoneRecords.ZoneRecordMovesOne | crates/hs-state/src/lib.rs:1345-1373 | Such a record of an entity that has not moved yet takes exactly one copy from the deck shown in the game when it leaves the deck, and adds one when it enters. |
| LineTexts.HeaderTextParses | crates/hs-log-parser/src/lib.rs:796-835 | A header text with any deck number, with or without a hero, is read as that header. |
| LineTexts.RunTextParses | crates/hs-log-parser/src/lib.rs:803-806 | A run-start text is read as the start of that run. |
| LineTexts.RedraftTextParses | crates/hs-log-parser/src/lib.rs:807-810 | A Redraft text is read as a boundary and never as a run start. |
| LineTexts.ChosenTextParses | crates/hs-log-parser/src/lib.rs:811-814 | A choice of a hero is read as that hero. |
| LineTexts.ListedTextParses | crates/hs-log-parser/src/lib.rs:800-803 | A listed card is read as that card. |
| LineTexts.ModeTextParses | crates/hs-log-parser/src/lib.rs:815-817 | A mode line is read as that mode. |
| LineTexts.ChoiceTextParses | crates/hs-log-parser/src/lib.rs:818-821 | A client choice is read as the card in its last parentheses. |
| LineTexts.ScreenTextsParse | crates/hs-log-parser/src/lib.rs:917-933 | The screen changes into and out of a game start and end one. |
| LineTexts.GameTextsParse | crates/hs-log-parser/src/lib.rs:935-946 | The Power records of a new and of a won game start and end one. |
| LogParser.PrefilterSound | crates/hs-log-parser/src/lib.rs:566-605 | Dropping a rejected Arena, Zone or Asset record loses no flag change and no event. |
| LogParser.PrefilterGap | crates/hs-log-parser/src/lib.rs:566-605 | For LoadingScreen and Power a dropped record loses nothing exactly when its upper-cased message would be dropped too. |
| LogParser.PrefilterDropsLowerCase | crates/hs-log-parser/src/lib.rs:566-605 | A lower-case Power record that the parser acts on and the prefilter drops. |
| LogParser.HearthstoneLogParser.FromCheckpoint | crates/hs-log-parser/src/lib.rs:740-768 | A parser checkpoint of another version is refused; otherwise the three flags come back. |
| ParserBrackets.SnapshotsAreBracketed | crates/hs-log-parser/src/lib.rs:825-912 | On every input sequence each snapshot card and completion follows a snapshot start with no completion and no run start in between. |
| ParserBrackets.PicksHaveAnOpener | crates/hs-log-parser/src/lib.rs:825-912 | Every pick has an opener with no run or snapshot start emitted after it. |
| ParserBrackets.OpenGateTakesChoices | crates/hs-log-parser/src/lib.rs:876-888 | After an opener that nothing has closed, every choice of a real card is a pick. |
| ParserBrackets.FeedParser | crates/hs-log-parser/src/lib.rs:770-779 | A line, an opening and a closing of the gate on the parser object are the steps of these traces. |
| ParserBrackets.PendingRedraftOverridesDisable | crates/hs-log-parser/src/lib.rs:776-778 | From every parser state, closing the gate holds against the next real choice if and only if no Redraft boundary is pending. |
| ParserBrackets.PendingIff | crates/hs-log-parser/src/lib.rs:825-912 | A Redraft boundary is pending exactly when one was seen and no emitted start, no choice and no Redraft mode line has followed. |
| ParserBrackets.ChoiceAfterDisableIff | crates/hs-log-parser/src/lib.rs:776-888 | After the last closing of the gate, a real choice is a pick if and only if something opened the gate since, or a Redraft boundary was unsettled when it was closed, with no emitted start in between. |
| Reducer.ArenaReducer.Apply | crates/hs-state/src/lib.rs:1105-1564 | Field-by-field updates, early returns and projections leave exactly the specified state and no consumed source more. |
| PickDecks.PickExtendsIff | crates/hs-state/src/lib.rs:1421-1484 | From every state, an accepted pick counts its card once more, and no other, if and only if the deck was not complete or comes from a resync in the middle of a draft; after such a resync it is no longer complete. |
| PickDecks.PickAdvancesDraft | crates/hs-state/src/lib.rs:1421-1470 | An accepted pick is the next selection, clears the offer and moves the number of the next one. |
| PickDecks.ResyncHolds | crates/hs-state/src/lib.rs:1141-1191 | A resync leaves every real card as often as listed, the given run, hero and phase, and the size of the deck unless one is configured. |
| PickDecks.ResyncThenPicks | crates/hs-state/src/lib.rs:1141-1484 | A resync in the middle of a draft and any real choices after it hold the hydrated cards and the multiset of the choices. |
| PickDecks.WholeDraft | crates/hs-state/src/lib.rs:1134-1484 | A draft seen from its start: the deck is the multiset of the choices, and the choices are the selections in order. |
| WholeRedraft.WholeRedraft | crates/hs-state/src/lib.rs:1421-1564 | A Redraft by its policy: its rounds of picks go into the deck, the review then takes its number of discards in order and is complete, and the discards leave the deck alone. |
| WholeRedraft.RedraftEntered | crates/hs-state/src/lib.rs:1271-1329 | Entering Redraft opens its first round and the deck, and keeps the cards. |
| WholeRedraft.DraftingEntered | crates/hs-state/src/lib.rs:1271-1329 | Entering Drafting opens a new count of picks; a mode line of the known phase changes its text alone. |
| WholeRedraft.EditorClosed | crates/hs-state/src/lib.rs:1271-1329 | Closing the editor makes the deck complete exactly at the expected size, fixes the size after a draft, and ends a Redraft. |
| WholeRedraft.OtherModeLines | crates/hs-state/src/lib.rs:1271-1329 | Any other mode line, or one about an empty deck, changes the mode and the phase alone. |
| WholeRedraft.ReviewOpensIff | crates/hs-state/src/lib.rs:1485-1495 | The review opens when the rounds are used up and not before. |
| WholeRedraft.DiscardNotedIff | crates/hs-state/src/lib.rs:1496-1518 | A discard is noted while the review is open, the card is real and the policy leaves room. |
| WholeRedraft.DiscardsReplacedIff | crates/hs-state/src/lib.rs:1519-1534 | The selection is replaced by real cards within the policy and by nothing else. |
| WholeRedraft.NoFurtherPick | crates/hs-state/src/lib.rs:1421-1430 | Once the rounds are used up a choice changes nothing. |
| WholeRedraft.ReviewClosesIff | crates/hs-state/src/lib.rs:1535-1547 | The review is complete exactly with the number of discards that the policy asks for. |
| DeckRecords.SightingsCountEntities | crates/hs-state/src/lib.rs:1122-1344 | Over any run of sightings the deck gains, of every card, exactly the entities newly known as copies of it, and no entity changes its card. |
| DeckRecords.DeckListHolds | crates/hs-state/src/lib.rs:1115-1121 | A deck list replaces the deck by the multiset of its real cards. |
| DeckRecords.GameOpens | crates/hs-state/src/lib.rs:1548-1556 | A game starts with the deck as it is; a start during a game changes nothing of it. |
| DeckRecords.GameCloses | crates/hs-state/src/lib.rs:1557-1564 | A game that ends keeps what was left of the deck, and its result. |
| DeckRecords.OfferShown | crates/hs-state/src/lib.rs:1374-1420 | An offer shows its named items in order under the given or the next number, or changes nothing if it has none. |
| CardSources.ProvenanceIsLastMentions | crates/hs-state/src/lib.rs:1762-1813 | Over any run of new records without a boundary, a card's provenance is the last eight mentions of it, in order. |
| CardSources.NamedIff | crates/hs-state/src/lib.rs:1762-1813 | Which cards an event mentions. |
| LogNames.HeroRead | crates/hs-state/src/lib.rs:87-130 | A hero is read from its card or from its class name, in any case and with spaces around. |
| LogNames.PhaseIff | crates/hs-state/src/lib.rs:212-226 | Each phase is read from its own mode and from nothing else; every other mode is another phase. |
| LogNames.RealCardIff | crates/hs-state/src/lib.rs:1815-1826 | A placeholder or a hero is no card; any other id is. |
| LogNames.HeroesAreNoCards | crates/hs-state/src/lib.rs:1815-1826 | No hero that is read as a class counts as a card. |
| LogNames.ModeIff | crates/hs-state/src/lib.rs:58-68 | Any mode that mentions the Arena is the Arena. |
| DeckRecords.NamesNoted | crates/hs-state/src/lib.rs:1107-1114 | A record of a hero card or a class sets the class it names and leaves run, draft, deck and game alone. |
| Reducer.ArenaReducer.ApplySourcedLine | crates/hs-state/src/lib.rs:1086-1097 | All events of a record not consumed before are noted and applied; a consumed or empty one changes nothing. |
| Reducer.ArenaReducer.SetRedraftPolicy | crates/hs-state/src/lib.rs:814-829 | An invalid policy is refused and changes nothing; a valid one is kept and the progress follows it. |
| ManualActions.PolicyTaken | crates/hs-state/src/lib.rs:814-829 | What a policy sets: rounds and discards from it or recovered from the missing cards and the picks already made, and the stage that follows. |
| Reducer.ArenaReducer.ApplyManualAction | crates/hs-state/src/lib.rs:831-947 | The early returns in source order: each refused action reports its error and changes nothing; an accepted one is its event. |
| ManualActions.OfferTakenIff | crates/hs-state/src/lib.rs:896-947 | A manual offer is taken if and only if it has items, all are named, and the round takes its kind. |
| ManualActions.OfferRefusal | crates/hs-state/src/lib.rs:896-947 | Why a manual offer is refused, the first bad item included. |
| ManualActions.ReviewTakenIff | crates/hs-state/src/lib.rs:831-895 | When the three review actions are taken. |
| ManualActions.BeginTakesEffect | crates/hs-state/src/lib.rs:831-895 | A review that may begin is open afterwards, with nothing on offer. |
| ManualActions.SelectionTakesEffect | crates/hs-state/src/lib.rs:831-895 | Discards that are taken replace those selected before. |
| ManualActions.CompletionTakesEffect | crates/hs-state/src/lib.rs:831-895 | A review that may close is complete afterwards. |
| Reducer.ArenaReducer.FromCheckpoint | crates/hs-state/src/lib.rs:1002-1063 | A checkpoint is refused with its first defect or gives the reducer it describes, with no consumed source. |
| AcceptedCheckpoints.AcceptedIff | crates/hs-state/src/lib.rs:1002-1063 | A checkpoint is accepted if and only if it has the schema, real cards with counts, at most eight named sources a card, a usable policy, and a snapshot that shows its tables; nothing of it is lost; a refusal names the first of these that fails. |
| AcceptedCheckpoints.RunsShowTheirTables | crates/hs-state/src/lib.rs:1600-1754 | After every run the snapshot shows the tables: the deck, how far it is known, and what is left in the game. |
| Reducer.ArenaReducer.SetExpectedDeckSlots | crates/hs-state/src/lib.rs:805-812 | Only the configured size and the deck projections change. |
| WarmRestart.Restart | crates/hs-state/src/lib.rs:982-1063 | Taking the checkpoint of a reducer after any run and starting another from it gives back every table, the snapshot and the configuration and no consumed source; only an unnamed source prevents it. |
| WarmRestart.ReachableWellFormed | crates/hs-state/src/lib.rs:1600-1754 | After every run deck, deck state and remaining deck are what the sync functions recompute, and all tables are well formed. |
| WarmRestart.RestoreAcceptsReachable | crates/hs-state/src/lib.rs:982-1063 | The checkpoint of a reachable reducer is accepted exactly when its recorded sources are named, and gives back the same reducer. |
| WarmRestart.WarmRestartBisimulates | crates/hs-state/src/lib.rs:982-1063 | A restored reducer follows the uninterrupted one through every later run over fresh sources: same snapshot, tables and provenance. |
| WarmRestart.RecordCountsOnce | crates/hs-state/src/lib.rs:1086-1097 | A record that was consumed with events is never consumed again, whatever is read from it. |
| WarmRestart.RunForgetsConsumed | crates/hs-state/src/lib.rs:1086-1097 | Sources consumed earlier matter to a later run only where it repeats one of them. |
| WarmRestart.ReplayedSourceDiverges | crates/hs-state/src/lib.rs:1086-1097 | Replaying a consumed record after a restart counts its card twice. |
| RedraftStages.ReachableStagesAgree | crates/hs-state/src/lib.rs:1627-1709 | Over all runs, policy changes and manual actions included: known progress equals the phase picks, offers are open only below the limit, a review waits only at it. |
| RedraftStages.RedraftAcceptsAtMostItsRounds | crates/hs-state/src/lib.rs:1421-1470 | A Redraft entered under a policy of r rounds accepts at most r picks, whatever events, sourced lines, manual actions and deck sizes come in, and exactly the first r real ones while no snapshot begins. |
| RedraftStages.ResyncedRedraftIsUnbounded | crates/hs-state/src/lib.rs:1648-1661 | With unknown progress every real pick is accepted and the stage never closes. |
| RedraftStages.ManualOfferNeedsOpenRound | crates/hs-state/src/lib.rs:896-947 | In Redraft a manual offer is accepted exactly while an ordinary round is known to be open. |
| RedraftStages.ManualActionsTouchNoDeck | crates/hs-state/src/lib.rs:831-947 | No manual action changes a count, a pick, the run or the number of picks; a refused one changes nothing. |
| GameDeck.RemainingDeckConserved | crates/hs-state/src/lib.rs:1345-1373 | During a game the remaining cards are the constructed deck plus entries minus the exits that found a copy, hence between initial + entries - exits and initial + entries, the lower bound exact when every exit found one. |
| GameDeck.DeckCrossingsAlternate | crates/hs-state/src/lib.rs:1345-1373 | The accepted deck exits and entries of each entity strictly alternate. |
| GameDeck.ZoneLineIdempotent | crates/hs-state/src/lib.rs:1345-1373 | Repeating a zone line changes nothing, and none touches the constructed deck. |
| SnapshotRefresh.RefreshKeepsProvenCopies | crates/hs-state/src/lib.rs:1192-1270 | A refreshed deck holds exactly the listed real cards, each with the larger of its proven count and its listings in a same-run refresh, and its listings otherwise. |
| SnapshotRefresh.RefreshIgnoresOrder | crates/hs-state/src/lib.rs:1192-1270 | The order of the card lines matters to no field. |
| SnapshotRefresh.RefreshKnowsSize | crates/hs-state/src/lib.rs:1192-1270 | A listing leaves its run and hero, a complete deck, and the listed size unless a size is configured or known for this deck. |
| ArenaState.DeckCardsFaithful | crates/hs-state/src/lib.rs:1711-1730 | The listed deck has one entry per counted card, in strictly increasing key order, with its count. |
| ArenaState.DeckCardsExact | crates/hs-state/src/lib.rs:1711-1730 | Equal deck lists come from equal count tables. |
| LineDiff.UnifiedDiff | crates/hs-log-config/src/lib.rs:531-598 | Below the size cap context and removals are the old lines, context and additions the new ones, and no other such diff keeps more lines or is shorter; where one as short first parts from it, it removes or adds what this one keeps, or adds what this one removes; equal texts and oversized tables are reported as such. |
| LineDiff.FillTable | crates/hs-log-config/src/lib.rs:559-571 | Every cell of the flat table is the longest common subsequence length of its two suffixes. |
| LineDiff.Walk | crates/hs-log-config/src/lib.rs:573-594 | The greedy walk rewrites the old lines into the new ones and keeps a longest common subsequence. |
| LineDiff.LcsIsUpperBound | crates/hs-log-config/src/lib.rs:559-571 | No common subsequence is longer than the table's corner. |
| LineDiff.LcsIsAttained | crates/hs-log-config/src/lib.rs:559-571 | Some common subsequence is as long. |
| LineDiff.NoShorterDiff | crates/hs-log-config/src/lib.rs:573-594 | A diff that keeps that many lines is at least as short as every other. |
| LineDiff.EndingNoticeIff | crates/hs-log-config/src/lib.rs:595-606 | For all texts the notice about the missing newline appears exactly when they differ only in carriage returns at line ends and in the final newline. |
| LineDiff.PlainNoticeIff | crates/hs-log-config/src/lib.rs:595-606 | Between different texts without carriage returns it appears exactly when only the final newline differs. |
| EndingNotice.WrongNoticeIff | crates/hs-log-config/src/lib.rs:595-606 | About a file that ends in a newline a proposal carries the notice, wrongly, if and only if every required component has a section, all its sections hold its settings, and the file mixes both line endings. |
| EndingNotice.NoticeCanBeWrong | crates/hs-log-config/src/lib.rs:595-606 | Every settled file whose first line alone ends in CRLF gets the wrong notice. |
| ConfigText.RequireSections | crates/hs-log-config/src/lib.rs:321-360 | The loops over sections, components and lines compute the specified patch. |
| ConfigSettled.UntouchedFile | crates/hs-log-config/src/lib.rs:321-376 | A file that names no required component is kept line by line, and the five components follow it with their settings. |
| ConfigSettled.FreshFile | crates/hs-log-config/src/lib.rs:321-376 | The whole text written for a game without a configuration. |
| ConfigSettled.ReplacedLine | crates/hs-log-config/src/lib.rs:402-437 | An assignment of the key in any case becomes key and value between the line's own indentation and its own comment. |
| ConfigText.UpsertSetting | crates/hs-log-config/src/lib.rs:402-416 | Every line that assigns the key is rewritten in place, or one line is appended; the header line is skipped. |
| ConfigText.RequireComponent | crates/hs-log-config/src/lib.rs:327-352 | Every section by the component's name in any case is completed, or one section is appended. |
| ConfigText.SplitSections | crates/hs-log-config/src/lib.rs:383-400 | The loop splits lines into a preamble and sections. |
| ConfigSections.SplitOfFlatten | crates/hs-log-config/src/lib.rs:383-400 | Splitting the lines of well-formed sections gives the sections back. |
| ConfigSections.PatchLinesIdempotent | crates/hs-log-config/src/lib.rs:321-437 | Patching the lines of a patched file changes nothing. |
| ConfigSections.PatchStaysIff | crates/hs-log-config/src/lib.rs:321-437 | A file stays as it is if and only if every required component has a section and all its sections hold its settings. |
| ConfigSections.PatchKeepsOtherLines | crates/hs-log-config/src/lib.rs:321-437 | Every line that sets no required key of its section stays, in order; only the headers of missing components are new. |
| ConfigEndings.TextPatchIdempotentIff | crates/hs-log-config/src/lib.rs:321-360 | Patching the text twice equals patching it once if and only if the text has a CRLF, does not end in a carriage return, or ends in a required setting of its section without a comment. |
| ConfigText.LoneCarriageReturn | crates/hs-log-config/src/lib.rs:321-360 | A file that ends in a lone carriage return is changed again by a second patch. |
| ConfigReader.ParseSections | crates/hs-log-config/src/lib.rs:295-319 | The reader's loop is the line-by-line fold. |
| ConfigReader.FileRead | crates/hs-log-config/src/lib.rs:295-319 | What is read of a whole file: the sections it heads, however often, and of every key in them the last assignment under that name. |
| ConfigLines.HeaderRead | crates/hs-log-config/src/lib.rs:295-319 | A header is read by the word between its brackets, whatever spaces surround brackets and word. |
| ConfigReader.ReaderAsksWhatPatchWrites | crates/hs-log-config/src/lib.rs:265-294 | The reader asks for exactly the settings the patcher writes, apart from the file size. |
| ConfigReader.EnabledIff | crates/hs-log-config/src/lib.rs:265-360 | After a patch the independent reader reports a component enabled if and only if the file had a section by exactly that name or none by it in any case. |
| ConfigText.WrongCaseStaysOff | crates/hs-log-config/src/lib.rs:265-360 | A `[power]` section is patched and still reported off. |
| ConfigLines.ReadKeyAgrees | crates/hs-log-config/src/lib.rs:295-416 | Patcher and reader agree on which key a line assigns. |
| ConfigLines.ReplacementIdempotent | crates/hs-log-config/src/lib.rs:418-437 | Rewriting a rewritten line, indentation and comment included, changes nothing. |
| CardNames.Levenshtein | crates/hs-card-data/src/lib.rs:231-247 | The two rows end in the distance of the two words. |
| CardNames.NextRow | crates/hs-card-data/src/lib.rs:234-244 | One row of the table turns distances of a left prefix into those of the next prefix. |
| CardNames.NoCheaperScript | crates/hs-card-data/src/lib.rs:231-247 | No script of insertions, deletions and substitutions costs less than the distance. |
| CardNames.CheapestScript | crates/hs-card-data/src/lib.rs:231-247 | Some script costs exactly the distance. |
| CardNames.DistanceZeroIff | crates/hs-card-data/src/lib.rs:231-247 | The distance is zero exactly between equal words. |
| CardNames.DistanceSymmetric | crates/hs-card-data/src/lib.rs:231-247 | It does not depend on the direction. |
| CardNames.DistanceTriangle | crates/hs-card-data/src/lib.rs:231-247 | It obeys the triangle inequality. |
| CardNames.NormalizeIdempotent | crates/hs-card-data/src/lib.rs:215-229 | A normalised name is its own normal form and single-spaced. |
| CardNames.NormalizeKeepsEssence | crates/hs-card-data/src/lib.rs:215-229 | The normal form keeps the letters, digits and apostrophes of a name in order and nothing else but single spaces. |
| CardNames.SeparatorSplits | crates/hs-card-data/src/lib.rs:215-229 | A space or a dash between two words becomes one space. |
| CardNames.NearIff | crates/hs-card-data/src/lib.rs:164-184 | A collectible card is near a reading of six characters at least if and only if so many edits lead from one name to the other; the least number is reported. |
| CardNames.ExactIsDistanceZero | crates/hs-card-data/src/lib.rs:149-184 | For names long enough, the exact lookup is the fuzzy lookup at distance zero, at every radius. |
| CardNames.NearCardsAreClose | crates/hs-card-data/src/lib.rs:164-184 | Two cards near one reading are within twice the radius of each other. |
| Evidence.ReadyIsStrong | crates/arena-draft/src/lib.rs:965-1142 | A ready recommendation over frames with confidences in [0, 1] and distinct cards: each winner was in at least the threshold share of the frames and leads every rival by threshold times margin in mean confidence. |
| ReadyExactly.ReadyIff | crates/arena-draft/src/lib.rs:965-1142 | A recommendation is ready if and only if enough frames were observed and in every slot the card is the best mean, ties by id, and has no rival or no margin and reaches the threshold, or reaches it times the covered part of the margin. |
| ReadyExactly.OfferIs | crates/arena-draft/src/lib.rs:1083-1127 | Everything that is offered for a slot, in the frames' own sums: the cards in order of their means, their confidences and mean distances, as many as retained. |
| ReadyExactly.OfferSourceIs | crates/arena-draft/src/lib.rs:1032-1127 | An offer has the source of the frame that first listed its leader. |
| ReadyExactly.WithheldFor | crates/arena-draft/src/lib.rs:758-795 | A recommendation is withheld for the number of offers, else for the threshold, else for the first slot that does not pass. |
| ReadyExactly.FrameRefusal | crates/arena-draft/src/lib.rs:1032-1075 | A frame is refused outright for its layout or an exhausted count; otherwise it is counted and refused only for a candidate that deserves the error. |
| Evidence.ObservedIff | crates/arena-draft/src/lib.rs:1032-1075 | Frames are accepted if and only if each has the expected layout and good candidates and no counter overflows. |
| Evidence.OrderDoesNotMatter | crates/arena-draft/src/lib.rs:1032-1142 | If the frames are accepted in one order they are in every order, and what is recommended, or why it is withheld, is the same. |
| Evidence.AccumulatedTally | crates/arena-draft/src/lib.rs:1032-1075 | After any frames the accumulator holds, per slot and card, exactly the confidence sum and the support that the frames add up to. |
| Evidence.ShareKeptIff | crates/arena-draft/src/lib.rs:1032-1142 | For one threshold: every recommended card is in the threshold share of the frames, for all frames in which no card of a slot gathers more than b, if and only if no admissible n and k have k < threshold * n <= k * b. |
| Evidence.ShareAlwaysKeptIff | crates/arena-draft/src/lib.rs:1077-1125 | For every threshold: that promise holds if and only if b is at most one. |
| Evidence.OneFrameMasquerades | crates/arena-draft/src/lib.rs:1077-1125 | A card shown in one of two frames at a confidence of two, which is not refused, passes a threshold of 0.9. |
| Evidence.RepeatedCardMasquerades | crates/arena-draft/src/lib.rs:1032-1125 | So does a card that one frame lists twice at 0.9. |
| Evidence.ConfidenceAccumulator.ObserveFrame | crates/arena-draft/src/lib.rs:1032-1075 | A refused layout changes nothing; a frame refused for its evidence has been counted and leaves what was added before the defect. |
| Evidence.ConfidenceAccumulator.FinishOffer | crates/arena-draft/src/lib.rs:1083-1127 | The averages over all frames, the narrow-lead discount and the truncation, as the loop computes them, are those the recommendation lemmas speak about. |
| Evidence.ConfidenceAccumulator.FinishDetection | crates/arena-draft/src/lib.rs:1077-1142 | Every slot is finished so; without a frame there is nothing to finish. |
| Evidence.ConfidenceAccumulator.ForOfferCount | crates/arena-draft/src/lib.rs:1007-1030 | Which configurations are refused, and with which error. |
| Sidebar.Interpret | crates/arena-draft/src/sidebar.rs:109-194 | Anchor, first counter, visible cards, their sum, the status of a read and its issues in order. |
| SidebarReads.StatusIs | crates/arena-draft/src/sidebar.rs:109-194 | When a read is complete, partial, contradictory or neither, by the texts alone. |
| SidebarReads.VisibleRows | crates/arena-draft/src/sidebar.rs:140-180 | A card is visible as often as a row names it, and it alone, with this quantity. |
| SidebarReads.AmbiguityReported | crates/arena-draft/src/sidebar.rs:140-180 | Several cards of one name are reported if and only if some row names them. |
| SidebarReads.UnreadableReported | crates/arena-draft/src/sidebar.rs:109-180 | Every unreadable counter and every unreadable quantity is reported once. |
| Sidebar.CompleteAddsUp | crates/arena-draft/src/sidebar.rs:92-194 | In a complete read no saturating addition saturates: every count is exact and they add up to the counter. |
| Sidebar.CardCounts | crates/arena-draft/src/sidebar.rs:97-104 | Repeated rows are aggregated with saturating additions. |
| Sidebar.Reconcile | crates/arena-draft/src/sidebar.rs:320-362 | The loop over the visible counts computes the pointwise maximum, and the counter decides. |
| SidebarReads.CompleteReplaces | crates/arena-draft/src/sidebar.rs:320-362 | A complete read replaces the known deck: every card has the quantity of its rows and the deck the size of the counter. |
| SidebarReads.KindIs | crates/arena-draft/src/sidebar.rs:320-362 | Which kind of change is reported. |
| Sidebar.MergeIsConservative | crates/arena-draft/src/sidebar.rs:320-362 | A partial merge is at least both inputs, takes each count from one of them and stays within the counter, or leaves the known deck alone; no row of the read is lost. |
| Sidebar.MergeIsLeast | crates/arena-draft/src/sidebar.rs:320-362 | A partial merge is accepted if and only if some deck within the counter holds both the known cards and the rows, and it is the least such deck. |
| Sidebar.OnlyCompleteLowers | crates/arena-draft/src/sidebar.rs:320-362 | Only a complete read lowers a count. |
| Sidebar.ReconcileIdempotent | crates/arena-draft/src/sidebar.rs:320-362 | Reconciling with the same read again changes no count. |

## Left out

- File system: names, metadata, modification times, atomic rename and directory discovery. A file is its identity and
  its bytes, and does not change during one attach or poll, so the errors for a file that moves meanwhile do not occur.
- Observer checkpoints on disk: JSON, schema checks, the integrity checksum and the source witnesses. Checkpoints are
  values; the line hash that labels a source is a parameter of the session. The file checks of a restart are those of
  the poll that follows it.
- `LiveObserver`: session rollover and the choice between checkpoint, tail attach and replay.
- Tail snapshots against full replay: the tail path does not claim historic copy counts; the run's name, the set of cards
  and the relation of the counts are compared there, run suffixes completely.
- State after a poll that fails at the order check: the reducer may have advanced while the cursors have not. The
  contract of `Poll` says nothing about it.
- Bytes and Unicode: text is ASCII, one `char` per byte. Non-UTF-8 reads, Unicode digits, spaces and letters in
  patterns and names are not modelled. The patterns are scanners that find what the regular expressions find.
- Integer widths: deck counts are natural numbers where the program has bytes that could overflow after 255 copies of
  one card; the game and sidebar sums have no 16-bit limit. Saturating counters and slot totals saturate as in the
  program. File offsets and line numbers have no limit.
- Floating point: confidences are real numbers, never NaN, so the finiteness checks do not occur.
- Sidebar texts: splitting a text into name and quantity and looking the name up happen before the model.
- `read_component_tail` and the whole-session reader `parse_session`: they repeat the record and merge logic above.
- Diff text: the header lines and the `+`, `-` and space prefixes; a diff is a list of tagged lines.
- Backups of `log.config`, and the commands, overlays, capture and network code of the applications.
- `from_snapshot`: a reducer built from a bare snapshot is not a starting point of the runs here.
- Tailing.TailingRefinesReplay: assumes that the attach left no gap, because the code promises no more;
  `TailingExact.TailingIsReplayIff` shows that the assumption is the exact one.
- Evidence.ReadyIsStrong: assumes confidences in [0, 1] and no card twice in a slot of one frame;
  `Evidence.ShareKeptIff` drops both.
- TailPolls.TailThenPollsIsHistory: an Arena-only session, as the live attach reads no other component.
- TailingExact.TailingIsReplayIff: assumes that the event files end with complete records at attach time; the rest of
  a half-written record may have any key.
- SuffixResets.TailRunIsHistoryIff: leaves open whether a suffix without a reset can agree with a log that has none
  either, and a suffix that begins under a pending Redraft boundary is only shown to need a reset.
- ObserverRestart.RestartThenPolls: the restarted observer keeps its configured deck size.
- HydratedDeck.SameCards: assumes that no Redraft boundary is pending at the header and that no choice of a real card
  follows it; with a later choice the two readings may count it differently, and under a pending boundary they may be
  about different runs.
- AttachChoices.WaitingFolds: assumes that the log ends within the byte limit after the header; beyond it the observer has
  read up to the limit only.
- AllRecords.AttachReadsEverything: assumes that no LoadingScreen or Power record has its words only in lower case; with
  one, `AllRecords.LowerCaseIsLost` is a counterexample.
- ReadyExactly.ReadyIff: assumes a valid configuration and threshold, as `ForOfferCount` enforces.
- TailAttach.AttachTail: does not state the attach diagnostics beyond the method; a file that moves during the attach is
  not modelled.
- CardNames.NormalizeIdempotent: ASCII names; curly apostrophes and case folding beyond ASCII are not modelled.

# nanopi: verified bookkeeping

nanopi is a coding-agent command line. This project models the bookkeeping behind it in Dafny and proves that
it keeps what it promises: text files that two writers share, queues that spend money, tables that must agree
with a simple specification, ids that must never repeat, and logs that are forked and renamed. Code that changes
state is a class or a method with loops, proved against functions on values; whole-run properties are lemmas
about those functions. Text is a sequence of Unicode scalar values; lines are split and trimmed the way Rust's
`str` does it, carriage returns included.

Run `dafny verify dfyconfig.toml` to check everything.

## How it is organised

* **Text** (`Text`, `Decimal`, `Utf8`, `Sequences`): `lines`, `split_inclusive`, `trim`, `split_whitespace`, decimal
  numerals, UTF-8 lengths; searching, filtering and stable sorting.
* **The brief file** (`Brief`, `BriefRoundTrip`, `AmendmentText`, `AmendmentFile`, `TornReads`, `FrontMatter`,
  `FrontMatterLaws`, `FieldAmendments`, `FieldExactness`, `BriefMetadata`, `BriefSections`, `EdgeCases`): printer,
  parser, escape, numbered amendments, torn reads, the front-matter block, what stands under each heading, and the
  inputs at which an expected law fails.
* **Its writers** (`BriefWriters`, `WriterProtocol`, `OutcomeWriters`, `OutcomeProtocol`): state changes and appends,
  interleaved step by step under one lock, and the worktree outcome that is written without it.
* **Messages to agents** (`AmendmentNumbers`, `BriefWatch`): counting and appending in any interleaving, and the
  watcher that delivers what it finds.
* **Messages from plugins** (`PluginSend`, `PluginSendRuns`, `PluginSendTurns`): the guarded queue machine, its runs,
  and whose turn is running.
* **The model catalogue** (`Catalogue`, `CatalogueCase`, `CatalogueLoad`, `CatalogueRefresh`): three layers, the merge,
  the prefix scan, letter case, the versioned file with write faults, and when a refresh changes a lookup.
* **Agents and archive** (`AgentIds`, `Agents`, `RegistryRuns`, `RegistryEntries`, `RegistryDisk`, `Archive`,
  `SweepLaws`, `CleanByAge`, `CleanReports`): id minting, states in memory and on disk, adoption, shutdown, the startup
  sweep, pruning.
* **Plugins** (`Commands`, `CommandRules`, `PluginContext`, `ContextBlocks`, `ToolRegistry`, `Subscribers`, `Reload`,
  `ReloadLaws`, `KeptOrder`): collision resolution, attributed context, hot reload against cold start.
* **Sessions** (`Session`, `SessionFiles`, `SessionViews`, `ActiveSession`): the append-only log, forks, tree rows,
  renaming, and the file that remembers the active session of a directory.

## Where the code and its description differ

The model follows the code. For each of these the exact condition under which the expected law holds is proved, for
all inputs, and where the law fails an input is given.

* An amendment reads back as its text, up to line endings and outer whitespace, exactly when no line already
  looks escaped and the first line is not an indented marker line (`AmendmentText.ReadsBackExactly`,
  `EdgeCases.EscapedHeadingIsNotKept`).
* `upsert_front_matter_field` reports success and returns the text unchanged when the block is never closed
  (`FrontMatterLaws.UpsertUnterminated`, `EdgeCases.UnterminatedBlock`). The reader of the block and its writers
  disagree on a fence line that ends in more than one carriage return (`EdgeCases.UnseenBlock`).
* `mark_interrupted` says it returns the count rewritten. It returns that count plus the unfinished agents whose
  brief has no state line in a block closed for its writers, and counts those again at every start. Count and
  rewritten briefs agree exactly when there are none of these (`SweepLaws.SweepReturnsRewrittenExactly`,
  `Archive.SecondSweepIsZero`, `EdgeCases.CutBriefIsMiscounted`). Briefs written by nanopi itself, even with an append
  cut short, are never among them (`SweepLaws.WrittenRunsAreSwept`). A fence line that ends in several carriage
  returns is what reader and writers disagree on (`SweepLaws.ReadableIsSettable`, `EdgeCases.EarlyFenceHidesState`,
  `EdgeCases.LateFenceIsSettable`).
* Cleaning by age turns the number of days into a signed 64-bit number, so from 2^63 days on the cutoff lies in the
  future and every run already started goes, however young. Only runs that old go exactly below 2^63
  (`CleanByAge.OnlyOldGoExactly`). `/agents clean --older` takes such numbers (src/mode/tui.rs:2197-2206), up to
  2^64 - 1 (`CleanByAge.LargestCountRemovesAll`); the setting of the startup pruning comes from TOML and is smaller.
* Loading the catalogue file changes no lookup exactly when two things hold of the compiled table: no invalid entry
  hides a valid one of the same id, and every id is met before any shorter one that begins it, first with the entry
  that a fresh file keeps (`CatalogueRefresh.RefreshHarmlessExactly`). The first is what a refresh of a readable file
  needs, the second what the first write of the file needs. Two entries of one id break the second
  (`CatalogueRefresh.FirstWriteChangesAnswer`), an invalid one behind a valid one the first
  (`CatalogueRefresh.RefreshChangesAnswer`). The shipped table meets both.
* The outcome of a worktree is read, upserted and written back without the lock of the other two writers. Nothing is
  lost exactly when no other write falls between a writer's read and its write (`OutcomeProtocol.FinalBrief`);
  `OutcomeProtocol.OutcomeOverwrites` gives a run that loses any one amendment or state change.
* Messages to an agent are numbered by the count of amendments plus one, read outside the lock. Below the 32-bit
  limit that is the next number (`AmendmentNumbers.CountAgreesExactly`), and numbers stay distinct exactly when no
  append falls between another sender's count and its append (`AmendmentNumbers.NumbersDistinctExactly`,
  `AmendmentNumbers.SharedNumber`). The watcher sends no number twice, so exactly then is every message delivered
  (`BriefWatch.DeliveredIffUndisturbed`).
* A front-matter line inside an open amendment is part of its text. Whatever value is stored, the amendments stay as
  they were exactly when none is open at the line (`FieldExactness.SetUnseenExactly`,
  `FieldExactness.UpsertUnseenExactly`); `EdgeCases.SetEditsAmendment` gives a brief where they change.
* A reload sorts the grant rows and a cold start does not, so the rows come in the same order exactly when they
  load in order (`ReloadLaws.ReloadIsColdStart`, `ReloadLaws.RowOrderMayChange`). The order among the kept
  subscribers of failed plugins follows the hash order of the events. Every hash order keeps it exactly when, of two
  kept subscribers that share an event, the later one hears nothing the earlier one does not
  (`KeptOrder.OrderKeptExactly`, `ReloadLaws.KeptOrderMayChange`). The contribution of a plugin that vanished from
  the configuration is dropped only when the plugin had a tool registered (`ReloadLaws.VanishedContribution`,
  `ReloadLaws.ToollessContributionStays`).
* `read_session` is described in terms of the first non-blank line; the code looks for the header at line
  number 0. A file can be read exactly when that very line is a header of version 2 and every later non-blank line
  is an entry (`SessionFiles.ReadableExactly`), so a blank line in front makes a session unreadable, though
  `set_session_name` still renames it (`SessionFiles.LeadingBlankLine`).
* The rendered context tells who contributed what exactly when no plugin name holds the header sentinel or a quote,
  bracket and newline (`ContextBlocks.ReadsBackExactly`, `ContextBlocks.ClosingNameCollides`).
* The active-session file remembers a path exactly when the directory has no tab or newline and the path has no
  newline and does not end in a carriage return (`ActiveSession.SetThenLookupExactly`,
  `ActiveSession.ReturnAtEndIsLost`, `ActiveSession.TabIsNeverFound`).

## Model

| member | source | states |
|---|---|---|
| Brief.RenderBrief | src/agent/brief.rs:208-229 | the loop that prints a brief yields exactly the lines of the specification, of which `BriefSections` says what stands under each heading |
| BriefSections.SectionsHoldExactly | src/agent/brief.rs:208-229 | read from the file alone, whatever was appended, the four sections hold what was printed under them if and only if no text of the spec has a line equal to a heading |
| BriefSections.BriefSaysExactly | src/agent/brief.rs:208-229 | then task, role and model each read as their own text, or its default, exactly when no line of it looks escaped |
| BriefSections.ItemsExactly | src/agent/brief.rs:216-222 | the bullets read as one item for each tool exactly when no later line of a tool starts with a bullet |
| BriefSections.BriefNamesTools | src/agent/brief.rs:216-222 | then the tools read back in order, and none given reads as all |
| BriefSections.AppendedLines | src/agent/brief.rs:234-252 | an append adds a heading with number and time between blank lines, and the escaped text |
| Brief.ParseAmendmentsWith | src/agent/brief.rs:262-308 | the offset loop finds the first whole-line marker and returns the sections after it, dropping the open one on a torn read |
| Brief.CollectSections | src/agent/brief.rs:277-307 | the section loop over pieces equals feeding them one by one, with headings opening sections |
| BriefRoundTrip.BriefIsHead | src/agent/brief.rs:208-229 | whatever the texts of a spec, the rendered brief has exactly one marker line, its last |
| BriefRoundTrip.HeadingReadsBack | src/agent/brief.rs:247-290 | the heading written for an amendment parses to its number, with or without the timestamp's contents |
| BriefRoundTrip.BareHeadingReadsBack | src/agent/brief.rs:262-290 | a heading without a time parses to its number, too |
| BriefRoundTrip.FeedChunks | src/agent/brief.rs:234-307 | feeding the appended chunks collects exactly one section per entry, in order, with its number and raw lines |
| AmendmentText.ReadsBackExactly | src/agent/brief.rs:25-36 | escaping, appending and reading returns the text up to line endings and outer whitespace if and only if no line looks escaped and the first is no indented marker |
| AmendmentText.CanonPlain | src/agent/brief.rs:310-322 | without carriage returns "up to line endings and outer whitespace" is just trimming |
| AmendmentFile.AmendmentRoundTrip | src/agent/brief.rs:234-308 | any head followed by any appended entries parses to exactly their numbers and texts, in order, stable or not |
| AmendmentFile.BriefHasNoAmendments | src/agent/brief.rs:208-229 | no field of a spec ever reads as an amendment |
| AmendmentFile.FaithfulTextsReadBack | src/agent/brief.rs:234-322 | in a file of many amendments each comes back as its own text exactly when that text is faithful |
| AmendmentFile.AppendsNumberUpward | src/agent/brief.rs:325-331 | appending again and again with the next number yields 1, 2, 3, ... and saturates at the 32-bit limit |
| AmendmentNumbers.CountAgreesExactly | src/tool/agent_ctl.rs:295-299 | on numbered files the count plus one is the next number up to the 32-bit limit, and beyond it only where the count wraps to the same |
| AmendmentNumbers.StepKeepsInv | src/tool/agent_ctl.rs:295-299 | every count or append keeps: the file is the entries appended, none numbered ahead of its place, all in order while no count was stale |
| AmendmentNumbers.NumbersDistinctExactly | src/tool/agent_ctl.rs:295-299 | for every schedule below the limit the numbers read back are distinct, and then 1, 2, 3, ..., if and only if no append fell between another sender's count and its append |
| AmendmentNumbers.SharedNumber | src/tool/agent_ctl.rs:295-299 | two senders that count before either appends share a number |
| BriefWatch.Watcher.Tick | src/mode/brief_watch.rs:34-71 | one turn of the loop reads only a size that stood still and is new, and sends the sorted amendments above the last number |
| BriefWatch.ReadsExactly | src/mode/brief_watch.rs:34-60 | in any run a look reads exactly when the size stood still since the look before and differs from the last one read |
| BriefWatch.LookSendsAll | src/mode/brief_watch.rs:61-71 | whatever the order in the file, a look sends exactly the numbers above the last one, smallest first |
| BriefWatch.NumbersSentOnce | src/mode/brief_watch.rs:34-71 | over any run of looks, whatever they find, the numbers sent strictly rise |
| BriefWatch.SentInOrder | src/mode/brief_watch.rs:34-71 | of a file numbered in order, read whole or torn, each amendment is sent once, in order, and none is passed over |
| BriefWatch.AllDeliveredExactly | src/mode/brief_watch.rs:34-71 | once a look found the whole file, all new amendments were sent if and only if the numbers are in order |
| BriefWatch.DeliveredIffUndisturbed | src/tool/agent_ctl.rs:295-299 | senders and watcher together: every message is delivered if and only if no append fell between another's count and its append |
| TornReads.TornRead | src/agent/brief.rs:259-308 | any prefix of a brief reads as the first amendments: all exact if it ends mid-line, else all but the last exact and the last cut after a whole line; at most the last whole one is withheld |
| FrontMatter.ParseFrontMatter | src/agent/brief.rs:107-123 | the loop returns the pairs up to the closing fence, and none without an opening one |
| FrontMatter.SetFrontMatterField | src/agent/brief.rs:136-171 | the loop replaces the first line of the key inside a closed block, keeping its line ending, and refuses otherwise |
| FrontMatter.UpsertFrontMatterField | src/agent/brief.rs:178-199 | set if the key is there, else one new line before the closing fence, else the text as it was |
| FrontMatter.FmValueIdempotent | src/agent/brief.rs:60-71 | storing a stored value again changes nothing |
| FrontMatter.FmValueTidy | src/agent/brief.rs:60-71 | a stored value is one non-empty line of single-spaced words |
| FrontMatter.StoredAsItIsExactly | src/agent/brief.rs:60-71 | a text is stored as it is exactly when it is tidy and at most 120 characters long, or already cut |
| FrontMatter.FmValueKeepsWords | src/agent/brief.rs:60-71 | a short text keeps its words, a long one their first 120 characters, a blank one none |
| FrontMatterLaws.SetThenGet | src/agent/brief.rs:126-171 | get after set gives the stored form of the value, on every text whose block the reader can see |
| FrontMatterLaws.SetKeepsOtherKeys | src/agent/brief.rs:136-171 | set leaves the value of every other key |
| FrontMatterLaws.SetChangesOneLine | src/agent/brief.rs:136-171 | set changes one line; everything before and after it, so everything after the block, is byte for byte the same |
| FrontMatterLaws.SetTwice | src/agent/brief.rs:136-171 | two sets of one key equal the last |
| FieldAmendments.SetKeepsAmendments | src/agent/brief.rs:136-171 | set leaves the parsed amendments as they were wherever no amendment is open at the field's line: no marker line before it, or no heading since and a key unlike a heading |
| FieldAmendments.UpsertKeepsAmendments | src/agent/brief.rs:178-199 | upsert does so too, wherever no amendment is open at the place it writes to |
| FieldExactness.SetUnseenExactly | src/agent/brief.rs:136-171 | for a key unlike a heading, no value ever shows in the amendments if and only if none is open at the field's line |
| FieldExactness.SetShows | src/agent/brief.rs:136-171 | inside an open amendment two different one-character values always read differently |
| FieldExactness.UpsertUnseenExactly | src/agent/brief.rs:178-199 | the same equivalence for upserts into a closed block, at the place they write to |
| FieldExactness.InsertShows | src/agent/brief.rs:178-199 | inside an open amendment two different one-character insertions always read differently |
| FrontMatterLaws.UpsertThenGet | src/agent/brief.rs:178-199 | get after upsert gives the stored value on a closed visible block, and what was there before on an unterminated one |
| FrontMatterLaws.UpsertKeepsOtherKeys | src/agent/brief.rs:178-199 | upsert leaves the value of every other key |
| FrontMatterLaws.UpsertAddsOneLine | src/agent/brief.rs:178-199 | an insertion adds one line just before the closing fence; everything before and everything after is byte for byte the same |
| FrontMatterLaws.UpsertUnterminated | src/agent/brief.rs:178-199 | upsert refuses exactly when no block is opened, and returns an unterminated one unchanged |
| BriefMetadata.RenderBriefWithMeta | src/agent/brief.rs:75-103 | the printed block holds the given fields in order, optional ones only when present, then the brief |
| BriefMetadata.RenderedFieldsReadBack | src/agent/brief.rs:75-123 | for every spec and metadata the printed block parses to exactly its fields, whatever the role, model or label text |
| BriefMetadata.RenderedGet | src/agent/brief.rs:75-132 | each printed field is found under its key, and no other key is |
| BriefMetadata.RenderedSays | src/agent/brief.rs:75-103 | each key gives the value it is named after: id, state, role, model, tools, started, parent |
| BriefMetadata.RenderedMaySay | src/agent/brief.rs:90-100 | label, worktree and branch are there exactly when given, a label only when it is not blank |
| BriefMetadata.MetaIsHead | src/agent/brief.rs:75-103 | the block adds no marker: the printed brief with metadata still has one, its last line |
| EdgeCases.LookalikeLosesBackslash | src/agent/brief.rs:25-36 | every one-line text that already looks escaped comes back without its backslash |
| EdgeCases.EscapedHeadingIsNotKept | src/agent/brief.rs:25-36 | the concrete text for which the round trip fails |
| EdgeCases.UnterminatedBlock | src/agent/brief.rs:107-199 | on a block cut before its end the reader sees the state, set refuses and upsert changes nothing |
| EdgeCases.UnseenBlock | src/agent/brief.rs:107-171 | a block opened by a fence with two carriage returns can be set but not read |
| EdgeCases.CutBriefIsSweptForever | src/archive.rs:186-230 | an agent with such a brief counts as unfinished and the sweep leaves it so |
| EdgeCases.CutBriefIsMiscounted | src/archive.rs:186-230 | a dead run with that agent is counted as one and no brief changes |
| EdgeCases.EarlyFenceHidesState | src/agent/brief.rs:107-171 | a brief that reads as running and closed, whose state no writer can reach behind a fence only writers see |
| EdgeCases.LateFenceIsSettable | src/agent/brief.rs:107-171 | a brief whose block only the writers see closed: its state can be set |
| EdgeCases.SetEditsAmendment | src/agent/brief.rs:136-171 | a block cut at the marker and closed by an appended text: setting its state rewrites that amendment, for all values |
| BriefWriters.SetOnFile | src/agent/brief.rs:136-171 | setting the state commutes with whatever was appended behind the head |
| BriefWriters.SerialForm | src/archive.rs:45-64 | any sequence of writers leaves a head with the last state and every appended entry behind it, in order |
| BriefWriters.SerialReads | src/agent/brief.rs:203-252 | reading such a brief gives the last state set and all amendments, stable or torn |
| WriterProtocol.StepKeepsInv | src/archive.rs:45-64 | every step of a writer keeps: one holder of the lock, a copy read under it is the file, and the file is what the finished writers give in lock order |
| WriterProtocol.EveryRunIsSerial | src/agent/brief.rs:203-252 | every interleaving of acquire, read, write, append and release steps keeps that invariant |
| WriterProtocol.FinalBrief | src/archive.rs:45-64 | once all are done each wrote once, the brief has the state set last and every amendment, both in lock order |
| OutcomeWriters.OutcomeOnFile | src/tool/agent.rs:1274-1282 | recording the outcome commutes with whatever was appended behind the head |
| OutcomeWriters.SeriallyReads | src/tool/agent.rs:1274-1282 | after any sequence of the three writers the brief reads as the last state, the last outcome and all amendments |
| OutcomeWriters.OtherFieldsStay | src/tool/agent.rs:1274-1282 | no writer ever changes any other field |
| OutcomeProtocol.StepKeepsInv | src/tool/agent.rs:1274-1282 | every step keeps: file and copies show the writers they are said to, and some writer is lost once a stale copy was written |
| OutcomeProtocol.EveryRun | src/tool/agent.rs:1274-1282 | so it is after every schedule of the three writers |
| OutcomeProtocol.FinalBrief | src/tool/agent.rs:1274-1282 | once all are done each wrote once, the brief reads as the kept writers leave it, and all are kept if and only if no other write fell between a writer's read and its write |
| OutcomeProtocol.LockHolds | src/archive.rs:45-64 | between the read and the write of a locked writer only outcomes are written |
| OutcomeProtocol.LockedRunsUndisturbed | src/archive.rs:45-64 | so with state changes and appends alone nothing is ever lost |
| OutcomeProtocol.OutcomeOverwrites | src/tool/agent.rs:1274-1282 | for every brief and every single append or state change, a run whose result reads as if only the outcome had been written |
| PluginSend.Channel.TrySend | src/plugin_send.rs:215-235 | a bounded channel takes a text exactly when its receiver is alive and there is room |
| PluginSend.Sender.Install | src/plugin_send.rs:154-156 | replaces the channel and nothing else |
| PluginSend.Sender.Send | src/plugin_send.rs:182-249 | refused by the first of four rules, else recorded once, in the channel and the echoes or in the overflow, and counted |
| PluginSend.Sender.TakePending | src/plugin_send.rs:256-263 | hands off the oldest waiting message, frees its plugin and stages it as the next turn's origin; `PluginSendTurns` says what that means over whole runs |
| PluginSend.Sender.TakeEchoes | src/plugin_send.rs:270-282 | hands off every echo in order and frees their plugins |
| PluginSend.Sender.MarkTurnOrigin | src/plugin_send.rs:289-291 | stages the origin of the next turn, nothing else |
| PluginSend.Sender.ResetTurn | src/plugin_send.rs:298-301 | makes the staged origin the live one and clears the stage |
| PluginSendRuns.MessagesConserved | src/plugin_send.rs:108-135 | in every reachable state the pending set is the owners of queued entries, one entry each; delivered is drained plus queued echoes, queued is started plus waiting overflow, in order |
| PluginSendRuns.CountersAreAcceptedSends | src/plugin_send.rs:182-249 | each counter is its plugin's number of accepted sends and never passes 20 |
| PluginSendRuns.AcceptedSendCostsOne | src/plugin_send.rs:79-79 | a global budget falls by one with each accepted send and by nothing else |
| PluginSendRuns.SendsAreBounded | src/plugin_send.rs:182-249 | among given plugins a whole run accepts at most 20 sends each |
| PluginSendRuns.OriginStays | src/plugin_send.rs:298-301 | the live origin changes only at a turn boundary |
| PluginSendRuns.SilentInOwnTurn | src/plugin_send.rs:182-301 | no send is accepted from the plugin whose message started the running turn |
| PluginSendRuns.WaitsUntilHandedOff | src/plugin_send.rs:256-282 | a waiting message stays, with its plugin marked, until a call hands off exactly it |
| PluginSendRuns.HandedOffBetweenSends | src/plugin_send.rs:182-282 | between two accepted sends of one plugin the earlier message was handed off |
| PluginSendRuns.SendsAreIndependent | src/plugin_send.rs:182-249 | one plugin's send never changes whether another's is accepted |
| PluginSendRuns.RefusedSendsErase | src/plugin_send.rs:182-249 | a run without its refused sends reaches the same state with the same messages, and every send left is accepted |
| PluginSendTurns.OriginIsHistory | src/plugin_send.rs:256-301 | in every run the origin is what was last staged before the latest boundary: a mark, or the owner of the last message handed off since the boundary before |
| PluginSendTurns.WaitingIsPending | src/plugin_send.rs:182-282 | a plugin is marked pending exactly while one of its accepted messages has not been handed off |
| PluginSendTurns.RefusedExactly | src/plugin_send.rs:182-213 | in every run a send is refused for the first reason the calls so far give, and accepted when they give none |
| PluginSendTurns.SilentAfterHandOff | src/plugin_send.rs:256-301 | a message handed off starts its plugin's own turn at the next boundary, and none of that plugin's sends is accepted until the boundary after |
| PluginSendTurns.HumanTurnIsNobodys | src/plugin_send.rs:289-301 | a turn marked as human, or with nothing staged for it, has no origin |
| Catalogue.MergeParts | src/model_catalogue.rs:103-134 | filling the map layer by layer and sorting lists every entry of the merged table once, longest id first |
| Catalogue.OrderDoesNotMatter | src/model_catalogue.rs:124-134 | the sorted list does not depend on the order in which the hash map gives its values |
| Catalogue.MergedGet | src/model_catalogue.rs:103-134 | under each folded id the table holds the last valid custom entry, else the last valid file entry, else the compiled one |
| Catalogue.ScanIsLongestPrefix | src/models.rs:47-52 | the first match in a longest-first list is the entry of the longest folded id that begins the query, and none exactly when none does |
| Catalogue.LookupRefinesDeclaration | src/models.rs:34-52 | scanning the merged list answers exactly the declared question over folded ids |
| Catalogue.LowerFolds | src/models.rs:28-33 | folding makes two texts equal exactly when they differ in the case of ASCII letters alone, and leaves no capital |
| CatalogueCase.QueryCaseIsIgnored | src/models.rs:28-52 | queries that differ in case alone get the same entry, window and vendor |
| CatalogueCase.LookupIsFirstBegins | src/models.rs:47-52 | a lookup answers with the first entry whose id begins the query whatever the case, and with nothing when there is none |
| CatalogueCase.LookupIsLongest | src/models.rs:24-52 | in a longest-first merged list that is the longest id that begins the query |
| CatalogueCase.MergedExactly | src/model_catalogue.rs:103-134 | the merged list holds exactly the entries that stand for their ids, case disregarded: custom before file before compiled, later before earlier |
| CatalogueCase.OverriddenExactly | src/model_catalogue.rs:109-130 | a compiled entry gives way exactly when the file has a valid entry of its id in any case |
| CatalogueCase.ValidExactly | src/model_catalogue.rs:115-117 | an entry of the file counts exactly when its id is not blank and its window not zero |
| CatalogueCase.LoadedExactly | src/model_catalogue.rs:270-282 | what a load lists: custom entries always, the file's other ones only when this version wrote them |
| CatalogueCase.ListedInOrder | src/model_catalogue.rs:132-133 | longest id first, ids of one length by their first different character |
| Catalogue.AnswerUnique | src/models.rs:34-52 | that question has one answer |
| CatalogueLoad.Disk.WriteAtomic | src/model_catalogue.rs:165-179 | the file is replaced whole or left alone |
| CatalogueLoad.Disk.Load | src/model_catalogue.rs:196-280 | file, backup, merged list and complaints after a load, for every file, version, permission and fault |
| CatalogueLoad.ComplaintsTell | src/model_catalogue.rs:196-268 | each kind of complaint tells what happened to file and backup, and a refresh is announced with what it kept |
| CatalogueLoad.SilenceMeansCurrent | src/model_catalogue.rs:196-280 | a load with writing allowed that says nothing leaves a file of this version |
| CatalogueLoad.NothingOfTheUsersIsLost | src/model_catalogue.rs:196-280 | over any run of versions, permissions and faults, malformed files never change and custom entries and unknown keys stay |
| CatalogueLoad.LaterLoadsWriteNothing | src/model_catalogue.rs:196-280 | after a load that could write, any later loads at the same version change neither file nor backup |
| CatalogueLoad.ReplacedIsBackedUp | src/model_catalogue.rs:196-280 | a file that a load replaces is in the backup as it was |
| CatalogueRefresh.RefreshHarmlessExactly | src/model_catalogue.rs:196-280 | over every file, permission and fault no lookup changes from one load to the next, if and only if the compiled table hides no valid entry behind an invalid one and meets each id before its prefixes, first with the entry kept |
| CatalogueRefresh.ReadableKeptExactly | src/model_catalogue.rs:196-280 | for files that can be read the first half alone decides |
| CatalogueRefresh.FirstWriteKeptExactly | src/models.rs:47-52 | for the first write, before which the compiled list itself is scanned, the second half alone decides |
| CatalogueRefresh.FirstWriteChangesAnswer | src/models.rs:47-52 | two entries of one id: the first write of the file changes the context window found |
| CatalogueRefresh.RefreshChangesAnswer | src/model_catalogue.rs:196-280 | an invalid entry behind a valid one of its id: a refresh changes the context window found |
| CatalogueRefresh.SameLookupsExactly | src/models.rs:47-52 | two longest-first lists answer every query alike if and only if they list one table |
| CatalogueRefresh.ShippedIsOrderly | src/model_catalogue.rs:136-163 | a compiled table of valid, distinct entries, longest id first, meets both halves |
| CatalogueRefresh.LoadsKeepLookups | src/model_catalogue.rs:196-280 | under both halves any number of loads of one release keep every lookup |
| CatalogueRefresh.RefreshKeepsLookups | src/model_catalogue.rs:196-280 | for such a shipped table the next load answers every query, context window and vendor as this one did, merged or not |
| AgentIds.MintedIsValid | src/agent_registry.rs:610-619 | a minted id is valid with its own number exactly below 10^19 |
| AgentIds.ValidIsMinted | src/agent_registry.rs:610-619 | every valid id is the one minted for its number |
| AgentIds.DigitsFit | src/agent_registry.rs:610-619 | no well-formed numeral of up to 19 digits is turned down |
| AgentIds.StateTokens | src/agent_registry.rs:42-68 | reading a state token gives exactly the state that is written that way |
| Archive.FinalTokens | src/archive.rs:16-21 | the archive takes a recorded state as final exactly when the registry does |
| Agents.AgentRegistry.SeedCounterFromDisk | src/agent_registry.rs:452-468 | raises the counter to the largest valid id on disk, once |
| Agents.AgentRegistry.Reserve | src/agent_registry.rs:419-447 | refuses when shut down or full, else seeds, mints, creates the directory and tracks a queued entry |
| Agents.AgentRegistry.AdoptFromDisk | src/agent_registry.rs:493-549 | tracks a finished agent found on disk under its id and raises the counter past it |
| Agents.AgentRegistry.SetState | src/agent_registry.rs:565-582 | sets the state and finishing time of the tracked entry and records the state in its brief; `RegistryDisk.StateIsTracked` and `RegistryDisk.StateIsWritten` say what is then read |
| Agents.AgentRegistry.SetPid | src/agent_registry.rs:559-563 | sets the pid of the first entry with the id |
| Agents.AgentRegistry.Reactivate | src/agent_registry.rs:289-301 | puts a terminal entry back in the queue, without looking at the limit |
| Agents.AgentRegistry.KillAll | src/agent_registry.rs:589-601 | closes the registry and stops every running entry, leaving the others |
| Agents.AgentRegistry.PushEntry | src/agent_registry.rs:316-321 | appends a report |
| Agents.AgentRegistry.TakeReports | src/agent_registry.rs:325-333 | returns all waiting reports joined, and empties the list |
| RegistryRuns.ReservedIsFresh | src/agent_registry.rs:419-447 | a reserved id is tracked by no entry, names no directory and is larger than all before |
| RegistryRuns.StepKeepsInv | src/agent_registry.rs:419-549 | every step keeps tracked ids distinct and the counter past every tracked id and, once seeded, every valid id on disk |
| RegistryRuns.IdsAreFresh | src/agent_registry.rs:419-468 | the same at every reservation of every run in which no other process adds directories after the scan |
| RegistryRuns.IdsIncrease | src/agent_registry.rs:419-468 | minted numbers strictly increase along a run |
| RegistryRuns.FinishedIffTerminal | src/agent_registry.rs:565-601 | in every run an entry has a finishing time exactly when its state is terminal |
| RegistryRuns.ReserveWithinLimit | src/agent_registry.rs:419-447 | a successful reservation leaves at most `max_live` live entries |
| RegistryRuns.LiveWithinLimit | src/agent_registry.rs:289-601 | a run without reactivation and without leaving a terminal state never exceeds the limit |
| RegistryRuns.NothingAfterShutdown | src/agent_registry.rs:589-601 | after `kill_all` every reservation is refused for good |
| RegistryRuns.ReportsConserved | src/agent_registry.rs:316-333 | every pushed report is taken exactly once, in push order, or still waits |
| RegistryDisk.StateIsTracked | src/agent_registry.rs:565-578 | the tracked entry has the state and a finishing time kept from its first final state, every other entry stays |
| RegistryDisk.StateIsWritten | src/agent_registry.rs:579-582 | the brief then reads as exactly that state, and its other fields, its report and all other directories stay |
| RegistryDisk.NothingIsWritten | src/archive.rs:45-64 | without such an agent, directory or state line nothing on disk changes |
| RegistryDisk.AdoptableExactly | src/agent_registry.rs:493-521 | an agent can be adopted in a state exactly when its own files record it and it is final and no interruption |
| RegistryDisk.AdoptedAsRecorded | src/agent_registry.rs:493-549 | an adopted agent is tracked in the state its files record, finished, with no process; a refusal changes nothing |
| RegistryDisk.LaterProcessFinds | src/agent_registry.rs:493-582 | after a state is set, a later process can continue the agent in exactly that state or is refused, and a sweep leaves a final state alone and marks any other |
| RegistryDisk.OwnBriefQualifies | src/agent/brief.rs:75-103 | a brief rendered for an agent meets the conditions of all that after any of its writers |
| RegistryEntries.ReservedExactly | src/agent_registry.rs:419-447 | when a reservation is refused, and what one that succeeds tracks and creates |
| RegistryEntries.RevivedExactly | src/agent_registry.rs:289-301 | only an agent that has ended is revived, and then queued without process or finishing time |
| RegistryEntries.KilledExactly | src/agent_registry.rs:589-601 | shutdown stops what runs, keeps finishing times, leaves every other entry |
| Archive.RunsDir.MarkInterrupted | src/archive.rs:186-230 | sweeps every dead run but the current one and counts its unfinished agents |
| Archive.RunsDir.CleanRuns | src/archive.rs:437-499 | removes exactly the candidates the mode chooses, a day count taken as the source casts it, and reports their number, size and the live ones skipped; nothing when the date is off the calendar |
| Archive.RunsDir.AutoPrune | src/archive.rs:501-510 | nothing for zero days, else what cleaning by age does |
| CleanByAge.CutoffIsDaysBack | src/archive.rs:472-474 | the cutoff is that many days back exactly below 2^63, and in the future from there on |
| CleanByAge.OldOnesGo | src/archive.rs:437-499 | below 2^63 exactly the candidates at least that many days old go |
| CleanByAge.StartedOnesGo | src/archive.rs:437-499 | from there on every candidate already started goes |
| CleanByAge.OnlyOldGoExactly | src/mode/tui.rs:2197-2206 | no archive loses a younger candidate if and only if the count is below 2^63 |
| CleanByAge.LargestCountRemovesAll | src/mode/tui.rs:2197-2206 | at 2^64 - 1 the cutoff is a day ahead and a run started this moment goes |
| Archive.SweptAgentReads | src/archive.rs:186-230 | a swept agent reads as interrupted exactly when its state could be rewritten |
| Archive.SweepKeepsOtherFields | src/archive.rs:45-64 | every other field of a swept brief keeps its value |
| Archive.SecondSweepCounts | src/archive.rs:186-230 | a second sweep counts exactly the agents the first could not rewrite |
| Archive.SecondSweepIsZero | src/archive.rs:186-230 | and so returns 0 if and only if every unfinished agent has a state line in a block closed for the writers |
| SweepLaws.SweptIsRewrittenPlusStuck | src/archive.rs:186-230 | the count returned is the number of briefs that differ afterwards plus the unfinished ones that could not be rewritten |
| SweepLaws.SweepReturnsRewrittenExactly | src/archive.rs:186-230 | so it is the number of briefs rewritten if and only if every unfinished agent can be rewritten |
| SweepLaws.ReadableIsSettable | src/agent/brief.rs:107-171 | when no fence line ends in several carriage returns, a brief in which a key is read can be set exactly when the reader finds the block closed |
| SweepLaws.WrittenHasState | src/agent/brief.rs:75-252 | a rendered brief after any writers, with any torn append behind it, has a state line its writers find |
| SweepLaws.WrittenRunsAreSwept | src/archive.rs:186-230 | where all briefs are such, the count is exact and a second sweep returns 0 |
| Archive.SweepTouchesOnlyUnfinished | src/archive.rs:186-230 | the sweep changes no live or current run and no finished or stateless brief |
| CleanReports.SweepLeaves | src/archive.rs:186-230 | run by run and agent by agent what a sweep leaves and what it sets |
| CleanReports.SweptCount | src/archive.rs:186-230 | what a sweep returns is the number of agents still going in the runs it looks at |
| Archive.CleanRemovesOnlyChosen | src/archive.rs:355-499 | in every mode exactly the chosen runs go; current, live, unfinished, linked and oddly named entries stay |
| CleanReports.CandidateExactly | src/archive.rs:447-467 | a run may go exactly when it is a real directory with a run's name, not current, dead, its agents all ended |
| CleanReports.SkippedExactly | src/archive.rs:462-465 | those passed over as live, by name and in order |
| CleanReports.FreedAndLeft | src/archive.rs:492-499 | counts and sizes before a clean are those left and those reported |
| CleanReports.AllButCurrentLeaves | src/archive.rs:470-471 | cleaning all but the current run leaves no candidate and everything else |
| CleanReports.KeepLeaves | src/archive.rs:480-489 | keeping n leaves min(n, count) candidates, none started before one that went |
| CleanReports.OlderLeaves | src/archive.rs:472-479 | cleaning by age takes exactly the candidates at least that old, or nothing when the date is off the calendar |
| Archive.OlderThanRemovesOld | src/archive.rs:437-499 | by age exactly the candidates that old go |
| Archive.KeepRecentKeepsLatest | src/archive.rs:437-499 | the sorted candidates are split into min(n, count) kept ones and removed ones that started no later |
| Archive.KeepRecentLeavesLatest | src/archive.rs:437-499 | on disk min(n, count) candidates are left, none started before a removed one, and every other entry stays |
| Archive.SweepThenClean | src/archive.rs:186-499 | sweep, then all but current: exactly the current, live, linked, non-directory and oddly named entries are left |
| Archive.SweptNeverAdoptable | src/agent_registry.rs:508-521 | an agent the sweep found unfinished, rewritten or not, is never adopted |
| Archive.RunIdShape | src/archive.rs:326-335 | the shape test accepts exactly eight digits, six digits and eight hex digits joined by dashes |
| Commands.ResolveCommands | src/command.rs:184-254 | the three loops give the admitted commands and all diagnostics, in order |
| Commands.AdmittedExactly | src/command.rs:184-254 | admitted exactly when the name is usable, not reserved and claimed once among usable candidates |
| Commands.OrderDoesNotMatter | src/command.rs:184-254 | permuting the candidates permutes the admitted commands |
| Commands.ResolvingIsIdempotent | src/command.rs:184-254 | resolving the result again changes nothing |
| Commands.OneDiagnosticPerContest | src/command.rs:184-254 | each contested name gets exactly one collision diagnostic, other names none |
| Commands.RefusalsAreAnnounced | src/command.rs:184-254 | the plugin of every refused candidate is named in some diagnostic |
| CommandRules.UsableExactly | src/command.rs:144-164 | a name is usable exactly when it has 1 to 64 characters, none of them blank, a colon or a slash |
| CommandRules.ProblemsExactly | src/command.rs:144-164 | each complaint about a name holds of it, and none named before it does |
| CommandRules.ReservedArePalette | src/mode/tui.rs:206-275 | the reserved names are exactly those of the palette's built-in rows |
| CommandRules.AdmittedInOrder | src/command.rs:184-254 | the candidates that register are, in their order, those with a good name that no built-in and nobody else has |
| CommandRules.DiagnosticsExactly | src/command.rs:184-254 | what is said of the others: each bad name, each claim of a built-in's name, each contested name with all its claimants in order |
| PluginContext.Contributions.Set | src/plugin_context.rs:114-133 | stores, clears or refuses one plugin's text, says whether it changed, and touches no other plugin |
| PluginContext.Contributions.RenderBlocks | src/plugin_context.rs:147-160 | the loop renders every contribution once, in name order, in the form that `ContextBlocks` reads |
| ContextBlocks.HeaderNames | src/plugin_context.rs:65-67 | at the i-th header the text goes on with the i-th name in quotes, and on the next line with its shown text |
| ContextBlocks.ReadsBackExactly | src/plugin_context.rs:147-180 | a reader that knows the form of a header gets back every name with its shown text, in order, if and only if no name opens or closes a header itself |
| ContextBlocks.RenderTellsApart | src/plugin_context.rs:147-180 | so contributions under such names look alike only if they show the same |
| ContextBlocks.TextShowsLastTexts | src/plugin_context.rs:114-180 | after any calls the text shows each plugin's last accepted text under its name, and nothing under any other |
| ContextBlocks.SentinelsReplaced | src/plugin_context.rs:178-180 | every sentinel in a body is replaced where it stands, and nothing else |
| ContextBlocks.ClosingNameCollides | src/plugin_context.rs:65-67 | two different contributions, one under a name that closes its header, that look alike |
| PluginContext.NeutralizedIsFree | src/plugin_context.rs:178-180 | the header sentinel never occurs in a neutralized body |
| PluginContext.FreeTextUnchanged | src/plugin_context.rs:178-180 | and a body without it is left alone |
| PluginContext.NeutralizeIdempotent | src/plugin_context.rs:178-180 | so neutralizing twice is neutralizing once |
| PluginContext.RenderingDependsOnLastTexts | src/plugin_context.rs:114-160 | after any calls the output depends only on each plugin's last accepted text |
| PluginContext.OneHeaderEach | src/plugin_context.rs:147-180 | for plugin names without it, the sentinel occurs in the output exactly at the headers |
| PluginContext.HeadersInOrder | src/plugin_context.rs:147-176 | the header of contribution i stands at position i of strictly increasing ones |
| PluginContext.RenderedSize | src/plugin_context.rs:114-180 | the output is at most its headers plus 4096 bytes for each contribution |
| PluginContext.StoredAreBounded | src/plugin_context.rs:114-133 | whatever is set, every stored text is within 4096 bytes |
| Utf8.ByteLenIsEncoded | src/plugin_context.rs:114-121 | the length that bound measures is the number of bytes of the UTF-8 encoding |
| ToolRegistry.Registry.RegisterExternal | src/tool/mod.rs:454-468 | refuses a name that is taken, leaves out one that is not allowed, else adds |
| ToolRegistry.Registry.UnregisterPlugin | src/tool/mod.rs:509-522 | removes every tool of one plugin and no other tool |
| ToolRegistry.RegisteredAt | src/tool/mod.rs:454-468 | after registering a list each name holds what it held, else the first allowed tool of that name |
| ToolRegistry.AllowedWhateverCase | src/tool/mod.rs:454-474 | under an allow list a tool is allowed exactly when one of the given names is its own, whatever the case |
| Subscribers.FromShared | src/subscriber.rs:68-76 | the table lists for every event its subscribers in order |
| Subscribers.Shared | src/subscriber.rs:84-94 | the nested loops collect each subscription of the table once, by identity, in hash order |
| Subscribers.SharedGivesBack | src/subscriber.rs:84-94 | for every hash order the table gives back exactly the subscriptions it was built from that name an event |
| Subscribers.DeliverWith | src/subscriber.rs:110-137 | delivers to every subscriber in order despite panics, and builds a payload only when there is one |
| Subscribers.SameSubscribersSameCounts | src/subscriber.rs:68-76 | the order of subscriptions never changes how often anyone hears an event |
| Subscribers.HeardExactly | src/subscriber.rs:68-76 | an event reaches exactly those that name it, each as often as it does |
| Subscribers.HeardInOrder | src/subscriber.rs:68-76 | and in the order in which they were given |
| Reload.LoadExtensions | src/agent/build.rs:121-202 | what startup makes of a registry: tools, commands, subscriber lists and grant rows |
| Reload.Agent.ReloadExtensions | src/agent/build.rs:576-732 | tools, commands, subscriber lists, grant rows and context contributions after a reload |
| ReloadLaws.ToolSurvivesExactly | src/agent/build.rs:614-651 | a registered tool stays exactly when it is no plugin's, or its plugin failed and no instance of it loaded |
| ReloadLaws.VanishedToolsGone | src/agent/build.rs:614-651 | no tool is left of a plugin that neither failed nor brought one |
| ReloadLaws.NonPluginsUntouched | src/agent/build.rs:614-651 | built-in and MCP tools are exactly the same afterwards |
| ReloadLaws.KeptCommandSurvivesExactly | src/agent/build.rs:653-673 | a failed plugin keeps a command exactly when no loaded plugin claims its name; where one does, nobody has it |
| ReloadLaws.FailedSubscriptionsSurvive | src/agent/build.rs:675-690 | each event reaches the fresh subscribers first and then, as a multiset, the kept ones it reached before |
| KeptOrder.OrderKeptExactly | src/subscriber.rs:68-94 | every hash order keeps each event's kept subscribers in order if and only if, of two that share an event, the later hears nothing the earlier does not |
| KeptOrder.CoveredKeepsOrder | src/agent/build.rs:675-690 | under that condition every event's list after a reload is the fresh subscribers and then the kept ones as they stood |
| KeptOrder.OvertakenSomewhere | src/subscriber.rs:84-94 | a pair that breaks the condition is swapped by some hash order |
| ReloadLaws.KeptOrderMayChange | src/subscriber.rs:84-94 | the smallest such pair and the order that swaps it |
| ReloadLaws.SubscriptionsStayDistinct | src/agent/build.rs:675-690 | the next reload again starts from distinct subscriptions |
| ReloadLaws.GrantRowsAfter | src/agent/build.rs:692-703 | rows are sorted by plugin; each plugin has the rows it loaded with, then its old ones if it failed |
| ReloadLaws.DroppedExactly | src/agent/build.rs:705-732 | which plugins lose their contribution: those loaded without the context capability, and those with a tool that neither loaded nor failed |
| ReloadLaws.ReloadIsColdStart | src/agent/build.rs:576-703 | with no failure a reload equals a cold start on the built-ins, MCP names aside, from any state; row order agrees exactly when the load was sorted |
| ReloadLaws.RowOrderMayChange | src/agent/build.rs:692-703 | two plugins that load out of order: a cold start and a reload list their rows differently |
| ReloadLaws.HistoryIsForgotten | src/agent/build.rs:576-703 | after any run of reloads, one in which nothing fails leaves what a cold start on the first built-ins gives |
| ReloadLaws.VanishedContribution | src/agent/build.rs:705-714 | a vanished plugin's contribution is dropped exactly when it had a tool registered |
| ReloadLaws.ToollessContributionStays | src/agent/build.rs:705-714 | so a plugin that loaded without tools keeps its contribution when it vanishes |
| Session.ReadSession | src/session.rs:859-922 | the loop returns the header and entries, or the first error with its line |
| Session.AppendGrows | src/session.rs:373-398 | appending extends the written log by exactly that entry |
| SessionFiles.ReadableExactly | src/session.rs:859-922 | a file is read if and only if its first line is a header of version 2 and every later non-blank line decodes; the result is that header and those entries |
| SessionFiles.BlankFirstLine | src/session.rs:859-922 | a blank first line is never skipped: no header is found, or a later line is bad |
| SessionViews.FailsExactly | src/session.rs:859-922 | why a read fails, and at which line: the first line that is no entry, a first entry that is no header, or another version |
| SessionFiles.LeadingBlankLine | src/session.rs:744-922 | a blank line before a whole session makes it unreadable, and renaming it still works |
| Session.ReadBack | src/session.rs:859-922 | a written log reads back as its header and entries, in order |
| Session.ForkSessionAt | src/session.rs:568-615 | writes a fresh header and the entries before the target, and offers that entry's text |
| Session.ForkReadsPrefix | src/session.rs:568-615 | a fork at k reads as the first min(k, n) entries, with the source as parent |
| SessionViews.ForkKeeps | src/session.rs:568-615 | a fork has the new id, time and directory, names its source, and keeps model, address and name |
| SessionViews.PrefillExactly | src/session.rs:576-579 | only a user's message is offered for editing, as it was written |
| Session.ForkOfFork | src/session.rs:568-615 | a fork of a fork holds the entries of one fork at the smaller index |
| Session.TreeItems | src/session.rs:638-732 | the loop lists the row of every entry that has one |
| Session.RowsAgreeWithForks | src/session.rs:638-732 | row indices strictly increase, and forking at a row returns exactly its prefill |
| Session.EveryRowIsListed | src/session.rs:638-732 | no entry that has a row is missing |
| SessionViews.RowExactly | src/session.rs:638-732 | turns have rows, bookkeeping and tool results have none |
| SessionViews.RowShows | src/session.rs:638-732 | a row shows the role or kind of its entry and an excerpt on one line |
| Session.SetSessionName | src/session.rs:744-783 | rewrites the name in the first non-blank line, or reports that it cannot |
| Session.RenameKeepsEntries | src/session.rs:744-783 | renaming a file written by appends gives exactly that file with the new name |
| SessionFiles.RenameAnyReadable | src/session.rs:744-783 | renaming any readable file succeeds, sets the header's name and keeps every entry |
| ActiveSession.SessionsDir.SetActiveSession | src/session.rs:925-956 | drops the lines of the directory, keeps the others in order, and adds the new one last |
| ActiveSession.SessionsDir.ActiveSession | src/session.rs:959-972 | the loop returns the value of the first line with that key |
| ActiveSession.SetThenLookupExactly | src/session.rs:925-972 | over any file, a recording is found again if and only if directory and path are free of what the format cannot hold |
| ActiveSession.SetThenLookupOther | src/session.rs:925-972 | over any file, another directory keeps its answer, but for one spare carriage return at its end |
| ActiveSession.LookupIsLastSet | src/session.rs:925-972 | over any file and calls, the lookup gives the last path set, else what the file said, less one spare carriage return for each call |
| ActiveSession.PlainFileIsMap | src/session.rs:925-972 | so over a file whose answer ends in no carriage return it is a map |
| ActiveSession.ReturnAtEndIsLost | src/session.rs:925-972 | a path that ends in a carriage return comes back without it |
| ActiveSession.TabIsNeverFound | src/session.rs:925-972 | a directory with a tab in its name is never found |
| ActiveSession.OneLineEach | src/session.rs:925-956 | however often it is rewritten, the file holds at most one line for a directory |

## Left out

- Rendering of reports (`render_report`) and of `index.md`, which is regenerated outside the registry's lock.
- I/O faults of the sweep, of cleaning, of state changes and of appends; faults are modelled for the catalogue only. A torn append is modelled as the prefix a reader may see.
- Clock readings, the random tail of run ids, process ids and liveness: inputs of the model.
- JSON and TOML: session entries go through an abstract lawful line codec; the catalogue file is a parsed record.
- The registry below whole methods: each method is one step, and the counter is an unbounded number that the freshness lemmas require to stay below 10^19.
- Stopping agents, background runs, pending-report sinks, and the fields of an entry that no rule reads.
- The wording of diagnostics and notices; the report line of a reload; the order in which sorted name lists are reported.
- Compiling and instantiating plugins: a load is the summary it returns, and `PluginEngine` failures count as load failures.
- The generation counter that retires bridges, and the plugin dispatch installed after a reload.
- Listing, resuming and exporting sessions; the file names forks are given.
- Terminal UI, providers, HTTP, worktrees, configuration merging, trust and resources.
- FieldExactness.SetUnseenExactly: is about the reading of a whole file; with keys that start like a heading a line is a heading itself.
- OutcomeProtocol.FinalBrief: each write is one step, though the outcome is written over the file in place and a reader may see it half written.
- AmendmentNumbers.NumbersDistinctExactly: counts and appends only; that a state change leaves the amendments alone is `BriefWriters.SetOnFile`. Past the limit, where the sum overflows, nothing is claimed.
- BriefWatch.SentInOrder: the brief a watcher sees is only appended to; that the receiver goes away is not modelled.
- SessionFiles.RenameAnyReadable: takes a decoder to which a trailing carriage return means nothing, as white space behind a JSON value does not.
- Archive.RunsDir.AutoPrune: does not tell a missing archive directory, which is reported as empty before the date is computed, from an empty one.
- CatalogueRefresh.RefreshKeepsLookups: asks for a compiled table of valid, distinct entries, longest id first, as the shipped one is; `RefreshHarmlessExactly` gives the exact condition.
- Subscribers.Shared: identity of subscribers is a number carried by each, not a heap address.

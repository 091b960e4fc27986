# Entral front-end protocols, trees and texts: a verified model

This Dafny project models the parts of the Entral web application that are more than display:
how the member shell keeps its surfaces on one snapshot of the server, how settings and security
mutations survive a bad network, how an arbitrary parent relation becomes a tree that can be
searched and walked by keyboard, and how texts, tables, messages and labels are read, written,
merged and placed. The claims below are proved for all inputs, all runs or all reachable states; a row that
says "a run" or names one input is an example that shows why a condition is there.

`dafny verify dfyconfig.toml` checks everything.

## How the files fit together

* **Snapshot synchronisation.** `MemberShell.dfy` holds the client: each synchronous segment between
  two `await`s as a function on values, and the class that updates the fields one by one and is proved
  against them. `SyncProtocol.dfy` is the transition system of any number of refreshes, events, polls,
  failures, aborts and organisation switches. Assumed of the environment: the event sequence of an
  organisation never decreases, and a load answers with a sequence that the server held between call
  and return. `RecordLoaders.dfy` treats the three smaller latest-wins loaders the same way, with the
  render of a selection and its effect as separate steps.
* **Trees.** `DepthFirst.dfy` is the walk that both hierarchies share, `InfrastructureOrder.dfy` and
  `TextualHierarchy.dfy` are the two components, `InfrastructureFilter.dfy` is search, sibling positions
  and keyboard, `VirtualWindow.dfy` the rendered rows. `localeCompare` is any total order on strings that
  is 0 on equal strings only. Entity ids are unique, as
  packages/contracts/src/portfolio.ts:340 demands.
* **Write protocols.** `GraphSettings.dfy` (debounced autosave against a service that compares versions)
  and `SecurityMutations.dfy` (idempotency keys against a service that applies each key once).
* **Texts and tables.** `LinePatterns.dfy` and `MarkdownText.dfy` (what a line is), `MarkdownBlocks.dfy`
  (the block reader over any such notion), `MarkdownMessage.dfy` (the component); `Tokenising.dfy` (the
  scanning loop), `MarkedText.dfy`, `InlineMarkdown.dfy`, `CodeHighlight.dfy`; `Csv.dfy` (the reader),
  `DataPortability.dfy`, `GraphExport.dfy` (the writers). Regular expressions are written out as readers, and
  the readers are proved equal to what the patterns match: the line patterns as sets of splits of the line, the
  inline and the highlighting pattern as expressions with the order in which a backtracking matcher tries them
  (`RegularExpressions.dfy`, `InlinePattern.dfy`).
* **The rest.** `Latest.dfy`, `MessageLog.dfy` and `AssistantMessages.dfy`; `LabelLayout.dfy` and `CameraZoom.dfy` (over the
  reals), `FuzzyScore.dfy`, `IntegrationBinding.dfy`; `Sorting.dfy`, `Lists.dfy`, `EntityOrder.dfy` and
  `Wrappers.dfy` are shared, and so is `Traces.dfy` (concrete runs).

## Where the code and the expectation differ

* **A second settings change can be accepted before the first is heard of.** Resetting everything deletes the
  stored row, so versions start again at 0. After an accepted change this can happen exactly when that change was
  a reset of everything, or a reset sent at version 0, and the client knows version 0 or still has another request
  out that was sent at version 0 (`GraphSettings.SecondAfterAcceptanceExactly`; when another session resets
  everything: `SecondAfterForeignResetExactly`). A save that was sent before a reset then undoes it
  (`LateSaveUndoesReset`). Everywhere else at most one accepted change is undelivered (`AtMostOneUndelivered`).
* **A local reset loses its own result** when an edit was pending: clearing the dirty flag lets the effect
  that copies the preferences run (`LocalResetSurvives`, an if-and-only-if).
* **Idempotency keys are not exactly once per click.** A 4xx other than 408 after an ambiguous attempt drops
  the key (`SecurityMutations.ThirdClickActsAgain`); all effects are accounted for regardless.
* **Labels leave the label area** when their anchor lies under the open inspector, because anchors are
  filtered by the canvas and labels by the narrower area (`LabelLayout.AnchorUnderInspector`). The exact
  condition is `LabelLayout.SideEdges`.
* **The textual hierarchy depends on the input order** exactly when two entities have parent chains that never
  arrive at a root (`TextualHierarchy.ForgetsOrderExactly`), with roots beside them or without; the
  Infrastructure tree never does.
* **The previous record stands under a new selection** between the render that shows the selection and the effect
  that clears or loads: loading is still false and the old entity, business or overview is on screen
  (`RecordLoaders.PreviousRecordUnderNewSelection`, for all three components; in the Infrastructure pane under the
  new entity's heading). What is on screen is not what is rendered exactly when what is rendered has not been asked
  for yet (`ShowsUnwantedExactly`): before the effect has run, unless somebody has retried in between
  (`ShowsUnwantedBeforeEffectExactly`), or after an event has asked for a business at a newer sequence
  (`NewerRecordUnderRenderedSequence`). Once the effect has run, the business loader may still hold the previous
  business while the next one loads, and then it is hidden (`UnaskedIsHidden`, `EffectLeavesUnaskedExactly`).
* **Merging messages with equal times depends on their order** exactly when two of them have fewer than 40
  strictly later messages behind them (`AssistantMessages.MergesEquallyExactly`, and for merging in steps
  `PlansMergeEquallyExactly`).
* **The table download of rows without keys** does not read back as itself; `DataPortability.DownloadIsRead`
  says exactly when it does.

## Model

Rows marked (remark) need no proof beyond the definitions; they stand beside the main results to say what a
definition amounts to.

| member | source | states |
|---|---|---|
| `MemberShell.VisibleMessages` | frontend/components/CanonicalMemberShell.tsx:200-203 | exactly the conversation messages outside the event log or not beyond the accepted snapshot are shown |
| `MemberShell.VisibleMessagesAreShown` | frontend/components/CanonicalMemberShell.tsx:200-203 | they are shown each where it stands in the conversation, in order, and none twice that is not there twice |
| `MemberShell.CanonicalMemberShell.RefreshWorkspace` | frontend/components/CanonicalMemberShell.tsx:129-145 | the synchronous beginning of a refresh: a new generation, loading, connecting; nothing without an organisation |
| `MemberShell.CanonicalMemberShell.FinishRefresh` | frontend/components/CanonicalMemberShell.tsx:187-205 | a refresh that is still current commits all surfaces, the aligned sequence and the sync state in one segment; any other leaves every field as it was |
| `MemberShell.CanonicalMemberShell.CatchRefresh` | frontend/components/CanonicalMemberShell.tsx:211-218 | a failure disconnects only while its refresh is current; an abort is silent |
| `MemberShell.CanonicalMemberShell.RefreshPendingEvents` | frontend/components/CanonicalMemberShell.tsx:221-231 | starts at most one event refresh per organisation, for the pending sequence, and takes the latch |
| `MemberShell.CanonicalMemberShell.OnEvents` | frontend/components/CanonicalMemberShell.tsx:309-318 | events of the active organisation raise the pending sequence and start its refresh; others change nothing |
| `MemberShell.CanonicalMemberShell.OnPoll` | frontend/components/CanonicalMemberShell.tsx:319-341 | an empty poll connects exactly when nothing is pending and the aligned snapshot covers it, and otherwise asks for a refresh |
| `MemberShell.CanonicalMemberShell.SelectOrganization` | frontend/components/CanonicalMemberShell.tsx:443-462 | a switch clears every surface, message and sequence and makes the new organisation the active one |
| `SyncProtocol.StepKeepsInv` | frontend/components/CanonicalMemberShell.tsx:129-343 | every step of the protocol keeps the invariant on screen, sequences, flights and latch |
| `SyncProtocol.EveryStateIsGood` | frontend/components/CanonicalMemberShell.tsx:129-343 | every state of every run satisfies that invariant |
| `SyncProtocol.ConnectedMeansCaughtUp` | frontend/components/CanonicalMemberShell.tsx:309-341 | in every reachable state, connected implies that nothing is pending and that the aligned sequence is at least everything announced since the last switch |
| `SyncProtocol.ScreenShowsOneSnapshot` | frontend/components/CanonicalMemberShell.tsx:187-205 | in every reachable state all surfaces belong to the active organisation and to one event sequence that the server has reached, and no message is beyond it |
| `SyncProtocol.StepIsForward` | frontend/components/CanonicalMemberShell.tsx:129-343 | no step but a switch takes back what is shown or forgets a sequence that is known |
| `SyncProtocol.SnapshotsNeverGoBack` | frontend/components/CanonicalMemberShell.tsx:147-199 | between two switches the committed snapshot never goes backwards and never disappears |
| `SyncProtocol.OnlyCurrentRefreshWrites` | frontend/lib/canonical-refresh.ts:9-19 | a refresh changes what is shown only while its generation and organisation are current and it is not aborted, and then only to its own organisation's data |
| `SyncProtocol.GenerationNeverDecreases` | frontend/components/CanonicalMemberShell.tsx:135 | generations only grow along a run |
| `SyncProtocol.SupersededRefreshNeverWrites` | frontend/components/CanonicalMemberShell.tsx:136-142 | once superseded, a refresh never writes again in the whole rest of the run, through any switches away and back |
| `SyncProtocol.EventRefreshesCanOverlap` | frontend/components/CanonicalMemberShell.tsx:221-231 | a run from the start, with a snapshot shown before each event, in which switching away and back leaves two event refreshes of one organisation reading, so the latch alone would not be enough |
| `SyncProtocol.FreeLatch` | frontend/components/CanonicalMemberShell.tsx:226-230 | from every good state the refresh that holds the latch can be settled and then releases it, with the snapshot and the pending sequence as they were |
| `SyncProtocol.FinishLaunched` | frontend/components/CanonicalMemberShell.tsx:146-219 | a current refresh whose loads are answered reaches connected at the sequence of the server and touches no other refresh |
| `SyncProtocol.CatchUp` | frontend/lib/canonical-portfolio.ts:187-243 | from every good state with a snapshot on screen, whatever is in flight and whoever holds the latch, the next response of the event channel, with events when its cursor is behind and without them when not, and the requests already out can connect the client at the server's own sequence, without any refresh by the member or the effect |
| `SyncProtocol.LatchedResponsesStartNothing` | frontend/components/CanonicalMemberShell.tsx:221-225 | (remark) while the latch is held no response of the channel starts a refresh, which is why the holder has to come to an end |
| `SyncProtocol.RetryConnects` | frontend/components/CanonicalMemberShell.tsx:129-145 | from every good state, without a snapshot too, one press of Retry and its answers connect the client at the server's own sequence |
| `SyncProtocol.CurrentRefreshLoads` | frontend/components/CanonicalMemberShell.tsx:143-219 | in every state of every run a current refresh that is not settled is shown as loading, without an error |
| `SyncProtocol.LoadingExactly` | frontend/components/CanonicalMemberShell.tsx:143-219 | over any run the shell shows loading exactly until a current refresh is settled, whether committed, failed or aborted, and again from the next refresh or switch on |
| `SyncProtocol.ErrorExactly` | frontend/components/CanonicalMemberShell.tsx:143-219 | over any run it shows the error exactly from a failure of a current refresh that is no abort on, until the next refresh or switch |
| `SyncProtocol.RefusedRefresh` | frontend/components/CanonicalMemberShell.tsx:148-216 | (remark) what a current refresh does not accept: mixed or old pairs are asked for again twice, and everything else that is refused ends it with the error and the channel disconnected, what is on screen unchanged; an abort only ends the loading |
| `SyncProtocol.AcceptedRefresh` | frontend/components/CanonicalMemberShell.tsx:148-219 | what it accepts takes it one stage on, and the last stage shows the snapshot with the visible messages of the conversation in order, clears the pending sequence it covers and ends the loading |
| `SyncProtocol.ThirdRefusedPairFails` | frontend/components/CanonicalMemberShell.tsx:148-163 | (remark) two refused pairs leave a refresh running and the client as it was, the third ends it with the error |
| `SyncProtocol.RefreshBegins` | frontend/components/CanonicalMemberShell.tsx:141-152 | (remark) a refresh begins with a new generation, loading, without an error, for the pending sequence, and without messages when the effect begins it |
| `SyncProtocol.ResponseExactly` | frontend/components/CanonicalMemberShell.tsx:309-341 | an empty poll connects and does nothing else exactly when nothing is pending and the snapshot covers it; every other response raises the pending sequence and starts a refresh exactly when the latch is free, which it then holds |
| `SyncProtocol.DisconnectsExactly` | frontend/components/CanonicalMemberShell.tsx:211-308 | the channel becomes disconnected exactly by an error of its own or a failed current refresh |
| `SyncProtocol.CleanupAborts` | frontend/components/CanonicalMemberShell.tsx:287-297 | cleaning the effect up aborts its refresh, leaves no refresh current and changes nothing else |
| `SyncProtocol.AbortedEnds` | frontend/components/CanonicalMemberShell.tsx:148-219 | (remark) an aborted refresh asks for no further pair and changes nothing |
| `SyncProtocol.SwitchShowsNothing` | frontend/components/CanonicalMemberShell.tsx:443-462 | (remark) a switch leaves no surface, message, sequence, latch or error of the other organisation |
| `RecordLoaders.StepKeepsInv` | frontend/components/CanonicalInfrastructure.tsx:237-303 | every render, effect, retry, event, answer and failure keeps the latest-wins invariant, for all three loaders |
| `RecordLoaders.ScreenShowsWhatWasAsked` | frontend/components/CanonicalPortfolioDashboard.tsx:550-617 | after any run, rendered but not yet effective selections included, what is on screen is the record last asked for, at the sequence last asked for |
| `RecordLoaders.ShowsUnwantedExactly` | frontend/components/CanonicalInfrastructure.tsx:280-303 | after any run, the record on screen is not the rendered one exactly when what is rendered was not what was last asked for; that needs an effect that has not run, or a business asked for at the sequence of an event |
| `RecordLoaders.ShowsUnwantedBeforeEffectExactly` | frontend/components/CanonicalPortfolioDashboard.tsx:600-617 | where no event was heard: exactly when the effect last ran with something else than what is rendered, and nobody has retried since |
| `RecordLoaders.PreviousRecordUnderNewSelection` | frontend/components/MemberDashboardClient.tsx:135-138 | for each loader, a run after which the previous record is on screen under a new selection, whose effect has not run yet |
| `RecordLoaders.NewerRecordUnderRenderedSequence` | frontend/components/CanonicalPortfolioDashboard.tsx:623-637 | a run after which an event's newer business record is on screen while the older sequence is rendered |
| `RecordLoaders.EffectHidesUnwanted` | frontend/components/CanonicalInfrastructure.tsx:280-303 | (remark) in every good state the effect takes a record that is not the rendered one off the screen |
| `RecordLoaders.ScreenShowsWhatIsWanted` | frontend/components/CanonicalPortfolioDashboard.tsx:600-617 | whenever the effect has run with what is rendered, what is on screen is the rendered record, at the sequence last asked for, which without events is the rendered one |
| `RecordLoaders.HoldsOnlyWhatIsWanted` | frontend/components/CanonicalInfrastructure.tsx:237-303 | whenever the effect has run, the entity and overview loaders hold no other record than the rendered one, not even while loading |
| `RecordLoaders.DeselectingClears` | frontend/components/CanonicalInfrastructure.tsx:281-289 | without a selection nothing is on screen, and once the effect has run nothing is held and nothing loads |
| `RecordLoaders.BusinessHoldsThePreviousRecord` | frontend/components/CanonicalPortfolioDashboard.tsx:550-617 | a run after which the effect has run and the business loader still holds the previously selected business, hidden while the next one loads |
| `RecordLoaders.UnaskedIsHidden` | frontend/components/CanonicalPortfolioDashboard.tsx:550-582 | after any run, a record that is not the one last asked for is held by the business loader only, while that one loads, and is not on screen |
| `RecordLoaders.EffectLeavesUnaskedExactly` | frontend/components/CanonicalPortfolioDashboard.tsx:600-617 | (remark) exactly when the effect leaves such a record held: a business is selected that the cache does not have at the rendered sequence, while another record is held |
| `RecordLoaders.EffectAsks` | frontend/components/CanonicalInfrastructure.tsx:280-303 | the effect on a selection aborts what is out and asks for what is rendered, or shows a cached record of that very sequence: the entity loader instead, the business loader meanwhile |
| `RecordLoaders.RetryAsks` | frontend/components/CanonicalInfrastructure.tsx:683 | (remark) the Retry button asks for what is rendered |
| `RecordLoaders.EventAsks` | frontend/components/CanonicalPortfolioDashboard.tsx:628-635 | (remark) an event asks for the business that the effect last ran with, at its own sequence |
| `RecordLoaders.LiveRequestEnds` | frontend/components/CanonicalPortfolioDashboard.tsx:560-582 | (remark) an aligned answer to a live request is shown, a failure puts the error in its place |
| `RecordLoaders.StaleNeverWrites` | frontend/components/MemberDashboardClient.tsx:83-133 | (remark) an aborted or overtaken request changes neither the record nor the error, whatever becomes of it |
| `RecordLoaders.LoadingIsAccurate` | frontend/components/CanonicalInfrastructure.tsx:263-265 | loading is shown only while the latest request is out, and for entity and business exactly while it is out and not aborted |
| `RecordLoaders.GivesUp` | frontend/components/CanonicalPortfolioDashboard.tsx:560-572 | a request that stays live and gets no aligned answer, whatever else happens in between, is answered three times at most (the overview once), and the last of these answers shows the error |
| `RecordLoaders.RecordPane.RunEffect` | frontend/components/CanonicalInfrastructure.tsx:280-303 | the effect on a new selection or sequence: clear, show a cached record of that very sequence, or start a load |
| `RecordLoaders.RecordPane.TakeAnswer` | frontend/components/CanonicalInfrastructure.tsx:244-257 | one readback: dropped when stale, shown when aligned, otherwise asked again or given up |
| `RecordLoaders.RecordPane.Catch` | frontend/components/CanonicalInfrastructure.tsx:258-265 | a failure clears the pane and shows the error only while its load is the latest |
| `EntityOrder.ByRoleIsOrder` | frontend/components/CanonicalInfrastructure.tsx:55-61 | `compareEntities` is a total order in which entities tie only when they share an id; which order it is, says the next row |
| `EntityOrder.ByRoleOrders` | frontend/components/CanonicalInfrastructure.tsx:39-61 | it puts ENTRAL before MARSHAL, GENERAL, COMMANDER and SOLDIER, and equal roles by code, then by name, then by id |
| `EntityOrder.ByCodeIsOrder` | frontend/components/CanonicalGraphErrorBoundary.tsx:21-24 | so is the comparator of the textual hierarchy |
| `InfrastructureOrder.GroupByParent` | frontend/components/CanonicalInfrastructure.tsx:72-83 | every entity becomes a root or goes to the end of its parent's list |
| `InfrastructureOrder.HierarchyWalk.Visit` | frontend/components/CanonicalInfrastructure.tsx:87-98 | the recursive visit with its shared set and list is the specified walk, on any parent relation |
| `InfrastructureOrder.OrderCanonicalInfrastructureEntities` | frontend/components/CanonicalInfrastructure.tsx:68-103 | the imperative ordering returns the rows of the specified walk, whose order is `RowsInOrder` |
| `InfrastructureOrder.OrderingIsPermutation` | frontend/components/CanonicalInfrastructure.tsx:63-103 | for any parent relation, cycles and self-parents included, every entity gets exactly one row |
| `InfrastructureOrder.OrderingIsDepthFirst` | frontend/components/CanonicalInfrastructure.tsx:87-101 | a row at depth d + 1 follows its parent at depth d with only deeper rows in between |
| `InfrastructureOrder.DepthCountsAncestors` | frontend/components/CanonicalInfrastructure.tsx:97-100 | where the parent chain ends, depth is the number of present ancestors |
| `InfrastructureOrder.AncestorsAreDistinct` | frontend/components/CanonicalInfrastructure.tsx:75-83 | those ancestors are that many different entities |
| `InfrastructureOrder.TopLevelRows` | frontend/components/CanonicalInfrastructure.tsx:100-101 | a row at depth 0 has no present parent, or no chain of present parents leads from it to an entity without one |
| `InfrastructureOrder.RowsInOrder` | frontend/components/CanonicalInfrastructure.tsx:55-101 | roots come first, and roots, what is left over, and the children of one parent stand each by role from ENTRAL down, then by code, by name and by id |
| `InfrastructureOrder.OrderingForgetsInputOrder` | frontend/components/CanonicalInfrastructure.tsx:84-101 | permuting the input leaves the output unchanged |
| `InfrastructureFilter.IncludeAncestors` | frontend/components/CanonicalInfrastructure.tsx:200-210 | the loop terminates on cycles and computes the least set with the matches that is closed under parents |
| `InfrastructureFilter.SearchKeepsForest` | frontend/components/CanonicalInfrastructure.tsx:200-212 | whatever matches, the kept rows are again a depth-first forest |
| `InfrastructureFilter.GroupSiblings` | frontend/components/CanonicalInfrastructure.tsx:213-221 | the sibling groups are the kept rows by included parent, in row order |
| `InfrastructureFilter.PlaceRows` | frontend/components/CanonicalInfrastructure.tsx:222-233 | each row gets its number in its group, the size of the group and whether it is only context; `PlacedExactly` says what these are |
| `InfrastructureFilter.PlacedExactly` | frontend/components/CanonicalInfrastructure.tsx:213-233 | the number counts the siblings up to the row, the size all of them, siblings being the rows with the same included parent or with none, and context is exactly what the search did not match |
| `InfrastructureFilter.PositionsCountUp` | frontend/components/CanonicalInfrastructure.tsx:228-232 | in row order the positions of a group are 1 to its size |
| `InfrastructureFilter.KeyTarget` | frontend/components/CanonicalInfrastructure.tsx:377-405 | where each key moves the focus, both searches of ArrowLeft included |
| `InfrastructureFilter.ParentPrecedesRow` | frontend/components/CanonicalInfrastructure.tsx:395-401 | the nearest earlier shallower row is the parent row, and there is none exactly at depth 0 |
| `InfrastructureFilter.ArrowLeftSearchesAgree` | frontend/components/CanonicalInfrastructure.tsx:390-402 | the two searches of ArrowLeft find the same row at every depth above 0, and at depth 0 the second finds none |
| `InfrastructureFilter.ArrowLeftAfterSearch` | frontend/components/CanonicalInfrastructure.tsx:200-235 | on the rows that any search keeps, both searches of ArrowLeft find the parent row at every depth above 0, and at depth 0 the second finds none |
| `InfrastructureFilter.ArrowRightGoesToNextRow` | frontend/components/CanonicalInfrastructure.tsx:387-389 | ArrowRight to a row below the top level moves to the very next row |
| `InfrastructureFilter.ArrowLeftUndoesArrowRight` | frontend/components/CanonicalInfrastructure.tsx:387-394 | (remark) ArrowLeft returns from where ArrowRight went, cycles included |
| `VirtualWindow.WindowCoversView` | frontend/components/CanonicalInfrastructure.tsx:305-307 | every row of which any part is in view is rendered |
| `VirtualWindow.WindowIsExactly` | frontend/components/CanonicalInfrastructure.tsx:305-307 | the rendered rows are exactly those of which a part lies within 8 rows of the view |
| `VirtualWindow.ScrollsIntoView` | frontend/components/CanonicalInfrastructure.tsx:351-366 | a row is fully in view after scrolling to it exactly when the viewport can hold it, and scrolling happens exactly when it was not in view before |
| `VirtualWindow.ScrollsLeast` | frontend/components/CanonicalInfrastructure.tsx:351-366 | (remark) no offset that shows the whole row is nearer to the one before |
| `VirtualWindow.EndOfList` | frontend/components/CanonicalInfrastructure.tsx:330-333 | (remark) at the greatest offset the last row ends where the view ends |
| `VirtualWindow.FocusedRowIsRendered` | frontend/components/CanonicalInfrastructure.tsx:343-375 | the row that the focus moves to is rendered afterwards, for any viewport height, at an offset within the list |
| `TextualHierarchy.Renderer.RenderEach` | frontend/components/CanonicalGraphErrorBoundary.tsx:37-68 | the recursive `branch` with its shared set is the specified recursion with both guards |
| `TextualHierarchy.Render` | frontend/components/CanonicalGraphErrorBoundary.tsx:14-100 | the component renders the specified items in document order |
| `TextualHierarchy.AncestorGuardIsRedundant` | frontend/components/CanonicalGraphErrorBoundary.tsx:43-47 | ancestors are always rendered already, so with or without the ancestor guard the rendering is the same |
| `TextualHierarchy.RendersEveryEntityOnce` | frontend/components/CanonicalGraphErrorBoundary.tsx:96-100 | for any parent relation every entity is rendered exactly once, the same entities that the Infrastructure tree shows |
| `TextualHierarchy.LevelIsDepthPlusOne` | frontend/components/CanonicalGraphErrorBoundary.tsx:37-63 | where the parent chain ends, the level is the Infrastructure depth plus one, unless an entity hangs from the empty id, which the contract rules out |
| `TextualHierarchy.ItemsInOrder` | frontend/components/CanonicalGraphErrorBoundary.tsx:20-36 | roots come first and stand by code and id, so do the children of one parent, and what is left over stands in the order of the input |
| `TextualHierarchy.ForgetsOrderExactly` | frontend/components/CanonicalGraphErrorBoundary.tsx:96-100 | the rendering is the same for every permutation of the input exactly when at most one entity has a parent chain that never arrives at a root |
| `TextualHierarchy.RootlessRenderingFollowsInput` | frontend/components/CanonicalGraphErrorBoundary.tsx:96 | without any root the rendering starts with whichever entity comes first |
| `TextualHierarchy.TwoCycleDependsOnInputOrder` | frontend/components/CanonicalGraphErrorBoundary.tsx:96-100 | two entities that are each other's parent render differently when the input is permuted |
| `GraphSettings.GraphSettingsControls.Change` | frontend/components/CanonicalGraphWorkspace.tsx:1010-1022 | a valid edit is shown, counted and makes the settings dirty; an invalid one changes nothing |
| `GraphSettings.GraphSettingsControls.FireTimer` | frontend/components/CanonicalGraphWorkspace.tsx:1290-1296 | the timer sends the request it was armed with, once |
| `GraphSettings.GraphSettingsControls.OnSaved` | frontend/components/CanonicalGraphWorkspace.tsx:1296-1302 | a save reply always brings the new version but replaces the settings only for the newest revision |
| `GraphSettings.GraphSettingsControls.OnReset` | frontend/components/CanonicalGraphWorkspace.tsx:1419-1428 | a reset reply ends the edit, advances the revision and shows the reply |
| `GraphSettings.GraphSettingsControls.CopyPreferences` | frontend/components/CanonicalGraphWorkspace.tsx:1220-1232 | the preferences effect replaces the settings exactly while no edit is pending |
| `GraphSettings.GraphSettingsControls.ResetWithoutPersistence` | frontend/components/CanonicalGraphWorkspace.tsx:1399-1404 | a local reset, followed by the preferences effect exactly when the dirty flag falls; `LocalResetShows` says what it resets |
| `GraphSettings.DirtyShowsNewestEdit` | frontend/components/CanonicalGraphWorkspace.tsx:1289-1319 | whatever replies arrive, in whatever order: while dirty, the shown settings are the newest edit |
| `GraphSettings.DirtyEndsWithEchoOrReset` | frontend/components/CanonicalGraphWorkspace.tsx:1298-1302 | dirty ends only by the service's echo of the newest edit or by an accepted reset, and the reply is then shown |
| `GraphSettings.GrowsExactly` | backend/src/services/graphPreferences.ts:452-720 | (remark) an accepted change moves the version forward exactly when it is a save, or a partial reset that was sent at a version above 0 |
| `GraphSettings.AtMostOneUndelivered` | frontend/components/CanonicalGraphWorkspace.tsx:1293-1296 | on runs whose accepted changes move the version and in which no other session deletes the row, at most one accepted save or reset is ever undelivered |
| `GraphSettings.SecondFollowsExactly` | frontend/components/CanonicalGraphWorkspace.tsx:1289-1319 | while one accepted change is undelivered, some continuation without other sessions accepts a second one exactly when the client, or a request it has out, has the stored version |
| `GraphSettings.SecondAfterAcceptanceExactly` | backend/src/services/graphPreferences.ts:452-720 | after an accepted change this is the case exactly when the change was a reset of everything or a reset sent at version 0, and the client knows version 0 or has another undecided request that was sent at version 0 |
| `GraphSettings.SecondAfterForeignResetExactly` | backend/src/services/graphPreferences.ts:655-672 | after a full reset by another session it is the case exactly when the client knows version 0 or has such a request |
| `GraphSettings.CleanAndQuietIsStored` | frontend/components/CanonicalGraphWorkspace.tsx:1220-1232 | without other sessions, once everything accepted is delivered, a clean screen shows exactly what is stored |
| `GraphSettings.TimerSavesEdit` | frontend/components/CanonicalGraphWorkspace.tsx:1292-1302 | (remark) an undisturbed timer really stores the edit, and the screen keeps showing it |
| `GraphSettings.LocalResetSurvives` | frontend/components/CanonicalGraphWorkspace.tsx:1399-1404 | (remark) a local reset shows its result exactly when nothing was dirty or dropping all edits gives the same settings |
| `GraphSettings.LocalResetShows` | packages/contracts/src/graph.ts:412-460 | for every scope which sections a local reset of clean settings puts back to the defaults and which stay; after a reset of one view exactly the pins of the other renderer are kept, in order |
| `GraphSettings.AcceptedResetStores` | backend/src/services/graphPreferences.ts:600-672 | the same of what is stored after an accepted reset, at the next version, or at version 0 when everything or nothing was stored |
| `GraphSettings.ResetIsStoredAndShown` | frontend/components/CanonicalGraphWorkspace.tsx:1413-1428 | a reset with the current version, decided and delivered without interference, is stored and on screen |
| `GraphSettings.DirtyIsSentOrArmed` | frontend/components/CanonicalGraphWorkspace.tsx:1288-1315 | over any run, as long as an edit is dirty, its save was sent, or the timer is armed to send exactly what is on screen with the version known now |
| `GraphSettings.LocalResetOf2DLoses3DEdit` | packages/contracts/src/graph.ts:412-460 | (remark) a reset of the 2D view alone then loses a 3D edit |
| `GraphSettings.LateSaveUndoesReset` | backend/src/services/graphPreferences.ts:452-720 | a run from the start in which a save sent before a full reset is accepted after it, with two accepted changes undelivered and the deleted settings stored again |
| `SecurityMutations.OnlyFirstAnswersShow` | frontend/components/AccountSecurityControls.tsx:209-243 | (remark) the receipt checks accept a replayed receipt and show nothing from it; material is shown from a first answer only |
| `SecurityMutations.AcceptedExactly` | frontend/components/AccountSecurityControls.tsx:209-248 | which answers are accepted, by transition, replay and completeness of the one-time material, and that what is shown is the factor, the secret and all recovery codes of the answer, each in its place |
| `SecurityMutations.MutationKeys.MutationHeaders` | frontend/components/AccountSecurityControls.tsx:285-292 | the key of the intent, minted if and only if there is none |
| `SecurityMutations.MutationKeys.ReconcileMutationFailure` | frontend/components/AccountSecurityControls.tsx:298-302 | the key is dropped exactly for statuses from 400 to 499 other than 408 |
| `SecurityMutations.ReconcileExactly` | frontend/components/AccountSecurityControls.tsx:298-302 | (remark) the same of the specification, with every other key as it was |
| `SecurityMutations.MutationKeys.BeginAction` | frontend/components/AccountSecurityControls.tsx:353-360 | an action starts only when none is in flight |
| `SecurityMutations.MutationKeys.FinishAction` | frontend/components/AccountSecurityControls.tsx:362-365 | the next action may start, and the keys stay |
| `SecurityMutations.MutationKeys.CompleteMutation` | frontend/components/AccountSecurityControls.tsx:294-296 | a completed mutation drops the key of its intent and of no other |
| `SecurityMutations.StepKeepsInv` | frontend/components/AccountSecurityControls.tsx:387-576 | every click, answer, refusal, loss, repetition and retry keeps the invariant on keys, wire and ledger |
| `SecurityMutations.KeysActOnce` | frontend/components/AccountSecurityControls.tsx:387-576 | over any run each key has at most one effect, shows its material at most once, and a reported success means exactly one effect |
| `SecurityMutations.NewKeyOnlyAfterSettlement` | frontend/components/AccountSecurityControls.tsx:285-302 | a second key for an intent exists only after the first was settled by a checked receipt or a definite error |
| `SecurityMutations.SettlementHasCause` | frontend/components/AccountSecurityControls.tsx:294-302 | in one step a key is settled exactly by an acceptable receipt for it, or by a refusal with 400 to 499 other than 408 of a call that carried it |
| `SecurityMutations.EffectsAreAccountedFor` | frontend/components/AccountSecurityControls.tsx:387-576 | the effects of an intent are its reported successes, plus effects of dropped keys, plus at most the key in use |
| `SecurityMutations.WithoutRefusalsSuccessesCountEffects` | frontend/components/AccountSecurityControls.tsx:298-302 | without definite errors the number of effects is the number of reported successes, or one more |
| `SecurityMutations.SignedOutIsFinal` | frontend/components/AccountSecurityControls.tsx:387-440 | once signing out everywhere was accepted, the page sends nothing more |
| `SecurityMutations.LoseFirstAnswer` | frontend/components/AccountSecurityControls.tsx:298-302 | a run from the start in which the first attempt takes effect, its answer is lost and the key is kept |
| `SecurityMutations.RefuseRetry` | frontend/components/AccountSecurityControls.tsx:298-302 | continuing it, a rate-limited retry drops the key |
| `SecurityMutations.ThirdClickActsAgain` | frontend/components/AccountSecurityControls.tsx:285-302 | a run from the start in which the answer to the first attempt is lost, the retry is refused for its rate, and the third click has a new key and a second effect |
| `LinePatterns.FindItemIsItsPattern` | frontend/components/MarkdownMessage.tsx:153 | the list reader returns exactly the item of the pattern's greedy match, and fails exactly when the pattern does not match |
| `LinePatterns.FenceTagIsItsPattern` | frontend/components/MarkdownMessage.tsx:134 | the fence reader matches exactly the trimmed lines of the fence pattern and returns its tag |
| `LinePatterns.ItemsAreTheReadable` | frontend/components/MarkdownMessage.tsx:153-158 | an item can come out of the list reader exactly when it has no line break and starts with no space, or is one space |
| `MarkdownText.SplitsAtBreak` | frontend/components/MarkdownMessage.tsx:95 | a carriage return with a line feed ends a line, and only what precedes it is the line |
| `MarkdownText.SplitsAtLineFeed` | frontend/components/MarkdownMessage.tsx:95 | a line feed alone ends a line too |
| `MarkdownText.SplitUndoesJoin` | frontend/components/MarkdownMessage.tsx:95 | splitting recovers any lines that were joined with line breaks |
| `MarkdownText.TagIsLanguage` | frontend/components/MarkdownMessage.tsx:134-142 | (remark) a fence has the language of its tag in lower case, and a bare fence is plain text |
| `MarkdownMessage.BlockReader.ReadLine` | frontend/components/MarkdownMessage.tsx:133-165 | one line changes the reader's state as specified: fence, code, item, blank or paragraph |
| `MarkdownMessage.BlockReader.FlushCode` | frontend/components/MarkdownMessage.tsx:116-131 | an open code block is closed, even an empty one, and the language falls back to plain text |
| `MarkdownMessage.Display` | frontend/components/MarkdownMessage.tsx:94-171 | the component's loop computes the specified blocks of the message |
| `MarkdownMessage.ReadableItems` | frontend/components/MarkdownMessage.tsx:153-158 | which list items survive printing and reading, exactly |
| `MarkdownMessage.ReadableLanguages` | frontend/components/MarkdownMessage.tsx:134-145 | which language tags survive printing and reading, exactly |
| `MarkdownMessage.RoundTrip` | frontend/components/MarkdownMessage.tsx:94-170 | printing any well-formed blocks, a blank line between adjacent lists, and reading the text gives the blocks back |
| `MarkdownMessage.DisplayableIsDisplayed` | frontend/components/MarkdownMessage.tsx:94-170 | the well-formed block sequences are exactly those that some message displays |
| `MarkdownMessage.PrintingIsNormalForm` | frontend/components/MarkdownMessage.tsx:94-170 | printing what any message displays gives a message that displays the same |
| `MarkdownMessage.EveryLineIsShown` | frontend/components/MarkdownMessage.tsx:133-168 | on arbitrary lines, a line that is no fence is shown verbatim as code exactly when an odd number of fences precede it, and every other non-blank line once, in order |
| `Tokenising.Scan` | frontend/components/MarkdownMessage.tsx:9-38 | the `exec` loop, with `lastIndex` and the pieces between matches, shows the specified segments |
| `Tokenising.SegmentsAreUnique` | frontend/components/MarkdownMessage.tsx:9-38 | the segments are the one way to cut a text at its leftmost matches |
| `MarkedText.ReadingIsBijection` | frontend/components/MarkdownMessage.tsx:3-40 | for any pattern that matches exactly the wrapped marks, reading and wrapping are inverse bijections |
| `InlineMarkdown.GoodIsToken` | frontend/components/MarkdownMessage.tsx:5 | bold, code or a link in its delimiters is matched whole, whatever follows it |
| `InlineMarkdown.TokenIsGood` | frontend/components/MarkdownMessage.tsx:5 | and nothing else is matched |
| `InlinePattern.AfterTokenIsItsPattern` | frontend/components/MarkdownMessage.tsx:5 | at every position the reader leaves behind what follows the match that a backtracking matcher of the pattern settles on, and fails exactly when nothing matches |
| `InlineMarkdown.ReadTokenRecovers` | frontend/components/MarkdownMessage.tsx:16-31 | the slices and the anchored link pattern recover what the delimiters enclose; the link pattern never fails on a token |
| `InlineMarkdown.InlineMarkdown` | frontend/components/MarkdownMessage.tsx:3-40 | the function returns the specified nodes |
| `InlineMarkdown.InlineIsBijection` | frontend/components/MarkdownMessage.tsx:3-40 | a node sequence is what a text is read as exactly when it is clean and wraps to that text |
| `InlineMarkdown.NothingIsLost` | frontend/components/MarkdownMessage.tsx:3-40 | for every text, re-wrapping its nodes gives the text |
| `CodeHighlight.CodeTokenIsItsPattern` | frontend/components/MarkdownMessage.tsx:60 | the token at every position has the length of the match that a backtracking matcher of the pattern settles on, alternatives in order, escapes and word boundaries included, and there is none exactly when nothing matches |
| `CodeHighlight.HighlightCode` | frontend/components/MarkdownMessage.tsx:42-92 | the highlighter returns the specified nodes |
| `CodeHighlight.HighlightingKeepsCode` | frontend/components/MarkdownMessage.tsx:42-92 | for every code and language the displayed nodes concatenate to the code |
| `CodeHighlight.KeywordsAreColoured` | frontend/components/MarkdownMessage.tsx:43-84 | a match is coloured as a keyword exactly when it is one of the keywords and the language is not plain text |
| `CodeHighlight.ClassesFollowStarts` | frontend/components/MarkdownMessage.tsx:70-81 | (remark) every match gets the class of its kind: comment, string, number, keyword, or none of these in plain text |
| `Csv.RoundTrip` | frontend/components/DataPortability.tsx:25-40 | a reader after section 2 of RFC 4180, rules 5 to 7, recovers every table without empty rows from its quoted form, for any cell contents and either line break |
| `Csv.RoundTripExactly` | frontend/components/DataPortability.tsx:30-40 | a table is recovered exactly when none of its rows is empty |
| `Csv.ReadsUnquoted` | frontend/components/DataPortability.tsx:36-39 | the reader is one of comma-separated values: unquoted fields are parted by commas and records by line breaks |
| `DataPortability.DownloadIsRead` | frontend/components/DataPortability.tsx:30-40 | the download reads back as its table exactly when there are no rows or the first row has a key |
| `DataPortability.DownloadedCells` | frontend/components/DataPortability.tsx:25-40 | a reader of the download finds the keys of the first row, and under each of them what every row holds there, or nothing |
| `GraphExport.LeadsToOperatorIsItsPattern` | frontend/components/CanonicalGraphWorkspace.tsx:212 | the formula test is its pattern: an operator behind nothing but blanks |
| `GraphExport.GuardingIsFinal` | frontend/components/CanonicalGraphWorkspace.tsx:208-214 | (remark) a guarded cell never looks like a formula, and guarding is idempotent |
| `GraphExport.GuardingConfuses` | frontend/components/CanonicalGraphWorkspace.tsx:210-212 | exactly which two cells the guard makes equal |
| `GraphExport.ExportIsRead` | frontend/components/CanonicalGraphWorkspace.tsx:1550-1568 | the export reads back as the guarded table, for all cell contents |
| `GraphExport.ExportedCells` | frontend/components/CanonicalGraphWorkspace.tsx:1550-1568 | one line of ten cells per node, each the guarded text of its column, none like a formula |
| `GraphExport.ExportedColumns` | frontend/components/CanonicalGraphWorkspace.tsx:1550-1568 | under each of the ten column names stands the field of the node that it names, behind an apostrophe exactly when it starts with a tab, a line break, or an operator behind blanks |
| `GraphExport.ExportedHeader` | frontend/components/CanonicalGraphWorkspace.tsx:1551 | the column names come through the guard unchanged |
| `Latest.LastIsAmong` | frontend/components/CanonicalEntralAssistant.tsx:99-101 | when ties have n elements behind them, the last n of a sorted list are those that fewer than n others come after |
| `Latest.LastCovers` | frontend/components/CanonicalEntralAssistant.tsx:99-101 | whatever the ties, each dropped element of a sorted list has n kept ones that are no earlier |
| `Latest.CoveringComposes` | frontend/components/CanonicalEntralAssistant.tsx:92-102 | keeping in two steps covers as keeping in one |
| `Latest.CoveringIsDetermined` | frontend/components/CanonicalEntralAssistant.tsx:92-102 | when ties are buried there is only one sorted log of at most n elements that covers a set |
| `Latest.KeepingIsHarmless` | frontend/components/CanonicalEntralAssistant.tsx:92-102 | dropping what is covered by n kept elements before a union does not change the n latest of the union |
| `MessageLog.PutAllIsLastWrites` | frontend/components/CanonicalEntralAssistant.tsx:95-98 | the map filled by the loops has each id once and holds exactly the last message written under each id |
| `MessageLog.LogFollowsFirstWrites` | frontend/components/CanonicalEntralAssistant.tsx:95-98 | the map stands in the order in which the ids were first written, whatever was written under them later |
| `AssistantMessages.MergeAssistantMessages` | frontend/components/CanonicalEntralAssistant.tsx:92-102 | the nested loops over the map compute the specified merge |
| `AssistantMessages.MergeShowsLastWrites` | frontend/components/CanonicalEntralAssistant.tsx:92-102 | on any messages: at most 40, in time order, each id once, under each id the last message written |
| `AssistantMessages.MergeDropsTheEarliest` | frontend/components/CanonicalEntralAssistant.tsx:99-101 | a message is missing only from a full log, and is then no later than any that is kept |
| `AssistantMessages.MergeCovers` | frontend/components/CanonicalEntralAssistant.tsx:92-102 | with equal ids carrying equal messages, whatever the times: each dropped message has a full log of no earlier ones |
| `AssistantMessages.MergeIsLatest` | frontend/components/CanonicalEntralAssistant.tsx:92-102 | with equal ids carrying equal messages and equal times buried, the merge is the 40 latest of the union |
| `AssistantMessages.MergeForgetsGroups` | frontend/components/CanonicalEntralAssistant.tsx:92-102 | with equal times buried the order, grouping and repetition of the input do not matter |
| `AssistantMessages.MergesEquallyExactly` | frontend/components/CanonicalEntralAssistant.tsx:92-102 | a set of messages merges equally in all orders and groupings exactly when any two with equal times have at least 40 strictly later ones behind them |
| `AssistantMessages.PlansAgree` | frontend/components/CanonicalEntralAssistant.tsx:161-184 | with equal times buried, any two ways of merging the same messages, ordered, repeated and nested at will and cut at every step, agree |
| `AssistantMessages.PlansMergeEquallyExactly` | frontend/components/CanonicalEntralAssistant.tsx:161-184 | the same condition is exact for merging in any number of steps |
| `AssistantMessages.MergeIsAssociative` | frontend/components/CanonicalEntralAssistant.tsx:92-102 | merging is associative despite the truncation at each stage |
| `AssistantMessages.MergeIsCommutative` | frontend/components/CanonicalEntralAssistant.tsx:92-102 | merging is commutative |
| `AssistantMessages.MergeIsIdempotent` | frontend/components/CanonicalEntralAssistant.tsx:180-185 | merging the same messages once more changes nothing |
| `AssistantMessages.EqualTimesKeepTheirOrder` | frontend/components/CanonicalEntralAssistant.tsx:99-101 | two messages with equal times stay in the order they came in |
| `AssistantMessages.TiesStandAsFirstWritten` | frontend/components/CanonicalEntralAssistant.tsx:92-102 | shown messages with equal times stand in the order in which their ids were first written |
| `Sorting.SortIsStable` | frontend/components/CanonicalEntralAssistant.tsx:99-100 | elements that tie stand in the sorted list as they stand in the input |
| `AssistantMessages.CanonicalAreTheSixLatest` | frontend/components/CanonicalEntralAssistant.tsx:62-74 | the panel starts with conversation messages that fewer than six others come after, whatever times coincide, and with all of these exactly when they are six at most |
| `AssistantMessages.StartingMessages` | frontend/components/CanonicalEntralAssistant.tsx:62-74 | they are six or all there are, in the order of their times and where these coincide of the conversation, each with the content, the time and the speaker of its own |
| `Latest.NewestAreKeptExactly` | frontend/components/CanonicalEntralAssistant.tsx:62-74 | the last n of a sorted list are elements that fewer than n others come after, and all of these exactly when they are n at most |
| `LabelLayout.CollisionIsSymmetric` | frontend/components/CanonicalUniverseGraph.tsx:272-289 | (remark) two labels do not collide exactly when they are 6 apart sideways or 3 apart vertically |
| `LabelLayout.SideEdges` | frontend/components/CanonicalUniverseGraph.tsx:228-262 | (remark) a label keeps 8 from both side edges exactly when its anchor is at most the radius less 3 outside of the area |
| `LabelLayout.OnCanvas` | frontend/components/CanonicalUniverseGraph.tsx:228-262 | (remark) for anchors in an area at least 16 wide and radius at least 3 it always does |
| `LabelLayout.TopAndBottomEdges` | frontend/components/CanonicalUniverseGraph.tsx:253-261 | (remark) labels keep 4 from the top and bottom edges of a canvas at least 22 high |
| `LabelLayout.PlacedBeside` | frontend/components/CanonicalUniverseGraph.tsx:228-262 | (remark) a label stands to the right of its node where it fits, else to the left where it fits there, else against the right edge, and at the height of the node as far as the edges let it |
| `LabelLayout.MinimapInCorner` | frontend/components/CanonicalUniverseGraph.tsx:994-1002 | (remark) where the minimap is and when there is one |
| `LabelLayout.FreeCanvas` | frontend/components/CanonicalUniverseGraph.tsx:987-993 | (remark) without an inspector over the canvas the whole width is the label area |
| `LabelLayout.LabelsClearOfInspector` | frontend/components/CanonicalUniverseGraph.tsx:987-1040 | where the inspector covers a part of the canvas, drawn labels of anchors in the label area end 20 in front of it |
| `LabelLayout.AnchorUnderInspector` | frontend/components/CanonicalUniverseGraph.tsx:987-993 | (remark) an anchor under the open inspector gets a label that crosses the right edge of the label area |
| `LabelLayout.DrawnAreSeparated` | frontend/components/CanonicalUniverseGraph.tsx:1003-1049 | drawn labels are pairwise separated and clear of the minimap |
| `LabelLayout.RejectedExactly` | frontend/components/CanonicalUniverseGraph.tsx:1048-1050 | a candidate is rejected exactly when it collides with the minimap or with a drawn one of higher priority |
| `LabelLayout.LabelsNeverCollide` | frontend/components/CanonicalUniverseGraph.tsx:1024-1069 | whatever the candidates, the published number of minimap collisions is 0 |
| `LabelLayout.LabelsStayInside` | frontend/components/CanonicalUniverseGraph.tsx:1024-1062 | all drawn labels of anchors in the label area keep 8 from both side edges |
| `LabelLayout.SelectedIsLabelled` | frontend/components/CanonicalUniverseGraph.tsx:1024-1049 | the selected node is labelled exactly when its own place is clear of the minimap, whatever else competes |
| `LabelLayout.BudgetIsBest` | frontend/components/CanonicalUniverseGraph.tsx:1024-1035 | the candidates that get a chance stand selected first, then ENTRAL, MARSHAL and the rest, equals by code, and no other candidate outranks one of them |
| `LabelLayout.CollisionsAreCounted` | frontend/components/CanonicalUniverseGraph.tsx:1064-1069 | the published number counts the labels of which a part lies under the minimap |
| `LabelLayout.RenderLabels` | frontend/components/CanonicalUniverseGraph.tsx:987-1069 | the greedy loop over the sorted candidates draws the specified labels, with the label area and the minimap of the frame, and publishes 0 collisions |
| `CameraZoom.ZoomIsTheOnlyOne` | frontend/components/CanonicalUniverseGraph.tsx:155-177 | (remark) zooming gives the one camera of the clamped zoom that shows the same point under the anchor |
| `CameraZoom.OnlyTheLastZoomCounts` | frontend/components/CanonicalUniverseGraph.tsx:155-177 | (remark) any zooms at one anchor amount to the last of them, clamping and the no-change case included |
| `CameraZoom.ZoomingBack` | frontend/components/CanonicalUniverseGraph.tsx:155-177 | (remark) zooming back restores the camera exactly when its zoom was within the limits |
| `CameraZoom.PinchCarries` | frontend/components/CanonicalUniverseGraph.tsx:1196-1212 | (remark) a pinch carries the point under the starting midpoint to the current midpoint |
| `CameraZoom.PinchZooms` | frontend/components/CanonicalUniverseGraph.tsx:1200-1207 | the zoom of a pinch is in proportion to the distances where these are at least 10 and the result is within the limits, spreading never zooms out and closing never zooms in |
| `CameraZoom.ShownIsDrawn` | frontend/components/CanonicalUniverseGraph.tsx:139-149 | (remark) a camera shows a point at a place exactly when it draws it there |
| `CameraZoom.DragCarries` | frontend/components/CanonicalUniverseGraph.tsx:1189-1195 | a whole drag carries the point under the finger along |
| `CameraZoom.Canvas.PointerDown` | frontend/components/CanonicalUniverseGraph.tsx:1158-1171 | the second finger starts a gesture with the camera, spread and midpoint of that moment |
| `CameraZoom.Canvas.PointerMove` | frontend/components/CanonicalUniverseGraph.tsx:1173-1213 | one finger drags the point under it; two carry the point that was between them when the pinch began, with the zoom that their distances ask for |
| `CameraZoom.Canvas.PointerUp` | frontend/components/CanonicalUniverseGraph.tsx:1215-1220 | a lifted finger is forgotten and ends the gesture |
| `CameraZoom.PutFinds` | frontend/components/CanonicalUniverseGraph.tsx:1161 | a pointer that is set is found at its place and the others where they were |
| `CameraZoom.RemoveFinds` | frontend/components/CanonicalUniverseGraph.tsx:1219 | a pointer that is deleted is not found any more and the others are |
| `FuzzyScore.ScoreLoop` | frontend/components/CommandPalette.tsx:33-47 | the scoring loop computes the specified score |
| `FuzzyScore.ScoresExactly` | frontend/components/CommandPalette.tsx:25-48 | a candidate scores exactly when the query is a subsequence of it: greedy matching is complete |
| `FuzzyScore.ScoreBounds` | frontend/components/CommandPalette.tsx:33-47 | a match of n characters scores between 3n and 2n + n(n+1)/2 |
| `FuzzyScore.BestScoreExactly` | frontend/components/CommandPalette.tsx:33-47 | the best score goes exactly to candidates with the query in one piece from the first occurrence of its first character on |
| `FuzzyScore.ScoreCountsRuns` | frontend/components/CommandPalette.tsx:33-47 | the score of every match: two for each character and the lengths of the runs that end at the earliest places of the characters |
| `FuzzyScore.EmptyQueryScores` | frontend/components/CommandPalette.tsx:29-31 | (remark) every candidate scores 1 for an empty query |
| `FuzzyScore.AppendingKeepsScore` | frontend/components/CommandPalette.tsx:37 | text appended to a matching candidate does not change its score |
| `FuzzyScore.PaletteListsMatches` | frontend/components/CommandPalette.tsx:73-80 | the palette lists exactly the commands that match, higher scores first |
| `FuzzyScore.EqualScoresKeepOrder` | frontend/components/CommandPalette.tsx:73-80 | commands with equal scores stay in the order of the palette |
| `FuzzyScore.FilteredCommands` | frontend/components/CommandPalette.tsx:73-80 | the palette computes that list |
| `IntegrationBinding.ValidatePublishedIntegrationTools` | frontend/components/ConnectionCenter.tsx:43-79 | the loop accepts exactly the synchronised lists and returns them unchanged; otherwise it fails with the error of that case |
| `IntegrationBinding.AcceptedExactly` | frontend/components/ConnectionCenter.tsx:43-79 | accepted if and only if claim ids are unique and tools and claims pair off one to one with matching fields |
| `IntegrationBinding.PairingIsUnique` | frontend/components/ConnectionCenter.tsx:58-76 | (remark) that pairing is the only one |
| `IntegrationBinding.MatchIsDetermined` | frontend/components/ConnectionCenter.tsx:62-74 | (remark) every field of a claim is vouched for: two claims with one id that match a tool are the same |
| `IntegrationBinding.MatchDeterminesTool` | frontend/components/ConnectionCenter.tsx:62-74 | and a claim determines its tool in every field |

## Left out

- Markup, styling, canvas drawing, focus calls, fullscreen, wall-clock time (timers are steps that may happen), fetch and cookie plumbing.
- The shell restoring an organisation from browser storage (frontend/components/CanonicalMemberShell.tsx:233-268), which changes the organisation from outside the protocol.
- The shell reloading graph preferences while a save is undelivered; the autosave model lets other sessions write, but the preferences reach the client through its own replies only.
- The business scope filter of the shell and the choice of the conversation's business.
- `parentName` of an Infrastructure row, and the text, role, status and health tests of the search, which enter as the set of matching ids.
- TextualHierarchy.LevelIsDepthPlusOne: assumes that no entity hangs from an entity whose id is empty, because the two components treat an empty parent id differently; packages/contracts/src/portfolio.ts:251 and :263 admit UUIDs only.
- InfrastructureFilter.PlacedExactly: assumes that no entity has the id `__root__`, the key of the root group; packages/contracts/src/portfolio.ts:251 admits UUIDs only.
- `aria-expanded` of the textual hierarchy, and its keyboard handler, which reads the document.
- GraphSettings.AtMostOneUndelivered: stated for runs whose accepted changes move the version forward and in which no other session deletes the row; GraphSettings.SecondAfterAcceptanceExactly and SecondAfterForeignResetExactly say exactly when a step outside of these runs breaks it.
- The priority order of the portfolio dashboard and its self-loaded portfolio; layouts, projections, view state and hashing of the graph.
- The contents of the settings sections and `assertGraphPreferenceSettings`, which enter as tokens and as a yes or no answer.
- The fields that `assertSessionTransitionReceipt` checks beyond the transition, and the readbacks of the security page.
- SecurityMutations.KeysActOnce: says nothing about user intentions; a dropped key after an ambiguous attempt allows a second effect, as shown.
- RecordLoaders.LoadingIsAccurate: begins before the first effect; a component mounted with a business or organisation shows loading from its first render on, when nothing is out yet and nothing can be on screen.
- A business selected before the portfolio is there has no sequence to ask for, and its effect waits; the model begins once there is one.
- Whether the shared portfolio cache and the database return the record that was asked for; assumed by the loaders.
- The 401 redirect of the member overview; error texts and status lines, about which nothing is claimed.
- Characters are Unicode scalar values rather than UTF-16 code units; `toLowerCase` is a parameter where it matters and ASCII lower-casing for language tags.
- Conversion of cell values to strings, and inherited object properties as cell values.
- Labels with anchors outside the label area: separation is proved for them, the edge distances are not claimed.
- LabelLayout.LabelsStayInside: needs a label area at least 16 wide, a radius of at least 3 and anchors inside the area, because the bound is false outside of these.
- Rounding of floating-point numbers in the geometry; text widths, canvas sizes and `Math.hypot` are parameters.
- `validateFreshProductTruthProjection`: the freshness and shape of the claim projection are checked before the list and not modelled.
- backend/src/db.ts, backend/src/phase202RequestDatabaseContext.ts, backend/src/auth.ts, backend/src/schemas.ts, backend/src/env.ts, backend/src/server.ts, backend/src/worker.ts and backend/src/processRole.ts: SQL that is not part of this model, declarative checks or wiring with easy claims only.

# A verified model of the wallet core

This project models four connected parts of the repository in Dafny and proves what they promise.

**Checkpoint lists and chain merging** (`SkipPointers`, `CheckPoints`, `CheckPointUpdates`, `CheckPointEntries`, `ChangeSets`, `ChainMerge`, `MergeMeaning`, `BlockTree`, `LocalChain`). A chain is an immutable linked list of blocks with skip pointers. The skip pointers refine the plain walk and bound its length; insertion is specified block by block; the backwards tandem merge of two chains is specified without following its loop, given an exact meaning for bare block hashes, and shown never to mix two branches of a block tree. Over any run of the mutating methods the returned change sets rebuild the chain.

**An Esplora sync** (`EsploraSync`). The server is a function from heights to hashes. The update built from it holds exactly the server's blocks at the right heights, and connects exactly if no local block above the remote tip is left in doubt.

**The transaction graph and canonicalization** (`TxGraph`, `TxKnowledge`, `TxGraphUpdates`, `Ancestry`, `CanonicalMarking`, `CanonicalOffers`, `CanonicalTask`, `CanonicalViewTask`, `CanonicalRuns`). A graph is described by the facts it knows; every mutator adds exactly the facts it is given, so replay, repetition, reordering and merging of change sets are statements about unions of facts. On an exact graph, canonicalization picks a conflict-free set that is closed under ancestors, undoes its work exactly when a transaction's ancestry spends an output twice, and leaves no offered transaction undecided. Which of conflicting transactions wins is stated without the queues: by the order of assumptions, confirmed anchors, sightings and old anchors, which determines the outcome.

**The MWEB download** (`Leafset`, `MwebCoins`, `MwebDownload`, `MwebSync`, `MwebLogs`, `MwebRuns`, `MwebWallet`, `MwebLosses`, `MwebUtxoSync`, `ServeRounds`). The peer is an arbitrary environment that may refuse, misreport, repeat or drop. Leafset differences are exact and downloads are bounded in requests. A leaf is *passed* when an accepted reply lies around it and *received* when one carries it; over runs of passes, each with its own tip and peer, it is shown exactly when every added leaf is passed and when it is received, what the wallet then holds, and which coins agree with the saved leafset. The re-issue loop conserves its requests.

Fixed-width integers of the program are modelled where they matter (`U32` heights and indices, with the wrap at zero of `invert_lowest_one` and the saturating sums of the skip rule); hashes, txids, timestamps, leaf indices and output ids are unbounded naturals.

Where the code does not do what its documentation says, the model follows the code:

- `merge_chains` returns the update itself exactly if the lists share a checkpoint at an agreed height and the update has every original height from there on (`MergeChains`, `MergedTip`), although the returned change set describes the changed original. With headers that name their predecessor the two differ exactly if the update is returned and only implies a block that the original stores (`MergedTipIsChangedOriginal`); `FastReturnDropsHeader` runs the merge on two such lists, which loses a stored header without saying so in the change set.
- `CheckPoint::insert` removes every block at or above the height on a conflict, as documented, and also the conflicting block directly below it.
- `TxGraph::apply_changeset` never applies `first_seen`; replaying a log from scratch sets every first-seen time to the last-seen one (`ReplayFromEmpty`), so a transaction seen twice loses the earlier time (`ReplayLosesFirstSeen`).
- A canonical view lists confirmed transactions before unconfirmed ones, as documented (`ConfirmedFirst` in `ResolveView`), but not by block height: the transactions that won on an anchor of their own come by descending height of their top anchor, each followed by the ancestors that it brought in (`Arranged` in `Canonicalize`).
- A download can finish without leaves that it had to fetch, in two ways, and in no other (`RunOutcome` in `RunUntilDone` and `OutageThenSync`): with a header, and whatever the peers do, a successful run has received everything added exactly if every added leaf at or below the cursor it began with was passed, and no reply missed a leaf that no other reply brought.
  - The cursor is only good for the chain it was left at, but a pass for another chain that does not rewind keeps it: a first sync resumes from it at once, and a pass with a saved leafset overwrites the pending tip, so that its own retry resumes from it. A cursor that was earned hides a leaf exactly if it is foreign in this sense and an added leaf at or below it was not passed for the chain at hand (`GuardIsExact`). With `VerifyMode::Anchored` the block fixes its chain, and foreign means left at another tip (`AnchoredGuard`); in the other modes another peer may serve the same block differently (`SameTipSkipsLeaf`). Chains that only append leaves are safe (`ExtensionHidesNothing`). `FirstSyncSkipsLeaf` and `StaleCursorSkipsLeaf` are runs that lose a leaf.
  - An empty reply skips the leaf asked for, and a reply may start after it; both verify in every mode. `EmptyReplySkipsLeaf` and `LateReplySkipsLeaf` are first passes that save a leafset nobody sent. A pass from the start receives everything exactly if every reply carries each added leaf from the one asked for to its last (`PassReceives`), which for replies without gaps means that it is non-empty and opens with the leaf asked for (`PassReceivesIfOpened`). The one-shot sync shares this, and so spends coins whose leaf is still set (`AllReceived`, `UnseenCoinSpent`).
- A pass that is interrupted keeps its coins and its spends but not its leafset. If the next pass without a rewind is for another chain, a coin whose leaf is in neither that chain's nor the saved leafset stays unspent (`RunOnce` gives the exact condition, `RunAgrees` shows that nothing else breaks agreement, `InterruptedCoinStays` is such a run).
- The check that a batch advances the download looks at its first leaf only. With a header, leaves out of order are rejected before that, and the check alone guarantees progress, as its comment has it (`OrderMakesProgress`). With `VerifyMode::Trusted` it does not: the last leaf has to reach the requested one (`ProgressNeedsLastLeaf`, with leaves 5 and 2 for a request from 4 in `AdvancingWithoutProgress`). The second check in the loop catches this and is modelled.

## Model

| member | source | states |
|---|---|---|
| SkipPointers.SkipIndex | crates/core/src/checkpoint.rs:16-33 | a skip never points above its own index, and strictly below it for every index but zero |
| SkipPointers.PhaseEnds | crates/core/src/checkpoint.rs:20-22 | stepping down by one from an index whose lowest bit is the highest that differs from the target removes that differing bit |
| SkipPointers.EvenBetterPrev | crates/core/src/checkpoint.rs:46-58 | when an even index passes over its skip because prev's skip is better, prev's skip does not undershoot the target and the index two below has no more bits set |
| SkipPointers.PrevNotTwice | crates/core/src/checkpoint.rs:46-58 | passing over a skip because prev's skip is better happens at even indices only, and the next step follows a skip |
| SkipPointers.HopDecreases | crates/core/src/checkpoint.rs:38-63 | every hop of the walk lowers a rank made of the differing bits and the set bits |
| SkipPointers.InitialRank | crates/core/src/checkpoint.rs:38-63 | the rank at the start is at most four times the square of one more than the start's bit length |
| CheckPoints.AncestorByIndex | crates/core/src/checkpoint.rs:36-63 | the skip walk ends at the ancestor that following prev pointers alone reaches, within a quadratic number of hops |
| CheckPoints.WalkToFloor | crates/core/src/checkpoint.rs:66-94 | the height walk finds the highest checkpoint at or below the height, as the plain walk would |
| CheckPoints.IndexWithinHeight | crates/core/src/checkpoint.rs:526-556 | an index never exceeds its height, so counting up cannot overflow |
| CheckPoints.BlocksLinked | crates/core/src/checkpoint.rs:526-556 | in every well-formed list adjacent blocks agree with the predecessors they name |
| CheckPoints.SameBlocksSameList | crates/core/src/checkpoint.rs:197-203 | lists with the same blocks are the same list, skip pointers included |
| CheckPoints.FloorBlocks | crates/core/src/checkpoint.rs:72-94 | the floor of a height holds exactly the blocks up to that height |
| CheckPoints.Get | crates/core/src/checkpoint.rs:267-277 | a checkpoint is found exactly if its height is in the chain, with that block and everything below it |
| CheckPoints.RangeStart | crates/core/src/checkpoint.rs:287-296 | for every upper bound, the first checkpoint of a range is the floor of the highest height that the bound allows, and there is none exactly if there is no such height |
| CheckPoints.InRangeLists | crates/core/src/checkpoint.rs:300-305 | a plain walk that keeps what lies within the bounds lists exactly those heights, descending |
| CheckPoints.Range | crates/core/src/checkpoint.rs:283-306 | for every pair of bounds, a range lists exactly the heights of the list from the one to the other, with included bounds in and excluded ones out, descending, each with the checkpoint at it |
| CheckPoints.FloorAt | crates/core/src/checkpoint.rs:314-316 | the floor is the first checkpoint of the range up to the height |
| CheckPoints.NodesByIndex | crates/core/src/checkpoint.rs:564-571 | the k-th checkpoint from the tip is the ancestor whose index is k below the tip's |
| CheckPoints.CheckPointIter.Next | crates/core/src/checkpoint.rs:567-571 | yields the first remaining checkpoint and keeps the rest |
| CheckPoints.CheckPointIter.Nth | crates/core/src/checkpoint.rs:573-584 | yields what calling next n more times would, or exhausts the iterator |
| CheckPoints.CheckPointIter.Last | crates/core/src/checkpoint.rs:586-591 | yields the last remaining checkpoint |
| CheckPoints.CheckPointIter.Count | crates/core/src/checkpoint.rs:593-599 | counts the remaining checkpoints |
| CheckPointUpdates.New | crates/core/src/checkpoint.rs:367-378 | a base checkpoint is well-formed and holds its one block |
| CheckPointUpdates.Push | crates/core/src/checkpoint.rs:526-556 | succeeds exactly if the block is higher and links; the result is the well-formed list with that block on top |
| CheckPointUpdates.Extend | crates/core/src/checkpoint.rs:437-443 | pushes the blocks one by one, and on failure returns the last good checkpoint |
| CheckPointUpdates.ExtendedBlocks | crates/core/src/checkpoint.rs:437-443 | extending by a list of higher blocks succeeds exactly if the union links, and then holds the union |
| CheckPointUpdates.FromBlocks | crates/core/src/checkpoint.rs:423-430 | builds a list from items, failing with nothing on no items and with the last good checkpoint otherwise |
| CheckPointUpdates.ListBuilds | crates/core/src/checkpoint.rs:418-430 | ascending items build a list exactly if they link, and the list holds exactly them |
| CheckPointUpdates.FindBase | crates/core/src/checkpoint.rs:458-503 | the search splits the chain into the part kept below and the blocks kept above the insertion |
| CheckPointUpdates.Insert | crates/core/src/checkpoint.rs:445-518 | panics exactly if genesis would be replaced; otherwise the list is well-formed and holds the inserted block, all blocks below but a conflicting direct predecessor, and all blocks above or none |
| CheckPointUpdates.InsertSurvivors | crates/core/src/checkpoint.rs:445-518 | all blocks below survive but a contradicted direct predecessor; above, all survive exactly if nothing at, directly below or directly above the height conflicts, and otherwise none; the result links |
| CheckPointUpdates.InsertTwice | crates/core/src/checkpoint.rs:445-518 | inserting a block a second time changes nothing |
| CheckPointEntries.VisitedTop | crates/core/src/checkpoint_entry.rs:108-138 | an entry is the highest slot of what its walk visits, and its predecessor visits the rest |
| CheckPointEntries.VisitedAll | crates/core/src/checkpoint_entry.rs:108-153 | the entry walk visits exactly the stored blocks and the predecessors they imply, each height once |
| ChangeSets.ApplyToMap | crates/chain/src/local_chain.rs:34-43 | applying the entries one by one gives the overwritten and reduced map, in any order |
| ChangeSets.ChainFromBlocks | crates/chain/src/local_chain.rs:314-327 | builds a chain from blocks exactly if genesis is there and they link |
| ChangeSets.SplitAt | crates/chain/src/local_chain.rs:22-33 | splits a chain at a height into the list below and the blocks from there on |
| ChangeSets.ApplyChangesetToCheckpoint | crates/chain/src/local_chain.rs:13-61 | succeeds exactly if the changed blocks link and genesis is kept where needed, and then holds exactly the changed blocks; a mismatch names the lowest block that the one above does not link to |
| ChainMerge.JunctionUnique | crates/chain/src/local_chain.rs:782-798 | two chains have at most one highest block in common |
| ChainMerge.Finish | crates/chain/src/local_chain.rs:690-719 | the final step succeeds exactly if the change set applies, with the changed original as the new chain, and otherwise points at genesis or at the lowest block that breaks the links |
| ChainMerge.MergeChains | crates/chain/src/local_chain.rs:682-860 | a merge succeeds only if the chains connect; its change set is the one defined by conflicts and heights; its tip is the update exactly if the lists share a checkpoint at an agreed height and the update has every original height from there on, and the changed original otherwise; a failure to connect suggests a height that the update lacks or replaces |
| MergeMeaning.ConnectsByBlocks | crates/chain/src/local_chain.rs:669-681 | for bare hashes, chains connect exactly if they share a block and above the highest shared one a chain ends or the lowest original block is contradicted |
| MergeMeaning.GenesisNeedsJunction | crates/chain/src/local_chain.rs:815-821 | chains that start at genesis can only connect through a block in common |
| MergeMeaning.ExactMerge | crates/chain/src/local_chain.rs:667-860 | for bare hashes the merge holds the update's blocks and every original block at a height absent from the update with no contradicted height below it, and a covering update is that same chain |
| BlockTree.MergeStaysOnOnePath | crates/chain/src/local_chain.rs:702-716 | if each chain lies on a root path, the merged chain lies wholly on one of the two, links, and keeps genesis |
| BlockTree.MergeInTree | crates/chain/src/local_chain.rs:682-860 | in a block tree the merge succeeds exactly if the chains connect, so the mismatch reported as a bug cannot occur; its tip lies on one path and, with data fixed by hashes, is the changed original unless a fast return drops an implied block |
| BlockTree.FastReturnIsChangedOriginal | crates/chain/src/local_chain.rs:799-807 | the returned update is the changed original exactly if it stores every original block that it implies |
| BlockTree.MergedTipIsChangedOriginal | crates/chain/src/local_chain.rs:799-807 | the tip of a merge differs from the changed original exactly if the update is returned and only implies some block that the original stores |
| BlockTree.FastReturnDropsHeader | crates/chain/src/local_chain.rs:799-807 | a run of the merge on two lists of linked headers that succeeds with an empty change set and loses a stored header |
| LocalChains.ReplayStep | crates/core/src/merge.rs:22-27 | merging a change set onto a log applies it to the chain the log describes |
| LocalChains.LocalChain.FromGenesis | crates/chain/src/local_chain.rs:300-308 | starts with exactly the genesis block |
| LocalChains.LocalChain.FromTip | crates/chain/src/local_chain.rs:344-351 | accepts a list exactly if it starts at genesis, and keeps it |
| LocalChains.LocalChain.InitialChangeset | crates/chain/src/local_chain.rs:388-396 | the initial change set replays to the current chain |
| LocalChains.LocalChain.ApplyChangeset | crates/chain/src/local_chain.rs:378-384 | succeeds exactly if the change set applies, and otherwise leaves the chain alone |
| LocalChains.LocalChain.ApplyUpdate | crates/chain/src/local_chain.rs:367-375 | an update keeps genesis, returns the merge's change set and becomes the update exactly if the merge returns it as it is, and the changed chain otherwise; a failure reports the height that the merge suggests; for bare hashes it succeeds exactly if the chains connect and the change set turns the old chain into the new one |
| LocalChains.LocalChain.FromChangeset | crates/chain/src/local_chain.rs:330-341 | rebuilds exactly the chain the change set describes, if it has genesis and links |
| LocalChains.LocalChain.InsertBlock | crates/chain/src/local_chain.rs:403-434 | inserts a block at a free height if it links, accepts a block that is there, and reports the stored hash on a conflict |
| LocalChains.LocalChain.DisconnectFrom | crates/chain/src/local_chain.rs:445-472 | removes a stored block and everything above, does nothing for an unknown block, and refuses genesis |
| LocalChains.LocalChain.ApplyHeaderConnectedTo | crates/chain/src/local_chain.rs:181-218 | reports inconsistent blocks exactly for a connection at or above the header's parent that is neither; otherwise merges the implied blocks, whose order never makes building them fail, and reports the suggested height if that fails |
| LocalChains.HeaderList | crates/chain/src/local_chain.rs:208-214 | the blocks implied by a header always build a list, so the expect cannot fire |
| LocalChains.Perform | crates/chain/src/local_chain.rs:181-472 | every call, successful or not, moves the chain as its change set says and keeps genesis |
| LocalChains.RunAndRebuild | crates/chain/src/local_chain.rs:181-472 | over any run of calls from genesis, the merged change sets rebuild the very same list |
| EsploraSync.FindAgreement | crates/esplora/src/blocking_ext.rs:220-250 | finds the highest local block that the server confirms, and the server's blocks at the local heights above it |
| EsploraSync.FetchPrefersLatest | crates/esplora/src/blocking_ext.rs:184-208 | a block is taken from the latest ones if it is there, asked of the server below them, and unknown above |
| EsploraSync.InsertAnchors | crates/esplora/src/blocking_ext.rs:256-265 | adds the server's blocks at the missing anchor heights and nothing else |
| EsploraSync.UpdateFromServer | crates/esplora/src/blocking_ext.rs:214-274 | for any server, fails exactly if nothing is confirmed, and otherwise holds what the search, the anchors and the latest blocks amount to |
| EsploraSync.UpdateIsServer | crates/esplora/src/blocking_ext.rs:210-274 | with a consistent server the update holds exactly the server's blocks at the local, anchor and latest heights up to the remote tip |
| EsploraSync.UpdateConnects | crates/esplora/src/blocking_ext.rs:234-236 | the update connects exactly if no local block lies above the remote tip, or one at or below it is contradicted, or the remote tip is a local height |
| EsploraSync.SyncedBlocks | crates/esplora/src/blocking_ext.rs:577-745 | after the merge every local and anchor height up to the remote tip is kept and holds the server's block |
| EsploraSync.SyncChain | crates/esplora/src/blocking_ext.rs:214-274 | a whole sync neither errors nor panics with a consistent server, applies exactly under that condition, and keeps the promised heights |
| TxGraphs.SortedInNumbers | crates/core/src/block_id.rs:4-51 | anchors are listed by height, then by hash, then by time |
| TxGraphs.InsertSorted | crates/chain/src/tx_graph.rs:783-784 | an ordered anchor set stays ordered and gains exactly the anchor |
| TxGraphs.TopHeightAfterInsert | crates/chain/src/tx_graph.rs:768-782 | the highest anchor height after an insertion is the larger of the old one and the new anchor's |
| TxGraphs.ConflictIsDoubleSpend | crates/chain/src/tx_graph.rs:566-577 | the index reports a conflict exactly if two distinct whole transactions spend a common non-null output |
| TxGraphs.NullIsUnspent | crates/chain/src/tx_graph.rs:724-727 | what coinbase inputs refer to is never in the index of spends |
| TxGraphs.ConflictSymmetric | crates/chain/src/tx_graph.rs:566-577 | conflicts are mutual |
| TxGraphs.ChildHasParent | crates/chain/src/tx_graph.rs:1425-1433 | what the descendant walk steps to, the ancestor walk steps back from |
| TxGraphs.ParentHasChild | crates/chain/src/tx_graph.rs:1304-1313 | what the ancestor walk steps to, the descendant walk steps back from |
| TxGraphs.DescendingOrder | crates/chain/src/tx_graph.rs:1012-1038 | reverse iteration of an index lists every entry once, highest first |
| Ancestry.DescendantHasAncestor | crates/chain/src/tx_graph.rs:1425-1457 | a descendant of a whole transaction has it among its ancestors |
| Ancestry.AncestorHasDescendant | crates/chain/src/tx_graph.rs:1304-1334 | an ancestor has the transaction among its descendants, as no transaction hashes to the null txid |
| Ancestry.SettledSpendsOnce | crates/chain/src/canonical_task.rs:201-222 | in a settled state two canonical transactions never spend the same output |
| Ancestry.ExcludedMemberMeansConflict | crates/chain/src/canonical_task.rs:289-340 | in an ancestor-closed set, a member that descends from a conflict of another member puts two directly conflicting members into the set |
| CanonicalMarking.ExcludeDescendants | crates/chain/src/canonical_task.rs:302-316 | excludes a conflict and all its descendants and nothing else, and records each new exclusion once |
| CanonicalMarking.ExcludeConflicts | crates/chain/src/canonical_task.rs:298-316 | excludes exactly the conflicts of a transaction with their descendants |
| CanonicalMarking.QueueParents | crates/chain/src/tx_graph.rs:1304-1320 | queues each parent that was not visited, once |
| CanonicalMarking.WalkAncestors | crates/chain/src/canonical_task.rs:267-340 | the walk stages ancestors only, records every change for undoing, and reports a double spend only if the ancestry is blocked |
| CanonicalMarking.WalkSettles | crates/chain/src/canonical_task.rs:267-347 | a walk that met nothing excluded has made exactly the ancestry canonical and excluded exactly the descendants of its conflicts, and the ancestry is not blocked |
| CanonicalMarking.UndoRestores | crates/chain/src/canonical_task.rs:331-340 | removing what was staged and excluded gives back the state before |
| CanonicalMarking.BlockedMeansSelfConflicting | crates/chain/src/canonical_task.rs:267-347 | for an undecided transaction the ancestry is blocked exactly if it holds two directly conflicting transactions |
| CanonicalOffers.CanonicalExactly | crates/chain/src/canonical_task.rs:85-199 | an offered transaction is canonical exactly if it does not conflict with itself and no earlier winner beats it or an ancestor of it |
| CanonicalOffers.OutcomeUnique | crates/chain/src/canonical_task.rs:85-347 | the graph, the assumptions and the answers determine which transactions are canonical |
| CanonicalOffers.SeenLosesTo | crates/chain/src/canonical_task.rs:104-116 | a seen transaction that ends excluded descends from a conflict of an ancestor of one that is assumed, confirmed, or seen later, or at the same time with a higher txid |
| CanonicalOffers.ConfirmedLosesTo | crates/chain/src/canonical_task.rs:235-239 | a confirmed one only loses to one that is assumed, or confirmed with a higher top anchor |
| CanonicalOffers.AssumedLosesTo | crates/chain/src/canonical_task.rs:229-234 | an assumed one only loses to one that is assumed later in the list |
| CanonicalOffers.LeftoverLosesTo | crates/chain/src/canonical_task.rs:117-137 | one whose anchors are not confirmed loses to any that is assumed, confirmed or seen, and to one with a higher top anchor |
| CanonicalOffers.LaterRivalWins | crates/chain/src/canonical_task.rs:104-116 | of two conflicting unanchored transactions alone in the graph the one seen later is canonical and the other excluded |
| CanonicalTasks.AnchoredQueue | crates/chain/src/canonical_task.rs:227-261 | queues every anchored whole transaction once, highest anchor first |
| CanonicalTasks.SeenQueue | crates/chain/src/canonical_task.rs:227-261 | queues exactly the seen and not evicted whole transactions, most recent first |
| CanonicalTasks.AssumedQueue | crates/chain/src/canonical_task.rs:227-261 | queues exactly the assumed whole transactions, last one first |
| CanonicalTasks.BestAnchor | crates/chain/src/canonical_task.rs:150-156 | the first anchor in the block that the response names, and none exactly if there is no response or no anchor in it |
| CanonicalTasks.AnchorBlocks | crates/chain/src/canonical_task.rs:95-99 | the blocks of the anchors, in their order |
| CanonicalTasks.CanonicalTask.constructor | crates/chain/src/canonical_task.rs:227-261 | starts with nothing decided and everything offered still queued, in the order of the offers |
| CanonicalTasks.CanonicalTask.MarkCanonical | crates/chain/src/canonical_task.rs:267-347 | all or nothing: a blocked ancestry, which for an undecided transaction is one with two directly conflicting members, leaves every set and the order as they were; otherwise exactly the undecided ancestors are added, each once in the order, and exactly the descendants of their conflicts are excluded; the state stays disjoint, closed and conflict-free |
| CanonicalTasks.CanonicalTask.Turn | crates/chain/src/canonical_task.rs:85-143 | each turn of the stage loop keeps every offer judged or queued, with all winners ahead of the queues |
| CanonicalTasks.CanonicalTask.NextQuery | crates/chain/src/canonical_task.rs:85-143 | asks about the front anchored transaction, or has finished all stages |
| CanonicalTasks.CanonicalTask.ResolveQuery | crates/chain/src/canonical_task.rs:145-199 | records for the front transaction its first anchor in the confirmed block, or that there is none; it becomes canonical, excluded, blocked or a leftover, and the order of the offers is kept |
| CanonicalTasks.CanonicalTask.Finish | crates/chain/src/canonical_task.rs:201-222 | every non-null output spent by a canonical transaction is recorded with that one spender |
| CanonicalTasks.NoOverwrite | crates/chain/src/canonical_task.rs:201-222 | recording the spends of one more canonical transaction overwrites no other's entry |
| CanonicalTasks.FinishedIsMaximal | crates/chain/src/canonical_task.rs:85-199 | with nothing left queued, every transaction a stage offered is canonical, excluded or blocked |
| CanonicalTasks.MaximalMeansDecided | crates/chain/src/canonical_task.rs:85-199 | with all queues empty, an offered transaction is canonical, excluded, or has an ancestry with two directly conflicting transactions |
| CanonicalTasks.AnswerQueries | crates/chain/src/local_chain.rs:124-141 | the query loop ends after exactly one query for each anchored whole transaction |
| CanonicalTasks.Canonicalize | crates/chain/src/canonical_task.rs:78-222 | a whole run is conflict-free, asks once for each anchored transaction, leaves every offered transaction canonical, excluded by a conflict, or with an ancestry that conflicts with itself, and decides every offer by the earlier ones; its order lists winners by their offers |
| CanonicalViewTasks.FindAnchoredDescendant | crates/chain/src/canonical_view_task.rs:164-182 | finds a canonical descendant with a direct anchor exactly if there is one |
| CanonicalViewTasks.CanonicalViewTask.constructor | crates/chain/src/canonical_view_task.rs:55-88 | queues a check for every transaction that was made canonical by another and has anchors |
| CanonicalViewTasks.CanonicalViewTask.NextQuery | crates/chain/src/canonical_view_task.rs:98-113 | asks about the front check, or has none left |
| CanonicalViewTasks.CanonicalViewTask.ResolveQuery | crates/chain/src/canonical_view_task.rs:115-135 | records the first anchor of the front check in the confirmed block, if there is one |
| CanonicalViewTasks.CanonicalViewTask.Position | crates/chain/src/canonical_view_task.rs:154-215 | the position fits the reason and the direct anchors |
| CanonicalViewTasks.CanonicalViewTask.Finish | crates/chain/src/canonical_view_task.rs:137-222 | every canonical transaction gets one fitting position and none is lost |
| CanonicalViewTasks.PositionByReason | crates/chain/src/canonical_view_task.rs:154-215 | without assumptions a transaction is confirmed exactly if its reason is an anchor, the anchor is one in a block that the chain answered for it or for a descendant, and an unconfirmed one carries its first-seen time and the last sighting that made it canonical |
| CanonicalViewTasks.ConfirmedAncestors | crates/chain/src/canonical_task.rs:281-289 | ancestors of a transaction canonical by an anchor are canonical by an anchor |
| CanonicalViewTasks.ViewMeaning | crates/chain/src/canonical_view_task.rs:137-222 | the confirmed transactions are exactly those canonical when the anchored stage ended, and are closed under ancestors |
| CanonicalViewTasks.ResolveView | crates/chain/src/canonical_view_task.rs:50-222 | over both phases and any chain source, no confirmed transaction has an unconfirmed ancestor, every confirmation is in a block that the source answered, no canonical transaction is lost, conflicts are decided by the offers, and confirmed transactions come first |
| CanonicalRuns.LaterSightingWins | crates/chain/src/canonical_task.rs:104-116 | a run on two transactions that spend one output, seen at 10 and at 20, keeps the later one |
| CanonicalRuns.LaterSightingShown | crates/chain/src/canonical_view_task.rs:137-222 | and the view holds it and not the other |
| CanonicalRuns.ConfirmedInTip | crates/chain/src/canonical_view_task.rs:115-135 | a transaction anchored in a lost block and in the tip is confirmed in the tip if the chain source names that |
| TxKnowledge.PreferableTotal | crates/chain/src/tx_graph.rs:678-692 | the preference between witnesses is a total order |
| TxKnowledge.PreferableTransitive | crates/chain/src/tx_graph.rs:678-692 | the preference between witnesses is transitive |
| TxKnowledge.MergedInputPrevails | crates/chain/src/tx_graph.rs:678-692 | of two witnesses a non-empty one is kept over an empty one, then the one with fewer bytes, then the one that comes first in dictionary order |
| TxKnowledge.MergedInputIsMinimum | crates/chain/src/tx_graph.rs:676-697 | a merged input is as good as whatever either input beats, that is, their minimum |
| TxKnowledge.MergeGivesBoth | crates/chain/src/tx_graph.rs:1128-1164 | a merged change set adds exactly the facts of its parts |
| TxKnowledge.KnowledgeDeterminesGraph | crates/chain/src/tx_graph.rs:176-192 | two exact graphs that know the same facts are the same in every map and index |
| TxGraphUpdates.MergingWitnessesLearns | crates/chain/src/tx_graph.rs:666-706 | storing the merged witnesses adds exactly what the other transaction gives, and so does the recorded merged one |
| TxGraphUpdates.NewTransactionLearned | crates/chain/src/tx_graph.rs:722-737 | a transaction known in part or not at all is learned whole, with its spends indexed |
| TxGraphUpdates.AnchorKeepsExact | crates/chain/src/tx_graph.rs:764-808 | moving one entry keeps exactly one entry for each anchored txid at its highest anchor |
| TxGraphUpdates.SeenKeepsExact | crates/chain/src/tx_graph.rs:821-880 | the last-seen index stays exact and first-seen never passes last-seen |
| TxGraphUpdates.TxGraph.constructor | crates/chain/src/tx_graph.rs:194-210 | an empty graph is exact |
| TxGraphUpdates.TxGraph.InsertTx | crates/chain/src/tx_graph.rs:666-740 | adds exactly the facts of the transaction, keeps all indexes exact, and returns a change set of the same facts that is empty exactly if nothing changed; for each input of a known transaction a non-empty witness is kept over an empty one, then the smaller one, then the lexicographically lower one |
| TxGraphUpdates.TxGraph.InsertTxout | crates/chain/src/tx_graph.rs:622-648 | the same for a floating output |
| TxGraphUpdates.TxGraph.InsertAnchor | crates/chain/src/tx_graph.rs:764-808 | the same for an anchor |
| TxGraphUpdates.TxGraph.UpdateFirstSeen | crates/chain/src/tx_graph.rs:829-850 | the first-seen time only falls, and the change set says so |
| TxGraphUpdates.TxGraph.UpdateLastSeen | crates/chain/src/tx_graph.rs:853-880 | the last-seen time only rises and its index entry moves along |
| TxGraphUpdates.TxGraph.InsertSeenAt | crates/chain/src/tx_graph.rs:821-826 | the same for a sighting |
| TxGraphUpdates.TxGraph.InsertEvictedAt | crates/chain/src/tx_graph.rs:887-908 | the same for an eviction |
| TxGraphUpdates.TxGraph.ApplyUpdate | crates/chain/src/tx_graph.rs:937-955 | the same for a whole update, in whatever order its sets are walked |
| TxGraphUpdates.TxGraph.ApplyChangeset | crates/chain/src/tx_graph.rs:977-993 | replaying adds exactly the facts of the change set, with a last-seen time standing in for the first-seen one |
| TxGraphUpdates.ReplayGivesUpdated | crates/chain/src/tx_graph.rs:937-993 | the change set of an update, replayed on the graph before, gives the graph after, first-seen times apart |
| TxGraphUpdates.ReapplyingIsEmpty | crates/chain/src/tx_graph.rs:930-955 | applying an update again changes nothing and returns an empty change set |
| TxGraphUpdates.OrderIrrelevant | crates/chain/src/tx_graph.rs:930-955 | two updates give the same graph in either order |
| TxGraphUpdates.MergeReplaysBoth | crates/chain/src/tx_graph.rs:1128-1164 | replaying a merged change set is replaying its parts, in either order |
| TxGraphUpdates.ReplayFromEmpty | crates/chain/src/tx_graph.rs:977-993 | replay from scratch gives the graph with first-seen times replaced by last-seen ones, so it is the same graph exactly if these agree |
| TxGraphUpdates.ReplayLosesFirstSeen | crates/chain/src/tx_graph.rs:977-993 | after two sightings of one transaction the replayed graph has a later first-seen time than the graph itself |
| TxGraphUpdates.RunAndReplay | crates/chain/src/tx_graph.rs:937-993 | over any run of updates all indexes stay exact, the graph knows exactly the union of the updates, and the merged log rebuilds it |
| ServeRounds.PartitionRound | crates/mweb/src/lip0006_tcp.rs:79-119 | fails at the first response that was not requested or was answered before; otherwise splits the requests into the answered, with their batches at ascending places, and the dropped, in order |
| ServeRounds.RoundConserves | crates/mweb/src/lip0006_tcp.rs:109-119 | a round delivers or keeps each request, never both, and keeps the order |
| ServeRounds.RoundDeliversResponses | crates/mweb/src/lip0006_tcp.rs:92-119 | every response of a faultless round is delivered and nothing else is |
| ServeRounds.DriveServeRounds | crates/mweb/src/lip0006_tcp.rs:1118-1178 | for any peer and consumer, never delivers more than was asked and exactly that on success, asks in each round for as many of the first pending requests as the window allows, doubles the window after a clean round and otherwise sets it to what was served with the dropped requests first, takes at most five rounds for each request, and gives up only for a reported reason or after five silent rounds |
| ServeRounds.ExactlyOnce | crates/mweb/src/lip0006_tcp.rs:1108-1178 | with distinct start indices nothing is delivered twice and a completed run delivers every request |
| Leafsets.DiffLeafsets | crates/mweb/src/mweb_sync.rs:63-88 | both lists are ascending and are the exact set differences, for bitsets of any lengths |
| Leafsets.MaskHalves | crates/mweb/src/mweb_sync.rs:424-429 | the bits of a byte are numbered from the most significant one |
| Leafsets.HasLeafIsBit | crates/mweb/src/mweb_sync.rs:424-429 | a leaf is set exactly if its bit in its byte is, with absent bytes counting as zero |
| Leafsets.AscendingUnique | crates/mweb/src/mweb_sync.rs:52-60 | a set of leaves has only one ascending listing |
| Leafsets.DiffRebuilds | crates/mweb/src/mweb_sync.rs:63-88 | the old leaves without the removed and with the added are the new ones |
| Leafsets.DateLeafIndex | crates/mweb/src/mweb_sync.rs:165-173 | the date is the lowest sampled height with more leaves, or the tip |
| MwebCoins.MwebCoinDatabase.Insert | crates/mweb/src/coin_db.rs:194-202 | the coin becomes unspent and leaves the spent ones |
| MwebCoins.MwebCoinDatabase.MarkSpent | crates/mweb/src/coin_db.rs:210-223 | an unspent coin moves to the spent ones unchanged, and only then is success reported |
| MwebCoins.MwebCoinDatabase.FindByLeafIndex | crates/mweb/src/coin_db.rs:333-337 | finds the first unspent coin of a leaf in id order, exactly if there is one |
| MwebCoins.MwebCoinDatabase.MarkSpentByLeafIndex | crates/mweb/src/coin_db.rs:339-347 | moves that one coin and reports it |
| MwebCoins.MwebCoinDatabase.SetBlockHeight | crates/mweb/src/coin_db.rs:308-318 | sets the height of a known coin and nothing else |
| MwebCoins.MwebCoinDatabase.DisconnectFrom | crates/mweb/src/coin_db.rs:283-305 | in both maps exactly the heights below the given one are kept, and nothing else changes |
| MwebDownload.EffectiveBatchSize | crates/mweb/src/mweb_sync.rs:692-698 | a request size is between one and the wire maximum, a size within those limits is kept and one beyond is cut to the limit |
| MwebDownload.FetchVerified | crates/mweb/src/mweb_sync.rs:1030-1064 | for each leaf the request is halved exactly while its reply fails a check that a smaller one can mend and there is a smaller one, and the first reply that verifies is returned, or the first fault that stays; it spends one request for each halving and one more, and a peer that mends its replies by size one leads to a reply |
| MwebDownload.ScanEntries | crates/mweb/src/scan.rs:246-264 | every gained coin is an owned one of the entries, dated by its leaf, and, on success, every owned one is held |
| MwebDownload.ProgressNeedsLastLeaf | crates/mweb/src/lip0006.rs:198-209 | a batch that passes the check moves the download past the requested leaf exactly if its last leaf reaches it |
| MwebDownload.OrderMakesProgress | crates/mweb/src/lip0006.rs:267-312 | a batch in order, as it verifies with a header, that passes the check always moves the download |
| MwebDownload.AdvancingWithoutProgress | crates/mweb/src/lip0006.rs:198-209 | leaves 5 and 2 in answer to a request from leaf 4 pass the check and move nothing; they verify in `Trusted` mode only |
| MwebDownload.ReceivedOrMissed | crates/mweb/src/pmmr.rs:459-488 | with a header, a leaf that the accepted replies pass is either carried by one of them or missed, and never both |
| MwebDownload.OpensWhole | crates/mweb/src/pmmr.rs:459-543 | a reply in order and without gaps carries all that it passes exactly if it is non-empty and opens with the leaf asked for |
| MwebDownload.Download | crates/mweb/src/mweb_sync.rs:1018-1119 | for N leaves left, any peer causes at most 2N plus the binary logarithm of the batch size requests, and one that answers well, at the latest when asked for one utxo, causes no failure; request sizes are restored by doubling after each non-empty reply; every leaf gone over is passed by exactly one accepted reply, exactly the owned added outputs of those replies are reported and held, each dated by its leaf, and the cursor only moves over passed leaves |
| MwebSyncs.SyncState.InvalidateLeafset | crates/mweb/src/mweb_sync.rs:137-144 | afterwards the state is a new one but for the tip height and the sampled heights |
| MwebSyncs.Prepare | crates/mweb/src/mweb_sync.rs:785-842 | a rewind forgets heights from the right one on and the whole leafset; without one nothing but sampled heights changes |
| MwebSyncs.SpendRemoved | crates/mweb/src/mweb_sync.rs:851-855 | spends only coins of removed leaves, and with distinct leaf indices no unspent coin of a removed leaf is left |
| MwebSyncs.Redate | crates/mweb/src/mweb_sync.rs:1121-1136 | every coin with a leaf index carries the date of its leaf and nothing else changes |
| MwebSyncs.SpendGone | crates/mweb/src/mweb_sync.rs:1138-1152 | after a first sync exactly the coins that are gone are spent, and each is reported |
| MwebSyncs.DownloadAdded | crates/mweb/src/mweb_sync.rs:857-1119 | on success every added leaf was passed or lies at or below the leaf resumed from, and so does every one up to the new cursor in any case; requests start above the leaf resumed from; a peer that answers well leads to success |
| MwebSyncs.RunOnce | crates/mweb/src/mweb_sync.rs:768-1164 | the state and the sampled heights afterwards are exact and no coin is lost from the database; a successful pass dates the coins, keeps and reports exactly the owned added outputs of its replies, spends no coin whose leaf is still there, and leaves every unspent coin with a leaf index in the saved leafset, with a saved one before exactly if no coin was in neither; coins in either leafset end up in the served one whatever the outcome; requests are bounded, and a peer that answers well, at the latest when asked for one utxo, leads to success; a failed pass keeps the old leafset and a cursor that follows its last accepted batch; coins that are new after any pass carry the date of their leaf |
| MwebLogs.ReceivedMeansPassed | crates/mweb/src/mweb_sync.rs:1066-1086 | everything is received exactly if everything is passed and no leaf that a reply missed was left to it |
| MwebLogs.LeafFate | crates/mweb/src/mweb_sync.rs:878-887 | a leaf that a successful pass had to fetch was received, or missed by a reply, or at or below the leaf resumed from, and only one of the first two |
| MwebLogs.PassReceives | crates/mweb/src/mweb_sync.rs:1018-1119 | a pass from the start receives every added leaf exactly if every reply carries each from the one asked for to its last |
| MwebLogs.PassReceivesIfOpened | crates/mweb/src/mweb_sync.rs:1066-1073 | for replies without gaps, exactly if every reply is non-empty and opens with the leaf asked for |
| MwebRuns.GuardIsExact | crates/mweb/src/mweb_sync.rs:857-887 | a cursor earned at the chain it was left at hides a leaf exactly if it is kept for another chain without a rewind and an added leaf at or below it was not passed for that one; in every verify mode |
| MwebRuns.AnchoredGuard | crates/mweb/src/lip0006.rs:44-64 | if a block fixes its chain, as with anchored headers, being kept for another chain is being kept at another tip |
| MwebRuns.ExtensionHidesNothing | crates/mweb/src/mweb_sync.rs:863-876 | a cursor kept for a chain that only appends leaves to the one it was earned at hides nothing |
| MwebRuns.RunUntilDone | crates/mweb/src/mweb_sync.rs:857-887 | over any number of interrupted passes for one chain with any peers, success means every added leaf was passed exactly if those at or below the first cursor were, which holds unless it hid one; all is received exactly if, besides, nothing missed was lost; what lies at or below the leaf resumed from is never passed |
| MwebRuns.OutageThenSync | crates/mweb/src/mweb_sync.rs:857-936 | from any state an outage and then a peer that serves everything end in success, and everything is received exactly if the cursor was not foreign or hid nothing, and nothing missed earlier is lost |
| MwebRuns.RunGuarded | crates/mweb/src/mweb_sync.rs:768-1164 | from a new state over any tips and peers, as long as no pass starts with a foreign cursor, every successful pass leaves all it had to fetch passed, and received exactly if nothing missed is lost |
| MwebWallets.OwnedAfterPass | crates/mweb/src/mweb_sync.rs:1074-1154 | after a successful pass the wallet holds an owned output of the leafset exactly if it did before or the pass received its leaf |
| MwebWallets.OpenedPassHoldsAll | crates/mweb/src/mweb_sync.rs:1018-1119 | a successful pass from the start whose replies open with the leaf asked for and have no gaps leaves every owned added output held |
| MwebWallets.VouchedAgain | crates/mweb/src/mweb_sync.rs:768-1164 | a pass for the chain of the interrupted one keeps what the saved leafset and the cursor stand for, and on success completes the wallet |
| MwebWallets.RunComplete | crates/mweb/src/mweb_sync.rs:768-1164 | from a new state over any tips with replies that are true and carry what they pass, and no interrupted download left for another chain, the wallet holds each of its outputs on the saved chain after every success |
| MwebWallets.AgreesUntilDone | crates/mweb/src/mweb_sync.rs:844-1157 | over interrupted passes at one tip, coins in the saved or the served leafset end up in the served one |
| MwebWallets.RunAgrees | crates/mweb/src/mweb_sync.rs:768-1164 | from a new state over any tips, with owned outputs that never share a leaf, the unspent coins agree with the latest leafset served while one is saved, up to a pass that finds a coin of an interrupted one in neither leafset |
| MwebLosses.InterruptedPass | crates/mweb/src/mweb_sync.rs:1096-1107 | a pass at a tip with leaves 0, 3 and 5 that is interrupted after leaf 3 leaves the cursor there, every other mark as it found it at its start, and the coin of leaf 3 |
| MwebLosses.FirstSyncSkipsLeaf | crates/mweb/src/mweb_sync.rs:863-876 | a first sync interrupted at a block that is then replaced: the next pass, with any peer, succeeds without one accepted reply although a leaf is new |
| MwebLosses.StaleCursorSkipsLeaf | crates/mweb/src/mweb_sync.rs:860-936 | the same after a finished sync and an outage at the replacing block |
| MwebLosses.SameTipSkipsLeaf | crates/mweb/src/lip0006.rs:52-57 | the same at one block that two peers serve with different headers and leafsets |
| MwebLosses.LateReplySkipsLeaf | crates/mweb/src/lip0006.rs:198-209 | a first pass with replies that start after the leaf asked for succeeds and saves a leaf that no reply carried |
| MwebLosses.EmptyReplySkipsLeaf | crates/mweb/src/mweb_sync.rs:1066-1071 | a first pass with empty replies succeeds and saves a leaf that no reply carried |
| MwebLosses.InterruptedCoinStays | crates/mweb/src/mweb_sync.rs:844-855 | a coin gained by an interrupted pass at a block that is then replaced stays unspent outside the saved leafset |
| MwebUtxoSyncs.DownloadAll | crates/mweb/src/lip0006.rs:267-305 | takes at most one request for each leaf; passes every leaf, or every one below a leaf that was answered with nothing; a peer that answers well causes no failure but by the number of entries |
| MwebUtxoSyncs.AllReceived | crates/mweb/src/lip0006.rs:267-316 | with a header, every leaf is received exactly if no reply was empty and each carries all leaves from the one asked for to its last |
| MwebUtxoSyncs.SeenMeansReceived | crates/mweb/src/lip0006.rs:287-291 | for true replies an output is seen exactly if its leaf was received |
| MwebUtxoSyncs.SyncUtxos | crates/mweb/src/lip0006.rs:217-324 | a coin is spent exactly if its output was not seen in this sync, whether or not its leaf is set; every unspent coin was seen, and every owned output seen is unspent |
| MwebUtxoSyncs.UnseenCoinSpent | crates/mweb/src/lip0006.rs:284-323 | a coin whose leaf is set is spent after an empty reply, and after one that starts late |

## Left out

- The pipelined fast path of `run_once` (mweb_sync.rs): the sequential loop continues from whatever index it reached.
- RPC, TCP, HTTP, Electrum and SQLite code, threads, sleeps, logging and checkpoint callbacks: input and output. Servers and peers are parameters.
- Cryptography, PMMR verification, wire types and output scanning: apart from the empty batch and the order of leaves, verification is an arbitrary verdict by request number, and ownership an arbitrary predicate on outputs. That verified replies have no gaps and hold the chain's outputs is a hypothesis where it is used (`GapFree`, `Truthful`).
- The pointer comparison `eq_ptr` is kept only as a promise that equal pointers mean equal lists; `Drop` and memory wiping have no meaning in the model.
- Block data is a hash and, for headers, the predecessor's hash. Other payload carried by a checkpoint is not modelled.
- Esplora client errors, and the debug assertion on empty latest blocks: the server function always answers.
- EsploraSync.SyncChain: proved for a server that answers consistently during one sync, as the latest blocks would otherwise contradict it.
- CanonicalMarking.BlockedMeansSelfConflicting: assumes that no transaction hashes to the null txid.
- TxGraphUpdates.TxGraph.InsertTx: assumes that a txid fixes everything but witnesses and an outpoint its output, as the source's debug assertions do; the ghost `World` stands for that.
- TxGraphUpdates.ReplayGivesUpdated: leaves out first-seen times, which the code does not replay.
- The two batch wrappers `batch_insert_unconfirmed` and `batch_insert_relevant_evicted_at`, `initial_changeset`, `map_anchors` and fee calculation of the transaction graph: repeated calls or projections of what is modelled.
- CanonicalViewTasks.ResolveView: stated for runs without assumed transactions; the positions of assumed ones are modelled, but their confirmation is not closed under ancestors.
- The debug assertion that coinbase transactions are not in the mempool queue, and the stage flag of the view task, which only repeats that its queue is empty.
- Heights at the end of the u32 range in `run_once`, where adding one to the tip height would overflow.
- Header sampling for dating: the sampled heights are an arbitrary map. The wire field for output formats is one flag.
- Transport after a failed serve round (reconnecting) and the waits between rounds.
- `median_time_past`, balances, maturity, script iterators, address, limits and discovery helpers: easy members.
- `bdk_bitcoind_rpc`: what it guarantees depends on the node.

# sgt, proved

sgt mines a git history into per-symbol edits ("touches", grouped into content-addressed ops), rebuilds
every file byte for byte from whatever set of ops is selected, and can re-key a whole op store across a
version boundary. This project models those algorithms and proves what they promise. `dafny verify
dfyconfig.toml` checks all of it.

## How it is laid out

**Mine and fold.** `Names`, `Symbols` and `Sorting` are vocabulary. `Snapshots` is one file at one commit:
raw bytes with the entities an abstract extractor found in them. `Tables` cuts it into entities, positional
gaps and "who precedes me" facts; `Mining` diffs two such tables in the loops of the source; `Rebirth` chains
re-added symbols onto the commit that closed them. `Chains` and `History` replay any history of such
differences and `Layout`, `Fold` and `Materialize` fold it back; `Lineage` states the linked-chain results for
file histories. A version is modelled by what it hashes, and replay is last writer per symbol.

`LinkFree` and `LinkFreeHistory` say when mining a file name by name is what the matcher reports, for a commit
and for a whole history.

**Through the store.** The fold reads the frontier of a reduced op set, not the last writer. `Codecs` addresses
ops by content; `Frontier` walks chains over reduced sets; `MinedOps` says what the frontier of any store that
holds a path's ops tells of a symbol, `PathOps` builds that store for any grouping of a commit's touches,
`Rooting` says when none of its ops is lost and `Surviving` which are, `ReadBack` when folding the frontier gives
the committed bytes. `Apart` is about parts of an op set that keep to themselves; with it `TreeOps` puts all paths'
ops in one store and `TreeReadBack` folds the tree from it. `Returns`, `Moved` and `Emptied` are histories that do
not read back as committed, `TwoFiles` one that does.

**Identity.** `UnionFind` and `Untangle` are the two union-finds, `Identity` the tiered matcher as a plain
search with its theorems, `Matcher` the bucket loops proved to compute that search, `Priority` which evidence
wins over which, `Reshapes` the detection of splits and merges. `Chunks` assembles ops and mines in chunks, each run resolving names by the renames it
saw itself.

**Crossing.** `BuildMap` matches old ops with re-mined ones, `Remap` rewrites artifacts, `Rewrites` has the
loops. `Disk` and `Crossing` describe the store and the writes an apply makes, `Runs` the writes in order,
`Convergence`, `Crashes`, `Safety` and `DraftWindow` what holds when any of them may be the last; `Migrate`
is the driver as it runs, with a budget of writes. `Outcomes` says what a migration leaves in each artifact.
`Order` and `Grounding` discharge what the crossing assumes about reducing an op set to an ideal, `Founded` says
what the reduction guarantees of the ops themselves.

**Views.** `Overlay` syncs a folded tree into a directory, `Rollup` counts ops up the feature tree,
`MapFold` folds the map to a screen.

Imperative code is a method over the source's own variables, proved against a function or a relation; the
theorems are about that function or relation.

## Where the code does less than its documentation says

Each of these is a theorem here, with the exact condition and a concrete input.

- Rebuilding a file byte for byte (`sgt/core/mine.py:186-193`): gaps are cut in byte order, but predecessor
  facts are recorded in order of start *line*, ties in the order the extractor lists, definitions before
  imports. A line with an import before a definition comes back swapped. `History.DocumentOrderExactlyWhen`
  gives the condition, `History.SwappedLineLosesOrder` the smallest file.
- Rebirth chaining (`sgt/core/mine.py:300-306`): an empty gap is not counted as present, so its rebirth starts a
  second chain. `Chains.LinkedExactlyWhen`, `Lineage.EmptyFileRebirthIsUnlinked`.
- Rebirth chaining re-points a birth at the commit that closed its symbol (`sgt/core/mine.py:300-313`): a gap emptied
  before its file was deleted is re-pointed at the commit that only emptied it, a removal nobody made. Its op never
  bottoms out, and a file without entities that is written again is gone. `Rooting.GroundedExactlyWhen`,
  `Emptied.EmptiedFileIsGone`.
- A deleted file is gone (`sgt/core/fold.py:150-151`): an empty gap skipped when the file flipped to whole-file
  keeps the path alive as an empty file. `History.DeletedPathMaterializesExactlyWhen`, `Lineage.DeletedPathLingers`.
  And a removal is lost with the content it removed: an opaque file that went 1, 2, 1, 3 before it was deleted is
  back, holding 1. `ReadBack.OpaqueMaterializesExactlyWhen`, `Returns.DeletedComesBack`.
- An entity without a recorded anchor "falls back to the end" (`sgt/core/fold.py:68-69`): the code places it
  with the roots; only a name whose facts do not lead to the root trails. `Layout.TrailsExactlyWhenUnrooted`,
  `Layout.UnanchoredComesFirst`.
- Incremental mining "is exact, not an approximation" (`sgt/core/mine.py:733`): a run resolves names by the
  renames of its own commits, so not across a rename. `Chunks.ChunksMakeTheWholeExactlyWhen`,
  `Chunks.RenameShowsAcrossCut`.
- Rebirth chaining keeps histories from pseudo-forking (`sgt/core/mine.py:300-306`): content that comes back to an
  old value and then changes to something new still forks, and both ops are lost: contents 1, 2, 1, 3.
  `Rooting.HistoryReducesToItselfExactlyWhen`, `Returns.ReturningContentIsLost`.
- The walk along a chain stops where it would come back to an op, "i.e. the tip has been reached"
  (`sgt/core/order.py:496-499`): with contents 1, 2, 1, 2 nothing forks and nothing is lost, but the last op is the
  second one again, the walk stops at the third, and the file reads back as 1.
  `Surviving.EntityTipExactlyWhen`, `Returns.AlternatingStopsShort`.
- A re-added entity's anchor forks "harmlessly, since nothing builds on an anchor" (`sgt/core/mine.py:313-316`): both
  births are dropped, the entity is left without a fact and is placed with the roots, before the rest if its name
  sorts first. `ReadBack.AnchorSurvivesExactlyWhen`, `Moved.MovedEntityLosesItsPlace`.
- A resumed migration reaches "the same final state" (`sgt/core/migrate.py:414`): drafts do not when the crash
  falls between re-keying the hollows and rewriting the drafts. `DraftWindow.DraftsConvergeExactlyWhenClear`,
  `DraftWindow.ExampleDiverges`.
- `dropped_refs` counts references "dropped as unmappable" (`sgt/core/migrate.py:49`): two ids that map to one
  count as a drop too. `Rewrites.ShortfallCountsDrops`, `Rewrites.MergedIdCountsAsDropped`.
- `reduce_to_ideal` returns a *maximal* ideal and `fork_free` the *largest* fork-free subset
  (`sgt/core/order.py:282`, `sgt/core/order.py:308`): not when there is a fork.
  `Order.ReduceIsMaximalExactlyWhen`, `Order.ForkFreeIsLargestExactlyWhen`, `Order.TwoBirthsLeaveNothing`.
- An overlay sync can follow any other (`sgt/api.py:2599-2607`): not when a file takes the place of a directory,
  and a sync that raised leaves files no record knows. `Overlay.ReplacingClashes` with
  `Overlay.FileOverDirectory`, `Overlay.FailedSyncLingers` with `Overlay.WrittenFileIsLeftBehind`.

## Model

| member | source | states |
|---|---|---|
| `Layout.OrderPlacesEachNameOnce` | sgt/core/fold.py:66-91 | for any anchor facts -- cycles, dead or missing predecessors -- the order lists every live name exactly once, first those whose facts lead to the root, then the rest by name |
| `Layout.OrderKeepsSubtreesTogether` | sgt/core/fold.py:66-91 | every name that reaches the root heads a contiguous block that is exactly its anchor subtree, subtrees being defined by following predecessors and not by the walk |
| `Layout.ChainIsReplayed` | sgt/core/fold.py:66-91 | when the live names' facts form a chain, the order is that chain, whatever stale facts of dead names say |
| `Layout.TrailsExactlyWhenUnrooted` | sgt/core/fold.py:66-91 | a live name falls in the trailing by-name part if and only if its facts do not lead to the root, so a name without a fact never does |
| `Layout.UnanchoredComesFirst` | sgt/core/fold.py:72 | of two names, the one without a fact comes before the one recorded as the first of the file |
| `Layout.OrderEntities` | sgt/core/fold.py:66-91 | the dictionary of children, the recursive closure and the leftovers loop compute that order, for every iteration order of the name set |
| `Fold.EachImageOnce` | sgt/core/fold.py:94-136 | for any live symbols without a whole-file one, each top-level or import image and each non-empty gap is spliced exactly once and verbatim, orphaned gaps included, and nothing else |
| `Fold.LengthIsConserved` | sgt/core/fold.py:94-136 | the folded file is as long as all its live parts together: no byte dropped, none made up |
| `Fold.FoldPath` | sgt/core/fold.py:94-136 | the loops over dictionaries with popped gaps compute the fold, for every order the symbol dictionary lists |
| `Snapshots.SortsAgree` | sgt/core/mine.py:194-217 | the sort by start line and the sort by start byte agree exactly when, among top-level entities starting on one line, the extractor listed them in byte order |
| `Tables.ResidueSegments` | sgt/core/mine.py:186-201 | the one pass over sorted entities computes the gap partition |
| `Tables.TopLevelAnchorFacts` | sgt/core/mine.py:207-217 | the one pass remembering the previous name computes who precedes whom |
| `Tables.PartitionRestoresFile` | sgt/core/mine.py:186-201 | head gap, then each top-level entity with its trailing gap, in document order, is the whole file byte for byte |
| `Tables.FactsFormChain` | sgt/core/mine.py:207-217 | the facts recorded for a file form one chain, in line order |
| `Mining.MineFile` | sgt/core/mine.py:473-667 | the per-file body -- tiers, flips, entity, gap and anchor diffs -- emits exactly the difference of the two symbol tables, one touch per symbol |
| `Mining.MineFlip` | sgt/core/mine.py:544-561 | an unparseable file closes its parent's parts, empty gaps excepted, and becomes one whole-file touch: the table difference again |
| `Mining.MineOpaque` | sgt/core/mine.py:516-539 | an opaque path is one whole-file touch, or its removal |
| `Mining.MineParsed` | sgt/core/mine.py:563-667 | a parseable file closes a whole-file parent and then diffs entities, gaps and facts: the table difference again |
| `Rebirth.ApplyRebirth` | sgt/core/mine.py:300-351 | walking a path's history newest first over a shrinking set of fresh births re-points each of them at the newest commit seen to close its symbol, and leaves every other touch alone |
| `Rebirth.MineCommit` | sgt/core/mine.py:381-716 | what one commit emits for one path, diffing and rebirth pass together, is what the chain theorems are about |
| `Chains.ReplayIsFaithful` | sgt/core/mine.py:473-667 | after any prefix of a history the replayed state holds every entry of the current table as it is, and of everything else only removals, anchors and empty gaps |
| `Chains.LookbackFindsCleanExit` | sgt/core/mine.py:300-351 | the rebirth lookback finds a symbol's last exit exactly when that exit was by a non-bookkeeping commit and not as an empty gap |
| `Chains.LinkedExactlyWhen` | sgt/core/mine.py:300-351 | a touch builds on the symbol's previous touch exactly when the symbol was in the file just before, was never there, or last left in a way the lookback recognizes |
| `Chains.EntityChainsAreLinked` | sgt/core/mine.py:300-351 | without bookkeeping commits every touch of an entity or whole-file symbol is linked, and a rebirth builds on the salted bottom its closing commit really emitted |
| `Chains.StateRemembersExit` | sgt/core/mine.py:516-587 | while a symbol is away, the replayed state remembers precisely the last time it left |
| `Lineage.TouchesFormOneChain` | sgt/core/mine.py:300-351 | over any valid file history, each touch of an entity or whole-file symbol has the after-version of that symbol's previous touch as its before-version |
| `Lineage.FirstTouchIsABirth` | sgt/core/mine.py:300-351 | the first touch of such a symbol has no before-version |
| `Lineage.EmptyFileRebirthIsUnlinked` | sgt/core/mine.py:293-297 | an empty file added, deleted and added again: the head gap's second birth is not linked to its first |
| `History.FoldAtEveryCommit` | sgt/core/mine.py:473-667 | after any history of edits, insertions, deletions, re-adds and flips, folding the replayed touches gives the commit's bytes for a whole-file representation and, for a parsed one, its parts in recorded line order |
| `History.RoundTrip` | sgt/core/mine.py:473-667 | mine each commit against its parent alone, replay, fold: exactly the committed bytes, wherever no line holds top-level entities listed out of byte order |
| `History.DocumentOrderExactlyWhen` | sgt/core/mine.py:194-217 | the fold places a parsed file's entities in document order if and only if no line holds top-level entities listed out of byte order |
| `History.SwappedLineLosesOrder` | sgt/core/mine.py:194-217 | a line holding an import before a definition folds to its bytes swapped: a two-byte history |
| `LinkFree.MineFollowsMatchExactlyWhen` | sgt/core/mine.py:575-605 | diffing a file name by name touches exactly the entities the matcher reports as modified, added or removed, each as reported, if and only if the matcher links nothing |
| `LinkFreeHistory.LinkFreeRoundTrip` | sgt/core/mine.py:575-605 | over a whole history whose every match links nothing, replaying the touches the source takes from the matcher's reports, rebirth-chained, and folding gives the committed bytes at every commit where no line hides a swap |
| `LinkFreeHistory.LinkFreeLinked` | sgt/core/mine.py:575-605 | where no commit is bookkeeping, every touch of an entity or whole file emitted along such a history builds on the version the symbol's last emitted touch left, or on nothing when there was none |
| `LinkFreeHistory.LinkFreeChains` | sgt/core/mine.py:575-605 | so two consecutive emitted touches of such a symbol are linked: the later one's before-version is the earlier one's after-version |
| `History.OneRepresentation` | sgt/core/mine.py:236-251 | a live whole-file symbol excludes every live entity and every live gap with bytes, and a file represented by parts has no live whole-file symbol, whatever flips came before |
| `History.DeletedPathMaterializesExactlyWhen` | sgt/core/mine.py:249-251 | a path without a file still materializes, as an empty file, if and only if an empty gap was skipped by a flip to whole-file the last time it left |
| `Lineage.DeletedPathLingers` | sgt/core/mine.py:249-251 | an empty file that stops parsing and is then deleted still materializes, as an empty file |
| `Materialize.CodeOf` | sgt/core/fold.py:139-169 | gathering live symbols by path and folding those with content gives exactly the covered paths (within the wanted ones), each with its fold, in any iteration order |
| `Materialize.CoverPaths` | sgt/core/ideal.py:47-61 | the accumulating pass collects exactly the paths with a live content-bearing symbol: the paths `code` emits |
| `Materialize.TreeRoundTrip` | sgt/core/fold.py:139-169 | after every commit the folded tree of a whole repository has exactly the tracked files, plus the paths where an empty gap lingers as empty files, each with its own bytes wherever no line hides a swap |
| `UnionFind.RenameForest.constructor` | sgt/core/mine.py:48-49 | an empty forest |
| `UnionFind.RenameForest.Add` | sgt/core/mine.py:51-52 | a new name is its own root; a known one changes nothing |
| `UnionFind.RenameForest.Find` | sgt/core/mine.py:54-61 | returns the root; path compression keeps the forest acyclic and changes no name's root |
| `UnionFind.RenameForest.Union` | sgt/core/mine.py:63-68 | every name of the newer side's class takes the root of the older side, and no other name moves |
| `UnionFind.RenameForest.UnionAll` | sgt/core/mine.py:593-679 | the renames of a commit, one union each, leave the roots those renames determine |
| `UnionFind.RootsAreCanon` | sgt/core/mine.py:44-68 | after any renames, finding a name gives what the renames say in order: each sends the newer name's class where the older one's goes |
| `UnionFind.CanonIsCoarser` | sgt/core/mine.py:44-68 | knowing more renames only moves whole classes: names some renames make one stay one |
| `UnionFind.RenamesResolveToFirst` | sgt/core/mine.py:63-68 | along any chain of renames, revisited names included, every name resolves to the root the first one had |
| `Untangle.FindHalving` | sgt/core/mine.py:362-366 | path halving terminates and preserves every root |
| `Untangle.RootsAreComponents` | sgt/core/mine.py:354-375 | two touched ids share a root exactly when a chain of edges with both ends touched connects them, whatever the order of the edges |
| `Untangle.UntangleTouched` | sgt/core/mine.py:354-378 | the groups are exactly the connected components, each once, ordered by smallest member |
| `Untangle.UntanglingIsUnique` | sgt/core/mine.py:378 | there is only one such list, so neither edge order nor set iteration can show |
| `Chunks.BuildOps` | sgt/core/mine.py:805-853 | grouping by bucket and folding each group is one op per bucket in order of first appearance |
| `Chunks.EveryTouchLands` | sgt/core/mine.py:805-853 | each touch lands in exactly one op, under its resolved name |
| `Chunks.KindsMean` | sgt/core/mine.py:830-837 | all five kinds, over the touches: a move iff one moved and none is a birth or a removal; a prune iff all remove; an add iff all are births and one leaves something; an extend iff some but not all are births and one leaves something; a rework iff none is a birth and it is neither prune nor move |
| `Chunks.PlainEditIsRework` | sgt/core/mine.py:841 | one touch from version 1 to version 2, alone in its bucket, makes one rework |
| `Chunks.OpHoldsLast` | sgt/core/mine.py:819-826 | an op touches exactly the names its bucket's touches resolve to, and of each has the versions and the image of the last such touch |
| `Chunks.OpNeeds` | sgt/core/mine.py:827-833 | it requires exactly what its touches require, resolved, except on names it touches |
| `Chunks.OpComesFrom` | sgt/core/mine.py:811-850 | its provenance is its commit unless some touch of it is uncommitted, and it is derived iff some touch is |
| `Chunks.BucketFirstSeen` | sgt/core/mine.py:806-810 | ops come in the order in which the touches first name their buckets |
| `Chunks.Mine` | sgt/core/mine.py:762-802 | a run, its own union-find filled as it goes, mines exactly the commits up to the one in flight when the deadline passed, reports the last of them, and takes in uncommitted changes only if time was left; every name is resolved by all the renames of that run |
| `Chunks.OpShows` | sgt/core/mine.py:805-853 | a run that knows more renames makes the same op of a bucket if and only if it resolves every touched and every needed name of it alike |
| `Chunks.ChunksMakeTheWholeExactlyWhen` | sgt/core/mine.py:762-853 | however a history is cut into chunks, each mined by a run that knows only its own renames, the op lists join up to that of a single run if and only if every name touched or needed in a chunk resolves there as in the single run |
| `Chunks.LinkFreeChunksMakeTheWhole` | sgt/core/mine.py:762-853 | so they do whenever no commit renames anything |
| `Chunks.RenameShowsAcrossCut` | sgt/core/mine.py:823-827 | a rename in one chunk and a touch of the new name in the next are never mined as a single run would |
| `Identity.NeverLinkBindsBothWays` | sgt/core/identity.py:73-74 | a never-link pair forbids the link whichever way round it was written |
| `Identity.PickIsBest` | sgt/core/identity.py:167-212 | no eligible candidate is refused; a hash tier takes the first and the fuzzy tier the first of the best |
| `Identity.Maximal` | sgt/core/identity.py:157-218 | when the passes end, no tier would link any allowed pair still unmatched on both sides: shared content hash, shared structural hash, or same kind, size within a factor of two and Jaccard at least 4/5 |
| `Identity.LinksAreEarned` | sgt/core/identity.py:126-218 | links are one to one; each unforced one joins the two sides on some tier's evidence, is not forbidden and does not join two different imports; each forced one was asked for |
| `Identity.ForcedFirst` | sgt/core/identity.py:77-96 | after the forced pass at least one end of every forced pair that has both ends is taken, so no heuristic can pair both ends elsewhere |
| `Matcher.ForcedLinks` | sgt/core/identity.py:77-96 | the dictionary-driven loop computes the forced pass, in whatever order the pairs come |
| `Matcher.HashPass` | sgt/core/identity.py:160-187 | popping the first allowed entry from hash buckets computes the search of the whole older side |
| `Matcher.FuzzyPass` | sgt/core/identity.py:189-216 | scanning same-kind candidates for a strictly better score computes the search of the whole older side |
| `Matcher.LinkPass` | sgt/core/identity.py:133-218 | forced, content, structure and fuzzy passes together compute the greedy search |
| `Priority.AllowedExactlyWhen` | sgt/core/identity.py:126-179 | a pair may link iff no correction forbids it, written either way round, and neither id names an import unless both are one id |
| `Priority.SimilarExactlyWhen` | sgt/core/identity.py:200-212 | the last tier takes a pair iff the kinds agree, neither has more than twice the other's tokens, and at least four fifths of all their tokens are shared, of which there are some: in whole numbers |
| `Priority.RequestFirst` | sgt/core/identity.py:77-96 | of a forced pair with both its ends, one is taken at the start or by a pair that was asked for, never only by a likeness |
| `Priority.BodyFirst` | sgt/core/identity.py:157-187 | of two entities that may link and have one body, one ends up taken at the start, by request or on an equal body: never are both left to a structural or a similar partner |
| `Priority.ShapeNext` | sgt/core/identity.py:157-216 | of two that may link and have one structure, one is taken at the start, by request, or on an equal body or structure, before similar tokens are looked at |
| `Priority.SoleBodyLinks` | sgt/core/identity.py:231-253 | an entity renamed with its body untouched, the body being the only copy on either side, is linked to its new name whatever else resembles it |
| `Priority.CopyBeatsLikeness` | sgt/core/identity.py:157-216 | a look-alike listed first and a copy listed last: the copy is the new name |
| `Matcher.MatchPair` | sgt/core/identity.py:231-253 | surface matches, links, additions and removals are those of the search |
| `Matcher.LinkResidual` | sgt/core/identity.py:256-267 | the same passes over a commit's leftovers, with nothing matched at the start |
| `Matcher.MatchPartitions` | sgt/core/identity.py:231-253 | each older entity keeps its id, is linked from or is removed, exactly one of the three; each newer one kept its id, is linked to or is added; links are one to one |
| `Matcher.NoMissedLink` | sgt/core/identity.py:231-253 | no removal and addition remain that may link and that any tier would accept |
| `Reshapes.DetectSplitsMerges` | sgt/core/identity.py:275-327 | each split and merge groups at least two bodies of one file mostly contained in the whole and mostly covering it; nothing is consumed twice; no leftover could still be split or merged into |
| `Reshapes.MostlyExactlyWhen` | sgt/core/identity.py:270-272 | mostly contained: at least three fifths of the tokens, of which there are some, in whole numbers |
| `Reshapes.ConsumedOnce` | sgt/core/identity.py:298-325 | no two reshapes share a whole or a part |
| `Reshapes.StaysImpossible` | sgt/core/identity.py:301-325 | using entities up never makes another reshape possible, so one greedy pass is enough |
| `BuildMap.FrontierBindsOnlySole` | sgt/core/migrate.py:117-132 | an op whose re-hash was not re-mined is bound exactly when one list entry alone has its after-set, then to that entry, and is orphaned otherwise |
| `BuildMap.EveryOpAccounted` | sgt/core/migrate.py:117-133 | clean plus remapped are the mapped ops; mapped plus orphaned are all |
| `BuildMap.MappingEntries` | sgt/core/migrate.py:117-133 | mapped ids and orphans partition the pre-v3 ids, each mapped to what its rung says |
| `BuildMap.MappingTargets` | sgt/core/migrate.py:117-133 | only pre-v3 ids are mapped, and only to re-mined ones |
| `BuildMap.AftersetForgetsSalts` | sgt/core/migrate.py:84-92 | ops have the same after-set exactly when they touch the same symbols and leave each the same version, whichever commit a removal is salted with |
| `BuildMap.Build` | sgt/core/migrate.py:107-133 | the two loops with their `ambiguous` set and counters compute that map, its orphans in order and both counts |
| `Outcomes.PlanOutcome` | sgt/core/migrate.py:136-156 | a fresh plan, id by id: a v3 op is no business of it, an older one goes to its re-hash if that was re-mined, else to the one re-mined op with its after-set, else is an orphan; the current ref and its recovered ideal are as given |
| `Outcomes.TableOutcome` | sgt/core/migrate.py:167-181 | after an apply the current ref has the recovered ideal, every other ref is in order and holds just what the counterparts of its old ids reduce to, and there is no other ref |
| `Outcomes.JournalOutcome` | sgt/core/migrate.py:184-197 | every journal entry's ideal likewise, its witness kept, no entry lost or added |
| `Outcomes.StagedOutcome` | sgt/core/migrate.py:230-238 | the staged candidate likewise |
| `Outcomes.TableHolds` | sgt/core/migrate.py:167-181 | every other ref has counterparts of its old ids alone, and where those are an ideal all of them, so that no id with a counterpart is lost |
| `Outcomes.JournalHolds` | sgt/core/migrate.py:184-197 | so has every journal entry |
| `Outcomes.StagedHolds` | sgt/core/migrate.py:230-238 | and the staged candidate |
| `Outcomes.ForksOutcome` | sgt/core/migrate.py:200-213 | open forks after an apply are exactly the old ones both of whose tips have counterparts, under those, in order |
| `Outcomes.OrSetOutcome` | sgt/core/migrate.py:216-227 | declared edges after an apply are exactly the old ones both of whose ends have counterparts, under those and their tags, and every tombstone is there |
| `Outcomes.ProposalsOutcome` | sgt/core/migrate.py:282-297 | each proposal is there with its id lists mapped and in order, all else kept, and no other |
| `Outcomes.DraftsOutcome` | sgt/core/migrate.py:241-263 | each draft is there, hollows under their new ids and id lists mapped in place, all else kept, and no other |
| `Outcomes.OpsOutcome` | sgt/core/migrate.py:300-313 | the store holds exactly the re-mined ops, each as filed or else as mined, with the provenance it had and all it was re-mined from |
| `Outcomes.HollowsOutcome` | sgt/core/migrate.py:266-279 | every re-hash of a hollow is filed and nothing else is; each is current and has the body and re-hash of the greatest stale hollow re-keyed to it, or of the one that was there when there is none |
| `Remap.FullMapFixes` | sgt/core/migrate.py:316-323 | the full map is idempotent and lands in v3 ids, when no pre-v3 id is a v3 id |
| `Remap.BareMapForgets` | sgt/core/migrate.py:316-323 | without the identity part a second rewrite would drop every id the first one wrote |
| `Remap.RemapTableAgain` | sgt/core/migrate.py:167-181 | rewriting the ideal table twice is rewriting it once |
| `Remap.RemapJournalAgain` | sgt/core/migrate.py:184-197 | likewise the journal |
| `Remap.JournalIsKeptExactlyWhen` | sgt/core/migrate.py:184-197 | a whole journal comes through the rewrite unchanged if and only if every entry held nothing but an ideal and a witness, and the ideal was sorted, of v3 ids alone and reduced already |
| `Remap.RemapForksAgain` | sgt/core/migrate.py:200-213 | likewise the open forks, dropped records and re-sorting included |
| `Remap.SavedOrSetAgain` | sgt/core/migrate.py:216-227 | likewise the declared-edge OR-Set, as saved through sets |
| `Remap.RemapStagedAgain` | sgt/core/migrate.py:230-238 | likewise the staged candidate |
| `Remap.RemapProposalAgain` | sgt/core/migrate.py:282-297 | likewise each proposal |
| `Remap.RemapDraftsAgain` | sgt/core/migrate.py:241-260 | likewise the drafts, for a second hollow map that renames nothing the first left |
| `Rewrites.RewriteTable` | sgt/core/migrate.py:167-181 | the loop computes the rewritten ideal table |
| `Rewrites.RewriteJournal` | sgt/core/migrate.py:184-197 | the nested loops compute the rewritten journal |
| `Rewrites.RewriteForks` | sgt/core/migrate.py:200-213 | the loop computes the rewritten forks and counts exactly the records dropped |
| `Rewrites.RewriteOrSet` | sgt/core/migrate.py:216-227 | the loop computes the rewritten OR-Set and counts exactly the adds dropped |
| `Rewrites.RewriteDrafts` | sgt/core/migrate.py:241-260 | the loop computes the rewritten drafts |
| `Rewrites.MergedIdCountsAsDropped` | sgt/core/migrate.py:178 | two ids that map to one: none is unmappable, and one is reported as dropped |
| `Rewrites.ShortfallCountsDrops` | sgt/core/migrate.py:178 | the reported drop count of an id list is its number of unmappable ids if and only if the map merges no two of its ids; otherwise it is larger |
| `Crossing.GoodKeepsOutcome` | sgt/core/migrate.py:326-400 | no write the crossing makes, in whatever state it makes it, changes where an uninterrupted apply would end, drafts aside |
| `Runs.HollowPhase` | sgt/core/migrate.py:266-279 | re-keying one stale hollow after another, new file first and old file removed after, ends with none stale |
| `Runs.PrunePhase` | sgt/core/migrate.py:305-313 | pruning removes exactly the files that are not v3 and leaves everything else in place |
| `Crashes.ApplyReachesOutcome` | sgt/core/migrate.py:409-466 | an apply nobody interrupts leaves exactly the planned store: v3 ops with merged provenance, every artifact rewritten, no manifest |
| `Crashes.CrashesConverge` | sgt/core/migrate.py:409-466 | any number of applies, each cut short between any two writes, followed by one that completes, leave the op store, hollow store, ideal table, journal, forks, OR-Set, staged candidate and proposals of a single uninterrupted apply |
| `Crashes.FinishedIsLeftAlone` | sgt/core/migrate.py:440-448 | after a completed apply another one writes nothing |
| `Safety.EveryStateIsSafe` | sgt/core/migrate.py:300-406 | in every state any sequence of applies can stop in: without a manifest the store is as found or exactly the v3 ops, and once any op file found there is gone every v3 op is filed and every rewritten artifact saved |
| `DraftWindow.DraftsConvergeExactlyWhenClear` | sgt/core/migrate.py:383-395 | everything, drafts included, converges whatever crashes happen if and only if no draft names a hollow that has yet to be re-keyed |
| `DraftWindow.ExampleDiverges` | sgt/core/migrate.py:383-395 | one pre-v3 op and one draft naming a stale hollow: a valid store on which a crash in the window loses the hollow map |
| `DraftWindow.WindowDiverges` | sgt/core/migrate.py:383-395 | otherwise a crash between re-keying and the drafts rewrite leaves drafts an uninterrupted apply would not have |
| `Migrate.Repo.Perform` | sgt/state.py:35-52 | one file operation happens whole or not at all |
| `Migrate.Repo.RekeyHollows` | sgt/core/migrate.py:266-279 | iterating a snapshot of the directory makes exactly the re-keying writes and returns the full hollow map |
| `Migrate.Repo.Execute` | sgt/core/migrate.py:326-406 | the phases in order make exactly the specified writes, or as many of them as happen before the crash |
| `Migrate.Repo.Apply` | sgt/core/migrate.py:409-466 | resume from the manifest, or plan afresh, or stop: exactly the writes of the program, or a prefix of them |
| `Migrate.RanIsCut` | sgt/core/migrate.py:409-466 | what an apply leaves is the prefix state the crash theorems quantify over, and the outcome when it completes |
| `Order.GroundedIsGrounding` | sgt/core/order.py:393-412 | the grounded ops are the least set closed under `all needs produced` |
| `Order.GroundedIsStable` | sgt/core/order.py:393-412 | what bottoms out still does on its own |
| `Grounding.Ground` | sgt/core/order.py:416-464 | the worklist with indegree counts computes exactly that set, each op once, whatever the iteration orders |
| `Order.ReadyExactlyWhen` | sgt/core/order.py:403-440 | an op is ready over a set iff each version it changes and each it requires was left by an op of the set and each op declared before it is in the set |
| `Founded.GroundedExactlyWhenFounded` | sgt/core/order.py:403-467 | an op bottoms out within a set iff it is in a part of it that can be ranked so that every version changed, every version required and every op declared before comes from strictly below |
| `Founded.DeclaredIsKept` | sgt/core/order.py:281-351 | an op declared to come before a kept one is kept |
| `Founded.ChangedIsKept` | sgt/core/order.py:281-351 | the version a kept op changes was left by a kept op |
| `Founded.RequiredIsKept` | sgt/core/order.py:281-351 | and so was every version it requires |
| `Founded.StepIsOnlyKept` | sgt/core/order.py:281-351 | no two kept ops change a symbol from one version |
| `Founded.DeclaredEdgeHolds` | sgt/core/order.py:418-439 | two births of two symbols, the second alone in the set: declared to follow the first it goes, undeclared it stays |
| `Order.ReduceIsIdeal` | sgt/core/order.py:281-351 | whatever set is reduced, the result is grounded and fork-free |
| `Order.IdealIsKept` | sgt/core/order.py:307-351 | an ideal reduces to itself |
| `Order.ReductionIsLawful` | sgt/core/order.py:307-351 | so reduction returns a subset and is idempotent, which is all the crossing assumes of it |
| `Order.ReduceIsMaximalExactlyWhen` | sgt/core/order.py:307-320 | the result is a maximal ideal of the input if and only if what bottoms out there has no fork |
| `Order.ForkFreeIsLargestExactlyWhen` | sgt/core/order.py:281-304 | taking forks out of a downward-closed set leaves an ideal, and the largest one in it if and only if there was no fork to take out |
| `Order.TwoBirthsLeaveNothing` | sgt/core/order.py:281-304 | two births of one symbol reduce to nothing, though either alone is an ideal |
| `Codecs.PlainIsCodec` | sgt/core/op.py:185-207 | a content address one can point at: the canonical text of an op, symbols sorted, is the same for two ops exactly when their content is |
| `PathOps.IdsAreContent` | sgt/core/op.py:185-207 | two commits' edits get one op id if and only if they change the same symbols from the same versions to the same versions and require the same: a change made again is the op that is there already |
| `PathOps.UngroupedFollows` | sgt/core/order.py:281-567 | however a commit's entities are grouped, gaps, anchors and whole files are in ops of their own, so what the frontier says of one is where its own touches lead from birth |
| `Frontier.KeptExactlyWhen` | sgt/core/order.py:281-351 | an op survives the reduction if and only if it bottoms out, no other op that does changes a symbol of its from the same version, and all it changes, requires and is declared to follow survives |
| `Frontier.ReducedHasBirth` | sgt/core/order.py:511-524 | a reduced set that touches a symbol holds a birth of it, so the walk always has its head and never falls back on the middle of a chain |
| `Frontier.ChainStops` | sgt/core/order.py:492-567 | along a chain of ops the frontier stops before the first that is lost or occurs again, whatever was written later |
| `Frontier.KeptStops` | sgt/core/order.py:492-567 | the tip of any symbol is where the walk over the kept ops first finds nothing to go on with or a version it has left before |
| `Frontier.SoloStops` | sgt/core/order.py:281-567 | where a symbol's ops stand alone, reducing and walking is one walk over all that was mined: it stops at nothing to go on with, at two ways to go on, or at a version it has left before |
| `MinedOps.FrontierFollowsKept` | sgt/core/order.py:492-567 | in any store that holds a path's mined ops, beside whatever else, what the frontier says of a symbol is where its kept touches lead from birth |
| `MinedOps.FrontierFollowsMined` | sgt/core/order.py:281-567 | for a symbol in ops of its own that is read off its touches, lost or not: follow them from birth, up to two different ones from one version or a version left before |
| `MinedOps.FrontierStopsAtFirstLost` | sgt/core/order.py:281-567 | for a symbol whose touches are linked the frontier has what replaying gives up to the first commit whose op is lost or occurred before |
| `MinedOps.TipIsReplayExactlyWhen` | sgt/core/order.py:492-567 | so the tip leaves the version the last writer left if and only if what came after that commit brought the symbol back to where it was |
| `MinedOps.AllLinkedExactlyWhen` | sgt/core/mine.py:300-351 | every touch of a history is linked exactly when every symbol that came back had left in a way the lookback recognizes |
| `Rooting.GroundedExactlyWhen` | sgt/core/order.py:322-351 | all ops of a path's history bottom out if and only if no touch was chained onto the removal of a symbol at a commit that left it in the file, an emptied gap |
| `Rooting.HistoryReducesToItselfExactlyWhen` | sgt/core/order.py:281-351 | the ops of any path's history, however its entities are grouped, reduce to themselves if and only if besides that no two different ops change one symbol from one version |
| `Rooting.EntitiesAreGrounded` | sgt/core/order.py:322-351 | the op of every touch of an entity or whole file bottoms out, whatever becomes of gaps |
| `Surviving.ReducedIsSurviving` | sgt/core/order.py:281-351 | the reduction of a path's ops, read off its history: what survives is, of the content that rests on something down to births, that which has no rival, as far as it rests on its like; neither names nor ids come into it |
| `Surviving.SurvivesExactlyWhen` | sgt/core/order.py:281-351 | an op survives if and only if it rests on something down to births, no other that does changes one of its symbols from the same version, and all it builds on or requires is left by a survivor |
| `Surviving.EntitySurvivesExactlyWhen` | sgt/core/order.py:281-351 | for the op of an entity or whole file the first holds always, and any rival counts: it is lost only to a rival or with what it needs |
| `Surviving.EntityTipExactlyWhen` | sgt/core/order.py:281-567 | of an entity or whole file, in any history without bookkeeping commits and however entities are grouped, the frontier has what replaying gives up to the first touch whose op does not survive or was there before, read off touches and cuts; that is the last writer's version if and only if what came after brought the symbol back to it |
| `ReadBack.HoldsBytesExactlyWhen` | sgt/core/fold.py:139-169 | of a parsed file the frontier has the entities, their images and the gaps if and only if every tip but an anchor's shows what the file's table asks for, nested entities and empty gaps being free |
| `ReadBack.HoldsPartsExactlyWhen` | sgt/core/fold.py:139-169 | and its facts as well, that is all its parts, if and only if every tip does |
| `ReadBack.FrontierFoldsBack` | sgt/core/fold.py:139-169 | then folding the frontier gives the parts in recorded line order, and the committed bytes wherever no line hides a swap; for a whole-file representation, the bytes |
| `ReadBack.MinedFoldsBack` | sgt/core/fold.py:139-169 | the same from what was mined: it suffices that what each symbol's touches lead to shows the file |
| `ReadBack.FrontierIsReplayExactlyWhen` | sgt/core/order.py:539-567 | any store that holds a path's ops reads back as replaying does, live symbol by live symbol, if and only if of every symbol the tip and the last writer leave the same version, or both nothing |
| `ReadBack.LinkedOnceIsReplay` | sgt/core/order.py:539-567 | as they do in a history in which every touch is linked and no symbol is changed twice from one version, however its entities are grouped |
| `ReadBack.RoundTripThroughStore` | sgt/core/fold.py:139-169 | wherever tips and last writers agree so, mining, reducing the store and folding the frontier gives exactly the committed bytes |
| `ReadBack.AnchorSurvivesExactlyWhen` | sgt/core/mine.py:313-316 | an anchor has a tip if and only if its entity came into the file, and every time behind the same entity; put back elsewhere it loses its fact |
| `ReadBack.OpaqueFoldsBackExactlyWhen` | sgt/core/fold.py:139-169 | an opaque file reads back as committed if and only if following its contents from the first leads to those bytes, or it is empty and they lead nowhere |
| `ReadBack.OpaqueMaterializesExactlyWhen` | sgt/core/fold.py:139-169 | whether or not the last commit has it, an opaque path materializes if and only if following its contents from the first leads to something |
| `Returns.ContentsReduceExactlyWhen` | sgt/core/order.py:281-351 | the ops of an opaque file's contents reduce to themselves if and only if no content is followed by two different ones |
| `Returns.AlternatingStopsShort` | sgt/core/order.py:492-536 | contents 1, 2, 1, 2: no op is lost, yet the file reads back as 1 where the last commit holds 2 |
| `Returns.ReturningContentIsLost` | sgt/core/order.py:281-304 | contents 1, 2, 1, 3: two different ops start from 1 and are lost, and the file reads back as 1 where the last commit holds 3 |
| `Returns.DeletedComesBack` | sgt/core/order.py:281-304 | contents 1, 2, 1, 3, then the file is deleted: the removal is lost with the content it removed, and the path is back holding 1, though replaying gives none |
| `Moved.MovedEntityLosesItsPlace` | sgt/core/fold.py:66-91 | for any three one-byte entities, the last taken out and put back between the others: replaying gives the committed order, reading back through the store puts it first |
| `Moved.MovedExample` | sgt/core/fold.py:66-91 | in letters: M, N, D becomes M, D, N and reads back as D, N, M |
| `Emptied.EmptiedFileIsGone` | sgt/core/mine.py:293-351 | for any bytes: a file without entities that is emptied, deleted and written again is chained onto the emptying, which removed nothing; its op is lost and the path does not even materialize, though replaying gives its bytes |
| `TreeReadBack.TreePathsExactlyWhen` | sgt/core/fold.py:139-169 | with one store for all paths, the folded tree has exactly the paths with a content-bearing symbol whose tip leaves something, each folded from its own live symbols |
| `TreeReadBack.TreeReadsBack` | sgt/core/fold.py:139-169 | a path whose file the frontier shows is in it with the committed bytes, whatever the other paths' ops do; only an empty file may be missing |
| `Apart.ReducedApart` | sgt/core/order.py:281-351 | a part of an op set whose needs only it produces, and whose steps nothing outside it claims, is reduced as if it were alone |
| `TreeOps.UnionHoldsTree` | sgt/core/mine.py:421-427 | the ops of all paths' histories, symbols written under their path, make one store that holds every path's ops, however many files a commit touches and however each path's entities are grouped |
| `TreeOps.EveryTreeIsHeld` | sgt/core/mine.py:421-427 | so there is such a store for every valid repository |
| `TreeOps.UnionIsAlone` | sgt/core/mine.py:421-427 | in it a symbol that has ops of its own among its path's still has: what a commit did to other files is in other ops |
| `TreeOps.TipIsOwn` | sgt/core/order.py:281-567 | and the frontier says of every symbol what its path's ops alone would say, so what holds of a path holds of it in a tree |
| `TreeOps.TreeIsItsPaths` | sgt/core/fold.py:139-169 | the folded tree is, path by path, what each path's ops alone fold to |
| `TreeOps.TreeRoundTripThroughStore` | sgt/core/fold.py:139-169 | a path of which tips and last writers agree is in the folded tree exactly when it is in the replayed one, with the same bytes, whatever becomes of the others |
| `TreeOps.OpaqueInTree` | sgt/core/fold.py:139-169 | an opaque path is in the folded tree if and only if following its contents from the first leads to something, and then with those bytes, whether or not the last commit has it |
| `TwoFiles.BothReadBack` | sgt/core/fold.py:139-169 | two opaque files written by one commit, their bytes alike or not: the store holds both and folds to both |
| `Overlay.Directory.Sync` | sgt/api.py:2619-2655 | a sync that goes through leaves exactly the old files less the recorded ones that left the fold, overlaid with the fold, and the directories rule of Collected; one that raises leaves the record, every file as it was or as the fold has it, every directory there was, and at most directories above the fold's files besides; it goes through exactly when nothing clashes |
| `Overlay.Directory.Prune` | sgt/api.py:2561-2586 | deletes exactly the stale paths that are files, then collects emptied directories: only directories above a deleted path go, and every one that stays holds something |
| `Overlay.Directory.Climb` | sgt/api.py:2578-2585 | one climb restores the rule for every path handled so far |
| `Overlay.CollectedIsUnique` | sgt/api.py:2577-2585 | that rule determines the directories left, so deletion order cannot show |
| `Overlay.RemovedWereEmpty` | sgt/api.py:2582 | nothing kept lies below a directory that was removed |
| `Overlay.SyncsAreScoped` | sgt/api.py:2619-2655 | after any sequence of syncs, paths no fold ever named are untouched, and of those any fold named exactly the last fold is there |
| `Overlay.ReplacingClashes` | sgt/api.py:2631-2645 | a fold in which a file takes the place of a directory, or the reverse, cannot be synced over one that had the other, because writing precedes deleting |
| `Overlay.FailedSyncLingers` | sgt/api.py:2627-2648 | after a sync that raised part-way, the next one is exact if and only if all that was written is in the next fold or was on the old record |
| `Overlay.FileOverDirectory` | sgt/api.py:2631-2645 | a directory with one file in it, and a fold in which that directory is a file |
| `Overlay.WrittenFileIsLeftBehind` | sgt/api.py:2627-2648 | a fold of two files whose second cannot be written: the first is written, and the next sync leaves it behind |
| `Rollup.LeafOpCount` | sgt/api.py:1258-1260 | the loop counts the ops assigned to each node |
| `Rollup.CountsOpsBelow` | sgt/api.py:1269-1276 | with acyclic parents the rollup terminates, and a node's count is the number of ops whose canonical leaf has the node on its chain of parents |
| `Rollup.RootsCountEveryOpOnce` | sgt/api.py:1269-1276 | summed over the parentless nodes, every op on a canonical leaf is counted exactly once, however many subsystems list the leaf |
| `MapFold.DefaultCollapsed` | sgt/cli/inspect.py:363-399 | folding largest first is optimal: it fits the row budget with the fewest folds any choice could, and folds everything only when no smaller choice fits |
| `MapFold.FewestDraws` | sgt/cli/inspect.py:363-399 | where no child is listed twice, the rows counted are the rows drawn: the choice leaves at most 24 drawn with the fewest folds, if any choice does, and is all of them otherwise |
| `MapFold.FoldsHide` | sgt/cli/inspect.py:383-398 | what folds are said to save is how many rows they hide |
| `MapFold.ListedTwiceSavesTwo` | sgt/cli/inspect.py:390-392 | a child listed twice is counted twice and hidden once |
| `MapFold.LargestSaveMost` | sgt/cli/inspect.py:390-398 | no set of subsystems hides more rows than as many of the largest |

## Left out

- History.RoundTrip: last-writer replay of link-free commits of one linear history with a fixed tier; what the
  frontier of the reduced store reads instead, and when that is the same, is `ReadBack.FrontierFoldsBack`,
  `ReadBack.MinedFoldsBack` and `ReadBack.RoundTripThroughStore`. Byte fidelity across renames and cross-file moves
  is not claimed: the code keeps a renamed entity under its old name but keys its gap under the new one
  (`sgt/core/mine.py:610`). `LinkFreeHistory.LinkFreeRoundTrip` takes the touches from the matcher's reports.
- History.FoldAtEveryCommit: the fold of the replay, not of the frontier, as for `History.RoundTrip`.
- LinkFreeHistory.LinkFreeRoundTrip: the fold of the replay as well. What is emitted is what the history theorems
  speak of, touch by touch, so `ReadBack.RoundTripThroughStore` says when the store gives the same.
- Materialize.TreeRoundTrip: the fold of every path's replay; through one store for all paths it is
  `TreeReadBack.TreeReadsBack`, and `TreeOps.TreeRoundTripThroughStore` says when it is the same.
- Lineage.TouchesFormOneChain: entities and whole files without bookkeeping commits; for every symbol and every
  history `Chains.LinkedExactlyWhen` says exactly when a touch is linked.
- Mining.MineFile: states the touches as a map from symbols with one touch each, not the order in which the
  source's two lists emit them; `requires` pins and the `derived` flag of a touch are not modelled there.
- Chains.EntityChainsAreLinked: says linked, not fork-free. Content that returns to an old value reuses that
  value's version, so two touches can share a before-version: `Rooting.HistoryReducesToItselfExactlyWhen` and
  `Surviving.EntityTipExactlyWhen` say what that costs.
- Matcher.MatchPair: asks for distinct ids on the older side, as an extracted file has; with repeated ids a
  bucket could hand out an id already matched.
- Identity.Maximal: real-number Jaccard and size ratio in place of floats; the thresholds are 0.8 and 0.5.
- Chunks.ChunksMakeTheWholeExactlyWhen: takes what mining a commit emits as given per commit, so paths renamed out
  of `.sgt/`, which only one call remembers, are outside it.
- Crashes.CrashesConverge: leaves the drafts to `DraftWindow.DraftsConvergeExactlyWhenClear`, which is exact.
- Remap.RemapJournalAgain: proves idempotence; what is in a rewritten entry is `Outcomes.JournalOutcome`. The rewrite
  keeps only `ideal` and `witness` (`Remap.JournalIsKeptExactlyWhen`).
- Overlay.Directory.Sync: paths are plain names joined by `/`, without symlinks and without `..`; the record is
  a field beside the tree and not a file in it; unreadable files and directories are not modelled.
- Rollup.CountsOpsBelow: asks for acyclic parents and for every listed child to exist; on a cycle the source
  would not terminate, on a missing child it raises.
- Merge commits, tiers that change in mid-history, symlinked and excluded paths, how the dirty working tree is diffed.
- ReadBack.FrontierFoldsBack: one way as to bytes, which can also agree by coincidence, as when two lost gaps held the
  same. As to the parts `ReadBack.HoldsPartsExactlyWhen` is exact, and for opaque files
  `ReadBack.OpaqueFoldsBackExactlyWhen`.
- ReadBack.MinedFoldsBack: one way, for the same reason.
- ReadBack.LinkedOnceIsReplay: a sufficient condition on the history; `ReadBack.FrontierIsReplayExactlyWhen` is exact.
- PathOps.PathStore: the ops of one path, requiring entities of the same file; `TreeOps.UnionHoldsTree` puts such
  stores together. The theorems on single symbols and on folding hold in any store, ops that span paths and requires
  on other files included.
- Surviving.EntityTipExactlyWhen: no commit is bookkeeping; an entity removed by one can come back unlinked, and then
  `MinedOps.FrontierFollowsKept` is what holds.
- Chunks.Mine: a commit's touches are given, so which paths a call excludes, and mining from a commit treated as the
  root, are outside it.
- Layout.OrderEntities: the recursion as such. The source's `visit` takes a Python frame for every chained entity, so
  a file of about a thousand top-level entities exceeds the interpreter's stack; the model has no such limit.
- LinkFree.MineFollowsMatchExactlyWhen: one file's match. The second pass, over what every file of a commit left
  unmatched, is `Matcher.LinkResidual`; a link it makes across files is not followed into the touches.
- Migrate.Repo.Perform: a kill inside the write of the temporary file can leave a stray `.tmp-` file in the
  directory, which a later listing of that directory would see; the model has the target file only.
- Git, tree-sitter, locks, caches, JSON encoding, the op-index rebuild and the claims count; hashes are taken to
  be injective. An op's id is its content both ways (`PathOps.IdsAreContent`) up to the hash; provenance is left out.
- The totals of dropped references over whole dictionaries and the dry-run report.
- The order in which forks are listed; `Order.Tips` is the set of ops in any listed fork.
- Command-line rendering, labelling, oracle runs, sessions and the web views: interface code or one-branch logic.

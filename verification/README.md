# Slopcafe, modelled and proved

Slopcafe stores versioned documents over two stores: D1, whose batches commit
whole or not at all, and R2, where every put and every delete is a step of its
own. These modules model the parts of the service where that matters, in the
terms of the source, and prove what the design rests on.

- **Concurrency** (`Protocol*.dfy`). Publishers, updaters, editors, restorers,
  promoters and revokers interleave at every D1 and R2 call, and any of them may
  stop for good between two calls. The primary key on document and version
  number makes a plain SELECT and INSERT a compare-and-swap; the nonce of each
  attempt makes a loser's rollback harmless to the winner. What a revoke leaves
  behind is settled row by row.
- **One call at a time** (`Serial*.dfy`, `DocumentStore.dfy`, `SlugHistory.dfy`,
  `Idempotence.dfy`, `AskedWrites.dfy`, `MetadataRules.dfy`, `Classification.dfy`).
  `Serial` says what each core answers and leaves behind; `DocumentStore` is the
  class whose methods do it step by step; `AskedWrites` tells the same of rows and
  requests alone, with no word of how the cores get there. A serial run is
  proved to be one of the interleavings, so that everything proved for all of
  them holds for it. On top come names, publication, idempotence, the storage
  total and the kill switch.
- **Backup** (`Corpus.dfy`, `Export.dfy`, `Restore*.dfy`, `BackupTarget.dfy`,
  `RoundTrip*.dfy`, `SerialRoundTrip.dfy`, `Metadata.dfy`). The five-phase
  keyset walk, the restore planner and its apply phase, what a page leaves of
  every document, version, object and name, told of its records alone
  (`RestoreContents`, `RestoreOutcome`, `RestoreTables`, `RestoreObjects`), and the
  round trip: what any serial run built, exported with any page limit and restored
  page by page into an empty instance, is rebuilt.
- **The nesting scan** (`Depth*.dfy`). The hand-written tokenizer and bounded
  stack refine a declarative reading of a text as tags, agree with the true
  height of every rendered tree, and cost what a function of the text says,
  which is linear in it.
- **Find and replace, and the link graph** (`Edits.dfy`, `Links.dfy`,
  `LinkHistory.dfy`).

Shared ground is in `Records.dfy` (rows and objects), `D1.dfy` (tables,
statements, constraints, batches) and `Writes.dfy` (what a write decides and the
batch it commits).

Assumptions: nonces and ids are fresh names; SHA-256 is injective, so a digest
is what it digests; sanitizing, Markdown conversion, title derivation and the
slug validator are uninterpreted functions (`Writes.Env`); of `toLowerCase` and
of NFC only the facts in `DepthSpec.LowerCases` and `Metadata.Composes` are
used; D1 enforces its primary keys, unique indexes and foreign keys.

## What turned out not to hold

Title and description normalisation is not idempotent, in two ways. A text is
cut at its cap after it was trimmed, and a cut right behind a blank leaves a text
that a second pass shortens. And a text is composed (NFC) before controls are
dropped, so a letter, a control and a combining accent are stored as letter and
accent, which a second pass joins. `Metadata.TitleThatDoesNotSettle` and
`Metadata.TitleThatComposesLater` are such titles; `Metadata.SettlesUnless` and
`SerialRoundTrip.StoredTitleComesBack` say exactly when a text settles, and
`Metadata.SettlesWhenUncut` says it of the raw text. Even a second pass may not
be enough (`Metadata.TitleThatNeedsThreePasses`); a third always is. The round
trip asks for settled titles and descriptions for this reason. Tags do settle,
and in a serial run the stored ones have.

Repeating an accepted update is not always answered with `unchanged: true`: the
cap check runs before the no-op gate, so it is refused exactly when the total has
room for its bytes once but not twice (`Idempotence.RepeatRefusedForRoom`);
nothing is changed either way.

A revoke that reports success can leave objects behind. The batch of an update
does not look at `revoked_at`, so a writer that commits after the revoker has read
the keys leaves its row and both its objects (`ProtocolRevoke.LateWriterLeavesObjects`).
`ProtocolRevoke.RevokeLeavesLaterRows` says exactly what is left: the objects of
the rows added since the keys were read, and nothing else. That no write is under
way when the keys are read is not enough, since one may still start before the
kill batch; `ProtocolRevoke.QuietRevokeLeavesNothing` has the condition that is,
and a second revoke finishes the work (`ProtocolRevoke.SecondRevokeFinishes`).

Versions restored into a document that is there already are committed before the
document's derived rows are written, under one handler: a failure in the second
half deletes the objects of rows that are in. `RestoreRender.StrayVersionsAreBackedUnless`
says exactly when.

Restoring with `replace` escapes two promises of the serial calls. The name a
document had and its record has not is not retired
(`RestoreTables.ReplacedNameIsFree`), and a live document replaced by the record
of its revoked self keeps in R2 every object of a version the page mentions,
which no row names afterwards (`RestoreObjects.RevokedRecordKeepsObjects`).
`RestoreObjects.ObjectsOfTheDocument` says exactly which of its objects a replaced
document loses.

The depth scan lower-cases tag names with `toLowerCase`, the WHATWG HTML Standard
in ASCII only (section 13.2.5.8): a name written with the Kelvin sign for its `k`
is a void `link` to the scan and not to the Standard (`DepthRender.KelvinLink`).
`DepthRender.ReadsAsTheStandard` says exactly when the two read the same tags;
names in ASCII always do.

## Model

| member | source | states |
|---|---|---|
| `Edits.CountOccurrences` | src/edit.ts:66-77 | the counting loop returns the number of greedy occurrences, zero for an empty needle |
| `Edits.CountIsLargest` | src/edit.ts:60-77 | that count is the largest number of pairwise disjoint occurrences |
| `Edits.SplitThenJoin` | src/edit.ts:116-119 | splitting at the occurrences and joining with the same text gives the text back |
| `Edits.PiecesAreClean` | src/edit.ts:116-119 | no piece between replaced occurrences still holds one |
| `Edits.SplitCount` | src/edit.ts:116-119 | replace-all substitutes exactly the counted occurrences |
| `Edits.ReplaceAllLength` | src/edit.ts:116-119 | replace-all changes the length by count times the difference of the two texts |
| `Edits.SpliceIsReplaceAll` | src/edit.ts:120-128 | with one occurrence, splicing by index is replacing all |
| `Edits.ApplyEdits` | src/edit.ts:86-131 | the edit loop computes the sequential meaning of the list, with every error and its index |
| `Edits.ApplyMeans` | src/edit.ts:86-131 | what a list of edits comes to, told by occurrences alone: each lands on the text the one before it left, in every place or in its only one, up to the first that is refused; the answer names that one and why, and how many places there are when it is ambiguous |
| `Edits.UniqueEdit` | src/edit.ts:108-128 | an edit meant for one place is accepted exactly when it names something, changes it, and just one place can be taken at a time; then the first place it fits gives way |
| `Edits.ApplyConcat` | src/edit.ts:86-131 | a concatenated edit list does what its parts do in turn, counts added, indices shifted |
| `Edits.EveryEditLands` | src/edit.ts:108-114 | an accepted list replaced at least one occurrence for each edit |
| `DepthScan.TagNameEnd` | src/depth.ts:199-207 | the name ends where the tag-name state ends it (section 13.2.5.8 of the WHATWG HTML Standard), after reading exactly its characters and the one that ends it |
| `DepthScan.FindTagEnd` | src/depth.ts:223-240 | the quote-aware search finds the closing `>` and whether the tag closes itself, at the cost `DepthCost.FindWork` states |
| `DepthScan.FindRawClose` | src/depth.ts:248-270 | raw text ends at its own end tag, found at the cost `DepthCost.RawWork` states |
| `DepthScan.CloseTop` | src/depth.ts:278-290 | the loop pops to the innermost match among the 32 innermost entries, or pops nothing, after exactly the comparisons up to the entry that decides |
| `DepthScan.MarkersDecideForeign` | src/depth.ts:376-380 | the two markers decide exactly "a foreign root is open and no integration point above the first" |
| `DepthScan.MarkersPush` | src/depth.ts:383-390 | pushing a name updates both markers to the first such indices |
| `DepthScan.MarkersPop` | src/depth.ts:345-347 | dropping the stack to a height updates both markers to the first such indices |
| `DepthScan.StartTag` | src/depth.ts:358-396 | a start tag is one step of the declarative scan, markers kept exact |
| `DepthScan.EndTag` | src/depth.ts:335-349 | an end tag is one step of the declarative scan, markers kept exact |
| `DepthScan.ReadMarkup` | src/depth.ts:314-405 | what starts at a `<` is read as the declarative tokenizer reads it, at the cost it states |
| `DepthScan.MaxNestingDepth` | src/depth.ts:292-408 | for every text the scan returns the declarative depth saturated at the cap; the stacks it holds after each tag are the declarative ones up to the tag that settles the answer; its cost is the one stated of the text |
| `DepthCost.StackNeverExceedsCap` | src/depth.ts:85-98 | those stacks hold at most `cap` names, fewer until the answer is known, and are what the tags read so far leave open |
| `DepthCost.CostIsLinear` | src/depth.ts:100-112 | the stated cost is at most 14 a character and 32 an end tag, and at most 25 a character in all |
| `DepthScan.CapKeepsVerdict` | src/depth.ts:85-112 | a cap above a threshold never changes which side of the threshold a text falls on; one at or below it always does |
| `DepthRender.RenderedTokens` | src/depth.ts:310-405 | the text of a well-formed tree is cut into exactly its own tags |
| `DepthRender.DepthIsHeight` | src/depth.ts:292-408 | the depth of every rendered forest is its height: void and self-closed foreign leaves count for nothing, elements left open, among them those closed by a slash in HTML, stay open to the end of what holds them |
| `DepthRender.SoupDepth` | src/depth.ts:310-405 | the depth of any well-spelled tags in any order is that of the tags run one by one |
| `DepthRender.SelfClosedTagsNest` | src/depth.ts:370-382 | in HTML `n` copies of a tag closed by its own slash are `n` deep |
| `DepthRender.SlashChangesNothing` | src/depth.ts:370-390 | where no foreign root is open, or an integration point above it, the slash of a start tag changes nothing |
| `DepthRender.BarrierKeepsOpen` | src/depth.ts:278-290 | an end tag never reaches past a barrier: `n` copies of `<a><b></a>`, `b` a barrier, are `2n` deep |
| `DepthRender.BrokenTagCounts` | src/depth.ts:350-396 | a text that breaks off inside a start tag is as deep as if the tag were finished |
| `DepthRender.BrokenCommentHides` | src/depth.ts:310-330 | a comment that is not closed hides the rest of the text |
| `DepthRender.ReadsAsTheStandard` | src/depth.ts:335-357 | the scan and the Standard read the same tags exactly when every tag name read lower-cases the same in both ways |
| `DepthRender.AsciiNamesReadAlike` | src/depth.ts:335-357 | when every tag name is in ASCII they do |
| `DepthRender.KelvinLink` | src/depth.ts:357-380 | a name with the Kelvin sign, on which they differ by a level |
| `Writes.Screen` | src/document-write.ts:232-255 | the guards and the two depth checks in their order, through the real scan |
| `Writes.ScreeningPasses` | src/document-write.ts:232-255 | a body passes exactly when it is non-empty, five mebibytes at most, and neither it nor its render is deeper than 512; the scan's own cap never decides |
| `Writes.ScreeningRefuses` | src/document-write.ts:232-255 | a body that does not pass is told the first thing wrong with it, with the limit and its size or depth |
| `Writes.CommitIsAllOrNothing` | src/document-write.ts:849-952 | the statement list of a write commits the whole write, or nothing, decided by three constraints |
| `Writes.SlugBatch` | src/document-write.ts:920-937 | the slug statements of a batch claim, retire or clear as the action says, or are refused by the index |
| `D1.BatchConcat` | src/document-write.ts:849-952 | a batch is its parts run in turn, or nothing |
| `D1.BatchKeeps` | src/document-slug.ts:156-168 | no batch changes or takes away a row or a tombstone, moves a public id, or revives a revoked document |
| `ProtocolSteps.StepKeeps` | src/document-write.ts:583-991 | every single step of every request keeps the whole invariant |
| `ProtocolSteps.RunKeeps` | src/document-write.ts:583-991 | so does every interleaving of any length |
| `ProtocolSteps.PrimaryKeyIsCas` | src/document-write.ts:849-899 | the next row number is free exactly when the version read is still current |
| `ProtocolTheorems.VersionsAreContiguous` | src/document-write.ts:849-899 | in every reachable state a document's rows are exactly 1..m, and a live document's current version is m |
| `ProtocolTheorems.AppendIsCompareAndSwap` | src/document-write.ts:849-961 | a batch appends to a live document exactly when the version it read is still current and its name still free, whether or not the caller named a version |
| `ProtocolTheorems.CommitAdvancesByOne` | src/document-write.ts:849-899 | a commit moves the current version by one from the version read and adds only its own row |
| `ProtocolTheorems.EachVersionHasOneWriter` | src/document-write.ts:849-899 | every version row was committed by exactly one write |
| `ProtocolTheorems.NoSilentRevert` | src/document-write.ts:1077-1211 | a version committed for an edit holds the edits applied to the version right before it, in its format, with its texts where the edit names none; one committed for a restore repeats the source, format, title and description of the version it names |
| `ProtocolTheorems.VersionsAreAsAsked` | src/document-write.ts:279-314 | in every interleaving the row committed for a publication or an update holds its body, format and author and the texts given, or where none was given those of the version right before it |
| `ProtocolTheorems.BlobsArePresent` | src/document-storage.ts:145-188 | every row of a live document names a render and a source that are present and are the row's own |
| `ProtocolTheorems.RollbackIsHarmless` | src/document-write.ts:953-961 | a rollback deletes no key of a row or of another writer |
| `ProtocolTheorems.PublicMeansPublished` | src/document-lifecycle.ts:68-86 | a live public document has a published version, and both pointers name rows |
| `ProtocolRevoke.PurgedStaysGone` | src/document-revoke.ts:95-195 | in every interleaving, once a revoke has finished, every object whose key it had read is gone for good |
| `ProtocolRevoke.RevokeLeavesLaterRows` | src/document-revoke.ts:95-195 | what a finished revoke leaves: nothing of a row that was there when it read the keys, both objects of every row added since; so nothing at all exactly when none was added |
| `ProtocolRevoke.QuietRevokeLeavesNothing` | src/document-revoke.ts:95-195 | it leaves nothing, for good, when at some moment the document was revoked with no update under way and with no row the revoke did not know |
| `ProtocolRevoke.SecondRevokeFinishes` | src/document-revoke.ts:50-66 | a revoke that reads the keys of a revoked document with no update under way leaves nothing, for good |
| `ProtocolRevoke.RevokedPublishesNothing` | src/document-lifecycle.ts:166-193 | in every interleaving a revoked document has no published version, also when a promotion looked one up before |
| `ProtocolRevoke.LateWriterLeavesObjects` | src/document-write.ts:897-899 | the run in which a writer commits into a revoked document and its objects outlive a successful revoke |
| `DocumentStore.DocumentStore.PublishDocumentCore` | src/document-write.ts:355-568 | leaves and answers what `Serial.Publish` says |
| `DocumentStore.DocumentStore.UpdateDocumentCore` | src/document-write.ts:583-751 | conflict, screen, cap, claim in that order; leaves and answers what `Serial.Update` says |
| `DocumentStore.DocumentStore.WriteScreened` | src/document-write.ts:686-991 | slug lock, no-op gate, then the write |
| `DocumentStore.DocumentStore.Commit` | src/document-write.ts:849-961 | blobs, the pushed statement list, and the two deletes if D1 refuses |
| `DocumentStore.DocumentStore.PutVersionBlobs` | src/document-storage.ts:145-188 | both objects under the attempt's own keys |
| `DocumentStore.DocumentStore.EditDocumentCore` | src/document-write.ts:1077-1136 | reads the source, applies the edits, writes forward guarded by the version read |
| `DocumentStore.DocumentStore.RestoreVersionCore` | src/document-write.ts:1183-1211 | writes a version's own source forward |
| `DocumentStore.DocumentStore.SetDocumentSlugCore` | src/document-slug.ts:371-432 | claims, renames, clears or leaves a name without a version |
| `Classification.VisibilityKeepsTheChoice` | src/document-lifecycle.ts:58-97 | going public leaves a published version that has its row, the chosen one if there was a choice, else the current one; going private changes no choice; no other column, row or document changes |
| `Classification.ReopeningServesTheSame` | src/document-lifecycle.ts:58-97 | closing a public document and opening it again serves what was served |
| `Classification.PromotionNamesARow` | src/document-lifecycle.ts:146-194 | promotion succeeds exactly for an existing version of a live document, which is then the one published whatever visibility does, and nothing else changes |
| `Classification.SuccessorIsAnotherLiveDocument` | src/document-lifecycle.ts:249-280 | a successor is another live document and only of a deprecated one; names, pointers and bytes stay |
| `Classification.StatusVerdict` | src/document-lifecycle.ts:249-280 | when a status is set and what each refusal answers; a successor counts only for a deprecated document and must be another live one; just the two columns change |
| `Classification.StoredTagsAreClean` | src/document-lifecycle.ts:320-334 | on a live document tags are replaced by the first ten distinct clean ones of those given, and nothing else changes; replacing them with themselves changes nothing |
| `Classification.ClearingUndoesARedirect` | src/document-slug.ts:247-294 | a redirect is set exactly on a retired name and to a live document; clearing it restores the tombstone, and no other name is touched |
| `Classification.ReleaseGivesTheNameBack` | src/document-slug.ts:303-320 | releasing removes this tombstone only; a claim of the name, refused as retired before, is granted after, every other claim is answered as before |
| `Classification.OldNamesLeadHome` | src/document-slug.ts:140-168 | in serial runs a name a document was renamed from forwards to that document, however often it is renamed again, while it lives and no operator touches that name |
| `AskedWrites.NameVerdict` | src/document-slug.ts:62-134 | a name is granted exactly when nothing is asked, or clearing, or a valid name that is the document's own or neither held by another nor retired; each refusal has its reason |
| `AskedWrites.UpdateVerdict` | src/document-write.ts:583-847 | an update is accepted exactly when body, version, room, name and slug lock allow it, is unchanged exactly when nothing asked for differs from what is stored, and is otherwise told the first thing that stops it |
| `AskedWrites.UpdateStores` | src/document-write.ts:849-991 | a written update appends just its row, of the body, format and author given, with the texts asked for, kept, cleared or derived, under its own two keys, and moves only pointer, name and tags |
| `AskedWrites.PublishVerdict` | src/document-write.ts:355-568 | a publish adds exactly one document and its first version, all columns as asked or by default, and the answer tells them; else the first thing that stops it |
| `AskedWrites.EditVerdict` | src/document-write.ts:1077-1136 | an edit whose list is refused on the current source changes nothing and says why; any other is an update to the edited text, guarded by the version read, in its format, asking for nothing more |
| `AskedWrites.AmbiguousEditIsRefused` | src/edit.ts:108-114 | an edit meant for one place that finds several leaves the store alone and is told how many |
| `AskedWrites.PlainEditKeepsTexts` | src/document-write.ts:279-314 | an edit that names no metadata leaves title, description, format, name and tags as they were |
| `AskedWrites.RestoreVerdict` | src/document-write.ts:1183-1211 | a restore is refused for a missing document or version, and is otherwise the update to that version's source, format, title and description |
| `AskedWrites.RestoredAsItWas` | src/document-write.ts:1155-1211 | the current row after a restore has that version's source and format, its clean texts unchanged, no description where it had none, a title derived from the render where it had none; the document keeps everything but its pointer |
| `AskedWrites.NamingVerdict` | src/document-slug.ts:371-432 | naming without a new version is refused like any claim, and else changes just the name, burying the one shed |
| `DocumentStore.DocumentStore.DeleteR2Keys` | src/document-revoke.ts:40-44 | deletes in chunks of a thousand; it succeeds exactly when R2 answers enough calls, and otherwise has deleted a part |
| `DocumentStore.DocumentStore.VersionRows` | src/document-revoke.ts:95-101 | a document's rows, all of them, by version number |
| `DocumentStore.DocumentStore.RevokeDocumentCore` | src/document-revoke.ts:75-195 | kill batch once, then the purge of every key of every row |
| `Sums.CurrentStorageUsedBytes` | src/document-storage.ts:92-100 | the total over live documents' rows, whatever the order |
| `SerialIsProtocol.CallRuns` | src/document-write.ts:583-991 | one call, undisturbed, is a run of protocol steps |
| `SerialIsProtocol.SerialRunIsInterleaving` | src/document-write.ts:583-991 | every state of a serial run is reached by the interleaved protocol with nothing under way |
| `SerialEffects.WriteEffect` | src/document-write.ts:355-991 | a writing call commits one plan, of a new document or a row of a live one, or leaves every row and object alone |
| `SlugHistory.EachStepRetires` | src/document-slug.ts:156-168 | every call keeps live names unique and unretired, and a shed name gets its own tombstone at once (revoked, renamed and forwarding to the document, or released): the insert-or-ignore never finds it taken |
| `SerialTheorems.SlugPermanence` | src/document-slug.ts:62-134 | a name once shed is never held again by any document unless an operator releases that very name |
| `SerialTheorems.ReadersSee` | src/served-version.ts:64-72 | who gets what: nothing of a revoked document or, without a key, of a private one; of any other the render and title of its published version when public, of its current one when not |
| `SerialTheorems.AgentsCannotTouchThePublicFace` | src/document-write.ts:737-751 | over any stretch of agent-only calls an anonymous reader gets the same bytes, title and name from every document that was there |
| `SerialTheorems.StagedChoiceIsServed` | src/document-lifecycle.ts:110-194 | a promoted version is what the public gets when the door opens later, whatever agents write in between |
| `SerialTheorems.FailuresChangeNothing` | src/document-write.ts:953-961 | a refused or failed call other than a revoke leaves every row and object as it was |
| `SerialTheorems.RevokeVerdict` | src/document-revoke.ts:75-195 | all a revoke does: pointers and name gone, stamped once, the name buried as revoked, no one sees the document; rows and every other document stay; it answers how many versions there were |
| `SerialTheorems.RevokeLeavesNothing` | src/document-revoke.ts:117-177 | undisturbed, a successful revoke leaves no object of the document in R2, retires its name, and touches no other object |
| `SerialTheorems.RevokeCanBeRetried` | src/document-revoke.ts:50-66 | revoking again keeps the row and its stamp, finishes the purge, and is then a no-op |
| `SerialInvariant.RunKeeps` | src/document-storage.ts:75-100 | in every serial run rows, pointers and blobs are in order, no object is orphaned, names are unique, and the storage total never exceeds the cap |
| `SerialInvariant.WriteAddsItsBytes` | src/document-storage.ts:92-100 | a committed write adds exactly its own bytes to the total |
| `SerialInvariant.RevokeFreesItsBytes` | src/document-storage.ts:92-100 | a revoke takes exactly the document's bytes off it |
| `Idempotence.RepeatingChangesNothing` | src/document-write.ts:675-847 | an accepted update repeated changes no row, object or name, and the exact answer it gets |
| `Idempotence.RepeatRefusedForRoom` | src/document-write.ts:675-686 | the repeated update is refused exactly when the total had room for its bytes once but not twice |
| `Idempotence.AnswerIsStored` | src/document-write.ts:763-991 | written or unchanged, the store holds the submitted source, its render and the metadata the answer reports; unchanged means nothing was touched |
| `Idempotence.EditIsStored` | src/document-write.ts:1077-1136 | an accepted edit stores the edits applied to the current source and reports how many landed |
| `Idempotence.RestoreReproduces` | src/document-write.ts:1183-1211 | a restore brings back a version's source and render, byte for byte, and keeps name and tags |
| `Idempotence.MetadataSettles` | src/document-write.ts:279-314 | metadata resolved against itself resolves to itself |
| `Idempotence.SlugSettles` | src/document-slug.ts:62-134 | a slug request once granted is a no-op |
| `Metadata.SettlesUnless` | src/metadata.ts:227-252 | normalising twice is normalising once exactly when the cap did not cut behind a blank and what is stored is composed |
| `Metadata.SettlesWhenUncut` | src/metadata.ts:227-252 | of a text that is not cut: exactly when the composed text is still composed once its controls are dropped |
| `Metadata.SecondPassSettlesUnless` | src/metadata.ts:227-252 | a third pass changes something exactly when composing in the second made the text too long and the cap cut behind a blank; never if the first left it composed |
| `Metadata.SettlesAtTheThirdPass` | src/metadata.ts:227-252 | a fourth pass never changes anything |
| `Metadata.TitleThatDoesNotSettle` | src/metadata.ts:227-234 | a title whose stored form changes when normalised again |
| `Metadata.TitleThatComposesLater` | src/metadata.ts:227-234 | a short one, whose accent joins its letter only the second time |
| `Metadata.TitleThatNeedsThreePasses` | src/metadata.ts:227-234 | one that the second pass leaves still to change |
| `Metadata.SanitizeTagsInput` | src/metadata.ts:263-278 | the loop keeps the cleaned, distinct, non-empty tags, ten at most |
| `Metadata.TagsSettle` | src/metadata.ts:263-278 | cleaning a cleaned tag list changes nothing |
| `Metadata.TagsArePicked` | src/metadata.ts:263-278 | the kept tags are cleaned inputs in order, none empty, none twice, ten at most, and every other input cleans to nothing or to a tag before it, or comes after the tenth |
| `Metadata.CleanTagIs` | src/metadata.ts:263-278 | a tag is made of ASCII letters, digits, `_` and `-`, thirty-two at most; one that already is stays |
| `Metadata.WordsAreKept` | src/metadata.ts:227-252 | normalising keeps the words of the composed text without its controls, in order, one blank between any two, none at the ends |
| `Export.ExportPage` | src/backup.ts:378-430 | a page continues exactly where its cursor points, holds `limit` units unless it is the last, and carries header and footer where they belong |
| `Export.ResumePast` | src/backup.ts:209-231 | resuming past a row's key yields exactly the rows after it |
| `Export.ExportCorpus` | src/backup.ts:432-488 | following cursors from null ends, for every limit |
| `Export.WalkCoversEachUnitOnce` | src/backup.ts:378-430 | any walk emits every unit of all five phases once, in order; all pages but the last are full; footer and null cursor come last |
| `Export.WalkGivesTheTables` | src/backup-format.ts:39-72 | a whole walk gives agents, keys, clients, documents and tombstones in that order, in each by stamp and then by id |
| `Export.TextOrder` | src/backup.ts:209-231 | the text order behind it decides at the first difference, a beginning before what it begins |
| `RoundTrip.EmitUnit` | src/backup.ts:235-357 | the lines of one unit, a document with all its versions and their blobs |
| `RoundTrip.DocumentIsExported` | src/backup.ts:235-357 | a document's lines: itself with its tags cleaned, then each version, lowest number first, its row but for the client, with source and render as stored when live and without bytes when revoked |
| `RestorePlan.BytesAreTheRecordedSource` | src/backup.ts:752-819 | a version is given bytes only when they are the source its digest names and their own render, on a live document, within depth and cap; a live document gets no row without; the render in the file plays no part |
| `RestorePlan.WrittenDocsAreSound` | src/backup.ts:821-900 | a document that will be written has an identity the database agrees with, a creator that is there, a name no one holds, had or was promised, and bytes for both its pointers; one rejected writes no version |
| `RestorePlan.PageFitsTheCap` | src/backup.ts:672-906 | all the bytes a page plans to store fit under the cap on top of what was stored |
| `BackupTarget.PlanDocuments` | src/backup.ts:821-906 | documents planned in turn against the names and bytes already promised |
| `BackupTarget.BackupTarget.WriteVersionBlobs` | src/backup.ts:998-1024 | both objects of each re-rendered version under fresh keys, and the rows for the batch |
| `BackupTarget.BackupTarget.ApplyOneDoc` | src/backup.ts:1043-1114 | one document as one batch, its old keys purged after, its new ones if it fails |
| `BackupTarget.BackupTarget.RestoreBackupCore` | src/backup.ts:569-1158 | the whole page planned, then applied in foreign-key order, with a failure possible in each batch and after the rows of a stray one |
| `RestoreNames.RestoreKeepsNamesSafe` | src/backup.ts:842-942 | in either mode and whatever fails, live names stay unique and unretired and no tombstone goes |
| `RestoreNames.NameIndexNeverFires` | src/backup.ts:851-866 | the planner never promises a name the unique index would refuse |
| `RestoreNames.BystandersKeep` | src/backup.ts:821-906 | documents off the page, and existing ones when skipping, keep their rows |
| `RestoreRender.RestoredIsRenderable` | src/backup.ts:867-897 | every live document created or replaced without failing has its current and published versions backed: source of the recorded digest, render made from it |
| `RestoreRender.StrayVersionsAreBackedUnless` | src/backup.ts:1116-1140 | versions restored into a live document that is there are backed exactly unless its derived rows cannot be written afterwards; then none is, and the failure is reported |
| `RestoreOutcome.DocumentComesAsRecorded` | src/backup.ts:821-1114 | a document that is new or to be replaced, agrees in identity, has its creator known and, live, both its pointers on the page in good order, is afterwards the record's row, tags cleaned and name if free; every version of it that comes in has the record's digest, format, texts, author and stamp; rows the page does not mention are gone, those it could not supply are as they were |
| `RestoreOutcome.DocumentGoesThrough` | src/backup.ts:1043-1114 | it does not fail when D1 is there for it and no other record claims its public id |
| `RestoreOutcome.DocumentStaysOut` | src/backup.ts:821-900 | one that is new or to be replaced and does not meet these conditions leaves everything of the document as it was |
| `RestoreOutcome.VersionsAreGained` | src/backup.ts:906-922 | a document that is not replaced keeps its row; its versions on the page that come in are as recorded, all others as they were, and it fails exactly when something was to come in and D1 or its derived rows were not there |
| `RestoreOutcome.VersionsComeWithTheirBytes` | src/backup.ts:752-819 | every version of a live document that comes in has the file's source and the render made from it |
| `RestoreTables.AgentsAndKeysCome` | src/backup.ts:698-718 | an agent or key comes in as recorded, unless one is there not to be replaced or a key's agent is unknown; the rest stays |
| `RestoreTables.ClientsCome` | src/backup.ts:719-735 | so does a client; one whose agent is bound elsewhere does not, and no agent is ever bound to two |
| `RestoreTables.TombstonesCome` | src/backup.ts:924-942 | a tombstone comes in as recorded unless its name is in use, it is there not to be replaced, or its document is not there in the end; it forgets a document no one knows |
| `RestoreTables.ReplacedNameIsFree` | src/backup.ts:1060-1066 | a name given up in a replacement is neither held nor retired afterwards |
| `RestoreObjects.ObjectsOfTheDocument` | src/backup.ts:998-1114 | a document that failed has exactly the objects it had; one that came in keeps just those of rows the page mentions without storing bytes for, and has new ones only for versions that came in with bytes |
| `RestoreObjects.ObjectsOfOneThatStays` | src/backup.ts:1116-1140 | one that stays loses only objects a version that came in replaced, and gains none when it failed |
| `RestoreObjects.RevokedRecordKeepsObjects` | src/backup.ts:1017-1021 | a live document replaced by its revoked record keeps the objects of the versions the page mentions |
| `RestoreAgain.RestoringAgainChangesNothing` | src/backup.ts:569-1158 | restoring what is there again, skipping, is a no-op |
| `RoundTripTheorem.PageRestored` | src/backup.ts:569-1158 | the next page of a walk restores without failure and adds exactly its units |
| `RoundTripTheorem.BackupRoundTrip` | src/backup.ts:235-430 | export and restore rebuild every principal, document and tombstone, and every version with the same source and render |
| `SerialRoundTrip.SerialRunsMakeTheRoundTrip` | src/backup.ts:235-430 | so for every serial run, any limit, with no assumption about the cap |
| `SerialRoundTrip.SerialStateIsExportable` | src/backup.ts:235-357 | what a serial run built meets every condition of the round trip but settled titles and descriptions |
| `SerialRoundTrip.RunTagsSettle` | src/metadata.ts:263-278 | in every serial run the stored tags of every document are clean |
| `SerialRoundTrip.StoredTitleComesBack` | src/backup.ts:550-559 | a stored title comes back unchanged exactly when it was not cut behind a blank and is composed |
| `SerialRoundTrip.NamesLeadToOneDocument` | src/links-core.ts:71-208 | in serial runs a live name and a public id lead to one document |
| `Links.LinkSyncStatements` | src/document-link-sync.ts:89-110 | the delete and the chunked inserts leave exactly the given links in order, on any rows |
| `Links.StoredLinksLeaveItself` | src/document-link-sync.ts:66-84 | no link to itself is stored, two hundred at most, all of them below the cap |
| `Links.StoredLinksKeepOrder` | src/document-link-sync.ts:77-83 | the stored links are those to others in the order of the page, and when there are too many the first two hundred |
| `Links.LookUp` | src/links-core.ts:119-165 | a chunked lookup answers for every name, whatever order rows come in |
| `Links.Outbound` | src/links-core.ts:106-205 | each stored link, in order, with the state its target has now |
| `LinkHistory.LinksFollowARename` | src/links-core.ts:167-205 | after a rename a link by the old name is shown as redirected to the document, one by the new name or the address as live with its title |
| `LinkHistory.LinksToTheRevoked` | src/links-core.ts:167-205 | after a revoke links by address are shown as revoked, links by name as retired |
| `Links.DocumentLinksCore` | src/links-core.ts:71-208 | both halves for a live document: the matching rows newest first up to the limit, and its links in order of position, each resolved |
| `Links.BacklinkIffLiveOutbound` | src/links-core.ts:71-208 | among distinct live documents with unique names, one is returned as a backlink of the other exactly when the list its outbound half returns has a live entry for it and fewer than two hundred newer documents link there |
| `Links.OrphanIffNoBacklinks` | src/links-core.ts:84-240 | the `not exists` of the orphan query and the clauses of the backlink query agree: the orphan list holds exactly the two hundred newest live documents for which no backlink is returned |
| `Links.SharedNamesBreakDuality` | src/document-slug.ts:109-121 | with a name held twice and linked once, both holders count the source as a backlink and every outbound list it can return misses one of them, so duality needs unique names |

## Left out

- HTTP and MCP handlers, the console, authentication, OAuth, the audit ledger, change feeds and pagination of lists: plumbing around the cores.
- The sanitizer, the Markdown converter, the tree-depth measure of sanitized output, title derivation and advisories: uninterpreted or absent; the scan is not compared with the real HTML parser.
- Full-text rows, vectors and the link rows inside a write's batch: they follow the batch and no property reads them; the link graph is modelled on its own.
- Texts are sequences of Unicode characters: sizes are in UTF-8 bytes, but the caps on titles, descriptions and tags count characters where the source counts UTF-16 units; byte-order marks and undecodable bytes do not occur.
- Documents are addressed by row id; the shape test of public ids is not modelled. Version numbers in requests are integers.
- Timestamps are opaque strings; `updated_at` is absent.
- Protocol: the storage total and the slug claim a write relies on may be stale when it uses them, so a step takes them as given; slug history is stated for serial runs only, because the claim is check-then-act.
- Protocol: the cores that touch neither rows nor pointers are single steps that set their columns freely.
- Serial calls take outages as inputs: whether D1 accepts a batch, how many R2 deletes answer. A put that fails half-way is covered by the interleaved model, where a request may stop anywhere.
- Reserved names and slug validation are uninterpreted; the retired-name and live-name queries of one claim are one read.
- The NDJSON text of the backup, base64 and the cursor's encoding: pages are sequences of units and records, cursors are values.
- The verify mode of a restore, the report's texts and counts, and the page-level rejection of invalid lines: planning and applying a valid page is what is modelled.
- The primary-key lookups of the restore planner (chunks of fifty) are plain membership tests.
- RoundTrip.EmitUnit: link rows and the other derived lines of a unit are not emitted; the source does not restore them from the file.
- BackupTarget.BackupTarget.RestoreBackupCore: derived rows (full text, links, vectors) are not tables here; that writing them may fail is.
- SerialTheorems.RevokeLeavesNothing: speaks of a revoke that runs undisturbed; what other requests can leave behind is in `ProtocolRevoke`.
- Backlink and orphan lists are the sets of rows their `order by` and `limit` select; the order within the list is not modelled.
- RestoreOutcome.DocumentComesAsRecorded: speaks of pages whose bytes fit under the cap on top of what is stored; what happens when they do not is `RestorePlan.PageFitsTheCap`.
- The storage total and the ordered list of a document's rows are SQL queries in the source; the model spells each out as a loop.

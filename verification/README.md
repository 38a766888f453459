# Console algorithms, verified

A Dafny model of the algorithms inside the KMS console: the raw-text JSON pipeline, the two
diff engines with move detection, the schema-upgrade rewriter, the ZIP and SSE formats, the
subscriber and session protocols, and the number and path arithmetic of the schema form. Each
part follows its source file: loops and mutated state are methods and classes proved against
functions on values, recursion over values stays recursion, and the two protocols are step
functions over events whose invariants hold for every sequence of events.

`dafny verify dfyconfig.toml` checks everything.

How the parts hang together:

- `JsonLex`, `JsonTokenizer`: the total tokenizer. `JsonGrammar`, `JsonSyntax`: the grammar of
  RFC 8259 as derivations with all their whitespace, written independently of the tokenizer.
  `JsonCheck`, `JsonText`: the pushdown checker accepts exactly the derivable texts, and reports
  the first token that no continuation can mend. `JsonCuts`: the tokens of a text cut at a line
  end. `JsonPrint`, `JsonCompact`: formatting, minifying and the second compactor. `JsonTree`,
  `JsonRows`, `JsonFold`, `JsonRowIds`, `JsonToggles`: the tree, its printed rows, folding, row
  ids and what each row shows. `JsonLines`: highlighting line by line.
- `LineDiff`, `DiffRows`: the line diff, optimal over all edit scripts, and its two views.
- `ValueDiff`, `DiffSides`, `SharedLeaves`: the structural diff as a change list that leads from
  either document to the other. `Moves`, `MoveAccounts`, `MovePairs`, `MoveShape`, `MoveTruth`,
  `MoveDetection`: move detection as bookkeeping that loses and invents no leaf, and says nothing
  of either document that is not so.
- `Upgrade`: rewriting a stored value for a new schema, on derivations. `UpgradeEdits`,
  `UpgradeScript`: the prepared value is the stored one by exactly the edits reported, each at
  its place, as trees and as tokens. `UpgradeFills`, `UpgradeShown`, `UpgradeAdded`,
  `UpgradeConsent`: what becomes of missing properties, and what accepting a list does.
  `JsonSpans`, `UpgradePlaces`, `UpgradeRewrite`: the same as one cursor over the tokens, text
  slices and a growing result. `UpgradeDefaults`: the exact text of a schema's defaults.
- `Crc`, `Zip`: the checksum as a polynomial remainder, and archives that a reader recovers.
- `Sse`: the incremental event parser.
- `Subscribers`, `SubscriberSteps`, `LatestRequest`, `Auth`, `AuthOutcomes`: the two asynchronous
  protocols, what they never do and what they come to.
- `DecimalKeys`, `PathKeys`: exact comparison of typed numbers, and draft addressing.
- `Seqs`, `Flats`, `Strings`, `Decimals`: sequences, character search and decimal spelling.

Where the code parts from what one might expect of it, the model keeps the code and says
exactly when the expectation holds: a key split from its colon by a line break
(`JsonLines.LineLocal`), repeated keys in move detection (`MovePairs.RepeatedKeyLosesLeaf`,
`MoveAccounts.RemovedConservedIff`), messages whose fields do not fit a line
(`Sse.RoundTripAllIff`), defaults noted for schemas that have none
(`UpgradeDefaults.StrayNote`, `UpgradeDefaults.NotedIff`), and an abort error on a stream that
nobody aborted, after which the view neither streams nor polls
(`Subscribers.StrayAbortStalls`, `Subscribers.StallsOnlyByStrayAbort`). The SSE parser splits on line feeds
with an optional carriage return before them and delivers an unterminated last frame, unlike
section 9.2.6 of the WHATWG HTML standard.

## Model

| member | source | states |
|---|---|---|
| `JsonLex.LexTiles` | frontend/lib/json-text.ts:82-167 | the tokens of any text tile it: joined, they are the text |
| `JsonTokenizer.FindPreviousSolid` | frontend/lib/json-text.ts:169-175 | finds the last token before an index that is not whitespace, or none |
| `JsonTokenizer.ScanStringAt` | frontend/lib/json-text.ts:103-129 | a quoted run ends where the string grammar's scanner says, at the line break if unterminated |
| `JsonTokenizer.TokenizeJson` | frontend/lib/json-text.ts:82-167 | the one-pass tokenizer that re-kinds an earlier string on a colon yields the declarative tokens of the text, every input covered |
| `JsonGrammar.ScanComplete` | frontend/lib/json-text.ts:103-129 | a string of section 7 of RFC 8259 is scanned as one whole string token |
| `JsonGrammar.ScanSound` | frontend/lib/json-text.ts:103-129 | what the scanner accepts as a string is in the grammar of section 7 |
| `JsonGrammar.NumberComplete` | frontend/lib/json-text.ts:38 | a number of section 6 of RFC 8259 is matched whole by the number pattern |
| `JsonGrammar.NumberSound` | frontend/lib/json-text.ts:38 | what the number pattern matches is a number of section 6 |
| `JsonSyntax.SolidsDerives` | frontend/lib/json-text.ts:82-167 | the non-whitespace tokens of a derivable text are the tokens of the tree it derives |
| `JsonCheck.AcceptsTree` | frontend/lib/json-text.ts:236-329 | the checker accepts the tokens of every well-formed tree |
| `JsonCheck.AcceptedDerives` | frontend/lib/json-text.ts:236-329 | every token sequence the checker accepts is that of a well-formed tree |
| `JsonCheck.AcceptsIffDerivable` | frontend/lib/json-text.ts:236-329 | the checker accepts a text exactly when it is derivable from the RFC 8259 grammar |
| `JsonText.OffsetToLineColumn` | frontend/lib/json-text.ts:193-203 | the line and column of an offset, counted from 1 |
| `JsonText.CheckJson` | frontend/lib/json-text.ts:236-329 | no problem exactly for derivable texts; a problem has its line and column and is the end of a text that can still be continued there, or the start of the first token that nothing on or after its line end can make part of a document |
| `JsonText.NoDocumentPast` | frontend/lib/json-text.ts:236-329 | past the token reported, no text that goes on with nothing or a line break is a document |
| `JsonText.ReemitJson` | frontend/lib/json-text.ts:331-379 | the loop with its depth counter prints what the tree printer prints, or nothing for malformed text |
| `JsonPrint.EmitTree` | frontend/lib/json-text.ts:331-370 | re-emitting token by token equals printing the tree recursively, in both styles |
| `JsonPrint.ReemitKeepsTokens` | frontend/lib/json-text.ts:331-379 | formatting and minifying keep every token's text and kind, and their output is well-formed |
| `JsonPrint.ReemitAbsorbs` | frontend/lib/json-text.ts:372-379 | both are idempotent, and minify after format is minify, format after minify is format |
| `JsonPrint.EquivalentIffSameTokens` | frontend/lib/json-text.ts:382-387 | texts are equivalent exactly when both are well-formed with the same tokens |
| `JsonPrint.CanonicalIsStable` | frontend/lib/json-text.ts:390-394 | the stored form is stable under storing again and equivalent to what was typed |
| `JsonLines.SplitLines` | frontend/lib/json-text.ts:177-190 | the tokens grouped by line as the declarative grouping does |
| `JsonLines.LineLocal` | frontend/components/JsonHighlight.tsx:34-36 | tokenizing a line alone gives the whole text's tokens of that line, shifted; only a string that ends its line differs, as key or string, exactly when a colon follows on a later line |
| `JsonCompact.CompactIsMinify` | frontend/lib/contract-derive.ts:499-526 | the quote-tracking compactor equals the token-based minifier on every well-formed text |
| `JsonCompact.CompactSchema` | frontend/lib/contract-derive.ts:499-526 | the character loop yields the minified document, and nothing for malformed text |
| `JsonTree.ParseFindsTree` | frontend/components/JsonTree.tsx:47-103 | the stack-based builder finds the tree whose tokens the text has |
| `JsonTree.ParseWellFormed` | frontend/components/JsonTree.tsx:47-103 | every well-formed text parses, to a well-formed tree with exactly its tokens |
| `JsonTree.TokensDetermineTree` | frontend/components/JsonTree.tsx:47-103 | two trees with the same tokens are the same tree |
| `JsonTree.ParseJsonTree` | frontend/components/JsonTree.tsx:47-103 | the loop over tokens with its stack builds what the builder function builds |
| `JsonTree.NodeTextIsMinified` | frontend/lib/value-diff.ts:294-304 | the text of a document's tree is the minified document |
| `JsonTree.NodeTextRoundTrip` | frontend/lib/value-diff.ts:294-304 | the text of a subtree is derivable and parses back to the subtree |
| `JsonRows.BuildJsonTreeRows` | frontend/components/JsonTree.tsx:167-260 | the worklist loop yields the recursive rows of the document for any collapsed set |
| `JsonRows.ExpandedRowsAreNumbered` | frontend/components/JsonTree.tsx:167-260 | expanded, the rows are numbered 1 to the span without gaps |
| `JsonRows.RowsPrintDocument` | frontend/components/JsonTree.tsx:374-398 | the printed expanded rows are the formatted document |
| `JsonFold.FoldedRows` | frontend/components/JsonTree.tsx:167-260 | for any collapsed set the visible rows are the expanded rows minus the interiors of collapsed containers, under their old line numbers |
| `JsonRowIds.RowIdsDiffer` | frontend/components/JsonTree.tsx:167-260 | for any collapsed set no two visible rows have the same id, whatever the keys are, and a toggle has the id of its row |
| `JsonToggles.RowsTell` | frontend/components/JsonTree.tsx:167-260 | for any collapsed set every visible row is that of the node at some route from the root, or its closing bracket: id, depth, key, text, comma, the label and state of its toggle, and the kind and entry count of a collapsed container |
| `LineDiff.LcsIsMaximal` | frontend/lib/line-diff.ts:50-66 | the table value bounds the length of every common subsequence |
| `LineDiff.ScriptBound` | frontend/lib/line-diff.ts:50-89 | no edit script keeps more lines than the table value |
| `LineDiff.FillTable` | frontend/lib/line-diff.ts:50-66 | the flat 32-bit table holds the longest-common-subsequence lengths of all suffix pairs |
| `LineDiff.Align` | frontend/lib/line-diff.ts:50-89 | the two-pointer traceback is an edit script that keeps as many lines as any can |
| `LineDiff.Number` | frontend/lib/line-diff.ts:91-107 | numbering keeps the script and counts each side from 1 |
| `LineDiff.NumberingCounts` | frontend/lib/line-diff.ts:91-107 | numbered lines of a side read back as that side's lines with their positions |
| `LineDiff.SplitTextRoundTrip` | frontend/lib/line-diff.ts:45-47 | splitting into lines and joining gives the text, and no line holds a line feed |
| `LineDiff.TrimAndAlign` | frontend/lib/line-diff.ts:134-162 | trimming the common prefix and suffix keeps the script optimal for the whole inputs |
| `LineDiff.FewestChanges` | frontend/lib/line-diff.ts:50-162 | a script that keeps the maximum has the fewest added and removed lines of all scripts |
| `LineDiff.DiffLines` | frontend/lib/line-diff.ts:114-163 | in every branch the result rebuilds both texts, is numbered, and has removals before additions in each run; truncated exactly over the byte or table limits, where only common ends are kept, or nothing; otherwise smallest of all edit scripts |
| `DiffRows.ColumnsReadBack` | frontend/lib/line-diff.ts:170-203 | the columns of the side-by-side view read back as the two numbered texts |
| `DiffRows.ToSideBySide` | frontend/lib/line-diff.ts:170-203 | the loop over runs builds that view; rows marked as same are exactly the unchanged lines with both numbers, and between two of them removed and added lines are paired by position, with gaps on the shorter side only |
| `DiffRows.SideBySidePairs` | frontend/lib/line-diff.ts:170-203 | the same of the view as a function, for every list of lines |
| `DiffRows.UnfoldRestores` | frontend/lib/line-diff.ts:220-258 | putting each fold's slice back restores the rows |
| `DiffRows.FoldHides` | frontend/lib/line-diff.ts:231-258 | a row is hidden exactly when it and a neighbour are unchanged and farther than the context from every change |
| `DiffRows.FoldUnchanged` | frontend/lib/line-diff.ts:231-258 | the folding loops hide exactly those rows and lose none |
| `ValueDiff.OrderCovers` | frontend/lib/value-diff.ts:345-358 | the walk visits every key or index of either side exactly once, keys sorted and indexes in order |
| `ValueDiff.DiffApplies` | frontend/lib/value-diff.ts:311-362 | applying the recorded changes to the first document gives the second, objects by decoded key with the last duplicate winning |
| `ValueDiff.NoChangesIffSame` | frontend/lib/value-diff.ts:311-362 | no change is recorded exactly when the documents mean the same, scalars by raw text |
| `DiffSides.ChangesTell` | frontend/lib/value-diff.ts:327-361 | every recorded change has as before and after the texts of the two documents at its path, these differ, and its kind says which of them are there |
| `DiffSides.DiffBackwards` | frontend/lib/value-diff.ts:327-361 | the changes from the second document to the first are those from the first to the second with the sides swapped |
| `DiffSides.DiffReverts` | frontend/lib/value-diff.ts:311-362 | applying the changes with their sides swapped to the second document gives the first |
| `ValueDiff.Recorder.Record` | frontend/lib/value-diff.ts:320-326 | the first changes are kept up to the limit and the rest only noted as truncated |
| `ValueDiff.Recorder.Walk` | frontend/lib/value-diff.ts:327-361 | the recursive walk records the changes of the two subtrees at their path, in order, and counts the leaves found unchanged |
| `SharedLeaves.UnchangedCounts` | frontend/lib/value-diff.ts:338-347 | the number of unchanged leaves is the number of paths at which both documents have the same leaf, each counted once |
| `MoveAccounts.PairsIff` | frontend/lib/value-diff.ts:112-137 | a pair is a text worth pairing that occurs once among the added and once among the removed |
| `MoveAccounts.AddedConserved` | frontend/lib/value-diff.ts:105-265 | every added leaf stays added, in order, a move adding where it lands |
| `MoveAccounts.RemovedBalance` | frontend/lib/value-diff.ts:105-265 | removed leaves after, plus those dropped, are removed leaves before, plus those shown as moved |
| `MoveAccounts.RemovedConservedIff` | frontend/lib/value-diff.ts:105-265 | removed leaves are conserved exactly when the leaves whose path key pairs on one side are those shown as moved on the other |
| `MoveAccounts.RemovedConserved` | frontend/lib/value-diff.ts:105-265 | with path keys apart inside each change, splitting the moves back gives exactly the removed leaves, each source used once |
| `MovePairs.MovesAreThePairs` | frontend/lib/value-diff.ts:105-265 | a move is listed exactly for the pairs of whole changes and then of leaves of the changes left |
| `MovePairs.CleanKeysApart` | frontend/lib/value-diff.ts:74-87 | trees without repeated or NUL-holding keys keep their path keys apart |
| `MovePairs.RepeatedKeyLosesLeaf` | frontend/lib/value-diff.ts:85-87 | between two concrete documents, one with a repeated key, a removed leaf is lost |
| `MoveShape.ChangedStay` | frontend/lib/value-diff.ts:210-263 | changes in place stay as they are and in order |
| `MoveShape.ShapesKept` | frontend/lib/value-diff.ts:210-263 | every change keeps the texts of its kind, and a move has an origin and one text |
| `MoveShape.FewestParts` | frontend/lib/value-diff.ts:187-208 | no way to cut a branch so that every paired leaf is a part of its own has fewer parts |
| `MoveTruth.StructuralDiffTrue` | frontend/lib/value-diff.ts:105-365 | unless an object repeats a key or has a NUL in one, every change and move listed is true: the first document has the text before at the path or origin, the second the text after at the path |
| `MoveDetection.CollectLeaves` | frontend/lib/value-diff.ts:74-83 | appends the leaves of the subtree with their paths, in order |
| `MoveDetection.IndexByText` | frontend/lib/value-diff.ts:153-160 | groups by text, skipping trivial texts, keys in order of first appearance |
| `MoveDetection.PairUp` | frontend/lib/value-diff.ts:123-135 | going through the index finds exactly the pairs, in order |
| `MoveDetection.FindMoves` | frontend/lib/value-diff.ts:105-265 | the two phases with their maps and sets compute the specified change list |
| `MoveDetection.DiffStructure` | frontend/lib/value-diff.ts:311-365 | nothing when a side does not parse; else the walked changes up to the limit, moves detected, unchanged leaves counted, truncation noted; for documents without repeated or NUL-holding keys every change listed is true of both |
| `MoveTruth.StructuralDiffConserves` | frontend/lib/value-diff.ts:311-365 | for well-formed documents the moves keep all changes in place, all added leaves, and all removed ones if no object repeats a key or has a NUL in one |
| `Upgrade.WalkWellFormed` | frontend/lib/prepare-upgrade-value.ts:167-319 | the prepared value is again a derivation of the JSON grammar |
| `Upgrade.InitialWf` | frontend/lib/prepare-upgrade-value.ts:114-151 | a value made for a missing property is JSON |
| `UpgradeFills.InitialStarts` | frontend/lib/prepare-upgrade-value.ts:114-151 | a missing property has a starting value exactly when its default is spelled and accepted, or it has none and may be an empty list or an object of declared properties; the value is that default, that list, or the required members that can start, and the report says where in it defaults and lists are |
| `UpgradeFills.AdditionsFill` | frontend/lib/prepare-upgrade-value.ts:208-291 | for every missing property, in schema order: a list that may take over the first string under its declared or singular name does so at once if declared and filled, or once accepted, and is suggested until then; any other wanted property starts with its value; nothing else is added or reported |
| `Upgrade.NoEditsNoChange` | frontend/lib/prepare-upgrade-value.ts:167-328 | with nothing added, removed or converted, every character from the first token to the last stays |
| `UpgradeEdits.WalkUpgrades` | frontend/lib/prepare-upgrade-value.ts:167-319 | position by position: a scalar stays or is the reported conversion, exactly when the schema names it; items are related one to one; an object leaves out exactly the forbidden members that no suggestion of its own is about, keeps all others in order under their keys, and then has exactly the fills of the properties it lacked, in schema order; the report is that of the parts and of these edits, nothing more and nothing less |
| `UpgradeEdits.OnePathTwoFates` | frontend/lib/prepare-upgrade-value.ts:208-279 | two concrete objects under one repeated key: at the same path a member is the source of a pending suggestion in one and removed in the other |
| `UpgradeEdits.AllowedStay` | frontend/lib/prepare-upgrade-value.ts:271-279 | members that the schema does not forbid all stay, in place, and none is reported as removed |
| `UpgradeEdits.NothingWithoutSchema` | frontend/lib/prepare-upgrade-value.ts:193-196 | a value under a forbidden key is walked without a schema, and nothing is reported inside it |
| `UpgradeScript.EditScript` | frontend/lib/prepare-upgrade-value.ts:167-319 | trees so related have tokens so related: every token stays in place, but for whole members left out or put in, each with at most one comma, and numbers swapped for names, each standing in the tree at its path, and each as often as it is reported |
| `UpgradeScript.PreparedIsFaithful` | frontend/lib/prepare-upgrade-value.ts:34-328 | the value offered is derivable, its tree is the stored one upgraded exactly as reported, its tokens come from the stored ones by such a script, and without edits it is the stored text byte for byte |
| `Upgrade.RemovedAreForbidden` | frontend/lib/prepare-upgrade-value.ts:183-279 | every removal reported is of a key that the schema forbids there |
| `Upgrade.ConvertsExactly` | frontend/lib/prepare-upgrade-value.ts:153-166 | a stored whole number becomes a name exactly when the schema gives that very number one of its names |
| `JsonSpans.TokensInPlace` | frontend/lib/json-text.ts:82-167 | the non-whitespace tokens of a document are those of its derivation, each at its offsets |
| `UpgradePlaces.SliceIsText` | frontend/lib/prepare-upgrade-value.ts:189-197 | slicing the text from a value's first token to its last gives exactly that value |
| `UpgradePlaces.NextStep` | frontend/lib/prepare-upgrade-value.ts:205 | after an entry the next token is a comma exactly when another entry follows |
| `UpgradeRewrite.Rewriter.MakeInitial` | frontend/lib/prepare-upgrade-value.ts:114-152 | the recursion makes the specified starting text and appends what it reports |
| `UpgradeRewrite.Rewriter.Migrate` | frontend/lib/prepare-upgrade-value.ts:208-270 | every missing list is judged as specified, and the keys held back are exactly the sources of pending suggestions |
| `UpgradeRewrite.Rewriter.Keep` | frontend/lib/prepare-upgrade-value.ts:271-279 | the parts that stay, whether any differs from what was stored, and the removals |
| `UpgradeRewrite.Rewriter.AddMissing` | frontend/lib/prepare-upgrade-value.ts:280-291 | the parts added for missing properties, in declaration order, each reported |
| `UpgradeRewrite.Rewriter.ReadMembers` | frontend/lib/prepare-upgrade-value.ts:171-207 | the loop over an object's tokens ends past its bracket with every entry's key, new text and stored text |
| `UpgradeRewrite.Rewriter.WalkItems` | frontend/lib/prepare-upgrade-value.ts:294-313 | the loop over an array's tokens gives the specified text, the stored slice if no item changed |
| `UpgradeRewrite.Rewriter.Walk` | frontend/lib/prepare-upgrade-value.ts:167-319 | the recursion over the shared cursor consumes exactly the value's tokens, returns the text of the specified derivation and appends its report |
| `UpgradeRewrite.PrepareUpgradeValue` | frontend/lib/prepare-upgrade-value.ts:34-328 | without a schema or for malformed text nothing changes; else the result is that of the walk over a derivation of the text: well-formed, the stored tree upgraded position by position exactly as reported and accepted, by a script of those edits, with every migrated list in place, and the text itself if there is no edit; no suggestion with a list to offer has been accepted, and no value is discarded unaccepted |
| `UpgradeAdded.AddedAreMissing` | frontend/lib/prepare-upgrade-value.ts:280-291 | every addition reported is of a property that the schema declares and the stored object there lacks |
| `UpgradeConsent.MigrationsConsented` | frontend/lib/prepare-upgrade-value.ts:230-291 | over the whole value, a list migration that discards an empty string was accepted, every migration made is also reported as added, and no suggestion with a list to offer has been accepted |
| `UpgradeConsent.AcceptingMoves` | frontend/lib/prepare-upgrade-value.ts:237-269 | over the whole value, accepting a suggestion that has a list to offer makes it a migration with the same source, target and value |
| `UpgradeShown.MigratedShown` | frontend/lib/prepare-upgrade-value.ts:259-291 | every migration reported of an upgraded tree has its list in the prepared tree at its target |
| `UpgradeDefaults.CollectsExactDefaults` | frontend/lib/prepare-upgrade-value.ts:52-87 | every default of the parsed schema ends up with the exact text of the member the parser keeps, whatever members with the same key come before it |
| `UpgradeDefaults.NotedIff` | frontend/lib/prepare-upgrade-value.ts:63-86 | a text is noted exactly for the objects beside which some default member is walked, hidden by a later member or not |
| `UpgradeDefaults.StrayNote` | frontend/lib/prepare-upgrade-value.ts:72-74 | a concrete schema text in which a hidden default is noted for an object without one |
| `UpgradeDefaults.ReadsExactly` | frontend/lib/prepare-upgrade-value.ts:117-127 | what is looked up for any schema of the document is the exact text of its default, and nothing if it has none |
| `UpgradeDefaults.ReadsNullable` | frontend/lib/prepare-upgrade-value.ts:101-119 | for a schema wrapped to allow null it is the default of what is wrapped, or else the wrapper's |
| `UpgradeDefaults.Collector.Collect` | frontend/lib/prepare-upgrade-value.ts:63-86 | the recursion over the shared position consumes exactly the value's tokens and notes the specified defaults |
| `UpgradeDefaults.CollectDefaults` | frontend/lib/prepare-upgrade-value.ts:52-87 | nothing for schema text that is no JSON object; else whatever is looked up is the exact text of a default, and there is a note exactly where a default member was walked |
| `Crc.BuildTable` | frontend/lib/zip.ts:10-20 | each table entry is its index shifted eight times |
| `Crc.TableStep` | frontend/lib/zip.ts:22-26 | a look-up and a shift by eight do the work of eight single shifts |
| `Crc.FeedIsShifts` | frontend/lib/zip.ts:22-26 | adding a byte and shifting equals feeding its bits one at a time |
| `Crc.Crc32` | frontend/lib/zip.ts:22-26 | the table-driven loop equals the bit-by-bit register for every byte sequence |
| `Crc.CrcIsRemainder` | frontend/lib/zip.ts:10-26 | the checksum is the complemented remainder of the complemented, padded message on division by the generator polynomial |
| `Zip.Join` | frontend/lib/zip.ts:40-49 | the filled buffer is the concatenation of the parts |
| `Zip.ValueOfLe` | frontend/lib/zip.ts:28-38 | a number that fits is read back from its little-endian bytes |
| `Zip.FieldsReadBack` | frontend/lib/zip.ts:28-49 | a record of fixed-width fields is read back at its position in any archive |
| `Zip.LocalRecord` | frontend/lib/zip.ts:97-111 | the local header with name and content |
| `Zip.CentralRecord` | frontend/lib/zip.ts:114-135 | the central header with attributes, offset and name |
| `Zip.ZipReadsBack` | frontend/lib/zip.ts:70-151 | a reader that takes one-disk archives of stored, UTF-8-named Unix entries, from the end record along a central directory of the size stated and its offsets, recovers every name, date, mode, size, checksum and content, in order, below 2^32 bytes |
| `Zip.CreateStoredZip` | frontend/lib/zip.ts:70-151 | the archive of the entries, or the first refusal in entry and check order |
| `Zip.AcceptedReadBack` | frontend/lib/zip.ts:51-151 | entries that pass the checks are read back from the archive written for them |
| `Sse.SseParser.Dispatch` | frontend/lib/sse.ts:39-50 | delivers the frame's message if it has data, empties the frame, and reports a stop |
| `Sse.SseParser.HandleLine` | frontend/lib/sse.ts:52-75 | one line does to frame and deliveries what the line function says |
| `Sse.SseParser.Push` | frontend/lib/sse.ts:78-88 | a chunk handles every completed line up to a stop and keeps the rest |
| `Sse.SseParser.Flush` | frontend/lib/sse.ts:91-98 | the last line and the last frame are still delivered |
| `Sse.Deliver` | frontend/lib/sse.ts:32-100 | pushing chunks until a stop and flushing delivers what the whole text does |
| `Sse.ChunkInvariant` | frontend/lib/sse.ts:32-100 | deliveries up to the first stop do not depend on how the text is cut |
| `Sse.RoundTrip` | frontend/lib/sse.ts:32-100 | messages printed as frames are delivered again from any chunking, up to where the handler stops |
| `Sse.RoundTripIff` | frontend/lib/sse.ts:32-100 | a printed message comes back exactly when its event is not empty and no field breaks a line or ends one with a carriage return |
| `Sse.RoundTripAllIff` | frontend/lib/sse.ts:32-100 | a printed sequence comes back unchanged to a handler that never stops exactly when every message of it can be written |
| `Sse.DeliveredNoLf` | frontend/lib/sse.ts:39-75 | no text delivers an empty event or a line feed in an event or id |
| `Sse.LineSpells` | frontend/lib/sse.ts:52-75 | a line is taken apart into field and value exactly as it can have been written: a name alone, or a colon, perhaps one space, and the value |
| `Sse.FrameMeans` | frontend/lib/sse.ts:39-75 | of any lines that are not blank a frame has all data values, the last event and the last id, and nothing of comments and other fields |
| `Sse.CarriageReturns` | frontend/lib/sse.ts:52-56 | a carriage return before the line feed makes no difference |
| `Subscribers.RunKeepsInv` | frontend/lib/useReleaseSubscribers.ts:85-251 | every interleaving of loads, frames, failures, timers, visibility, refreshes, scope changes and unmounts keeps the invariant |
| `Subscribers.OneSource` | frontend/lib/useReleaseSubscribers.ts:153-222 | polling and an accepting stream are never both live, there is one of either at most, and one poll timer at most |
| `Subscribers.DataOfCurrentScope` | frontend/lib/useReleaseSubscribers.ts:92-251 | what is returned was fetched for the scope rendered, or is nothing, and says poll while polling |
| `Subscribers.NoFrameAfterRefresh` | frontend/lib/useReleaseSubscribers.ts:130-138 | after a refresh no frame of that run of the effect changes anything, whatever happens in between |
| `Subscribers.NoPageBehindFrame` | frontend/lib/hooks.ts:54-80 | a page begun before an accepted frame shows nothing when it completes, whatever happens in between |
| `Subscribers.PagesAreFresh` | frontend/lib/useReleaseSubscribers.ts:102-128 | in every reachable state a page that changes what is shown was begun after the last frame accepted |
| `Subscribers.NoPageBesideStream` | frontend/lib/useReleaseSubscribers.ts:140-222 | while a stream is accepting, every load under way is already superseded and shows nothing |
| `Subscribers.RefreshedPolls` | frontend/lib/useReleaseSubscribers.ts:130-138 | after a refresh the run of the effect polls, its stream retired, until it ends |
| `Subscribers.LatestPageShows` | frontend/lib/useReleaseSubscribers.ts:102-128 | in every reachable state the page of the latest load is shown, stale exactly if incomplete |
| `Subscribers.LatestFailureMarks` | frontend/lib/useReleaseSubscribers.ts:124-127 | when the latest load fails, what is shown stays and is marked as stale |
| `Subscribers.AcceptedFrameShows` | frontend/lib/useReleaseSubscribers.ts:194-214 | in every reachable state an accepted frame is shown as streamed, stale exactly if incomplete, and failures count from zero again |
| `Subscribers.StallsOnlyByStrayAbort` | frontend/lib/useReleaseSubscribers.ts:140-249 | from a state in which the view goes on (streaming, loading, or polling with a timer or load out while visible) a step leaves it going on exactly unless it is an abort error on a live stream |
| `Subscribers.NeverStalls` | frontend/lib/useReleaseSubscribers.ts:140-249 | in every run without such an error the view always goes on |
| `Subscribers.StrayAbortStalls` | frontend/lib/useReleaseSubscribers.ts:218-219 | a concrete run in which such an error leaves a view that neither streams nor polls |
| `SubscriberSteps.RefreshLoads` | frontend/lib/useReleaseSubscribers.ts:130-138 | a refresh of the scope shown begins a load of it, retires the stream and polls, keeping what is shown |
| `SubscriberSteps.StreamFailureMarks` | frontend/lib/useReleaseSubscribers.ts:224-225 | a stream that breaks leaves what is shown, marked as stale |
| `SubscriberSteps.EffectsBegin` | frontend/lib/useReleaseSubscribers.ts:140-240 | running the effect keeps what is shown of the same scope, shows nothing of another, and loads the first page for a new run |
| `SubscriberSteps.HiddenIsSilent` | frontend/lib/useReleaseSubscribers.ts:157-169 | in every reachable state no poll is timed while the page is hidden |
| `SubscriberSteps.UnmountEnds` | frontend/lib/useReleaseSubscribers.ts:242-248 | after an unmount, until it is rendered again, nothing that completes changes the view, and no timer is set |
| `SubscriberSteps.FailuresAreStrikes` | frontend/lib/useReleaseSubscribers.ts:187-230 | in every run the failures counted for a stream are those since its last accepted frame |
| `SubscriberSteps.SecondStrikePolls` | frontend/lib/useReleaseSubscribers.ts:218-233 | the first failure since a frame is slept over, the second one makes the view poll |
| `LatestRequest.Requests.Begin` | frontend/lib/hooks.ts:64-75 | the new token is current and its request live; every earlier token is not, and its request is aborted |
| `LatestRequest.Requests.Abort` | frontend/lib/hooks.ts:58-62 | no token is current and every request is aborted |
| `LatestRequest.OneCurrent` | frontend/lib/hooks.ts:54-80 | at most one token is current |
| `Auth.TokenStore.SetToken` | frontend/lib/api.ts:140-149 | the new token is current and no identity is remembered for it |
| `Auth.TokenStore.GetToken` | frontend/lib/api.ts:151-159 | reading the token changes nothing that can be read |
| `Auth.TokenStore.ClearToken` | frontend/lib/api.ts:161-169 | neither token nor identity is left |
| `Auth.TokenStore.ExpireToken` | frontend/lib/api.ts:171-178 | clears exactly when the rejected request carried the current token |
| `Auth.TokenStore.StoreIdentity` | frontend/lib/api.ts:180-198 | the identity is remembered for the current token |
| `Auth.SupersededForGood` | frontend/context/AuthContext.tsx:90-286 | an attempt once superseded changes nothing at all but its own mark, in any later state |
| `Auth.SupersededByAny` | frontend/context/AuthContext.tsx:90-301 | in every run, a new check, a sign-in, a sign-out or a loss of the session supersedes all attempts out at that time, so none of them changes anything whenever it completes |
| `Auth.SignOutHolds` | frontend/context/AuthContext.tsx:289-301 | after a sign-out there is no token and nobody is signed in until a new sign-in begins, whatever completes or is retried |
| `Auth.ClearedOnlyByItsOwn` | frontend/lib/api.ts:160-178 | a token goes away only on sign-out or for a request or current attempt that carried it |
| `Auth.LateArrivals` | frontend/context/AuthContext.tsx:90-301 | 401s for other tokens and ends of superseded attempts, in any order and number, leave token, identity, session and every flag as they are |
| `Auth.RecoveryKeepsScope` | frontend/context/AuthContext.tsx:57-64 | while a draft waits, a completion that verifies the session shows the same name, kind, environment and application |
| `AuthOutcomes.LateSpares` | frontend/context/AuthContext.tsx:90-286 | late arrivals, in any order and number, change neither the session nor the attempt under way |
| `AuthOutcomes.SignInVerified` | frontend/context/AuthContext.tsx:202-286 | a sign-in that is answered and verified, whatever ends late in between, is signed in with its token, remembered and ready, or, if a draft waits for another scope, turned away with that identity shown |
| `AuthOutcomes.SignInUnverified` | frontend/context/AuthContext.tsx:241-266 | one that cannot be verified keeps its token and waits for verification under the identity wanted or answered; an aborted one changes nothing more |
| `AuthOutcomes.SignInMismatched` | frontend/context/AuthContext.tsx:222-229 | one answered with another name or kind than the draft waits for leaves the session as it was |
| `AuthOutcomes.SignInRefused` | frontend/context/AuthContext.tsx:209-219 | one refused leaves the session as it was, and the console ready if there is no token to check |
| `AuthOutcomes.CheckSucceeds` | frontend/context/AuthContext.tsx:96-136 | a check that succeeds, whatever ends late in between, signs in with the token checked, or turns away if a draft waits for another scope |
| `AuthOutcomes.CheckRejected` | frontend/context/AuthContext.tsx:137-156 | a token the server refuses is dropped with what was remembered, and only the identity of a waiting draft stays shown |
| `AuthOutcomes.CheckUnreachable` | frontend/context/AuthContext.tsx:157-175 | without an answer the token stands, with the identity remembered for it or else waiting for verification |
| `AuthOutcomes.NothingToCheck` | frontend/context/AuthContext.tsx:96-101 | without a token the console is ready to sign in |
| `AuthOutcomes.SessionLost` | frontend/context/AuthContext.tsx:181-194 | a 401 of the token in use drops it and what was remembered, and only with unsaved work keeps the identity shown and waits for it |
| `DecimalKeys.KeyIsParts` | frontend/components/SchemaForm.tsx:288-295 | the string steps compute sign, significant digits and power of ten |
| `DecimalKeys.KeysDecideValues` | frontend/components/SchemaForm.tsx:286-295 | two texts of the number grammar have equal keys exactly when they denote the same rational |
| `DecimalKeys.CommitsExactValues` | frontend/components/SchemaForm.tsx:297-307 | a draft is committed exactly when the value typed equals that of the committed number's spelling, and is whole if that is asked |
| `PathKeys.ReplacementsAreCharwise` | frontend/lib/schema-form.ts:70-75 | the three replacements in turn replace each character once |
| `PathKeys.PathKeyRoundTrip` | frontend/lib/schema-form.ts:70-75 | a key decodes to its path |
| `PathKeys.PathKeyInjective` | frontend/lib/schema-form.ts:70-75 | equal keys, equal paths |
| `PathKeys.PrefixIff` | frontend/lib/schema-form.ts:70-75 | a path lies below a nonempty path exactly when its key continues the other's after a space |
| `PathKeys.NothingBelowRootKey` | frontend/lib/schema-form.ts:70-75 | no key continues that of the empty path, which is why the prefix rule is for nonempty paths |
| `PathKeys.NewKeyInjective` | frontend/components/SchemaForm.tsx:435-454 | no two drafts end up under one key |
| `PathKeys.NewItemStays` | frontend/components/SchemaForm.tsx:1312 | the drafts of an item and of a map key being added stay, under keys that no path has and that differ |
| `PathKeys.ReindexListDrafts` | frontend/components/SchemaForm.tsx:435-454 | every draft is under its new key and nothing else is, in whatever order drafts are visited |
| `PathKeys.DraftFollowsItem` | frontend/components/SchemaForm.tsx:1437-1443 | after an item is removed, each draft inside an item, also of an item or map key being added there, is at the path its item now has, and the removed item's drafts are gone |
| `PathKeys.OtherDraftsStay` | frontend/components/SchemaForm.tsx:435-454 | drafts of other fields, of whatever is being added there or to the list itself, and of the extra keys are not disturbed |

## Left out

- Characters are Unicode scalar values, not UTF-16 code units: lone surrogates, offsets counted in code units and the sort order of keys beyond the basic plane are not modelled.
- Foreign calls are parameters: UTF-8 lengths and encodings, JSON string parsing and quoting, number parsing and printing, the schema validator, clocks and random delays.
- Message texts: problem messages of the checker, summary labels, toast texts and error wording are not modelled.
- JsonTree.ParseJsonTree: nodes are values attached when they close and their span is a function, so sharing and in-place growth of nodes are not captured.
- JsonText.CheckJson: the loop calls a step function for one token; the branches are in that function.
- UpgradeRewrite.Rewriter.Migrate: converted values and pending targets are a list of verdicts beside the properties, not a map and a set.
- UpgradeEdits.WalkUpgrades: whether an added default holds keys its own schema forbids is left to the validator that accepted it, which is foreign.
- UpgradeRewrite.PrepareUpgradeValue: report paths are lists of segments, not joined strings; the schema is given as read, with the exact text of its defaults, so turning parsed schema text into it and picking an alias are not modelled.
- UpgradeDefaults.CollectDefaults: nodes of the parsed schema are named by the route to them, and inherited names such as `__proto__` are not modelled.
- Zip.ZipReadsBack: archives of 2^32 bytes and more, whose offsets are cut to 32 bits, are outside it.
- Sse.Deliver: the byte stream, its decoder and abort signals around the parser are network plumbing.
- Subscribers.RunKeepsInv: rows, counts and revisions are reduced to where they came from; jitter and the length of delays do not matter to an arbitrary interleaving.
- Auth.SupersededForGood: unmounting the provider, the toast and the remembered namespace are not modelled.
- Auth.TokenStore.SetToken: a token is not empty, because the code takes the empty string for none; session storage works always or never; a single write that fails, and then skips the removal of the identity, is not modelled.
- PathKeys.ReindexListDrafts: the key of a list is never that of the empty path, because a form has an object at its root; list indexes are unbounded; JavaScript's rounding of indexes beyond 2^53 is not modelled.
- Collapsing helpers, scalar describers, duration parsing, path formatting, getters and setters along a path, counters and schema inference: they would only add easy members.
- Rendering, routing, the API client and the Go files: no algorithm of this kind.

# Verified models of Browser CLI

Browser CLI drives a browser for agents through a daemon and a browser extension. This project models the parts of it
that carry state or intricate algorithms and proves what they promise, for every input, run and interleaving. Objects
that the program updates in place are classes here; each method is proved to compute a function of the old state, and the
lemmas are about those functions and about all runs made of them.

| files | what they model |
|---|---|
| SnapshotLines, SnapshotTree, SnapshotFrames, RefEncoding, RefTables, SnapshotRefs, SnapshotCompiler, SnapshotText, RefResolver | the one-pass compiler from accessibility text to a tree with stable refs, against a definition of the tree without stacks or counters, and the way from a ref back to its line |
| Texts, Base64, Wire, ExtensionSessions, WireProtocol, WireDelivery | the socket between extension and daemon: framing, artifacts, reassembly, and delivery under every interleaving |
| Crc32, StoredZip, PngSplice | the binary formats: CRC-32 as polynomial division, a stored ZIP archive read back from its end record, colour chunks spliced into a PNG |
| TabRegistries, TabOwnership, PageClosing | page ownership, claims, isolation of agents, and closing pages under their users |
| ExecutionCoordinator, CommandDepth, RunRegistry | admission to the browser, counting commands and deferring driver changes, background runs |
| StaleRefs, DriverSwitch | when a ref may be used, and what a change of driver keeps |
| WorkspaceBinding, NetworkStore, TiledCapture | ownership saved across deaths of the worker, bounded network buffers with waiters, screenshots composed of tiles |
| Options, Sets | shared helpers |

In the concurrent models each piece of code between two awaits, or under one lock, is one step, and steps of different
tasks interleave in any order. Request ids are distinct, new page ids are fresh, and leaving a scope is not itself
cancelled. What the browser, the network and the clock do is a parameter of a step or of a function.

Where the code does less than its comments or tests suggest, the model follows the code:

- Refs of one snapshot collide exactly when a nameless line meets a line whose quoted name is empty (`SnapshotRefs.RefsDistinctIff`).
- Full and interactive snapshots agree on lines with interactive roles, and on other lines exactly if the full snapshot has given no ref of its own to an earlier line with the same role, name and frame (`SnapshotRefs.ModesNumberAlikeIff`). Interactive snapshots do not indent kept lines.
- Responses of more than 16385 chunks fail (`WireDelivery.LongResponsesFail`); with the extension's own chunks of 256 KiB no JavaScript string is long enough for that. A disconnection can strip a complete response of its artifacts (`WireDelivery.DisconnectDropsArtifacts`).
- The size of the ZIP central directory needs a bound of its own: names of 65500 bytes fill it before the local part is full (`StoredZip.DirectoryNeedsItsOwnBound`).
- A queued driver change is lost if the watcher's own switch fails, and changes of driver can overlap running commands (`CommandDepth.FateOfAQueuedChange`, `CommandDepth.OverlapBeginsIff`).
- A command of any agent that finds the workspace binding lost clears everybody's pages; an agent that does nothing keeps what it has exactly if it has no page or that does not happen (`TabOwnership.AgentsAreIsolated`).
- A change of driver sets agents that have opened or activated another page meanwhile back to the page it read at its beginning (`TabOwnership.RestoreKeepsActiveIff`).
- A driver change between the two halves of a capture leaves stale refs answerable (`StaleRefs.LocatorsAreFreshUnlessOvertaken`).

## Classes

The methods of these classes are the steps of the concurrent models. Each is proved to turn the old state into a function
of it, and the rows below state what holds of those functions and of the runs made of them.

| class | source |
|---|---|
| ExtensionSessions.ExtensionSession | src/browser_cli/extension/session.py:105-275 |
| TabRegistries.TabRegistry | src/browser_cli/tabs/registry.py:45-328 |
| ExecutionCoordinator.BrowserExecutionCoordinator | src/browser_cli/daemon/execution.py:11-51 |
| CommandDepth.BrowserService | src/browser_cli/daemon/browser_service.py:124-176, 1129-1169 |
| RunRegistry.CommandRunRegistry | src/browser_cli/daemon/run_registry.py:22-179 |
| StaleRefs.SnapshotRegistry | src/browser_cli/refs/registry.py:29-51 |
| WorkspaceBinding.BindingStore | browser-cli-extension/src/background/workspace_binding.js:33-121 |
| NetworkStore.NetworkRecordStore | src/browser_cli/network.py:62-147 |

## Model

| member | source | states |
|---|---|---|
| SnapshotTree.AncestorsNest | src/browser_cli/refs/generator.py:259-260 | The lines around an enclosing line are exactly the enclosing lines before it: the tree that indentation denotes is well formed, whatever lines are blank, unmatched or dropped. |
| SnapshotTree.PoppingLeavesAncestors | src/browser_cli/refs/generator.py:258-260 | Popping the open lines that are not shallower than line i, from the end, leaves exactly the lines that enclose i in the tree defined without a stack. |
| SnapshotTree.OutputNestingIsInputNesting | src/browser_cli/refs/generator.py:241-246 | For kept lines, one encloses the other in the input exactly if it comes earlier and every kept line in between, and the other itself, is shown deeper than it: the output keeps the meaning of the nesting. |
| SnapshotText.TextShowsNesting | src/browser_cli/refs/generator.py:309-385 | In the text of a full snapshot, split into lines again and measured by leading blanks: of two kept lines one encloses the other on the page if and only if every kept line behind it, up to and with the other, is indented deeper. |
| SnapshotText.NothingIsSaid | src/browser_cli/refs/generator.py:385-385 | A snapshot that shows no line says so. |
| SnapshotText.IndentIsDepth | src/browser_cli/refs/generator.py:264-309 | A kept line of a full snapshot, and a description in either mode, is indented by two blanks for each kept line that encloses it; a kept line of an interactive snapshot is not indented. |
| SnapshotText.ShownIff | src/browser_cli/refs/generator.py:265-307 | Which lines are shown: kept ones; properties and, in a full snapshot, unmatched lines under a kept line or at the top; in an interactive one unmatched properties under a kept line. |
| SnapshotText.TextShowsRoleAndName | src/browser_cli/refs/generator.py:309-311 | What a kept line shows first are a dash, its role and, in quotes, its name. |
| SnapshotText.TextShowsDescription | src/browser_cli/refs/generator.py:264-288 | A description is shown as it is, with a dash in front if it has none. |
| SnapshotText.TextShowsItsRef | src/browser_cli/refs/generator.py:345-347 | The first ref in the text of a line is its own, followed by its occurrence number exactly if that is not 0 and the line has a name; a line without a ref shows none. |
| SnapshotLines.LowerIs | src/browser_cli/refs/generator.py:277-277 | Capital letters become small ones, everything else stays; roles count in small letters. |
| SnapshotLines.KeptIff | src/browser_cli/refs/generator.py:149-181 | Which lines are kept and which get a ref, in either mode, by roles, marks and names. |
| SnapshotLines.DroppedIff | src/browser_cli/refs/generator.py:179-181 | With the own role tables, a full snapshot drops exactly the nameless groupings without a mark. |
| SnapshotFrames.FramePathsNameFrames | src/browser_cli/refs/generator.py:298-302 | Two lines carry the same frame path exactly if the same iframes enclose them, so distinct iframes get distinct paths. |
| SnapshotFrames.PathIsInnermostOwnPath | src/browser_cli/refs/generator.py:314-314 | The path at the top of the popped iframe stack is the sequence of local positions of all enclosing iframes, or empty outside iframes. |
| SnapshotFrames.CountingByPath | src/browser_cli/refs/generator.py:299-301 | A counter per parent path counts the siblings in the tree: it gives each iframe its position among the iframes with the same surroundings. |
| RefEncoding.EncodeInjective | src/browser_cli/refs/generator.py:145-146 | The string to hash determines role, name, frame path and occurrence, even when the name contains the separator, for roles without it. |
| SnapshotRefs.NthNumbersInDocumentOrder | src/browser_cli/refs/generator.py:315-317 | Within one role, name and frame path the occurrence numbers are 0, 1, ..., k - 1 in document order, each given once. |
| SnapshotRefs.RefsDistinctIff | src/browser_cli/refs/generator.py:315-318 | With a hash that separates the hashed strings, all refs differ exactly if no nameless line shares role and frame with a line whose quoted name is empty. |
| SnapshotRefs.FinalTable | src/browser_cli/refs/generator.py:327-383 | When refs differ, the final dictionary holds for each ref-bearing line its own data, with the occurrence number dropped exactly if its role, name and frame path occur once. |
| SnapshotRefs.EntryIsTheLine | src/browser_cli/refs/generator.py:327-344 | The entry of a line tells its role, name, texts, interactivity, frame path, parent ref and browser ref. |
| SnapshotRefs.OnlyLinesHaveRefs | src/browser_cli/refs/generator.py:344-344 | Every key of the final dictionary is the ref of some line. |
| SnapshotRefs.ParentRefIsNearest | src/browser_cli/refs/generator.py:248-252 | A line's parent ref is that of the last line before it that encloses it and has a ref, or none. |
| SnapshotRefs.ModesAgreeOnInteractiveRoles | src/browser_cli/refs/generator.py:161-168 | Full and interactive snapshots of the same text keep every line with an interactive role and give it the same ref, name, occurrence number and frame path, though they keep different lines and hold different stacks. |
| SnapshotRefs.TwoButtonsShareARef | src/browser_cli/refs/generator.py:145-146 | The collision occurs: a nameless button beside one quoted "" get the same ref, in either mode and whatever the hash. |
| SnapshotRefs.ModesNumberAlikeIff | src/browser_cli/refs/generator.py:161-168 | A line with a ref in the interactive snapshot, whatever its role, has one in the full snapshot too; both number it alike and hash the same string if and only if no earlier line with its role, name and frame has a ref in the full snapshot only. |
| SnapshotRefs.ModesShareEntriesIff | src/browser_cli/refs/generator.py:376-383 | The two final entries of such a line agree, parent refs aside, if and only if moreover no later line is so, or the interactive snapshot has its role, name and frame more than once. |
| SnapshotRefs.ModesDisagreeOnMarkedLines | src/browser_cli/refs/generator.py:162-168 | The condition fails on two list items of which the second is clickable: the two modes hash different strings for it. |
| RefTables.FinalEntry | src/browser_cli/refs/generator.py:376-383 | For any items with distinct refs: the final table has each under its ref, in order, and drops the number exactly of those whose key no other item has. |
| RefTables.CountKeys | src/browser_cli/refs/generator.py:376-380 | The counting loop gives for each key the number of table entries with it, and knows no other keys. |
| RefTables.Deduplicate | src/browser_cli/refs/generator.py:376-383 | The two loops produce the deduplicated table. |
| SnapshotCompiler.EffectiveDepth | src/browser_cli/refs/generator.py:241-246 | The loop over the stack gives one more than the shown depth of the last kept entry that is shallower, or zero. |
| SnapshotCompiler.StackDepth | src/browser_cli/refs/generator.py:293-293 | On a popped stack that depth is the number of kept lines that enclose the current one. |
| SnapshotCompiler.NearestParentRef | src/browser_cli/refs/generator.py:248-252 | The loop from the top finds the ref of the last kept shallower entry that has one. |
| SnapshotCompiler.StackParentRef | src/browser_cli/refs/generator.py:335-335 | On a popped stack that is the ref of the nearest enclosing line that has a ref. |
| SnapshotCompiler.PopDepthStack | src/browser_cli/refs/generator.py:259-260 | From the open lines to the enclosing lines, by popping. |
| SnapshotCompiler.PopFrameStack | src/browser_cli/refs/generator.py:261-262 | The same for the iframe stack and the enclosing iframes. |
| SnapshotCompiler.PushFrame | src/browser_cli/refs/generator.py:350-354 | An iframe line puts its own path on the stack and advances the counter of its surroundings. |
| SnapshotCompiler.CountOccurrence | src/browser_cli/refs/generator.py:314-317 | The counter gives the line its occurrence number as counted over the whole text before it. |
| SnapshotCompiler.BuildRefData | src/browser_cli/refs/generator.py:318-343 | The stored data are those defined for the line without stacks or counters. |
| SnapshotCompiler.DescribeUnmatched | src/browser_cli/refs/generator.py:266-274 | What an unmatched line shows in either mode, and when it shows nothing. |
| SnapshotCompiler.DescribeProperty | src/browser_cli/refs/generator.py:285-288 | What a `/property` line shows, and when. |
| SnapshotCompiler.RenderLine | src/browser_cli/refs/generator.py:309-374 | A kept line is shown at the number of its kept ancestors in a full snapshot and unindented in an interactive one, with its ref and number. |
| SnapshotCompiler.CompileOpening | src/browser_cli/refs/generator.py:290-374 | One turn of the pass over a line that opens a level leaves stacks, counters, table and output right for the next line. |
| SnapshotCompiler.SnapshotFromLines | src/browser_cli/refs/generator.py:234-386 | The whole pass: its tree is the output defined line by line from the tree of ancestors, its refs are the final table. |
| RefResolver.ParseRefForms | src/browser_cli/refs/resolver.py:68-76 | Eight hexadecimal digits are accepted bare, with `@` and with `ref=`, in either case, inside any white space. |
| RefResolver.OnlyRefsParse | src/browser_cli/refs/resolver.py:68-76 | Nothing else is accepted. |
| RefResolver.NormalizedIs | src/browser_cli/refs/resolver.py:180-186 | Names and texts lose the white space around them and count as missing if nothing else is left. |
| RefResolver.RefsResolveToTheirLines | src/browser_cli/refs/resolver.py:173-214 | Every ref a snapshot hands out resolves, in every accepted spelling, to the role, name, texts to match, interactivity, frame path and number of its own line. |
| RefResolver.ChildTextIsTheFirst | src/browser_cli/refs/resolver.py:188-201 | A mere grouping is looked for by the text of the first line of the page whose parent ref it is and that is text or a grouping with something to show; by none exactly if there is no such line. |
| RefResolver.OnlyRefsResolve | src/browser_cli/refs/resolver.py:173-179 | Whatever resolves is the ref of a line of the snapshot. |
| Texts.FlattenSlices | browser-cli-extension/src/background/response_framing.js:19-20 | Joining the slices of a text gives the text back, over UTF-16 code units, even when a slice cuts a surrogate pair. |
| Texts.SlicesBounds | browser-cli-extension/src/background/response_framing.js:19-20 | At most n slices exactly if the text is at most n slice lengths long; no slice is empty or too long. |
| Base64.RoundTrip | browser-cli-extension/src/background/artifact_actions.js:50-56 | Decoding the encoding of any bytes gives the bytes (section 4 of RFC 4648). |
| Base64.OnlyGroupsDecode | browser-cli-extension/src/background/artifact_actions.js:46-48 | Whatever decodes is whole groups over the alphabet with padding at the end only. |
| Base64.ByteLengthOfEncoding | browser-cli-extension/src/debugger.js:67-79 | The length computed from an encoded text alone is the number of encoded bytes. |
| Base64.SymbolsAre | browser-cli-extension/src/background/artifact_actions.js:50-56 | The alphabet is that of table 1 of RFC 4648. |
| Base64.GroupHoldsBits | browser-cli-extension/src/background/artifact_actions.js:50-56 | Four symbols hold the 24 bits of three bytes, highest first. |
| Wire.SendFramedMessage | browser-cli-extension/src/background/response_framing.js:7-31 | The loop sends the whole text if it fits, otherwise its slices, numbered from 0 and the last one marked; an unusable chunk size falls back to the default. |
| Wire.FramedIs | browser-cli-extension/src/background/response_framing.js:10-31 | A response goes whole exactly if it is no longer than a slice, and otherwise in pieces that join to it, numbered from 0 with the last one marked. |
| Wire.EmitArtifact | browser-cli-extension/src/background/artifact_actions.js:140-179 | The loop sends a begin message, the slices of the encoding, numbered from 0 and the last one marked, and an end message with the number of bytes. |
| Wire.EmittedIs | browser-cli-extension/src/background/artifact_actions.js:146-178 | What is sent: the description, pieces that join to the encoding, numbered from 0 with the last one marked, and the number of bytes. |
| Wire.BytesToText | browser-cli-extension/src/background/artifact_actions.js:50-54 | Building the text in pieces of 0x8000 bytes gives one character per byte. |
| ExtensionSessions.ContiguousByEnds | src/browser_cli/extension/session.py:72-75 | Least index 0 and greatest index one less than the count hold exactly if the indexes are 0, 1, ... without a gap. |
| ExtensionSessions.Assemble | src/browser_cli/extension/session.py:69-81 | The joined text if the indexes have no gap, an error otherwise; the empty text for no chunks. |
| ExtensionSessions.ExtensionSession.Close | src/browser_cli/extension/session.py:163-170 | Leaving removes the id from all five maps and every artifact buffer of the request, and nothing else. |
| ExtensionSessions.ExtensionSession.AppendChunk | src/browser_cli/extension/session.py:178-228 | A chunk joins the buffer or decides the outcome: bad index, gap, bad text, wrong id, or the response. |
| ExtensionSessions.ExtensionSession.Complete | src/browser_cli/extension/session.py:261-275 | The buffer becomes a completed artifact and the event is set exactly if no other buffer of the request is open. |
| ExtensionSessions.ExtensionSession.Disconnect | src/browser_cli/extension/session.py:230-242 | Every pending future fails, every event is set and all maps are emptied. |
| ExtensionSessions.ExtensionSession.Receive | src/browser_cli/extension/session.py:408-424 | One turn of the socket loop is one delivery of the specification. |
| WireProtocol.StepKeepsInv | src/browser_cli/extension/session.py:105-275 | Whatever arrives, an event is set exactly while its request has no open artifact, and nothing is kept for a request that is gone. |
| WireProtocol.ClosedRequestsStayClosed | src/browser_cli/extension/session.py:163-176 | After `send_request` leaves, no map holds its id, and no late message for it changes anything. |
| WireProtocol.SettledOnce | src/browser_cli/extension/session.py:172-176 | A settled future keeps its result: a request resolves at most once. |
| WireProtocol.LostConnectionFailsAll | src/browser_cli/extension/session.py:230-242 | When the connection is lost or a frame cannot be read, every request that waits fails as disconnected, none goes on waiting for artifacts, and nothing is kept. |
| WireProtocol.TimeoutAbandons | src/browser_cli/extension/session.py:151-152 | A timeout gives up a request that waits, and only that one. |
| WireProtocol.ForeignChangesNothing | src/browser_cli/extension/session.py:172-275 | An event about other requests changes nothing that a request can see. |
| WireProtocol.OwnDependsOnView | src/browser_cli/extension/session.py:172-275 | What a message does to its own request depends only on what that request sees. |
| WireProtocol.InterleavingIsInvisible | src/browser_cli/extension/session.py:408-424 | However the messages of all requests interleave, a request ends up seeing what its own messages alone, in order, would have made it see. |
| WireDelivery.RequestsGetTheirOwnAnswer | src/browser_cli/extension/session.py:132-162 | For every interleaving of all streams, a request whose stream has arrived has exactly its own response and exactly its own artifacts, byte for byte and in order, and is free to return; before that it cannot return with a response. |
| WireDelivery.LongResponsesFail | src/browser_cli/extension/session.py:97-102 | A sent response gets through exactly if it is at most 16385 chunks long; a longer one fails at its first index above the limit. |
| WireDelivery.ChunksInAnyOrder | src/browser_cli/extension/session.py:178-228 | In whatever order the chunks of a response come, and if some come twice: once each slice has come, the last chunk resolves the request with the response. |
| WireDelivery.ChunkedOutcomeIs | src/browser_cli/extension/session.py:68-81 | For any chunks with valid indexes the last one decides: incomplete if the indexes have a gap, the response in the joined text if that is one with the same id, invalid otherwise. |
| WireDelivery.ABadIndexFails | src/browser_cli/extension/session.py:84-103 | A chunk whose index is missing, no number, negative or above 16384 fails its request, whatever came before. |
| WireDelivery.DisconnectDropsArtifacts | src/browser_cli/extension/session.py:230-242 | Losing the connection after everything arrived lets the request return its response without its artifacts. |
| WireDelivery.ArtifactsStayUntilDisconnect | src/browser_cli/extension/session.py:159-161 | Nothing else that concerns other requests can take completed artifacts away. |
| Crc32.RemainderIsUnique | browser-cli-extension/src/background/artifact_actions.js:27-36 | Over GF(2), a dividend has one quotient and one remainder by the CRC-32 polynomial. |
| Crc32.OneMoreBit | browser-cli-extension/src/background/artifact_actions.js:31-33 | One turn on the remainder register keeps it the remainder of one more message bit. |
| Crc32.ChecksumIsRemainder | browser-cli-extension/src/background/artifact_actions.js:27-36 | For every byte string, the checksum, inverted back and read from its lowest bit, is the remainder of the reflected, pre-inverted message times x^32. |
| Crc32.Compute | browser-cli-extension/src/background/artifact_actions.js:27-36 | The nested loops over 32-bit integers compute that checksum. |
| StoredZip.FieldsRoundTrip | browser-cli-extension/src/background/artifact_actions.js:6-14 | Reading little-endian fields of given widths back gives each value cut to its width, and what follows. |
| StoredZip.ToLittleEndian | browser-cli-extension/src/background/artifact_actions.js:6-14 | The loop writes the lowest bytes of the value reduced to 32 bits. |
| StoredZip.ConcatBytes | browser-cli-extension/src/background/artifact_actions.js:16-25 | The copied buffer is the concatenation of all parts. |
| StoredZip.PartAt | browser-cli-extension/src/background/artifact_actions.js:105-105 | The offset recorded for an entry is where its local header starts. |
| StoredZip.SignaturesAre | browser-cli-extension/src/background/artifact_actions.js:67-112 | As bytes, the three signatures are PK and two digits, as the format wants them. |
| StoredZip.BuildStoredZip | browser-cli-extension/src/background/artifact_actions.js:58-121 | The loop builds the archive of the specification: local parts, central parts, end record. |
| StoredZip.ArchiveReadsBackIff | browser-cli-extension/src/background/artifact_actions.js:58-121 | Read from its end record through the central directory, an archive gives back exactly its entries, with sizes, names, checksums and data in agreement, if and only if entry count and name lengths are below 2^16 and the local part and the central directory are below 2^32 bytes each. |
| StoredZip.DirectoryNeedsItsOwnBound | browser-cli-extension/src/background/artifact_actions.js:108-119 | 65535 empty entries with names of 65500 bytes keep count, names and local part within their fields, and the central directory exceeds its own: such an archive does not read back. |
| PngSplice.ImagesAreReadBack | browser-cli-extension/src/debugger.js:639-652 | The chunk walk succeeds exactly on bytes that are signature, whole chunks and less than a chunk, and reads those chunks. |
| PngSplice.ColorChunksAre | browser-cli-extension/src/debugger.js:643-649 | The chunks that count are those named iCCP, sRGB, gAMA, cHRM and cICP, and a chunk is as long as its first four bytes say, highest first. |
| PngSplice.PngColorChunks | browser-cli-extension/src/debugger.js:639-652 | The loop returns the colour chunks of the walk, or nothing. |
| PngSplice.Set | browser-cli-extension/src/debugger.js:663-667 | Copying into an array replaces exactly the bytes at the offset. |
| PngSplice.Splice | browser-cli-extension/src/debugger.js:663-667 | The array ends up as the first 33 bytes, the reference chunks, and the rest. |
| PngSplice.PreserveCaptureColorProfile | browser-cli-extension/src/debugger.js:654-669 | The image is spliced only if it has no colour chunks and the reference has some; otherwise it is returned as it is. |
| PngSplice.ReturnedAsItIsIff | browser-cli-extension/src/debugger.js:654-662 | An image is returned as it is exactly if it cannot be read, has colour chunks of its own, or the reference has none or cannot be read. |
| PngSplice.RestoredImageHasTheReferenceColors | browser-cli-extension/src/debugger.js:654-669 | For an image without colour chunks whose first 25 bytes after the signature are whole chunks (as a 13-byte header is), the result reads as those, the reference colours and the rest, and its colour chunks are the reference. |
| TabRegistries.TabRegistry.FindLatestPageId | src/browser_cli/tabs/registry.py:323-328 | The loop finds a page of the agent that none of its pages was used after, or nothing if it has none. |
| TabRegistries.TabRegistry.RemoveTab | src/browser_cli/tabs/registry.py:156-169 | The page goes; if it was active, a page of the agent that none of its remaining pages was used after is active now, and none exactly if it has no page left; otherwise the active page stays. |
| TabRegistries.RemovalHandsOver | src/browser_cli/tabs/registry.py:163-168 | The same of the step that every run is made of. |
| TabRegistries.UsedLastIsLatest | src/browser_cli/tabs/registry.py:52-275 | Opening, claiming, activating or refreshing a page makes it the latest of its owner, as long as the clock does not go back. |
| TabRegistries.ClaimsSucceedIff | src/browser_cli/tabs/registry.py:214-275 | An agent gets a page exactly if it owns it and no other request closes it or, failing that, holds it; the record and the table of tasks then name the request, and a refusal tells who is in the way and changes nothing. |
| TabRegistries.OthersSucceedIff | src/browser_cli/tabs/registry.py:74-291 | An owned page can be reserved or made active, and any page refreshed, exactly while nobody closes it, busy or not; a refresh sets what it is given and nothing else that is shown. |
| TabRegistries.TabRegistry.ClearSnapshotState | src/browser_cli/tabs/registry.py:194-201 | The loop makes every page forget its snapshot and changes nothing else. |
| TabRegistries.OperationsRespectOwners | src/browser_cli/tabs/registry.py:52-328 | Every operation by one agent keeps all active entries pointing at the agent's own pages and changes no record and no active page of another agent, new page ids being fresh. |
| TabOwnership.OperationTouchesOwnPagesOnly | src/browser_cli/tabs/registry.py:52-321 | So do the operations that go by request instead of by agent, because a page is only ever held and closed by requests of its owner; that includes a refresh of any page of the agent, whoever holds it. |
| TabOwnership.ActIsOperation | src/browser_cli/daemon/app.py:446-463 | Every step of a request in any run is such an operation. That a refreshed page is its own agent's, if it is listed at all, is derived: the records name the holders, and a page found in an agent's list stays that agent's, because owners do not change and ids are not used twice. |
| TabOwnership.AgentsAreIsolated | src/browser_cli/tabs/registry.py:52-328 | Over any interleaving of requests by any agents with the steps of any changes of driver and with rebuilds of the workspace, which clear the registry: active entries stay sound, pages are held and closed by their owners only, and an agent that does nothing finds its pages, claims and active page as it left them if and only if it had no page or the registry has not been cleared. |
| TabOwnership.QuietAgentsAreUntouched | src/browser_cli/tabs/registry.py:52-328 | Without a change of driver the same holds of everything in the records, under the same condition. |
| TabOwnership.ARebuildForgetsAnAgentsPage | src/browser_cli/daemon/browser_service.py:178-197 | The condition fails on a run: an agent opens a page, a rebuild clears the registry, and without a step of its own the agent has neither page nor active page. |
| TabOwnership.SwitchStepsKeepRecords | src/browser_cli/daemon/browser_service.py:1060-1095 | Whatever other requests have done since it began, each step of a change of driver keeps every page, owner, holder and closer, and only the last loop touches active pages. |
| TabOwnership.RefreshGoesOnIff | src/browser_cli/daemon/browser_service.py:1085-1090 | A change of driver gets over a page exactly if that is still listed and nobody closes it, and ends there otherwise. |
| TabOwnership.RestoreKeepsActiveIff | src/browser_cli/daemon/browser_service.py:1090-1095 | A turn of the last loop leaves the active pages as they are if and only if the page read at the beginning is no longer owned by that agent, is being closed, or still is its active page. |
| TabOwnership.AChangeOfDriverCanUndoAnActivation | src/browser_cli/daemon/browser_service.py:1060-1095 | A run on which it is not so: an agent opens a second page while a change of driver is under way and finds the first one active again. |
| PageClosing.StepKeepsInv | src/browser_cli/daemon/app.py:499-536 | In every interleaving of actions and closes the records name exactly the requests that work on or close a page. |
| PageClosing.RunsKeepInv | src/browser_cli/daemon/app.py:499-536 | The invariant holds at every turn of every run. |
| PageClosing.OneHolderPerPage | src/browser_cli/tabs/registry.py:214-275 | At most one request holds a page, be it listed, removed or cleared. |
| PageClosing.NothingPassesAfterConfirmedClose | src/browser_cli/daemon/app.py:1108-1125 | Once the browser has confirmed that a page is destroyed, no result of any request on it passes its last check. |
| PageClosing.ResultPassesIff | src/browser_cli/daemon/app.py:1108-1125 | On every run, a result is handed out exactly as long as its page is listed and nobody closes it. |
| PageClosing.NoTaskIsLeftBehind | src/browser_cli/tabs/registry.py:213-321 | On every run, the table of tasks names exactly work that goes on. |
| PageClosing.InterruptsFollowRemoval | src/browser_cli/daemon/app.py:515-525 | A task is cancelled only by a close whose page the browser confirmed and whose record is removed. |
| PageClosing.ClosersKeepClaims | src/browser_cli/daemon/app.py:504-515 | Until the record goes, the steps of a close leave every claim and every task entry alone. |
| PageClosing.FailedCloseLeavesTheHolder | src/browser_cli/daemon/app.py:504-536 | Over any run, a close that fails leaves the operation it meant to interrupt: unless its request has released the page, it still holds it and is named in the table of tasks. The page is still listed, no longer reserved and with that holder in its record, if and only if the registry was not cleared in between. |
| PageClosing.InterruptedStillWorksIff | src/browser_cli/daemon/app.py:515-527 | Over any run, a close carries the asyncio task of the request that held the page when it was reserved, and at any later moment that request still works on the page if and only if it has not released it: a batch that has moved on is interrupted elsewhere. |
| PageClosing.TheHoldersTaskIsInterrupted | src/browser_cli/daemon/app.py:515-527 | What a close cancels is the asyncio task that worked on the page when it was reserved. |
| PageClosing.AClosingRun | src/browser_cli/daemon/app.py:499-536 | A run on which a page that is worked on is closed and the work interrupted, and one on which the browser refuses and the work goes on. |
| ExecutionCoordinator.StepKeepsInv | src/browser_cli/daemon/execution.py:25-51 | Every step keeps the counters equal to the holders and to the waiters that want the browser alone, the modes exclusive, and no waiter asleep that could go in. |
| ExecutionCoordinator.EveryRunIsSafe | src/browser_cli/daemon/execution.py:25-51 | Over every run, with any waits cancelled: the counters count, an exclusive holder is alone, a batch holder shares only with cleanups, and no holder means no mode. |
| ExecutionCoordinator.SharedGivesWay | src/browser_cli/daemon/execution.py:37-40 | A shared scope goes in only when nobody holds or waits for the browser alone. |
| ExecutionCoordinator.GoesInIff | src/browser_cli/daemon/execution.py:25-51 | A scope that is entered or notified goes in if and only if: shared, nobody waits to be alone and no batch or exclusive scope is inside; cleanup, no exclusive scope is inside; batch or exclusive, nobody is inside. Then it joins the holders, otherwise the waiters, and nobody else moves. |
| ExecutionCoordinator.WhoMayGoInIsNotified | src/browser_cli/daemon/execution.py:34-51 | No wake-up is lost: whoever waits and may go in has been notified and goes in when it looks. |
| ExecutionCoordinator.ModesStay | src/browser_cli/daemon/execution.py:25-44 | A waiter keeps waiting for what it asked for. |
| ExecutionCoordinator.SomebodyGoesIn | src/browser_cli/daemon/execution.py:29-51 | With waiters and no holder, some waiter has been notified and goes in as soon as it looks: no deadlock and no lost wake-up. |
| ExecutionCoordinator.WaitersGetIn | src/browser_cli/daemon/execution.py:29-51 | No deadlock from any reachable state: while somebody waits, those inside can leave one after the other until a waiter goes in. |
| CommandDepth.StepKeepsInv | src/browser_cli/daemon/app.py:156-232 | Every step of any request, whatever succeeds, raises, is cancelled or fails while ending, keeps the counter equal to the number of running handlers, also while one changes the driver itself, and calls `end_command` at most once a request. |
| CommandDepth.DepthCountsRunningCommands | src/browser_cli/daemon/browser_service.py:124-176 | So on every run; when no request is left the counter is zero. |
| CommandDepth.EndCommandKeepsInv | src/browser_cli/daemon/browser_service.py:166-170 | `end_command` is only ever called with a positive counter: the clamp at zero never acts. |
| CommandDepth.FateOfAQueuedChange | src/browser_cli/daemon/browser_service.py:1129-1169 | A queued driver change leaves the queue in a step if and only if a request that is no cleanup takes it with no handler running, or the watcher's own switch fails. |
| CommandDepth.QueuedUntilRemoved | src/browser_cli/daemon/browser_service.py:1129-1169 | Over any number of steps a queued change stays queued unless one of these two happened. |
| CommandDepth.CleanupsNeverTakeAChange | src/browser_cli/daemon/app.py:154-155 | Requests to close a page leave the queue alone from arrival to end. |
| CommandDepth.ChangesAreNotPutOffForLong | src/browser_cli/daemon/browser_service.py:148-173 | The last command to end takes the queued change unless it is a cleanup, and so does the first to begin. |
| CommandDepth.QueuedOnlyWhileRunning | src/browser_cli/daemon/browser_service.py:1145-1151 | A change is queued only by the watcher and only while a handler runs. |
| CommandDepth.WatcherSwitchesOrQueues | src/browser_cli/daemon/browser_service.py:1132-1151 | A capable extension is switched to at once when no handler runs and queued when one does; otherwise the watcher does nothing. |
| CommandDepth.SwitchedDriverIsInUse | src/browser_cli/daemon/browser_service.py:1129-1169 | A change of driver that succeeds puts its driver in place. |
| CommandDepth.IsolatedPassesAlone | src/browser_cli/daemon/browser_service.py:1176-1182 | An isolated context passes its check only as the one running command. Its body starts two awaits later, and a close may begin in between. |
| CommandDepth.StartsIff | src/browser_cli/daemon/browser_service.py:148-150 | A request that has nothing to change first starts its handler at once, an isolated context exactly if no other handler runs. |
| CommandDepth.OverlapBeginsIff | src/browser_cli/daemon/browser_service.py:124-169 | From a state without overlap, a step makes a change of driver overlap a running command if and only if it is a change past the queue while a handler runs, a handler that starts with nothing to change while one is under way, or one that starts right after its own change while another is under way. |
| CommandDepth.ASwitchMayOverlapACommand | src/browser_cli/daemon/browser_service.py:1158-1169 | The second case on a run: a change taken at idle is still under way while the next command runs. |
| CommandDepth.ACloseCanLeaveAChangeBehind | src/browser_cli/daemon/browser_service.py:172-173 | A reachable state: a close that ends last leaves the queued change at idle. |
| CommandDepth.AQueuedChangeCanBeLost | src/browser_cli/daemon/browser_service.py:1152-1154 | A run that loses it: the watcher's own switch then fails and empties the queue. |
| RunRegistry.CommandRunRegistry.Logs | src/browser_cli/daemon/run_registry.py:78-83 | The last events, as many as asked for and there are. |
| RunRegistry.CommandRunRegistry.EvictCompletedRuns | src/browser_cli/daemon/run_registry.py:158-175 | The loop over the finished runs by age is the eviction of the specification. |
| RunRegistry.EvictionStops | src/browser_cli/daemon/run_registry.py:158-175 | Eviction removes exactly the finished runs with inactive tasks up to some number, from both maps, one by one until the limit is met or none is left, and changes nothing else. |
| RunRegistry.EvictionIsOldestFirst | src/browser_cli/daemon/run_registry.py:158-175 | An older finished run goes before a newer one, no more go than must, and it stops at the limit or when nothing is evictable. |
| RunRegistry.MemoryIsBounded | src/browser_cli/daemon/run_registry.py:158-175 | After every start, end and callback either the limit is met or no run that is finished, with its task done, is left (but for the one that has just ended). |
| RunRegistry.StepKeepsInv | src/browser_cli/daemon/run_registry.py:41-179 | Every step keeps the two maps on the same keys and every status in agreement with its task. |
| RunRegistry.StatusesMoveForward | src/browser_cli/daemon/run_registry.py:85-156 | Statuses move queued, running, perhaps cancel requested, then finished; a finished status never changes, a run's log only grows, and only finished runs are lost. |
| RunRegistry.StartedIsQueued | src/browser_cli/daemon/run_registry.py:41-61 | A started run is queued under the next number, and its start evicts finished runs only. |
| RunRegistry.CancelReachesIff | src/browser_cli/daemon/run_registry.py:85-95 | Asking to cancel marks and tells a run exactly if it is known and its task is not done; otherwise nothing changes. |
| RunRegistry.TurnsShow | src/browser_cli/daemon/run_registry.py:102-133 | A run asked to cancel before its first turn is done without having run; any other waits for the browser and is running once it goes ahead. |
| RunRegistry.EndShowsOutcome | src/browser_cli/daemon/run_registry.py:105-156 | A run that ends shows its outcome and stays known until its task is done; the callback gives the last status to a cancelled one that has none. |
| RunRegistry.EveryRunFinishes | src/browser_cli/daemon/run_registry.py:149-156 | Once its callback has run, a run is finished, even if it was cancelled before its first turn; an unfinished run still has a task or a callback to finish it. |
| RunRegistry.ARunSucceeds | src/browser_cli/daemon/run_registry.py:41-156 | A whole run that succeeds. |
| RunRegistry.ARunIsCancelledEarly | src/browser_cli/daemon/run_registry.py:85-156 | A whole run that is cancelled before its first turn. |
| StaleRefs.SnapshotRegistry.RequireLocator | src/browser_cli/daemon/browser_service.py:997-1007 | No snapshot, an invalid ref, an unknown ref, or the locator. |
| StaleRefs.AnswerTells | src/browser_cli/daemon/browser_service.py:997-1007 | Each of the four answers is given exactly when it should be: no snapshot, no ref, a ref of something else, or a ref of the snapshot, with what it means. |
| StaleRefs.RegistryHoldsTheLatestStore | src/browser_cli/refs/registry.py:29-51 | Over every history the registry holds, for each page, exactly the snapshot of its latest store that nothing has invalidated since. |
| StaleRefs.NoAnswerUntilTheNextStore | src/browser_cli/daemon/browser_service.py:534-607 | After a navigation, reload, history move, close, rebuild or driver change, no ref of the page is answered until a snapshot of it is stored again. |
| StaleRefs.LocatorsAreFreshUnlessOvertaken | src/browser_cli/daemon/browser_service.py:549-607 | An answered ref comes from the latest capture of its page: no capture that read the page later has stored. Nothing has invalidated the page since that capture read it if and only if nothing did between its read and its store. |
| StaleRefs.ClaimsOrderCaptures | src/browser_cli/daemon/app.py:1108-1125 | On any run of requests, when actions capture the pages they have claimed and `read` captures pages of its own, nothing reads a page between the two halves of a capture of it: captures of one page do not overlap. |
| StaleRefs.ASwitchCanOvertakeACapture | src/browser_cli/daemon/browser_service.py:556-571 | The other case occurs: a driver change between the two halves of a capture leaves its refs answerable. |
| DriverSwitch.UpdatedAllConserves | src/browser_cli/daemon/browser_service.py:1084-1089 | Started in any state, the loop keeps pages, owners, claims and active pages however far it gets, and gets through if and only if every page is still listed and none is being closed. |
| DriverSwitch.UpdatePages | src/browser_cli/daemon/browser_service.py:1084-1089 | The loop of the program is that loop. |
| DriverSwitch.RestoredAllFacts | src/browser_cli/daemon/browser_service.py:1090-1095 | Started in any state, the last loop keeps all records, and each agent ends up with the page that was read for it if that can still be activated, otherwise with the one it has. |
| DriverSwitch.RestoringKeepsActiveIff | src/browser_cli/daemon/browser_service.py:1090-1095 | It leaves the active pages as they are if and only if every page that was read and can still be activated is the active one. |
| DriverSwitch.RestoreActivePages | src/browser_cli/daemon/browser_service.py:1090-1095 | The loop of the program, over the active pages read at the beginning, is that loop. |
| DriverSwitch.ActivateDriver | src/browser_cli/daemon/browser_service.py:1046-1116 | With no other request in between, a change of driver, succeeding or failing half-way, keeps every page, owner, claim and active page; once the new driver runs no snapshot is left; it succeeds exactly if the driver starts, every page opens again and none is being closed. |
| WorkspaceBinding.StepKeepsOrder | browser-cli-extension/src/background/workspace_binding.js:39-42 | Writes end in the order of their calls and storage holds what the last one to succeed was called with. |
| WorkspaceBinding.StepKeepsTrace | browser-cli-extension/src/background/workspace_binding.js:69-106 | Whatever a restore works on was recorded by a save, what it commits it has itself found alive in its window, and no more than one such value is ever queued. |
| WorkspaceBinding.EveryRunIsOrderedAndTraced | browser-cli-extension/src/background/workspace_binding.js:33-121 | Both hold on every run, whenever and however often the worker dies. |
| WorkspaceBinding.DrainedStorageIsTheLastSave | browser-cli-extension/src/background/workspace_binding.js:45-66 | Over any run in which a save is the last write called and the queue drains with that write stored: storage names the window and exactly the tabs that were managed when the save was called and had a live target when it read them, in order, each with its target and page; or nothing if there was no window. |
| WorkspaceBinding.NothingIsResurrected | browser-cli-extension/src/background/workspace_binding.js:50-51 | Once a write called without a tab is stored and no later call names the tab, storage does not name it. |
| WorkspaceBinding.RestoreExposesOnlyVerifiedOwnership | browser-cli-extension/src/background/workspace_binding.js:85-105 | No step of a restore but the last changes memory, and that one exposes only tabs of the saved window that a save recorded and that this very restore found alive there under the recorded target. |
| WorkspaceBinding.FailedRestoreChangesNothing | browser-cli-extension/src/background/workspace_binding.js:76-118 | A restore ends without having succeeded exactly when the browser fails or its commit is not stored; then memory and storage are as they were, nothing new is to be written, and the next call tries again. |
| WorkspaceBinding.ExposedIsCommitted | browser-cli-extension/src/background/workspace_binding.js:97-99 | On every run, what a restore exposes has been stored by this worker before. |
| WorkspaceBinding.RestoredForGood | browser-cli-extension/src/background/workspace_binding.js:112-118 | A restore that has succeeded is not repeated: as long as the worker lives, only its own work changes memory. |
| WorkspaceBinding.NothingUsableIsRestored | browser-cli-extension/src/background/workspace_binding.js:70-74 | Storage without a binding that has a window leaves a restore nothing to do, for good. |
| WorkspaceBinding.AGoneWindowIsForgotten | browser-cli-extension/src/background/workspace_binding.js:76-83 | A binding whose window is gone is cleared from storage and nothing is exposed. |
| WorkspaceBinding.ManagedOnce | browser-cli-extension/src/background/workspace_binding.js:102-102 | Each tab is managed once, whatever storage says twice. |
| WorkspaceBinding.LastPageCounts | browser-cli-extension/src/background/workspace_binding.js:103-104 | Of several stored entries of a tab, the last one with a page counts. |
| WorkspaceBinding.RestoreBringsBackWhatWasSaved | browser-cli-extension/src/background/workspace_binding.js:45-105 | Calling save, draining the queue, dying and restoring, as one run with anything in between: memory is exactly the tabs managed at the save and alive under the same target when saved and when restored, in order, with their pages; nothing if there is none. |
| NetworkStore.NetworkRecordStore.AddRecord | src/browser_cli/network.py:96-108 | The record joins the bounded buffers and answers the waiters that want it. |
| NetworkStore.NetworkRecordStore.DeliverToWaiters | src/browser_cli/network.py:100-108 | The loop over the waiters: pending ones that want the record get it, others that are pending stay. |
| NetworkStore.NetworkRecordStore.GetCapturedRecords | src/browser_cli/network.py:110-129 | The matching records in order; a clearing read keeps exactly the others. |
| NetworkStore.NetworkRecordStore.WaitForRecord | src/browser_cli/network.py:131-143 | The most recent record that matches, or a place among the waiters if none does. |
| NetworkStore.NetworkRecordStore.EndWait | src/browser_cli/network.py:144-147 | The waiter is removed, and its future cancelled if it was pending. |
| NetworkStore.NetworkRecordStore.Clear | src/browser_cli/network.py:87-94 | Buffers and waiters are emptied and pending futures cancelled. |
| NetworkStore.CaptureLosesNothing | src/browser_cli/network.py:80-129 | Each record added while capturing is held in order of arrival or has left for exactly one place, for good: returned by a clearing read (which returns just what it takes out), dropped by the limit, or discarded. |
| NetworkStore.LogIsWhatWasCaptured | src/browser_cli/network.py:80-99 | What is captured are the records added between a start and the next stop; a clear does not end a capture. |
| NetworkStore.NothingIsLeftOver | src/browser_cli/network.py:80-94 | A new capture and a clear begin with an empty buffer; a clear also forgets the recent records and cancels every wait. |
| NetworkStore.AddTallies | src/browser_cli/network.py:96-99 | When the limit is reached, what is dropped is the oldest record held. |
| NetworkStore.EveryRunKeepsItsPromises | src/browser_cli/network.py:96-147 | After any operations, every wait is pending with nothing to answer it, cancelled, or answered with the first matching record added since it began. |
| NetworkStore.AnsweredOnce | src/browser_cli/network.py:102-105 | A future that is done never changes. |
| NetworkStore.BufferIsTheEndOfTheLog | src/browser_cli/network.py:96-119 | Over any operations but clears, new captures and clearing reads, the capture buffer is the end of everything captured. |
| NetworkStore.RecentIsTheEndOfAll | src/browser_cli/network.py:96-97 | Over any operations but clears, the recent buffer is the end of everything added. |
| TiledCapture.EveryPixelOnce | src/browser_cli/browser/raster.py:76-78 | The tiles of the nested loops contain every pixel of the content exactly once and no other pixel. |
| TiledCapture.FewTiles | src/browser_cli/browser/raster.py:51-55 | A capture that is not refused needs at most 256 tiles. |
| TiledCapture.TooLargeIff | src/browser_cli/browser/raster.py:51-55 | A capture is refused exactly if it has more than 64 million pixels or would need more than 256 tiles. |
| TiledCapture.PixelsAreNearest | src/browser_cli/browser/raster.py:28-29 | A length is rounded to the nearest number of device pixels, and to one at least. |
| TiledCapture.ContentIsOnThePage | src/browser_cli/browser/raster.py:71-74 | The content painted are the pixels that begin on the page; beyond its end the image stays white. |
| TiledCapture.ShootableIff | src/browser_cli/browser/raster.py:79-105 | A tile is captured exactly if all of it is visible, give or take half a CSS pixel, once the browser has scrolled to its corner, and the image has every pixel it needs. |
| TiledCapture.TilesFitTheViewport | src/browser_cli/browser/raster.py:49-50 | A full tile fits the paintable viewport in CSS pixels if and only if that is at least one device pixel large, and a larger tile never fits. |
| TiledCapture.EveryTileFitsTheViewport | src/browser_cli/browser/raster.py:79-82 | Then no tile of a capture is larger, in CSS pixels, than what the browser can paint. |
| TiledCapture.Paste | src/browser_cli/browser/raster.py:108-110 | Pasting changes exactly the pixels of the tile, each to its own pixel of the image. |
| TiledCapture.CaptureTile | src/browser_cli/browser/raster.py:79-110 | A tile is painted, or refused because it is not in view or comes back too small. |
| TiledCapture.CaptureRow | src/browser_cli/browser/raster.py:77-110 | The inner loop paints a row of tiles and stops at the first that cannot be. |
| TiledCapture.CaptureTiled | src/browser_cli/browser/raster.py:32-111 | Refused exactly if too large; otherwise it fails exactly if some tile cannot be captured, and succeeds with every content pixel from its own tile and white elsewhere. |
| TiledCapture.TilesShowTheScene | src/browser_cli/browser/raster.py:81-110 | If the browser captures a scene faithfully, every content pixel of the canvas is the scene at its own distance from the corner of the clip: no seam, shift or swap. |

## Left out

- Text matching and unquoting in the generator: lines come already split into indentation, role, name and suffix; `tag`, `selector_recipe`, the Playwright ref and the snapshot's metadata are left out of the stored data.
- SHA-256: the truncated digest is a function, assumed to separate the strings one snapshot hashes where refs are claimed distinct.
- JSON text: encoding and parsing a message is a parameter; hello, heartbeat and status messages are left out, as are the sockets themselves.
- ExtensionSessions: one session that stays the current one. When a new connection has replaced a session, its loss fails no request of the old one; they time out.
- The handlers of `daemon/app.py` and `send_request` are state machines over their awaits instead of methods, because other requests run in between.
- ZIP readers that are more lenient: the reader here takes one disk, no comment, and a directory that ends where the end record starts.
- Base64 decoding of texts that are no encoding: the model refuses what Python's decoder skips.
- UTF-8 encoding of archive names: entries carry encoded names.
- TabRegistries.TabRegistry.FindLatestPageId: which of several equally recent pages is taken is left open; the code takes the first in insertion order.
- Creation times and listing order of tabs, `started_at` of claims and `replace_tab_ids`, which no shown code calls.
- DriverSwitch.ActivateDriver: assumes that no other request comes in between, as TabOwnership does not; pages are reopened in any order instead of by creation time.
- SnapshotCompiler.BuildRefData: without the tag, the selector recipe and the snapshot's metadata, which are copied or derived from the role and the texts.
- TabOwnership: the conditions under which the registry is cleared, which other requests can invalidate before it is; it may be cleared at any time here.
- ExecutionCoordinator: which request asks for which mode, and the priority among several waiters that want the browser alone, which the condition does not fix.
- CommandDepth: the lock around a change of driver, the preflight that rebuilds a lost binding, the reason strings and the metrics; changes that bypass the queue, before a command or inside `read`, are the step SwitchesDirectly.
- RunRegistry: the clock is assumed not to go back, so runs are sorted by number; results, errors and metadata of a run are not kept, and waiting for all runs is left out.
- WorkspaceBinding: timeouts of the browser's calls are failures of a step; stored entries of the wrong shape count as entries without a target.
- NetworkStore: a filter is the predicate it stands for, so the matching rules of `NetworkRecordFilter` are not modelled; a timeout is the step that ends a wait.
- TiledCapture: floating point rounding, colour profiles and image encoding; reals stand for floats.
- PngSplice: images whose first chunks do not end after 25 bytes, which the PNG specification does not allow, get no claim beyond Splice.
- Browser drivers, injected page scripts, the command line, status and doctor output, files, processes and publishing: foreign calls or tables without state.

# Oyl, verified

Oyl is a YAML 1.2 parser and emitter written in C. This project models the parts
of it that are hardest to get right and proves what they promise.

**The two flow parsers.** `FlowGrammar` is the recursive flow parser as a function
of a token sequence, `EagerFlow` the same parser as an object that patches its
event list, and `Machine` one step of the incremental parser: some forty states
over an explicit stack of frames. `MachineInvariant`, `MachineTermination` and
`MachineGrammar` prove what every step keeps, that every run ends and that its
events follow the event grammar of `EventGrammar`. `FlowRefinement` proves that
the machine refines the recursion. `BlockGrammar` is the recursive parser for whole
streams, by tokens and columns, and `BlockRefinement` proves that a run of the
machine is that grammar's parse, or asks for the eager parser. `IncrementalParser`
is the machine as the object whose fields the C code updates; each state's method
makes exactly the step. `Origins`, `FlowYield` and `MachineYield` say of the fields
of tokens and events where every event comes from, for the recursive flow parser and
for every configuration of the machine: no scalar, alias, bracket, anchor or tag is
lost, repeated or moved.

**Trees in a flat event array.** `NodeTrees` relates bracketed events to trees.
`NameTable`, `Binding` and `AnchorTable` are the open-addressing tables, the
binding of aliases to the anchors before them and its undoing. `CycleDetection`
is the colouring search, `AliasTrees` and `AliasExpansion` alias expansion as
substitution, `MergeTrees` and `MergeExpansion` merge keys. `Pipeline` runs them one
after the other. `Copies` says of the fields what a copy keeps, place by place, and
`MergeMeaning` what a merged mapping holds under every key and when merging fails.

**The flow-as-key lookahead.** `FlowKeyScan` is a byte-by-byte scan, `FlowKey` the
64-byte bitmask cursor and the sorted cache that must answer as the scan would.
`KeyMeaning` says what the answer means: whether a ':' is the first thing visible
after the matching bracket.

**Delivery.** `Fallback` is the change from incremental to eager parsing in the
middle of a stream, with its polynomial signature modulo 2^64; `FallbackAgreement`
connects it to the refinement, which is why the check passes, and says what the
check notices.

**Scalars and tags.** `DoubleQuoted`, `SingleQuoted`, `BlockScalar`,
`LiteralScalar`, `PlainScalar`, `PlainText` and `Tags` hold the emitter's writers,
the scanner's readers with their measuring passes and growing buffers, and the
proofs that one undoes the other. `Schema` is tag resolution and the emitter's tests
for it, `ScalarEmission` the choice of a style and the round trip in every style.
`FoldMeaning` says break by break what line folding makes of a text, `ScalarMeaning`
what escapes, handles, terms, headers and requested styles stand for.

**The parallel benchmark.** `Parallel` is its ticket protocol as interleaved steps.

Where a source function is a loop over mutable state, the model is a method or a
class with the same loop, proved against a function of its inputs; the lemmas are
about those functions. Characters below 256 stand for bytes. A hash function is a
parameter: nothing depends on which one it is.

## What turned out not to hold

- A plain scalar inside brackets followed by two line breaks and an indicator gains
  a line feed: `[a`, an empty line, `]` holds "a" and a line feed, since trimming
  takes back folded spaces only (`PlainText.FeedBeforeIndicator`).
  `PlainText.BareReadsBack` says exactly what may follow a plain scalar.
- A tag is read back unchanged exactly when no directive redefines the handle it is
  written with (`Tags.ExpandsBack`).
- Single-quoted output reads back exactly when the text has no line break
  (`SingleQuoted.ReadsBack`); the emitter uses double quotes otherwise.
- The thread that delivers chunks can parse beyond the read-ahead window, because it
  tests the counter before taking a ticket: it keeps inside it exactly when there are
  no workers or no chunk is beyond the window (`Parallel.WindowKept`). Otherwise it
  gets at most one chunk per thread past it, and can get that far (`Parallel.Safe`,
  `Parallel.BoundReached`).
- A schema with terms of its own can resolve a text that the emitter writes plain for
  a string: "yes" added as a boolean is one (`ScalarEmission.YesIsLost`). Strings stay
  strings exactly when each of the schema's own terms stays one, passes the emitter's
  type test or needs quoting (`ScalarEmission.StringsStayExactly`); under the standard
  schemas they do.
- Frames do not count the pair mappings open inside flow sequences: the open
  collections are the frames exactly when no pair is open
  (`MachineGrammar.OpenCollections`), and at every depth "[ a :" repeated opens twice
  as many (`MachineRun.TwiceReached`).

## Model

| member | source | states |
|---|---|---|
| FlowRefinement.FlowRefines | src/oyl_parser.c:3245-3722 | from any pending flow node of a reachable configuration the machine emits exactly the recursive parser's events (all fields and marks) and goes on at the same token with the same frames; or it asks for the eager parser or fails inside the node, having emitted only the first of those events, and fails only where going on past the node fails too; where the recursive parser fails so does the machine, or it asks; until then no frame below the node's is touched. Assumes only that a "not a key" answer means no ':' follows the matching bracket |
| FlowRefinement.EventsAgree | src/oyl_parser.c:3245-3722 | whatever comes later in the stream, the machine's events and the recursive parser's agree as far as both go |
| FlowRefinement.CollectionEnd | src/oyl_parser.c:613-836 | the recursive parser stops a collection exactly past its matching bracket |
| FlowRefinement.SeqRuns | src/oyl_parser.c:3428-3531 | the same for a whole flow sequence, including pairs whose MAPPING_START is patched in afterwards |
| FlowRefinement.MapRuns | src/oyl_parser.c:3324-3393 | the same for a whole flow mapping |
| FlowRefinement.NodeRuns | src/oyl_parser.c:3254-3322 | the same for a pending node with its properties |
| FlowRefinement.SepSkips | src/oyl_parser.c:3136-3149 | dealing with a separator at once lands where the separator states would |
| FlowYield.NodeTokens | src/oyl_parser.c:838-915 | the recursive parser's events for a node are, in order, one for each scalar, alias and bracket of the tokens it read, with that token's value, style and extent and with the anchor and tag directly before it; the others are empty nodes and pair brackets, each at a token between its neighbours' and with the extents stated; every anchor and tag is on one event, in order |
| MachineYield.ReachableTokens | src/oyl_parser.c:3724-4473 | the same for the incremental parser, in every configuration it reaches, in block and flow collections: the events so far, with a key that is saved, account for all tokens read but the properties that wait for their node |
| MachineYield.RunTokens | src/oyl_parser.c:4632-4693 | the same for the events of a whole run, however it ends |
| MachineYield.RunTidy | src/oyl_parser.c:595-598 | no alias and no closing event of a run carries an anchor or a tag |
| MachineYield.SimpleKeyMoves | src/oyl_parser.c:4196-4243 | the second and every later key of a block mapping is its token, with the token's value, style and extent |
| BlockRefinement.NodeMatches | src/oyl_parser.c:3894-4115 | from a pending block node the machine emits exactly the recursive grammar's events and goes on at the same token with the same frames, or it asks or fails as for flow nodes; where the grammar fails the run does not finish, and where only the eager parser goes on the machine asks |
| BlockRefinement.MapMatches | src/oyl_parser.c:4117-4356 | the same for the rest of a block mapping, by the columns of its keys |
| BlockRefinement.SeqMatches | src/oyl_parser.c:4358-4436 | the same for the rest of a block sequence, by the columns of its '-' |
| BlockRefinement.RunParses | src/oyl_parser.c:3724-4473 | on every token sequence: where the recursive grammar reads the stream, the run finishes with exactly its events, or asks for the eager parser having emitted the first of them, and only if the lookahead answered "key" for some bracket; where the stream is beyond the grammar (properties outside brackets, directives, collections as block keys) it asks; where it is wrong the run does not finish |
| BlockRefinement.FinishedParses | src/oyl_parser.c:4632-4693 | a run that finishes has emitted exactly the recursive grammar's events |
| EagerFlow.FlowParser.InsertEvent | src/oyl_parser.c:255-262 | the event appears at the index and everything else keeps its order |
| EagerFlow.FlowParser.ReadProps | src/oyl_parser.c:549-600 | the loop reads the same anchor and tag as the recursive definition, or fails with it |
| EagerFlow.FlowParser.ParseFlowNode | src/oyl_parser.c:838-915 | queues exactly the events of the recursive grammar and stops at its token; what these are, token by token, is FlowYield.NodeTokens |
| EagerFlow.FlowParser.ParseFlowSequence | src/oyl_parser.c:613-756 | the loop over entries, with the patched pair starts, is the recursive grammar |
| EagerFlow.FlowParser.ParseFlowMapping | src/oyl_parser.c:758-836 | the loop over entries is the recursive grammar |
| MachineInvariant.StepKeepsInv | src/oyl_parser.c:3724-4473 | every step keeps: each frame returns into the one below it, no block collection inside a flow one, states match their frames, pending properties only where they are used; the states nothing assigns stay unreachable |
| MachineTermination.StepLowers | src/oyl_parser.c:3724-4473 | every step lowers a measure of tokens left, frames and state, also the steps that push a frame or emit an empty node without consuming |
| MachineGrammar.StepFollows | src/oyl_parser.c:3221-4473 | each step's events take the event-grammar acceptor from the place its frames say to the place the new frames say, at most three events a step |
| MachineGrammar.OpenCollections | src/oyl_parser.c:3070-3109 | the open collections are the frames and one for each open pair; they are as many as the frames exactly when no frame's state has a pair open, never more than twice as many, and that exactly when every frame has one |
| MachineRun.ReachableInv | src/oyl_parser.c:4632-4693 | in every reachable configuration the invariant holds and the events emitted so far leave open exactly the collections read off the frames |
| MachineRun.ReachableOpen | src/oyl_parser.c:4632-4693 | in every reachable configuration with frames, the events emitted so far leave open as many collections as there are frames and open pairs |
| MachineRun.TwiceReached | src/oyl_parser.c:3428-3490 | for every n, some input of 3n + 2 tokens takes the machine to n frames with 2n collections open |
| MachineRun.RunIsStream | src/oyl_parser.c:4632-4693 | on every finite token stream the step loop ends; a finished run emitted exactly a stream of documents, any other run a prefix of one |
| EventGrammar.AcceptsStreams | src/oyl_parser.c:2049-2105 | the acceptor closes on exactly STREAM_START (DOC_START node DOC_END)* STREAM_END with matching brackets and keys and values in turn |
| EventGrammar.AcceptsPrefixes | src/oyl_parser.c:2049-2105 | the acceptor goes on exactly while what it read can be completed to a stream |
| IncrementalParser.StepParser.ParserStep | src/oyl_parser.c:3724-4473 | in every reachable state, through one method for each state with the held token, the eight-slot queue and the separator and value shortcuts, the fields, the queue and the status change exactly as the machine's step says, up to the first token that cannot be scanned; what the steps come to is MachineYield.ReachableTokens and BlockRefinement.RunParses |
| IncrementalParser.EventSource.NextEvent | src/oyl_parser.c:4604-4703 | hands out the run's events one by one, each once and in order, then reports how the run ended; its step loop always ends |
| NodeTrees.FindNodeEnd | src/oyl_parser.c:2110-2124 | the depth-counting loop computes the specified end |
| NodeTrees.NodeEndExact | src/oyl_parser.c:2110-2124 | in a flattened tree the node ends exactly where its tree does, whatever surrounds it |
| NameTable.ProbeReaches | src/oyl_parser.c:2174-2208 | the probe sequence visits every slot, so a table with a free slot ends every probe |
| NameTable.Table.Find | src/oyl_parser.c:2174-2186 | the probe ends at the name's slot or at a free slot that proves it absent |
| NameTable.Table.Get | src/oyl_parser.c:2174-2186 | the value last put under the name, if any |
| NameTable.Table.Put | src/oyl_parser.c:2188-2208 | the table's contents with the one entry replaced |
| Binding.UnbindBound | src/oyl_parser.c:2632-2636 | a bound name is taken back to the original one, an original name is left alone |
| Binding.BindAnchors | src/oyl_parser.c:2567-2630 | in place, every event is bound as specified: its anchor by serial number, its alias to the latest anchor of that name |
| Binding.UnbindAnchors | src/oyl_parser.c:2638-2646 | in place, every name is taken back |
| Binding.AliasFindsLatest | src/oyl_parser.c:2553-2630 | a bound alias names an anchor exactly when that anchor is the latest of its name before the alias since the last document start |
| Binding.BoundAnchorsUnique | src/oyl_parser.c:2553-2630 | bound anchors are all different |
| Binding.UnbindUndoes | src/oyl_parser.c:2632-2646 | unbinding a bound array restores every original event |
| Pipeline.LookupFindsLatest | src/oyl_parser.c:4580-4594 | in the table built from the bound array, looking up an alias finds exactly the latest anchor of its name before it in its document |
| Pipeline.BoundTrees | src/oyl_parser.c:2567-2630 | binding keeps the trees: the bound array can be expanded |
| Pipeline.EagerPasses | src/oyl_parser.c:4580-4594 | the passes succeed exactly when merging and expanding the bound trees do, each under the limit for the length it starts from; the result is those merged and fully expanded trees event by event, each event with its original names or as its anchor-free copy; with both off the stream is unchanged |
| Pipeline.ScopedTarget | src/oyl_parser.c:2553-2788 | in the bound trees an alias is replaced by exactly the node of the latest anchor of its original name before it in its document, unless that reaches a cycle or there is none |
| Pipeline.MergedTarget | src/oyl_parser.c:2553-2788 | after merging, whatever an alias is replaced by is still the node of that anchor |
| AnchorTable.LastNamedIsLast | src/oyl_parser.c:2174-2186 | the backward search finds the latest entry of a name |
| AnchorTable.Anchors.constructor | src/oyl_parser.c:2188-2208 | the table lists every anchored node with its event range |
| AnchorTable.Anchors.Lookup | src/oyl_parser.c:2174-2186 | the hash lookup agrees with a backward linear search |
| CycleDetection.HasCycle | src/oyl_parser.c:2652-2666 | a node found on a cycle stays grey with all on the path to it, any other turns black with a rank that proves it reaches none |
| CycleDetection.FlagCycles | src/oyl_parser.c:2711-2728 | the flags are exactly: this anchor can reach a reference cycle, although grey marks survive between roots |
| CycleDetection.WalkReaches | src/oyl_parser.c:2652-2666 | what reaches a node that reaches a cycle reaches one |
| CycleDetection.RankedAcyclic | src/oyl_parser.c:2652-2666 | references that fall in rank never come back |
| CycleDetection.LongWalkRepeats | src/oyl_parser.c:2701-2788 | a reference path longer than the anchors repeats one |
| CycleDetection.EdgeIs | src/oyl_parser.c:2652-2666 | a reference is an alias in the anchored node's range of events whose name that anchor is the last to have, and nothing else is |
| EventBuffer.Buffer.Push | src/oyl_parser.c:2235-2250 | appends, or stops for good once the limit is passed |
| EventBuffer.Buffer.PushRange | src/oyl_parser.c:2252-2262 | appends a range as single pushes would |
| AliasTrees.PassDeepens | src/oyl_parser.c:2746-2776 | one pass over an array expanded n deep, with anchors j deep, makes it n + j + 1 deep: each pass doubles the resolved path |
| AliasTrees.LeftAfter | src/oyl_parser.c:2701-2788 | the aliases left after n-fold expansion are exactly those that paths of n references lead to |
| AliasTrees.DefsOfUnfold | src/oyl_parser.c:2746-2760 | expansion adds no anchors, so the flags stay aligned with the tables rebuilt in later passes |
| AliasTrees.SettledStays | src/oyl_parser.c:2776-2788 | once nothing is left to replace a pass changes nothing |
| AliasTrees.DeeperIsLonger | src/oyl_parser.c:2390-2402 | deeper expansion is never shorter, so stopping at the limit in any pass is stopping the whole |
| AliasExpansion.TableOf | src/oyl_parser.c:2188-2208 | the table built from a flattened tree lists its anchored subtrees |
| AliasExpansion.PassSubstitutes | src/oyl_parser.c:2746-2776 | a pass over the flat array is substitution on the tree |
| AliasExpansion.PassDoubles | src/oyl_parser.c:2731-2776 | a pass takes the j-fold expansion to the (2j + 1)-fold one |
| AliasExpansion.PathsEnd | src/oyl_parser.c:2701-2788 | from an unflagged anchor references end |
| AliasExpansion.FullIsSubstitution | src/oyl_parser.c:2701-2788 | full expansion replaces every alias to a defined, unflagged anchor by its fully expanded, anchor-free body, keeps everything else in order and leaves nothing to replace |
| AliasExpansion.Pass | src/oyl_parser.c:2731-2776 | the loop writes exactly one pass's image, and stops exactly when that is over the limit |
| AliasExpansion.ResolveAliases | src/oyl_parser.c:2701-2788 | the result is the full expansion, or the limit error exactly when that is too long: 32 passes always suffice for an array of int length; what each place of it holds is Copies.ExpandedInPlace |
| Copies.ExpandedInPlace | src/oyl_parser.c:2746-2776 | place by place: an event that is not replaced stands there itself; an alias's place holds what the place of the node it names holds, equal event by event in type, value, tag, style, both flags and both marks, with the anchors cleared |
| Copies.ExpandedCopies | src/oyl_parser.c:2746-2776 | every event after expansion is one of the array's in all those fields, with its anchor or with none |
| Copies.MergedCopies | src/oyl_parser.c:2302-2343 | and so after the merge passes |
| MergeTrees.MergedLookup | src/oyl_parser.c:2302-2388 | in a rebuilt mapping a scalar key has its explicit value, else the value of the first source that holds it |
| MergeTrees.ComplexKept | src/oyl_parser.c:2302-2343 | pairs with keys that are not scalars are all kept, in order |
| MergeTrees.FreshDistinct | src/oyl_parser.c:2264-2292 | merged scalar keys are distinct and none repeats an explicit one |
| MergeTrees.NothingToMerge | src/oyl_parser.c:2404-2549 | a tree with no plain `<<` key is left as it is |
| MergeTrees.MergeSound | src/oyl_parser.c:2404-2549 | a pass keeps nesting and the alternation of keys and values |
| MergeExpansion.HasMergeKey | src/oyl_parser.c:2404-2549 | the flat scan finds a plain `<<` key exactly when the mapping has one |
| MergeExpansion.MergeFrom | src/oyl_parser.c:2302-2343 | copies exactly the source's pairs whose key was not seen, and records the keys |
| MergeExpansion.MergeValue | src/oyl_parser.c:2347-2388 | one source or a sequence of sources, inline or by alias, in order; an error exactly when some source is not a mapping; which values are sources is MergeMeaning.MappingMerged |
| MergeExpansion.Rebuild | src/oyl_parser.c:2404-2549 | writes the mapping's explicit pairs in order, then what its merge keys bring in |
| MergeExpansion.MergePass | src/oyl_parser.c:2404-2549 | one pass over the flat array is one pass on the trees; it reports a change exactly when some mapping had a plain `<<` key |
| MergeExpansion.ResolveMerges | src/oyl_parser.c:2404-2549 | the passes' result, its limit and its errors are those of the trees, and "no change" leaves no plain `<<` key in any mapping |
| MergeMeaning.MappingMerged | src/oyl_parser.c:2302-2388 | key by key: an explicit scalar key keeps its value; any other has a copy of the value it has in the first of the merge values' mappings that holds it, where a merge value is a mapping, an alias whose latest anchor is a mapping, or a sequence of these, and several `<<` go in order; no other key is there; the pass fails exactly when some merge value is none of these |
| MergeMeaning.PassFailsAll | src/oyl_parser.c:2404-2549 | a pass over trees fails exactly when some mapping in them, at any depth, has such a merge value |
| MergeMeaning.FreshExactly | src/oyl_parser.c:2264-2343 | of a source's pairs exactly those are copied, in order, whose scalar key is not taken and did not come before |
| MergeMeaning.ExplicitExactly | src/oyl_parser.c:2404-2549 | the explicit pairs are exactly those that are no plain `<<`, in order |
| FlowKey.Cursor.Seek | src/oyl_parser.c:2882-2885 | the cursor stands at the position, whatever block it was in |
| FlowKey.Cursor.Next | src/oyl_parser.c:2888-2897 | returns exactly the next stop byte from there, across 64-byte blocks |
| FlowKey.Cursor.SkipSingleQuoted | src/oyl_parser.c:2901-2917 | ends where a forward scan of '...' ends |
| FlowKey.Cursor.SkipDoubleQuoted | src/oyl_parser.c:2901-2917 | counting backslashes backwards ends where a forward escape-by-escape scan of "..." ends |
| FlowKeyScan.NestedAgrees | src/oyl_parser.c:2927-3039 | for every collection a scan opens on its way, its answer is the one a fresh scan from that bracket gives, unless a quote could not be told |
| FlowKey.FlowKeys.Fill | src/oyl_parser.c:2927-3039 | the mask-driven scan fills the cache with what the byte-by-byte scan finds |
| FlowKey.FlowKeys.Cached | src/oyl_parser.c:3043-3057 | binary search of the sorted cache finds exactly its members |
| FlowKey.FlowKeys.IsKey | src/oyl_parser.c:3043-3057 | for a bracket the cached scan opened the answer is the fresh scan's, but "key" if that scan was ambiguous, so its "not a key" is never wrong; for a bracket outside the cached range it is a fresh scan's; what the fresh scan answers is KeyMeaning.KeyMeans |
| KeyMeaning.ColonMeans | src/oyl_parser.c:2842-2856 | the byte the scan tests after a bracket is the first that is no blank, no break and not in a comment |
| KeyMeaning.KeyMeans | src/oyl_parser.c:2927-3039 | for every reading of a collection's text as brackets, quoted scalars, comments, verbatim tags and other characters, up to the bracket that brings the depth back to none, the answer is "key" exactly when some quote on the way cannot be told or a ':' is the first thing visible after it |
| KeyMeaning.NotAKey | src/oyl_parser.c:2811-2813 | a "not a key" answer is never wrong: no ':' follows the matching bracket |
| KeyMeaning.PlainKey | src/oyl_parser.c:2927-3039 | without quotes, '#', '<' and breaks inside, the answer is "key" exactly when ':' is the first thing visible after the bracket that matches by counting |
| Fallback.Pow31 | src/oyl_parser.c:4559-4564 | repeated squaring computes 31^n modulo 2^64 |
| Fallback.SignatureSince | src/oyl_parser.c:4647-4687 | the total minus the checkpoint's signature times 31^n is the signature of the n events since |
| Fallback.Delivery.Delivered | src/oyl_parser.c:4552-4555 | count and signature follow the events delivered |
| Fallback.Delivery.Checkpoint | src/oyl_parser.c:3196-3215 | remembers how much was delivered, in a clean state only and not close after the last checkpoint |
| Fallback.Delivery.FallBack | src/oyl_parser.c:4647-4687 | asks to skip exactly the events since the checkpoint, with their signature |
| Fallback.Skipper.SkipDelivered | src/oyl_parser.c:4536-4550 | skips within one document and checks the signature when the skip is over |
| Fallback.Skipper.Replay | src/oyl_parser.c:4604-4703 | however documents split the skip, delivery goes on exactly past it when the signatures agree |
| Fallback.FallBackAndReplay | src/oyl_parser.c:4604-4703 | if the eager events agree in type with those since the checkpoint, the rest is delivered; if the events agree, all that is delivered is what came before the checkpoint and then every eager event: nothing repeated, nothing lost |
| FallbackAgreement.FallBackInNode | src/oyl_parser.c:4632-4693 | when the machine asks for the eager parser inside a flow node, the events already delivered are the recursive parser's, so the check passes and what is delivered in all is the eager stream |
| FallbackAgreement.FallBackInStream | src/oyl_parser.c:4604-4703 | wherever in a stream the machine asks, if the documents parsed again are what the recursive grammar makes of the stream since the checkpoint, the check passes and what is delivered in all is exactly the grammar's events |
| FallbackAgreement.NoticesOne | src/oyl_parser.c:4552-4555 | one event of another type, anywhere among those skipped and whatever comes after it, always changes the signature |
| FallbackAgreement.CheckpointBetweenDocuments | src/oyl_parser.c:3766-3787 | where checkpoints are taken, the events so far are the start of the stream and whole documents |
| DoubleQuoted.RoomForPiece | src/oyl_scanner.c:746-761 | every escape, fold and character leaves the measured bound enough room |
| DoubleQuoted.Measure | src/oyl_scanner.c:746-761 | the pre-scan computes that bound |
| DoubleQuoted.Decode | src/oyl_scanner.c:763-890 | decodes into a buffer of the measured length without ever passing its end, as the piece-by-piece reader does |
| DoubleQuoted.ScanDoubleQuoted | src/oyl_scanner.c:727-896 | the zero-copy and the decoding path both give what the reader gives |
| DoubleQuoted.EscapedReads | src/oyl_emitter.c:368-393 | escaped text reads back as the same bytes, whatever follows |
| DoubleQuoted.RoundTrip | src/oyl_emitter.c:366-393 | emitted and scanned, every byte string is unchanged |
| FoldMeaning.BreaksMean | src/oyl_scanner.c:683-700 | the break loop takes exactly the blanks and breaks there and counts the ends of lines, a carriage return with a line feed as one |
| FoldMeaning.DoubleFolds | src/oyl_scanner.c:853-885 | in a double-quoted scalar a gap between two lines drops the blanks around it and comes to a space, or to one line feed less than it has breaks |
| FoldMeaning.SingleFolds | src/oyl_scanner.c:683-710 | the same in a single-quoted scalar |
| FoldMeaning.PlainFolds | src/oyl_scanner.c:514-600 | the same in a plain scalar whose next line continues it |
| FoldMeaning.WordContinues | src/oyl_scanner.c:533-585 | a plain scalar goes on with a line indented past the enclosing block that begins with a letter or a digit, and with no line that is not indented past it |
| ScalarMeaning.Utf8Encodes | src/oyl_scanner.c:817-832 | the bytes written for a code point are its UTF-8 in the shortest form |
| ScalarMeaning.Utf8Injective | src/oyl_scanner.c:817-832 | no two code points are written alike |
| ScalarMeaning.EscapesEncode | src/oyl_scanner.c:774-795 | each one-character escape stands for its code point in UTF-8, and there are no others |
| SingleQuoted.ScanSingleQuoted | src/oyl_scanner.c:635-725 | the zero-copy and the decoding path both give what the reader gives |
| SingleQuoted.ReadsBack | src/oyl_emitter.c:351-364 | a text not followed by a quote reads back exactly when it has no line break |
| SingleQuoted.RoundTrip | src/oyl_emitter.c:351-364 | emitted and scanned, a text is unchanged exactly when it has no line break |
| Tags.EmitTag | src/oyl_emitter.c:502-535 | writes "!!suffix", "!suffix" or a percent-encoded "!<...>" |
| Tags.ScanTag | src/oyl_scanner.c:898-946 | the loops find the end of the tag, or the error |
| Tags.PctDecode | src/oyl_parser.c:432-447 | decodes every "%XX" and copies everything else |
| Tags.ExpandTag | src/oyl_parser.c:449-509 | expands handles by the document's directives, else by the usual prefixes |
| ScalarMeaning.NamedExpands | src/oyl_parser.c:449-509 | a tag with a named handle is the prefix of the first directive for it with the decoded suffix, or stays as it is without one |
| ScalarMeaning.SecondaryExpands | src/oyl_parser.c:449-509 | a tag with the handle "!!" likewise, with the usual prefix if there is no directive |
| Tags.ScansBack | src/oyl_scanner.c:898-946 | the written tag is scanned to its end, whatever follows the space |
| Tags.ExpandsBack | src/oyl_parser.c:449-509 | the written tag expands to the original bytes exactly when its handle is not redefined |
| Tags.RoundTrip | src/oyl_emitter.c:485-535 | emitted, scanned and expanded without directives, every non-empty tag is unchanged |
| BlockScalar.Measure | src/oyl_scanner.c:1371-1423 | the first pass counts exactly the bytes of the lines, and finds their end or the error |
| BlockScalar.Copy | src/oyl_scanner.c:1425-1493 | the copy pass writes exactly the bytes measured |
| BlockScalar.FoldingShortens | src/oyl_scanner.c:1495-1554 | folding never lengthens the text |
| BlockScalar.Fold | src/oyl_scanner.c:1495-1554 | folding in place of the copy fits its buffer and is the specified folding |
| FoldMeaning.FoldsBreakByBreak | src/oyl_scanner.c:1495-1554 | each break of a folded scalar stays, unless it is between two content lines that do not start with a blank: then it is a space if they are next to each other and goes if empty lines are between them |
| BlockScalar.ChompBuffer | src/oyl_scanner.c:1556-1575 | the three chompings, in the buffer |
| BlockScalar.ReadHeader | src/oyl_scanner.c:1300-1322 | indentation and chomping indicators in either order, blanks and comment |
| BlockScalar.FindIndent | src/oyl_scanner.c:1324-1369 | the indentation of the first content line, with the leading empty lines checked |
| ScalarMeaning.HeaderForms | src/oyl_scanner.c:1300-1322 | an indentation digit and a chomping indicator, both optional and in either order, are read as what they say |
| ScalarMeaning.DigitCounts | src/oyl_scanner.c:1324-1369 | the digit counts from the enclosing block's indentation, whatever the lines are |
| ScalarMeaning.ChompsMean | src/oyl_scanner.c:1556-1575 | of the line feeds at the end "-" keeps none, "+" all and neither of them one |
| BlockScalar.ScanBlock | src/oyl_scanner.c:1324-1579 | header, indentation, measuring, copying, folding and chomping together are the specified reading |
| LiteralScalar.IsLiteralOk | src/oyl_emitter.c:290-298 | the loops decide exactly the texts that may be written literally |
| LiteralScalar.EmitBlock | src/oyl_emitter.c:399-434 | writes header, indented lines and extra line feeds as specified |
| LiteralScalar.LiteralReads | src/oyl_emitter.c:290-434 | an accepted text written with any positive indentation past the block's (the emitter's is 1 to 10 a level), and followed by the end of input, a document marker or a line not deeper than the block, reads back: leading empty lines, space-only lines, all chompings |
| LiteralScalar.RoundTrip | src/oyl_emitter.c:399-434 | emitted and scanned, an accepted text is unchanged |
| PlainScalar.VectorRun | src/oyl_simd.c:63-91 | the vector search stops at or before the first structural byte |
| PlainScalar.ScalarRun | src/oyl_simd.c:33-42 | the plain search stops exactly at the first structural byte |
| PlainScalar.Wider | src/oyl_chars.h:80-90 | the vector compare stops at exactly two more characters |
| PlainScalar.SkipLines | src/oyl_scanner.c:514-527 | counts the line breaks and finds the next line's first character and column |
| PlainScalar.IsContinuation | src/oyl_scanner.c:533-585 | decides exactly when the next line continues the scalar |
| PlainScalar.ScanPlain | src/oyl_scanner.c:379-627 | whichever search finds the runs, and whether the text is a slice or in the growing buffer, the result is the character-by-character reader's |
| PlainText.IsEscaped | src/oyl_emitter.c:233-240 | the loop finds exactly the texts with control characters |
| PlainText.IsQuoted | src/oyl_emitter.c:245-284 | the tests and the loop find exactly the texts with a start or a character that could be misread |
| ScalarMeaning.WordsBare | src/oyl_emitter.c:245-284 | words and spaces between them need no quotes |
| PlainText.BareReadsBack | src/oyl_scanner.c:443-627 | a text that needs no quoting reads back as itself exactly when what follows ends the scalar there |
| PlainText.FollowersEnd | src/oyl_scanner.c:443-600 | what the emitter writes next always ends it: a value mark, an indicator inside brackets, a break and a line not indented past the block, a document marker, the end |
| PlainText.BareStarts | src/oyl_scanner.c:1090-1592 | such a text is scanned as a plain scalar and as no other token, but for ':' first right after a quoted key inside brackets |
| PlainText.FeedBeforeIndicator | src/oyl_scanner.c:587-600 | two line breaks before an indicator leave a line feed in the value |
| PlainText.RoundTrip | src/oyl_emitter.c:347-349 | written plain and scanned with either search |
| Schema.MatchInt | src/oyl_schema.c:41-83 | the loops accept exactly [-+]?([0-9]+, 0x[0-9a-fA-F]+, 0o[0-7]+) |
| Schema.MatchFloat | src/oyl_schema.c:85-146 | the greedy loops accept exactly the grammar: some split into mantissa and exponent, with a point or an exponent, or .inf with a sign, or .nan |
| Schema.ResolveTag | src/oyl_schema.c:150-192 | the first rule that matches a plain scalar gives its tag; other styles are strings |
| ScalarMeaning.CoreTags | src/oyl_schema.c:230-250 | under the core schema exactly these texts are null and boolean, and of the others integers and floats are told by their grammars |
| ScalarMeaning.JsonTags | src/oyl_schema.c:210-222 | the same under the JSON schema |
| Schema.LooksLikeNumber | src/oyl_emitter.c:204-224 | the loop decides the emitter's test for numbers |
| Schema.IntCaught | src/oyl_emitter.c:204-224 | the emitter's test catches every text the schemas take for an integer |
| Schema.FloatCaught | src/oyl_emitter.c:175-224 | the emitter's two tests catch every text the schemas take for a float |
| ScalarEmission.Choose | src/oyl_emitter.c:309-343 | the tests choose the specified style |
| ScalarMeaning.SingleKept | src/oyl_emitter.c:309-343 | a text asked for in single quotes gets them exactly when it reads back from them, and double quotes otherwise |
| ScalarMeaning.BlockKept | src/oyl_emitter.c:309-343 | a text asked for in a block style is a literal exactly where a block scalar may stand and the text may be literal, and double-quoted otherwise |
| ScalarMeaning.NullStands | src/oyl_emitter.c:436-471 | a null leaves what was written, less one space at most, or "~" as an entry that would be lost; both are null again under the core schema |
| ScalarEmission.EmitScalar | src/oyl_emitter.c:436-471 | writes the text in the style chosen, and nulls as nothing or "~" |
| ScalarEmission.ReadScalar | src/oyl_scanner.c:1281-1592 | the first character tells which of the four readers reads the scalar |
| ScalarEmission.WrittenReads | src/oyl_emitter.c:309-471 | for every style asked for, every text but a null, written in the style chosen, reads back as the same text |
| ScalarEmission.StaysString | src/oyl_emitter.c:305-343 | a text written for a string resolves to a string in every setting exactly when it is no other type's, passes the emitter's type test, or needs escaping or quoting |
| ScalarEmission.StringsStayExactly | src/oyl_schema.c:150-192 | whatever is written for a string resolves to a string, for all texts and settings, exactly when each of the schema's own terms, in every spelling that matches, is kept so: a finite check, since numbers are always caught |
| ScalarEmission.StandardStay | src/oyl_schema.c:202-254 | under the failsafe, JSON and core schemas strings stay strings |
| ScalarEmission.AddedTerm | src/oyl_schema.c:292-314 | a term added in front of such a schema keeps strings strings exactly when the emitter's type test catches it or it is not written plain anyway |
| ScalarEmission.YesIsLost | src/oyl_schema.c:300-308 | with "yes" added to the core schema as a boolean, the string "yes" is written plain and read as a boolean |
| ScalarEmission.RoundTrip | src/oyl_emitter.c:436-471 | chosen, emitted and scanned, every text but a null is unchanged |
| Parallel.StepOwned | bench/parallel/bench_parallel.c:760-818 | every step keeps: a chunk taken and not done is with the thread that took it and with no other |
| Parallel.StepBounded | bench/parallel/bench_parallel.c:760-818 | every step keeps: workers parse inside the window, and tickets past it are held at the gate while the main thread takes one |
| Parallel.Safe | bench/parallel/bench_parallel.c:760-818 | in every interleaving each chunk is parsed once by one thread, chunks are delivered once each, in index order and only when done, and nobody parses further ahead than allowed |
| Parallel.BoundReached | bench/parallel/bench_parallel.c:809-812 | for every window and number of workers, when there are more chunks than the window, some interleaving takes the main thread to the furthest chunk the bound allows |
| Parallel.WindowKept | bench/parallel/bench_parallel.c:809-812 | the delivering thread keeps inside the window in every interleaving exactly when there are no workers or no chunk is beyond the window |
| Parallel.SomeMoves | bench/parallel/bench_parallel.c:760-818 | until all is over some thread has a step that is not waiting |
| Parallel.Delivers | bench/parallel/bench_parallel.c:774-818 | every interleaving can go on, within a bounded number of steps, until every chunk is delivered and every thread has ended |
| Parallel.FairFinishes | bench/parallel/bench_parallel.c:760-818 | under every schedule in which all threads keep moving, every chunk is delivered in order and every thread ends, within a bound |

## Left out

- The recursive block parser's two sets of properties per node, flow collections as keys of block mappings, and %TAG and %YAML directives: the incremental parser falls back there, and the model stops at the request. The rest of that parser is BlockGrammar, a recursive function and not the C loops; on a token without a type, which the scanner never returns, it follows the incremental parser.
- BlockRefinement.RunParses: assumes `SoundKeys`, as FlowRefinement.FlowRefines does. A flow collection on the line of its key's ':' is not taken for a key (src/oyl_parser.c:3894-3959); the recursive parser would take it for one, but the scanner reports such a second ':' first, which is not part of this model.
- MachineYield.ReachableTokens: the first token starts the stream (src/oyl_scanner.c:1060).
- FlowRefinement.FlowRefines: assumes the lookahead's "not a key" answers are right (`SoundKeys`), because tokens are abstract there; FlowKey.FlowKeys.IsKey connects the cached answers to bytes only for brackets the cached scan itself opened.
- IncrementalParser.StepParser.ParserStep: as for IncrementalParser.EventSource.NextEvent, a step ends at the first token that cannot be scanned. The code goes on with the token it holds and then cuts its queue back to the length at the failed scan (src/oyl_parser.c:311, 4634-4639), which is the same unless a second scan fails in the same step after more was queued; that and calls after an error are not modelled.
- Event and depth limits, schema default tags, allocation failure, error message texts, file reading and the public wrappers.
- The eager parser's context stack, which inside brackets only says that the parser is inside brackets.
- The states the incremental parser never enters (unrolling, the value-node and entry-node states, the check for a colon) are proved unreachable, not modelled.
- Binding.BindAnchors: this and AnchorTable.Anchors.constructor share one generic table of names and numbers instead of two C structs; the tables grow as in the source.
- MergeExpansion.ResolveMerges: merging is stated pass by pass. A pass treats a source's own `<<` as an ordinary key, so merging is not transitive in general; nothing is claimed about it.
- FlowKey.FlowKeys.IsKey: says nothing of a bracket inside the cached range that the scan did not open, such as one inside what it took for a quoted scalar; which brackets the tokenizer reports is not modelled at the level of bytes.
- ScalarEmission.EmitScalar: reading a null back (as an empty node, or as "~" under the core schema) is not stated.
- AliasExpansion.ResolveAliases: the expansion limit is a parameter, and in Pipeline.EagerPasses any function of the number of events; how it is computed from the parser's options is not modelled.
- Pipeline.MergedTarget: merging can drop an anchor's node, so the converse is stated for the bound trees only (Pipeline.ScopedTarget).
- Aliases and closing events carry no anchors (src/oyl_parser.c:595-598, 1048-1050); the array lemmas require it. MachineYield.RunTidy shows it of the incremental parser's events; the arrays are the eager parser's.
- FlowKey.Cursor.Next: the 64-bit mask is a set of bit positions and the vector instructions are their byte predicate.
- FlowKey.FlowKeys.Fill: the sort at the end of the scan is an insertion by order.
- DoubleQuoted.ScanDoubleQuoted: this and SingleQuoted.ScanSingleQuoted take the checks of a continuation line (indentation, document markers, tabs) as parameters.
- The line and column marks of scalars, and what the scanner remembers about keys for its implicit-key checks.
- Whole documents emitted and parsed again: scalars and tags only.
- Parallel.Safe: every atomic load and store is one step on a single memory; weaker orderings, the split-line heuristics and the events inside a chunk are not modelled.

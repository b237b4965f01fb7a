# Verification of the PromptOn Go SDK

A Dafny model of four parts of the SDK, with proofs of what they promise. The
main results are for all inputs, all runs or all reachable states. Where a
promise is not kept, one lemma gives an input that shows it (named below under
the differences) and others say when it is kept. Limits of 64 bits that the
source relies on are bounds in contracts (`PayloadFixpoint.WithinInt`).
`dafny verify dfyconfig.toml` checks the whole project.

**Monitoring-log buffer** (`buffer.go`). `LogQueue` gives lanes, batches and the
step functions as values; `LogRuns` runs them in any interleaving of enqueues,
takes, replies and closing, with one batch in flight because one goroutine
sends; `LogTheorems` states what holds over every run. `LogBuffer` is the
mutable buffer: a ghost field follows the run, and each method is proved to take
the step it stands for. `LogMeaning` says what each step is, status by status.
`LogDrain` proves that draining ends, by a weight over record counts and attempts
left; `LogOrigins` says what is posted.

**Payload truncation and canonical JSON** (`payload.go`, `canonjson.go`).
`CanonicalJson` has the encoding and a decoder by RFC 8259 for texts without
white space; `JsonStrings`, `JsonRoundTrip`, `JsonCollisions` and `JsonValidity`
connect them; `JsonWriter` and `JsonSizes` hold the writers and the sizes.
`JsonShape`, `SortedStrings` and `Utf8Runes` say what is written byte for byte.
`Truncation`, `Payload`, `PayloadMethods`, `MessageFitting`, `PayloadFixpoint`
and `PayloadText` cover the cuts, the message fitting, the fixpoint and the text;
`PayloadMeaning` says which fields every cut changes, and to what.

**Liquid subset** (`internal/liquid`). `LiquidSemantics` says what a template
means without any state; `LiquidRender` is the stateful renderer proved equal to
it; `LiquidMeaning` and `LiquidLoops` say in terms of whole templates what every
operator, filter, path and loop comes to. `LiquidNames`, `NamesMeaning`,
`LiquidLaws` and `LiquidReads` are the name analysis and the laws.
`LiquidScanner`, `LiquidGrammar`, `LiquidExpressions` and `LiquidRecognition`
give the expression parser and show that it accepts exactly its grammar, and
`LiquidBrackets` what closes a subscript; `Spaces` trims and splits as Go does;
`LiquidLexer`, `LiquidParser` and `LiquidNesting` lex and parse templates and
show that exactly the well-nested ones parse. `LiquidWords` and `LiquidSource`
say what sources mean, character by character and part by part; `LiquidEngine`
joins it all and `LiquidEndToEnd` goes from characters to text.

**Demand-fetch cache and document integrity** (`client.go`, `store.go`,
`snapshot.go`, `resolver.go`). `Documents` decides which documents load,
`Resolver` what they resolve to, `FetchProtocol` is the cache as a state machine
over callers' and fetches' steps, `FetchTheorems` its run-wide properties and
`FetchClient` the client and its store as objects. `DocumentsMeaning`,
`ResolverMeaning` and `FetchMeaning` say the same over the fields of the document
and of the entries.

The modules whose names end in Meaning, with the others named beside them, say
what the specification functions come to without the helper functions that the
methods share with them, so that the two can be held against each other.

Go strings are byte strings: here they are Dafny strings whose characters below
256 stand for bytes, and valid UTF-8 is section 4 of RFC 3629. The clock, the
server's replies, sha256, number parsing and the text of a map are parameters.
Methods stand for what runs under one lock; the deadline of a fetch is checked
as its document goes in.

## Where the code and its documentation differ

The model follows the code.

- `internal/liquid/render.go:23-26` says a variable read only by an if or elsif
  condition is not reported missing. It is, when that branch is taken
  (`LiquidLaws.TakenConditionReports`).
- `internal/liquid/parse.go:560-561` says comparisons fold from right to left.
  `and` binds tighter than `or`, so that is so only where no `and` comes before
  an `or` (`LiquidRecognition.RightFoldExact`), and elsewhere outcomes can
  differ (`LiquidRecognition.FoldsDisagree`).
- `internal/liquid/lint.go:143-162` lists the variables a template reads less
  every name it binds anywhere. That is enough exactly when the rendering
  depends on no unlisted name (`LiquidLaws.VariablesExact`), and certainly when
  no name is read before it is bound and bound elsewhere
  (`LiquidLaws.VariablesSuffice`). A read such a name has and that the rendering
  comes to, at any depth, needs it though it is not listed
  (`LiquidReads.ReadUnlisted`), as in a template that reads x and then assigns it
  (`LiquidReads.VariablesUndercount`).
  Whether the rendering comes to a read depends on the values, so no condition
  on the template alone is exact.
- `README.md:253-255` says full mode truncates to the limits the server checks
  again. The digest of variables may be over the variables' own cap, and then a
  second truncation changes it; this needs max_bytes below 488
  (`PayloadFixpoint.SmallCapUnsettled`, `PayloadFixpoint.LargeEnoughSettles`).
- `internal/liquid/parse.go:712-715` expects a closing bracket and compares only
  the text of the token, so the string literal `"]"` closes as well
  (`LiquidBrackets.StringCloses`). What is accepted closes its subscripts with
  brackets if and only if its brackets balance (`LiquidBrackets.ConditionCloses`,
  `OperandCloses`, `OutputCloses`), so always without that literal
  (`LiquidBrackets.OnlyStringsClose`).
- `resolver.go:142-146` resolves through prompt pins. The loader refuses
  documents that carry pins and derives the one default pin from
  prompt_version, so every other template name is unknown
  (`Resolver.DefaultResolves`).
- A document installed by hand resets the attempt gate, is not guarded, and a
  304 on its way promotes it to remote (`FetchTheorems.InstallForgets`,
  `FetchTheorems.InstallConfirmed`). Single flight, never losing a document and
  clean resolution hold in every run; spacing holds from one install of the key
  to the next (`FetchTheorems.StretchSpaced`), and the guard again from the next
  usable document on (`FetchTheorems.GuardRestored`).

## Model

| member | source | states |
|---|---|---|
| LogTheorems.Conservation | buffer.go:136-203 | In every run the number of enqueue calls is queued + in flight + Sent + all six drop counters, off by exactly the records successful replies left unmentioned |
| LogTheorems.ConservationExact | buffer.go:446-458 | When every successful reply names each record of its batch once, the balance is exact |
| LogTheorems.PostBound | buffer.go:473-522 | No record is posted more than LogMaxAttempts + 8 times in any run, whatever the server answers |
| LogTheorems.NeverResent | buffer.go:440-459 | Once a POST of a record has come back without error, no later step of any run posts that record again |
| LogTheorems.QueueBound | buffer.go:168-203 | At every moment of every run queued + in flight is at most LogMaxBuffer + 200, the 413 split that does not trim included |
| LogTheorems.LaneOrder | buffer.go:395-430 | In every run each lane is in flight, then ready, then pending in strictly increasing sequence order, with no empty ready batch, and its byte counters are the bytes it holds |
| LogTheorems.PostedBodySize | buffer.go:20-27 | Every batch in flight has 1 to 200 records, and its request body is exactly total + n + 10 bytes and below 5 MB |
| LogOrigins.PostedWasEnqueued | buffer.go:136-459 | Whatever is dropped, split and retried, in every run each record queued or in flight was handed in by a call for that very environment with that very body |
| LogOrigins.PostedBodyIsValid | canonjson.go:173-178 | The body of every POST of every run is valid UTF-8, whatever bytes the strings handed in hold |
| LogTheorems.TrimmedKeepsNewest | buffer.go:170-231 | Trimming keeps, over all environments, exactly the newest records up to the limit: each lane keeps a suffix and every lost record is older than every kept one |
| LogTheorems.EnqueueKeepsNewest | buffer.go:136-166 | At any moment of any run, taking in a record leaves the LogMaxBuffer newest of what waited and itself |
| LogTheorems.RetryKeepsNewest | buffer.go:504-524 | At any moment of any run, putting a failed batch back leaves the LogMaxBuffer newest of what waited and what came back |
| LogTheorems.EnqueuedOrdered | buffer.go:154-161 | An enqueue in any reachable state leaves every lane strictly ordered and owned, so the trim that follows meets TrimmedKeepsNewest |
| LogTheorems.RetriedOrdered | buffer.go:513-523 | A batch put back at the front of its lane in any reachable state leaves every lane strictly ordered and owned |
| LogRuns.StepOK | buffer.go:136-526 | One invariant is kept by every step (enqueue, take, reply of any kind, close): order, ownership, byte counters, batch bounds, POST counts and conservation |
| LogRuns.SplitHalvesOK | buffer.go:473-485 | Both halves of a split batch keep the attempts and the bound of 2^(8-k) records after k splits |
| LogRuns.RetriedBatchOK | buffer.go:504-523 | A retried batch below LogMaxAttempts keeps the account of its POSTs |
| LogRuns.FreshBatchOK | buffer.go:414-430 | The batch takeBatch cuts from pending is non-empty, at most 200 records and at most 4,500,000 bytes |
| LogQueue.QueuedTrimmed | buffer.go:170-203 | After trimming the number waiting is the smaller of what waited and the limit |
| LogQueue.DropHeadRecords | buffer.go:178-197 | Dropping the oldest of a lane removes exactly its first record and leaves no empty ready batch |
| LogBuffer.Buffer.constructor | buffer.go:111-122 | A new buffer is the start of a run |
| LogBuffer.Buffer.Enqueue | buffer.go:136-166 | Takes the Enqueue step of the run: closed, too large, or appended and trimmed; reports whether the buffer was closed |
| LogBuffer.Buffer.EnqueueLocked | buffer.go:139-162 | The new state is the enqueue function of the old one |
| LogBuffer.Buffer.TrimToBound | buffer.go:170-203 | The loop drops exactly what the trim function drops and adds the count to the overflow counter |
| LogBuffer.Buffer.DropOldest | buffer.go:178-199 | The lane loses exactly its first record, from the first ready batch or from pending |
| LogBuffer.Buffer.OldestLane | buffer.go:216-231 | The lane whose first record has the smallest sequence number, or none when nothing waits |
| LogBuffer.Buffer.HeadSeq | buffer.go:235-245 | The sequence number of the first record of a lane, if it has one |
| LogBuffer.Buffer.TotalQueued | buffer.go:205-211 | The number of records over all lanes |
| LogBuffer.Buffer.TakeBatch | buffer.go:395-430 | Takes the Take step of the run; what it returns is in flight from then on |
| LogBuffer.Buffer.TakeBatchLocked | buffer.go:395-430 | A blocked, empty or not yet due lane gives nothing; otherwise the first ready batch, or the greedy cut of pending |
| LogBuffer.Buffer.FillBatch | buffer.go:414-429 | The greedy loop takes the longest prefix of pending within 200 records and 4,500,000 bytes, at least one record |
| LogBuffer.Buffer.Settle | buffer.go:432-459 | Takes the Reply step of the run for every outcome |
| LogBuffer.Buffer.HandleSendError | buffer.go:461-526 | 413 splits or drops, other 4xx but 429 drop, exhausted attempts drop, anything else is retried at the front after its delay; status by status in LogMeaning |
| LogBuffer.Buffer.Retry | buffer.go:504-524 | The batch returns to the front of its lane with one more attempt and the lane is blocked for retry-after or the backoff |
| LogBuffer.Buffer.Close | buffer.go:305-312 | The part of close under the lock: takes the Close step of the run and tells whether it was closed already |
| LogBuffer.Count | buffer.go:256-262 | The number of records of a lane |
| LogBuffer.ByteSize | buffer.go:70-76 | The bytes of a batch |
| LogBuffer.BackoffDelay | buffer.go:557-572 | For any base, cap and attempt, negative ones included, the doubling loop gives the smaller of the cap and the base times 2^(attempt - 1) |
| LogBuffer.OldestUnique | buffer.go:216-231 | With ordered lanes there is only one oldest lane, so the search order does not matter |
| LogDrain.Drain | buffer.go:531-553 | For any replies and any clock, with nothing enqueued meanwhile, drain ends; the POSTs are at most the weight of the queue and every lane is left empty or was found blocked in the last pass |
| LogDrain.Shut | buffer.go:305-323 | Closing, given the time: a second call changes nothing; the first closes for good and flushes, and what is left waits in lanes found blocked |
| LogDrain.Pass | buffer.go:534-551 | One pass posts something or leaves every lane empty or found blocked |
| LogDrain.SendOne | buffer.go:541-547 | Each POST strictly lowers the weight, whatever the reply |
| LogDrain.SettleWeight | buffer.go:432-526 | Settling any reply to a batch lowers the weight of the queue with the batch: accept, split, drop and retry alike |
| LogDrain.TrimmedPotential | buffer.go:170-203 | Trimming never raises the weight of the queue |
| LogMeaning.RetryMeans | buffer.go:487-523 | At any moment of any run, after no answer, a status below 400 or from 500 on, or 429, with attempts left: the batch is first in its lane with one more attempt, the lane waits for retry-after if positive, else min(300, 2^attempts) seconds, and only what then overflows is lost and counted |
| LogMeaning.ExhaustedMeans | buffer.go:499-502 | The same failures with no attempt left drop the batch and count its records as retries exhausted; nothing else changes |
| LogMeaning.ClientErrorMeans | buffer.go:493-498 | Any other status of 400 to 499 but 413 adds the records to the client-error counter and changes nothing else |
| LogMeaning.TooLargeMeans | buffer.go:473-492 | 413 drops a single record as too large, and puts the two halves of any larger batch in front of its lane with the attempts they had, without a wait |
| LogMeaning.PostedMeans | buffer.go:440-459 | A 2xx adds accepted and duplicates to Sent and rejected to its counter, ends the waiting of the lane, and keeps all else |
| LogMeaning.EnqueueMeans | buffer.go:136-166 | A closed buffer only counts the record, and any buffer one above 4,500,000 bytes; else it stands last in its lane under the next number and only what overflows is lost |
| LogMeaning.TakeMeans | buffer.go:395-430 | A take gives something exactly when the lane holds something, is not blocked, and has a ready batch, is forced, or has reached flush size or flush bytes: the first ready batch, or the longest front of 200 records and 4,500,000 bytes |
| JsonSizes.ListSizeIsSize | payload.go:465-474 | The running list size is the length of the canonical encoding of the list |
| JsonSizes.ListJSONSize | payload.go:465-474 | The loop computes the length of the canonical encoding of the list |
| JsonSizes.EnvelopeSize | transport.go:242-244 | The canonical request body of n records is the sum of their sizes + n + 10 bytes, for n > 0 |
| JsonSizes.SizeReplace | payload.go:503-537 | Replacing one field changes the size by the difference of the two values |
| JsonSizes.PlainQuote | canonjson.go:179-222 | A string of printable characters is quoted by adding two bytes |
| JsonWriter.WriteJSONString | canonjson.go:179-222 | The loop appends exactly the JSON string of any byte string |
| JsonWriter.WriteStep | canonjson.go:181-220 | One step consumes one byte or rune and appends its escape, itself, or U+FFFD |
| JsonWriter.WriteEscaped | canonjson.go:185-209 | The escape of an ASCII byte |
| JsonWriter.WriteCanonical | canonjson.go:47-171 | The writer appends exactly the canonical encoding of any value |
| JsonWriter.WriteList | canonjson.go:97-105 | The list loop appends the bracketed, comma-separated encodings |
| JsonWriter.WriteMap | canonjson.go:124-139 | The object is written, each of its keys once, in the order of SortedStrings.Before, which speaks of prefixes and first differing bytes only |
| JsonWriter.CanonicalJSON | canonjson.go:36-40 | The canonical encoding |
| JsonWriter.JsonSize | canonjson.go:43-45 | The length of the canonical encoding |
| JsonShape.ObjectsInOrder | canonjson.go:124-139 | Every object is written with each key once, each before those that are larger in the first byte that differs, and a prefix before what extends it |
| JsonShape.WordsWritten | canonjson.go:47-96 | The values without parts, an empty number token being null |
| JsonShape.EscapesWritten | canonjson.go:185-203 | The seven short escapes, byte for byte |
| JsonShape.ControlsWritten | canonjson.go:204-209 | Every other control character as u00 and its two lower-case hex digits |
| JsonShape.PlainWritten | canonjson.go:179-222 | Any other valid text is written as it is |
| SortedStrings.LeqExact | canonjson.go:129 | The order of strings: equal, a proper prefix, or smaller in the first byte that differs |
| SortedStrings.SortedKeysInOrder | canonjson.go:124-131 | A sorted listing has exactly the keys, each before those behind it in that order |
| Utf8Runes.DecodedIsRune | canonjson.go:210-219 | What is decoded as a character is the encoding of a Unicode scalar value (section 3 of RFC 3629) |
| Utf8Runes.RuneDecodes | canonjson.go:210-219 | Every such encoding is decoded at its full length, whatever follows |
| Utf8Runes.EscapesBuildRunes | canonjson.go:179-222 | The decoder of JSON escapes builds the same bytes |
| JsonStrings.UnquoteQuoted | canonjson.go:179-222 | Any byte string, valid UTF-8 or not, is written as a legal JSON string that decodes to it with each undecodable byte replaced by U+FFFD (section 7 of RFC 8259) |
| JsonStrings.QuoteEqual | canonjson.go:179-222 | Two strings are written alike just when they agree after that replacement |
| JsonStrings.QuoteIsValid | canonjson.go:179-222 | The written string is valid UTF-8 |
| JsonRoundTrip.ParseEncode | canonjson.go:47-171 | Parsing the encoding of a well-formed value, followed by nothing or by anything that does not go on with a number, returns the value and the rest (sections 3 to 7 of RFC 8259) |
| JsonRoundTrip.DecodeEncode | canonjson.go:47-171 | Decoding the encoding of a well-formed value returns it |
| JsonRoundTrip.EncodeInjective | canonjson.go:47-171 | For well-formed values byte equality is value equality, both ways |
| JsonValidity.EncodeIsValid | canonjson.go:173-222 | The encoding of every value whose number tokens are numbers is valid UTF-8, keys included |
| JsonValidity.BodyIsValid | canonjson.go:173-178 | So is the request body of any list of such records: one undecodable byte never spoils a batch |
| JsonCollisions.EncodeEqual | canonjson.go:47-171 | For all values whose number tokens are numbers, ill-formed strings and keys included, the encodings are equal if and only if the values agree after the U+FFFD replacement, field by field in the byte order of their own keys |
| JsonCollisions.EncodePrefix | canonjson.go:47-171 | So no encoding goes on where another ends: equal bytes with any delimited remainders give alike values and equal remainders |
| JsonCollisions.AlikeEncode | canonjson.go:47-171 | Values that agree after the replacement are written alike |
| JsonCollisions.EncodeNotInjective | canonjson.go:47-171 | An instance: two ill-formed values with one encoding |
| SortedStrings.SortedKeysUnique | canonjson.go:124-131 | The byte-wise sorted listing of a set of keys is unique, so map order does not show |
| Truncation.TruncatedFits | payload.go:543-558 | A truncated string never exceeds its limit |
| Truncation.TruncatedTwice | payload.go:543-558 | Truncating twice is truncating once |
| Truncation.TruncatedKeepsCharacters | payload.go:543-578 | On valid UTF-8 the result is valid UTF-8 made of a prefix, the marker and a suffix, each side losing at most 3 bytes to reach a boundary (section 4 of RFC 3629) |
| Truncation.LastBoundaryOfValid | payload.go:560-571 | In valid UTF-8 the trailing trim finds the last character boundary, at most 3 bytes back |
| Truncation.SkipContinuationsOfValid | payload.go:573-578 | In valid UTF-8 the leading trim finds the next character boundary, at most 3 bytes on |
| Truncation.TrimTrailingPartial | payload.go:560-571 | The loop cuts at that boundary |
| Truncation.TrimLeadingPartial | payload.go:573-578 | The loop starts at that boundary |
| Truncation.TruncateString | payload.go:543-558 | Computes the truncation and whether it cut |
| PayloadMeaning.TruncatedMeans | payload.go:543-578 | A string over its limit becomes its front, a marker with the number of bytes over the limit, and its end; 60 percent of what the marker leaves goes to the front, each side less what is cut of a character |
| PayloadMeaning.CutMessageMeans | payload.go:315-340 | A cut message keeps its keys and every other field; its content is the cut text, and truncated is true exactly when the content was over the limit |
| PayloadMeaning.StubMeans | payload.go:355-376 | A stub has the keys of its message and content and truncated, every other field unchanged, truncated true, and the old number of content bytes in its text |
| PayloadMeaning.MarkerMeans | payload.go:378-450 | A marker has the role system, truncated true and the number of messages in its text |
| PayloadMeaning.ShrunkMeans | payload.go:415-432 | A shrinking halves the content as CutMessageMeans says, or leaves the role and truncated, or nothing is left to shrink |
| PayloadMeaning.MessagesMean | payload.go:297-446 | What any fitted list consists of: every message cut, then from the second on to the last but one stubs, then a first message shrunk, a marker and the untouched end |
| PayloadMeaning.ToolCallsMean | payload.go:476-518 | Over their cap the arguments of all calls are cut alike, to the first of their share, its half and so on, of at least 32 bytes, that makes them fit; if there is none only the size of the calls is kept. Every other field stays |
| PayloadMeaning.VariablesMean | payload.go:283-295 | Variables are kept whole or replaced by size and SHA-256 of their encoding |
| PayloadMeaning.InputMeans | payload.go:224-256 | What each field of an input becomes under max_bytes: messages at an eighth each, text at the whole, variables at a quarter, every other field unchanged, and when truncated is set |
| PayloadMeaning.OutputMeans | payload.go:258-281 | What each field of an output becomes: content and tool calls at a quarter, every other field unchanged, and when truncated is set |
| PayloadMeaning.PolicyMeans | payload.go:84-99 | What full mode makes of a record: errors and answers cut off at the length are kept, others by their bucket; without payload exactly input and output go; the error message is cut at 2048; no other field changes |
| MessageFitting.MessagesFit | payload.go:297-313 | For any list and any cap the fitted list is at most max(cap, 2) canonical bytes |
| MessageFitting.MessagesOutcome | payload.go:347-446 | Exactly which stage decides: all of them, the stubbed list, or the dropped middle as DropMiddleOutcome says; with a marker, its count plus the originals still present is the input length |
| MessageFitting.DropMiddleOutcome | payload.go:378-409 | If some shrinking of the first message fits beside a marker, the result is the first one that does, with every earlier one too long, a marker and the longest tail; if none does, the marker alone exactly when it fits, else nothing |
| MessageFitting.ShrinksUntilFit | payload.go:384-408 | The loop runs on to the least shrinking that fits and stops there |
| MessageFitting.NothingFits | payload.go:399-406 | When no shrinking fits the result is the marker for the whole list if that fits, and nothing otherwise |
| MessageFitting.TailIsLongest | payload.go:434-446 | The kept tail fits its budget and one message more would not |
| MessageFitting.MarkerMonotone | payload.go:389-401 | A marker for fewer dropped messages is no longer, so the budget taken before the tail is known is safe |
| MessageFitting.StubbingKeeps | payload.go:355-376 | Stubbing leaves the first and the last message alone and replaces objects by their stub only |
| MessageFitting.StubbingIsNeeded | payload.go:355-376 | A message is stubbed only while the list is over the cap |
| Payload.ShrinkingEnds | payload.go:415-432 | Each shrinking of the first message lowers the measure, so dropMiddle ends |
| Payload.HalvedMessage | payload.go:415-432 | A shrunk message has at most half its content bytes |
| MessageFitting.ShrinkStops | payload.go:415-428 | On decoded JSON shrinking gives up exactly at the minimal message: the byte comparison never takes another message for it |
| PayloadMethods.TruncateMessage | payload.go:315-340 | Cuts a message as specified and reports exactly when it did |
| PayloadMethods.TruncateMessages | payload.go:297-313 | The message list after the per-message cap and the list cap, whether anything was cut, and, as PayloadMeaning.MessagesAre says field by field, what each message that is left still holds |
| PayloadMethods.FitMessages | payload.go:347-353 | The stages in order |
| PayloadMethods.StubMiddle | payload.go:355-376 | The in-place loop with its running size gives the stubbed list |
| PayloadMethods.MessageContentBytes | payload.go:452-461 | The content bytes of a message |
| PayloadMethods.DropMiddle | payload.go:378-409 | The shrinking loop gives the dropped-middle list |
| PayloadMethods.ShrinkFirst | payload.go:415-432 | Halves the content, reduces to role and content, or gives up |
| PayloadMethods.TailWithin | payload.go:434-446 | The backwards loop keeps the tail TailIsLongest is about |
| PayloadMethods.ShrinkCall | payload.go:503-518 | A tool call with its arguments cut to the budget |
| PayloadMethods.TruncateToolCalls | payload.go:476-501 | The halving loop and the digest it ends in, and whether it cut |
| PayloadMethods.FitCalls | payload.go:487-500 | Halving the budget from its first value until the calls fit or it is below 32 |
| PayloadMethods.TruncateVariables | payload.go:283-295 | The variables or their digest, and whether they were replaced |
| PayloadMethods.TruncateInput | payload.go:224-256 | The truncated input, field by field in place |
| PayloadMethods.TruncateOutput | payload.go:258-281 | The truncated output, field by field in place |
| PayloadMethods.TruncatePayload | payload.go:206-222 | The truncated record |
| PayloadText.PayloadKeeps | payload.go:206-222 | Truncating a record of decoded JSON leaves decoded JSON: every string valid UTF-8, every number a number, no character split in any message, tool call, text, stub, marker or digest |
| PayloadText.PolicyKeeps | payload.go:84-99 | The same for the whole full-mode policy, the error message included |
| PayloadText.MessagesKeep | payload.go:297-446 | The same for the fitting of a message list |
| PayloadText.ToolCallsKeep | payload.go:476-518 | The same for tool calls |
| PayloadText.ShrinkingStops | payload.go:399-432 | However often the first message of decoded JSON was shrunk, shrinking gives up exactly at no object or the minimal message |
| PayloadFixpoint.MessagesTwice | payload.go:297-340 | A second pass over fitted messages changes nothing |
| PayloadFixpoint.ToolCallsFit | payload.go:476-501 | Tool calls always end up within their cap |
| PayloadFixpoint.DigestSize | payload.go:283-295 | The digest of oversized variables is 103 bytes plus the digits of the length |
| PayloadFixpoint.DigestTwice | payload.go:283-295 | Exactly when truncating the variables again changes nothing |
| PayloadFixpoint.InputFixpoint | payload.go:224-256 | Truncating an input again changes nothing exactly when its variables settle |
| PayloadFixpoint.OutputTwice | payload.go:258-281 | Truncating an output again never changes anything |
| PayloadFixpoint.PayloadFixpoint | payload.go:206-222 | Truncating a record again changes nothing exactly when its variables settle |
| PayloadFixpoint.LargeEnoughSettles | payload.go:206-222 | They always settle when max_bytes is at least 488 |
| PayloadFixpoint.SmallCapUnsettled | payload.go:283-295 | Below that they need not: an input at max_bytes 256 that a second pass changes |
| PayloadFixpoint.PolicyFixpoint | payload.go:84-99 | The whole full-mode policy applied again keeps the sampling decision and changes nothing exactly when the variables settle |
| LiquidRender.RenderTemplate | internal/liquid/render.go:39-49 | The stateful renderer computes the compositional semantics: the text, or the error |
| LiquidRender.RenderAll | internal/liquid/render.go:96-103 | Rendering a list of nodes appends the semantics' text, leaves its globals and signal, restores the locals and leaves no pending name |
| LiquidRender.RenderOne | internal/liquid/render.go:105-167 | The same for every kind of node |
| LiquidRender.RenderIf | internal/liquid/render.go:127-141 | Branches are tried in order; a missing name of a condition that does not hold never leaks into the next |
| LiquidRender.RenderFor | internal/liquid/render.go:186-223 | A loop over an empty source renders its else body, any other runs its rounds |
| LiquidRender.RenderRounds | internal/liquid/render.go:195-222 | Each round sees its own frame, popped on every exit; break and continue end here |
| LiquidRender.EvalExpr | internal/liquid/render.go:294-355 | Expression evaluation with the pending slot gives the value and the first missing name |
| LiquidRender.LookupPath | internal/liquid/render.go:357-392 | Path lookup, missing names by reading mode |
| LiquidRender.EvalCondition | internal/liquid/render.go:171-178 | A condition takes and clears the pending name |
| LiquidRender.EvalOut | internal/liquid/render.go:280-292 | An output with its filters |
| LiquidRender.ApplyFilter | internal/liquid/render.go:537-576 | size, join and default; any other name is an error |
| LiquidRender.EvalArguments | internal/liquid/render.go:537-576 | Filter arguments left to right, up to the first error |
| LiquidRender.Scope.LookupName | internal/liquid/render.go:78-86 | The innermost frame that has the name, else the globals |
| LiquidRender.Scope.TakePending | internal/liquid/render.go:180-184 | Empties the slot and returns what was in it |
| LiquidRender.EvalModes | internal/liquid/render.go:294-392 | The lenient reading never fails; if the strict one succeeds they are equal and nothing was missed, and if it fails it names the first name the lenient one missed |
| LiquidMeaning.NumbersCompare | internal/liquid/render.go:441-481 | An if on two numbers is taken exactly when x > y, x < y, x >= y, x <= y, x = y or x differs from y, for the operator that says so |
| LiquidMeaning.StringsCompare | internal/liquid/render.go:441-481 | On two strings by the first byte in which they differ, a prefix first; contains when the one stands somewhere in the other |
| LiquidMeaning.OthersAreNotOrdered | internal/liquid/render.go:441-481 | No other two values are in any order |
| LiquidMeaning.EmptyEquals | internal/liquid/render.go:483-518 | empty equals exactly nil, false and the empty string, list and map, on either side |
| LiquidMeaning.ValuesEqualBy | internal/liquid/render.go:483-518 | What else is equal: values of one kind, numbers by their readings, lists item by item, maps never |
| LiquidMeaning.DifferentIsNotEqual | internal/liquid/render.go:441-481 | != holds exactly where == does not |
| LiquidMeaning.ContainsBy | internal/liquid/render.go:520-535 | A list contains what one of its items equals, a string what stands in it once written out, nothing else contains anything |
| LiquidMeaning.TruthBy | internal/liquid/value.go:186-196 | Only nil and false are not taken; and, or and unless go by that |
| LiquidMeaning.AnyOperands | internal/liquid/render.go:294-355 | What holds of two values decides for any two expressions that have them |
| LiquidMeaning.MissingInConditions | internal/liquid/render.go:127-184 | A condition that missed a name fails the rendering exactly where it would be taken: of an if when it holds, of an unless when it does not |
| LiquidMeaning.NameIsMissed | internal/liquid/render.go:294-355 | A name nothing has is nil to a condition on either side of any operator, and missed by it |
| LiquidMeaning.ValuesShown | internal/liquid/value.go:148-184 | What values look like; a list is its items one after another |
| LiquidMeaning.SizeShown | internal/liquid/value.go:230-243 | size is the characters of a string, the entries of a list or map, and 0 of anything else |
| LiquidMeaning.JoinShown | internal/liquid/render.go:537-576 | join puts the separator between the items of a list, a blank if none is given, and leaves anything else as it is |
| LiquidMeaning.DefaultShown | internal/liquid/render.go:537-576 | default replaces exactly the values that empty equals, before any further filter |
| LiquidMeaning.OtherFiltersFail | internal/liquid/render.go:537-576 | Any other filter name is an error |
| LiquidLoops.MapsSelect | internal/liquid/render.go:394-439 | A map is read by key, spelled as a property, a string or a number |
| LiquidLoops.ListsSelect | internal/liquid/render.go:394-439 | A list is read by index, from its end when negative, and by size, first and last; anything else is missing |
| LiquidLoops.OthersSelect | internal/liquid/render.go:394-439 | A string has a size and no other value has parts |
| LiquidLoops.WhatIsLoopedOver | internal/liquid/render.go:247-278 | A single value is looped over as a list of itself, a map as its pairs in the order of its keys, nil as nothing |
| LiquidLoops.EmptyLoop | internal/liquid/render.go:186-194 | With nothing to loop over the else body is all there is |
| LiquidLoops.LoopConcat | internal/liquid/render.go:195-222 | A loop is its rounds one after another, up to the one that breaks |
| LiquidLoops.LoopShowsItems | internal/liquid/render.go:195-222 | The loop variable is each item in turn, whatever the variables say of its name |
| LiquidLoops.LoopShowsPosition | internal/liquid/render.go:195-212 | forloop.index is i + 1, index0 i, rindex n - i, rindex0 n - i - 1, first and last at either end, length n |
| LiquidLoops.LoopBreaks | internal/liquid/render.go:195-222 | break ends the loop after what came before it, continue only the round |
| LiquidLoops.AssignShows | internal/liquid/render.go:117-126 | An assignment is seen by what follows, over any value given from outside |
| LiquidLoops.InnerHidesOuter | internal/liquid/render.go:74-86 | An inner loop hides the variable of the outer one and gives it back |
| LiquidLaws.ScopedCoincidence | internal/liquid/lint.go:229-310 | Variable maps that agree on the names a template reads before binding them give the same text or the same error: a loop binds its variable and forloop for its body, an assignment its target for what follows, an if or unless what all its bodies bind |
| LiquidLaws.Coincidence | internal/liquid/lint.go:229-310 | In particular maps that agree on every name the analysis collects |
| LiquidLaws.FreeIsReferenced | internal/liquid/lint.go:253-310 | Every name read before it is bound is among the collected ones |
| LiquidLaws.VariablesSuffice | internal/liquid/lint.go:143-162 | The published variable list is enough when no name is both read before it is bound and bound elsewhere in the template, or forloop; reading loop variables and assigned names is fine |
| LiquidLaws.VariablesExact | internal/liquid/lint.go:143-162 | The list is enough for every input if and only if the rendering depends on no name that is read before it is bound but left off the list |
| LiquidReads.MissIsFree | internal/liquid/render.go:105-392 | Where a rendering stops at a name nothing has, in an output, assignment, loop source or taken condition, in a subscript or filter argument, at any depth of bodies, its error shows that name, the name is read before it is bound and was not given |
| LiquidReads.FreeNamesSuffice | internal/liquid/lint.go:229-310 | So a caller that gives every name read before it is bound never misses one |
| LiquidReads.ReadUnlisted | internal/liquid/lint.go:143-162 | When the name the rendering stops at is bound elsewhere in the template, or forloop, it is not listed and has to be given all the same |
| LiquidReads.NodesBind | internal/liquid/render.go:105-223 | What a rendering was given stays, and when it ends normally what every way through it binds is there |
| LiquidReads.VariablesUndercount | internal/liquid/lint.go:143-162 | An instance: a name read and then assigned is not listed, its absence is an error and its value is the output |
| LiquidLaws.LoopsContain | internal/liquid/render.go:195-222 | The rounds of a loop end normally or in an error, never by break or continue |
| LiquidLaws.LoopLeaves | internal/liquid/render.go:186-223 | A break or continue leaves a loop if and only if there was nothing to loop over and its else body breaks or continues |
| LiquidLaws.ScopedStays | internal/liquid/render.go:105-223 | Where breaks stand inside loop bodies only, none leaves a rendering |
| LiquidLaws.ScopedRenders | internal/liquid/render.go:39-49 | Such a template never fails on a break |
| LiquidLaws.FirstHolding | internal/liquid/render.go:105-178 | Only the condition of the branch taken can report a missing name |
| LiquidLaws.TakenConditionReports | internal/liquid/render.go:171-184 | A name read only by an if condition is reported when that branch is taken |
| LiquidEngine.Render | internal/liquid/render.go:27-36 | From source to text: the raw source, or parse and render |
| LiquidEngine.SourceCoincidence | internal/liquid/render.go:27-49 | Whatever the source, the same values for the names it reads before binding them give the same result |
| LiquidNames.VariableNames | internal/liquid/lint.go:229-251 | The walk collects exactly the referenced names, in order, and the bound names |
| LiquidNames.Collector.WalkNodes | internal/liquid/lint.go:253-292 | The walk over nodes appends what they refer to and adds what they bind |
| LiquidNames.Collector.WalkNode | internal/liquid/lint.go:255-290 | The same for one node of any kind |
| LiquidNames.Collector.WalkExpr | internal/liquid/lint.go:294-310 | The walk over an expression, dynamic subscripts included |
| NamesMeaning.BoundMeans | internal/liquid/lint.go:253-292 | A name is bound exactly when some assignment or loop has it, at any depth |
| NamesMeaning.ReferencedMeans | internal/liquid/lint.go:253-310 | A name is referenced exactly when some node reads it, at any depth, in subscripts and filter arguments too |
| NamesMeaning.VariablesMean | internal/liquid/lint.go:143-162 | The list is, in order and once each, exactly the names some node reads and none binds, without forloop |
| NamesMeaning.FreeMeans | internal/liquid/lint.go:253-310 | A name is read before it is bound exactly when a node reads it, or one of its bodies does, or what follows does and the node has not bound it by then; a loop gives its body the loop variable and forloop |
| NamesMeaning.BindsMean | internal/liquid/render.go:105-223 | A node has bound a name exactly when it assigns it, or all its bodies have, an absent else body binding nothing |
| LiquidScanner.ScanExpr | internal/liquid/parse.go:469-538 | The scanning loop computes the token function or its first fault |
| LiquidScanner.ScanString | internal/liquid/parse.go:476-491 | The string literal with its escapes, or the fault that it does not end |
| LiquidScanner.ScanToken | internal/liquid/parse.go:473-535 | One token and where it ends |
| LiquidScanner.ScanSpelled | internal/liquid/parse.go:469-538 | Every sequence of well-spelled tokens has a source that scans to it |
| LiquidScanner.ScanRespelled | internal/liquid/parse.go:469-538 | Every source that scans can be respelled without changing its tokens |
| LiquidExpressions.ExprParser.Or | internal/liquid/parse.go:581-595 | The recursive descent computes the parsing function and stands after what it read |
| LiquidExpressions.ExprParser.And | internal/liquid/parse.go:597-611 | The same for and |
| LiquidExpressions.ExprParser.Comparison | internal/liquid/parse.go:613-637 | The same for comparisons |
| LiquidExpressions.ExprParser.Operand | internal/liquid/parse.go:639-664 | The same for literals, words and paths |
| LiquidExpressions.ExprParser.Path | internal/liquid/parse.go:668-722 | The path loop with its display name |
| LiquidExpressions.ExprParser.Index | internal/liquid/parse.go:680-711 | What stands between brackets |
| LiquidExpressions.ExprParser.Filters | internal/liquid/parse.go:757-790 | The filter loop, up to the end |
| LiquidExpressions.ExprParser.Args | internal/liquid/parse.go:774-786 | The argument loop of a filter |
| LiquidExpressions.ExprParser.Next | internal/liquid/parse.go:552-558 | Returns the first token left and moves past it |
| LiquidExpressions.ParseCondition | internal/liquid/parse.go:562-579 | Scans and parses a whole condition |
| LiquidExpressions.ParseOperandString | internal/liquid/parse.go:724-741 | Scans and parses a whole operand |
| LiquidExpressions.ParseOutputExpr | internal/liquid/parse.go:744-791 | Scans and parses a whole output expression |
| LiquidRecognition.ConditionExact | internal/liquid/parse.go:562-579 | A condition parses to an expression if and only if its tokens have a derivation that means it |
| LiquidRecognition.OperandExact | internal/liquid/parse.go:724-741 | The same for operands |
| LiquidRecognition.OutputExact | internal/liquid/parse.go:744-791 | The same for outputs and their filters |
| LiquidRecognition.ConditionRoundTrip | internal/liquid/parse.go:562-579 | Every condition of the grammar, spelled out, parses to itself |
| LiquidRecognition.OrComplete | internal/liquid/parse.go:581-664 | Every derivation of a condition is accepted, as what it means |
| LiquidRecognition.OrSound | internal/liquid/parse.go:581-664 | Whatever is accepted has a derivation that means it |
| LiquidBrackets.ConditionCloses | internal/liquid/parse.go:676-716 | An accepted condition closes every subscript, nested ones included, with a bracket if and only if it has as many closing as opening brackets |
| LiquidBrackets.OperandCloses | internal/liquid/parse.go:676-716 | The same for operands |
| LiquidBrackets.OutputCloses | internal/liquid/parse.go:676-716 | The same for outputs and their filters |
| LiquidBrackets.OnlyStringsClose | internal/liquid/parse.go:712-715 | Only the string literal ] can stand in for the bracket: in a source without it every subscript of whatever is accepted is closed by one |
| LiquidBrackets.StringCloses | internal/liquid/parse.go:712-715 | A source that is accepted though its subscript is closed by that string literal |
| LiquidRecognition.RightFoldExact | internal/liquid/parse.go:560-611 | The parse is the right-to-left fold if and only if no and comes before an or |
| LiquidRecognition.FoldsDisagree | internal/liquid/parse.go:560-611 | A condition on which the parse and the right-to-left fold have different outcomes |
| LiquidWords.ScanConcat | internal/liquid/parse.go:469-538 | Two sources side by side are read one after the other, where the first character of the second ends a token |
| LiquidWords.NameMeans | internal/liquid/parse.go:639-664 | [A-Za-z_][A-Za-z0-9_-]* is the variable of that name unless it is one of six words |
| LiquidWords.KeywordMeans | internal/liquid/parse.go:639-664 | What true, false, nil, null, empty and blank are |
| LiquidWords.NumeralMeans | internal/liquid/parse.go:492-497 | Digits and dots, with a minus or without, are the number they show |
| LiquidWords.TextMeans | internal/liquid/parse.go:476-491 | Either kind of quotes holds the text between them |
| LiquidWords.EscapedMeans | internal/liquid/parse.go:476-491 | A backslash holds the character after it as it is |
| LiquidWords.ComparisonMeans | internal/liquid/parse.go:613-637 | a w b, for any operand sources a and b and each of ==, !=, <>, >, <, >=, <= and contains, compares what they are by that operator |
| LiquidWords.OrMeans | internal/liquid/parse.go:581-595 | a or b, for any conditions |
| LiquidWords.AndMeans | internal/liquid/parse.go:597-611 | a and b, for any comparison a and any condition b: and binds tighter than an or in b |
| LiquidWords.MemberMeans | internal/liquid/parse.go:668-679 | a.k is the member k of what a selects |
| LiquidWords.SubscriptMeans | internal/liquid/parse.go:680-722 | a[b] selects by the text, the whole number or the variable b is, and shows so in missing names |
| LiquidWords.WholeNumber | internal/liquid/parse.go:680-690 | A whole number is itself as a subscript exactly within 64 bits |
| LiquidWords.FilterMeans | internal/liquid/parse.go:757-773 | A filter name after a bar puts the output before it through one more filter |
| LiquidWords.ArgumentMeans | internal/liquid/parse.go:774-786 | A colon and an operand give that filter its argument |
| LiquidWords.MoreArgumentsMean | internal/liquid/parse.go:774-786 | A comma gives the last filter one more |
| LiquidSource.Followed | internal/liquid/parse.go:79-124 | A source in front of one that starts with a tag or an output gives its nodes and then those |
| LiquidSource.TextMeans | internal/liquid/parse.go:79-137 | Text without an opening is itself |
| LiquidSource.IfElseMeans | internal/liquid/parse.go:323-362 | An if tag, any body, an else tag, any body, an endif tag and any rest give that if and the nodes of the rest |
| LiquidSource.IfMeans | internal/liquid/parse.go:323-362 | The same without an else |
| LiquidSource.ElsifMeans | internal/liquid/parse.go:323-362 | An elsif tag adds a branch before those of the if it would start |
| LiquidSource.UnlessElseMeans | internal/liquid/parse.go:364-393 | The same for unless with an else |
| LiquidSource.UnlessMeans | internal/liquid/parse.go:364-393 | And without |
| LiquidSource.ForElseMeans | internal/liquid/parse.go:395-428 | The same for loops with an else |
| LiquidSource.ForMeans | internal/liquid/parse.go:395-428 | And without |
| LiquidSource.LoopMeans | internal/liquid/parse.go:395-411 | v in a loops with v over what a is, runs of white space in a counting as one blank |
| LiquidSource.OutputMeans | internal/liquid/parse.go:252-286 | An output and any rest |
| LiquidSource.LeavingMeans | internal/liquid/parse.go:303-321 | A break or continue tag and any rest |
| LiquidSource.AssignMeans | internal/liquid/parse.go:430-458 | An assign tag for a name without dashes and any rest |
| LiquidSource.KeptMeans | internal/liquid/parse.go:793-822 | A body keeps all its nodes unless it shows nothing but white space; then it keeps exactly its assignments, in order |
| LiquidEndToEnd.DashesMean | internal/liquid/parse.go:83-137 | A dash on the left of a tag or output takes exactly the blanks before it, one on the right exactly those after it |
| LiquidEndToEnd.NumbersInSource | internal/liquid/render.go:27-49 | From characters to text: an if source on any two operands that are numbers renders to the text its operator says |
| LiquidEndToEnd.SourceChooses | internal/liquid/render.go:27-49 | The same for any condition: the else text exactly when its value is nil or false |
| LiquidEndToEnd.NameShown | internal/liquid/render.go:27-49 | A name in an output is the text it was given, or is missed |
| LiquidParser.Parser.ParseBlock | internal/liquid/parse.go:252-286 | The block loop computes the block function and stands at the stop tag or the end |
| LiquidParser.Parser.ParseTag | internal/liquid/parse.go:303-321 | The node a tag starts, or the fault |
| LiquidParser.Parser.ParseIf | internal/liquid/parse.go:323-362 | An if with its elsif branches and else body |
| LiquidParser.Parser.ParseBranches | internal/liquid/parse.go:328-361 | The branch loop of an if |
| LiquidParser.Parser.ParseUnless | internal/liquid/parse.go:364-393 | An unless with its else body |
| LiquidParser.Parser.ParseFor | internal/liquid/parse.go:395-428 | A for with its else body |
| LiquidParser.Parser.ParseElse | internal/liquid/parse.go:346-360 | An else body up to its closing tag |
| LiquidParser.ParseAssign | internal/liquid/parse.go:430-444 | An assign tag, or why it is malformed |
| LiquidParser.IsIdentifier | internal/liquid/parse.go:446-458 | The character loop decides identifiers |
| LiquidParser.RemoveBlank | internal/liquid/parse.go:798-811 | The two loops drop the text of a blank body only |
| LiquidParser.ParsePieces | internal/liquid/parse.go:239-246 | The nodes of a whole template, or its first fault |
| LiquidNesting.TemplateExact | internal/liquid/parse.go:252-428 | Pieces parse to nodes if and only if they are the in-order flattening of a well-nested tree whose nodes those are, less the text of blank bodies |
| LiquidNesting.BlockComplete | internal/liquid/parse.go:252-286 | Every flattening of trees is read back, up to a stop tag |
| LiquidNesting.BlockSound | internal/liquid/parse.go:252-286 | What was read is the flattening of trees, and nothing else was consumed |
| Spaces.BlankText | internal/liquid/parse.go:813-822 | Blank text is exactly text that is white space, one character of any of the Unicode spaces after another |
| Spaces.PaddedTrims | internal/liquid/parse.go:115 | A trimmed body with a blank on either side trims back to itself |
| LiquidNesting.BlankBodyQuiet | internal/liquid/parse.go:793-822 | Dropping the text of a blank body changes only its output: the same assignments, the same error |
| LiquidLexer.Lex | internal/liquid/parse.go:79-124 | The lexing loop computes the pieces of a source or its first fault |
| LiquidLexer.ReadFront | internal/liquid/parse.go:83-122 | One round: the text before an opening, its body without markers, and where it ends |
| LiquidLexer.LexPrinted | internal/liquid/parse.go:79-137 | Every sequence of printable pieces, printed, lexes back to itself |
| LiquidLexer.PrintedParses | internal/liquid/parse.go:234-248 | A printed template parses exactly when its pieces are well nested |
| LiquidLexer.Parse | internal/liquid/parse.go:234-248 | From source to nodes, or the first fault |
| Documents.ParsePromptDocument | snapshot.go:261-382 | A decoded document is accepted exactly when it meets every check, and then is the loaded document |
| Documents.LoadPrompts | snapshot.go:302-314 | Prompts carry no id |
| Documents.LoadDeployments | snapshot.go:315-347 | Deployments are complete, free of legacy references, and get their model key and template pin |
| Documents.LoadVersions | snapshot.go:348-359 | Versions carry the key their fields say |
| Documents.LoadModels | snapshot.go:360-377 | Models carry the key their fields say, cut at the first colon |
| Documents.CheckReferences | snapshot.go:497-532 | Exactly the documents whose every deployment refers to what is there pass |
| Documents.VersionKeyInjective | snapshot.go:478-487 | prompt@number names one version, whatever the prompt is called |
| Documents.ModelKeyCut | snapshot.go:489-495 | provider:model is cut back into its parts if and only if the provider has no colon |
| Documents.ModelKeyAmbiguous | snapshot.go:489-495 | Two pairs with one model key |
| DocumentsMeaning.AggregateLoads | snapshot.go:261-382 | Exactly which documents with the four collections load, check by check |
| DocumentsMeaning.LoadsAs | snapshot.go:302-377 | What such a document is once loaded: its own entries, each deployment with its model key and its one pin, nothing else |
| DocumentsMeaning.DetailLoads | snapshot.go:409-463 | Exactly which single-prompt documents load: parts that belong together, no collection beside them, no colon in the provider |
| Resolver.MergeParams | snapshot.go:552-561 | Right side wins, null included |
| Resolver.ProviderToolParams | resolver.go:281-317 | What the tools of a version stand for, or the failure |
| Resolver.StripAll | resolver.go:296-304 | The definitions without their metadata, or the failure |
| Resolver.MergeToolParams | resolver.go:266-279 | The union, unless a shared key has different canonical bytes |
| Resolver.MergeExact | resolver.go:266-279 | On decoded JSON a conflict is exactly a shared key with two values, and the merge then favours neither side |
| Resolver.MergeTwice | resolver.go:266-279 | Merging the same tools again changes nothing |
| Resolver.ResolveSnapshot | resolver.go:147-250 | The filled resolution, with the tools merged in, or the failure; over the fields of the document in ResolverMeaning.AnswerMeans |
| Resolver.FillVersion | resolver.go:213-229 | What is taken from the pinned version |
| Resolver.FillModel | resolver.go:204-237 | What is taken from the model, or the warning that it is not there |
| Resolver.DefaultResolves | resolver.go:147-250 | For a deployed prompt of an accepted document only the default template resolves, with no warning, to the pinned version number and model; provider and model are the deployment's own if and only if its provider has no colon |
| Resolver.EmbeddingResolves | resolver.go:198-202 | An embedding prompt resolves cleanly whatever template is named |
| Resolver.DetailResolves | snapshot.go:409-463 | A single-prompt document is accepted only when the provider has no colon, and resolves to exactly its own provider and model |
| Resolver.PinnedVersion | snapshot.go:497-532 | The pin of a deployed prompt is its own version with its own number |
| Resolver.NamedModel | snapshot.go:497-532 | The model a deployment names is there and cuts back into its key |
| Resolver.SettlesCleanly | resolver.go:238-242 | Merging tools keeps a resolution clean or fails on the tools |
| ResolverMeaning.ToolsMean | resolver.go:281-317 | What tools give or how they fail, field by field: the definitions without output_schema and output_examples, and tool_choice and parallel_tool_calls where they are not null |
| ResolverMeaning.AnswerMeans | resolver.go:147-250 | Whatever resolves, over the fields of the document: parameters of the deployment over the defaults and then only those of the tools, provider options of the deployment over those of the model, engine, tools and the one body of the kind from the pinned version, provider and model from the model, every warning, and every failure with its condition |
| FetchProtocol.SingleFlight | client.go:245-283 | In every run at most one fetch is running for a key |
| FetchProtocol.NeverLost | store.go:76-104 | Once a key has a document it has one for the rest of the run |
| FetchProtocol.OthersUntouched | client.go:298-360 | A step for one key leaves every other key's entry and attempts as they were |
| FetchProtocol.ServedChanges | client.go:298-360 | What a key serves changes only at the answer in time to its own fetch, by a usable document or by a 304; a late answer changes nothing |
| FetchProtocol.StalenessChanges | store.go:76-104 | A key is stale since the first failed or late fetch after the last one that succeeded |
| FetchProtocol.FlightsStep | client.go:250-280 | Every step keeps the running fetches and the in-flight table in one-to-one correspondence |
| FetchMeaning.CallMeans | client.go:245-271 | Asking starts a fetch exactly when none runs for the key and the last attempt, if any, is the TTL ago |
| FetchMeaning.AskMeans | client.go:302-306 | A fetch sends the ETag of the document served, if there is one |
| FetchMeaning.AnswerMeans | client.go:306-359 | A 200 in time with an accepted document of this environment and project that has the key replaces the entry, a 304 in time confirms it, anything else makes it stale |
| FetchMeaning.InstallMeans | client.go:393-400 | What a manual document replaces: exactly the entries of its prompts |
| FetchMeaning.FileMeans | store.go:194-233 | A file counts exactly when its document is accepted and of this environment and project |
| FetchMeaning.StartMeans | client.go:102-138 | The entry of each key at the start: the last key file, else the disk cache, else the bundle, with its times |
| FetchMeaning.ServedIsOfThisClient | store.go:225-233 | In every run without a manual install of the key, what it serves has the key and is of this environment and project |
| FetchTheorems.AttemptsSpaced | client.go:245-270 | In every run that installs no document of the key by hand each recorded start of the key is at least configCacheTTL after the one before it, unless that one was at the zero time; the clock may otherwise move in any way |
| FetchTheorems.StretchSpaced | client.go:245-270 | In any stretch of any run that installs no document of the key, the starts of the stretch are that far apart, whatever was installed before it |
| FetchTheorems.GuardRestored | client.go:326-356 | After any installs, a usable document that arrives in time makes the key serve guarded documents again until the next install |
| FetchTheorems.SpacedSpan | client.go:255-258 | So n starts span at least n - 1 times configCacheTTL |
| FetchTheorems.ServedTrusted | store.go:225-233 | In such a run what a key serves contains the key and passes the environment and project guard |
| FetchTheorems.ConfirmedIsServed | client.go:302-325 | In such a run the ETag a fetch sent is still that of the document its answer promotes |
| FetchTheorems.ServedResolves | client.go:198-220 | In every run, installs included, a served and deployed key resolves cleanly under the default template |
| FetchTheorems.LoadedRun | client.go:245-400 | In every run a key only serves an accepted document that has it |
| FetchTheorems.LoadedResolves | resolver.go:147-250 | Any accepted document resolves its deployed keys cleanly under the default template |
| FetchTheorems.LocalTrusted | client.go:102-138 | Whatever bundle and disk hold, only documents of this environment and project are loaded |
| FetchTheorems.LocalOrder | client.go:102-138 | A key is first served from the last of the key files that offers it, else the disk cache, else the bundle |
| FetchTheorems.InvStep | client.go:245-360 | The invariant of a key is kept by every step but a manual install of a document with that key |
| FetchTheorems.InstallForgets | client.go:393-400 | After a manual install the next call starts a fetch however recent the last attempt |
| FetchTheorems.InstallConfirmed | client.go:311-325 | A 304 that was on its way makes a manually installed document pass for the server's |
| FetchClient.SnapshotStore.GetEntry | store.go:34-42 | The entry of a key if it holds a document |
| FetchClient.SnapshotStore.Put | store.go:55-62 | Replaces one entry |
| FetchClient.SnapshotStore.Install | store.go:64-74 | Replaces the entry of every prompt of a document |
| FetchClient.SnapshotStore.Stale | store.go:79-90 | Marks the first failure and keeps the document |
| FetchClient.SnapshotStore.Fresh | store.go:93-104 | Promotes an entry and clears its staleness |
| FetchClient.SnapshotStore.Note | store.go:106-119 | Records an attempt, on an empty entry if there is none |
| FetchClient.SnapshotStore.Last | store.go:121-128 | The recorded attempt, or never |
| FetchClient.Client.constructor | client.go:69-98 | A new client starts a run from what is on disk |
| FetchClient.Client.LoadLocal | client.go:102-138 | Bundle, then disk cache, then key files, each over the last |
| FetchClient.Client.ReadSnapshotFile | store.go:194-218 | A file gives its document if it is accepted and guarded |
| FetchClient.Client.IsStale | client.go:238-243 | Fresh means from the server and younger than configCacheTTL |
| FetchClient.Client.IsFresh | client.go:245-249 | The look before the lock |
| FetchClient.Client.RequestFetch | client.go:250-271 | Takes the Call step: joins the fetch in flight, is gated, or starts one |
| FetchClient.Client.BeginFetch | client.go:302-306 | Takes the Ask step: the ETag of what is served |
| FetchClient.Client.HandleReply | client.go:306-359 | Takes the Answer step |
| FetchClient.Client.Settle | client.go:307-359 | The entries after any reply: error, 304, 200 with a refused, foreign, keyless, late or usable document, other status |
| FetchClient.Client.EndFetch | client.go:273-280 | Takes the Finish step; the fetch is no longer in flight for any key |
| FetchClient.Client.SetPromptDocument | client.go:393-400 | Takes the Install step; refused documents change nothing |
| FetchClient.Client.Resolve | client.go:198-220 | Fails as not ready exactly when nothing is served, and else answers from the fields of the document served as ResolverMeaning.Answers says; the default template resolves cleanly or fails for want of a deployment or on tools, with an environment named as long as no document of the prompt was installed by hand |

## Left out

- Goroutines, channels, timers and wake-up (`run`, `nudge`, `nextWakeup`, `flush`): steps under the lock stand for them, and no claim is made about when a lane is flushed.
- HTTP, header parsing, retry-after parsing, disk reads and writes and the atomic rename: replies and file contents are parameters.
- LogBuffer.Buffer.Close: the step under the lock; the flush that follows it is LogDrain.Shut, without the timeout that may cut it short.
- LogDrain.Shut: the timeout of the flush is not modelled, so it is given the time it needs.
- Lanes are values in a map here and pointers in the source; a lane is reached through the map only, so no aliasing is lost.
- The branches of `trimToBound` and `headSeq` for an empty ready batch are not followed: no such batch exists in any run.
- LogRuns.StepOK: sequence numbers are unbounded, the source counts in 64 bits.
- Integers of the clock are unbounded: durations do not saturate.
- sha256 is a function whose 64 printable characters are assumed where the digest size matters; the sampling bucket and threshold are parameters.
- `Redact`, `HashEndUser`, hash and none payload modes and `stripRetiredLogRefs`: callbacks and deletions without deeper invariants; the fixpoint is about full mode with no redact hook.
- JsonWriter.WriteCanonical: Go values of other types (integers, floats, raw messages, lists and maps of strings, structs) are not modelled; a value here is the JSON it is written as.
- `Normalize`, `FormatFloat` and `formatFloat`: reflection and float formatting; numbers are literal tokens, read through parameters.
- The text of a map in an output is a parameter, since SDKs leave it unspecified.
- `itoa` at the least 64-bit integer, where the source overflows.
- Parse errors are kinds, not their messages; `strconv.Quote` in display names is a parameter.
- LiquidLexer.LexPrinted: a print holds no whitespace-control markers; LiquidEndToEnd.DashesMean is about those, in a template of one tag or output.
- Lint (`Lint`, `whitespaceControlMarkers`, `tagNames`, `filterNames`) and the fallback of `Variables` for sources that do not parse.
- The JSON decoding of documents, messages and policies; a document starts here as its decoded fields, and which of several refused entries is reported is left open, as Go's map order leaves it.
- Declared variables, payload policy and the metadata of models and messages, which are copied only.
- Resolver.ResolveSnapshot: rendering the resolution with variables (`renderInto`, `renderValue`, which apply `LiquidEngine.Render` to each text) is left out, and so is the copied metadata.
- `warnOnce`, `PromptDocumentInfo`, `Refresh`, `RenderPrompt`, exports and events.
- FetchClient.Client.Resolve: the call that asks for a fresh document first is a step of its own here.
- `result_adapters.go`, `record.go`, `events.go`, `errors.go`, `config.go`, `stopkind.go`, `prompt.go`, `uuidv7.go`: field copying, defaults and tables.

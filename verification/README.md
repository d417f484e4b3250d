# Verification of M365Plus: streams, protocols, schedulers and tool-call contracts

M365Plus puts OpenAI and Anthropic style APIs in front of a streaming SignalR backend. This project
models the parts of it whose correctness is decided by the code itself and proves what they promise
over every input, every run or every interleaving.

- **Streams.** Text arrives cut at arbitrary points and what has been emitted cannot be taken back.
  `JsonString`, `StreamScan`, `StreamPrefix` and `ContentStream` model the extractor that publishes
  the assistant's content out of a JSON response still arriving; `JsonSpelling`, `ChatDocument`,
  `DocumentReading`, `DocumentScan`, `DocumentEnd` and `ChatAnswer` connect it with the JSON grammar
  of RFC 8259. `Citations`, `ClientStream`, `ClientLoop` and `ClientStory` model the citation filter and
  the client's event loop, `SignalRFrames` the record decoder, `ThinkingFilter` the thinking channel,
  `EmptyRetry` the retry of silent turns and `Redaction` the removal of inline images.
- **Concurrent protocols.** `SingleFlight`, `RefreshOutcome` and `TokenReplay` model the coalesced token
  refresh, `WriteBehind` and `FlushOutcome` the dirty-flag persistence, each as a step system with a
  program counter per thread; a step is one critical section, lock operation, external call or file
  operation. `SessionStore` is the sequential face of the store, `StepMeasure` the termination measure
  of both systems.
- **Sessions and schedulers.** `SessionCache` is the session cache over its files and the turns built
  on it, `AccountRotation` the quota rotation of accounts, `ProxyPool` the proxy ring, `Cycle` the
  arithmetic of rings.
- **Tool calls.** `Schema`, `SchemaMeaning` and `ArgumentValidation` model validation and pruning of arguments,
  `ToolLedger` and `LedgerMeaning` the evidence ledger that bounds repeated work.

`Options`, `Seqs`, `Spaces` and `Utf8` hold what the others share. A method that the source writes as a loop
is proved against a function, and the theorems are about that function.

Where the code does not keep a promise in full, the project says exactly when it does:

- What the extractor publishes is the same for every cutting of a response if and only if the content
  of its chat object is no string or its body is in reach of the decoder's window
  (`ContentStream.ChunksMatterExactlyOutOfReach`). Every legal string is, a body with a bad escape while
  at most fifteen bytes follow its backslash (`BadEscapeInPlace`); `CuttingsCanDiffer` shows a response and
  two cuttings that publish different texts.
- The comment at `pkg/accounts/cache.go:326-328` speaks of a one-time token redeemed once. A redeemed
  token is presented again only if a flight was opened with a stale snapshot, or a redemption was
  answered without a successor or not at all (`ReplayHasACause`), and each of the three does it
  (`LateCallerLosesTheToken`, `UnansweredTokenIsReplayed`). Without fallbacks, and if every redemption
  is answered with a successor, stale snapshots are exactly the cause (`ReplayExactlyOnStaleEntry`).
- Pruning runs after the required and enumeration checks, so an accepted value conforms exactly when
  `Settled` says so, and every accepted value of a schema does exactly when the schema passes the check
  `Coherent` (`CoherentExactly`).
- The request quota of an account is kept in all runs if and only if it is one or the number of accounts
  divides sixteen (`QuotaKeptExactly`). Otherwise rows reach one request less than two quotas
  (`VainRequestsDoubleTheRow`), and never more (`RowIsBelowTwoQuotas`).
- `SetSession` with an empty conversation id keeps the stored one exactly when the session is still in
  memory or has none (`BareSetKeepsConversation`); none of the callers in the model meets the other case.
- A forced tool choice switches the bound on repeated calls off (`ForcedTurnGrows`).
- Every change of a store appends it to the background loop's list again (`WriteBehind.EveryRunFinishes`).

Text is a sequence of characters, cut between characters; what the source counts in bytes is counted in
bytes of the encoding (`Utf8`). What the program does not decide comes in as a parameter or a choice:
clocks, outcomes of external calls and of file operations, the token endpoint's answers, new ids, the
JSON library (the string grammar excepted), word lists, and when a consumer goes away.

## Model

| member | source | states |
|---|---|---|
| JsonString.EndsWithStreamHighSurrogate | pkg/toolcalling/streamextract.go:292-309 | returns exactly whether the text ends in an unescaped \u escape of a high surrogate, counting the backslashes before it |
| JsonString.TailIsHighExactly | pkg/toolcalling/streamextract.go:292-309 | on a legal string body that character test holds if and only if the last unit of the body is a high surrogate escape |
| JsonString.DecodeStreamJsonPrefix | pkg/toolcalling/streamextract.go:277-290 | the back-off loop returns the decoding of the longest readable beginning within sixteen bytes, or nothing |
| JsonString.CompleteBodyDecodes | pkg/toolcalling/streamextract.go:277-290 | a complete legal body decodes to its decoding by section 7 of RFC 8259 |
| JsonSpelling.WrittenIsRead | pkg/toolcalling/streamextract.go:277-290 | every text, written by an encoder of section 7 of RFC 8259 with letters, code points in either case of each digit or surrogate pairs, decodes to itself |
| JsonSpelling.ReadExactlyWhatIsWritten | pkg/toolcalling/streamextract.go:277-290 | a body decodes to a text if and only if it is one of the ways to write that text, a surrogate escape that stands alone being one of U+FFFD |
| JsonString.PartialDecodeIsPrefix | pkg/toolcalling/streamextract.go:277-290 | a legal body cut anywhere decodes to a beginning of its full decoding |
| JsonString.HeldBackIsOneCharacter | pkg/toolcalling/streamextract.go:277-290 | with surrogates paired, a cut withholds exactly the one character it splits, so the window of sixteen always suffices |
| JsonString.ReadExactly | pkg/toolcalling/streamextract.go:277-290 | of any body, legal or not, exactly the leading units are read if they end within the last sixteen bytes, those of an unfinished body without high surrogates at their end; otherwise nothing |
| JsonString.ReadingsAgreeExactly | pkg/toolcalling/streamextract.go:277-290 | what is read of every beginning of a body is a beginning of what is read of all of it if and only if the body is in reach, a test on its text |
| JsonString.BadEscapeOutOfReach | pkg/toolcalling/streamextract.go:278-289 | behind legal units a backslash that opens no escape leaves them readable while at most fifteen bytes follow, and makes everything unreadable from the sixteenth on, although the units were shown |
| StreamScan.SkipStreamWhitespace | pkg/toolcalling/streamextract.go:246-256 | skips exactly the white space of JSON |
| StreamScan.ScanStreamJsonString | pkg/toolcalling/streamextract.go:258-275 | returns the text up to the first unescaped quote and whether there is one |
| StreamScan.StreamJsonEnd | pkg/toolcalling/streamextract.go:311-344 | finds the end of the balanced object, or the end of the text, as the specification of balance says |
| StreamScan.ExtractBalancedJsonSegment | pkg/toolcalling/simulated.go:892-935 | the batch scanner returns the text up to the same balanced end as the streaming one, or nothing |
| DocumentEnd.PrintedValueEnds | pkg/toolcalling/simulated.go:892-935 | an object or array printed anywhere in a text is balanced exactly at the end of its own text, for both kinds of brackets and whatever its strings hold |
| StreamScan.ScanStreamContentCandidate | pkg/toolcalling/streamextract.go:123-244 | the index loop with its depth counters computes the step-by-step scan used by the theorems |
| StreamPrefix.ScanOfPrefix | pkg/toolcalling/streamextract.go:123-244 | scanning a beginning of a text either agrees with scanning all of it or ends where the beginning ends |
| StreamPrefix.BalancedOfPrefix | pkg/toolcalling/streamextract.go:311-344 | the balanced end found on a beginning is the one found on every extension, or the end of the beginning |
| StreamPrefix.FoundBeforeEnd | pkg/toolcalling/streamextract.go:176-196 | no end of the object is reported before its content |
| StreamPrefix.EndOfOutcome | pkg/toolcalling/streamextract.go:202-235 | where the scanner closes the object the braces balance, and while it has come to no end they do not |
| StreamPrefix.ContentOfPrefix | pkg/toolcalling/streamextract.go:181-190 | the content read from a beginning is a beginning of the final content, and equal to it once the closing quote has arrived |
| StreamPrefix.SteadyExactly | pkg/toolcalling/streamextract.go:181-190 | on every text, content once read is never taken back while more arrives if and only if the value is no string or its body is in reach |
| ContentStream.ContentStreamExtractor.Feed | pkg/toolcalling/streamextract.go:34-57 | publishes exactly what it appends to its text; new state and output are those of the specification |
| ContentStream.ContentStreamExtractor.CurrentCandidate | pkg/toolcalling/streamextract.go:100-121 | selects the locked object, or the first one that has shown the chat shape after balanced ones that have not |
| ContentStream.ContentStreamExtractor.ParseText | pkg/toolcalling/streamextract.go:62-71 | the complete locked candidate, otherwise the whole buffer |
| ContentStream.ContentStreamExtractor.Commit | pkg/toolcalling/streamextract.go:75-93 | publishes the suffix of the final content that was not published and closes the extractor |
| ContentStream.PublishedIsText | pkg/toolcalling/streamextract.go:34-57 | at every moment of every run the published pieces join to the extractor's text |
| ContentStream.CandidateIsStable | pkg/toolcalling/streamextract.go:100-121 | for every chat object, with a string as content or not: on every beginning of the response the search selects nothing or the very object it selects on the complete response |
| ContentStream.CandidateEndIsBalanced | pkg/toolcalling/streamextract.go:191-243 | the end a candidate reports is where its braces balance, or the end of the text when they do not |
| ContentStream.ChunkingDoesNotMatter | pkg/toolcalling/streamextract.go:34-71 | for every cutting of a response whose chat object has no string as content or one in reach, legal strings included, the published pieces join to the content and the final parser gets exactly the chat object |
| ContentStream.SilentObjectIsHandedOn | pkg/toolcalling/streamextract.go:34-71 | with null, another value or nothing as content, nothing is published under any cutting, and the final parser gets exactly the object |
| ContentStream.ChunksMatterExactlyOutOfReach | pkg/toolcalling/streamextract.go:34-57 | every cutting of a response with a chat object publishes the same if and only if its content is no string or in reach |
| ContentStream.PublishedIsNeverWrong | pkg/toolcalling/streamextract.go:34-57 | after any part of the response what is published is a beginning of the final content |
| ContentStream.CommitAddsOnlyTheRest | pkg/toolcalling/streamextract.go:73-93 | a commit that agrees with the stream publishes nothing more, one that extends it only the rest; afterwards nothing is published |
| ChatAnswer.DocumentEnds | pkg/toolcalling/streamextract.go:311-344 | for every printed JSON document both scanners find the end where the grammar puts it, whatever strings it holds |
| DocumentScan.ScannerReadsDocument | pkg/toolcalling/streamextract.go:123-244 | on every printed JSON object the character scanner does what the reading of its tree says: it stops at the content where the grammar puts it, or closes the object at the end of its text |
| DocumentReading.ContentIsRead | pkg/toolcalling/streamextract.go:170-190 | in every document whose first choice's message has a content, the reading stops at that value |
| DocumentReading.ShapeExactly | pkg/toolcalling/streamextract.go:148-244 | the reading shows the chat shape if and only if the document has it |
| ChatAnswer.ScannerFindsContent | pkg/toolcalling/streamextract.go:123-244 | for every printed JSON document whose first choice's message has a content, the scanner stops at that value and at no other |
| ChatAnswer.ScannerSeesShape | pkg/toolcalling/streamextract.go:100-121 | a printed document shows the chat shape to the scanner if and only if it has a member choices that is an array and in it, or in an array behind it, an object with an object as message; the search goes on behind any other |
| ChatAnswer.PartsLeadToAnswer | pkg/toolcalling/streamextract.go:100-121 | prose without braces and every document that has not the chat shape are passed over |
| ChatAnswer.StreamIsExact | pkg/toolcalling/streamextract.go:34-71 | for every document of chat shape, whatever its content: the stream is what its reading says and the final parser gets exactly the document |
| ChatAnswer.StreamedWordsAreExact | pkg/toolcalling/streamextract.go:34-71 | prose and documents without the chat shape, then a document of the JSON grammar with white space whose first choice answers with a string, then anything: however cut, the stream is exactly the decoded content and the final parser gets exactly the document |
| ChatAnswer.StreamedTextIsWhatWasWritten | pkg/toolcalling/streamextract.go:34-71 | a response that writes a text in any of those ways as its content publishes exactly the text, however it is cut |
| ChatAnswer.WordlessDocumentIsSilent | pkg/toolcalling/streamextract.go:34-71 | a document of chat shape whose content is null or no string, or that has none anywhere, publishes nothing under any cutting and reaches the final parser |
| ChatAnswer.StreamedWordsAreNeverWrong | pkg/toolcalling/streamextract.go:34-57 | on every part of a response with a document of chat shape the stream is a beginning of what the document says |
| ChatAnswer.AnyBodyInPlace | pkg/toolcalling/streamextract.go:34-57 | any text put in the place of the content's body: cuttings agree if and only if it is in reach |
| ChatAnswer.BadEscapeInPlace | pkg/toolcalling/streamextract.go:277-290 | with a bad escape behind some units in that place, cuttings agree if and only if at most fifteen bytes follow it |
| ChatAnswer.CuttingsCanDiffer | pkg/toolcalling/streamextract.go:34-57 | a response and two cuttings of it that publish different texts |
| SingleFlight.RunKeepsInv | pkg/accounts/cache.go:329-411 | every step of every interleaving keeps the flight, registry, reader and capture invariants |
| SingleFlight.OneFlyerPerAccount | pkg/accounts/cache.go:331-409 | at any moment one thread per account id is between registering a flight and removing it, and one browser capture is alive over all accounts |
| SingleFlight.RepliesAreWrittenOnce | pkg/accounts/cache.go:378-406 | a flight's reply never changes once written, and it is written before the channel closes |
| SingleFlight.SharersReturnTheSameReply | pkg/accounts/cache.go:335-339 | everyone who shares a flight, early or late, returns the same reply |
| RefreshOutcome.OutcomeIsDecided | pkg/accounts/cache.go:296-345 | over every run a caller was told there is no account if and only if there was none at its read, got the account it read if and only if that was unexpired and not due, was refused if and only if it had expired without a refresh token, and shared a flight if and only if it had to be refreshed |
| RefreshOutcome.FlightBringsWhatWasGiven | pkg/accounts/cache.go:346-411 | over every run the reply of a flight is what the endpoint, else the hook, else the capture gave, with the new refresh token or the stored one; with nothing given it is the account read, offline; everyone who shares the flight returns it |
| RefreshOutcome.SavingStoresTheReply | pkg/accounts/cache.go:377-398 | the store then holds the account of the reply in the place of the old one, and every other account as before |
| RefreshOutcome.OtherStepsLeaveTheStore | pkg/accounts/cache.go:296-411 | no other step but the refusal of an expired account changes the store |
| SingleFlight.SomeoneCanMove | pkg/accounts/cache.go:337-339 | a waiter's flight is closed or its owner still flying: some thread can always move until all have returned |
| SingleFlight.EveryRunFinishes | pkg/accounts/cache.go:296-411 | no run takes more than eleven steps a thread, and one that cannot be continued has answered every caller |
| TokenReplay.ReplayHasACause | pkg/accounts/cache.go:296-345 | with any fallbacks configured, a redeemed token is presented again only if some flight was opened with a snapshot whose token was not the stored one, or some redemption was answered without a successor or not at all |
| TokenReplay.ReplayExactlyOnStaleEntry | pkg/accounts/cache.go:296-345 | without fallbacks, and if every redemption was answered with a successor, a finished run presented a redeemed token again if and only if some flight was opened with such a snapshot |
| TokenReplay.LateCallerLosesTheToken | pkg/accounts/cache.go:377-390 | a run of two callers in which the refused second flight writes the spent token back over its successor and marks the account expired |
| TokenReplay.UnansweredTokenIsReplayed | pkg/accounts/token.go:84-144 | runs of two callers, one after the other, in which the answer to the first is lost or holds no refresh token, and the second presents the redeemed token again with no stale snapshot |
| WriteBehind.LocksAreTakenUpwards | pkg/webadmin/persist.go:26-57 | a thread waits only for locks above those it holds: write lock, store lock, then the flag's or the list's |
| WriteBehind.LocksExclude | pkg/webadmin/persist.go:26-57 | two threads never hold the same lock |
| WriteBehind.FileNeverGoesBack | pkg/webadmin/persist.go:26-57 | over every interleaving with write failures the version in the file never decreases, and every step keeps the invariants |
| WriteBehind.CleanMeansSaved | pkg/webadmin/persist.go:19-42 | the file is always some content the map really had; with the flag clean and nobody between changing and marking or clearing and saving it is the present one |
| WriteBehind.FlushedIsDurable | pkg/webadmin/persist.go:44-57 | a flush that reports success has put every change made before it looked at the flag into the file, for good |
| FlushOutcome.FlushIsDecided | pkg/webadmin/persist.go:26-57 | over every run a flush that has ended skipped saving if and only if it was a pending one that found the flag clean, and otherwise reports success if and only if no file operation failed |
| FlushOutcome.FlagIsTheLastWord | pkg/webadmin/persist.go:19-57 | over every run the flag is what the last one to touch it made it: raised by a change or a failed save, cleared by a look |
| WriteBehind.SomeoneCanMove | pkg/webadmin/persist.go:19-57 | no deadlock: in every state that is not finished some thread can move |
| WriteBehind.EveryRunFinishes | pkg/webadmin/persist.go:19-76 | no run takes more than ten steps a thread; a finished one has saved every change or kept the flag raised, and has listed the store once per change |
| SessionStore.Store.Upsert | pkg/webadmin/sessions.go:74-88 | stores the conversation under its id or a new one, sets the times, marks the store; what is not in the file is marked |
| SessionStore.Store.Delete | pkg/webadmin/sessions.go:90-99 | removes and marks exactly when the id was there |
| WriteBehind.RunIsExplained | pkg/webadmin/persist.go:19-42 | over every interleaving the versions of the map are those of the operations applied one after the other, each thread at most once, and only deletions of an id that is not there change nothing |
| WriteBehind.UntouchedEntryStays | pkg/webadmin/persist.go:19-57 | over every run an entry that no operation names is the same in every version of the map and in the file |
| SessionStore.Store.FlushPending | pkg/webadmin/persist.go:26-42 | saves when marked; the mark stays exactly when saving fails |
| SessionStore.Store.FlushNowBlocking | pkg/webadmin/persist.go:44-57 | saves in any case and reports whether it did; the mark is left exactly on failure |
| SessionCache.ContextCache.constructor | pkg/servers/api.go:184-194 | an empty, enabled cache over the files, which is consistent with them |
| SessionCache.ContextCache.EvictOldest | pkg/servers/api.go:285-291 | drops the oldest entries until at most 256 are left |
| SessionCache.ContextCache.GetSession | pkg/servers/api.go:209-233 | reads memory, then the file, which it remembers; nothing when disabled or undecodable |
| SessionCache.ContextCache.SetSession | pkg/servers/api.go:251-271 | stores in memory and file, an empty conversation id standing for the one in memory |
| SessionCache.ContextCache.Set | pkg/servers/api.go:238-248 | changes the conversation id alone, and only when it differs |
| SessionCache.ContextCache.Delete | pkg/servers/api.go:274-282 | removes from memory, order and file, also when disabled |
| SessionCache.ApiServer.SessionTurnFor | pkg/servers/api.go:2372-2389 | mints a client id when there is none, counts the turn, stores both |
| SessionCache.ApiServer.UpdateChatStreamSession | pkg/servers/api.go:2349-2366 | forgets the session after an empty answer, otherwise stores the new conversation id |
| SessionCache.EvictForgets | pkg/servers/api.go:285-291 | eviction keeps the index duplicate-free and equal to the keys in memory, at most 256 entries, and the newest one |
| SessionCache.PutWritesDisk | pkg/servers/api.go:251-271 | a write keeps memory and files together if and only if it reaches the file or the file says the same already |
| SessionCache.CacheIsAPlainMap | pkg/servers/api.go:175-291 | no sequence of calls, disabling included, tells the bounded cache from an unbounded map: all answers are equal |
| SessionCache.TurnIsCounted | pkg/servers/api.go:2372-2389 | a started turn leaves every conversation id that a get answers as it was, raises the turn count in the file by one, keeps or mints the client id, and touches no other session |
| SessionCache.TurnIsClosed | pkg/servers/api.go:2349-2366 | the end of a turn stores the conversation it went to and nothing else; an empty answer forgets the session; other sessions stay |
| SessionCache.SetIsTold | pkg/servers/api.go:238-248 | after a conversation is set a get answers it, the empty one changes nothing, client and turns stay |
| SessionCache.BareSetKeepsConversation | pkg/servers/api.go:257-261 | called on its own with an empty conversation id, SetSession keeps the stored one if and only if the session is in memory or has none |
| SessionCache.TurnsShareOneClient | pkg/servers/api.go:2368-2389 | the client id is minted on the first turn, the only start of the session, and every later turn has it, whatever other sessions do and whatever is evicted in between |
| ArgumentValidation.RequiredFromSchema | pkg/toolcalling/simulated.go:209-236 | the non-empty strings of the required array, in order |
| ArgumentValidation.ValidateEnum | pkg/toolcalling/schema.go:219-234 | accepts exactly listed values, and anything when nothing is listed |
| ArgumentValidation.ValidateNode | pkg/toolcalling/schema.go:136-185 | verdict and result are those of the specification whatever order the maps are walked in |
| ArgumentValidation.ValidateObject | pkg/toolcalling/schema.go:189-215 | checks required names, prunes in place, then checks declared children, in any order of keys |
| ArgumentValidation.ToolCallSatisfiesRequired | pkg/toolcalling/simulated.go:274-292 | true if and only if every required name has a value that is neither null nor blank text |
| ArgumentValidation.Validate | pkg/toolcalling/schema.go:80-113 | forwards exactly the calls admitted, as they came or pruned; asking again can help unless the tool choice is none |
| ArgumentValidation.AdmittedExactly | pkg/toolcalling/schema.go:64-113 | a call is admitted if and only if the tool choice leaves all tools open or pins this one, every required argument is there and neither null nor white space, and the arguments are an object that meets a schema that says anything in every place, or null where that passes for an empty object |
| ArgumentValidation.ForwardedCallKeepsItsContract | pkg/toolcalling/schema.go:80-113 | what is forwarded for a tool with a coherent schema conforms, is accepted again unchanged, and still has every required argument, none of them null or white space |
| Schema.AcceptedConformsExactlyWhenSettled | pkg/toolcalling/schema.go:127-234 | an accepted value is pruned to one that conforms at every depth, and that a second run accepts, if and only if pruning took away no required name and no enumerated value became unlisted |
| Schema.CoherentSettles | pkg/toolcalling/schema.go:136-215 | a schema that passes the check guarantees that for every accepted value |
| Schema.CoherentExactly | pkg/toolcalling/schema.go:127-234 | every accepted value is pruned to one that conforms if and only if the schema passes the check: listed entries that fit stay listed, and closed objects that can be satisfied declare what they require, at every depth |
| Schema.PruneIsIdempotent | pkg/toolcalling/schema.go:195-202 | pruning twice is pruning once, for every value and schema |
| Schema.SecondRunChangesNothing | pkg/toolcalling/schema.go:127-132 | with a coherent schema the result conforms, is accepted again and stays as it is |
| Schema.OnlyUndeclaredGoes | pkg/toolcalling/schema.go:195-213 | the result has exactly the nodes that lie below no undeclared name of a closed object, unchanged |
| SchemaMeaning.AcceptsExactly | pkg/toolcalling/schema.go:136-234 | a value is accepted if and only if at every place in it the schema that applies there has its type, lists it where it lists anything, and finds its required names, each keyword read off the schema by itself |
| SchemaMeaning.PrunedExactly | pkg/toolcalling/schema.go:195-213 | pruning keeps exactly the places that no step of the way enters by a name that an object with additionalProperties false and declared properties does not declare |
| SchemaMeaning.ConformsExactly | pkg/toolcalling/schema.go:127-234 | a value conforms if and only if it is accepted and pruning takes nothing away |
| Schema.RequiredNameIsPruned | pkg/toolcalling/schema.go:190-202 | an accepted value that loses a required, undeclared name |
| Schema.ListedObjectIsPruned | pkg/toolcalling/schema.go:140-142 | an accepted enumerated object that is no longer listed after pruning |
| AccountRotation.Server.Next | pkg/accounts/cache.go:284-294 | returns the account at the index and moves the index on the ring |
| AccountRotation.Server.NextRotationAccount | pkg/webadmin/admin.go:477-558 | all three policies, with their probes, choose what the specification chooses |
| AccountRotation.ServedExactlyWhenHealthy | pkg/webadmin/admin.go:488-557 | with at most sixteen accounts a request is served if and only if one of them is healthy, under every policy |
| AccountRotation.PinnedAccountStays | pkg/webadmin/admin.go:535-542 | a healthy account in use stays, with rotation off and below the limit |
| AccountRotation.NextHealthyServes | pkg/webadmin/admin.go:496-557 | when the account in use does not serve, the first healthy one among the next sixteen does, among the next seventeen in round robin; it is remembered with one request counted and the index stands behind it |
| AccountRotation.PinnedAccountServesOn | pkg/webadmin/admin.go:532-556 | with rotation off, whoever served a request serves all that follow while it is healthy |
| AccountRotation.QuotaIsServed | pkg/webadmin/admin.go:488-512 | an account that takes over serves its whole quota while it is healthy |
| AccountRotation.RoundRobinServesEachOnce | pkg/webadmin/admin.go:514-530 | without a limit, and with at most seventeen accounts, as many requests as there are healthy accounts are served by each of them once |
| AccountRotation.FailureKeepsStepExactly | pkg/webadmin/admin.go:496-513 | a request that finds nobody leaves the round robin behind the current account if and only if sixteen is a multiple of the number of accounts |
| AccountRotation.QuotaIsKept | pkg/webadmin/admin.go:489-512 | whatever was served before, no account serves more than the limit in a row while another stays healthy, if no request before failed or the number of accounts divides sixteen |
| AccountRotation.RowIsBelowTwoQuotas | pkg/webadmin/admin.go:489-513 | in every run, failed requests included, a row is at most one request short of two quotas |
| AccountRotation.QuotaKeptExactly | pkg/webadmin/admin.go:489-513 | the quota is kept in all runs if and only if it is one or the number of accounts divides sixteen |
| AccountRotation.VainRequestsDoubleTheRow | pkg/webadmin/admin.go:489-513 | for every list of accounts whose number does not divide sixteen, and every limit, a run with one served request and some in vain, after which the first account serves one request less than two quotas in a row while the second is healthy |
| ProxyPool.Pool.Pick | pkg/webadmin/outbound/pool.go:46-64 | picks the first eligible entry at or after the index and leaves the index behind it |
| ProxyPool.PickIsTheNext | pkg/webadmin/outbound/pool.go:46-64 | the entry picked is out of cooldown, or all are cooling, and none such is nearer ahead of the index |
| ProxyPool.PicksVisitEachOnce | pkg/webadmin/outbound/pool.go:46-64 | with k entries out of cooldown, or all cooling, any k picks in a row return each of them once from any index, also past the end |
| ProxyPool.Pool.Mark | pkg/webadmin/outbound/pool.go:65-81 | only the first entry with that address changes: reset on success, one more failure and a longer cooldown otherwise |
| ProxyPool.CooldownGrows | pkg/webadmin/outbound/pool.go:73-76 | after f failures in a row the cooldown is 2f seconds, at most two minutes |
| ProxyPool.Pool.Remove | pkg/webadmin/outbound/pool.go:130-139 | removes the first entry with that address and leaves the index alone |
| ToolLedger.SignatureIdentifiesCall | pkg/toolcalling/ledger.go:137-139 | signatures are equal if and only if name and canonical arguments are, for names without NUL |
| LedgerMeaning.SignatureIsTheCall | pkg/toolcalling/ledger.go:85-139 | two calls have one signature if and only if their names are equal and their arguments are both blank, both JSON with one canonical text, or neither and equal when trimmed |
| LedgerMeaning.DroppedExactly | pkg/toolcalling/ledger.go:199-229 | a call is dropped if and only if two completed results have its name and, in that sense, its arguments |
| LedgerMeaning.ForwardedExactly | pkg/servers/api.go:1323-1342 | unless the tool choice forces a call, the calls without two such results go on in their order; when it does, all of them |
| LedgerMeaning.ResultIsTheLast | pkg/toolcalling/ledger.go:148-172 | a call has the last result given for its id, if it has an id and one was given |
| LedgerMeaning.RepeatedCallExactly | pkg/toolcalling/ledger.go:174-195 | the ledger reports a repeated call if and only if two answered calls have one name and the same arguments |
| LedgerMeaning.RepeatedFailureExactly | pkg/toolcalling/ledger.go:174-195 | it reports a repeated failure if and only if two such calls failed the same way |
| LedgerMeaning.RepetitionIsNamed | pkg/toolcalling/ledger.go:174-190 | the name reported is that of the last call that repeats a failure, else of the first that repeats a call, else none |
| ToolLedger.CompactKeepsBothEnds | pkg/toolcalling/ledger.go:108-119 | a result of more than 4000 bytes keeps its first 1333 and last 2587 bytes around a marker with the number removed in decimal digits; a shorter one stays whole |
| ToolLedger.BuildLedger | pkg/toolcalling/ledger.go:148-195 | splits the calls, in order, into answered and pending ones; the flags hold if and only if two answered calls have one signature, or fail the same way |
| ToolLedger.EveryCallIsFiledOnce | pkg/toolcalling/ledger.go:159-172 | answered and pending calls together are the calls, each filed once and in the order of the calls |
| ToolLedger.NamedMeansRepeated | pkg/toolcalling/ledger.go:174-190 | a call is named as repetition only if something was repeated |
| ToolLedger.CompletedCount | pkg/toolcalling/ledger.go:199-208 | counts the completed results with the signature |
| ToolLedger.FilterRepeated | pkg/toolcalling/ledger.go:217-229 | drops exactly the calls with two completed results and keeps the others in order |
| ToolLedger.DropSettledToolCalls | pkg/servers/api.go:1323-1342 | forwards everything when a call is forced; a turn left without calls stops and says something |
| ToolLedger.RoundCounts | pkg/servers/api.go:1323-1342 | a round adds to a signature's completed results what its batch asks for, and nothing once there are two, unless a call is forced |
| ToolLedger.TurnIsBounded | pkg/toolcalling/ledger.go:210-229 | over every turn a signature gets at most one result more than a batch repeats it: two for distinct calls |
| ToolLedger.ForcedTurnGrows | pkg/servers/api.go:1314-1326 | with forced calls the bound is off: every round adds what it asks for |
| ToolLedger.DistinctCallsCountOnce | pkg/toolcalling/ledger.go:137-139 | a batch of pairwise distinct calls asks for each signature at most once |
| Citations.StripRemovesRuns | pkg/client/citations.go:73-85 | text without a run stays, a complete run goes, an open run goes with all that follows: the equations that determine stripping |
| Citations.StripIsIdempotent | pkg/client/citations.go:77-85 | stripped text holds no start delimiter and is left alone |
| Citations.CitationFilter.Push | pkg/client/citations.go:33-60 | emits what one pass leaves of the new text and holds back an open run |
| Citations.CitationFilter.Flush | pkg/client/citations.go:67-71 | drops and reports the open run |
| Citations.StripCitations | pkg/client/citations.go:77-85 | equals the one pass from outside a run |
| Citations.ChunkingDoesNotMatter | pkg/client/citations.go:33-60 | for every chunking the outputs join to the stripped text and what is held is the open run of the whole text, without an end delimiter |
| ClientStream.EmittedTextIsTheAnswer | pkg/client/client.go:606-789 | in every reachable state the emitted text chunks join to the text the loop counts on, nothing is taken back, a final chunk comes with text or a tool call |
| ClientStream.OneTerminalChunkLast | pkg/client/client.go:762-784 | every run that is neither refused nor abandoned ends with exactly one terminal chunk, the last |
| ClientStream.SnapshotsLeaveTheLast | pkg/client/client.go:719-734 | snapshots that each continue the one before leave the stripped text of the last |
| ClientStream.CursorTextIsStripped | pkg/client/client.go:736-743 | text at the cursor alone leaves the stripped text of all of it, however it is cut |
| ClientStory.CallerIsToldTheStory | pkg/client/client.go:606-789 | for every sequence of events the caller gets, as far as it has room, exactly the thoughts and image links of every message, what snapshots and cursor add, and the chunk the ending event calls for; the run is over if and only if the events end it or a chunk was refused |
| ClientStory.FinalChunkTellsAll | pkg/client/client.go:684-784 | a final chunk comes at a completion, with exactly the tool calls and searches of all messages received, in order, with finish tool_calls if and only if there are any, and with the last conversation named; the thinking chunks join to the thoughts received |
| ClientStory.EveryImageIsLinkedOnce | pkg/client/client.go:972-1015 | every image url that is not empty is linked exactly once, in the message in which it first appears |
| ClientLoop.StreamLoop.ApplyArg | pkg/client/client.go:641-745 | one update argument: thoughts, images and tool calls of all messages, the answer of the last, then the cursor |
| ClientLoop.StreamLoop.HandleEvent | pkg/client/client.go:637-784 | one event does what the specification says, with its early returns |
| ClientLoop.StreamLoop.Run | pkg/client/client.go:606-789 | the loop over all events ends in the state of the specification |
| EmptyRetry.StreamRelay.RelayStream | pkg/servers/api.go:4280-4309 | relays one attempt chunk by chunk as specified |
| EmptyRetry.StreamRelay.Run | pkg/servers/api.go:4264-4335 | the retry loop ends in the state of the specification |
| EmptyRetry.RetriesAreInvisible | pkg/servers/api.go:4255-4337 | for every upstream: at most one call more than retries, each after an attempt that completed in silence and in a new conversation; the client sees the last attempt alone, ended by exactly one terminal chunk unless cancelled |
| EmptyRetry.LastAttemptIsTold | pkg/servers/api.go:4280-4331 | the chunks sent join to the text and the thinking of the last attempt, without the thinking for a simulated transport, and end with its end or that the connection closed; a cancelled run has sent a beginning |
| EmptyRetry.SilentExactly | pkg/servers/api.go:4286-4306 | an attempt is silent if and only if it has no text, no thinking that would be passed on, and completes |
| EmptyRetry.CancelledForAReason | pkg/servers/api.go:4264-4335 | a run is cancelled only when a chunk was refused, or the request was gone at the close of a stream or in the wait before a retry |
| Redaction.RedactImageData | pkg/servers/api.go:1224-1247 | the loop that searches the grown text again terminates and equals the single pass |
| Redaction.PiecesStayInOrder | pkg/servers/api.go:1224-1247 | the text is its pieces with the images between them, the result the same pieces in order with a marker for each image |
| Redaction.OnlyImagesGo | pkg/servers/api.go:1227-1245 | what is taken out begins with data:image/ and holds only data characters behind its first comma |
| Redaction.DataGoesToItsEnd | pkg/servers/api.go:1234-1243 | the data of an image goes with it to its end: what follows a marker does not go on with data |
| Redaction.RedactionIsComplete | pkg/servers/api.go:1224-1247 | in the result no comma follows the prefix, and redacting again changes nothing |
| ThinkingFilter.ThinkingStreamFilter.Feed | pkg/toolcalling/thinkingfilter.go:19-38 | puts out the kept ones of the lines completed and keeps the open line and the fence |
| ThinkingFilter.ThinkingStreamFilter.Flush | pkg/toolcalling/thinkingfilter.go:55-62 | puts out the open line if it is kept |
| ThinkingFilter.ThinkingStreamFilter.ConsumeLine | pkg/toolcalling/thinkingfilter.go:67-80 | keeps a line exactly outside a fence when it is no fence mark, not blank and not about the transport |
| ThinkingFilter.LinesThatStay | pkg/toolcalling/thinkingfilter.go:19-80 | of a text of lines exactly those are put out, in order, behind which an even number of fences stand and which are neither fences themselves nor blank nor about the transport; a flush adds the open line under the same condition |
| ThinkingFilter.ChunkingDoesNotMatter | pkg/toolcalling/thinkingfilter.go:19-38 | for every chunking, also within a fence mark, output and carried state are those of one chunk |
| ThinkingFilter.FilterTransportThinking | pkg/toolcalling/thinkingfilter.go:45-52 | the batch form is feeding, flushing and trimming line ends |
| ThinkingFilter.OnlyLineEndsGo | pkg/toolcalling/thinkingfilter.go:45-52 | what the batch form takes off the end are line ends, all of them and nothing else |
| ThinkingFilter.FilteringIsIdempotent | pkg/toolcalling/thinkingfilter.go:40-52 | filtering a filtered text changes nothing |
| SignalRFrames.FrameDecoder.Feed | pkg/client/signalr_frames.go:18-43 | fails exactly when the buffer outgrows 8 MiB or a complete record cannot be decoded; otherwise returns the frames completed and keeps the open record |
| SignalRFrames.ChunkingDoesNotMatter | pkg/client/signalr_frames.go:18-43 | while no call fails, the frames are the decoded non-blank records of the whole stream split at 0x1E; the buffer is its delimiter-free tail, at most 8 MiB |
| SignalRFrames.SmallStreamFailsOnlyOnBadRecords | pkg/client/signalr_frames.go:18-43 | a stream that fits the buffer fails, under every cutting, if and only if a complete record cannot be decoded |
| SignalRFrames.RecordsAreRead | pkg/client/signalr_frames.go:18-43 | a stream of records, each ended by 0x1E, and an open one, within eight mebibytes: under every cutting no call fails if and only if every record is white space or an object, and then the frames are the objects in order and the buffer is the open record |

## Left out

- HTTP handlers, SSE writing, WebSocket dialing, OAuth, SSO, browser control, image download and the sing-box and Cloudflare code are input and output; upstreams are arbitrary sequences of events.
- Splitting of UTF-8 sequences: chunks are cut between characters, as the upstream delivers decoded JSON strings.
- Token-limit functions rest on the counts of a BPE tokenizer, which is not part of this model.
- Candidate scores, prompts and phrase lists of the final parser; `Commit` takes the final parser as any function from text to text.
- Account lookup by e-mail or object id, import and identity merging, deletion of accounts and the manual switch: the account list is fixed and looked up by id.
- `EnsureValid` after a rotation has chosen an account: the rotation model ends with the choice.
- Wall-clock time: whether an interval is due, a token expired or a proxy cooling is a choice or a number.
- `userSessionStore` and its time-to-live, the API key store with its rollback, the usage log and the cleanup loops of the web administration.
- Processes that die between writing the temporary file and renaming it: the two steps are modelled, a restart is not.
- Concurrent calls on the session cache: `sessionTurnFor` reads and writes in two locked calls, and the theorems are about sequential runs.
- SessionCache.CacheIsAPlainMap: assumes that file writes and removals succeed; what a failed write does is stated by `PutWritesDisk`.
- ArgumentValidation.Validate: models the verdict and whether it can be repaired, not the wording of the reason, which may depend on the order of keys.
- Schema.AcceptedConformsExactlyWhenSettled: numbers are reals, so the float64 rounding of very long literals and negative zero are not modelled.
- Restriction of the history to the active turn, the round limit and the evidence note: the ledger is given the calls and results of the turn.
- The buffered form of the empty retry repeats the streaming one without chunks.
- Logging, throttling counters and reuse of connections in the client's event loop.
- The extraction of tool calls and search queries from backend messages: a message of the model carries what was extracted.
